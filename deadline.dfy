/** The deadline slot at line 1 of an entry, `DEADLINE: <2024-05-01 Wed>`, and the boundary
    between an entry's header lines and its body. */
module Deadline {
  import opened Wrappers
  import opened Text
  import opened OrgDate

  const DeadlinePrefix: string := "DEADLINE: <"

  /** DEADLINE_PATTERN `^DEADLINE: <(DATETIME)>`. The optional time is taken greedily, and as a
      time begins with a space where the `>` would otherwise stand, backtracking never helps. */
  predicate DeadlineMatch(line: string) {
    && DeadlinePrefix <= line
    && DateCoreAt(line, 11)
    && 11 + DatetimeLength(line, 11) < |line|
    && line[11 + DatetimeLength(line, 11)] == '>'
  }

  /** Equal slices have equal sub-slices. */
  lemma {:induction false} SubSlice(a: string, ai: nat, b: string, bi: nat, n: nat, p: nat, q: nat)
    requires ai + n <= |a| && bi + n <= |b| && a[ai..ai + n] == b[bi..bi + n]
    requires p <= q <= n
    ensures a[ai + p..ai + q] == b[bi + p..bi + q]
  {
    var x, y := a[ai + p..ai + q], b[bi + p..bi + q];
    forall k | 0 <= k < |x|
      ensures x[k] == y[k]
    {
      assert x[k] == a[ai..ai + n][p + k];
      assert y[k] == b[bi..bi + n][p + k];
    }
  }

  /** Two strings that agree on `n` characters from `ai` and `bi` agree on the datetime fields
      those characters hold. */
  lemma {:induction false} FieldsAgree(a: string, ai: nat, b: string, bi: nat, n: nat)
    requires ai + n <= |a| && bi + n <= |b| && a[ai..ai + n] == b[bi..bi + n]
    ensures n >= 14 ==> (DateCoreAt(a, ai) <==> DateCoreAt(b, bi))
    ensures n >= 20 ==> (TimeAt(a, ai + 14) <==> TimeAt(b, bi + 14))
  {
    if n >= 14 {
      SubSlice(a, ai, b, bi, n, 0, 4);
      SubSlice(a, ai, b, bi, n, 5, 7);
      SubSlice(a, ai, b, bi, n, 8, 10);
      SubSlice(a, ai, b, bi, n, 11, 14);
      SubSlice(a, ai, b, bi, n, 4, 5);
      SubSlice(a, ai, b, bi, n, 7, 8);
      SubSlice(a, ai, b, bi, n, 10, 11);
      assert a[ai + 4] == a[ai + 4..ai + 5][0] && b[bi + 4] == b[bi + 4..bi + 5][0];
      assert a[ai + 7] == a[ai + 7..ai + 8][0] && b[bi + 7] == b[bi + 7..bi + 8][0];
      assert a[ai + 10] == a[ai + 10..ai + 11][0] && b[bi + 10] == b[bi + 10..bi + 11][0];
    }
    if n >= 20 {
      SubSlice(a, ai, b, bi, n, 15, 17);
      SubSlice(a, ai, b, bi, n, 18, 20);
      SubSlice(a, ai, b, bi, n, 14, 15);
      SubSlice(a, ai, b, bi, n, 17, 18);
      assert a[ai + 14] == a[ai + 14..ai + 15][0] && b[bi + 14] == b[bi + 14..bi + 15][0];
      assert a[ai + 17] == a[ai + 17..ai + 18][0] && b[bi + 17] == b[bi + 17..bi + 18][0];
    }
  }

  /** Group 1 of the match: the datetime token between the angle brackets. */
  function DeadlineGroup(line: string): (g: string)
    requires DeadlineMatch(line)
    ensures DateCoreAt(g, 0) && |g| == DatetimeLength(line, 11)
    ensures |g| == 20 <==> TimeAt(g, 14)
  {
    var n := DatetimeLength(line, 11);
    var g := line[11..11 + n];
    FieldsAgree(g, 0, line, 11, n);
    FieldsAgree(g, 0, line, 11, 14);
    g
  }

  /** The token in a deadline line converts to the date its fields spell. */
  lemma {:induction false} GroupDate(line: string)
    requires DeadlineMatch(line)
    ensures ConvertibleDate(DeadlineGroup(line))
    ensures OrgDatetimeToJs(DeadlineGroup(line)) == Some(MatchedDate(line, 11))
  {
    var g := DeadlineGroup(line);
    assert FindDatetime(g, 0) == Some(0);
    var n := |g|;
    assert g[0..n] == line[11..11 + n];
    SubSlice(g, 0, line, 11, n, 0, 4);
    SubSlice(g, 0, line, 11, n, 5, 7);
    SubSlice(g, 0, line, 11, n, 8, 10);
    if TimeAt(line, 25) {
      SubSlice(g, 0, line, 11, n, 15, 17);
      SubSlice(g, 0, line, 11, n, 18, 20);
    }
  }

  /** `getDeadline`: the date in line 1, when line 1 is a deadline line. */
  function GetDeadline(lines: seq<string>): (r: Option<DateTime>)
    ensures r.Some? <==> |lines| >= 2 && DeadlineMatch(lines[1])
    ensures r.Some? ==> r.value == MatchedDate(lines[1], 11)
  {
    if |lines| < 2 || !DeadlineMatch(lines[1]) then None
    else
      GroupDate(lines[1]);
      OrgDatetimeToJs(DeadlineGroup(lines[1]))
  }

  /** The line `setDeadline` writes. */
  function DeadlineLine(d: DateTime): string
    requires Valid(d)
  {
    DeadlinePrefix + JsDatetimeToOrg(d) + ">"
  }

  /** `DEADLINE_PATTERN.test(lines[1])`; an absent line reads as `undefined`, which does not match. */
  predicate HasDeadlineLine(pieces: seq<string>) {
    |pieces| >= 2 && DeadlineMatch(pieces[1])
  }

  /** The pieces `setDeadline` leaves before joining them again. */
  function DeadlinePieces(pieces: seq<string>, deadline: Option<DateTime>): (r: seq<string>)
    requires |pieces| >= 1
    requires deadline.Some? ==> Valid(deadline.value)
    ensures |r| >= 1 && r[0] == pieces[0]
    ensures deadline.Some? ==> |r| >= 2 && r[1] == DeadlineLine(deadline.value)
  {
    match deadline
    case None => if HasDeadlineLine(pieces) then pieces[..1] + pieces[2..] else pieces
    case Some(d) =>
      if HasDeadlineLine(pieces) then pieces[1 := DeadlineLine(d)]
      else pieces[..1] + [DeadlineLine(d)] + pieces[1..]
  }

  /** `setDeadline`: split on newlines, remove, overwrite or insert line 1, and join again.
      A date passed in holds valid calendar fields, as every JavaScript `Date` does. */
  function SetDeadline(fulltext: string, deadline: Option<DateTime>): (r: string)
    requires deadline.Some? ==> Valid(deadline.value)
    ensures SplitLines(fulltext)[0] <= r
    ensures deadline.Some? ==> SplitLines(fulltext)[0] + "\n" + DeadlineLine(deadline.value) <= r
  {
    var q := DeadlinePieces(SplitLines(fulltext), deadline);
    JoinHead(q, "\n");
    Join(q, "\n")
  }

  /** A token built from single-line fields is a single line. */
  lemma {:induction false} TokenSingleLine(y: string, m: string, d: string, name: string, time: Option<(string, string)>)
    requires SingleLine(y) && SingleLine(m) && SingleLine(d) && SingleLine(name)
    requires time.Some? ==> SingleLine(time.value.0) && SingleLine(time.value.1)
    ensures SingleLine(Token(y, m, d, name, time))
  {
    var a := y + "-";
    SingleLineConcat(y, "-");
    var b := a + m;
    SingleLineConcat(a, m);
    var c := b + "-";
    SingleLineConcat(b, "-");
    var e := c + d;
    SingleLineConcat(c, d);
    var f := e + " ";
    SingleLineConcat(e, " ");
    var g := f + name;
    SingleLineConcat(f, name);
    match time {
      case None =>
        SingleLineConcat(g, "");
      case Some(hm) =>
        var t1 := " " + hm.0;
        SingleLineConcat(" ", hm.0);
        var t2 := t1 + ":";
        SingleLineConcat(t1, ":");
        var t3 := t2 + hm.1;
        SingleLineConcat(t2, hm.1);
        SingleLineConcat(g, t3);
    }
  }

  lemma {:induction false} DigitsSingleLine(s: string)
    requires AllDigits(s)
    ensures SingleLine(s)
  {
  }

  lemma {:induction false} DayNameSingleLine(k: nat)
    requires k < |DayNames|
    ensures SingleLine(DayNames[k])
  {
  }

  /** The token `jsDatetimeToOrg` writes is a single line. */
  lemma {:induction false} OrgTokenSingleLine(d: DateTime)
    requires Valid(d)
    ensures SingleLine(JsDatetimeToOrg(d))
  {
    var y, m, dd, h, mi := IntToString(d.year), Pad2(d.month0 + 1), Pad2(d.day), Pad2(d.hour), Pad2(d.minute);
    var k := DayOfWeek(d);
    var time: Option<(string, string)> := if d.hour == 0 && d.minute == 0 then None else Some((h, mi));
    assert JsDatetimeToOrg(d) == Token(y, m, dd, DayNames[k], time);
    DigitsSingleLine(m);
    DigitsSingleLine(dd);
    DigitsSingleLine(h);
    DigitsSingleLine(mi);
    DayNameSingleLine(k);
    TokenSingleLine(y, m, dd, DayNames[k], time);
  }

  /** The deadline line holds no line break. */
  lemma {:induction false} DeadlineLineSingle(d: DateTime)
    requires Valid(d)
    ensures SingleLine(DeadlineLine(d)) && '\n' !in DeadlineLine(d)
  {
    var tok := JsDatetimeToOrg(d);
    OrgTokenSingleLine(d);
    SingleLineConcat(DeadlinePrefix, tok);
    SingleLineConcat(DeadlinePrefix + tok, ">");
    assert IsLineTerminator('\n');
  }

  /** A token between `DEADLINE: <` and `>` is found again as the match's group. */
  lemma {:induction false} TokenLineMatch(tok: string, tail: string)
    requires DateCoreAt(tok, 0) && (|tok| == 14 || (|tok| == 20 && TimeAt(tok, 14)))
    ensures var line := DeadlinePrefix + tok + ">" + tail;
      DeadlineMatch(line) && DeadlineGroup(line) == tok
  {
    var line := DeadlinePrefix + tok + ">" + tail;
    assert line[..11] == DeadlinePrefix;
    assert line[11..11 + |tok|] == tok;
    assert line[11 + |tok|] == '>';
    FieldsAgree(line, 11, tok, 0, |tok|);
    FieldsAgree(line, 11, tok, 0, 14);
    if |tok| == 14 {
      assert line[25] == '>';
    }
  }

  /** The date written in a deadline line is read back, whatever follows the `>`. */
  lemma {:induction false} DeadlineLineReadBack(d: DateTime, tail: string, lines: seq<string>)
    requires Valid(d) && 1000 <= d.year <= 9999
    requires |lines| >= 2 && lines[1] == DeadlineLine(d) + tail
    ensures DeadlineMatch(DeadlineLine(d) + tail)
    ensures GetDeadline(lines) == Some(d)
  {
    JsDatetimeToOrgFormat(d);
    TokenLineMatch(JsDatetimeToOrg(d), tail);
    DateRoundTrip(d);
  }

  /** Setting a deadline, then reading the entry's lines, gives back that date. */
  lemma {:induction false} SetThenGetDeadline(fulltext: string, d: DateTime)
    requires Valid(d) && 1000 <= d.year <= 9999
    ensures GetDeadline(FulltextToLines(SetDeadline(fulltext, Some(d)))) == Some(d)
    ensures GetDeadline(SplitLines(SetDeadline(fulltext, Some(d)))) == Some(d)
  {
    var q := DeadlinePieces(SplitLines(fulltext), Some(d));
    SplitOfSetDeadline(fulltext, Some(d));
    var r := SetDeadline(fulltext, Some(d));
    assert SplitLines(r) == q;
    PiecesReadBack(d, q);
  }

  /** Deadline pieces whose second line is the deadline line read back as that date,
      with or without their line terminators. */
  lemma {:induction false} PiecesReadBack(d: DateTime, q: seq<string>)
    requires Valid(d) && 1000 <= d.year <= 9999
    requires |q| >= 2 && q[1] == DeadlineLine(d)
    ensures GetDeadline(Reterminate(q)) == Some(d)
    ensures GetDeadline(q) == Some(d)
  {
    var lines := Reterminate(q);
    var tail := if |q| > 2 then "\n" else "";
    assert lines[1] == q[1] + tail;
    DeadlineLineReadBack(d, tail, lines);
    assert q[1] == DeadlineLine(d) + "";
    DeadlineLineReadBack(d, "", q);
  }

  lemma {:induction false} DeadlinePiecesNewlineFree(pieces: seq<string>, deadline: Option<DateTime>)
    requires |pieces| >= 1 && (forall i :: 0 <= i < |pieces| ==> '\n' !in pieces[i])
    requires deadline.Some? ==> Valid(deadline.value)
    ensures var q := DeadlinePieces(pieces, deadline);
      |q| >= 1 && forall i :: 0 <= i < |q| ==> '\n' !in q[i]
  {
    var q := DeadlinePieces(pieces, deadline);
    match deadline
    case None =>
      if HasDeadlineLine(pieces) {
        forall i | 0 <= i < |q| ensures '\n' !in q[i] {
          if i > 0 { assert q[i] == pieces[i + 1]; }
        }
      }
    case Some(d) =>
      DeadlineLineSingle(d);
      if HasDeadlineLine(pieces) {
        forall i | 0 <= i < |q| ensures '\n' !in q[i] {
          if i != 1 { assert q[i] == pieces[i]; }
        }
      } else {
        forall i | 0 <= i < |q| ensures '\n' !in q[i] {
          if i > 1 { assert q[i] == pieces[i - 1]; }
        }
      }
  }

  /** `setDeadline` touches line 1 only: it removes it when clearing a deadline line, overwrites
      it when it is a deadline line, or inserts a deadline line before it; every other line keeps
      its text and its order. */
  lemma {:induction false} SetDeadlineLines(fulltext: string, deadline: Option<DateTime>)
    requires deadline.Some? ==> Valid(deadline.value)
    ensures var p := SplitLines(fulltext);
      var q := SplitLines(SetDeadline(fulltext, deadline));
      && (deadline.None? && HasDeadlineLine(p) ==> q == [p[0]] + p[2..])
      && (deadline.None? && !HasDeadlineLine(p) ==> SetDeadline(fulltext, deadline) == fulltext)
      && (deadline.Some? && HasDeadlineLine(p) ==> q == [p[0], DeadlineLine(deadline.value)] + p[2..])
      && (deadline.Some? && !HasDeadlineLine(p) ==> q == [p[0], DeadlineLine(deadline.value)] + p[1..])
  {
    var p := SplitLines(fulltext);
    SplitOfSetDeadline(fulltext, deadline);
    DeadlinePiecesShape(p, deadline);
  }

  /** The edit of `setDeadline` on the list of lines, case by case. */
  lemma {:induction false} DeadlinePiecesShape(p: seq<string>, deadline: Option<DateTime>)
    requires |p| >= 1
    requires deadline.Some? ==> Valid(deadline.value)
    ensures var q := DeadlinePieces(p, deadline);
      && (deadline.None? && HasDeadlineLine(p) ==> q == [p[0]] + p[2..])
      && (deadline.None? && !HasDeadlineLine(p) ==> q == p)
      && (deadline.Some? && HasDeadlineLine(p) ==> q == [p[0], DeadlineLine(deadline.value)] + p[2..])
      && (deadline.Some? && !HasDeadlineLine(p) ==> q == [p[0], DeadlineLine(deadline.value)] + p[1..])
  {
    assert p[..1] == [p[0]];
    match deadline
    case None =>
    case Some(d) =>
      if HasDeadlineLine(p) {
        var q := DeadlinePieces(p, deadline);
        assert |q| == |p|;
        forall i | 0 <= i < |q| ensures q[i] == ([p[0], DeadlineLine(d)] + p[2..])[i] {
        }
      }
  }

  /** Splitting the result gives back the edited pieces. */
  lemma {:induction false} SplitOfSetDeadline(fulltext: string, deadline: Option<DateTime>)
    requires deadline.Some? ==> Valid(deadline.value)
    ensures SplitLines(SetDeadline(fulltext, deadline)) == DeadlinePieces(SplitLines(fulltext), deadline)
  {
    var q := DeadlinePieces(SplitLines(fulltext), deadline);
    DeadlinePiecesNewlineFree(SplitLines(fulltext), deadline);
    SplitJoin(q, '\n');
  }

  /** Clearing the deadline leaves none to read when line 1 held the only deadline line. */
  lemma {:induction false} ClearThenGetDeadline(fulltext: string)
    requires var p := SplitLines(fulltext); !(|p| >= 3 && DeadlineMatch(p[2]) && DeadlineMatch(p[1]))
    ensures GetDeadline(SplitLines(SetDeadline(fulltext, None))).None?
    ensures GetDeadline(FulltextToLines(SetDeadline(fulltext, None))).None?
  {
    var p := SplitLines(fulltext);
    SetDeadlineLines(fulltext, None);
    var r := SetDeadline(fulltext, None);
    var q := SplitLines(r);
    if |q| >= 2 {
      var lines := FulltextToLines(r);
      assert lines[1] == q[1] + (if |q| > 2 then "\n" else "");
      assert DeadlineMatch(lines[1]) == DeadlineMatch(q[1]) by {
        DeadlineMatchTail(q[1], if |q| > 2 then "\n" else "");
      }
    }
  }

  /** Whether a line is a deadline line does not depend on a newline at its end. */
  lemma {:induction false} DeadlineMatchTail(line: string, tail: string)
    requires tail == [] || tail == "\n"
    ensures DeadlineMatch(line + tail) <==> DeadlineMatch(line)
  {
    var l := line + tail;
    if tail == "\n" {
      assert l[..|line|] == line;
      assert l[|line|] == '\n';
      if 31 <= |line| {
        FieldsAgree(l, 11, line, 11, 20);
      } else if |l| == 31 {
        assert l[29..31][1] == '\n';
      }
      assert TimeAt(l, 25) <==> TimeAt(line, 25);
      if 25 <= |line| {
        FieldsAgree(l, 11, line, 11, 14);
        assert DeadlinePrefix <= l <==> DeadlinePrefix <= line;
      } else if |l| == 25 {
        assert l[22..25][2] == '\n';
      }
    } else {
      assert l == line;
    }
  }

  const PropertiesPiece: string := ":PROPERTIES:"
  const EndPiece: string := ":END:"

  /** The line `findFirstBodyLineIndex` starts from: 1, or 2 past a deadline. */
  function HeaderStart(pieces: seq<string>): (d: nat)
    ensures d == 1 || (d == 2 && |pieces| >= 2)
  {
    if GetDeadline(pieces).Some? then 2 else 1
  }

  /** The first index from `i` holding `:END:`, or the last index when none does. */
  function DrawerEnd(pieces: seq<string>, i: nat): (j: nat)
    requires i < |pieces|
    ensures i <= j < |pieces|
    ensures pieces[j] == EndPiece || j == |pieces| - 1
    ensures forall k :: i <= k < j ==> pieces[k] != EndPiece
    decreases |pieces| - i
  {
    if pieces[i] == EndPiece || i == |pieces| - 1 then i else DrawerEnd(pieces, i + 1)
  }

  /** The index of the first body line: past the headline, the deadline and, when one opens
      there, the property drawer through its `:END:`. */
  function FirstBodyLine(pieces: seq<string>): (r: nat)
    requires |pieces| >= 1
    ensures 1 <= r <= |pieces|
  {
    var d := HeaderStart(pieces);
    if d < |pieces| && pieces[d] == PropertiesPiece then DrawerEnd(pieces, d) + 1 else d
  }

  /** `findFirstBodyLineIndex`. */
  method FindFirstBodyLineIndex(content: seq<string>) returns (firstLine: nat)
    requires |content| >= 1
    ensures firstLine == FirstBodyLine(content)
  {
    firstLine := 1;
    if GetDeadline(content).Some? {
      firstLine := firstLine + 1;
    }
    if firstLine < |content| && content[firstLine] == PropertiesPiece {
      ghost var d := firstLine;
      while content[firstLine] != EndPiece && firstLine != |content| - 1
        invariant d <= firstLine < |content|
        invariant DrawerEnd(content, d) == DrawerEnd(content, firstLine)
        decreases |content| - firstLine
      {
        firstLine := firstLine + 1;
      }
      firstLine := firstLine + 1;
    }
  }

  /** `replaceBody`: the lines before the first body line, a newline, then the new body. */
  function ReplaceBody(fulltext: string, newBody: string): (r: string)
    ensures |r| > |newBody| && r[|r| - |newBody|..] == newBody && r[|r| - |newBody| - 1] == '\n'
    ensures r[..|r| - |newBody| - 1] <= fulltext
  {
    var pieces := SplitLines(fulltext);
    var header := Join(pieces[..FirstBodyLine(pieces)], "\n");
    JoinPrefix(pieces, FirstBodyLine(pieces), "\n");
    var r := header + "\n" + newBody;
    assert r[..|header|] == header;
    assert r[|header| + 1..] == newBody;
    r
  }

  /** The lines of the result are the header lines of the old text followed by the lines of the
      new body, verbatim. */
  lemma {:induction false} ReplaceBodyLines(fulltext: string, newBody: string)
    ensures var pieces := SplitLines(fulltext);
      SplitLines(ReplaceBody(fulltext, newBody)) == pieces[..FirstBodyLine(pieces)] + SplitLines(newBody)
  {
    var pieces := SplitLines(fulltext);
    var header := pieces[..FirstBodyLine(pieces)];
    JoinThenSplit(header, newBody);
  }

  lemma {:induction false} JoinThenSplit(q: seq<string>, b: string)
    requires |q| >= 1 && forall i :: 0 <= i < |q| ==> '\n' !in q[i]
    ensures Split(Join(q, "\n") + "\n" + b, '\n') == q + Split(b, '\n')
  {
    if |q| == 1 {
      assert Join(q, "\n") + "\n" + b == q[0] + ['\n'] + b;
      SplitAfterPiece(q[0], '\n', b);
    } else {
      var j := Join(q[1..], "\n");
      calc {
        Split(Join(q, "\n") + "\n" + b, '\n');
      == { assert Join(q, "\n") + "\n" + b == q[0] + ['\n'] + (j + "\n" + b); }
        Split(q[0] + ['\n'] + (j + "\n" + b), '\n');
      == { SplitAfterPiece(q[0], '\n', j + "\n" + b); }
        [q[0]] + Split(j + "\n" + b, '\n');
      == { JoinThenSplit(q[1..], b); }
        [q[0]] + (q[1..] + Split(b, '\n'));
      == { assert q == [q[0]] + q[1..]; }
        q + Split(b, '\n');
      }
    }
  }

  /** The header kept by `replaceBody` is the headline, the deadline line if there is one, and the
      whole property drawer when it opens right after them. */
  lemma {:induction false} HeaderLines(pieces: seq<string>)
    requires |pieces| >= 1
    ensures var r := FirstBodyLine(pieces);
      var d := HeaderStart(pieces);
      && (d == 2 <==> GetDeadline(pieces).Some?)
      && (d < |pieces| && pieces[d] == PropertiesPiece ==>
            d < r && (pieces[r - 1] == EndPiece || r == |pieces|)
            && forall k :: d <= k < r - 1 ==> pieces[k] != EndPiece)
      && (!(d < |pieces| && pieces[d] == PropertiesPiece) ==> r == d)
  {
  }
}
