/** Character classes, decimal numbers and the splitting and joining of strings that the
    org-mode code is built on (`String.prototype.split`, `Array.prototype.join`,
    `Number.prototype.toString`, `String.prototype.padStart`). */
module Text {

  /** `\d` of a JavaScript regular expression. */
  predicate IsDigit(c: char) { '0' <= c <= '9' }

  predicate AllDigits(s: string) { forall i :: 0 <= i < |s| ==> IsDigit(s[i]) }

  /** `\s` of a JavaScript regular expression: the WhiteSpace and LineTerminator code points. */
  predicate IsJsSpace(c: char) {
    || c == ' ' || c == '\t' || c == '\n' || c == '\r' || c == '\U{B}' || c == '\U{C}'
    || c == '\U{A0}' || c == '\U{1680}' || ('\U{2000}' <= c <= '\U{200A}')
    || c == '\U{2028}' || c == '\U{2029}' || c == '\U{202F}' || c == '\U{205F}'
    || c == '\U{3000}' || c == '\U{FEFF}'
  }

  /** The end of the longest run of characters satisfying `inRun` that starts at `i`
      (a greedy `x*` of a regular expression). */
  function RunEnd(s: string, i: nat, inRun: char -> bool): (j: nat)
    requires i <= |s|
    ensures i <= j <= |s|
    ensures j < |s| ==> !inRun(s[j])
    decreases |s| - i
  {
    if i == |s| || !inRun(s[i]) then i else RunEnd(s, i + 1, inRun)
  }

  /** Every character of the run satisfies `inRun`. */
  lemma {:induction false} RunEndRun(s: string, i: nat, inRun: char -> bool)
    requires i <= |s|
    ensures forall k :: i <= k < RunEnd(s, i, inRun) ==> inRun(s[k])
    decreases |s| - i
  {
    if i < |s| && inRun(s[i]) {
      RunEndRun(s, i + 1, inRun);
    }
  }

  /** A run is determined by its characters and the one after it. */
  lemma {:induction false} RunEndAt(s: string, i: nat, j: nat, inRun: char -> bool)
    requires i <= j <= |s|
    requires forall k :: i <= k < j ==> inRun(s[k])
    requires j < |s| ==> !inRun(s[j])
    ensures RunEnd(s, i, inRun) == j
    decreases j - i
  {
    if i < j {
      RunEndAt(s, i + 1, j, inRun);
    }
  }

  /** The line terminators of JavaScript: the characters `.` of a regular expression does not match. */
  predicate IsLineTerminator(c: char) {
    c == '\n' || c == '\r' || c == '\U{2028}' || c == '\U{2029}'
  }

  /** `.` of a JavaScript regular expression (without the `s` flag). */
  predicate IsDot(c: char) { !IsLineTerminator(c) }

  /** Text `(.*)` can match in full: no line terminator inside. */
  predicate SingleLine(s: string) { forall i :: 0 <= i < |s| ==> IsDot(s[i]) }

  lemma {:induction false} SingleLineConcat(a: string, b: string)
    ensures SingleLine(a + b) <==> SingleLine(a) && SingleLine(b)
  {
    if SingleLine(a) && SingleLine(b) {
      forall i | 0 <= i < |a + b| ensures IsDot((a + b)[i]) {
        if i >= |a| { assert (a + b)[i] == b[i - |a|]; }
      }
    }
    if SingleLine(a + b) {
      forall i | 0 <= i < |a| ensures IsDot(a[i]) {
        assert a[i] == (a + b)[i];
      }
      forall i | 0 <= i < |b| ensures IsDot(b[i]) {
        assert b[i] == (a + b)[|a| + i];
      }
    }
  }

  /** What `(.*)` captures at the start of `s`: the text up to the first line terminator. */
  function LineText(s: string): (r: string)
    ensures r <= s && SingleLine(r)
    ensures |r| < |s| ==> IsLineTerminator(s[|r|])
  {
    RunEndRun(s, 0, IsDot);
    s[..RunEnd(s, 0, IsDot)]
  }

  lemma {:induction false} LineTextOfSingleLine(s: string)
    requires SingleLine(s)
    ensures LineText(s) == s
  {
    RunEndAt(s, 0, |s|, IsDot);
  }

  lemma {:induction false} LineTextAppend(a: string, b: string)
    requires SingleLine(a)
    requires b != [] && IsLineTerminator(b[0])
    ensures LineText(a + b) == a
  {
    RunEndAt(a + b, 0, |a|, IsDot);
    assert (a + b)[..|a|] == a;
  }

  /** Value of a string of decimal digits, as `parseInt` or `Number` read it. */
  function DigitsValue(s: string): nat
    requires AllDigits(s)
  {
    if s == [] then 0 else 10 * DigitsValue(s[..|s| - 1]) + (s[|s| - 1] as int - '0' as int)
  }

  function DigitChar(d: nat): (c: char)
    requires d < 10
    ensures IsDigit(c) && c as int - '0' as int == d
  {
    ('0' as int + d) as char
  }

  /** `n.toString()` for a non-negative integer. */
  function NatToString(n: nat): (r: string)
    ensures |r| >= 1 && AllDigits(r) && DigitsValue(r) == n
    ensures (|r| == 1) == (n < 10)
    ensures n < 100 ==> |r| <= 2
  {
    if n < 10 then [DigitChar(n)]
    else
      var r := NatToString(n / 10) + [DigitChar(n % 10)];
      assert r[..|r| - 1] == NatToString(n / 10);
      r
  }

  function Pow10(k: nat): nat {
    if k == 0 then 1 else 10 * Pow10(k - 1)
  }

  /** `n.toString()` has exactly `k + 1` digits when `10^k <= n < 10^(k+1)`. */
  lemma {:induction false} NatToStringLength(n: nat, k: nat)
    requires Pow10(k) <= n < Pow10(k + 1)
    ensures |NatToString(n)| == k + 1
  {
    if k > 0 {
      NatToStringLength(n / 10, k - 1);
    }
  }

  /** `i.toString()` for an integer. */
  function IntToString(i: int): (r: string)
    ensures SingleLine(r)
  {
    var digits := NatToString(if i < 0 then -i else i);
    assert SingleLine(digits);
    if i < 0 then
      SingleLineConcat("-", digits);
      "-" + digits
    else digits
  }

  /** `n.toString().padStart(2, "0")`. */
  function Pad2(n: nat): (r: string)
    ensures AllDigits(r) && DigitsValue(r) == n
    ensures n < 100 ==> |r| == 2
  {
    var s := NatToString(n);
    if |s| >= 2 then s
    else
      var r := "0" + s;
      assert r[..|r| - 1] == "0";
      r
  }

  /** Decimal value of an optionally signed string of digits. */
  predicate IsSignedDecimal(s: string) {
    || (|s| >= 1 && AllDigits(s))
    || (|s| >= 2 && (s[0] == '-' || s[0] == '+') && AllDigits(s[1..]))
  }

  /** `parseInt(s)` for an optionally signed decimal string. */
  function ParseSignedDecimal(s: string): int
    requires IsSignedDecimal(s)
  {
    if |s| >= 1 && AllDigits(s) then DigitsValue(s)
    else if s[0] == '-' then -(DigitsValue(s[1..]) as int)
    else DigitsValue(s[1..])
  }

  /** `parseInt` reads back what `toString` wrote. */
  lemma {:induction false} IntToStringRoundTrip(i: int)
    ensures IsSignedDecimal(IntToString(i))
    ensures ParseSignedDecimal(IntToString(i)) == i
  {
    if i < 0 {
      var s := IntToString(i);
      assert s[1..] == NatToString(-i);
      assert !IsDigit(s[0]);
    }
  }

  /** `parts.join(sep)`. */
  function Join(parts: seq<string>, sep: string): string {
    if |parts| == 0 then ""
    else if |parts| == 1 then parts[0]
    else parts[0] + sep + Join(parts[1..], sep)
  }

  /** `lines.join("")`. */
  function Concat(lines: seq<string>): string {
    if lines == [] then "" else lines[0] + Concat(lines[1..])
  }

  lemma {:induction false} ConcatAppend(a: seq<string>, b: seq<string>)
    ensures Concat(a + b) == Concat(a) + Concat(b)
  {
    if a != [] {
      assert (a + b)[1..] == a[1..] + b;
      ConcatAppend(a[1..], b);
    } else {
      assert a + b == b;
    }
  }

  function CountChar(s: string, c: char): nat {
    if s == [] then 0 else (if s[0] == c then 1 else 0) + CountChar(s[1..], c)
  }

  /** `s.split(sep)` for a one-character separator: the pieces between the separators. */
  function Split(s: string, sep: char): (r: seq<string>)
    ensures |r| == CountChar(s, sep) + 1
    ensures forall i :: 0 <= i < |r| ==> sep !in r[i]
    ensures Join(r, [sep]) == s
  {
    if s == [] then [""]
    else
      var rest := Split(s[1..], sep);
      if s[0] == sep then
        var r := [""] + rest;
        assert r[1..] == rest;
        assert s == [sep] + s[1..];
        r
      else
        var r := [[s[0]] + rest[0]] + rest[1..];
        assert s == [s[0]] + s[1..];
        assert r[1..] == rest[1..];
        r
  }

  /** Splitting after a separator-free piece and a separator peels that piece off. */
  lemma {:induction false} SplitAfterPiece(a: string, sep: char, b: string)
    requires sep !in a
    ensures Split(a + [sep] + b, sep) == [a] + Split(b, sep)
  {
    if a != [] {
      var s := a + [sep] + b;
      assert s[0] == a[0] && s[1..] == a[1..] + [sep] + b;
      SplitAfterPiece(a[1..], sep, b);
      var rest := Split(s[1..], sep);
      assert rest[0] == a[1..] && rest[1..] == Split(b, sep);
      assert [a[0]] + a[1..] == a;
    } else {
      assert (a + [sep] + b)[1..] == b;
    }
  }

  lemma {:induction false} SplitOfPiece(a: string, sep: char)
    requires sep !in a
    ensures Split(a, sep) == [a]
  {
    if a != [] {
      SplitOfPiece(a[1..], sep);
    }
  }

  /** `join` then `split` gives back the pieces when none contains the separator. */
  /** Joining the first `n` parts gives a prefix of joining them all. */
  lemma {:induction false} JoinPrefix(parts: seq<string>, n: nat, sep: string)
    requires 1 <= n <= |parts|
    ensures Join(parts[..n], sep) <= Join(parts, sep)
  {
    if n < |parts| {
      var rest := parts[1..];
      assert Join(parts, sep) == parts[0] + sep + Join(rest, sep);
      if n > 1 {
        JoinPrefix(rest, n - 1, sep);
        assert parts[..n][1..] == rest[..n - 1];
        assert Join(parts[..n], sep) == parts[0] + sep + Join(rest[..n - 1], sep);
        PrefixAfter(parts[0] + sep, Join(rest[..n - 1], sep), Join(rest, sep));
      } else {
        assert parts[..n] == [parts[0]];
        PrefixAfter(parts[0], [], sep + Join(rest, sep));
        assert parts[0] + (sep + Join(rest, sep)) == parts[0] + sep + Join(rest, sep);
      }
    } else {
      assert parts[..n] == parts;
    }
  }

  /** The first part, and the first two with the separator between them, begin the join. */
  lemma {:induction false} JoinHead(parts: seq<string>, sep: string)
    requires |parts| >= 1
    ensures parts[0] <= Join(parts, sep)
    ensures |parts| >= 2 ==> parts[0] + sep + parts[1] <= Join(parts, sep)
  {
    JoinPrefix(parts, 1, sep);
    assert parts[..1] == [parts[0]];
    if |parts| >= 2 {
      JoinPrefix(parts, 2, sep);
      assert parts[..2] == [parts[0], parts[1]];
      assert parts[..2][1..] == [parts[1]];
    }
  }

  lemma {:induction false} PrefixAfter(x: string, y: string, z: string)
    requires y <= z
    ensures x + y <= x + z
  {
    assert (x + z)[..|x + y|] == x + z[..|y|];
  }

  lemma {:induction false} SplitJoin(parts: seq<string>, sep: char)
    requires |parts| >= 1
    requires forall i :: 0 <= i < |parts| ==> sep !in parts[i]
    ensures Split(Join(parts, [sep]), sep) == parts
  {
    if |parts| == 1 {
      SplitOfPiece(parts[0], sep);
    } else {
      SplitJoin(parts[1..], sep);
      SplitAfterPiece(parts[0], sep, Join(parts[1..], [sep]));
      assert parts[0] + [sep] + Join(parts[1..], [sep]) == Join(parts, [sep]);
      assert parts == [parts[0]] + parts[1..];
    }
  }

  /** `s.split("\n")`. */
  function SplitLines(s: string): (r: seq<string>)
    ensures |r| >= 1
    ensures forall i :: 0 <= i < |r| ==> '\n' !in r[i]
    ensures Join(r, "\n") == s
  {
    Split(s, '\n')
  }

  /** A line as `fulltextToLines` yields it before the last one: it ends with its only newline. */
  predicate Terminated(line: string) {
    |line| > 0 && line[|line| - 1] == '\n' && '\n' !in line[..|line| - 1]
  }

  /** Every piece but the last gets its newline back. */
  function Reterminate(pieces: seq<string>): (r: seq<string>)
    ensures |r| == |pieces|
  {
    seq(|pieces|, i requires 0 <= i < |pieces| => if i < |pieces| - 1 then pieces[i] + "\n" else pieces[i])
  }

  lemma {:induction false} ConcatReterminate(pieces: seq<string>)
    requires |pieces| >= 1
    ensures Concat(Reterminate(pieces)) == Join(pieces, "\n")
  {
    if |pieces| > 1 {
      ConcatReterminate(pieces[1..]);
      assert Reterminate(pieces)[1..] == Reterminate(pieces[1..]);
    }
  }

  /** `fulltextToLines`: split the text into lines, each keeping its newline. */
  function FulltextToLines(fulltext: string): (r: seq<string>)
    ensures |r| >= 1 && Concat(r) == fulltext
  {
    ConcatReterminate(SplitLines(fulltext));
    Reterminate(SplitLines(fulltext))
  }

  /** The line model: the lines concatenate back to the text, every line but the last ends
      with its only newline, the last has none, and there is one more line than newlines. */
  lemma {:induction false} FulltextToLinesSpec(fulltext: string)
    ensures var r := FulltextToLines(fulltext);
      && Concat(r) == fulltext
      && |r| == CountChar(fulltext, '\n') + 1
      && (forall i :: 0 <= i < |r| - 1 ==> Terminated(r[i]))
      && '\n' !in r[|r| - 1]
  {
    var p := SplitLines(fulltext);
    ConcatReterminate(p);
    forall i | 0 <= i < |p| - 1
      ensures Terminated(FulltextToLines(fulltext)[i])
    {
      assert FulltextToLines(fulltext)[i] == p[i] + "\n";
      assert (p[i] + "\n")[..|p[i]|] == p[i];
    }
  }

  /** A terminated first line is peeled off by `fulltextToLines`. */
  lemma {:induction false} LinesAfterTerminated(a: string, b: string)
    requires Terminated(a)
    ensures FulltextToLines(a + b) == [a] + FulltextToLines(b)
  {
    var a' := a[..|a| - 1];
    assert a == a' + "\n";
    assert a + b == a' + ['\n'] + b;
    SplitAfterPiece(a', '\n', b);
    var p := SplitLines(b);
    assert SplitLines(a + b) == [a'] + p;
    ReterminateCons(a', p);
  }

  lemma {:induction false} ReterminateCons(x: string, p: seq<string>)
    requires |p| >= 1
    ensures Reterminate([x] + p) == [x + "\n"] + Reterminate(p)
  {
  }

  lemma {:induction false} LinesOfNewlineFree(a: string)
    requires '\n' !in a
    ensures FulltextToLines(a) == [a]
  {
    SplitOfPiece(a, '\n');
  }

  /** Lines that all end with a newline come back from `fulltextToLines` with an empty last line. */
  lemma {:induction false} LinesOfConcatTerminated(c: seq<string>)
    requires forall i :: 0 <= i < |c| ==> Terminated(c[i])
    ensures FulltextToLines(Concat(c)) == c + [""]
  {
    if c == [] {
      LinesOfNewlineFree("");
    } else {
      LinesOfConcatTerminated(c[1..]);
      LinesAfterTerminated(c[0], Concat(c[1..]));
      assert c == [c[0]] + c[1..];
    }
  }

  /** Lines whose last one has no newline come back from `fulltextToLines` unchanged. */
  lemma {:induction false} LinesOfConcatOpen(c: seq<string>)
    requires |c| >= 1
    requires forall i :: 0 <= i < |c| - 1 ==> Terminated(c[i])
    requires '\n' !in c[|c| - 1]
    ensures FulltextToLines(Concat(c)) == c
  {
    if |c| == 1 {
      assert c[1..] == [];
      assert Concat(c) == c[0];
      LinesOfNewlineFree(c[0]);
    } else {
      LinesOfConcatOpen(c[1..]);
      LinesAfterTerminated(c[0], Concat(c[1..]));
      assert c == [c[0]] + c[1..];
    }
  }
}
