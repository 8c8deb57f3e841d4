/** The headline line of an org entry, `** TODO Write the report`, and the rewriting of its
    TODO keyword. */
module Headline {
  import opened Wrappers
  import opened Text
  import opened Entries

  predicate IsStar(c: char) { c == '*' }

  predicate IsSpaceChar(c: char) { c == ' ' }

  predicate AllStars(s: string) { |s| >= 1 && forall i :: 0 <= i < |s| ==> IsStar(s[i]) }

  /** The optional group `(TODO |DONE )` as it appears in the text. */
  function KeywordText(st: TodoStatus): string {
    match st
    case NoTodo => ""
    case Todo => "TODO "
    case Done => "DONE "
  }

  /** The five characters of `w` stand at index `j` of `s`. */
  predicate WordAt(s: string, j: nat, w: string)
    requires |w| == 5
  {
    j + 5 <= |s| && s[j] == w[0] && s[j + 1] == w[1] && s[j + 2] == w[2] && s[j + 3] == w[3] && s[j + 4] == w[4]
  }

  /** The keyword `(TODO |DONE )?` takes greedily at index `j`. */
  function KeywordAt(s: string, j: nat): (st: TodoStatus)
    ensures st != NoTodo ==> j + 5 <= |s| && s[j..j + 5] == KeywordText(st)
  {
    if WordAt(s, j, "TODO ") then Todo
    else if WordAt(s, j, "DONE ") then Done
    else NoTodo
  }

  predicate StartsWithKeyword(h: string) {
    WordAt(h, 0, "TODO ") || WordAt(h, 0, "DONE ")
  }

  /** The keyword group reads back the keyword a text was built with. */
  lemma {:induction false} KeywordOfText(st: TodoStatus, h: string, tail: string)
    requires SingleLine(h) && (st == NoTodo ==> !StartsWithKeyword(h))
    requires tail != [] && tail[0] == '\n'
    ensures KeywordAt(KeywordText(st) + h + tail, 0) == st
  {
    var s := KeywordText(st) + h + tail;
    if st == NoTodo {
      assert s == h + tail;
      if |h| < 5 {
        assert s[|h|] == '\n';
      } else {
        assert forall k :: 0 <= k < 5 ==> s[k] == h[k];
      }
    }
  }

  lemma {:induction false} KeywordAtShift(s: string, j: nat)
    requires j <= |s|
    ensures KeywordAt(s, j) == KeywordAt(s[j..], 0)
  {
  }

  /** HEADLINE_PATTERN `^\*+ (TODO |DONE )?(.*)\n`: the keyword's status and the text of group 2. */
  function HeadlineParse(line: string): (r: Option<(TodoStatus, string)>)
    ensures r.Some? ==> SingleLine(r.value.1)
  {
    if |line| == 0 || line[0] != '*' then None
    else
      var e := RunEnd(line, 0, IsStar);
      if e == |line| || line[e] != ' ' then None
      else
        var st := KeywordAt(line, e + 1);
        var g := e + 1 + |KeywordText(st)|;
        var t := RunEnd(line, g, IsDot);
        RunEndRun(line, g, IsDot);
        if t < |line| && line[t] == '\n' then Some((st, line[g..t])) else None
  }

  /** `isHeadline`. */
  predicate IsHeadline(line: string) { HeadlineParse(line).Some? }

  /** A headline line built from its parts. */
  function HeadlineText(stars: string, st: TodoStatus, h: string): string {
    stars + " " + KeywordText(st) + h + "\n"
  }

  /** Parts a headline can be built from: the text carries no line break, and a headline with
      no keyword does not begin with one. */
  predicate WellFormed(stars: string, st: TodoStatus, h: string) {
    AllStars(stars) && SingleLine(h) && (st == NoTodo ==> !StartsWithKeyword(h))
  }

  /** Index facts of a headline: `e` stars, a space, the keyword of `st`, the text `h`, a newline. */
  predicate HeadlineAt(line: string, e: nat, st: TodoStatus, h: string) {
    1 <= e < |line| && (forall k :: 0 <= k < e ==> line[k] == '*') && line[e] == ' ' &&
    KeywordAt(line, e + 1) == st && SingleLine(h) &&
    var g := e + 1 + |KeywordText(st)|;
    g + |h| < |line| && line[g..g + |h|] == h && line[g + |h|] == '\n'
  }

  lemma {:induction false} ParseLine(line: string, e: nat, st: TodoStatus, h: string)
    requires HeadlineAt(line, e, st, h)
    ensures HeadlineParse(line) == Some((st, h))
  {
    RunEndAt(line, 0, e, IsStar);
    var g := e + 1 + |KeywordText(st)|;
    forall k | g <= k < g + |h| ensures IsDot(line[k]) {
      assert line[k] == h[k - g];
    }
    RunEndAt(line, g, g + |h|, IsDot);
  }

  lemma {:induction false} HeadlineAtOf(line: string)
    requires IsHeadline(line)
    ensures HeadlineAt(line, RunEnd(line, 0, IsStar), HeadlineParse(line).value.0, HeadlineParse(line).value.1)
  {
    var e := RunEnd(line, 0, IsStar);
    var st := KeywordAt(line, e + 1);
    var g := e + 1 + |KeywordText(st)|;
    var t := RunEnd(line, g, IsDot);
    assert HeadlineParse(line) == Some((st, line[g..t]));
    RunEndRun(line, 0, IsStar);
    HeadlineAtParts(line, e, st, line[g..t]);
  }

  lemma {:induction false} HeadlineAtParts(line: string, e: nat, st: TodoStatus, h: string)
    requires 1 <= e < |line| && (forall k :: 0 <= k < e ==> IsStar(line[k])) && line[e] == ' '
    requires KeywordAt(line, e + 1) == st && SingleLine(h)
    requires var g := e + 1 + |KeywordText(st)|;
      var t := RunEnd(line, g, IsDot);
      g <= t < |line| && line[t] == '\n' && h == line[g..t]
    ensures HeadlineAt(line, e, st, h)
  {
  }

  /** Where the parts of `stars + " " + k + h + "\n" + rest` stand. */
  lemma {:induction false} PartsIndices(stars: string, k: string, h: string, rest: string)
    ensures var line := stars + " " + k + h + "\n" + rest;
      var e := |stars|;
      var g := e + 1 + |k|;
      |line| == g + |h| + 1 + |rest| &&
      (forall j :: 0 <= j < e ==> line[j] == stars[j]) && line[e] == ' ' &&
      line[e + 1..] == k + h + ("\n" + rest) && line[g..g + |h|] == h && line[g + |h|] == '\n' &&
      line[g + |h| + 1..] == rest
  {
    var line := stars + " " + k + h + "\n" + rest;
    assert line == stars + (" " + (k + (h + ("\n" + rest))));
  }

  /** A line built from parts parses back into them, whatever follows its newline. */
  lemma {:induction false} ParseHeadlineText(stars: string, st: TodoStatus, h: string, rest: string)
    requires WellFormed(stars, st, h)
    ensures HeadlineAt(HeadlineText(stars, st, h) + rest, |stars|, st, h)
    ensures HeadlineParse(HeadlineText(stars, st, h) + rest) == Some((st, h))
  {
    var k := KeywordText(st);
    var line := stars + " " + k + h + "\n" + rest;
    assert HeadlineText(stars, st, h) + rest == line;
    PartsIndices(stars, k, h, rest);
    KeywordOfText(st, h, "\n" + rest);
    KeywordAtShift(line, |stars| + 1);
    ParseLine(line, |stars|, st, h);
  }

  /** Every headline is a line built from its own parts. */
  lemma {:induction false} HeadlineParts(line: string)
    requires IsHeadline(line)
    ensures var (st, h) := HeadlineParse(line).value;
      var stars := line[..RunEnd(line, 0, IsStar)];
      WellFormed(stars, st, h) && line == HeadlineText(stars, st, h) + line[|HeadlineText(stars, st, h)|..]
  {
    var (st, h) := HeadlineParse(line).value;
    var e := RunEnd(line, 0, IsStar);
    var g := e + 1 + |KeywordText(st)|;
    var t := RunEnd(line, g, IsDot);
    RunEndRun(line, 0, IsStar);
    assert line[e + 1..g] == KeywordText(st);
    if st == NoTodo {
      assert !StartsWithKeyword(h) by {
        assert forall j :: 0 <= j < |h| ==> h[j] == line[g + j];
        if |h| < 5 {
          assert !WordAt(h, 0, "TODO ") && !WordAt(h, 0, "DONE ");
        }
      }
    }
    ConcatParts(line, e, g, t);
  }

  lemma {:induction false} ConcatParts(line: string, e: nat, g: nat, t: nat)
    requires e < g <= t < |line| && line[e] == ' ' && line[t] == '\n'
    ensures line == line[..e] + " " + line[e + 1..g] + line[g..t] + "\n" + line[t + 1..]
  {
    assert line == line[..e] + line[e..e + 1] + line[e + 1..g] + line[g..t] + line[t..t + 1] + line[t + 1..];
  }

  /** `setTodoStatus`'s status word. */
  function TodoWord(st: TodoStatus): string {
    match st
    case NoTodo => ""
    case Todo => "TODO"
    case Done => "DONE"
  }

  /** Where the unanchored `/(\*+) +(TODO |DONE )? *(.*)\n/` can match: a run of stars, a space,
      and then a newline before any other line terminator. */
  predicate TodoMatchAt(s: string, i: nat)
    requires i <= |s|
  {
    i < |s| && s[i] == '*' &&
    var e := RunEnd(s, i, IsStar);
    e < |s| && s[e] == ' ' &&
    var t := RunEnd(s, e, IsDot);
    t < |s| && s[t] == '\n'
  }

  /** The leftmost match from index `i` on. */
  function FirstTodoMatch(s: string, i: nat): (r: Option<nat>)
    requires i <= |s|
    ensures r.Some? ==> i <= r.value < |s| && TodoMatchAt(s, r.value)
    ensures r.Some? ==> forall k :: i <= k < r.value ==> !TodoMatchAt(s, k)
    ensures r.None? ==> forall k :: i <= k <= |s| ==> !TodoMatchAt(s, k)
    decreases |s| - i
  {
    if i == |s| then None
    else if TodoMatchAt(s, i) then Some(i)
    else FirstTodoMatch(s, i + 1)
  }

  /** Group 3 of the match, from the span ` +(TODO |DONE )? *(.*)` that follows the stars:
      the spaces, the keyword and the spaces after it dropped. */
  function TodoRest(m: string): (r: string)
    ensures |r| <= |m| && r == m[|m| - |r|..]
  {
    var sp := RunEnd(m, 0, IsSpaceChar);
    var st := KeywordAt(m, sp);
    var g := RunEnd(m, sp + |KeywordText(st)|, IsSpaceChar);
    m[g..]
  }

  /** `content[0].replace(headlineMatcher, "$1 ${statusString} $3\n")`. */
  function SetTodoLine(s: string, st: TodoStatus): string {
    match FirstTodoMatch(s, 0)
    case None => s
    case Some(i) => ReplaceMatch(s, i, st)
  }

  /** The replacement of the match at `i`: the text before it and the stars (`$1`), the status
      word between single spaces, group 3, the newline, and the text after the match. */
  function ReplaceMatch(s: string, i: nat, st: TodoStatus): string
    requires i <= |s| && TodoMatchAt(s, i)
  {
    var e := RunEnd(s, i, IsStar);
    var t := RunEnd(s, e, IsDot);
    Rewritten(s[..e], st, TodoRest(s[e..t]), s[t + 1..])
  }

  /** The line `setTodoStatus` writes over a headline. */
  function Rewritten(prefix: string, st: TodoStatus, h: string, rest: string): string {
    prefix + " " + TodoWord(st) + " " + h + "\n" + rest
  }

  /** `setTodoStatus`: rewrite the first line, keep the rest. */
  function SetTodoStatus(fulltext: string, st: TodoStatus): (r: string)
    ensures var first := FulltextToLines(fulltext)[0];
      |first| <= |fulltext| && r == SetTodoLine(first, st) + fulltext[|first|..]
  {
    var c := FulltextToLines(fulltext);
    var c' := c[0 := SetTodoLine(c[0], st)];
    assert c'[1..] == c[1..];
    assert Concat(c) == c[0] + Concat(c[1..]);
    assert fulltext[|c[0]|..] == Concat(c[1..]);
    Concat(c')
  }

  /** The matcher's span on a headline: it starts at index 0, its stars end at `e` and its
      `.*` ends at the headline's newline. */
  lemma {:induction false} TodoMatchOfHeadline(line: string, e: nat, st0: TodoStatus, h: string, t: nat)
    requires HeadlineAt(line, e, st0, h) && t == e + 1 + |KeywordText(st0)| + |h|
    ensures RunEnd(line, 0, IsStar) == e
    ensures e <= t < |line|
    ensures RunEnd(line, e, IsDot) == t
    ensures TodoMatchAt(line, 0)
  {
    var g := e + 1 + |KeywordText(st0)|;
    RunEndAt(line, 0, e, IsStar);
    forall j | e <= j < t ensures IsDot(line[j]) {
      if j >= g {
        assert line[j] == h[j - g];
      } else if j > e {
        assert line[e + 1..g] == KeywordText(st0);
        assert line[j] == KeywordText(st0)[j - e - 1];
      }
    }
    RunEndAt(line, e, t, IsDot);
  }

  /** Group 3 on a headline whose text does not begin with a space is that text. */
  lemma {:induction false} TodoRestOfHeadline(line: string, e: nat, st0: TodoStatus, h: string, t: nat)
    requires HeadlineAt(line, e, st0, h) && (h == [] || h[0] != ' ')
    requires t == e + 1 + |KeywordText(st0)| + |h|
    ensures e <= t <= |line| && TodoRest(line[e..t]) == h
  {
    var k := KeywordText(st0);
    var g := e + 1 + |k|;
    var m := line[e..t];
    assert m[0] == ' ';
    assert |k| > 0 ==> m[1] == line[e + 1];
    assert |k| == 0 && |h| > 0 ==> m[1] == h[0];
    RunEndAt(m, 0, 1, IsSpaceChar);
    KeywordInSpan(line, e, st0, h, t);
    assert m[1 + |k|..] == h;
    RunEndAt(m, 1 + |k|, 1 + |k|, IsSpaceChar);
  }

  lemma {:induction false} KeywordInSpan(line: string, e: nat, st0: TodoStatus, h: string, t: nat)
    requires HeadlineAt(line, e, st0, h) && t == e + 1 + |KeywordText(st0)| + |h|
    ensures t <= |line| && KeywordAt(line[e..t], 1) == st0
  {
    var k := KeywordText(st0);
    var m := line[e..t];
    if st0 == NoTodo {
      assert forall j :: 1 <= j < |m| ==> m[j] == line[e + j];
    } else {
      assert line[e + 1..e + 1 + |k|] == k;
      assert forall j :: 1 <= j < 6 ==> m[j] == k[j - 1];
    }
  }

  /** On a headline whose text does not begin with a space, the status word is replaced and the
      text kept. */
  lemma {:induction false} SetTodoOnHeadline(line: string, e: nat, st0: TodoStatus, h: string, t: nat, st: TodoStatus)
    requires HeadlineAt(line, e, st0, h) && (h == [] || h[0] != ' ')
    requires t == e + 1 + |KeywordText(st0)| + |h|
    ensures SetTodoLine(line, st) == Rewritten(line[..e], st, h, line[t + 1..])
  {
    TodoMatchOfHeadline(line, e, st0, h, t);
    TodoRestOfHeadline(line, e, st0, h, t);
    SetTodoLineAt(line, e, t, h, st);
  }

  /** The rewriting of a line whose match starts at index 0, its stars ending at `e` and its
      `.*` at `t`. */
  lemma {:induction false} SetTodoLineAt(line: string, e: nat, t: nat, h: string, st: TodoStatus)
    requires e <= t < |line| && TodoMatchAt(line, 0)
    requires RunEnd(line, 0, IsStar) == e && RunEnd(line, e, IsDot) == t
    requires TodoRest(line[e..t]) == h
    ensures SetTodoLine(line, st) == Rewritten(line[..e], st, h, line[t + 1..])
  {
    FirstMatchAtStart(line);
    assert SetTodoLine(line, st) == ReplaceMatch(line, 0, st);
    ReplaceMatchAtStart(line, e, t, st);
  }

  lemma {:induction false} ReplaceMatchAtStart(line: string, e: nat, t: nat, st: TodoStatus)
    requires e <= t < |line| && TodoMatchAt(line, 0)
    requires RunEnd(line, 0, IsStar) == e && RunEnd(line, e, IsDot) == t
    ensures ReplaceMatch(line, 0, st) == Rewritten(line[..e], st, TodoRest(line[e..t]), line[t + 1..])
  {
  }

  lemma {:induction false} FirstMatchAtStart(s: string)
    requires TodoMatchAt(s, 0)
    ensures FirstTodoMatch(s, 0) == Some(0)
  {
  }

  /** The line written for TODO or DONE is the headline built with that keyword. */
  lemma {:induction false} RewrittenIsHeadline(prefix: string, st: TodoStatus, h: string, rest: string)
    requires st != NoTodo
    ensures Rewritten(prefix, st, h, rest) == HeadlineText(prefix, st, h) + rest
  {
    assert TodoWord(st) + " " == KeywordText(st);
    assert Rewritten(prefix, st, h, rest) == prefix + " " + (TodoWord(st) + " ") + h + "\n" + rest;
  }

  /** The line written for NONE is a headline without keyword whose text begins with a space. */
  lemma {:induction false} RewrittenNone(prefix: string, h: string, rest: string)
    ensures Rewritten(prefix, NoTodo, h, rest) == HeadlineText(prefix, NoTodo, " " + h) + rest
  {
    assert Rewritten(prefix, NoTodo, h, rest) == prefix + " " + (" " + h) + "\n" + rest;
  }

  /** `setTodoStatus` to TODO or DONE, then the headline grammar, gives that status and the same
      headline text. */
  lemma {:induction false} SetTodoThenParse(line: string, st: TodoStatus)
    requires IsHeadline(line) && st != NoTodo
    requires var h := HeadlineParse(line).value.1; h == [] || h[0] != ' '
    ensures HeadlineParse(SetTodoLine(line, st)) == Some((st, HeadlineParse(line).value.1))
  {
    var (st0, h) := HeadlineParse(line).value;
    var e := RunEnd(line, 0, IsStar);
    HeadlineAtOf(line);
    var prefix := line[..e];
    var t := e + 1 + |KeywordText(st0)| + |h|;
    var rest := line[t + 1..];
    SetTodoOnHeadline(line, e, st0, h, t, st);
    RewrittenIsHeadline(prefix, st, h, rest);
    assert WellFormed(prefix, st, h);
    ParseHeadlineText(prefix, st, h, rest);
  }

  /** `setTodoStatus` to NONE writes two spaces after the stars, so the headline text read back
      begins with a space. */
  lemma {:induction false} SetNoneThenParse(line: string)
    requires IsHeadline(line)
    requires var h := HeadlineParse(line).value.1; h == [] || h[0] != ' '
    ensures HeadlineParse(SetTodoLine(line, NoTodo)) == Some((NoTodo, " " + HeadlineParse(line).value.1))
  {
    var (st0, h) := HeadlineParse(line).value;
    var e := RunEnd(line, 0, IsStar);
    HeadlineAtOf(line);
    var prefix := line[..e];
    var t := e + 1 + |KeywordText(st0)| + |h|;
    var rest := line[t + 1..];
    SetTodoOnHeadline(line, e, st0, h, t, NoTodo);
    RewrittenNone(prefix, h, rest);
    SpacedTextWellFormed(prefix, h);
    ParseHeadlineText(prefix, NoTodo, " " + h, rest);
  }

  lemma {:induction false} SpacedTextWellFormed(prefix: string, h: string)
    requires AllStars(prefix) && SingleLine(h)
    ensures WellFormed(prefix, NoTodo, " " + h)
  {
    SingleLineConcat(" ", h);
    assert (" " + h)[0] == ' ';
  }

  /** A line the matcher does not fit, such as the last line of a text with no newline, is left
      as it is. */
  lemma {:induction false} SetTodoWithoutNewline(s: string, st: TodoStatus)
    requires '\n' !in s
    ensures SetTodoLine(s, st) == s
  {
  }

  /** The rewritten first line keeps a single newline at its end. */
  lemma {:induction false} SetTodoLineTerminated(s: string, st: TodoStatus)
    requires Terminated(s)
    ensures Terminated(SetTodoLine(s, st))
  {
    match FirstTodoMatch(s, 0)
    case None =>
    case Some(i) =>
      var e := RunEnd(s, i, IsStar);
      var t := RunEnd(s, e, IsDot);
      var u := s[..|s| - 1];
      assert t == |s| - 1 by {
        assert forall k :: 0 <= k < |s| - 1 ==> s[k] == u[k];
      }
      assert SetTodoLine(s, st) == ReplaceMatch(s, i, st);
      ReplaceMatchTerminated(s, u, e, t, st);
  }

  lemma {:induction false} ReplaceMatchTerminated(s: string, u: string, e: nat, t: nat, st: TodoStatus)
    requires e <= t && t == |s| - 1 && u == s[..t] && '\n' !in u
    ensures Terminated(Rewritten(s[..e], st, TodoRest(s[e..t]), s[t + 1..]))
  {
    var m := TodoRest(s[e..t]);
    assert s[..e] == u[..e] && s[e..t] == u[e..t];
    NoNewlineSlice(u, 0, e);
    NoNewlineSlice(u, e, t);
    NoNewlineSlice(s[e..t], |s[e..t]| - |m|, |s[e..t]|);
    assert s[t + 1..] == [];
    TerminatedOf(s[..e], TodoWord(st), m);
  }

  lemma {:induction false} NoNewlineSlice(u: string, i: nat, j: nat)
    requires i <= j <= |u| && '\n' !in u
    ensures '\n' !in u[i..j]
  {
    forall k | 0 <= k < j - i ensures u[i..j][k] != '\n' {
      assert u[i..j][k] == u[i + k];
    }
  }

  lemma {:induction false} TerminatedOf(a: string, w: string, m: string)
    requires '\n' !in a && '\n' !in m && (w == "" || w == "TODO" || w == "DONE")
    ensures Terminated(a + " " + w + " " + m + "\n" + [])
  {
    var body := a + " " + w + " " + m;
    assert body + "\n" + [] == body + "\n";
    assert (body + "\n")[..|body|] == body;
    forall k | 0 <= k < |body| ensures body[k] != '\n' {
      if k < |a| {
        assert body[k] == a[k];
      } else if k >= |a| + 2 + |w| {
        assert body[k] == m[k - |a| - 2 - |w|];
      }
    }
  }

  /** `setTodoStatus` changes no line but the first. */
  lemma {:induction false} SetTodoKeepsOtherLines(fulltext: string, st: TodoStatus)
    ensures var c := FulltextToLines(fulltext);
      FulltextToLines(SetTodoStatus(fulltext, st)) == c[0 := SetTodoLine(c[0], st)]
  {
    var c := FulltextToLines(fulltext);
    FulltextToLinesSpec(fulltext);
    var c' := c[0 := SetTodoLine(c[0], st)];
    if |c| == 1 {
      SetTodoWithoutNewline(c[0], st);
      assert c' == c;
      assert Concat(c) == c[0];
      LinesOfNewlineFree(c[0]);
    } else {
      SetTodoLineTerminated(c[0], st);
      assert c'[|c'| - 1] == c[|c| - 1];
      LinesOfConcatOpen(c');
    }
  }
}
