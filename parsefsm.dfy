/** The two-state machine `parse` runs over a text's lines: lines before the first headline are
    a prefix it drops, and from there on every headline starts the lines of a new entry. The
    machine is stated for any headline test `head`; `Splitter` runs it with `isHeadline`. */
module ParseFsm {
  import opened Wrappers

  /** The machine's two states. */
  datatype FsmState = SeekingHeadline | ScanningHeadline

  /** The machine's variables: its state, the lines before the first headline, the entries'
      lines handed to `parseEntry` so far, and the lines of the entry being collected. */
  datatype Splitting = Splitting(state: FsmState, prefix: seq<string>, groups: seq<seq<string>>, current: seq<string>)

  /** One turn of the loop. */
  function Step(head: string -> bool, s: Splitting, line: string): Splitting {
    Advance(s, line, head(line))
  }

  /** One turn of the loop, on a line that is a headline or not as `isHead` says. */
  function Advance(s: Splitting, line: string, isHead: bool): Splitting {
    match s.state
    case SeekingHeadline =>
      if !isHead then s.(prefix := s.prefix + [line])
      else s.(current := s.current + [line], state := ScanningHeadline)
    case ScanningHeadline =>
      if !isHead then s.(current := s.current + [line])
      else s.(groups := s.groups + [s.current], current := [line])
  }

  /** The machine after the first `i` lines. */
  function SplitTo(head: string -> bool, lines: seq<string>, i: nat): Splitting
    requires i <= |lines|
  {
    if i == 0 then Splitting(SeekingHeadline, [], [], [])
    else Step(head, SplitTo(head, lines, i - 1), lines[i - 1])
  }

  function CountHeadlines(head: string -> bool, lines: seq<string>): nat {
    if lines == [] then 0
    else CountHeadlines(head, lines[..|lines| - 1]) + (if head(lines[|lines| - 1]) then 1 else 0)
  }

  /** The lines of several entries, one after the other. */
  function Flatten(gs: seq<seq<string>>): seq<string> {
    if gs == [] then [] else Flatten(gs[..|gs| - 1]) + gs[|gs| - 1]
  }

  /** The index of the first headline line. */
  function FirstHeadline(head: string -> bool, lines: seq<string>): (r: Option<nat>)
    ensures r.Some? ==> r.value < |lines| && head(lines[r.value])
    ensures r.Some? ==> forall k :: 0 <= k < r.value ==> !head(lines[k])
    ensures r.None? ==> forall k :: 0 <= k < |lines| ==> !head(lines[k])
  {
    if lines == [] then None
    else if head(lines[0]) then Some(0)
    else match FirstHeadline(head, lines[1..])
      case None => None
      case Some(k) => Some(k + 1)
  }

  /** The lines of one entry: a headline, then lines that are not. */
  predicate EntryLines(head: string -> bool, g: seq<string>) {
    |g| >= 1 && head(g[0]) && forall k :: 1 <= k < |g| ==> !head(g[k])
  }

  /** What the machine has done after reading the lines `a`: before the first headline, every
      line went to the prefix; from it on, the entries' lines are those lines in order, one entry
      per headline. */
  predicate Consumed(head: string -> bool, a: seq<string>, s: Splitting) {
    var h := FirstHeadline(head, a);
    && (s.state == SeekingHeadline <==> h.None?)
    && (h.None? ==> s.prefix == a && s.groups == [] && s.current == [])
    && (h.Some? ==>
          && s.prefix == a[..h.value]
          && Flatten(s.groups + [s.current]) == a[h.value..]
          && AllEntryLines(head, s.groups + [s.current])
          && |s.groups| + 1 == CountHeadlines(head, a))
  }

  predicate AllEntryLines(head: string -> bool, gs: seq<seq<string>>) {
    forall k :: 0 <= k < |gs| ==> EntryLines(head, gs[k])
  }

  lemma {:induction false} AllEntryLinesAppend(head: string -> bool, gs: seq<seq<string>>, g: seq<string>)
    ensures AllEntryLines(head, gs + [g]) <==> AllEntryLines(head, gs) && EntryLines(head, g)
  {
    assert forall k :: 0 <= k < |gs| ==> (gs + [g])[k] == gs[k];
    assert (gs + [g])[|gs|] == g;
  }

  lemma {:induction false} SplitToConsumed(head: string -> bool, lines: seq<string>, i: nat)
    requires i <= |lines|
    ensures Consumed(head, lines[..i], SplitTo(head, lines, i))
  {
    if i == 0 {
      assert lines[..0] == [];
    } else {
      SplitToConsumed(head, lines, i - 1);
      assert lines[..i] == lines[..i - 1] + [lines[i - 1]];
      StepConsumed(head, lines[..i - 1], SplitTo(head, lines, i - 1), lines[i - 1]);
    }
  }

  lemma {:induction false} StepConsumed(head: string -> bool, a: seq<string>, s: Splitting, line: string)
    requires Consumed(head, a, s)
    ensures Consumed(head, a + [line], Step(head, s, line))
  {
    FirstHeadlineAppend(head, a, line);
    CountAppend(head, a, line);
    if s.state == SeekingHeadline {
      if head(line) {
        StepStart(head, a, s, line);
      }
    } else if head(line) {
      StepNext(head, a, s, line);
    } else {
      StepContinue(head, a, s, line);
    }
  }

  lemma {:induction false} StepStart(head: string -> bool, a: seq<string>, s: Splitting, line: string)
    requires s.state == SeekingHeadline && head(line)
    requires FirstHeadline(head, a).None? && s.prefix == a && s.groups == [] && s.current == []
    requires FirstHeadline(head, a + [line]) == Some(|a|)
    requires CountHeadlines(head, a + [line]) == CountHeadlines(head, a) + 1
    ensures Consumed(head, a + [line], Step(head, s, line))
  {
    var b := a + [line];
    var t := Step(head, s, line);
    assert t.current == [] + [line] == [line];
    assert t.groups + [t.current] == [[line]];
    assert Flatten([[line]]) == Flatten([]) + [line];
    assert b[..|a|] == a && b[|a|..] == [line];
    CountNoHeadlines(head, a);
  }

  lemma {:induction false} StepNext(head: string -> bool, a: seq<string>, s: Splitting, line: string)
    requires FirstHeadline(head, a).Some? && head(line)
    requires var h := FirstHeadline(head, a).value;
      && s.state == ScanningHeadline
      && s.prefix == a[..h]
      && Flatten(s.groups + [s.current]) == a[h..]
      && AllEntryLines(head, s.groups + [s.current])
      && |s.groups| + 1 == CountHeadlines(head, a)
    requires FirstHeadline(head, a + [line]) == FirstHeadline(head, a)
    requires CountHeadlines(head, a + [line]) == CountHeadlines(head, a) + 1
    ensures Consumed(head, a + [line], Step(head, s, line))
  {
    var h := FirstHeadline(head, a).value;
    var b := a + [line];
    var t := Step(head, s, line);
    var gs := s.groups + [s.current];
    assert t.groups + [t.current] == gs + [[line]];
    FlattenAppend(gs, [line]);
    assert b[..h] == a[..h];
    assert b[h..] == a[h..] + [line];
    AllEntryLinesAppend(head, gs, [line]);
  }

  lemma {:induction false} StepContinue(head: string -> bool, a: seq<string>, s: Splitting, line: string)
    requires FirstHeadline(head, a).Some? && !head(line)
    requires var h := FirstHeadline(head, a).value;
      && s.state == ScanningHeadline
      && s.prefix == a[..h]
      && Flatten(s.groups + [s.current]) == a[h..]
      && AllEntryLines(head, s.groups + [s.current])
      && |s.groups| + 1 == CountHeadlines(head, a)
    requires FirstHeadline(head, a + [line]) == FirstHeadline(head, a)
    requires CountHeadlines(head, a + [line]) == CountHeadlines(head, a)
    ensures Consumed(head, a + [line], Step(head, s, line))
  {
    var h := FirstHeadline(head, a).value;
    var b := a + [line];
    var t := Step(head, s, line);
    var gs := s.groups + [s.current];
    FlattenLast(s.groups, s.current, line);
    assert b[..h] == a[..h];
    assert b[h..] == a[h..] + [line];
    AllEntryLinesAppend(head, s.groups, s.current);
    AllEntryLinesAppend(head, s.groups, s.current + [line]);
    assert (s.current + [line])[0] == s.current[0];
    assert forall k :: 1 <= k < |s.current| ==> (s.current + [line])[k] == s.current[k];
  }

  lemma {:induction false} FirstHeadlineAppend(head: string -> bool, a: seq<string>, line: string)
    ensures var h := FirstHeadline(head, a);
      FirstHeadline(head, a + [line]) == if h.Some? then h else if head(line) then Some(|a|) else None
  {
    var b := a + [line];
    if a == [] {
      assert b == [line] && b[1..] == [];
    } else if head(a[0]) {
      assert b[0] == a[0];
    } else {
      assert b[0] == a[0];
      assert b[1..] == a[1..] + [line];
      FirstHeadlineAppend(head, a[1..], line);
    }
  }

  lemma {:induction false} CountAppend(head: string -> bool, a: seq<string>, line: string)
    ensures CountHeadlines(head, a + [line]) == CountHeadlines(head, a) + if head(line) then 1 else 0
  {
    assert (a + [line])[..|a|] == a;
  }

  lemma {:induction false} CountNoHeadlines(head: string -> bool, a: seq<string>)
    requires forall k :: 0 <= k < |a| ==> !head(a[k])
    ensures CountHeadlines(head, a) == 0
  {
    if a != [] {
      CountNoHeadlines(head, a[..|a| - 1]);
    }
  }

  /** A prefix of the lines has no more headlines than all of them. */
  lemma {:induction false} CountPrefix(head: string -> bool, lines: seq<string>, i: nat)
    requires i <= |lines|
    ensures CountHeadlines(head, lines[..i]) <= CountHeadlines(head, lines)
  {
    if i < |lines| {
      var p := lines[..|lines| - 1];
      assert lines[..i] == p[..i];
      CountPrefix(head, p, i);
    } else {
      assert lines[..i] == lines;
    }
  }

  lemma {:induction false} FlattenAppend(gs: seq<seq<string>>, g: seq<string>)
    ensures Flatten(gs + [g]) == Flatten(gs) + g
  {
    assert (gs + [g])[..|gs|] == gs;
  }

  lemma {:induction false} FlattenLast(gs: seq<seq<string>>, cur: seq<string>, line: string)
    ensures Flatten(gs + [cur + [line]]) == Flatten(gs + [cur]) + [line]
  {
    FlattenAppend(gs, cur + [line]);
    FlattenAppend(gs, cur);
  }

  /** Every line of an entry comes from the text. */
  lemma {:induction false} FlattenMember(gs: seq<seq<string>>, k: nat, line: string)
    requires k < |gs| && line in gs[k]
    ensures line in Flatten(gs)
  {
    if k < |gs| - 1 {
      FlattenMember(gs[..|gs| - 1], k, line);
      assert gs[..|gs| - 1][k] == gs[k];
    }
  }

  /** Every line of every group is a line of `lines`. */
  predicate LinesFrom(gs: seq<seq<string>>, lines: seq<string>) {
    forall k, line :: 0 <= k < |gs| && line in gs[k] ==> line in lines
  }

  /** What the machine holds after reading `i` lines: while seeking, nothing; while scanning,
      entries' lines taken from the text, fewer finished entries than the text has headlines. */
  lemma {:induction false} SplitState(head: string -> bool, lines: seq<string>, i: nat)
    requires i <= |lines|
    ensures var s := SplitTo(head, lines, i);
      && (s.state == ScanningHeadline ==>
            && AllEntryLines(head, s.groups + [s.current])
            && LinesFrom(s.groups + [s.current], lines)
            && |s.groups| < CountHeadlines(head, lines))
      && (s.state == SeekingHeadline ==> s.groups == [] && s.current == [])
      && (i == |lines| ==> (s.state == ScanningHeadline <==> FirstHeadline(head, lines).Some?))
  {
    var s := SplitTo(head, lines, i);
    var a := lines[..i];
    SplitToConsumed(head, lines, i);
    CountPrefix(head, lines, i);
    if s.state == ScanningHeadline {
      var h := FirstHeadline(head, a).value;
      var gs := s.groups + [s.current];
      forall k, line | 0 <= k < |gs| && line in gs[k] ensures line in lines {
        FlattenMember(gs, k, line);
        assert line in a[h..];
      }
    } else if i == |lines| {
      assert a == lines;
    }
  }

  /** The entries' lines the machine hands on once every line is read, when the text has a
      headline. */
  function Groups(head: string -> bool, lines: seq<string>): (gs: seq<seq<string>>)
    ensures FirstHeadline(head, lines).Some? ==>
      && |gs| == CountHeadlines(head, lines)
      && Flatten(gs) == lines[FirstHeadline(head, lines).value..]
      && AllEntryLines(head, gs)
  {
    var s := SplitTo(head, lines, |lines|);
    SplitToConsumed(head, lines, |lines|);
    assert lines[..|lines|] == lines;
    s.groups + [s.current]
  }

  /** `f` applied to each group with the id drawn for it. */
  function MapGroups<T>(gs: seq<seq<string>>, ids: seq<string>, f: (seq<string>, string) --> T): (r: seq<T>)
    requires |ids| >= |gs| && forall k :: 0 <= k < |gs| ==> f.requires(gs[k], ids[k])
    ensures |r| == |gs| && forall k :: 0 <= k < |gs| ==> r[k] == f(gs[k], ids[k])
  {
    seq(|gs|, k requires 0 <= k < |gs| => f(gs[k], ids[k]))
  }

  lemma {:induction false} MapGroupsAppend<T>(gs: seq<seq<string>>, g: seq<string>, ids: seq<string>, f: (seq<string>, string) --> T)
    requires |ids| > |gs| && forall k :: 0 <= k < |gs| ==> f.requires(gs[k], ids[k])
    requires f.requires(g, ids[|gs|])
    ensures forall k :: 0 <= k < |gs| + 1 ==> f.requires((gs + [g])[k], ids[k])
    ensures MapGroups(gs + [g], ids, f) == MapGroups(gs, ids, f) + [f(g, ids[|gs|])]
  {
    assert forall k :: 0 <= k < |gs| ==> (gs + [g])[k] == gs[k];
    assert (gs + [g])[|gs|] == g;
  }
}
