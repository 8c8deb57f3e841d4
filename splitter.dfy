/** `parse`: a whole org file to its entries, through a two-state machine that starts a new
    entry at every headline, then `sortAndFixPriority`, which orders the entries by priority and
    renumbers them 1..N. */
module Splitter {
  import opened Wrappers
  import opened Text
  import opened Entries
  import opened Headline
  import opened PropertyDrawer
  import opened EntryParser
  import opened ParseFsm
  import opened PrioritySort

  /** `contentString.split("\n").map((x) => x + "\n")`: every line ends with a newline, the last
      one included. */
  function ParseLines(s: string): (r: seq<string>)
    ensures |r| == |SplitLines(s)|
    ensures forall i :: 0 <= i < |r| ==> r[i] == SplitLines(s)[i] + "\n" && Terminated(r[i])
  {
    var p := SplitLines(s);
    seq(|p|, i requires 0 <= i < |p| => p[i] + "\n")
  }

  /** The lines concatenate to the text with one more newline at its end. */
  lemma {:induction false} ParseLinesConcat(s: string)
    ensures Concat(ParseLines(s)) == s + "\n"
  {
    TerminatedPiecesConcat(SplitLines(s), ParseLines(s));
  }

  lemma {:induction false} TerminatedPiecesConcat(p: seq<string>, r: seq<string>)
    requires |p| >= 1 && |r| == |p|
    requires forall i :: 0 <= i < |r| ==> r[i] == p[i] + "\n"
    ensures Concat(r) == Join(p, "\n") + "\n"
  {
    if |p| > 1 {
      TerminatedPiecesConcat(p[1..], r[1..]);
      assert Concat(r) == r[0] + Concat(r[1..]);
    } else {
      assert Concat(r) == r[0] + Concat(r[1..]);
    }
  }

  /** Each group is an entry's lines, and every line of it passes `NumericLines`. */
  predicate GroupsOk(gs: seq<seq<string>>) {
    forall k :: 0 <= k < |gs| ==> EntryLines(IsHeadline, gs[k]) && NumericLines(gs[k])
  }

  /** The groups of a text whose priorities are numeric pass `GroupsOk`. */
  lemma {:induction false} NumericGroups(gs: seq<seq<string>>, lines: seq<string>)
    requires NumericLines(lines) && AllEntryLines(IsHeadline, gs) && LinesFrom(gs, lines)
    ensures GroupsOk(gs)
  {
  }

  /** The entry `parseEntry` makes of one entry's lines. */
  function EntryOf(g: seq<string>, freshId: string): (e: Entry)
    requires EntryLines(IsHeadline, g) && NumericLines(g)
  {
    ParsedEntryOutcome(g, freshId);
    ParsedEntry(g, freshId).value
  }

  /** The entries parsed from the groups, the `k`th drawing `freshIds[k]` when it needs an id. */
  function ParsedGroups(gs: seq<seq<string>>, freshIds: seq<string>): (es: seq<Entry>)
    requires |freshIds| >= |gs| && GroupsOk(gs)
  {
    MapGroups(gs, freshIds, EntryOf)
  }

  /** The `k`th parsed entry is what `parseEntry` makes of the `k`th group. */
  lemma {:induction false} ParsedGroupsAt(gs: seq<seq<string>>, freshIds: seq<string>, k: nat)
    requires |freshIds| >= |gs| && GroupsOk(gs) && k < |gs|
    ensures |ParsedGroups(gs, freshIds)| == |gs|
    ensures ParsedEntry(gs[k], freshIds[k]) == Success(ParsedGroups(gs, freshIds)[k])
  {
  }

  lemma {:induction false} GroupsOkAppend(gs: seq<seq<string>>, g: seq<string>)
    ensures GroupsOk(gs + [g]) <==> GroupsOk(gs) && EntryLines(IsHeadline, g) && NumericLines(g)
  {
    assert forall k :: 0 <= k < |gs| ==> (gs + [g])[k] == gs[k];
    assert (gs + [g])[|gs|] == g;
  }

  lemma {:induction false} ParsedGroupsAppend(gs: seq<seq<string>>, g: seq<string>, freshIds: seq<string>)
    requires |freshIds| > |gs| && GroupsOk(gs) && EntryLines(IsHeadline, g) && NumericLines(g)
    ensures GroupsOk(gs + [g])
    ensures ParsedGroups(gs + [g], freshIds) == ParsedGroups(gs, freshIds) + [EntryOf(g, freshIds[|gs|])]
  {
    GroupsOkAppend(gs, g);
    MapGroupsAppend(gs, g, freshIds, EntryOf);
  }

  /** One entry after `sortAndFixPriority` gives it priority `p`: the summary and the
      `TimeTrackerPriority` property of the text both say `p`. */
  function WithFixedPriority(e: Entry, p: int): (r: Entry)
    ensures r.summary == e.summary.(priority := p)
  {
    Entry(e.summary.(priority := p), SetPriority(e.fulltext, p))
  }

  /** The entries renumbered 1..N in list order. */
  function Renumbered(s: seq<Entry>): (r: seq<Entry>)
    ensures |r| == |s|
    ensures forall k :: 0 <= k < |r| ==> Priority(r[k]) == k + 1
  {
    seq(|s|, k requires 0 <= k < |s| => WithFixedPriority(s[k], k + 1))
  }

  /** One turn of the renumbering loop: `setProperty` on the entry's lines, then the summary. */
  method FixPriority(e: Entry, p: int) returns (r: Entry)
    ensures r == WithFixedPriority(e, p)
  {
    var lines := new LineArray(FulltextToLines(e.fulltext));
    SetProperty(lines, PriorityName, IntToString(p));
    r := Entry(e.summary.(priority := p), Concat(lines.items));
  }

  /** `sortAndFixPriority`: the library sort, then the renumbering loop. */
  method SortAndFixPriority(entries: seq<Entry>) returns (r: seq<Entry>)
    ensures r == Renumbered(SortBy(Ascending, entries))
  {
    r := SortBy(Ascending, entries);
    ghost var sorted := r;
    var priority := 1;
    var k := 0;
    while k < |r|
      invariant 0 <= k <= |r| == |sorted| && priority == k + 1
      invariant forall j :: 0 <= j < k ==> r[j] == WithFixedPriority(sorted[j], j + 1)
      invariant forall j :: k <= j < |r| ==> r[j] == sorted[j]
    {
      var entry := FixPriority(r[k], priority);
      r := r[k := entry];
      priority := priority + 1;
      k := k + 1;
    }
  }

  /** Every priority value in the text is an optionally signed decimal. */
  predicate NumericText(content: string) {
    NumericLines(ParseLines(content))
  }

  /** What `parse` returns, the `k`th entry drawing `freshIds[k]` when it needs an id: it throws
      when no line is a headline, as `parseEntry([])` does. */
  function ParsedDocument(content: string, freshIds: seq<string>): (r: Result<seq<Entry>, ParseError>)
    requires NumericText(content)
    requires |freshIds| >= CountHeadlines(IsHeadline, ParseLines(content))
    ensures r.Failure? <==> FirstHeadline(IsHeadline, ParseLines(content)).None?
    ensures r.Success? ==> |r.value| == CountHeadlines(IsHeadline, ParseLines(content))
  {
    ParsedLines(ParseLines(content), freshIds)
  }

  lemma {:induction false} GroupsNumeric(lines: seq<string>)
    requires NumericLines(lines) && FirstHeadline(IsHeadline, lines).Some?
    ensures GroupsOk(Groups(IsHeadline, lines))
  {
    SplitState(IsHeadline, lines, |lines|);
    NumericGroups(Groups(IsHeadline, lines), lines);
  }

  /** While scanning, the machine's finished entries and the one being collected can all be
      handed to `parseEntry`, and there are ids enough for them. */
  lemma {:induction false} ScanningGroups(lines: seq<string>, i: nat)
    requires i <= |lines| && NumericLines(lines)
    requires SplitTo(IsHeadline, lines, i).state == ScanningHeadline
    ensures var s := SplitTo(IsHeadline, lines, i);
      && GroupsOk(s.groups) && EntryLines(IsHeadline, s.current) && NumericLines(s.current)
      && |s.groups| < CountHeadlines(IsHeadline, lines)
  {
    var s := SplitTo(IsHeadline, lines, i);
    SplitState(IsHeadline, lines, i);
    NumericGroups(s.groups + [s.current], lines);
    GroupsOkAppend(s.groups, s.current);
  }

  /** `parseEntry(currentBodyPieces)`, on the lines of one entry. */
  method ParseGroup(pieces: seq<string>, freshId: string) returns (e: Entry)
    requires EntryLines(IsHeadline, pieces) && NumericLines(pieces)
    ensures e == EntryOf(pieces, freshId)
  {
    var content := new LineArray(pieces);
    var r := ParseEntry(content, freshId);
    e := r.value;
  }

  /** `parse`. */
  method Parse(contentString: string, freshIds: seq<string>) returns (r: Result<seq<Entry>, ParseError>)
    requires NumericText(contentString)
    requires |freshIds| >= CountHeadlines(IsHeadline, ParseLines(contentString))
    ensures r == ParsedDocument(contentString, freshIds)
  {
    var content := ParseLines(contentString);
    r := ParseContent(content, freshIds);
  }

  /** The entries of the text's lines: `parse` once the text is split into lines. */
  function ParsedLines(lines: seq<string>, freshIds: seq<string>): (r: Result<seq<Entry>, ParseError>)
    requires NumericLines(lines) && |freshIds| >= CountHeadlines(IsHeadline, lines)
    ensures r.Failure? <==> FirstHeadline(IsHeadline, lines).None?
    ensures r.Success? ==> |r.value| == CountHeadlines(IsHeadline, lines)
  {
    if FirstHeadline(IsHeadline, lines).None? then Failure(NoLines)
    else
      GroupsNumeric(lines);
      Success(Renumbered(SortBy(Ascending, ParsedGroups(Groups(IsHeadline, lines), freshIds))))
  }

  /** The loop of `parse`, over the text's lines. */
  method ParseContent(content: seq<string>, freshIds: seq<string>) returns (r: Result<seq<Entry>, ParseError>)
    requires NumericLines(content)
    requires |freshIds| >= CountHeadlines(IsHeadline, content)
    ensures r == ParsedLines(content, freshIds)
  {
    var entries: seq<Entry> := [];
    var currentBodyPieces: seq<string> := [];
    var prefixBodyPieces: seq<string> := [];
    var currentState := SeekingHeadline;
    ghost var groups: seq<seq<string>> := [];
    var i := 0;
    while i < |content|
      invariant 0 <= i <= |content|
      invariant SplitTo(IsHeadline, content, i) == Splitting(currentState, prefixBodyPieces, groups, currentBodyPieces)
      invariant |groups| <= |freshIds| && GroupsOk(groups)
      invariant entries == ParsedGroups(groups, freshIds)
    {
      var line := content[i];
      var isHead := IsHeadline(line);
      assert SplitTo(IsHeadline, content, i + 1) == Advance(SplitTo(IsHeadline, content, i), line, isHead);
      match currentState {
        case SeekingHeadline =>
          if !isHead {
            prefixBodyPieces := prefixBodyPieces + [line];
          } else {
            currentBodyPieces := currentBodyPieces + [line];
            currentState := ScanningHeadline;
          }
        case ScanningHeadline =>
          if !isHead {
            currentBodyPieces := currentBodyPieces + [line];
          } else {
            ScanningGroups(content, i);
            ParsedGroupsAppend(groups, currentBodyPieces, freshIds);
            var entry := ParseGroup(currentBodyPieces, freshIds[|entries|]);
            entries := entries + [entry];
            groups := groups + [currentBodyPieces];
            currentBodyPieces := [line];
          }
      }
      i := i + 1;
    }
    SplitState(IsHeadline, content, i);
    if currentBodyPieces == [] {
      // parseEntry throws on an entry without lines
      return Failure(NoLines);
    }
    ScanningGroups(content, i);
    ParsedGroupsAppend(groups, currentBodyPieces, freshIds);
    var entry := ParseGroup(currentBodyPieces, freshIds[|entries|]);
    entries := entries + [entry];
    var sorted := SortAndFixPriority(entries);
    return Success(sorted);
  }

  /** What `sortAndFixPriority` returns: the entries stably sorted by priority, each carrying
      its rank as its priority, in its summary and in its text. */
  ghost predicate RankedFrom(es: seq<Entry>, parsed: seq<Entry>) {
    exists sorted: seq<Entry> ::
      && SortedBy(Ascending, sorted)
      && multiset(sorted) == multiset(parsed)
      && (forall v :: WithPriority(sorted, v) == WithPriority(parsed, v))
      && |es| == |sorted|
      && (forall k :: 0 <= k < |es| ==>
            es[k].summary == sorted[k].summary.(priority := k + 1)
            && es[k].fulltext == SetPriority(sorted[k].fulltext, k + 1))
  }

  lemma {:induction false} SortAndFixRanks(parsed: seq<Entry>)
    ensures RankedFrom(Renumbered(SortBy(Ascending, parsed)), parsed)
  {
    var sorted := SortBy(Ascending, parsed);
    SortFacts(parsed);
    RenumberedFacts(sorted);
  }

  /** The ascending sort sorts, permutes and keeps the order within each priority. */
  lemma {:induction false} SortFacts(parsed: seq<Entry>)
    ensures var sorted := SortBy(Ascending, parsed);
      && SortedBy(Ascending, sorted)
      && multiset(sorted) == multiset(parsed)
      && (forall v :: WithPriority(sorted, v) == WithPriority(parsed, v))
  {
    SortSorted(Ascending, parsed);
    forall v ensures WithPriority(SortBy(Ascending, parsed), v) == WithPriority(parsed, v) {
      SortStable(Ascending, parsed, v);
    }
  }

  /** The renumbering loop gives the `k`th entry priority `k + 1`, in its summary and in its
      text, and changes nothing else in its summary. */
  lemma {:induction false} RenumberedFacts(sorted: seq<Entry>)
    ensures var es := Renumbered(sorted);
      && |es| == |sorted|
      && (forall k :: 0 <= k < |es| ==>
            es[k].summary == sorted[k].summary.(priority := k + 1)
            && es[k].fulltext == SetPriority(sorted[k].fulltext, k + 1))
  {
    var es := Renumbered(sorted);
    forall k | 0 <= k < |es|
      ensures es[k].summary == sorted[k].summary.(priority := k + 1)
      ensures es[k].fulltext == SetPriority(sorted[k].fulltext, k + 1)
    {
      assert es[k] == WithFixedPriority(sorted[k], k + 1);
    }
  }

  /** `parse` keeps one entry per headline, ordered by the priority each had and renumbered
      1..N. */
  lemma {:induction false} ParsedOrder(lines: seq<string>, freshIds: seq<string>)
    requires NumericLines(lines) && |freshIds| >= CountHeadlines(IsHeadline, lines)
    requires FirstHeadline(IsHeadline, lines).Some?
    ensures GroupsOk(Groups(IsHeadline, lines))
    ensures RankedFrom(ParsedLines(lines, freshIds).value, ParsedGroups(Groups(IsHeadline, lines), freshIds))
  {
    GroupsNumeric(lines);
    SortAndFixRanks(ParsedGroups(Groups(IsHeadline, lines), freshIds));
  }
}
