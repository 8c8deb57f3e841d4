/** `parseEntry`: one entry's lines to its summary and its text, giving the entry an `:ID:`
    when it has none. */
module EntryParser {
  import opened Wrappers
  import opened Text
  import opened OrgDate
  import opened Entries
  import opened Headline
  import opened PropertyDrawer
  import opened Deadline

  const PriorityName: string := "TimeTrackerPriority"
  const IdName: string := "ID"

  /** Why `parseEntry` throws. */
  datatype ParseError = NoLines | MalformedHeadline(line: string)

  /** A `TimeTrackerPriority` line whose value `parseInt` reads as an integer. */
  predicate NumericPriorityLine(line: string) {
    HasProperty(line, PriorityName) ==> IsSignedDecimal(PropertyMatch(line).value.1)
  }

  /** Every priority value in the lines is an optionally signed decimal. */
  predicate NumericLines(c: seq<string>) {
    forall line :: line in c ==> NumericPriorityLine(line)
  }

  /** The id already stored in the entry; an empty one counts as missing. */
  function KnownId(c: seq<string>): (r: Option<string>)
    requires |c| >= 1
    ensures r.Some? ==> r.value != [] && r == EntryIdOf(c, HeaderStart(c))
  {
    var id := EntryIdOf(c, HeaderStart(c));
    if id.Some? && id.value != [] then id else None
  }

  /** The lines after `parseEntry` has made sure the entry has an id. */
  function WithId(c: seq<string>, freshId: string): seq<string>
    requires |c| >= 1
  {
    if KnownId(c).Some? then c else PropertySet(c, IdName, freshId)
  }

  /** The id of the parsed entry. */
  function EntryId(c: seq<string>, freshId: string): string
    requires |c| >= 1
  {
    match KnownId(c)
    case Some(id) => id
    case None => freshId
  }

  /** The final `pop` when the lines end with two lines holding only a newline. */
  function TrimBlankEnd(c: seq<string>): (r: seq<string>)
    ensures r <= c && |c| - 1 <= |r|
  {
    if |c| > 2 && c[|c| - 1] == "\n" && c[|c| - 2] == "\n" then c[..|c| - 1] else c
  }

  /** `parseInt` of a priority value. Values other than optionally signed decimals, for which
      `parseInt` gives `NaN` or reads only a prefix, are excluded by the precondition of
      `ParsedEntry`; this function reads them as 0. */
  function PriorityValue(v: string): int {
    if IsSignedDecimal(v) then ParseSignedDecimal(v) else 0
  }

  /** The body loop from line `i`: lines outside a drawer are body lines; a drawer runs from a
      `:NAME:` line to an `:END:` line, and a `TimeTrackerPriority` inside it sets the priority
      (the last one wins). */
  function ScanBody(c: seq<string>, i: nat, inDrawer: bool, body: seq<string>, priority: Option<int>)
    : (seq<string>, Option<int>)
    requires i <= |c|
    decreases |c| - i
  {
    if i == |c| then (body, priority)
    else if !inDrawer then
      if IsDrawerLine(c[i]) then ScanBody(c, i + 1, true, body, priority)
      else ScanBody(c, i + 1, false, body + [c[i]], priority)
    else if IsEndLine(c[i]) then ScanBody(c, i + 1, false, body, priority)
    else if HasProperty(c[i], PriorityName) then
      ScanBody(c, i + 1, true, body, Some(PriorityValue(PropertyMatch(c[i]).value.1)))
    else ScanBody(c, i + 1, true, body, priority)
  }

  /** What `parseEntry` returns for the lines `c`, with `freshId` as the id it generates. */
  function ParsedEntry(c: seq<string>, freshId: string): (r: Result<Entry, ParseError>)
    requires NumericLines(c)
  {
    if |c| == 0 then Failure(NoLines)
    else match HeadlineParse(c[0])
    case None => Failure(MalformedHeadline(c[0]))
    case Some((st, h)) =>
      var c1 := WithId(c, freshId);
      var scan := ScanBody(c1, HeaderStart(c), false, [], None);
      var summary := Summary(EntryId(c, freshId), h, GetDeadline(c), st, Concat(scan.0),
                             if scan.1.Some? then scan.1.value else -1);
      Success(Entry(summary, Concat(TrimBlankEnd(c1))))
  }

  /** `parseEntry` throws exactly on no lines or a first line outside the headline grammar, and
      the deadline it reports is the one `getDeadline` reads. */
  lemma {:induction false} ParsedEntryOutcome(c: seq<string>, freshId: string)
    requires NumericLines(c)
    ensures ParsedEntry(c, freshId).Failure? <==> |c| == 0 || !IsHeadline(c[0])
    ensures ParsedEntry(c, freshId).Success? ==> ParsedEntry(c, freshId).value.summary.deadline == GetDeadline(c)
  {
  }

  /** The lines `parseEntry` leaves in its argument after parsing it. */
  function LinesAfterParse(c: seq<string>, freshId: string): seq<string>
    requires |c| >= 1
  {
    TrimBlankEnd(WithId(c, freshId))
  }

  /** The fields of a parsed entry, one by one. */
  lemma {:induction false} ParsedEntryFields(c: seq<string>, freshId: string)
    requires NumericLines(c) && |c| >= 1 && IsHeadline(c[0])
    ensures HeaderStart(c) <= |WithId(c, freshId)|
    ensures var e := ParsedEntry(c, freshId).value;
      var scan := ScanBody(WithId(c, freshId), HeaderStart(c), false, [], None);
      && e.summary.id == EntryId(c, freshId)
      && (e.summary.todo, e.summary.headline) == HeadlineParse(c[0]).value
      && e.summary.body == Concat(scan.0)
      && e.summary.priority == (if scan.1.Some? then scan.1.value else -1)
      && e.fulltext == Concat(LinesAfterParse(c, freshId))
  {
    if KnownId(c).None? {
      PropertySetKeepsHeadline(c, IdName, freshId);
    }
  }

  /** `parseEntry`, on the array it receives and mutates. */
  method ParseEntry(content: LineArray, freshId: string) returns (r: Result<Entry, ParseError>)
    requires NumericLines(content.items)
    modifies content
    ensures r == ParsedEntry(old(content.items), freshId)
    ensures r.Success? ==> content.items == LinesAfterParse(old(content.items), freshId)
    ensures r.Failure? ==> content.items == old(content.items)
  {
    if |content.items| == 0 {
      return Failure(NoLines);
    }
    var headlineParse := HeadlineParse(content.items[0]);
    if headlineParse.None? {
      return Failure(MalformedHeadline(content.items[0]));
    }
    var (todoState, headline) := headlineParse.value;
    var deadline := GetDeadline(content.items);
    var firstBodyLine := 1;
    if deadline.Some? {
      firstBodyLine := firstBodyLine + 1;
    }
    ghost var c := content.items;
    var id := EnsureId(content, firstBodyLine, freshId);
    ghost var c1 := content.items;
    var bodyLines, priority := ParseBody(content, firstBodyLine);
    assert (bodyLines, priority) == ScanBody(c1, HeaderStart(c), false, [], None);
    var n := |content.items|;
    if n > 2 && content.items[n - 1] == "\n" && content.items[n - 2] == "\n" {
      content.items := content.items[..n - 1];
    }
    assert content.items == TrimBlankEnd(c1);
    var summary := Summary(id, headline, deadline, todoState, Concat(bodyLines),
                           if priority.None? then -1 else priority.value);
    return Success(Entry(summary, Concat(content.items)));
  }

  /** The id lookup of `parseEntry`: keep the stored id, or write the fresh one into the drawer. */
  method EnsureId(content: LineArray, firstBodyLine: nat, freshId: string) returns (id: string)
    requires |content.items| >= 1 && firstBodyLine == HeaderStart(content.items)
    modifies content
    ensures id == EntryId(old(content.items), freshId)
    ensures content.items == WithId(old(content.items), freshId)
    ensures firstBodyLine <= |content.items|
  {
    ghost var c := content.items;
    var entryId := GetEntryId(content, firstBodyLine);
    if entryId.None? || entryId.value == "" {
      id := freshId;
      SetProperty(content, IdName, id);
      PropertySetKeepsHeadline(c, IdName, id);
    } else {
      id := entryId.value;
    }
  }

  /** The body loop of `parseEntry`, with its `parsingDrawer` flag. */
  method ParseBody(content: LineArray, firstBodyLine: nat) returns (bodyLines: seq<string>, priority: Option<int>)
    requires firstBodyLine <= |content.items|
    ensures (bodyLines, priority) == ScanBody(content.items, firstBodyLine, false, [], None)
  {
    var parsingDrawer := false;
    priority := None;
    bodyLines := [];
    var i := firstBodyLine;
    while i < |content.items|
      invariant firstBodyLine <= i <= |content.items|
      invariant ScanBody(content.items, i, parsingDrawer, bodyLines, priority)
             == ScanBody(content.items, firstBodyLine, false, [], None)
      decreases |content.items| - i
    {
      if !parsingDrawer {
        if IsDrawerLine(content.items[i]) {
          parsingDrawer := true;
          i := i + 1;
          continue;
        }
        bodyLines := bodyLines + [content.items[i]];
      } else {
        if IsEndLine(content.items[i]) {
          parsingDrawer := false;
          i := i + 1;
          continue;
        }
        var propertyTest := PropertyMatch(content.items[i]);
        if propertyTest.Some? && propertyTest.value.0 == PriorityName {
          priority := Some(PriorityValue(propertyTest.value.1));
        }
      }
      i := i + 1;
    }
  }

  /** A property line names the property it was written for. */
  lemma {:induction false} PropertyLineName(name: string, value: string, other: string)
    requires IsName(name) && other != name
    ensures !HasProperty(PropertyLine(name, value), other)
  {
    var line := PropertyLine(name, value);
    var n := |name| + 1;
    assert line[1..n] == name && line[n] == ':';
    RunEndAt(line, 1, n, IsNameChar);
  }

  /** Every line `setProperty` leaves was there before or is one of the three it may add. */
  lemma {:induction false} PropertySetLines(c: seq<string>, name: string, value: string)
    ensures forall line :: line in PropertySet(c, name, value) ==>
      line in c || line == PropertiesLine || line == PropertyLine(name, value) || line == EndLine
  {
    var r := PropertySet(c, name, value);
    forall line | line in r
      ensures line in c || line == PropertiesLine || line == PropertyLine(name, value) || line == EndLine
    {
      var k :| 0 <= k < |r| && r[k] == line;
      PropertySetIndex(c, name, value, k);
    }
  }

  lemma {:induction false} PropertySetIndex(c: seq<string>, name: string, value: string, k: nat)
    requires k < |PropertySet(c, name, value)|
    ensures var line := PropertySet(c, name, value)[k];
      line in c || line == PropertiesLine || line == PropertyLine(name, value) || line == EndLine
  {
    var r := PropertySet(c, name, value);
    var line := PropertyLine(name, value);
    match PropertiesIndex(c)
    case None =>
      var s := DrawerSlot(c);
      var d := NewDrawer(name, value);
      assert r == c[..s] + d + c[s..];
      if k < s {
        assert r[k] == c[..s][k] == c[k];
      } else if k < s + 3 {
        assert r[k] == d[k - s];
      } else {
        assert r[k] == c[s..][k - s - 3] == c[k - 3];
      }
    case Some(p) =>
      match ScanDrawer(c, p, name)
      case Some(j) =>
        if HasProperty(c[j], name) {
          if k != j { assert r[k] == c[k]; }
        } else {
          if k < j { assert r[k] == c[k]; }
          else if k > j { assert r[k] == c[k - 1]; }
        }
      case None =>
        if k < |c| { assert r[k] == c[k]; }
  }

  /** The id `parseEntry` may add carries no priority, so the priority values stay numeric. */
  lemma {:induction false} NumericWithId(c: seq<string>, freshId: string)
    requires |c| >= 1 && NumericLines(c)
    ensures NumericLines(WithId(c, freshId))
  {
    if KnownId(c).None? {
      PropertySetLines(c, IdName, freshId);
      PropertyLineName(IdName, freshId, PriorityName);
      EndLineHasNoProperty(PropertiesLine, PriorityName);
      EndLineHasNoProperty(EndLine, PriorityName);
    }
  }

  /** A headline of the form `stars [TODO |DONE ]text` gives that status and that text. */
  lemma {:induction false} ParseStatusAndHeadline(c: seq<string>, freshId: string, stars: string, st: TodoStatus, h: string)
    requires NumericLines(c) && |c| >= 1 && c[0] == HeadlineText(stars, st, h) && WellFormed(stars, st, h)
    ensures ParsedEntry(c, freshId).Success?
    ensures ParsedEntry(c, freshId).value.summary.todo == st
    ensures ParsedEntry(c, freshId).value.summary.headline == h
  {
    ParseHeadlineText(stars, st, h, "");
    assert HeadlineText(stars, st, h) + "" == c[0];
  }

  /** Lines with no drawer are all body lines. */
  lemma {:induction false} ScanPlain(c: seq<string>, i: nat, body: seq<string>, priority: Option<int>)
    requires i <= |c|
    requires forall k :: i <= k < |c| ==> !IsDrawerLine(c[k])
    ensures ScanBody(c, i, false, body, priority) == (body + c[i..], priority)
    decreases |c| - i
  {
    if i < |c| {
      ScanPlain(c, i + 1, body + [c[i]], priority);
      assert c[i..] == [c[i]] + c[i + 1..];
      assert body + [c[i]] + c[i + 1..] == body + c[i..];
    } else {
      assert body + c[i..] == body;
    }
  }

  /** A drawer that closes at `j` and holds no priority is skipped. */
  lemma {:induction false} ScanSkipDrawer(c: seq<string>, i: nat, j: nat, body: seq<string>, priority: Option<int>)
    requires i <= j < |c| && IsEndLine(c[j])
    requires forall k :: i <= k < j ==> !IsEndLine(c[k]) && !HasProperty(c[k], PriorityName)
    ensures ScanBody(c, i, true, body, priority) == ScanBody(c, j + 1, false, body, priority)
    decreases j - i
  {
    if i < j {
      ScanSkipDrawer(c, i + 1, j, body, priority);
    }
  }

  /** With no priority line from `i` on, the priority the scan started with is the result. */
  lemma {:induction false} ScanNoPriority(c: seq<string>, i: nat, inDrawer: bool, body: seq<string>, priority: Option<int>)
    requires i <= |c|
    requires forall k :: i <= k < |c| ==> !HasProperty(c[k], PriorityName)
    ensures ScanBody(c, i, inDrawer, body, priority).1 == priority
    decreases |c| - i
  {
    if i < |c| {
      if !inDrawer {
        if IsDrawerLine(c[i]) {
          ScanNoPriority(c, i + 1, true, body, priority);
        } else {
          ScanNoPriority(c, i + 1, false, body + [c[i]], priority);
        }
      } else {
        ScanNoPriority(c, i + 1, !IsEndLine(c[i]), body, priority);
      }
    }
  }

  /** An entry without a `TimeTrackerPriority` property gets priority -1. */
  lemma {:induction false} NoPriorityIsMinusOne(c: seq<string>, freshId: string)
    requires NumericLines(c) && |c| >= 1 && IsHeadline(c[0])
    requires forall line :: line in c ==> !HasProperty(line, PriorityName)
    ensures ParsedEntry(c, freshId).value.summary.priority == -1
  {
    ParsedEntryFields(c, freshId);
    var c1 := WithId(c, freshId);
    NoPriorityWithId(c, freshId);
    assert forall k :: 0 <= k < |c1| ==> c1[k] in c1;
    ScanNoPriority(c1, HeaderStart(c), false, [], None);
  }

  /** The lines `parseEntry` may add carry no priority. */
  lemma {:induction false} NoPriorityWithId(c: seq<string>, freshId: string)
    requires |c| >= 1
    requires forall line :: line in c ==> !HasProperty(line, PriorityName)
    ensures forall line :: line in WithId(c, freshId) ==> !HasProperty(line, PriorityName)
  {
    if KnownId(c).None? {
      PropertySetLines(c, IdName, freshId);
      PropertyLineName(IdName, freshId, PriorityName);
      EndLineHasNoProperty(PropertiesLine, PriorityName);
      EndLineHasNoProperty(EndLine, PriorityName);
    }
  }

  /** The id line `setProperty` writes for a well-formed id reads back as that id. */
  lemma {:induction false} IdLineRead(id: string)
    requires Settable(IdName, id)
    ensures IdMatch(PropertyLine(IdName, id)) == Some(id)
    ensures !IsEndLine(PropertyLine(IdName, id)) && !IsDrawerLine(PropertyLine(IdName, id))
    ensures !HasProperty(PropertyLine(IdName, id), PriorityName)
  {
    PropertyLineMatch(IdName, id);
  }

  /** The id in a drawer right after the headline is the entry's stored id. */
  lemma {:induction false} KnownIdOfDrawer(c: seq<string>, id: string)
    requires |c| >= 4 && Settable(IdName, id) && id != []
    requires c[1] == PropertiesLine && c[2] == PropertyLine(IdName, id)
    ensures GetDeadline(c).None? && HeaderStart(c) == 1
    ensures KnownId(c) == Some(id)
  {
    IdLineRead(id);
    assert !DeadlineMatch(c[1]) by { assert c[1][0] == ':'; }
    assert IdScan(c, 2) == Some(id);
  }

  /** An entry without a deadline that opens with a drawer holding its id: the id is kept, the
      text is only trimmed, and the lines after the drawer are the body. */
  lemma {:induction false} StoredIdKept(c: seq<string>, id: string, freshId: string)
    requires NumericLines(c) && |c| >= 4 && IsHeadline(c[0]) && Settable(IdName, id) && id != []
    requires c[1] == PropertiesLine && c[2] == PropertyLine(IdName, id) && c[3] == EndLine
    requires forall k :: 4 <= k < |c| ==> !IsDrawerLine(c[k])
    ensures var e := ParsedEntry(c, freshId).value;
      && e.summary.id == id
      && e.summary.body == Concat(c[4..])
      && e.summary.priority == -1
      && e.summary.deadline == None
      && LinesAfterParse(c, freshId) == TrimBlankEnd(c)
  {
    KnownIdOfDrawer(c, id);
    ParsedEntryFields(c, freshId);
    assert WithId(c, freshId) == c;
    IdLineRead(id);
    PropertiesLineIsDrawerLine(c[1]);
    DrawerThenPlain(c);
  }

  /** A drawer at lines 1 to 3 holding no priority, then no drawer: the rest is the body. */
  lemma {:induction false} DrawerThenPlain(c: seq<string>)
    requires |c| >= 4
    requires IsDrawerLine(c[1]) && IsEndLine(c[3])
    requires !IsEndLine(c[2]) && !HasProperty(c[2], PriorityName)
    requires forall k :: 4 <= k < |c| ==> !IsDrawerLine(c[k])
    ensures ScanBody(c, 1, false, [], None) == (c[4..], None)
  {
    calc {
      ScanBody(c, 1, false, [], None);
      ScanBody(c, 2, true, [], None);
    == { ScanSkipDrawer(c, 2, 3, [], None); }
      ScanBody(c, 4, false, [], None);
    == { ScanPlain(c, 4, [], None); }
      ([] + c[4..], None);
    == { assert [] + c[4..] == c[4..]; }
      (c[4..], None);
    }
  }

  /** What `parseEntry` writes into an entry with neither deadline nor drawer. */
  lemma {:induction false} FreshDrawerLines(c: seq<string>, freshId: string)
    requires |c| >= 1 && GetDeadline(c).None?
    requires forall k :: 1 <= k < |c| ==> !IsDrawerLine(c[k])
    ensures KnownId(c).None?
    ensures WithId(c, freshId) == [c[0]] + NewDrawer(IdName, freshId) + c[1..]
  {
    forall k | 1 <= k < |c| ensures !IsPropertiesLine(c[k]) {
      if IsPropertiesLine(c[k]) { PropertiesLineIsDrawerLine(c[k]); }
    }
    assert PropertiesIndex(c).None?;
    NewDrawerWithId(c, freshId);
  }

  /** With no id and no drawer, `parseEntry` splices a fresh drawer in after the headline. */
  lemma {:induction false} NewDrawerWithId(c: seq<string>, freshId: string)
    requires |c| >= 1 && KnownId(c).None? && PropertiesIndex(c).None?
    ensures WithId(c, freshId) == [c[0]] + NewDrawer(IdName, freshId) + c[1..]
  {
    assert c[..1] == [c[0]];
  }

  /** An entry with neither deadline nor drawer gets a drawer with the fresh id at line 1; its
      body is all the lines after the headline. */
  lemma {:induction false} FreshIdWritten(c: seq<string>, freshId: string)
    requires NumericLines(c) && |c| >= 1 && IsHeadline(c[0]) && Settable(IdName, freshId)
    requires GetDeadline(c).None?
    requires forall k :: 1 <= k < |c| ==> !IsDrawerLine(c[k])
    ensures var e := ParsedEntry(c, freshId).value;
      && e.summary.id == freshId
      && e.summary.body == Concat(c[1..])
      && WithId(c, freshId) == [c[0]] + NewDrawer(IdName, freshId) + c[1..]
  {
    FreshDrawerLines(c, freshId);
    ParsedEntryFields(c, freshId);
    var c1 := WithId(c, freshId);
    FreshDrawerIndices(c, freshId);
    assert HeaderStart(c) == 1;
    IdLineRead(freshId);
    PropertiesLineIsDrawerLine(c1[1]);
    DrawerThenPlain(c1);
  }

  /** Where the lines stand once a fresh drawer is spliced in after the headline. */
  lemma {:induction false} FreshDrawerIndices(c: seq<string>, freshId: string)
    requires |c| >= 1
    ensures var c1 := [c[0]] + NewDrawer(IdName, freshId) + c[1..];
      && |c1| == |c| + 3 && c1[1] == PropertiesLine && c1[2] == PropertyLine(IdName, freshId)
      && c1[3] == EndLine && c1[4..] == c[1..]
      && forall k :: 4 <= k < |c1| ==> c1[k] == c[k - 3]
  {
    var c1 := [c[0]] + NewDrawer(IdName, freshId) + c[1..];
    assert c1[4..] == c[1..];
  }

  /** Parsing twice keeps the id the first parse generated, and the same body. */
  lemma {:induction false} ReparseKeepsFreshId(c: seq<string>, freshId: string, laterId: string)
    requires NumericLines(c) && |c| >= 1 && IsHeadline(c[0]) && Settable(IdName, freshId) && freshId != []
    requires GetDeadline(c).None?
    requires forall k :: 1 <= k < |c| ==> !IsDrawerLine(c[k])
    ensures NumericLines(LinesAfterParse(c, freshId))
    ensures ParsedEntry(LinesAfterParse(c, freshId), laterId).value.summary.id == freshId
  {
    FreshDrawerLines(c, freshId);
    NumericWithId(c, freshId);
    var c1 := WithId(c, freshId);
    var c2 := LinesAfterParse(c, freshId);
    assert |c2| >= 4 by {
      assert c1[3] == EndLine && EndLine != "\n";
    }
    assert c2[..4] == c1[..4];
    assert c2[0] == c[0] && c2[1] == PropertiesLine && c2[2] == PropertyLine(IdName, freshId) && c2[3] == EndLine by {
      assert c2[0] == c1[0] && c2[1] == c1[1] && c2[2] == c1[2] && c2[3] == c1[3];
    }
    forall line | line in c2 ensures NumericPriorityLine(line) {
      assert line in c1;
    }
    forall k | 4 <= k < |c2| ensures !IsDrawerLine(c2[k]) {
      assert c2[k] == c[k - 3];
    }
    StoredIdKept(c2, freshId, laterId);
  }

  /** The quirk of an entry with a deadline and no drawer: the new drawer goes to line 1, in
      front of the deadline, so the written text no longer has its deadline where it is read,
      and the new id line lands in the body. */
  lemma {:induction false} DeadlineDisplacedByNewDrawer(c: seq<string>, freshId: string)
    requires NumericLines(c) && |c| >= 2 && IsHeadline(c[0]) && Settable(IdName, freshId)
    requires GetDeadline(c).Some? && PropertiesIndex(c).None?
    ensures var e := ParsedEntry(c, freshId).value;
      && e.summary.deadline == GetDeadline(c)
      && e.summary.id == freshId
      && GetDeadline(LinesAfterParse(c, freshId)).None?
      && PropertyLine(IdName, freshId) <= e.summary.body
  {
    assert KnownId(c).None?;
    ParsedEntryFields(c, freshId);
    var c1 := WithId(c, freshId);
    NewDrawerWithId(c, freshId);
    FreshDrawerIndices(c, freshId);
    var c2 := LinesAfterParse(c, freshId);
    assert c2[1] == PropertiesLine by { assert c2[1] == c1[1]; }
    NoDeadlineAtDrawer(c2);
    IdLineRead(freshId);
    EndLineIsDrawerLine(EndLine);
    BodyStartsWith(c1);
  }

  /** A text whose line 1 opens the property drawer has no deadline to read. */
  lemma {:induction false} NoDeadlineAtDrawer(c: seq<string>)
    requires |c| >= 2 && c[1] == PropertiesLine
    ensures GetDeadline(c).None?
  {
    assert c[1][0] == ':';
  }

  /** A body scan from a line outside any drawer starts with that line. */
  lemma {:induction false} BodyStartsWith(c: seq<string>)
    requires |c| >= 4 && !IsDrawerLine(c[2]) && IsDrawerLine(c[3])
    ensures c[2] <= Concat(ScanBody(c, 2, false, [], None).0)
  {
    assert ScanBody(c, 2, false, [], None) == ScanBody(c, 4, true, [c[2]], None) by {
      assert [] + [c[2]] == [c[2]];
    }
    ScanBodyPrefix(c, 4, true, [c[2]], None);
    ConcatPrefix([c[2]], ScanBody(c, 2, false, [], None).0);
    assert Concat([c[2]]) == c[2];
  }

  /** The scan only ever appends to the body it has collected. */
  lemma {:induction false} ScanBodyPrefix(c: seq<string>, i: nat, inDrawer: bool, body: seq<string>, priority: Option<int>)
    requires i <= |c|
    ensures body <= ScanBody(c, i, inDrawer, body, priority).0
    decreases |c| - i
  {
    if i < |c| {
      if !inDrawer {
        if IsDrawerLine(c[i]) {
          ScanBodyPrefix(c, i + 1, true, body, priority);
        } else {
          ScanBodyPrefix(c, i + 1, false, body + [c[i]], priority);
        }
      } else if IsEndLine(c[i]) {
        ScanBodyPrefix(c, i + 1, false, body, priority);
      } else if HasProperty(c[i], PriorityName) {
        ScanBodyPrefix(c, i + 1, true, body, Some(PriorityValue(PropertyMatch(c[i]).value.1)));
      } else {
        ScanBodyPrefix(c, i + 1, true, body, priority);
      }
    }
  }

  lemma {:induction false} ConcatPrefix(a: seq<string>, b: seq<string>)
    requires a <= b
    ensures Concat(a) <= Concat(b)
  {
    assert b == a + b[|a|..];
    ConcatAppend(a, b[|a|..]);
  }

  /** Every `TimeTrackerPriority` value in the text is an optionally signed decimal. */
  predicate NumericFulltext(fulltext: string) {
    NumericLines(FulltextToLines(fulltext))
  }

  /** `parseEntry(fulltextToLines(fulltext))`, with `freshId` standing for `newId()`. */
  function ParsedText(fulltext: string, freshId: string): Result<Entry, ParseError>
    requires NumericFulltext(fulltext)
  {
    ParsedEntry(FulltextToLines(fulltext), freshId)
  }

  /** `parseEntry(fulltextToLines(fulltext))` throws exactly when the text's first line is not a
      headline; otherwise the deadline is the one its lines carry. */
  lemma {:induction false} ParsedTextOutcome(fulltext: string, freshId: string)
    requires NumericFulltext(fulltext)
    ensures var r := ParsedText(fulltext, freshId);
      && (r.Failure? <==> !IsHeadline(FulltextToLines(fulltext)[0]))
      && (r.Success? ==> r.value.summary.deadline == GetDeadline(FulltextToLines(fulltext)))
  {
    var c := FulltextToLines(fulltext);
    assert ParsedText(fulltext, freshId) == ParsedEntry(c, freshId);
  }
}
