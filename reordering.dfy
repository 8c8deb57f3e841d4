/** `reorderTask` and its two helpers: `moveTaskToEnd`, which gives one entry a priority past
    every other (`topqueue`, `bury`), and `moveTaskPast`, which swaps an entry with its neighbour
    in priority order and drags both priorities toward zero (`down1`, `up1`). */
module Reordering {
  import opened Wrappers
  import opened Text
  import opened Entries
  import opened PropertyDrawer
  import opened EntryParser
  import opened PrioritySort
  import opened Wire
  import opened MapResults

  /** Why a reordering throws. */
  datatype ReorderError =
    | Unparsable(cause: ParseError)        // `parseEntry` threw on one of the store's entries
    | EmptyStore                           // `reduce` of an empty array with no initial value
    | MissingEntry(id: string)             // no entry has the id
    | UnknownOperation(operation: string)  // the `default` case of `reorderTask`

  predicate NumericStore(vs: seq<WireEntry>) {
    forall k :: 0 <= k < |vs| ==> NumericFulltext(vs[k].fulltext)
  }

  function Fulltexts(vs: seq<WireEntry>): (r: seq<string>)
    ensures |r| == |vs| && forall k :: 0 <= k < |vs| ==> r[k] == vs[k].fulltext
  {
    seq(|vs|, k requires 0 <= k < |vs| => vs[k].fulltext)
  }

  /** `Object.values(store.entries).map(entry => parseEntry(...))`: every entry parsed, the `k`th
      drawing `freshIds[k]`; the first entry that fails to parse ends the map with its error. */
  function ParseAll(vs: seq<WireEntry>, freshIds: seq<string>): (r: Result<seq<Entry>, ParseError>)
    requires |freshIds| == |vs| && NumericStore(vs)
    ensures r.Success? ==> |r.value| == |vs|
  {
    MapAll(Fulltexts(vs), freshIds, ParsedText)
  }

  /** `Math.min` and `Math.max`, the reducers of `topqueue` and `bury`. */
  datatype Extreme = Lowest | Highest

  function Pick(x: Extreme, a: int, b: int): int {
    if x == Lowest then (if a <= b then a else b) else (if a >= b then a else b)
  }

  /** `ps.reduce((x, y) => reducer(x, y))`: the least or the greatest of the values. */
  function Reduce(x: Extreme, ps: seq<int>): (r: int)
    requires |ps| > 0
    ensures r in ps
    ensures forall p :: p in ps ==> if x == Lowest then r <= p else p <= r
  {
    if |ps| == 1 then ps[0]
    else
      assert ps == ps[..|ps| - 1] + [ps[|ps| - 1]];
      Pick(x, Reduce(x, ps[..|ps| - 1]), ps[|ps| - 1])
  }

  function Priorities(es: seq<Entry>): (ps: seq<int>)
    ensures |ps| == |es| && forall k :: 0 <= k < |es| ==> ps[k] == Priority(es[k])
  {
    seq(|es|, k requires 0 <= k < |es| => Priority(es[k]))
  }

  /** The priority `moveTaskToEnd` gives its target: the least (`topqueue`) or greatest (`bury`)
      parsed priority in the store, plus `modifier`. Parsing fails first, then the empty store. */
  function ToEndPriority(vs: seq<WireEntry>, x: Extreme, modifier: int, freshIds: seq<string>)
    : (r: Result<int, ReorderError>)
    requires |freshIds| == |vs| && NumericStore(vs)
    ensures r.Failure? <==> ParseAll(vs, freshIds).Failure? || vs == []
    ensures ParseAll(vs, freshIds).Failure? ==> r == Failure(Unparsable(ParseAll(vs, freshIds).error))
    ensures r.Success? ==> Extremal(x, r.value - modifier, ParseAll(vs, freshIds).value)
  {
    match ParseAll(vs, freshIds)
    case Failure(e) => Failure(Unparsable(e))
    case Success(es) =>
      if es == [] then Failure(EmptyStore)
      else
        ReduceExtremal(x, es);
        Success(Reduce(x, Priorities(es)) + modifier)
  }

  lemma {:induction false} ReduceExtremal(x: Extreme, es: seq<Entry>)
    requires es != []
    ensures Extremal(x, Reduce(x, Priorities(es)), es)
  {
    assert forall k :: 0 <= k < |es| ==> Priorities(es)[k] in Priorities(es);
  }

  /** `p` is the least (`Lowest`) or the greatest (`Highest`) priority among `es`. */
  predicate Extremal(x: Extreme, p: int, es: seq<Entry>) {
    (exists k :: 0 <= k < |es| && Priority(es[k]) == p) &&
    forall k :: 0 <= k < |es| ==> if x == Lowest then p <= Priority(es[k]) else Priority(es[k]) <= p
  }

  /** `moveTaskToEnd` on the store's entries, once the new priority (or the error) is known:
      the records it returns and the entries after it. Only the target changes, and it alone is
      returned. */
  function MovedToEnd(entries: map<string, WireEntry>, id: string, newPriority: Result<int, ReorderError>)
    : (r: Result<(seq<WireEntryUnhashed>, map<string, WireEntry>), ReorderError>)
    ensures newPriority.Failure? ==> r == Failure(newPriority.error)
    ensures newPriority.Success? ==> (r.Success? <==> id in entries)
    ensures r.Failure? && newPriority.Success? ==> r.error == MissingEntry(id)
    ensures r.Success? ==> id in entries && r.value.1.Keys == entries.Keys
    ensures r.Success? ==> forall k :: k in entries && k != id ==> r.value.1[k] == entries[k]
    ensures r.Success? ==> |r.value.0| == 1 && r.value.0[0].id == entries[id].id
                           && r.value.0[0].fulltext == SetPriority(entries[id].fulltext, newPriority.value)
                           && r.value.1[id] == entries[id].(fulltext := r.value.0[0].fulltext)
  {
    match newPriority
    case Failure(e) => Failure(e)
    case Success(p) =>
      if id !in entries then Failure(MissingEntry(id))
      else
        var e := entries[id];
        var fulltext := SetPriority(e.fulltext, p);
        Success(([WireEntryUnhashed(e.id, fulltext)], entries[id := e.(fulltext := fulltext)]))
  }

  /** `moveTaskToEnd`: overwrites the target's full text in the store and returns it. */
  method MoveTaskToEnd(store: WireDbFull, id: string, x: Extreme, modifier: int, freshIds: seq<string>)
    returns (r: Result<seq<WireEntryUnhashed>, ReorderError>)
    requires store.Valid() && |freshIds| == |store.order| && NumericStore(store.Values())
    modifies store
    ensures store.Valid() && store.order == old(store.order) && store.epochUpdateMsecs == old(store.epochUpdateMsecs)
    ensures Applied(MovedToEnd(old(store.entries), id, ToEndPriority(old(store.Values()), x, modifier, freshIds)),
                    r, old(store.entries), store.entries)
  {
    var newPriority := ToEndPriority(store.Values(), x, modifier, freshIds);
    if newPriority.Failure? {
      return Failure(newPriority.error);
    }
    if id !in store.entries {
      return Failure(MissingEntry(id));
    }
    var entry := store.entries[id];
    var fulltext := SetPriority(entry.fulltext, newPriority.value);
    store.SetFulltext(id, fulltext);
    r := Success([WireEntryUnhashed(entry.id, fulltext)]);
  }

  /** The result `r` of an operation and the entries after it are those its specification `spec`
      gives; an operation that throws leaves the entries as they were. */
  predicate Applied<E(==)>(spec: Result<(seq<WireEntryUnhashed>, map<string, WireEntry>), E>,
                       r: Result<seq<WireEntryUnhashed>, E>,
                       before: map<string, WireEntry>, after: map<string, WireEntry>) {
    match spec
    case Success(v) => r == Success(v.0) && after == v.1
    case Failure(e) => r == Failure(e) && after == before
  }

  /** `collapseDirection`: +1 pushes the target toward higher priority numbers, -1 lower. */
  function Step(d: Direction): int {
    if d == Ascending then 1 else -1
  }

  predicate OppositeSigns(a: int, b: int) {
    (a < 0 && b > 0) || (a > 0 && b < 0)
  }

  /** The new priorities of the target and of its neighbour: the neighbour takes the target's
      old priority, or 0 when the two had opposite signs, and the target lands `step` past it. */
  function SwappedPriorities(mine: int, neighbor: int, step: int): (r: (int, int))
    ensures r.0 - r.1 == step
    ensures OppositeSigns(mine, neighbor) ==> r == (step, 0)
    ensures !OppositeSigns(mine, neighbor) ==> r.1 == mine
  {
    var neighborNew := if OppositeSigns(neighbor, mine) then 0 else mine;
    (neighborNew + step, neighborNew)
  }

  /** `findIndex` on the parsed ids: the first position holding `id`, or -1. */
  function FindIndex(s: seq<Entry>, id: string): (i: int)
    ensures -1 <= i < |s|
    ensures 0 <= i ==> s[i].summary.id == id && forall j :: 0 <= j < i ==> s[j].summary.id != id
    ensures i == -1 <==> forall j :: 0 <= j < |s| ==> s[j].summary.id != id
  {
    if s == [] then -1
    else if s[0].summary.id == id then 0
    else
      var i := FindIndex(s[1..], id);
      assert forall j :: 1 <= j < |s| ==> s[j] == s[1..][j - 1];
      if i < 0 then -1 else i + 1
  }

  /** What `moveTaskPast` returns once the entries are sorted: nothing when the target is last
      (or there are no entries); a `TypeError` when the target is missing from a non-empty store
      (`byPriorities[-1]` is undefined); otherwise the target and its neighbour, swapped. */
  function PastRecords(sorted: seq<Entry>, id: string, d: Direction): Result<seq<WireEntryUnhashed>, ReorderError> {
    var i := FindIndex(sorted, id);
    if i == |sorted| - 1 then Success([])
    else if i < 0 then Failure(MissingEntry(id))
    else
      var me := sorted[i];
      var neighbor := sorted[i + 1];
      var (mine, theirs) := SwappedPriorities(Priority(me), Priority(neighbor), Step(d));
      Success([WireEntryUnhashed(me.summary.id, SetPriority(me.fulltext, mine)),
               WireEntryUnhashed(neighbor.summary.id, SetPriority(neighbor.fulltext, theirs))])
  }

  /** `moveTaskPast`: parses every entry, sorts them in direction `d` and swaps the target with
      the entry after it. The store is not changed. */
  function MoveTaskPast(vs: seq<WireEntry>, id: string, d: Direction, freshIds: seq<string>)
    : (r: Result<seq<WireEntryUnhashed>, ReorderError>)
    requires |freshIds| == |vs| && NumericStore(vs)
    ensures vs == [] ==> r == Success([])
  {
    match ParseAll(vs, freshIds)
    case Failure(e) => Failure(Unparsable(e))
    case Success(es) => PastRecords(SortBy(d, es), id, d)
  }

  /** `down1`/`up1` return nothing exactly when there are no entries or the target is the last
      entry in the sort order (and no earlier entry has its id). */
  lemma {:induction false} PastAtEnd(sorted: seq<Entry>, id: string, d: Direction)
    ensures PastRecords(sorted, id, d) == Success([]) <==>
      sorted == [] || (sorted[|sorted| - 1].summary.id == id &&
                       forall j :: 0 <= j < |sorted| - 1 ==> sorted[j].summary.id != id)
  {
  }

  /** A target missing from a non-empty store makes `moveTaskPast` throw. */
  lemma {:induction false} PastMissing(sorted: seq<Entry>, id: string, d: Direction)
    ensures PastRecords(sorted, id, d).Failure? <==>
      sorted != [] && forall j :: 0 <= j < |sorted| ==> sorted[j].summary.id != id
    ensures PastRecords(sorted, id, d).Failure? ==> PastRecords(sorted, id, d).error == MissingEntry(id)
  {
  }

  /** Otherwise the target `me` (the first entry with the id) and the entry after it in the
      sort order, `neighbor`, are returned in that order: no entry ranks strictly between them,
      the neighbour takes the target's old priority (0 when the two had opposite signs), and the
      target lands one step past it, so that the two have swapped places. */
  lemma {:induction false} PastSwap(es: seq<Entry>, id: string, d: Direction) returns (me: Entry, neighbor: Entry, mine: int, theirs: int)
    requires var i := FindIndex(SortBy(d, es), id); 0 <= i < |es| - 1
    ensures me in es && neighbor in es && me.summary.id == id
    ensures Rank(d, me) <= Rank(d, neighbor)
    ensures forall e :: e in es ==> Rank(d, e) <= Rank(d, me) || Rank(d, neighbor) <= Rank(d, e)
    ensures theirs == (if OppositeSigns(Priority(me), Priority(neighbor)) then 0 else Priority(me))
    ensures if d == Ascending then mine == theirs + 1 else mine == theirs - 1
    ensures PastRecords(SortBy(d, es), id, d) ==
      Success([WireEntryUnhashed(id, SetPriority(me.fulltext, mine)),
               WireEntryUnhashed(neighbor.summary.id, SetPriority(neighbor.fulltext, theirs))])
  {
    var sorted := SortBy(d, es);
    SortSorted(d, es);
    var i := FindIndex(sorted, id);
    me, neighbor := sorted[i], sorted[i + 1];
    mine, theirs := SwappedPriorities(Priority(me), Priority(neighbor), Step(d)).0,
                    SwappedPriorities(Priority(me), Priority(neighbor), Step(d)).1;
    assert me in multiset(sorted) && neighbor in multiset(sorted);
    NothingBetween(d, es, sorted, i);
  }

  /** In a sorted permutation of `es`, no entry of `es` ranks strictly between two adjacent
      entries. */
  lemma {:induction false} NothingBetween(d: Direction, es: seq<Entry>, sorted: seq<Entry>, i: nat)
    requires SortedBy(d, sorted) && multiset(sorted) == multiset(es) && i + 1 < |sorted|
    ensures forall e :: e in es ==> Rank(d, e) <= Rank(d, sorted[i]) || Rank(d, sorted[i + 1]) <= Rank(d, e)
  {
    forall e | e in es ensures Rank(d, e) <= Rank(d, sorted[i]) || Rank(d, sorted[i + 1]) <= Rank(d, e) {
      assert e in multiset(sorted);
      var j :| 0 <= j < |sorted| && sorted[j] == e;
      if j <= i {
        assert j == i || Rank(d, sorted[j]) <= Rank(d, sorted[i]);
      } else {
        assert j == i + 1 || Rank(d, sorted[i + 1]) <= Rank(d, sorted[j]);
      }
    }
  }

  /** `topqueue` gives the target a priority below every parsed priority in the store, `bury`
      one above every one, and each is one step from the extreme. */
  lemma {:induction false} ToEndPastAll(vs: seq<WireEntry>, op: PriorityOperation, freshIds: seq<string>)
    requires |freshIds| == |vs| && NumericStore(vs) && ToEnd(op)
    requires ToEndPriority(vs, ExtremeOf(op), ModifierOf(op), freshIds).Success?
    ensures var p := ToEndPriority(vs, ExtremeOf(op), ModifierOf(op), freshIds).value;
      var es := ParseAll(vs, freshIds).value;
      && |es| == |vs|
      && (forall k :: 0 <= k < |vs| ==> ParsedText(vs[k].fulltext, freshIds[k]) == Success(es[k]))
      && (op == Topqueue ==> (forall k :: 0 <= k < |es| ==> p < Priority(es[k])) &&
                             exists k :: 0 <= k < |es| && p == Priority(es[k]) - 1)
      && (op == Bury ==> (forall k :: 0 <= k < |es| ==> Priority(es[k]) < p) &&
                         exists k :: 0 <= k < |es| && p == Priority(es[k]) + 1)
  {
    var p := ToEndPriority(vs, ExtremeOf(op), ModifierOf(op), freshIds).value;
    ParseAllEach(vs, freshIds);
    ExtremalShifted(op, p, ParseAll(vs, freshIds).value);
  }

  lemma {:induction false} ParseAllEach(vs: seq<WireEntry>, freshIds: seq<string>)
    requires |freshIds| == |vs| && NumericStore(vs) && ParseAll(vs, freshIds).Success?
    ensures var es := ParseAll(vs, freshIds).value;
      && |es| == |vs|
      && (forall k :: 0 <= k < |vs| ==> ParsedText(vs[k].fulltext, freshIds[k]) == Success(es[k]))
  {
    var ts := Fulltexts(vs);
    assert forall k :: 0 <= k < |vs| ==> ts[k] == vs[k].fulltext;
  }

  lemma {:induction false} ExtremalShifted(op: PriorityOperation, p: int, es: seq<Entry>)
    requires ToEnd(op) && Extremal(ExtremeOf(op), p - ModifierOf(op), es)
    ensures op == Topqueue ==> (forall k :: 0 <= k < |es| ==> p < Priority(es[k])) &&
                               exists k :: 0 <= k < |es| && p == Priority(es[k]) - 1
    ensures op == Bury ==> (forall k :: 0 <= k < |es| ==> Priority(es[k]) < p) &&
                           exists k :: 0 <= k < |es| && p == Priority(es[k]) + 1
  {
    var k :| 0 <= k < |es| && Priority(es[k]) == p - ModifierOf(op);
  }

  /** `PriorityOperations`. */
  datatype PriorityOperation = Topqueue | Up1 | Down1 | Bury

  /** The operation a name stands for; names outside `PriorityOperations` reach the `default`
      case of `reorderTask`. */
  function OperationNamed(name: string): (r: Option<PriorityOperation>)
    ensures r.Some? ==> OperationName(r.value) == name
    ensures r.None? ==> forall op :: OperationName(op) != name
  {
    if name == "topqueue" then Some(Topqueue)
    else if name == "up1" then Some(Up1)
    else if name == "down1" then Some(Down1)
    else if name == "bury" then Some(Bury)
    else None
  }

  function OperationName(op: PriorityOperation): string {
    match op
    case Topqueue => "topqueue"
    case Up1 => "up1"
    case Down1 => "down1"
    case Bury => "bury"
  }

  /** The operations that move the target past every other entry, with the reducer and the
      modifier `reorderTask` passes to `moveTaskToEnd`. */
  predicate ToEnd(op: PriorityOperation) { op == Topqueue || op == Bury }

  function ExtremeOf(op: PriorityOperation): Extreme { if op == Topqueue then Lowest else Highest }

  function ModifierOf(op: PriorityOperation): int { if op == Topqueue then -1 else 1 }

  /** The direction `moveTaskPast` sorts in: `down1` ascending (`collapseDirection` 1), `up1`
      descending (-1). */
  function DirectionOf(op: PriorityOperation): Direction { if op == Down1 then Ascending else Descending }

  /** `reorderTask` on the store's entries, `vs` being `Object.values` of them: the records it
      returns and the entries after it. `down1` and `up1` leave the entries as they are. */
  function Reordered(entries: map<string, WireEntry>, vs: seq<WireEntry>, id: string, operation: string,
                     freshIds: seq<string>)
    : (r: Result<(seq<WireEntryUnhashed>, map<string, WireEntry>), ReorderError>)
    requires |freshIds| == |vs| && NumericStore(vs)
    ensures OperationNamed(operation).None? ==> r == Failure(UnknownOperation(operation))
    ensures OperationNamed(operation) in {Some(Down1), Some(Up1)} && r.Success? ==> r.value.1 == entries
  {
    match OperationNamed(operation)
    case Some(op) => ReorderedBy(entries, vs, id, op, freshIds)
    case None => Failure(UnknownOperation(operation))
  }

  function ReorderedBy(entries: map<string, WireEntry>, vs: seq<WireEntry>, id: string, op: PriorityOperation,
                       freshIds: seq<string>)
    : Result<(seq<WireEntryUnhashed>, map<string, WireEntry>), ReorderError>
    requires |freshIds| == |vs| && NumericStore(vs)
  {
    if ToEnd(op) then MovedToEnd(entries, id, ToEndPriority(vs, ExtremeOf(op), ModifierOf(op), freshIds))
    else
      match MoveTaskPast(vs, id, DirectionOf(op), freshIds)
      case Success(records) => Success((records, entries))
      case Failure(e) => Failure(e)
  }

  /** `reorderTask`: dispatches on the operation name. */
  method ReorderTask(store: WireDbFull, id: string, operation: string, freshIds: seq<string>)
    returns (r: Result<seq<WireEntryUnhashed>, ReorderError>)
    requires store.Valid() && |freshIds| == |store.order| && NumericStore(store.Values())
    modifies store
    ensures store.Valid() && store.order == old(store.order) && store.epochUpdateMsecs == old(store.epochUpdateMsecs)
    ensures Applied(Reordered(old(store.entries), old(store.Values()), id, operation, freshIds),
                    r, old(store.entries), store.entries)
  {
    match OperationNamed(operation)
    case Some(op) =>
      r := ReorderBy(store, id, op, freshIds);
    case None =>
      r := Failure(UnknownOperation(operation));
  }

  /** The body of the `switch` for the four known operations. */
  method ReorderBy(store: WireDbFull, id: string, op: PriorityOperation, freshIds: seq<string>)
    returns (r: Result<seq<WireEntryUnhashed>, ReorderError>)
    requires store.Valid() && |freshIds| == |store.order| && NumericStore(store.Values())
    modifies store
    ensures store.Valid() && store.order == old(store.order) && store.epochUpdateMsecs == old(store.epochUpdateMsecs)
    ensures Applied(ReorderedBy(old(store.entries), old(store.Values()), id, op, freshIds),
                    r, old(store.entries), store.entries)
  {
    if ToEnd(op) {
      r := MoveTaskToEnd(store, id, ExtremeOf(op), ModifierOf(op), freshIds);
    } else {
      r := MoveTaskPast(store.Values(), id, DirectionOf(op), freshIds);
    }
  }
}
