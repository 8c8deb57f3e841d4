/** `Updates`: the edits a client sends, and `handleUpdate`, which applies one to the store in
    place and returns the `{id, fulltext}` records of the entries it changed. */
module Updates {
  import opened Wrappers
  import opened Text
  import opened OrgDate
  import opened Entries
  import opened Headline
  import opened Deadline
  import opened Wire
  import opened Reordering

  /** The five `UpdateType` names. */
  datatype UpdateType = NewTodoType | TodoValueType | PriorityType | ReplaceBodyType | SetDeadlineType

  /** The `properties` object of each update type. */
  datatype UpdateProperties =
    | NewTodoProperties(id: string, fulltext: string)
    | StatusProperties(id: string, status: TodoStatus)
    | OperationProperties(id: string, operation: string)
    | BodyProperties(id: string, newBody: string)
    | DeadlineProperties(id: string, deadline: Option<DateTime>)

  /** `TodoUpdate`: the type tag, which may be any string once it has crossed the wire, and the
      properties. */
  datatype TodoUpdate = TodoUpdate(kind: string, properties: UpdateProperties)

  function TypeName(t: UpdateType): string {
    match t
    case NewTodoType => "newTodo"
    case TodoValueType => "todoValue"
    case PriorityType => "priority"
    case ReplaceBodyType => "replaceBody"
    case SetDeadlineType => "setDeadline"
  }

  /** The update type a tag names; any other tag reaches the `default` case of `handleUpdate`. */
  function TypeNamed(kind: string): (r: Option<UpdateType>)
    ensures r.Some? ==> TypeName(r.value) == kind
    ensures r.None? ==> forall t :: TypeName(t) != kind
  {
    if kind == "newTodo" then Some(NewTodoType)
    else if kind == "todoValue" then Some(TodoValueType)
    else if kind == "priority" then Some(PriorityType)
    else if kind == "replaceBody" then Some(ReplaceBodyType)
    else if kind == "setDeadline" then Some(SetDeadlineType)
    else None
  }

  /** The update type whose properties have this shape. */
  function ShapeOf(p: UpdateProperties): UpdateType {
    match p
    case NewTodoProperties(_, _) => NewTodoType
    case StatusProperties(_, _) => TodoValueType
    case OperationProperties(_, _) => PriorityType
    case BodyProperties(_, _) => ReplaceBodyType
    case DeadlineProperties(_, _) => SetDeadlineType
  }

  /** A known tag comes with the properties of its type, as the constructors below build them. */
  predicate WellTyped(u: TodoUpdate) {
    TypeNamed(u.kind).Some? ==> ShapeOf(u.properties) == TypeNamed(u.kind).value
  }

  /** `newTodo`. */
  function NewTodo(entry: Entry): (u: TodoUpdate)
    ensures WellTyped(u) && TypeNamed(u.kind) == Some(NewTodoType)
    ensures u.properties.id == entry.summary.id
  {
    TodoUpdate("newTodo", NewTodoProperties(entry.summary.id, entry.fulltext))
  }

  /** `todoStatusUpdate`. */
  function TodoStatusUpdate(id: string, status: TodoStatus): (u: TodoUpdate)
    ensures WellTyped(u) && TypeNamed(u.kind) == Some(TodoValueType)
    ensures u.properties.id == id
  {
    TodoUpdate("todoValue", StatusProperties(id, status))
  }

  /** `todoPriorityUpdate`: the operation is one of the four `PriorityOperations`. */
  function TodoPriorityUpdate(id: string, operation: PriorityOperation): (u: TodoUpdate)
    ensures WellTyped(u) && TypeNamed(u.kind) == Some(PriorityType)
    ensures u.properties.id == id && OperationNamed(u.properties.operation) == Some(operation)
  {
    TodoUpdate("priority", OperationProperties(id, OperationName(operation)))
  }

  /** `todoReplaceBody`. */
  function TodoReplaceBody(id: string, newBody: string): (u: TodoUpdate)
    ensures WellTyped(u) && TypeNamed(u.kind) == Some(ReplaceBodyType)
    ensures u.properties.id == id
  {
    TodoUpdate("replaceBody", BodyProperties(id, newBody))
  }

  /** `todoSetDeadline`: `None` stands for `null`. */
  function TodoSetDeadline(id: string, deadline: Option<DateTime>): (u: TodoUpdate)
    ensures WellTyped(u) && TypeNamed(u.kind) == Some(SetDeadlineType)
    ensures u.properties.id == id
  {
    TodoUpdate("setDeadline", DeadlineProperties(id, deadline))
  }

  datatype UpdateError =
    | NoEntry(id: string)                  // `todoValue` on an id the store lacks
    | UndefinedEntry(id: string)           // `replaceBody` or `setDeadline` read `.fulltext` of `undefined`
    | Reorder(cause: ReorderError)         // `reorderTask` threw
    | UnknownType(kind: string)            // the `default` case
    | Uninitialized(name: string)          // a `let` binding read before its declaration ran

  /** What `handleUpdate` needs of its inputs: well-typed properties, a deadline that is a real
      date, and, for a priority update, a store whose priorities `parseInt` reads as integers
      (`freshIds` being the ids `newId` hands the parsed entries). */
  predicate Handleable(u: TodoUpdate, vs: seq<WireEntry>, freshIds: seq<string>) {
    && WellTyped(u)
    && (u.properties.DeadlineProperties? && u.properties.deadline.Some? ==> Valid(u.properties.deadline.value))
    && (TypeNamed(u.kind) == Some(PriorityType) ==> |freshIds| == |vs| && NumericStore(vs))
  }

  /** The new full text an edit of one entry writes. */
  function Edited(p: UpdateProperties, fulltext: string): (r: string)
    requires p.DeadlineProperties? && p.deadline.Some? ==> Valid(p.deadline.value)
    ensures p.StatusProperties? ==> var first := FulltextToLines(fulltext)[0];
      |first| <= |fulltext| && r == SetTodoLine(first, p.status) + fulltext[|first|..]
    ensures p.BodyProperties? ==> |r| > |p.newBody| && r[|r| - |p.newBody|..] == p.newBody
    ensures p.DeadlineProperties? ==> SplitLines(fulltext)[0] <= r
    ensures p.DeadlineProperties? && p.deadline.Some? ==>
      SplitLines(fulltext)[0] + "\n" + DeadlineLine(p.deadline.value) <= r
  {
    match p
    case StatusProperties(_, status) => SetTodoStatus(fulltext, status)
    case BodyProperties(_, newBody) => ReplaceBody(fulltext, newBody)
    case DeadlineProperties(_, deadline) => SetDeadline(fulltext, deadline)
    case _ => fulltext
  }

  /** `handleUpdate` on the store's entries, `vs` being `Object.values` of them: the records it
      returns and the entries after it. */
  function Handled(u: TodoUpdate, entries: map<string, WireEntry>, vs: seq<WireEntry>, freshIds: seq<string>)
    : (r: Result<(seq<WireEntryUnhashed>, map<string, WireEntry>), UpdateError>)
    requires Handleable(u, vs, freshIds)
    ensures TypeNamed(u.kind).None? <==> r == Failure(UnknownType(u.kind))
    ensures TypeNamed(u.kind) == Some(NewTodoType) ==> r.Success? && r.value.1 == entries
    ensures TypeNamed(u.kind) in {Some(TodoValueType), Some(ReplaceBodyType), Some(SetDeadlineType)} ==>
      (r.Success? <==> u.properties.id in entries)
    ensures TypeNamed(u.kind) == Some(TodoValueType) && r.Failure? ==> r.error == NoEntry(u.properties.id)
    ensures TypeNamed(u.kind) in {Some(ReplaceBodyType), Some(SetDeadlineType)} && r.Failure? ==>
      r.error == UndefinedEntry(u.properties.id)
    ensures TypeNamed(u.kind) == Some(PriorityType) ==>
      r.Failure? == Reordered(entries, vs, u.properties.id, u.properties.operation, freshIds).Failure?
  {
    match TypeNamed(u.kind)
    case None => Failure(UnknownType(u.kind))
    case Some(NewTodoType) => Success(([WireEntryUnhashed(u.properties.id, u.properties.fulltext)], entries))
    case Some(PriorityType) =>
      (match Reordered(entries, vs, u.properties.id, u.properties.operation, freshIds)
       case Success(v) => Success(v)
       case Failure(e) => Failure(Reorder(e)))
    case Some(t) => EditedEntry(t, u.properties, entries)
  }

  /** `todoValue`, `replaceBody` and `setDeadline`: the entry under the id gets the edited text
      and is the one record returned. */
  function EditedEntry(t: UpdateType, p: UpdateProperties, entries: map<string, WireEntry>)
    : (r: Result<(seq<WireEntryUnhashed>, map<string, WireEntry>), UpdateError>)
    requires p.DeadlineProperties? && p.deadline.Some? ==> Valid(p.deadline.value)
    ensures r.Success? <==> p.id in entries
    ensures r.Failure? ==> r.error == if t == TodoValueType then NoEntry(p.id) else UndefinedEntry(p.id)
    ensures r.Success? ==> var after := r.value.1;
      && after.Keys == entries.Keys
      && after[p.id] == entries[p.id].(fulltext := Edited(p, entries[p.id].fulltext))
      && (forall k :: k in entries && k != p.id ==> after[k] == entries[k])
      && r.value.0 == [WireEntryUnhashed(entries[p.id].id, after[p.id].fulltext)]
  {
    if p.id !in entries then Failure(if t == TodoValueType then NoEntry(p.id) else UndefinedEntry(p.id))
    else
      var entry := entries[p.id];
      var fulltext := Edited(p, entry.fulltext);
      Success(([WireEntryUnhashed(entry.id, fulltext)], entries[p.id := entry.(fulltext := fulltext)]))
  }

  /** `handleUpdate`: applies the update to the store in place. */
  method HandleUpdate(u: TodoUpdate, store: WireDbFull, freshIds: seq<string>)
    returns (r: Result<seq<WireEntryUnhashed>, UpdateError>)
    requires store.Valid() && Handleable(u, store.Values(), freshIds)
    modifies store
    ensures store.Valid() && store.order == old(store.order) && store.epochUpdateMsecs == old(store.epochUpdateMsecs)
    ensures Applied(Handled(u, old(store.entries), old(store.Values()), freshIds), r, old(store.entries), store.entries)
  {
    match TypeNamed(u.kind)
    case None =>
      r := Failure(UnknownType(u.kind));
    case Some(NewTodoType) =>
      r := Success([WireEntryUnhashed(u.properties.id, u.properties.fulltext)]);
    case Some(PriorityType) =>
      var reordered := ReorderTask(store, u.properties.id, u.properties.operation, freshIds);
      r := match reordered
        case Success(records) => Success(records)
        case Failure(e) => Failure(Reorder(e));
    case Some(t) =>
      r := EditEntry(t, u.properties, store);
  }

  /** The `todoValue`, `replaceBody` and `setDeadline` cases. */
  method EditEntry(t: UpdateType, p: UpdateProperties, store: WireDbFull)
    returns (r: Result<seq<WireEntryUnhashed>, UpdateError>)
    requires store.Valid()
    requires p.DeadlineProperties? && p.deadline.Some? ==> Valid(p.deadline.value)
    modifies store
    ensures store.Valid() && store.order == old(store.order) && store.epochUpdateMsecs == old(store.epochUpdateMsecs)
    ensures Applied(EditedEntry(t, p, old(store.entries)), r, old(store.entries), store.entries)
  {
    if p.id !in store.entries {
      return Failure(if t == TodoValueType then NoEntry(p.id) else UndefinedEntry(p.id));
    }
    var entry := store.entries[p.id];
    var fulltext := Edited(p, entry.fulltext);
    store.SetFulltext(p.id, fulltext);
    r := Success([WireEntryUnhashed(entry.id, fulltext)]);
  }

  /** `handleUpdate` as written: `entry` is declared by `let` in the `todoValue` case, and the
      `replaceBody` and `setDeadline` cases assign it without that declaration having run, which
      throws before the store is read. */
  function HandledAsWritten(u: TodoUpdate, entries: map<string, WireEntry>, vs: seq<WireEntry>, freshIds: seq<string>)
    : (r: Result<(seq<WireEntryUnhashed>, map<string, WireEntry>), UpdateError>)
    requires Handleable(u, vs, freshIds)
    ensures TypeNamed(u.kind) in {Some(ReplaceBodyType), Some(SetDeadlineType)} ==> r == Failure(Uninitialized("entry"))
    ensures TypeNamed(u.kind) !in {Some(ReplaceBodyType), Some(SetDeadlineType)} ==> r == Handled(u, entries, vs, freshIds)
  {
    match TypeNamed(u.kind)
    case Some(ReplaceBodyType) => Failure(Uninitialized("entry"))
    case Some(SetDeadlineType) => Failure(Uninitialized("entry"))
    case _ => Handled(u, entries, vs, freshIds)
  }

  /** The binding error rejects every body edit, even of an entry the store holds, which the
      intended behaviour applies. */
  lemma {:induction false} BodyEditRejectedAsWritten(entries: map<string, WireEntry>, vs: seq<WireEntry>, freshIds: seq<string>,
                                  id: string, newBody: string)
    requires id in entries
    ensures HandledAsWritten(TodoReplaceBody(id, newBody), entries, vs, freshIds) == Failure(Uninitialized("entry"))
    ensures Handled(TodoReplaceBody(id, newBody), entries, vs, freshIds).Success?
  {
  }

  /** `newTodo` returns the entry's id and text and leaves the store as it is. */
  lemma {:induction false} NewTodoHandled(entry: Entry, entries: map<string, WireEntry>, vs: seq<WireEntry>, freshIds: seq<string>)
    ensures Handled(NewTodo(entry), entries, vs, freshIds)
      == Success(([WireEntryUnhashed(entry.summary.id, entry.fulltext)], entries))
  {
  }

  /** A priority update built by `todoPriorityUpdate` is `reorderTask` of its operation, and never
      meets `reorderTask`'s unknown-operation error. */
  lemma {:induction false} PriorityHandled(id: string, op: PriorityOperation, entries: map<string, WireEntry>, vs: seq<WireEntry>,
                        freshIds: seq<string>)
    requires |freshIds| == |vs| && NumericStore(vs)
    ensures var r := Handled(TodoPriorityUpdate(id, op), entries, vs, freshIds);
      var s := ReorderedBy(entries, vs, id, op, freshIds);
      && (s.Success? ==> r == Success(s.value))
      && (s.Failure? ==> r == Failure(Reorder(s.error)))
      && r != Failure(Reorder(UnknownOperation(OperationName(op))))
  {
  }

  /** Every update changes at most the entry under its id, and of that entry only the text;
      every other entry is as it was, and no key is added or removed. */
  lemma {:induction false} HandledScope(u: TodoUpdate, entries: map<string, WireEntry>, vs: seq<WireEntry>, freshIds: seq<string>)
    requires Handleable(u, vs, freshIds)
    requires Handled(u, entries, vs, freshIds).Success?
    ensures var after := Handled(u, entries, vs, freshIds).value.1;
      && after.Keys == entries.Keys
      && (forall k :: k in entries && k != u.properties.id ==> after[k] == entries[k])
      && (forall k :: k in entries ==> after[k] == entries[k].(fulltext := after[k].fulltext))
  {
    if TypeNamed(u.kind) == Some(PriorityType) {
      var operation := u.properties.operation;
      var op := OperationNamed(operation).value;
      if ToEnd(op) {
        var m := MovedToEnd(entries, u.properties.id, ToEndPriority(vs, ExtremeOf(op), ModifierOf(op), freshIds));
        assert m.Success?;
      }
    }
  }

  /** An edit of an entry the store holds writes the edited text under its id. */
  lemma {:induction false} HandledEdit(u: TodoUpdate, entries: map<string, WireEntry>, vs: seq<WireEntry>, freshIds: seq<string>)
    requires Handleable(u, vs, freshIds) && u.properties.id in entries
    requires TypeNamed(u.kind) in {Some(TodoValueType), Some(ReplaceBodyType), Some(SetDeadlineType)}
    ensures Handled(u, entries, vs, freshIds).Success?
    ensures Handled(u, entries, vs, freshIds).value.1[u.properties.id].fulltext
      == Edited(u.properties, entries[u.properties.id].fulltext)
  {
  }

  /** `todoValue` rewrites the target's headline: a TODO or DONE status is read back from it with
      the same headline text. */
  lemma {:induction false} StatusHandled(id: string, status: TodoStatus, entries: map<string, WireEntry>, vs: seq<WireEntry>,
                      freshIds: seq<string>)
    requires id in entries && status != NoTodo
    requires var line := FulltextToLines(entries[id].fulltext)[0];
      IsHeadline(line) && (var h := HeadlineParse(line).value.1; h == [] || h[0] != ' ')
    ensures var after := Handled(TodoStatusUpdate(id, status), entries, vs, freshIds).value.1;
      var before := FulltextToLines(entries[id].fulltext);
      var lines := FulltextToLines(after[id].fulltext);
      && |lines| == |before|
      && HeadlineParse(lines[0]) == Some((status, HeadlineParse(before[0]).value.1))
      && lines[1..] == before[1..]
  {
    var fulltext := entries[id].fulltext;
    HandledEdit(TodoStatusUpdate(id, status), entries, vs, freshIds);
    SetTodoKeepsOtherLines(fulltext, status);
    SetTodoThenParse(FulltextToLines(fulltext)[0], status);
  }

  /** `setDeadline` with a date: `getDeadline` of the target's new text reads that date back. */
  lemma {:induction false} DeadlineSetHandled(id: string, d: DateTime, entries: map<string, WireEntry>, vs: seq<WireEntry>,
                           freshIds: seq<string>)
    requires id in entries && Valid(d) && 1000 <= d.year <= 9999
    ensures var after := Handled(TodoSetDeadline(id, Some(d)), entries, vs, freshIds).value.1;
      GetDeadline(FulltextToLines(after[id].fulltext)) == Some(d)
  {
    var u := TodoSetDeadline(id, Some(d));
    HandledEdit(u, entries, vs, freshIds);
    SetThenGetDeadline(entries[id].fulltext, d);
  }

  /** `setDeadline` with `null`: when no second deadline line follows the first, `getDeadline` of
      the target's new text finds none. */
  lemma {:induction false} DeadlineClearedHandled(id: string, entries: map<string, WireEntry>, vs: seq<WireEntry>, freshIds: seq<string>)
    requires id in entries
    requires var p := SplitLines(entries[id].fulltext); !(|p| >= 3 && DeadlineMatch(p[2]) && DeadlineMatch(p[1]))
    ensures var after := Handled(TodoSetDeadline(id, None), entries, vs, freshIds).value.1;
      GetDeadline(FulltextToLines(after[id].fulltext)).None?
  {
    var u := TodoSetDeadline(id, None);
    HandledEdit(u, entries, vs, freshIds);
    ClearThenGetDeadline(entries[id].fulltext);
  }

  /** `replaceBody` keeps every line before the first body line and appends the new body's lines
      verbatim. */
  lemma {:induction false} BodyHandled(id: string, newBody: string, entries: map<string, WireEntry>, vs: seq<WireEntry>,
                    freshIds: seq<string>)
    requires id in entries
    ensures var after := Handled(TodoReplaceBody(id, newBody), entries, vs, freshIds).value.1;
      var pieces := SplitLines(entries[id].fulltext);
      SplitLines(after[id].fulltext) == pieces[..FirstBodyLine(pieces)] + SplitLines(newBody)
  {
    var u := TodoReplaceBody(id, newBody);
    HandledEdit(u, entries, vs, freshIds);
    ReplaceBodyLines(entries[id].fulltext, newBody);
  }
}
