/** An org entry and the summary the parser extracts from it. */
module Entries {
  import opened Wrappers
  import opened OrgDate

  /** `TodoStatus.NONE`, `TODO` and `DONE`. */
  datatype TodoStatus = NoTodo | Todo | Done

  /** `EntryProperties` with the fields the parser fills in: the deadline is absent when line 1
      holds none, and the priority is -1 when the entry carries no `TimeTrackerPriority`. */
  datatype Summary = Summary(
    id: string,
    headline: string,
    deadline: Option<DateTime>,
    todo: TodoStatus,
    body: string,
    priority: int)

  /** An entry: its summary and its full text, headline included. */
  datatype Entry = Entry(summary: Summary, fulltext: string)
}
