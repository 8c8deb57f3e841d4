# orgtodo core, modelled in Dafny

orgtodo is a to-do tracker that keeps each task as an org-mode entry: a headline such as
`** TODO Write the report`, an optional `DEADLINE: <2024-05-01 Wed>` line, a `:PROPERTIES:`
drawer holding the entry's `:ID:` and its `:TimeTrackerPriority:`, and a free-text body. This
project models the logic that reads and edits that text and the bookkeeping built on it:

- the org entry text engine of `src/orgdata/Parser.ts`, split into modules:
  - `Text`: the line model and number formatting;
  - `Checkbox`: the checkbox micro-format of list items;
  - `PropertyDrawer`: the property-drawer editor and the id lookup;
  - `Headline`: the headline grammar and status rewriting;
  - `Deadline`: the deadline slot and body replacement;
  - `EntryParser`: the single-entry parser;
  - `ParseFsm`, `PrioritySort` and `Splitter`: the two-state document splitter and the dense
    renumbering;
- `OrgDate`: the date codec of `src/orgdata/Date.ts`, between `YYYY-MM-DD Ddd[ HH:MM]` tokens and
  calendar dates;
- `Reordering`: the priority reordering of `src/orgdata/Reordering.ts` (to the front, to the
  back, and swap with a neighbour, collapsing toward zero);
- `Db`: the two pure pieces of `src/db/Db.ts` (`fulltextToEntry` and the older
  `swapAndCollapsePriorities`);
- `Updates`: the update intents of `src/orgdata/Updates.ts`, applied by `handleUpdate` to a
  `WireDbFull` store (`Wire`);
- `NewTask`: the bulk checkbox edit `modifyCheckboxes` of `src/client/NewTask.tsx`;
- `RemoteStore`: the outstanding-request bookkeeping of `src/client/RemoteStore.ts`.

Code that edits in place is imperative Dafny, and each such method is proved equal to a
specification function. This covers:

- `setProperty`, `insertProperty` and `parseEntry` on the JavaScript line array (class
  `PropertyDrawer.LineArray`);
- the loops of `parse`, `sortAndFixPriority`, `getEntryId` and `findFirstBodyLineIndex`;
- the in-place overwrite of `store.entries[id].fulltext` (class `Wire.WireDbFull`);
- the `RemoteStore` class.

The properties are stated as lemmas about those functions. The regular expressions become
hand-written recognisers. `.` matches any character but a line terminator; `\s` is JavaScript's
whitespace set; the lazy `\[.*?\]` takes the first `]` that is followed by a space.

Wherever the code and the intended behaviour differ, the model follows the code. It reproduces
these quirks:

- `insertProperty` splices a new drawer at index 1 even over a deadline line. Parsing an entry
  with a deadline and no drawer therefore moves the deadline out of the slot `getDeadline` reads
  (`EntryParser.DeadlineDisplacedByNewDrawer`).
- `setTodoStatus` to NONE writes two spaces after the stars, so the headline read back starts
  with a space (`Headline.SetNoneThenParse`).
- `parse` of a text without a headline throws.
- `moveTaskPast` tests `typeof myIndex === "undefined"`. `findIndex` returns -1, not undefined, so
  a missing id throws in a non-empty store instead of returning nothing
  (`Reordering.PastMissing`).
- The day name of a date token is never checked against the date
  (`OrgDate.WednesdayTokenGivesFriday`).
- A non-canonical checkbox such as `[-]` reads "unchecked", yet setting "unchecked" rewrites it
  to `[ ]` (`Checkbox.PartialBoxIsRewritten`).

The one place where the code cannot have meant what it does, the `replaceBody` and
`setDeadline` cases of `handleUpdate`, is recorded under Findings; the rest of the model uses
the intended behaviour there.

## Model

| member | source | states |
|---|---|---|
| Text.FulltextToLinesSpec | src/orgdata/Parser.ts:40-48 | the lines concatenate back to the text; there is one more line than newlines; every line but the last ends with its only newline, and the last has none |
| Text.FulltextToLines | src/orgdata/Parser.ts:40-48 | there is at least one line and the lines concatenate back to the text |
| Text.LinesOfConcatTerminated | src/orgdata/Parser.ts:40-48 | lines that all end with a newline come back from `fulltextToLines` with one empty line appended |
| Text.LinesOfConcatOpen | src/orgdata/Parser.ts:40-48 | lines whose last one has no newline come back from `fulltextToLines` unchanged |
| Text.Split | src/orgdata/Parser.ts:392 | `split` on one character: one more piece than separators, no piece holds the separator, and joining the pieces gives the text back |
| Text.SplitJoin | src/client/NewTask.tsx:61-71 | joining separator-free pieces and splitting again gives the pieces back |
| Text.IntToStringRoundTrip | src/orgdata/Parser.ts:215-219 | the decimal `toString` writes for a priority is read back by `parseInt` as the same integer |
| Text.NatToStringLength | src/orgdata/Date.ts:69-72 | `toString` of a number between 10^k and 10^(k+1) has exactly k+1 digits |
| Text.Pad2 | src/orgdata/Date.ts:71-72 | `padStart(2, "0")` yields digits whose value is the number, exactly two of them below 100 |
| Checkbox.ListItemPrefix | src/orgdata/Parser.ts:37 | the bullet prefix ends at a space, after the leading whitespace, and what lies between is a bullet |
| Checkbox.BoxEnd | src/orgdata/Parser.ts:36 | the lazy bracket token ends at the first `]` followed by a space, and holds no line break |
| Checkbox.CheckboxMatch | src/orgdata/Parser.ts:36 | CHECKBOX_PATTERN matches exactly when the line is a list item whose text opens with a bracket token |
| Checkbox.CheckboxStatusOf | src/orgdata/Parser.ts:126-136 | "none" exactly when CHECKBOX_PATTERN does not match; a box status only on a list item |
| Checkbox.CheckboxCopy | src/orgdata/Parser.ts:139-145 | on a checkbox line, a single line strictly shorter than the input: the text after the token |
| Checkbox.SetCheckboxStatus | src/orgdata/Parser.ts:148-176 | setting "none" on a line without a checkbox returns it unchanged; SetThenStatus and the lemmas below state the other cases |
| Checkbox.MakeListItem | src/orgdata/Parser.ts:118-123 | the line's leading whitespace is kept, `- ` follows it and then the rest of the first line; the result is a list item whose bullet ends right after that whitespace |
| Checkbox.CheckboxStatusOfBox | src/orgdata/Parser.ts:126-145 | a list item with a bracket token is "checked" exactly for `[X]` and "unchecked" for any other token, and its copy is the text after the token |
| Checkbox.CheckboxStatusOfPlainItem | src/orgdata/Parser.ts:126-145 | a list item whose text opens with no bracket token has status "none", and its copy is the whole line |
| Checkbox.CheckboxStatusOfNonItem | src/orgdata/Parser.ts:126-136 | a line that is not a list item has status "none" |
| Checkbox.SetNoneStripsBox | src/orgdata/Parser.ts:148-176 | setting "none" strips the bracket token and keeps the bullet prefix and the text |
| Checkbox.SetOnBoxLine | src/orgdata/Parser.ts:148-176 | setting "checked" or "unchecked" on a line with any bracket token replaces that token by the canonical one and keeps the bullet prefix and the text |
| Checkbox.SetNoneKeepsPlain | src/orgdata/Parser.ts:148-176 | setting "none" leaves a line without a checkbox unchanged |
| Checkbox.SetBoxOnPlainItem | src/orgdata/Parser.ts:148-176 | setting a box on a list item without one writes the canonical token after the bullet and keeps the text |
| Checkbox.SetBoxOnNonItem | src/orgdata/Parser.ts:148-176 | setting a box on a line that is not a list item gives its whitespace, `- `, the canonical token and the line's text; a bracket token already opening the text is replaced rather than kept |
| Checkbox.SetThenStatus | src/orgdata/Parser.ts:126-176 | after setting "checked" or "unchecked", the line reports that status |
| Checkbox.SetSameStatusCanonical | src/orgdata/Parser.ts:148-176 | setting the status a canonical checkbox line already has leaves it unchanged |
| Checkbox.PartialBoxIsRewritten | src/orgdata/Parser.ts:126-176 | a `[-]` token reads "unchecked", and setting "unchecked" rewrites it to `[ ]` |
| PropertyDrawer.LineArray.constructor | src/orgdata/Parser.ts:98-106 | the array holds the given lines |
| PropertyDrawer.PropertyMatch | src/orgdata/Parser.ts:33 | PROPERTY_PATTERN yields a valid property name and a single-line value that does not start with a space |
| PropertyDrawer.PropertyLineMatch | src/orgdata/Parser.ts:179-212 | the line `setProperty` writes reads back as its name and value, and opens or closes no drawer |
| PropertyDrawer.EndLineHasNoProperty | src/orgdata/Parser.ts:32-35 | no line both names a property and opens or closes the drawer |
| PropertyDrawer.InsertProperty | src/orgdata/Parser.ts:98-106 | the three drawer lines are spliced in at index 1 (or at the end of a shorter array) |
| PropertyDrawer.SetProperty | src/orgdata/Parser.ts:179-212 | the array afterwards is the specification `PropertySet` of the array before |
| PropertyDrawer.PropertySetKeepsHeadline | src/orgdata/Parser.ts:179-212 | `setProperty` never shortens the array and never changes the headline |
| PropertyDrawer.PropertySetShape | src/orgdata/Parser.ts:179-212 | the edit is one of four: a new drawer at index 1 when there is none, the property's line replaced in place, a line inserted just before `:END:`, or a line and `:END:` appended to an unclosed drawer |
| PropertyDrawer.PropertySet | src/orgdata/Parser.ts:179-212 | setting a property never makes the array shorter (what is read back afterwards is the lemma `SetThenLookup`) |
| PropertyDrawer.SetPriority | src/orgdata/Parser.ts:215-219 | the text still begins with its first line (the headline); SetThenLookup gives the priority read back |
| PropertyDrawer.SetThenLookup | src/orgdata/Parser.ts:179-212 | after setting a property, the drawer lookup of that name gives the value written |
| PropertyDrawer.SetKeepsOtherLookups | src/orgdata/Parser.ts:179-212 | setting one property leaves the value of every other property as it was |
| PropertyDrawer.LookupInNewDrawer | src/orgdata/Parser.ts:98-106 | a freshly inserted drawer holds exactly the one property |
| PropertyDrawer.GetEntryId | src/orgdata/Parser.ts:56-82 | the loop returns `EntryIdOf`: undefined for fewer than four lines or when the line is not `:PROPERTIES:`, else the first `:ID:` value before `:END:` |
| PropertyDrawer.EntryIdOf | src/orgdata/Parser.ts:56-82 | an id is only found in an array of at least four lines whose given line opens the drawer |
| Headline.HeadlineParse | src/orgdata/Parser.ts:18 | HEADLINE_PATTERN yields the keyword's status and a single-line headline text |
| Headline.ParseHeadlineText | src/orgdata/Parser.ts:18 | a line built from stars, a keyword and a text parses back into them, whatever follows its newline |
| Headline.HeadlineParts | src/orgdata/Parser.ts:18 | every headline is the line built from its own parts |
| Headline.FirstTodoMatch | src/orgdata/Parser.ts:222-243 | the leftmost position where the rewriting pattern matches, or none |
| Headline.SetTodoKeepsOtherLines | src/orgdata/Parser.ts:222-243 | `setTodoStatus` changes no line but the first |
| Headline.SetTodoStatus | src/orgdata/Parser.ts:222-243 | the result is the rewritten first line followed by the rest of the original text, verbatim |
| Headline.SetTodoThenParse | src/orgdata/Parser.ts:222-243 | on a headline whose text does not begin with a space, setting TODO or DONE and parsing again gives that status and the same text |
| Headline.SetNoneThenParse | src/orgdata/Parser.ts:222-243 | setting NONE and parsing again gives no status and the text with a space in front |
| Headline.SetTodoWithoutNewline | src/orgdata/Parser.ts:222-243 | a first line without a newline is left as it is |
| Headline.SetTodoLineTerminated | src/orgdata/Parser.ts:222-243 | the rewritten first line keeps exactly one newline, at its end |
| OrgDate.DayOfWeek | src/orgdata/Date.ts:72 | `getDay()` is a number from 0 to 6 |
| OrgDate.DayOfWeekAdvances | src/orgdata/Date.ts:72 | the day of the week advances by one, modulo 7, from each calendar day to the next |
| OrgDate.KnownWeekdays | src/orgdata/Date.test.ts:33-47 | 3 February 2021 is a Wednesday, 3 April 2023 a Monday, 25 December 2020 a Friday |
| OrgDate.FindDatetime | src/orgdata/Date.ts:6-7 | the leftmost position where DATETIME_PATTERN matches, or none anywhere |
| OrgDate.DatetimeLength | src/orgdata/Date.ts:6-7 | the match is 14 characters, or 20 when the time is present |
| OrgDate.DateCoreIsDateOnly | src/orgdata/Date.ts:6-22 | wherever the full pattern matches, the loose pattern matches too |
| OrgDate.IsValidDate | src/orgdata/Date.ts:35-37 | true exactly when the loose `D-D-D` pattern occurs, which covers every full match |
| OrgDate.YmdToJsDate | src/orgdata/Date.ts:27-32 | the loose reading gives midnight |
| OrgDate.OrgDatetimeToJs | src/orgdata/Date.ts:40-66 | undefined exactly when neither pattern occurs, that is when `isValidDate` is false |
| OrgDate.OrgDatetimeToJsOfToken | src/orgdata/Date.ts:40-66 | a token converts to the date its fields spell, at the given hour and minute or at midnight |
| OrgDate.DayNameIgnored | src/orgdata/Date.ts:47-65 | the day name of a token never affects the date it converts to |
| OrgDate.WednesdayTokenGivesFriday | src/orgdata/Date.ts:47-65 | `2020-12-25 Wed 12:34` converts to 25 December 2020 at 12:34, a Friday |
| OrgDate.NoDatetimeWithoutSpace | src/orgdata/Date.ts:6-7 | a text without a space has no full match |
| OrgDate.OrgDatetimeToJsLoosePath | src/orgdata/Date.ts:41-45 | when only the loose pattern occurs, the result is `ymdToJsDate` of the text |
| OrgDate.OrgDatetimeToJsLoose | src/orgdata/Date.ts:27-45 | three digit runs joined by `-` convert to midnight of the date they spell |
| OrgDate.JsDatetimeToOrgFormat | src/orgdata/Date.ts:69-82 | for a four-digit year: the date zero-padded, the day name of `getDay()`, and the time padded, omitted exactly at midnight |
| OrgDate.JsDatetimeToOrg | src/orgdata/Date.ts:69-82 | for a four-digit year the text is 14 characters at midnight and 20 otherwise: the time is written exactly when it is not midnight |
| OrgDate.DateRoundTrip | src/orgdata/Date.ts:40-82 | formatting a valid date with a four-digit year and converting it back gives the same date |
| Deadline.DeadlineGroup | src/orgdata/Parser.ts:28-30 | group 1 of DEADLINE_PATTERN is a datetime token, 20 characters exactly when it holds a time |
| Deadline.GroupDate | src/orgdata/Parser.ts:246-255 | the token of a deadline line converts to the date its fields spell |
| Deadline.GetDeadline | src/orgdata/Parser.ts:246-255 | a date exactly when line 1 is a deadline line, and then the date it spells |
| Deadline.DeadlinePieces | src/orgdata/Parser.ts:258-274 | the headline is kept, and with a date line 1 is the deadline line |
| Deadline.SetDeadlineLines | src/orgdata/Parser.ts:258-274 | clearing removes line 1 only if it is a deadline line (else the text is unchanged); a date overwrites such a line or is inserted at index 1; every other line keeps its content and order |
| Deadline.SetDeadline | src/orgdata/Parser.ts:258-274 | the text still begins with its first line, and with a date that line is followed directly by the `DEADLINE: <...>` line |
| Deadline.SetThenGetDeadline | src/orgdata/Parser.ts:246-274 | after setting a date with a four-digit year, `getDeadline` reads that date back |
| Deadline.ClearThenGetDeadline | src/orgdata/Parser.ts:246-274 | after clearing, no deadline is read when line 1 held the only deadline line |
| Deadline.DrawerEnd | src/orgdata/Parser.ts:283-290 | the first `:END:` from the given index, or the last index when there is none |
| Deadline.FindFirstBodyLineIndex | src/orgdata/Parser.ts:277-293 | the loop returns the first body line: past the headline, the deadline and, when one opens right there, the drawer through `:END:` |
| Deadline.HeaderLines | src/orgdata/Parser.ts:277-293 | the header is the headline, the deadline line exactly when there is one, and the drawer through its `:END:` when one opens there |
| Deadline.ReplaceBodyLines | src/orgdata/Parser.ts:109-115 | the lines of the result are the old header lines followed by the lines of the new body |
| Deadline.ReplaceBody | src/orgdata/Parser.ts:109-115 | the result ends with a newline and the new body, and what precedes them is a prefix of the old text |
| EntryParser.KnownId | src/orgdata/Parser.ts:330-331 | a stored id is non-empty and is what `getEntryId` finds |
| EntryParser.TrimBlankEnd | src/orgdata/Parser.ts:365-372 | the final `pop` removes at most one line from the end |
| EntryParser.ParsedEntryOutcome | src/orgdata/Parser.ts:296-319 | `parseEntry` throws exactly on no lines or a first line outside the headline grammar, and the deadline is that of `getDeadline` |
| EntryParser.ParsedTextOutcome | src/db/Db.ts:48-50 | `parseEntry(fulltextToLines(text))` throws exactly when the text's first line is not a headline, and otherwise reads the deadline of its lines |
| EntryParser.ParsedEntryFields | src/orgdata/Parser.ts:296-385 | the id, status, headline, body, priority (-1 when absent) and full text of the entry, each from its part of the parse |
| EntryParser.ParseEntry | src/orgdata/Parser.ts:296-385 | the method returns the specification's entry, and leaves the array with the id added and the blank end trimmed, or untouched when it throws |
| EntryParser.EnsureId | src/orgdata/Parser.ts:330-337 | keeps the stored id, or writes the fresh one into the drawer |
| EntryParser.ParseBody | src/orgdata/Parser.ts:339-363 | the body loop with its `parsingDrawer` flag computes the specification's body lines and priority |
| EntryParser.ParseStatusAndHeadline | src/orgdata/Parser.ts:304-317 | the status comes from the `TODO `/`DONE ` keyword, NONE otherwise, and the headline is the text after it |
| EntryParser.NoPriorityIsMinusOne | src/orgdata/Parser.ts:381 | an entry without a `TimeTrackerPriority` property gets priority -1 |
| EntryParser.StoredIdKept | src/orgdata/Parser.ts:330-337 | an id stored in a drawer at line 1 is kept verbatim; the body is what follows the drawer |
| EntryParser.FreshIdWritten | src/orgdata/Parser.ts:330-337 | an entry without an id gets the fresh id, written into a new drawer at line 1 |
| EntryParser.ReparseKeepsFreshId | src/orgdata/Parser.ts:330-337 | parsing the rewritten lines again keeps the id the first parse generated |
| EntryParser.DeadlineDisplacedByNewDrawer | src/orgdata/Parser.ts:319-334 | an entry with a deadline and no drawer reports its deadline, yet afterwards its text has no deadline in the slot `getDeadline` reads |
| EntryParser.NumericWithId | src/orgdata/Parser.ts:330-337 | the id `parseEntry` may add carries no priority |
| ParseFsm.FirstHeadline | src/orgdata/Parser.ts:398-412 | the index of the first headline line, or none |
| ParseFsm.SplitState | src/orgdata/Parser.ts:398-422 | while seeking, nothing has been kept; while scanning, every kept group is a headline followed by non-headlines taken from the text, fewer groups than headlines; scanning at the end exactly when there is a headline |
| ParseFsm.Groups | src/orgdata/Parser.ts:398-423 | lines before the first headline are dropped, there is one group per headline, and the groups concatenate to the rest of the text |
| ParseFsm.CountPrefix | src/orgdata/Parser.ts:400-422 | a prefix of the lines has no more headlines than all of them |
| PrioritySort.SortSorted | src/orgdata/Parser.ts:85-95 | the sort orders by priority and returns a permutation of its input |
| PrioritySort.SortStable | src/orgdata/Parser.ts:85-95 | the sort is stable: the entries of any one priority keep their order |
| Splitter.ParseLines | src/orgdata/Parser.ts:392 | every line gets its newline back, the last one included |
| Splitter.ParseLinesConcat | src/orgdata/Parser.ts:392 | the lines concatenate to the text with one more newline at its end |
| Splitter.Renumbered | src/orgdata/Parser.ts:85-95 | the kth entry gets priority k+1 |
| Splitter.FixPriority | src/orgdata/Parser.ts:89-94 | one turn of the renumbering writes the priority into the summary and the text |
| Splitter.SortAndFixPriority | src/orgdata/Parser.ts:85-95 | the method returns the stably sorted entries renumbered 1..N |
| Splitter.RenumberedFacts | src/orgdata/Parser.ts:85-95 | after renumbering, the kth entry's summary and text carry priority k+1, and nothing else in its summary changes |
| Splitter.SortAndFixRanks | src/orgdata/Parser.ts:85-95 | `sortAndFixPriority` returns a stable sorted permutation, renumbered 1..N in the summaries and the texts |
| Splitter.ParseGroup | src/orgdata/Parser.ts:417-423 | `parseEntry` of one entry's lines is the specification's entry |
| Splitter.ParseContent | src/orgdata/Parser.ts:394-427 | the state machine loop returns the specification's parse of the lines |
| Splitter.Parse | src/orgdata/Parser.ts:388-428 | `parse` of a text is the specification's parse of its lines |
| Splitter.ParsedLines | src/orgdata/Parser.ts:388-428 | `parse` throws exactly when no line is a headline, and otherwise returns one entry per headline |
| Splitter.ParsedDocument | src/orgdata/Parser.ts:388-428 | `parse` of the text throws exactly when none of its lines is a headline, and otherwise returns one entry per headline |
| Splitter.ParsedOrder | src/orgdata/Parser.ts:388-428 | the entries of `parse` are those of the groups, stably sorted by parsed priority and renumbered 1..N in summary and text |
| MapResults.MapAll | src/orgdata/Reordering.ts:52-54 | `map` with a throwing callback succeeds exactly when every element does, with the results in order, and otherwise fails with the first element's error |
| Wire.OrderedValues | src/orgdata/Wire.ts:26-28 | the values of the keys in enumeration order |
| Wire.WireDbFull.constructor | src/orgdata/Wire.ts:26-28 | the store holds the given entries in the given enumeration order |
| Wire.WireDbFull.SetFulltext | src/orgdata/Reordering.ts:67 | only the text of the entry under the id changes; keys, order and epoch are kept |
| Wire.WireDbFull.Values | src/orgdata/Reordering.ts:52 | one value per key, in enumeration order |
| Wire.DistinctCard | src/orgdata/Wire.ts:26-28 | a duplicate-free list of exactly the keys is as long as the map |
| Db.FulltextToEntry | src/db/Db.ts:48-50 | the entry is `parseEntry` of `fulltextToLines` of the text |
| Db.SwapAndCollapsePriorities | src/db/Db.ts:116-139 | the two values differ by one and reverse the order; opposite signs collapse to {0, 1}; two positives become {min, min+1}; a negative first with a non-positive second becomes {max-1, max} |
| Reordering.Reduce | src/orgdata/Reordering.ts:58 | `reduce` with `Math.min` or `Math.max` gives a member of the list that is least or greatest |
| Reordering.ToEndPriority | src/orgdata/Reordering.ts:52-59 | the new priority fails when an entry does not parse or the store is empty, and is otherwise the extreme priority plus the modifier |
| Reordering.ToEndPastAll | src/orgdata/Reordering.ts:46-69 | `topqueue` gives a priority below every parsed priority, one below the least; `bury` one above the greatest |
| Reordering.MovedToEnd | src/orgdata/Reordering.ts:61-68 | fails exactly when the id is missing; on success only the target's text changes, and that one entry is returned |
| Reordering.MoveTaskToEnd | src/orgdata/Reordering.ts:46-69 | the store and the result afterwards are those of the specification, the target overwritten in place |
| Reordering.SwappedPriorities | src/orgdata/Reordering.ts:103-113 | the target's new priority is the neighbour's plus the direction; with opposite signs the neighbour gets 0, otherwise the target's old priority |
| Reordering.FindIndex | src/orgdata/Reordering.ts:94 | the first index holding the id, or -1 exactly when none does |
| Reordering.MoveTaskPast | src/orgdata/Reordering.ts:79-125 | an empty store gives no records |
| Reordering.PastAtEnd | src/orgdata/Reordering.ts:94-98 | no records exactly when the store is empty or the target is last in the sort order |
| Reordering.PastMissing | src/orgdata/Reordering.ts:94-101 | a target missing from a non-empty store makes `moveTaskPast` throw |
| Reordering.PastSwap | src/orgdata/Reordering.ts:84-124 | otherwise the target and its adjacent neighbour in the sort order are returned, the neighbour with the target's old priority (0 on opposite signs) and the target one step past it |
| Reordering.OperationNamed | src/orgdata/Reordering.ts:18-34 | the operation a name stands for, none for any other name |
| Reordering.Reordered | src/orgdata/Reordering.ts:13-35 | an unknown operation throws; `down1`/`up1` leave the store untouched |
| Reordering.ReorderTask | src/orgdata/Reordering.ts:13-35 | the store and the result afterwards are those of the specification |
| Reordering.ReorderBy | src/orgdata/Reordering.ts:18-30 | the four known operations dispatch to `moveTaskToEnd` and `moveTaskPast` |
| Updates.TypeNamed | src/orgdata/Updates.ts:67-101 | the update type a tag names, none for any other tag |
| Updates.NewTodo | src/orgdata/Updates.ts:24-29 | a well-typed `newTodo` update for the entry's id |
| Updates.TodoStatusUpdate | src/orgdata/Updates.ts:31-36 | a well-typed `todoValue` update for the id |
| Updates.TodoPriorityUpdate | src/orgdata/Updates.ts:38-46 | a well-typed `priority` update for the id, naming the operation |
| Updates.TodoReplaceBody | src/orgdata/Updates.ts:48-53 | a well-typed `replaceBody` update for the id |
| Updates.TodoSetDeadline | src/orgdata/Updates.ts:55-60 | a well-typed `setDeadline` update for the id |
| Updates.Handled | src/orgdata/Updates.ts:63-103 | an unknown tag throws; `newTodo` succeeds and leaves the store alone; the edits succeed exactly when the id is present; a priority update fails exactly when `reorderTask` does |
| Updates.HandleUpdate | src/orgdata/Updates.ts:63-103 | the store and the result afterwards are those of the specification |
| Updates.EditEntry | src/orgdata/Updates.ts:72-98 | the target's text is overwritten in place with the edited text |
| Updates.HandledAsWritten | src/orgdata/Updates.ts:72-98 | as written, every `replaceBody` and `setDeadline` update fails on the unbound `entry`; all others behave as intended |
| Updates.BodyEditRejectedAsWritten | src/orgdata/Updates.ts:74-92 | a body edit of an entry the store holds fails as written and succeeds as intended |
| Updates.NewTodoHandled | src/orgdata/Updates.ts:68-71 | `newTodo` returns exactly the one record of the update's id and text and leaves the store as it is |
| Updates.PriorityHandled | src/orgdata/Updates.ts:82-87 | a priority update is `reorderTask` of its operation, and never fails for an unknown operation |
| Updates.HandledScope | src/orgdata/Updates.ts:67-98 | a successful update keeps the keys, changes no entry but the one under its id, and of that one only the text |
| Updates.Edited | src/orgdata/Updates.ts:72-98 | a status edit rewrites the first line and keeps the rest of the text; a body edit ends the text with the new body; a deadline edit keeps the first line and, with a date, puts the deadline line right after it |
| Updates.EditedEntry | src/orgdata/Updates.ts:72-98 | fails exactly when the id is absent ("No entry" for `todoValue`, the undefined-entry TypeError otherwise); on success only that entry's text changes, to the edited text, and it alone is returned |
| Updates.StatusHandled | src/orgdata/Updates.ts:72-80 | `todoValue` rewrites the headline so that the status read back is the new one, with the same text, and keeps every other line |
| Updates.DeadlineSetHandled | src/orgdata/Updates.ts:94-97 | after `setDeadline` with a date, `getDeadline` of the target's text reads that date |
| Updates.DeadlineClearedHandled | src/orgdata/Updates.ts:94-97 | after `setDeadline` with null, no deadline is read when line 1 held the only deadline line |
| Updates.BodyHandled | src/orgdata/Updates.ts:89-92 | `replaceBody` keeps every line before the first body line and appends the new body's lines |
| NewTask.ModifiedLines | src/client/NewTask.tsx:63-69 | the callback applied to each line on its own |
| NewTask.ModifyCheckboxes | src/client/NewTask.tsx:60-72 | the output has as many lines as the input, and its ith line is the callback applied to the input's ith line |
| NewTask.SetNewlineFree | src/orgdata/Parser.ts:148-176 | `setCheckboxStatus` keeps a line free of newlines |
| NewTask.AddingLines | src/client/NewTask.tsx:64-65 | adding gives every line without a box an unchecked one, keeps the lines with one, and leaves no line without a box |
| NewTask.RemovingLines | src/client/NewTask.tsx:66-67 | removing strips the checkbox of every line with one and keeps the others |
| NewTask.AddingIdempotent | src/client/NewTask.tsx:64-65 | adding twice is adding once |
| NewTask.PlainItemRoundTrip | src/client/NewTask.tsx:63-69 | on a plain list item, adding a box and removing it gives the line back |
| NewTask.RoundTrip | src/client/NewTask.tsx:60-72 | on a text whose lines are all plain list items, removing checkboxes after adding them gives the text back |
| RemoteStore.TaskUrl | src/client/RemoteStore.ts:54-56 | the URL is `/tasks/` and the id, followed by `?oldhash=` and the hash exactly when the hash is given and non-empty |
| RemoteStore.RemoteStore.constructor | src/client/RemoteStore.ts:16-17 | the counter starts at 1 with nothing in flight and no guard |
| RemoteStore.RemoteStore.LogOutgoing | src/client/RemoteStore.ts:25-33 | returns the old counter, which no request in flight holds, increments it, records the message under the id, counts one more and raises the guard |
| RemoteStore.RemoteStore.EndOutgoing | src/client/RemoteStore.ts:35-41 | forgets the id; the count drops by one for a live id and is unchanged otherwise; the guard is down exactly when nothing is in flight |
| RemoteStore.RemoteStore.Send | src/client/RemoteStore.ts:49-79 | posts to the task URL; succeeds exactly on an OK status or 409, throws otherwise; reports the count one up and then back where it was |
| RemoteStore.RemoteStore.ReplaceRemoteStore | src/client/RemoteStore.ts:82-100 | puts to `/tasks`; succeeds exactly on an OK status; reports the count one up and then back where it was |

## Left out

- The SQL functions of `src/db/Db.ts` (`connection`, `readEntries`, `replaceEntries`, `getPriority`, `topqueue`, `bury`, `bumpPriority`, `setTodoStatus`, `addTask`): sqlite I/O. Their arithmetic is the one `Reordering` models.
- `newId` (`crypto.randomUUID`): a parameter. `parseEntry` takes `freshId`, and `parse` and the reorderings take a sequence `freshIds`, one id per entry parsed.
- Hashing, `fetch`, `alert` and `window.onbeforeunload`. The outcome of `fetch` is an input (`FetchOutcome`); the handler is the boolean field `unloadGuard`; the 409 alert is not modelled.
- The `updateCount` callback: its calls are the returned `counts` sequence.
- The asynchronous interleaving of several `send` calls. Each call is modelled as running to completion.
- The JSON request bodies.
- The `remoteStore` singleton (src/client/RemoteStore.ts:103-112).
- The `console.log` calls.
- `Object.values` order. It is the explicit field `order` of `WireDbFull`.
- `WireEntryUnhashed` is not defined in the source. It is modelled by its usage as `{id, fulltext}`.
- The records returned for an edited entry alias the store entry in the source. The model returns the id and the new text only.
- The lines are assumed free of `\r`, U+2028 and U+2029 apart from the newline that `fulltextToLines` and `parse` keep. The recognisers treat only those as line terminators.
- `Date` overflow normalisation, time zones and fields out of range. A date is the record of its local fields, and `Valid` keeps them in range.
- Updates.HandleUpdate: requires a `setDeadline` date to be a valid date and, for a priority update, numeric priority values and one fresh id per entry. `parseInt` returning NaN and `Date` overflow are not modelled.
- EntryParser.ParseEntry: requires every `TimeTrackerPriority` value to be an optionally signed decimal. `parseInt` returning NaN is not modelled.
- Db.FulltextToEntry, EntryParser.ParsedText: the same numeric-priority requirement on the entry's text.
- Splitter.Parse: requires numeric priority values and one fresh id per headline.
- Splitter.ParseGroup, Splitter.ParseContent, Splitter.ParsedLines, Splitter.ParsedDocument: the same numeric-priority requirement, and, except for ParseGroup, one fresh id per headline.
- OrgDate.OrgDatetimeToJs: requires the loose pieces to be decimals (`ConvertibleDate`). `Number` of a piece with trailing junk yields NaN, which is not modelled. A two-digit year follows the `new Date` rule (1900 + year).
- OrgDate.DateRoundTrip: proved for four-digit years only. Other years are not written with four digits by `getFullYear`.
- Deadline.SetThenGetDeadline: proved for four-digit years, for the same reason.
- Reordering.MoveTaskPast: its own contract covers the empty store; `PastAtEnd`, `PastMissing` and `PastSwap` state the rest, about the sorted entries.
- Reordering.Reordered: states the dispatch. The results of each operation are stated by `ToEndPastAll`, `MovedToEnd`, `PastAtEnd`, `PastMissing` and `PastSwap`.
- The sort of `sortAndFixPriority` and `moveTaskPast` is modelled as a stable insertion sort on a sequence, not in place. `Array.prototype.sort` is stable, so the result is the same.
- `formatDeadline` and the React components (apart from `modifyCheckboxes`): UI.

## Findings

| source | as written | input that shows it | evidently intended | confidence | as-written member | corrected member |
|---|---|---|---|---|---|---|
| src/orgdata/Updates.ts:74-98 | `entry` is declared with `let` in the `todoValue` case and only assigned in the `replaceBody` and `setDeadline` cases. All cases share the switch's scope, so those assignments run while the binding is uninitialised, and a ReferenceError is thrown (ES2015 and later semantics). | any `replaceBody` or `setDeadline` update, e.g. `todoReplaceBody(id, "new body")` for an id the store holds | overwrite the entry's text with the new body or deadline and return the entry | medium (depends on the compile target); not executed | Updates.HandledAsWritten, Updates.BodyEditRejectedAsWritten | Updates.Handled |
