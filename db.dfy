/** The two pure pieces of the server's database layer: parsing a stored full text into an
    entry, and the older swap-and-collapse rule for two neighbouring priorities. */
module Db {
  import opened Wrappers
  import opened Text
  import opened Entries
  import opened PropertyDrawer
  import opened EntryParser

  /** `fulltextToEntry`: `parseEntry` on the lines of the text, on an array made for the call. */
  method FulltextToEntry(fulltext: string, freshId: string) returns (r: Result<Entry, ParseError>)
    requires NumericFulltext(fulltext)
    ensures r == ParsedText(fulltext, freshId)
  {
    var content := new LineArray(FulltextToLines(fulltext));
    r := ParseEntry(content, freshId);
  }

  /** `swapAndCollapsePriorities(first, second)`: new priorities for an entry (`first`) and its
      neighbour (`second`) that swap their order and sit one apart, as close to zero as the old
      values allow. The pair returned is the entry's new value, then the neighbour's. */
  function SwapAndCollapsePriorities(first: int, second: int): (r: (int, int))
    ensures r.0 - r.1 == 1 || r.1 - r.0 == 1
    ensures r.0 > r.1 <==> first < second
    ensures (first < 0 < second) || (second < 0 < first) ==> {r.0, r.1} == {0, 1}
    ensures first > 0 && second > 0 ==> {r.0, r.1} == {Min(first, second), Min(first, second) + 1}
    ensures first < 0 && second <= 0 ==> {r.0, r.1} == {Max(first, second) - 1, Max(first, second)}
  {
    if first < 0 && second > 0 then (1, 0)
    else if second < 0 && first > 0 then (0, 1)
    else if first < 0 then
      if first < second then (second, second - 1) else (first - 1, first)
    else
      if first < second then (first + 1, first) else (second, second + 1)
  }

  function Min(a: int, b: int): int { if a <= b then a else b }

  function Max(a: int, b: int): int { if a >= b then a else b }
}
