/** The property drawer of an org entry:
      :PROPERTIES:
      :ID:       0f3c...
      :TimeTrackerPriority:       3
      :END:
    edited in place on the entry's array of lines. */
module PropertyDrawer {
  import opened Wrappers
  import opened Text

  /** A JavaScript array of lines, edited in place by `splice`, `push`, `pop` and assignment. */
  class LineArray {
    var items: seq<string>

    constructor(lines: seq<string>)
      ensures items == lines
    {
      items := lines;
    }
  }

  const PropertiesLine: string := ":PROPERTIES:\n"
  const EndLine: string := ":END:\n"

  /** PROPERTIES_PATTERN `^:PROPERTIES:\n`. */
  predicate IsPropertiesLine(line: string) { PropertiesLine <= line }

  /** END_PATTERN `^:END:\n`. */
  predicate IsEndLine(line: string) { EndLine <= line }

  /** `[-_A-Za-z0-9]`. */
  predicate IsNameChar(c: char) {
    c == '-' || c == '_' || ('A' <= c <= 'Z') || ('a' <= c <= 'z') || ('0' <= c <= '9')
  }

  predicate IsName(name: string) {
    |name| > 0 && forall i :: 0 <= i < |name| ==> IsNameChar(name[i])
  }

  predicate IsSpaceChar(c: char) { c == ' ' }

  /** The end of `:([-_A-Za-z0-9]+):` at the start of `line`: the index of the second colon. */
  function NameEnd(line: string): (n: Option<nat>)
    ensures n.Some? ==> 1 < n.value < |line| && line[0] == ':' && line[n.value] == ':' && IsName(line[1..n.value])
  {
    if |line| == 0 || line[0] != ':' then None
    else
      var n := RunEnd(line, 1, IsNameChar);
      RunEndRun(line, 1, IsNameChar);
      if 1 < n < |line| && line[n] == ':' then Some(n) else None
  }

  /** PROPERTY_PATTERN `^:([-_A-Za-z0-9]+): +(.*)\n`: the name and the value, which the greedy
      ` +` leaves without leading spaces. */
  function PropertyMatch(line: string): (r: Option<(string, string)>)
    ensures r.Some? ==> IsName(r.value.0) && SingleLine(r.value.1)
    ensures r.Some? ==> r.value.1 == [] || r.value.1[0] != ' '
  {
    match NameEnd(line)
    case None => None
    case Some(n) =>
      var sp := RunEnd(line, n + 1, IsSpaceChar);
      var v := RunEnd(line, sp, IsDot);
      RunEndRun(line, sp, IsDot);
      if n + 1 < sp && v < |line| && line[v] == '\n' then Some((line[1..n], line[sp..v])) else None
  }

  /** DRAWER_PATTERN `^:([-_A-Za-z0-9]+):\n`: the opening line of any drawer. */
  predicate IsDrawerLine(line: string) {
    var n := NameEnd(line);
    n.Some? && n.value + 1 < |line| && line[n.value + 1] == '\n'
  }

  /** `^:name: +(.*)\n` for a literal property name. */
  predicate HasProperty(line: string, name: string) {
    var m := PropertyMatch(line);
    m.Some? && m.value.0 == name
  }

  /** The line `setProperty` writes: `:name:`, seven spaces, the value, a newline. */
  function PropertyLine(name: string, value: string): string {
    ":" + name + ":       " + value + "\n"
  }

  /** A property line reads back as its name and value. */
  lemma {:induction false} PropertyLineMatch(name: string, value: string)
    requires IsName(name) && SingleLine(value) && (value == [] || value[0] != ' ')
    ensures PropertyMatch(PropertyLine(name, value)) == Some((name, value))
    ensures !IsEndLine(PropertyLine(name, value)) && !IsPropertiesLine(PropertyLine(name, value))
    ensures !IsDrawerLine(PropertyLine(name, value))
  {
    var line := PropertyLine(name, value);
    PropertyLineParse(name, value);
    if IsDrawerLine(line) {
      DrawerLineNotProperty(line);
    }
    if IsEndLine(line) {
      EndLineIsDrawerLine(line);
      DrawerLineNotProperty(line);
    }
    if IsPropertiesLine(line) {
      PropertiesLineIsDrawerLine(line);
      DrawerLineNotProperty(line);
    }
  }

  lemma {:induction false} PropertyLineParse(name: string, value: string)
    requires IsName(name) && SingleLine(value) && (value == [] || value[0] != ' ')
    ensures PropertyMatch(PropertyLine(name, value)) == Some((name, value))
  {
    var line := PropertyLine(name, value);
    var n := |name| + 1;
    var v := n + 8 + |value|;
    PropertyLineParts(name, value);
    RunEndAt(line, 1, n, IsNameChar);
    assert NameEnd(line) == Some(n);
    RunEndAt(line, n + 1, n + 8, IsSpaceChar);
    RunEndAt(line, n + 8, v, IsDot);
  }

  /** Where the parts of a property line stand. */
  lemma {:induction false} PropertyLineParts(name: string, value: string)
    ensures var line := PropertyLine(name, value);
      var n := |name| + 1;
      var v := n + 8 + |value|;
      && |line| == v + 1 && line[0] == ':' && line[n] == ':' && line[v] == '\n'
      && (forall k :: 1 <= k < n ==> line[k] == name[k - 1])
      && (forall k :: n < k < n + 8 ==> line[k] == ' ')
      && (forall k :: n + 8 <= k < v ==> line[k] == value[k - n - 8])
      && line[1..n] == name && line[n + 8..v] == value
  {
    var line := PropertyLine(name, value);
    var n := |name| + 1;
    var v := n + 8 + |value|;
    assert line == ":" + name + ":       " + value + "\n";
    assert line[1..n] == name;
    assert line[n + 8..v] == value;
  }

  /** A drawer's opening line `:NAME:` has no value, so it is no property line. */
  lemma {:induction false} DrawerLineNotProperty(line: string)
    requires IsDrawerLine(line)
    ensures PropertyMatch(line).None?
  {
    var n := NameEnd(line).value;
    RunEndAt(line, n + 1, n + 1, IsSpaceChar);
  }

  lemma {:induction false} EndLineIsDrawerLine(line: string)
    requires IsEndLine(line)
    ensures IsDrawerLine(line)
  {
    assert line[..6] == EndLine;
    RunEndAt(line, 1, 4, IsNameChar);
  }

  lemma {:induction false} PropertiesLineIsDrawerLine(line: string)
    requires IsPropertiesLine(line)
    ensures IsDrawerLine(line)
  {
    assert line[..13] == PropertiesLine;
    RunEndAt(line, 1, 11, IsNameChar);
  }

  /** No line both names a property and opens or closes the drawer. */
  lemma {:induction false} EndLineHasNoProperty(line: string, name: string)
    ensures IsEndLine(line) || IsPropertiesLine(line) ==> !HasProperty(line, name)
  {
    if IsEndLine(line) {
      EndLineIsDrawerLine(line);
      DrawerLineNotProperty(line);
    } else if IsPropertiesLine(line) {
      PropertiesLineIsDrawerLine(line);
      DrawerLineNotProperty(line);
    }
  }

  lemma {:induction false} PropertiesLineNotEnd(line: string)
    requires IsPropertiesLine(line)
    ensures !IsEndLine(line)
  {
    assert line[..13] == PropertiesLine;
    assert line[1] == 'P';
  }

  /** The index of the first `:PROPERTIES:` line from index 1 on, as the first loop of
      `setProperty` finds it. */
  function PropertiesIndex(c: seq<string>): (r: Option<nat>)
    ensures r.Some? ==> 1 <= r.value < |c| && IsPropertiesLine(c[r.value])
    ensures r.Some? ==> forall k :: 1 <= k < r.value ==> !IsPropertiesLine(c[k])
    ensures r.None? ==> forall k :: 1 <= k < |c| ==> !IsPropertiesLine(c[k])
  {
    if |c| <= 1 then None else PropertiesFrom(c, 1)
  }

  function PropertiesFrom(c: seq<string>, i: nat): (r: Option<nat>)
    requires i <= |c|
    ensures r.Some? ==> i <= r.value < |c| && IsPropertiesLine(c[r.value])
    ensures r.Some? ==> forall k :: i <= k < r.value ==> !IsPropertiesLine(c[k])
    ensures r.None? ==> forall k :: i <= k < |c| ==> !IsPropertiesLine(c[k])
    decreases |c| - i
  {
    if i == |c| then None
    else if IsPropertiesLine(c[i]) then Some(i)
    else PropertiesFrom(c, i + 1)
  }

  /** From index `i`, the first line that holds property `name` or closes the drawer. */
  function ScanDrawer(c: seq<string>, i: nat, name: string): (r: Option<nat>)
    requires i <= |c|
    ensures r.Some? ==> i <= r.value < |c| && (HasProperty(c[r.value], name) || IsEndLine(c[r.value]))
    ensures r.Some? ==> forall k :: i <= k < r.value ==> !HasProperty(c[k], name) && !IsEndLine(c[k])
    ensures r.None? ==> forall k :: i <= k < |c| ==> !HasProperty(c[k], name) && !IsEndLine(c[k])
    decreases |c| - i
  {
    if i == |c| then None
    else if HasProperty(c[i], name) || IsEndLine(c[i]) then Some(i)
    else ScanDrawer(c, i + 1, name)
  }

  /** The three lines `insertProperty` splices in. */
  function NewDrawer(name: string, value: string): seq<string> {
    [PropertiesLine, PropertyLine(name, value), EndLine]
  }

  /** `splice(1, 0, ...)`: index 1, or the end of a shorter array. */
  function DrawerSlot(c: seq<string>): nat {
    if |c| == 0 then 0 else 1
  }

  /** What `insertProperty` leaves in the array. */
  function WithNewDrawer(c: seq<string>, name: string, value: string): seq<string> {
    c[..DrawerSlot(c)] + NewDrawer(name, value) + c[DrawerSlot(c)..]
  }

  /** What `setProperty` leaves in the array: the property's line replaced, or a new line
      before `:END:`, or a new drawer at index 1, or, when the drawer never closes, the line and
      an `:END:` appended. */
  function PropertySet(c: seq<string>, name: string, value: string): (r: seq<string>)
    ensures |r| >= |c|
  {
    var line := PropertyLine(name, value);
    match PropertiesIndex(c)
    case None => WithNewDrawer(c, name, value)
    case Some(p) =>
      match ScanDrawer(c, p, name)
      case Some(j) =>
        if HasProperty(c[j], name) then c[j := line] else c[..j] + [line] + c[j..]
      case None => c + [line, EndLine]
  }

  /** `insertProperty`. */
  method InsertProperty(content: LineArray, name: string, value: string)
    modifies content
    ensures content.items == WithNewDrawer(old(content.items), name, value)
  {
    var k := if |content.items| == 0 then 0 else 1;
    content.items := content.items[..k] + NewDrawer(name, value) + content.items[k..];
  }

  /** `setProperty`. */
  method SetProperty(content: LineArray, name: string, value: string)
    modifies content
    ensures content.items == PropertySet(old(content.items), name, value)
  {
    var c := content.items;
    var i := 1;
    while i < |content.items| && !IsPropertiesLine(content.items[i])
      invariant content.items == c
      invariant 1 <= i <= if |c| <= 1 then 1 else |c|
      invariant forall k :: 1 <= k < i ==> !IsPropertiesLine(c[k])
      decreases |c| - i
    {
      i := i + 1;
    }
    if i >= |content.items| {
      InsertProperty(content, name, value);
      return;
    }
    PropertiesFromSame(c, c, 1, i);
    ghost var p := i;
    var line := PropertyLine(name, value);
    while i < |content.items| && !HasProperty(content.items[i], name) && !IsEndLine(content.items[i])
      invariant content.items == c
      invariant p <= i <= |c|
      invariant forall k :: p <= k < i ==> !HasProperty(c[k], name) && !IsEndLine(c[k])
      decreases |c| - i
    {
      i := i + 1;
    }
    if i < |content.items| {
      ScanSameTo(c, c, p, i, name);
      if HasProperty(content.items[i], name) {
        content.items := content.items[i := line];
      } else {
        content.items := content.items[..i] + [line] + content.items[i..];
      }
      return;
    }
    assert ScanDrawer(c, p, name).None?;
    content.items := content.items + [line];
    content.items := content.items + [EndLine];
  }

  /** The value of property `name` in the first drawer: the first line of the drawer that names
      it, if it comes before `:END:`. */
  function DrawerLookup(c: seq<string>, name: string): (r: Option<string>)
    ensures r.Some? ==> exists k :: 1 <= k < |c| && PropertyMatch(c[k]) == Some((name, r.value))
  {
    match PropertiesIndex(c)
    case None => None
    case Some(p) => DrawerLookupAt(c, p, name)
  }

  predicate Settable(name: string, value: string) {
    IsName(name) && SingleLine(value) && (value == [] || value[0] != ' ')
  }

  /** `setProperty` never touches the headline. */
  lemma {:induction false} PropertySetKeepsHeadline(c: seq<string>, name: string, value: string)
    requires |c| >= 1
    ensures |PropertySet(c, name, value)| > |c| || |PropertySet(c, name, value)| == |c|
    ensures PropertySet(c, name, value)[0] == c[0]
  {
  }

  /** The three ways `setProperty` edits the array: replace the property's line in place, insert
      it just before `:END:`, or insert a three-line drawer at index 1. */
  lemma {:induction false} PropertySetShape(c: seq<string>, name: string, value: string)
    requires |c| >= 1
    ensures var r := PropertySet(c, name, value);
      var line := PropertyLine(name, value);
      || (PropertiesIndex(c).None? && r == [c[0]] + NewDrawer(name, value) + c[1..])
      || (exists j :: 1 <= j < |c| && HasProperty(c[j], name) && r == c[j := line])
      || (exists j :: 1 <= j < |c| && IsEndLine(c[j]) && r == c[..j] + [line] + c[j..])
      || (PropertiesIndex(c).Some? && r == c + [line, EndLine])
  {
    var r := PropertySet(c, name, value);
    var line := PropertyLine(name, value);
    match PropertiesIndex(c)
    case None =>
    case Some(p) =>
      match ScanDrawer(c, p, name)
      case Some(j) =>
        if HasProperty(c[j], name) {
          assert 1 <= j < |c| && HasProperty(c[j], name) && r == c[j := line];
        } else {
          assert 1 <= j < |c| && IsEndLine(c[j]) && r == c[..j] + [line] + c[j..];
        }
      case None =>
  }

  /** After setting a property, looking it up in the drawer gives the value written. */
  lemma {:induction false} SetThenLookup(c: seq<string>, name: string, value: string)
    requires |c| >= 1 && Settable(name, value)
    ensures DrawerLookup(PropertySet(c, name, value), name) == Some(value)
  {
    PropertyLineMatch(name, value);
    match PropertiesIndex(c)
    case None =>
      LookupInNewDrawer(c, name, value, name);
    case Some(p) =>
      match ScanDrawer(c, p, name)
      case Some(j) =>
        if HasProperty(c[j], name) {
          LookupReplaced(c, p, j, name, value);
        } else {
          LookupInserted(c, p, j, name, value);
        }
      case None =>
        LookupAppended(c, p, name, value);
  }

  /** In a fresh drawer at index 1, the one property is found and nothing else is. */
  lemma {:induction false} LookupInNewDrawer(c: seq<string>, name: string, value: string, other: string)
    requires |c| >= 1 && Settable(name, value)
    ensures DrawerLookup(WithNewDrawer(c, name, value), other) == if other == name then Some(value) else None
  {
    var r := WithNewDrawer(c, name, value);
    var line := PropertyLine(name, value);
    PropertyLineMatch(name, value);
    assert r[1] == PropertiesLine && r[2] == line && r[3] == EndLine;
    assert PropertiesIndex(r) == Some(1);
    EndLineHasNoProperty(r[1], other);
    assert !IsEndLine(r[1]) by {
      assert PropertiesLine[5] != EndLine[5];
    }
    EndLineHasNoProperty(r[3], other);
    if other == name {
      assert ScanDrawer(r, 2, other) == Some(2);
    } else {
      assert ScanDrawer(r, 3, other) == Some(3);
    }
  }

  lemma {:induction false} LookupReplaced(c: seq<string>, p: nat, j: nat, name: string, value: string)
    requires PropertiesIndex(c) == Some(p) && ScanDrawer(c, p, name) == Some(j) && HasProperty(c[j], name)
    requires PropertyMatch(PropertyLine(name, value)) == Some((name, value))
    requires !IsPropertiesLine(PropertyLine(name, value))
    ensures DrawerLookup(c[j := PropertyLine(name, value)], name) == Some(value)
  {
    var line := PropertyLine(name, value);
    var r := c[j := line];
    EndLineHasNoProperty(c[p], name);
    assert j != p;
    assert r[p] == c[p];
    PropertiesIndexKept(c, r, p);
    assert forall k :: p <= k < j ==> r[k] == c[k];
    ScanSameTo(c, r, p, j, name);
    assert r[j] == line;
    assert DrawerLookupAt(r, p, name) == Some(value);
  }

  lemma {:induction false} LookupInserted(c: seq<string>, p: nat, j: nat, name: string, value: string)
    requires PropertiesIndex(c) == Some(p) && ScanDrawer(c, p, name) == Some(j) && !HasProperty(c[j], name)
    requires PropertyMatch(PropertyLine(name, value)) == Some((name, value))
    requires !IsPropertiesLine(PropertyLine(name, value))
    ensures DrawerLookup(c[..j] + [PropertyLine(name, value)] + c[j..], name) == Some(value)
  {
    var r := c[..j] + [PropertyLine(name, value)] + c[j..];
    assert PropertiesIndex(r) == Some(p) by {
      PropertiesIndexKept(c, r, p);
    }
    ScanSameTo(c, r, p, j, name);
  }

  lemma {:induction false} LookupAppended(c: seq<string>, p: nat, name: string, value: string)
    requires PropertiesIndex(c) == Some(p) && ScanDrawer(c, p, name).None?
    requires PropertyMatch(PropertyLine(name, value)) == Some((name, value))
    ensures DrawerLookup(c + [PropertyLine(name, value), EndLine], name) == Some(value)
  {
    var r := c + [PropertyLine(name, value), EndLine];
    assert PropertiesIndex(r) == Some(p) by {
      PropertiesIndexKept(c, r, p);
    }
    ScanSameTo(c, r, p, |c|, name);
  }

  /** Lines changed only after the first `:PROPERTIES:` line leave its index as it was. */
  lemma {:induction false} PropertiesIndexKept(c: seq<string>, r: seq<string>, p: nat)
    requires PropertiesIndex(c) == Some(p) && p < |r| && IsPropertiesLine(r[p])
    requires forall k :: 1 <= k < p ==> r[k] == c[k]
    ensures PropertiesIndex(r) == Some(p)
  {
    assert PropertiesFrom(r, p) == Some(p);
    PropertiesFromSame(c, r, 1, p);
  }

  lemma {:induction false} PropertiesFromSame(c: seq<string>, r: seq<string>, i: nat, p: nat)
    requires 1 <= i <= p < |c| && p < |r| && IsPropertiesLine(r[p])
    requires forall k :: i <= k < p ==> !IsPropertiesLine(c[k])
    requires forall k :: 1 <= k < p ==> r[k] == c[k]
    ensures PropertiesFrom(r, i) == Some(p)
    decreases p - i
  {
    if i < p {
      PropertiesFromSame(c, r, i + 1, p);
    }
  }

  /** The scan of `r` from `i` reaches `j` when `r` and `c` agree up to `j` and the scan of `c`
      passes all of them. */
  lemma {:induction false} ScanSameTo(c: seq<string>, r: seq<string>, i: nat, j: nat, name: string)
    requires i <= j <= |c| && j < |r|
    requires forall k :: i <= k < j ==> r[k] == c[k] && !HasProperty(c[k], name) && !IsEndLine(c[k])
    requires HasProperty(r[j], name) || IsEndLine(r[j])
    ensures ScanDrawer(r, i, name) == Some(j)
    decreases j - i
  {
    if i < j {
      ScanSameTo(c, r, i + 1, j, name);
    }
  }

  /** Setting one property leaves the value of every other property as it was. */
  lemma {:induction false} SetKeepsOtherLookups(c: seq<string>, name: string, value: string, other: string)
    requires |c| >= 1 && Settable(name, value) && other != name
    ensures DrawerLookup(PropertySet(c, name, value), other) == DrawerLookup(c, other)
  {
    PropertyLineMatch(name, value);
    var line := PropertyLine(name, value);
    assert !HasProperty(line, other);
    match PropertiesIndex(c)
    case None =>
      LookupInNewDrawer(c, name, value, other);
    case Some(p) =>
      EndLineHasNoProperty(c[p], name);
      PropertiesLineNotEnd(c[p]);
      match ScanDrawer(c, p, name)
      case Some(j) =>
        if HasProperty(c[j], name) {
          OtherAfterReplace(c, p, j, name, line, other);
        } else {
          OtherAfterInsert(c, p, j, line, other);
        }
      case None =>
        OtherAfterAppend(c, p, line, other);
  }

  lemma {:induction false} OtherAfterReplace(c: seq<string>, p: nat, j: nat, name: string, line: string, other: string)
    requires PropertiesIndex(c) == Some(p) && p < j < |c| && HasProperty(c[j], name) && other != name
    requires !HasProperty(line, other) && !IsEndLine(line)
    ensures DrawerLookup(c[j := line], other) == DrawerLookup(c, other)
  {
    var r := c[j := line];
    PropertiesIndexKept(c, r, p);
    EndLineHasNoProperty(c[j], name);
    ScanPastReplaced(c, r, p, j, other);
  }

  lemma {:induction false} OtherAfterInsert(c: seq<string>, p: nat, j: nat, line: string, other: string)
    requires PropertiesIndex(c) == Some(p) && p < j < |c|
    requires !HasProperty(line, other) && !IsEndLine(line)
    ensures DrawerLookup(c[..j] + [line] + c[j..], other) == DrawerLookup(c, other)
  {
    var r := c[..j] + [line] + c[j..];
    InsertIndices(c, j, line);
    PropertiesIndexKept(c, r, p);
    LookupAtInserted(c, r, p, j, line, other);
  }

  lemma {:induction false} LookupAtInserted(c: seq<string>, r: seq<string>, p: nat, j: nat, line: string, other: string)
    requires p <= j < |c| && |r| == |c| + 1 && r[j] == line
    requires forall k :: 0 <= k < j ==> r[k] == c[k]
    requires forall k :: j <= k < |c| ==> r[k + 1] == c[k]
    requires !HasProperty(line, other) && !IsEndLine(line)
    ensures DrawerLookupAt(r, p, other) == DrawerLookupAt(c, p, other)
  {
    ScanPastInserted(c, r, p, j, line, other);
    var so := ScanDrawer(c, p, other);
    if so.Some? {
      var k := so.value;
      assert r[if k >= j then k + 1 else k] == c[k];
    }
  }

  lemma {:induction false} InsertIndices(c: seq<string>, j: nat, line: string)
    requires j <= |c|
    ensures var r := c[..j] + [line] + c[j..];
      |r| == |c| + 1 && r[j] == line &&
      (forall k :: 0 <= k < j ==> r[k] == c[k]) && (forall k :: j <= k < |c| ==> r[k + 1] == c[k])
  {
  }

  lemma {:induction false} OtherAfterAppend(c: seq<string>, p: nat, line: string, other: string)
    requires PropertiesIndex(c) == Some(p)
    requires !HasProperty(line, other) && !IsEndLine(line)
    ensures DrawerLookup(c + [line, EndLine], other) == DrawerLookup(c, other)
  {
    var r := c + [line, EndLine];
    PropertiesIndexKept(c, r, p);
    var so := ScanDrawer(c, p, other);
    if so.Some? {
      ScanSameTo(c, r, p, so.value, other);
    } else {
      ScanPastAppended(c, r, p, other);
    }
  }

  /** Replacing a line that neither names `other` nor closes the drawer, with another such line,
      leaves the scan for `other` unchanged. */
  lemma {:induction false} ScanPastReplaced(c: seq<string>, r: seq<string>, i: nat, j: nat, other: string)
    requires i <= j < |c| == |r|
    requires forall k :: i <= k < |c| && k != j ==> r[k] == c[k]
    requires !HasProperty(c[j], other) && !IsEndLine(c[j])
    requires !HasProperty(r[j], other) && !IsEndLine(r[j])
    ensures ScanDrawer(r, i, other) == ScanDrawer(c, i, other)
    decreases |c| - i
  {
    if i < j {
      ScanPastReplaced(c, r, i + 1, j, other);
    } else {
      ScanSame(c, r, i + 1, other);
    }
  }

  lemma {:induction false} ScanSame(c: seq<string>, r: seq<string>, i: nat, other: string)
    requires i <= |c| == |r|
    requires forall k :: i <= k < |c| ==> r[k] == c[k]
    ensures ScanDrawer(r, i, other) == ScanDrawer(c, i, other)
    decreases |c| - i
  {
    if i < |c| {
      ScanSame(c, r, i + 1, other);
    }
  }

  /** Inserting a line that neither names `other` nor closes the drawer before index `j` of the
      drawer shifts the scan for `other` by one, if it got that far. */
  lemma {:induction false} ScanPastInserted(c: seq<string>, r: seq<string>, i: nat, j: nat, line: string, other: string)
    requires i <= j < |c| && |r| == |c| + 1 && r[j] == line
    requires forall k :: i <= k < j ==> r[k] == c[k]
    requires forall k :: j <= k < |c| ==> r[k + 1] == c[k]
    requires !HasProperty(line, other) && !IsEndLine(line)
    ensures var so := ScanDrawer(c, i, other);
      ScanDrawer(r, i, other) == if so.Some? && so.value >= j then Some(so.value + 1) else so
    decreases |c| - i
  {
    if i < j {
      assert r[i] == c[i];
      if !(HasProperty(c[i], other) || IsEndLine(c[i])) {
        ScanPastInserted(c, r, i + 1, j, line, other);
      }
    } else {
      ShiftedScan(c, r, j, other);
    }
  }

  /** The value `DrawerLookup` reads when the drawer starts at `i`. */
  function DrawerLookupAt(c: seq<string>, i: nat, name: string): Option<string>
    requires i <= |c|
  {
    match ScanDrawer(c, i, name)
    case None => None
    case Some(j) => if HasProperty(c[j], name) then Some(PropertyMatch(c[j]).value.1) else None
  }

  lemma {:induction false} ShiftedScan(c: seq<string>, r: seq<string>, i: nat, other: string)
    requires i < |r| && |r| == |c| + 1
    requires !HasProperty(r[i], other) && !IsEndLine(r[i])
    requires forall k :: i <= k < |c| ==> r[k + 1] == c[k]
    ensures var so := ScanDrawer(c, i, other);
      ScanDrawer(r, i, other) == if so.Some? then Some(so.value + 1) else so
    decreases |c| - i
  {
    if i < |c| && !(HasProperty(c[i], other) || IsEndLine(c[i])) {
      assert r[i + 1] == c[i];
      ShiftedScan(c, r, i + 1, other);
    }
  }

  /** Appending a line that does not name `other`, then `:END:`, turns a drawer that never
      closed into one that closes without `other`. */
  lemma {:induction false} ScanPastAppended(c: seq<string>, r: seq<string>, i: nat, other: string)
    requires i <= |c| && |r| == |c| + 2 && r[..|c|] == c
    requires ScanDrawer(c, i, other).None?
    requires !HasProperty(r[|c|], other) && !IsEndLine(r[|c|]) && r[|c| + 1] == EndLine
    ensures DrawerLookupAt(r, i, other).None?
    decreases |c| - i
  {
    if i < |c| {
      assert r[i] == c[i];
      ScanPastAppended(c, r, i + 1, other);
    } else {
      EndLineHasNoProperty(r[|c| + 1], other);
      assert ScanDrawer(r, |c| + 1, other) == Some(|c| + 1);
    }
  }

  /** `getEntryId`'s own match `^:ID: +(.*)\n`. */
  function IdMatch(line: string): (r: Option<string>)
    ensures r.Some? ==> HasProperty(line, "ID")
  {
    var m := PropertyMatch(line);
    if m.Some? && m.value.0 == "ID" then Some(m.value.1) else None
  }

  /** What `getEntryId` returns: `undefined` for fewer than four lines or when line `firstLine`
      is not exactly `:PROPERTIES:\n`; otherwise the first `:ID:` value before `:END:`. */
  function EntryIdOf(c: seq<string>, firstLine: nat): (r: Option<string>)
    ensures r.Some? ==> |c| >= 4 && firstLine < |c| && c[firstLine] == PropertiesLine
  {
    if |c| < 4 || firstLine >= |c| || c[firstLine] != PropertiesLine then None
    else IdScan(c, firstLine + 1)
  }

  function IdScan(c: seq<string>, i: nat): (r: Option<string>)
    requires i <= |c|
    ensures r.Some? ==> exists k :: i <= k < |c| && IdMatch(c[k]) == r
    decreases |c| - i
  {
    if i == |c| then None
    else if IdMatch(c[i]).Some? then IdMatch(c[i])
    else if IsEndLine(c[i]) then None
    else IdScan(c, i + 1)
  }

  /** `getEntryId`. */
  method GetEntryId(content: LineArray, firstLine: nat) returns (r: Option<string>)
    ensures r == EntryIdOf(content.items, firstLine)
  {
    if |content.items| < 4 {
      return None;
    }
    if firstLine >= |content.items| || content.items[firstLine] != PropertiesLine {
      return None;
    }
    var i := firstLine + 1;
    while i < |content.items|
      invariant firstLine + 1 <= i <= |content.items|
      invariant IdScan(content.items, firstLine + 1) == IdScan(content.items, i)
      decreases |content.items| - i
    {
      var test := IdMatch(content.items[i]);
      if test.Some? {
        return test;
      }
      if IsEndLine(content.items[i]) {
        return None;
      }
      i := i + 1;
    }
    return None;
  }

  /** `setPriority`: set `TimeTrackerPriority` on a copy of the lines. */
  function SetPriority(fulltext: string, priority: int): (r: string)
    ensures FulltextToLines(fulltext)[0] <= r
  {
    var c := FulltextToLines(fulltext);
    var lines := PropertySet(c, "TimeTrackerPriority", IntToString(priority));
    PropertySetKeepsHeadline(c, "TimeTrackerPriority", IntToString(priority));
    assert Concat(lines) == lines[0] + Concat(lines[1..]);
    Concat(lines)
  }
}
