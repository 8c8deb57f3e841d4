/** `modifyCheckboxes` of the new-task dialog: give every line of a body a checkbox, or take the
    checkboxes away, one line at a time. */
module NewTask {
  import opened Text
  import opened Checkbox
  import opened Headline

  /** The callback of `lines.map`: adding boxes a line that has none, removing strips a line
      that has one, and every other line is kept. */
  function ModifiedLine(line: string, adding: bool): string {
    if adding && CheckboxStatusOf(line) == NoBox then SetCheckboxStatus(line, Unchecked)
    else if !adding && CheckboxStatusOf(line) != NoBox then SetCheckboxStatus(line, NoBox)
    else line
  }

  function ModifiedLines(lines: seq<string>, adding: bool): (r: seq<string>)
    ensures |r| == |lines| && forall i :: 0 <= i < |lines| ==> r[i] == ModifiedLine(lines[i], adding)
  {
    seq(|lines|, i requires 0 <= i < |lines| => ModifiedLine(lines[i], adding))
  }

  /** `modifyCheckboxes`: split on newlines, map, join. The output has as many lines as the
      input, and its `i`th line is the callback applied to the input's `i`th line alone. */
  function ModifyCheckboxes(bodyText: string, adding: bool): (r: string)
    ensures var lines := Split(bodyText, '\n');
      && |Split(r, '\n')| == |lines|
      && forall i :: 0 <= i < |lines| ==> Split(r, '\n')[i] == ModifiedLine(lines[i], adding)
  {
    var lines := ModifiedLines(Split(bodyText, '\n'), adding);
    forall i | 0 <= i < |lines| ensures '\n' !in lines[i] {
      ModifiedLineNewlineFree(Split(bodyText, '\n')[i], adding);
    }
    SplitJoin(lines, '\n');
    Join(lines, "\n")
  }

  lemma {:induction false} SingleLineNewlineFree(s: string)
    requires SingleLine(s)
    ensures '\n' !in s
  {
  }

  lemma {:induction false} ComposeNewlineFree(prefix: string, st: CheckboxStatus, suffix: string)
    requires '\n' !in prefix && SingleLine(suffix)
    ensures '\n' !in Compose(prefix, st, suffix)
  {
    SingleLineNewlineFree(suffix);
  }

  /** `setCheckboxStatus` keeps a line a single line: everything it writes is taken from the line,
      a bullet or a bracket token. */
  lemma {:induction false} SetNewlineFree(s: string, st: CheckboxStatus)
    requires '\n' !in s
    ensures '\n' !in SetCheckboxStatus(s, st)
    decreases if ListItemPrefix(s).Some? then 0 else 1
  {
    if CheckboxMatch(s).Some? {
      BoxedNewlineFree(s, st);
    } else if st != NoBox {
      if ListItemPrefix(s).Some? {
        ItemNewlineFree(s, st);
      } else {
        var w := LeadingSpace(s);
        NoNewlineSlice(s, 0, w);
        SingleLineNewlineFree(LineText(s[w..]));
        SetNewlineFree(MakeListItem(s), st);
      }
    }
  }

  lemma {:induction false} BoxedNewlineFree(s: string, st: CheckboxStatus)
    requires '\n' !in s && CheckboxMatch(s).Some?
    ensures '\n' !in SetCheckboxStatus(s, st)
  {
    var (b, k) := CheckboxMatch(s).value;
    NoNewlineSlice(s, 0, b);
    ComposeNewlineFree(s[..b], st, LineText(s[b + 1..][k + 2..]));
  }

  lemma {:induction false} ItemNewlineFree(s: string, st: CheckboxStatus)
    requires '\n' !in s && CheckboxMatch(s).None? && ListItemPrefix(s).Some? && st != NoBox
    ensures '\n' !in SetCheckboxStatus(s, st)
  {
    var b := ListItemPrefix(s).value;
    NoNewlineSlice(s, 0, b);
    ComposeNewlineFree(s[..b], st, LineText(s[b + 1..]));
  }

  lemma {:induction false} ModifiedLineNewlineFree(line: string, adding: bool)
    requires '\n' !in line
    ensures '\n' !in ModifiedLine(line, adding)
  {
    SetNewlineFree(line, Unchecked);
    SetNewlineFree(line, NoBox);
  }

  /** Adding boxes every line that had none and keeps the others; afterwards no line is without
      a checkbox. */
  lemma {:induction false} AddingLines(bodyText: string)
    ensures var lines := Split(bodyText, '\n');
      var out := Split(ModifyCheckboxes(bodyText, true), '\n');
      && (forall i :: 0 <= i < |lines| && CheckboxStatusOf(lines[i]) == NoBox ==>
            out[i] == SetCheckboxStatus(lines[i], Unchecked))
      && (forall i :: 0 <= i < |lines| && CheckboxStatusOf(lines[i]) != NoBox ==> out[i] == lines[i])
      && (forall i :: 0 <= i < |out| ==> CheckboxStatusOf(out[i]) != NoBox)
  {
    var lines := Split(bodyText, '\n');
    forall i | 0 <= i < |lines| && CheckboxStatusOf(lines[i]) == NoBox
      ensures CheckboxStatusOf(SetCheckboxStatus(lines[i], Unchecked)) == Unchecked
    {
      SetThenStatus(lines[i], Unchecked);
    }
  }

  /** Removing strips the checkbox from every line that has one and keeps the others. */
  lemma {:induction false} RemovingLines(bodyText: string)
    ensures var lines := Split(bodyText, '\n');
      var out := Split(ModifyCheckboxes(bodyText, false), '\n');
      && (forall i :: 0 <= i < |lines| && CheckboxStatusOf(lines[i]) != NoBox ==>
            out[i] == SetCheckboxStatus(lines[i], NoBox))
      && (forall i :: 0 <= i < |lines| && CheckboxStatusOf(lines[i]) == NoBox ==> out[i] == lines[i])
  {
  }

  /** Adding twice is adding once. */
  lemma {:induction false} AddingIdempotent(bodyText: string)
    ensures ModifyCheckboxes(ModifyCheckboxes(bodyText, true), true) == ModifyCheckboxes(bodyText, true)
  {
    AddingLines(bodyText);
    AllBoxedKept(ModifyCheckboxes(bodyText, true));
  }

  /** Adding changes nothing in a text whose every line has a checkbox. */
  lemma {:induction false} AllBoxedKept(t: string)
    requires forall i :: 0 <= i < |Split(t, '\n')| ==> CheckboxStatusOf(Split(t, '\n')[i]) != NoBox
    ensures ModifyCheckboxes(t, true) == t
  {
    var lines := Split(t, '\n');
    assert ModifiedLines(lines, true) == lines;
  }

  /** A plain list item: whitespace, a bullet, a space and single-line text that does not open
      with a bracket token. */
  predicate PlainItem(line: string) {
    && SingleLine(line)
    && ListItemPrefix(line).Some?
    && BoxEnd(line[ListItemPrefix(line).value + 1..]).None?
  }

  /** The parts of a plain list item. */
  lemma {:induction false} PlainItemParts(line: string) returns (ws: string, bullet: string, text: string)
    requires PlainItem(line)
    ensures AllSpace(ws) && IsBullet(bullet) && SingleLine(text) && BoxEnd(text).None?
    ensures line == ws + bullet + " " + text
  {
    var b := ListItemPrefix(line).value;
    var w := LeadingSpace(line);
    ws, bullet, text := line[..w], line[w..b], line[b + 1..];
    assert line == ws + bullet + " " + text;
    forall i | 0 <= i < |text| ensures IsDot(text[i]) {
      assert text[i] == line[b + 1 + i];
    }
  }

  /** Adding boxes a plain list item with an unchecked box after its bullet. */
  lemma {:induction false} ItemAdded(ws: string, bullet: string, text: string)
    requires AllSpace(ws) && IsBullet(bullet) && SingleLine(text) && BoxEnd(text).None?
    ensures CheckboxStatusOf(ws + bullet + " " + text) == NoBox
    ensures ModifiedLine(ws + bullet + " " + text, true) == BoxLine(ws, bullet, " ", text)
  {
    CheckboxStatusOfPlainItem(ws, bullet, text);
    SetBoxOnPlainItem(ws, bullet, text, Unchecked);
  }

  /** Removing strips that box again. */
  lemma {:induction false} ItemRemoved(ws: string, bullet: string, text: string)
    requires AllSpace(ws) && IsBullet(bullet) && SingleLine(text)
    ensures CheckboxStatusOf(BoxLine(ws, bullet, " ", text)) == Unchecked
    ensures ModifiedLine(BoxLine(ws, bullet, " ", text), false) == ws + bullet + " " + text
  {
    assert BoxLineFields(ws, bullet, " ");
    CheckboxStatusOfBox(ws, bullet, " ", text);
    SetNoneStripsBox(ws, bullet, " ", text);
  }

  /** On a plain list item, adding a box and then removing it gives the line back. */
  lemma {:induction false} PlainItemRoundTrip(line: string)
    requires PlainItem(line)
    ensures CheckboxStatusOf(line) == NoBox
    ensures CheckboxStatusOf(ModifiedLine(line, true)) == Unchecked
    ensures ModifiedLine(ModifiedLine(line, true), false) == line
  {
    var ws, bullet, text := PlainItemParts(line);
    ItemAdded(ws, bullet, text);
    ItemRemoved(ws, bullet, text);
  }

  /** On a body whose lines are all plain list items, removing checkboxes after adding them gives
      the body back. */
  lemma {:induction false} RoundTrip(bodyText: string)
    requires forall i :: 0 <= i < |Split(bodyText, '\n')| ==> PlainItem(Split(bodyText, '\n')[i])
    ensures ModifyCheckboxes(ModifyCheckboxes(bodyText, true), false) == bodyText
  {
    var lines := Split(bodyText, '\n');
    var out := Split(ModifyCheckboxes(bodyText, true), '\n');
    forall i | 0 <= i < |lines| ensures ModifiedLine(out[i], false) == lines[i] {
      PlainItemRoundTrip(lines[i]);
    }
    assert ModifiedLines(out, false) == lines;
  }
}
