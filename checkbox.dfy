/** The checkbox micro-format of org-mode list items: `- [X] text`, `  3. [ ] text`. */
module Checkbox {
  import opened Wrappers
  import opened Text

  datatype CheckboxStatus = NoBox | Unchecked | Checked

  /** CHECKBOX_SYMBOLS: the bracket token written for each status. */
  function Symbol(st: CheckboxStatus): string {
    match st
    case NoBox => ""
    case Unchecked => "[ ]"
    case Checked => "[X]"
  }

  predicate AllSpace(w: string) { forall i :: 0 <= i < |w| ==> IsJsSpace(w[i]) }

  predicate IsBulletChar(c: char) { c == '-' || c == '+' || c == '*' }

  /** `[-+*]|(\d+(\.|\)))`. */
  predicate IsBullet(b: string) {
    || (|b| == 1 && IsBulletChar(b[0]))
    || (|b| >= 2 && AllDigits(b[..|b| - 1]) && (b[|b| - 1] == '.' || b[|b| - 1] == ')'))
  }

  /** The end of the leading whitespace, `(\s*)`. */
  function LeadingSpace(s: string): (w: nat)
    ensures w <= |s| && AllSpace(s[..w])
    ensures w < |s| ==> !IsJsSpace(s[w])
  {
    RunEndRun(s, 0, IsJsSpace);
    RunEnd(s, 0, IsJsSpace)
  }

  /** `^(\s*([-+*]|(\d+(\.|\))))) `: the index of the space that ends the bullet prefix.
      Whitespace and digit runs are maximal, so the regular expression has no other way to match. */
  function ListItemPrefix(s: string): (r: Option<nat>)
    ensures r.Some? ==> r.value < |s| && s[r.value] == ' '
    ensures r.Some? ==> LeadingSpace(s) < r.value && IsBullet(s[LeadingSpace(s)..r.value])
  {
    var w := LeadingSpace(s);
    if w < |s| && IsBulletChar(s[w]) then
      if w + 1 < |s| && s[w + 1] == ' ' then Some(w + 1) else None
    else
      var d := RunEnd(s, w, IsDigit);
      RunEndRun(s, w, IsDigit);
      if w < d && d + 1 < |s| && (s[d] == '.' || s[d] == ')') && s[d + 1] == ' ' then
        DigitsBullet(s, w, d);
        Some(d + 1)
      else None
  }

  /** A run of digits closed by `.` or `)` is a bullet. */
  lemma {:induction false} DigitsBullet(s: string, w: nat, d: nat)
    requires w < d < |s| && (s[d] == '.' || s[d] == ')')
    requires forall k :: w <= k < d ==> IsDigit(s[k])
    ensures IsBullet(s[w..d + 1])
  {
    var b := s[w..d + 1];
    assert b[..|b| - 1] == s[w..d];
    assert forall i :: 0 <= i < d - w ==> s[w..d][i] == s[w + i];
  }

  /** `] ` stands at index `j` of `t`. */
  predicate ClosesAt(t: string, j: nat) { j + 1 < |t| && t[j] == ']' && t[j + 1] == ' ' }

  /** The lazy `(\[.*?\]) ` at the start of `t`: the index of the first `]` that is followed by a
      space, with no line terminator before it. */

  function BoxEnd(t: string): (k: Option<nat>)
    ensures k.Some? ==> 0 < k.value && k.value + 1 < |t| && t[0] == '[' && t[k.value] == ']' && t[k.value + 1] == ' '
    ensures k.Some? ==> SingleLine(t[1..k.value])
    ensures k.Some? ==> forall j :: 0 < j < k.value ==> !ClosesAt(t, j)
  {
    if |t| > 0 && t[0] == '[' then CloseFrom(t, 1) else None
  }

  function CloseFrom(t: string, j: nat): (k: Option<nat>)
    requires 0 < j <= |t|
    ensures k.Some? ==> j <= k.value && k.value + 1 < |t| && t[k.value] == ']' && t[k.value + 1] == ' '
    ensures k.Some? ==> SingleLine(t[j..k.value])
    ensures k.Some? ==> forall i :: j <= i < k.value ==> !ClosesAt(t, i)
    decreases |t| - j
  {
    if ClosesAt(t, j) then Some(j)
    else if j == |t| || !IsDot(t[j]) then None
    else
      var k := CloseFrom(t, j + 1);
      if k.None? then k
      else
        assert t[j..k.value] == [t[j]] + t[j + 1..k.value];
        SingleLineConcat([t[j]], t[j + 1..k.value]);
        k
  }

  /** CHECKBOX_PATTERN: the bullet prefix ends at `b` and the bracket token at `b + 1 + k`. */
  function CheckboxMatch(s: string): (r: Option<(nat, nat)>)
    ensures r.Some? ==> ListItemPrefix(s) == Some(r.value.0) && BoxEnd(s[r.value.0 + 1..]) == Some(r.value.1)
    ensures r.None? ==> ListItemPrefix(s).None? || BoxEnd(s[ListItemPrefix(s).value + 1..]).None?
  {
    match ListItemPrefix(s)
    case None => None
    case Some(b) =>
      match BoxEnd(s[b + 1..])
      case None => None
      case Some(k) => Some((b, k))
  }

  /** `checkboxStatus`. */
  function CheckboxStatusOf(s: string): (r: CheckboxStatus)
    ensures r == NoBox <==> CheckboxMatch(s).None?
    ensures r != NoBox ==> ListItemPrefix(s).Some?
  {
    match CheckboxMatch(s)
    case None => NoBox
    case Some((b, k)) => if s[b + 1..][..k + 1] == "[X]" then Checked else Unchecked
  }

  /** `checkboxCopy`: the text after the bracket token, or the whole line. */
  function CheckboxCopy(s: string): (r: string)
    ensures CheckboxMatch(s).Some? ==> SingleLine(r) && |r| < |s|
  {
    match CheckboxMatch(s)
    case None => s
    case Some((b, k)) => LineText(s[b + 1..][k + 2..])
  }

  /** `makeListItem`: the leading whitespace, then `- `, then the rest of the first line. */
  function MakeListItem(s: string): (r: string)
    ensures var w := LeadingSpace(s);
      && |r| == w + 2 + |LineText(s[w..])|
      && r[..w] == s[..w] && r[w..w + 2] == "- " && r[w + 2..] == LineText(s[w..])
    ensures ListItemPrefix(r) == Some(LeadingSpace(s) + 1)
  {
    var w := LeadingSpace(s);
    var r := s[..w] + "- " + LineText(s[w..]);
    assert r[..w] == s[..w];
    RunEndAt(r, 0, w, IsJsSpace);
    r
  }

  /** The line `prefix [token] suffix`, or `prefix suffix` when the token is empty. */
  function Compose(prefix: string, st: CheckboxStatus, suffix: string): string {
    if st == NoBox then prefix + " " + suffix else prefix + " " + (Symbol(st) + " " + suffix)
  }

  /** `setCheckboxStatus`. A line that is not a list item is first made one. */
  function SetCheckboxStatus(s: string, st: CheckboxStatus): (r: string)
    ensures st == NoBox && CheckboxMatch(s).None? ==> r == s
    decreases if ListItemPrefix(s).Some? then 0 else 1
  {
    match CheckboxMatch(s)
    case Some((b, k)) => Compose(s[..b], st, LineText(s[b + 1..][k + 2..]))
    case None =>
      if st == NoBox then s
      else
        match ListItemPrefix(s)
        case Some(b) => Compose(s[..b], st, LineText(s[b + 1..]))
        case None => SetCheckboxStatus(MakeListItem(s), st)
  }

  /** A list item line: whitespace, a bullet, a space, then `rest`. */
  lemma {:induction false} PrefixOfItem(ws: string, bullet: string, rest: string, b: nat)
    requires AllSpace(ws) && IsBullet(bullet) && b == |ws| + |bullet|
    ensures ListItemPrefix(ws + bullet + " " + rest) == Some(b)
    ensures (ws + bullet + " " + rest)[b + 1..] == rest
  {
    var s := ws + bullet + " " + rest;
    assert s[|ws|] == bullet[0];
    RunEndAt(s, 0, |ws|, IsJsSpace);
    if !(|bullet| == 1 && IsBulletChar(bullet[0])) {
      assert s[|ws|..|ws| + |bullet| - 1] == bullet[..|bullet| - 1];
      RunEndAt(s, |ws|, |ws| + |bullet| - 1, IsDigit);
    }
    assert s[|ws| + |bullet| + 1..] == rest;
  }

  /** The bullet prefix depends only on the text up to its closing space. */
  lemma {:induction false} PrefixStable(s: string, b: nat, t: string)
    requires ListItemPrefix(s) == Some(b)
    ensures ListItemPrefix(s[..b] + " " + t) == Some(b)
  {
    var w := LeadingSpace(s);
    PrefixOfItem(s[..w], s[w..b], t, b);
    assert s[..w] + s[w..b] + " " + t == s[..b] + " " + t;
  }

  /** `]` followed by a space inside the token would end it early. */
  predicate NoCloseInside(inner: string) {
    forall j :: 0 <= j < |inner| - 1 ==> !ClosesAt(inner, j)
  }

  lemma {:induction false} CloseFromBox(inner: string, text: string, j: nat)
    requires SingleLine(inner) && NoCloseInside(inner)
    requires 0 < j <= |inner| + 1
    ensures CloseFrom("[" + inner + "] " + text, j) == Some(|inner| + 1)
    decreases |inner| + 1 - j
  {
    var t := "[" + inner + "] " + text;
    assert t[|inner| + 1] == ']' && t[|inner| + 2] == ' ';
    if j <= |inner| {
      assert t[j] == inner[j - 1] && t[j + 1] == (inner + "]")[j];
      if j < |inner| {
        assert !ClosesAt(inner, j - 1);
      }
      assert !ClosesAt(t, j);
      CloseFromBox(inner, text, j + 1);
    }
  }

  /** A bracket token `[inner]` followed by a space is recognised whole. */
  lemma {:induction false} BoxEndOf(inner: string, text: string, k: nat)
    requires SingleLine(inner) && NoCloseInside(inner) && k == |inner| + 1
    ensures BoxEnd("[" + inner + "] " + text) == Some(k)
    ensures ("[" + inner + "] " + text)[..k + 1] == "[" + inner + "]"
    ensures ("[" + inner + "] " + text)[k + 2..] == text
  {
    CloseFromBox(inner, text, 1);
    var t := "[" + inner + "] " + text;
    assert t[..k + 1] == "[" + inner + "]";
    assert t[k + 2..] == text;
  }

  /** `ws bullet [inner] text`: the canonical shape of a checkbox line. */
  function BoxLine(ws: string, bullet: string, inner: string, text: string): string {
    ws + bullet + " " + ("[" + inner + "] " + text)
  }

  predicate BoxLineFields(ws: string, bullet: string, inner: string) {
    AllSpace(ws) && IsBullet(bullet) && SingleLine(inner) && NoCloseInside(inner)
  }

  lemma {:induction false} BoxLineMatch(ws: string, bullet: string, inner: string, text: string, b: nat, k: nat)
    requires BoxLineFields(ws, bullet, inner) && b == |ws| + |bullet| && k == |inner| + 1
    ensures var s := BoxLine(ws, bullet, inner, text);
      && CheckboxMatch(s) == Some((b, k))
      && s[..b] == ws + bullet
      && s[b + 1..][..k + 1] == "[" + inner + "]"
      && s[b + 1..][k + 2..] == text
  {
    var rest := "[" + inner + "] " + text;
    var s := ws + bullet + " " + rest;
    PrefixOfItem(ws, bullet, rest, b);
    BoxEndOf(inner, text, k);
    MatchOfParts(s, rest, b, k);
    PrefixSlice(ws + bullet, " ", rest, b);
  }

  lemma {:induction false} MatchOfParts(s: string, rest: string, b: nat, k: nat)
    requires ListItemPrefix(s) == Some(b) && b < |s| && s[b + 1..] == rest && BoxEnd(rest) == Some(k)
    ensures CheckboxMatch(s) == Some((b, k))
  {
  }

  lemma {:induction false} PrefixSlice(x: string, y: string, z: string, n: nat)
    requires n == |x|
    ensures (x + y + z)[..n] == x
  {
    assert (x + y + z)[..n] == (x + y)[..n];
  }

  /** `checkboxStatus` is "checked" exactly for the token `[X]` and "unchecked" for any other
      token, such as `[-]` or `[ ]`. */
  lemma {:induction false} CheckboxStatusOfBox(ws: string, bullet: string, inner: string, text: string)
    requires BoxLineFields(ws, bullet, inner)
    ensures CheckboxStatusOf(BoxLine(ws, bullet, inner, text)) == (if inner == "X" then Checked else Unchecked)
    ensures CheckboxCopy(BoxLine(ws, bullet, inner, text)) == LineText(text)
  {
    var s := BoxLine(ws, bullet, inner, text);
    var b, k := |ws| + |bullet|, |inner| + 1;
    BoxLineMatch(ws, bullet, inner, text, b, k);
    TokenIsX(inner);
  }

  lemma {:induction false} TokenIsX(inner: string)
    ensures ("[" + inner + "]" == "[X]") == (inner == "X")
  {
    if "[" + inner + "]" == "[X]" {
      assert inner == ("[" + inner + "]")[1..|inner| + 1];
    }
  }

  /** A list item whose text does not start with a bracket token has no checkbox. */
  lemma {:induction false} CheckboxStatusOfPlainItem(ws: string, bullet: string, text: string)
    requires AllSpace(ws) && IsBullet(bullet) && BoxEnd(text).None?
    ensures CheckboxStatusOf(ws + bullet + " " + text) == NoBox
    ensures CheckboxCopy(ws + bullet + " " + text) == ws + bullet + " " + text
  {
    PrefixOfItem(ws, bullet, text, |ws| + |bullet|);
  }

  /** A line without a bullet prefix has no checkbox. */
  lemma {:induction false} CheckboxStatusOfNonItem(s: string)
    requires ListItemPrefix(s).None?
    ensures CheckboxStatusOf(s) == NoBox
  {
  }

  /** Setting "none" strips the bracket token, keeping the bullet prefix and the text. */
  lemma {:induction false} SetNoneStripsBox(ws: string, bullet: string, inner: string, text: string)
    requires BoxLineFields(ws, bullet, inner) && SingleLine(text)
    ensures SetCheckboxStatus(BoxLine(ws, bullet, inner, text), NoBox) == ws + bullet + " " + text
  {
    var s := BoxLine(ws, bullet, inner, text);
    var b, k := |ws| + |bullet|, |inner| + 1;
    BoxLineMatch(ws, bullet, inner, text, b, k);
    SetOnMatch(s, b, k, NoBox);
    LineTextOfSingleLine(text);
  }

  /** Setting "none" leaves a line without a checkbox unchanged. */
  lemma {:induction false} SetNoneKeepsPlain(s: string)
    requires CheckboxStatusOf(s) == NoBox
    ensures SetCheckboxStatus(s, NoBox) == s
  {
  }

  /** Setting a box on a list item without one puts the token after the bullet. */
  lemma {:induction false} SetBoxOnPlainItem(ws: string, bullet: string, text: string, st: CheckboxStatus)
    requires AllSpace(ws) && IsBullet(bullet) && BoxEnd(text).None? && SingleLine(text) && st != NoBox
    ensures SetCheckboxStatus(ws + bullet + " " + text, st) == BoxLine(ws, bullet, BoxInner(st), text)
  {
    var s := ws + bullet + " " + text;
    var b := |ws| + |bullet|;
    PrefixOfItem(ws, bullet, text, b);
    LineTextOfSingleLine(text);
    assert CheckboxMatch(s).None?;
    assert SetCheckboxStatus(s, st) == Compose(s[..b], st, LineText(s[b + 1..]));
    assert s[..b] == ws + bullet;
    ComposeIsBoxLine(ws, bullet, BoxInner(st), st, text);
  }

  /** A line that is not a list item is made one, `- ` going after its leading whitespace. */
  lemma {:induction false} SetBoxOnNonItem(s: string, st: CheckboxStatus)
    requires ListItemPrefix(s).None? && st != NoBox
    ensures var w := LeadingSpace(s); var text := LineText(s[w..]);
      BoxEnd(text).None? ==> SetCheckboxStatus(s, st) == s[..w] + "- " + Symbol(st) + " " + text
    ensures var w := LeadingSpace(s); var text := LineText(s[w..]);
      BoxEnd(text).Some? ==>
        SetCheckboxStatus(s, st) == s[..w] + "- " + Symbol(st) + " " + text[BoxEnd(text).value + 2..]
  {
    var w := LeadingSpace(s);
    var ws, text := s[..w], LineText(s[w..]);
    MakeListItemParts(s, ws, text);
    SetOnNonItem(s, st);
    SetOnDashItem(ws, text, st, w + 1);
  }

  lemma {:induction false} MakeListItemParts(s: string, ws: string, text: string)
    requires ws == s[..LeadingSpace(s)] && text == LineText(s[LeadingSpace(s)..])
    ensures MakeListItem(s) == ws + "-" + " " + text
  {
  }

  /** Setting a box on `ws- text`, where `text` is a single line. */
  lemma {:induction false} SetOnDashItem(ws: string, text: string, st: CheckboxStatus, b: nat)
    requires AllSpace(ws) && SingleLine(text) && st != NoBox && b == |ws| + 1
    ensures BoxEnd(text).None? ==> SetCheckboxStatus(ws + "-" + " " + text, st) == ws + "- " + Symbol(st) + " " + text
    ensures BoxEnd(text).Some? ==>
      SetCheckboxStatus(ws + "-" + " " + text, st) == ws + "- " + Symbol(st) + " " + text[BoxEnd(text).value + 2..]
  {
    var m := ws + "-" + " " + text;
    PrefixOfItem(ws, "-", text, b);
    PrefixSlice(ws + "-", " ", text, b);
    match BoxEnd(text)
    case None =>
      SetOnPlainItem(m, b, st);
      LineTextOfSingleLine(text);
      ComposeDash(ws, st, text);
    case Some(k) =>
      MatchOfParts(m, text, b, k);
      SetOnMatch(m, b, k, st);
      var rest := text[k + 2..];
      SingleLineSuffix(text, k + 2);
      LineTextOfSingleLine(rest);
      ComposeDash(ws, st, rest);
  }

  lemma {:induction false} SingleLineSuffix(t: string, i: nat)
    requires SingleLine(t) && i <= |t|
    ensures SingleLine(t[i..])
  {
    assert forall j :: 0 <= j < |t| - i ==> t[i..][j] == t[i + j];
  }

  lemma {:induction false} ComposeDash(ws: string, st: CheckboxStatus, suffix: string)
    requires st != NoBox
    ensures Compose(ws + "-", st, suffix) == ws + "- " + Symbol(st) + " " + suffix
  {
    assert ws + "- " == ws + "-" + " ";
  }

  /** `- ` then a canonical token: the bullet prefix is found and the token is `sym`. */
  lemma {:induction false} SymbolBox(st: CheckboxStatus, text: string)
    requires st != NoBox
    ensures BoxEnd(Symbol(st) + " " + text) == Some(2)
    ensures (Symbol(st) + " " + text)[..3] == Symbol(st)
    ensures (Symbol(st) + " " + text)[4..] == text
  {
    var inner := if st == Checked then "X" else " ";
    assert Symbol(st) == "[" + inner + "]";
    BoxEndOf(inner, text, 2);
    assert Symbol(st) + " " + text == "[" + inner + "] " + text;
  }

  /** The line a set produces: the prefix it keeps, then the canonical token. */
  lemma {:induction false} ComposedLine(prefix: string, b: nat, s: string, st: CheckboxStatus, suffix: string)
    requires ListItemPrefix(s) == Some(b) && prefix == s[..b] && st != NoBox
    ensures CheckboxMatch(Compose(prefix, st, suffix)) == Some((b, 2))
    ensures CheckboxStatusOf(Compose(prefix, st, suffix)) == st
    ensures CheckboxCopy(Compose(prefix, st, suffix)) == LineText(suffix)
  {
    var r := Compose(prefix, st, suffix);
    var t := Symbol(st) + " " + suffix;
    PrefixStable(s, b, t);
    SymbolBox(st, suffix);
    assert r[b + 1..] == t;
  }

  /** After setting "checked" or "unchecked", the line reports that status. */
  lemma {:induction false} SetThenStatus(s: string, st: CheckboxStatus)
    requires st != NoBox
    ensures CheckboxStatusOf(SetCheckboxStatus(s, st)) == st
    decreases if ListItemPrefix(s).Some? then 0 else 1
  {
    if CheckboxMatch(s).Some? {
      var (b, k) := CheckboxMatch(s).value;
      SetOnMatch(s, b, k, st);
      ComposedLine(s[..b], b, s, st, LineText(s[b + 1..][k + 2..]));
    } else if ListItemPrefix(s).Some? {
      var b := ListItemPrefix(s).value;
      SetOnPlainItem(s, b, st);
      ComposedLine(s[..b], b, s, st, LineText(s[b + 1..]));
    } else {
      SetOnNonItem(s, st);
      SetThenStatus(MakeListItem(s), st);
    }
  }

  lemma {:induction false} SetOnPlainItem(s: string, b: nat, st: CheckboxStatus)
    requires CheckboxMatch(s).None? && ListItemPrefix(s) == Some(b) && st != NoBox
    ensures b < |s| && SetCheckboxStatus(s, st) == Compose(s[..b], st, LineText(s[b + 1..]))
  {
  }

  lemma {:induction false} SetOnNonItem(s: string, st: CheckboxStatus)
    requires ListItemPrefix(s).None? && st != NoBox
    ensures SetCheckboxStatus(s, st) == SetCheckboxStatus(MakeListItem(s), st)
  {
  }

  /** Setting the status a line already has leaves it unchanged, for the canonical tokens
      `[ ]` and `[X]` on a single line. */
  lemma {:induction false} SetSameStatusCanonical(ws: string, bullet: string, st: CheckboxStatus, text: string)
    requires AllSpace(ws) && IsBullet(bullet) && SingleLine(text) && st != NoBox
    ensures var s := ws + bullet + " " + Symbol(st) + " " + text;
      CheckboxStatusOf(s) == st && SetCheckboxStatus(s, st) == s
  {
    var inner := BoxInner(st);
    SymbolLineIsBoxLine(ws, bullet, st, text);
    assert BoxLineFields(ws, bullet, inner);
    CheckboxStatusOfBox(ws, bullet, inner, text);
    SetOnBoxLine(ws, bullet, inner, text, st);
  }

  /** A non-canonical token such as `[-]` reports "unchecked", yet setting "unchecked"
      rewrites it to `[ ]`. */
  lemma {:induction false} PartialBoxIsRewritten(ws: string, bullet: string, text: string)
    requires AllSpace(ws) && IsBullet(bullet) && SingleLine(text)
    ensures CheckboxStatusOf(BoxLine(ws, bullet, "-", text)) == Unchecked
    ensures SetCheckboxStatus(BoxLine(ws, bullet, "-", text), Unchecked) == BoxLine(ws, bullet, " ", text)
  {
    assert BoxLineFields(ws, bullet, "-");
    CheckboxStatusOfBox(ws, bullet, "-", text);
    SetOnBoxLine(ws, bullet, "-", text, Unchecked);
  }

  /** The text inside the canonical token of a status. */
  function BoxInner(st: CheckboxStatus): (inner: string)
    requires st != NoBox
    ensures Symbol(st) == "[" + inner + "]"
  {
    if st == Checked then "X" else " "
  }

  /** Setting a status on a box line puts that status's canonical token in place of the old one. */
  lemma {:induction false} SetOnBoxLine(ws: string, bullet: string, inner: string, text: string, st: CheckboxStatus)
    requires BoxLineFields(ws, bullet, inner) && SingleLine(text) && st != NoBox
    ensures SetCheckboxStatus(BoxLine(ws, bullet, inner, text), st) == BoxLine(ws, bullet, BoxInner(st), text)
  {
    var s := BoxLine(ws, bullet, inner, text);
    var b, k := |ws| + |bullet|, |inner| + 1;
    BoxLineMatch(ws, bullet, inner, text, b, k);
    LineTextOfSingleLine(text);
    SetOnMatch(s, b, k, st);
    ComposeIsBoxLine(ws, bullet, BoxInner(st), st, text);
  }

  lemma {:induction false} SetOnMatch(s: string, b: nat, k: nat, st: CheckboxStatus)
    requires CheckboxMatch(s) == Some((b, k))
    ensures b < |s| && k + 2 <= |s[b + 1..]|
    ensures SetCheckboxStatus(s, st) == Compose(s[..b], st, LineText(s[b + 1..][k + 2..]))
  {
    var t := s[b + 1..];
    assert BoxEnd(t) == Some(k);
  }

  /** A line written with a canonical token is the box line of that token. */
  lemma {:induction false} SymbolLineIsBoxLine(ws: string, bullet: string, st: CheckboxStatus, text: string)
    requires st != NoBox
    ensures ws + bullet + " " + Symbol(st) + " " + text == BoxLine(ws, bullet, BoxInner(st), text)
  {
    ComposeIsBoxLine(ws, bullet, BoxInner(st), st, text);
  }

  /** The line a set writes is the canonical box line of its token. */
  lemma {:induction false} ComposeIsBoxLine(ws: string, bullet: string, inner: string, st: CheckboxStatus, text: string)
    requires st != NoBox && Symbol(st) == "[" + inner + "]"
    ensures Compose(ws + bullet, st, text) == BoxLine(ws, bullet, inner, text)
  {
    assert Symbol(st) + " " + text == "[" + inner + "] " + text;
  }
}
