/**
 The elements the renderer adds on its own inside the widgets it draws: the text
 control of an Input, its icons and reveal toggle, the select and chevron of a
 Dropdown, and so on. An update names only some props, so every helper places its
 part relative to the ones already there.
 */
module Parts {
  import opened Common
  import opened Tree
  import opened Patches

  datatype PartName =
    | InputControl | SelectControl | DataList
    | Leading | Trailing | Chevron | Reveal
    | LowThumb | HighThumb | Fill | Spinner | Glyph | Tab | MenuItem | Outline | Preview

  /** What an element is: a widget the wire knows, or a renderer-owned part. */
  datatype Tag = Widget(shape: Shape) | Part(name: PartName)

  type Elem = Tree<Tag>

  function PartEl(name: PartName): Elem { Tree(Part(name), []) }

  predicate IsPart(e: Elem, name: PartName) { e.tag == Part(name) }

  // ---- querySelector, insertBefore, remove ------------------------------------

  /** `i` is where the first such child stands, or the number of children. */
  ghost predicate FirstAt(kids: seq<Elem>, name: PartName, i: nat) {
    && i <= |kids|
    && (i < |kids| ==> IsPart(kids[i], name))
    && forall j :: 0 <= j < i ==> !IsPart(kids[j], name)
  }

  lemma FirstExists(kids: seq<Elem>, name: PartName)
    ensures exists i: nat :: FirstAt(kids, name, i)
  {
    if kids == [] || IsPart(kids[0], name) {
      assert FirstAt(kids, name, 0);
    } else {
      FirstExists(kids[1..], name);
      var i: nat :| FirstAt(kids[1..], name, i);
      assert FirstAt(kids, name, i + 1);
    }
  }

  ghost function Find(kids: seq<Elem>, name: PartName): (i: nat)
    ensures FirstAt(kids, name, i)
  {
    FirstExists(kids, name);
    var i: nat :| FirstAt(kids, name, i);
    i
  }

  ghost predicate Has(kids: seq<Elem>, name: PartName) { Find(kids, name) < |kids| }

  /** Insert before the child at `i`; past the last child this appends. */
  function InsertAt(kids: seq<Elem>, i: nat, e: Elem): seq<Elem>
    requires i <= |kids|
  {
    kids[..i] + [e] + kids[i..]
  }

  ghost function Dropped(kids: seq<Elem>, name: PartName): seq<Elem> {
    var i := Find(kids, name);
    if i < |kids| then kids[..i] + kids[i + 1..] else kids
  }

  // ---- The helpers -------------------------------------------------------------

  /** A control is created in front of whatever is there. */
  ghost function EnsureFront(kids: seq<Elem>, name: PartName): seq<Elem> {
    if Has(kids, name) then kids else InsertAt(kids, 0, PartEl(name))
  }

  ghost function EnsureBack(kids: seq<Elem>, name: PartName): seq<Elem> {
    if Has(kids, name) then kids else InsertAt(kids, |kids|, PartEl(name))
  }

  /** The text a prop becomes is empty: `""`, null, or an array that joins to it. */
  predicate EmptyText(v: Value) {
    match v
    case Null => true
    case Str(text) => text == ""
    case IconName(name, _) => name == ""
    case Arr(items) => items == [] || (|items| == 1 && EmptyText(items[0]))
    case _ => false
  }

  function Digit(d: nat): char
    requires d < 10
  {
    ['0', '1', '2', '3', '4', '5', '6', '7', '8', '9'][d]
  }

  function Decimal(n: nat): string {
    if n < 10 then [Digit(n)] else Decimal(n / 10) + [Digit(n % 10)]
  }

  /** `v == null ? "" : String(v)`. */
  function TextOf(v: Value): string {
    match v
    case Null => ""
    case Bool(on) => if on then "true" else "false"
    case Num(n) => if n < 0 then "-" + Decimal(-n) else Decimal(n)
    case Str(text) => text
    case IconName(name, _) => name
    case Arr(items) => Join(items)
  }

  /** An array's text: its items' texts with commas between. */
  function Join(items: seq<Value>): string {
    if items == [] then ""
    else if |items| == 1 then TextOf(items[0])
    else TextOf(items[0]) + "," + Join(items[1..])
  }

  lemma {:induction false} DecimalIsText(n: nat)
    ensures Decimal(n) != ""
  {
  }

  /** The painters' test is the one the text decides. */
  lemma {:induction false} EmptyTextExactly(v: Value)
    ensures EmptyText(v) <==> TextOf(v) == ""
  {
    if v.Num? {
      DecimalIsText(if v.n < 0 then -v.n else v.n);
    } else if v.Arr? {
      if |v.items| == 1 {
        EmptyTextExactly(v.items[0]);
      } else if v.items != [] {
        assert Join(v.items)[|TextOf(v.items[0])|] == ',';
      }
    }
  }

  predicate Shown(props: Props, prop: Prop) {
    prop in props && !EmptyText(props[prop])
  }

  /** What an update says about a part: nothing, or whether it is to be there. */
  function Wanted(props: Props, prop: Prop): Option<bool> {
    if prop in props then Some(Shown(props, prop)) else None
  }

  /** Draw or clear one part, leaving it alone when the update does not name it.
      It goes before `anchor`; with none of those there it is appended. */
  ghost function SetPart(kids: seq<Elem>, wanted: Option<bool>, part: PartName, anchor: PartName): seq<Elem> {
    if wanted.None? then kids
    else if !wanted.value then Dropped(kids, part)
    else if Has(kids, part) then kids
    else InsertAt(kids, Find(kids, anchor), PartEl(part))
  }

  /** Leading icon before the control, trailing one before the reveal toggle. */
  ghost function SetIcons(kids: seq<Elem>, props: Props, control: PartName): seq<Elem> {
    var k := SetPart(kids, Wanted(props, LeadingIcon), Leading, control);
    SetPart(k, Wanted(props, TrailingIcon), Trailing, Reveal)
  }

  predicate IsSecure(props: Props) {
    Secure in props && props[Secure] == Bool(true)
  }

  ghost function SetReveal(kids: seq<Elem>, props: Props): seq<Elem> {
    if Secure !in props then kids
    else if !IsSecure(props) then Dropped(kids, Reveal)
    else EnsureBack(kids, Reveal)
  }

  /** Right after the select, or last when there is none. */
  ghost function WithChevron(kids: seq<Elem>): seq<Elem> {
    InsertAt(kids, Min(Find(kids, SelectControl) + 1, |kids|), PartEl(Chevron))
  }

  ghost function EnsureChevron(kids: seq<Elem>): seq<Elem> {
    if Has(kids, Chevron) then kids else WithChevron(kids)
  }

  /** The chevron stands in the trailing slot unless the app put an icon there. */
  ghost function SetChevron(kids: seq<Elem>): seq<Elem> {
    if Has(kids, Trailing) then Dropped(kids, Chevron) else EnsureChevron(kids)
  }

  function DropAll(kids: seq<Elem>, name: PartName): seq<Elem> {
    if kids == [] then []
    else (if IsPart(kids[0], name) then [] else [kids[0]]) + DropAll(kids[1..], name)
  }

  function Copies(name: PartName, n: nat): (r: seq<Elem>)
    ensures |r| == n
  {
    seq(n, i => PartEl(name))
  }

  /** How many rows an array prop draws; anything else draws none. */
  function Rows(v: Value): nat {
    if v.Arr? then |v.items| else 0
  }

  // ---- One pass of props over one element --------------------------------------

  /** A labelled wrapper around one native control. */
  predicate Nested(kind: Kind) {
    kind.Checkbox? || kind.Switch? || kind.DatePicker? || kind.TimePicker? || kind.FilePicker?
  }

  /** A widget the renderer puts elements of its own into. */
  predicate Drawn(kind: Kind) {
    !kind.Text? && !kind.Button? && !kind.Toast? && !kind.OtherKind?
  }

  /** Props written as the element's text, which removes every child element. */
  predicate Blanks(kind: Kind, props: Props) {
    || Content in props
    || (kind.Button? && Label in props)
    || (kind.Toast? && Message in props)
  }

  /** An icon is drawn when the tables know its name. */
  predicate Resolves(props: Props) {
    Name in props && props[Name].IconName? && props[Name].known
  }

  /** What a pass goes by: an icon being redrawn remembers the name it was given. */
  function Told(kind: Kind, was: Props, u: Props): Props {
    if kind.IconWidget? && Size in u && Name !in u && Name in was then u[Name := was[Name]] else u
  }

  /** A control with icons around it. */
  predicate IsField(kind: Kind) {
    kind.Input? || kind.Dropdown? || kind.Autocomplete?
  }

  /** A widget whose parts are drawn afresh when a prop says so. */
  predicate Redraws(kind: Kind) {
    kind.IconWidget? || kind.TabBar? || kind.Menu? || kind.ActionSheet?
  }

  ghost function PaintField(kind: Kind, kids: seq<Elem>, props: Props): seq<Elem> {
    if kind.Input? then SetIcons(SetReveal(EnsureFront(kids, InputControl), props), props, InputControl)
    else if kind.Dropdown? then SetChevron(SetIcons(EnsureFront(kids, SelectControl), props, SelectControl))
    else SetIcons(EnsureBack(EnsureFront(kids, InputControl), DataList), props, InputControl)
  }

  function Redrawn(kind: Kind, kids: seq<Elem>, props: Props): seq<Elem> {
    if kind.IconWidget? then if Name in props || Size in props then Maybe(Resolves(props), Outline) else kids
    else if kind.TabBar? then if Tabs in props then Copies(Tab, Rows(props[Tabs])) else kids
    else PaintItems(kids, props)
  }

  ghost function PaintFixed(kind: Kind, kids: seq<Elem>, props: Props): seq<Elem> {
    if Nested(kind) then EnsureFront(kids, InputControl)
    else if kind.RangeSlider? then EnsureBack(EnsureBack(kids, LowThumb), HighThumb)
    else if kind.ProgressBar? then EnsureBack(kids, Fill)
    else if kind.RefreshControl? then EnsureBack(kids, Spinner)
    else if kind.IconButton? && Icon in props then EnsureBack(kids, Glyph)
    else kids
  }

  /** What painting makes of the children an element has. */
  ghost function PaintOn(kind: Kind, kids: seq<Elem>, props: Props): seq<Elem> {
    if IsField(kind) then PaintField(kind, kids, props)
    else if Redraws(kind) then Redrawn(kind, kids, props)
    else PaintFixed(kind, kids, props)
  }

  /** The children after one pass of props over an element of this kind. */
  ghost function Paint(kind: Kind, kids: seq<Elem>, props: Props): seq<Elem> {
    PaintOn(kind, if Blanks(kind, props) then [] else kids, props)
  }

  function PaintItems(kids: seq<Elem>, props: Props): seq<Elem> {
    if Items in props then DropAll(kids, MenuItem) + Copies(MenuItem, Rows(props[Items])) else kids
  }

  /** A run of passes: what an element's children are after those updates. */
  ghost function PaintAll(kind: Kind, was: Props, kids: seq<Elem>, updates: seq<Props>): seq<Elem>
    decreases |updates|
  {
    if updates == [] then kids
    else PaintAll(kind, was + updates[0], Paint(kind, kids, Told(kind, was, updates[0])), updates[1..])
  }

  function Accumulated(base: Props, updates: seq<Props>): Props
    decreases |updates|
  {
    if updates == [] then base else Accumulated(base + updates[0], updates[1..])
  }

  // ---- The law ------------------------------------------------------------------

  function Maybe(present: bool, name: PartName): seq<Elem> {
    if present then [PartEl(name)] else []
  }

  /** Icons around the controls, a last part after them. */
  function Field(lead: bool, controls: seq<Elem>, trail: bool, last: seq<Elem>): seq<Elem> {
    Maybe(lead, Leading) + controls + Maybe(trail, Trailing) + last
  }

  function RowsOf(props: Props, prop: Prop): nat {
    if prop in props then Rows(props[prop]) else 0
  }

  function FieldLayout(kind: Kind, props: Props): seq<Elem> {
    var lead, trail := Shown(props, LeadingIcon), Shown(props, TrailingIcon);
    if kind.Input? then Field(lead, [PartEl(InputControl)], trail, Maybe(IsSecure(props), Reveal))
    else if kind.Dropdown? then Field(lead, [PartEl(SelectControl)], trail, Maybe(!trail, Chevron))
    else Field(lead, [PartEl(InputControl), PartEl(DataList)], trail, [])
  }

  function RedrawnLayout(kind: Kind, props: Props): seq<Elem> {
    if kind.IconWidget? then Maybe(Resolves(props), Outline)
    else if kind.TabBar? then Copies(Tab, RowsOf(props, Tabs))
    else Copies(MenuItem, RowsOf(props, Items))
  }

  function FixedLayout(kind: Kind, props: Props): seq<Elem> {
    if Nested(kind) then [PartEl(InputControl)]
    else if kind.RangeSlider? then [PartEl(LowThumb), PartEl(HighThumb)]
    else if kind.ProgressBar? then [PartEl(Fill)]
    else if kind.RefreshControl? then [PartEl(Spinner)]
    else if kind.IconButton? then Maybe(Icon in props, Glyph)
    else []
  }

  /** The children a drawn widget has, as a function of its accumulated props. */
  function Layout(kind: Kind, props: Props): seq<Elem> {
    if IsField(kind) then FieldLayout(kind, props)
    else if Redraws(kind) then RedrawnLayout(kind, props)
    else FixedLayout(kind, props)
  }

  /** An icon's text, when the prop is there. */
  predicate Named(props: Props, prop: Prop) {
    prop in props && TextOf(props[prop]) != ""
  }

  /** A field whose text can be revealed: `secure` that is `true`. */
  predicate Hides(kind: Kind, props: Props) {
    kind.Input? && Secure in props && props[Secure] == Bool(true)
  }

  lemma FieldHolds(lead: bool, controls: seq<Elem>, trail: bool, last: seq<Elem>, e: Elem)
    requires controls != []
    ensures e in Field(lead, controls, trail, last)
            <==> (lead && e == PartEl(Leading)) || e in controls || (trail && e == PartEl(Trailing)) || e in last
  {
    var k := Field(lead, controls, trail, last);
    assert k == Maybe(lead, Leading) + (controls + (Maybe(trail, Trailing) + last));
  }

  lemma FieldEnds(lead: bool, controls: seq<Elem>, trail: bool, last: seq<Elem>)
    requires controls != [] && |last| <= 1
    ensures var k := Field(lead, controls, trail, last);
            && (lead ==> k[0] == PartEl(Leading))
            && (last != [] ==> k[|k| - 1] == last[0])
            && (trail ==> k[|k| - 1 - |last|] == PartEl(Trailing))
            && |k| == |controls| + |last| + (if lead then 1 else 0) + if trail then 1 else 0
  {
  }

  /** The arguments a field's layout is made of. */
  function ControlsOf(kind: Kind): seq<Elem> {
    if kind.Input? then [PartEl(InputControl)]
    else if kind.Dropdown? then [PartEl(SelectControl)]
    else [PartEl(InputControl), PartEl(DataList)]
  }

  function LastOf(kind: Kind, hides: bool, trail: bool): seq<Elem> {
    if kind.Input? then Maybe(hides, Reveal) else if kind.Dropdown? then Maybe(!trail, Chevron) else []
  }

  lemma FieldIs(kind: Kind, props: Props)
    requires IsField(kind)
    ensures var trail := Named(props, TrailingIcon);
            Layout(kind, props)
              == Field(Named(props, LeadingIcon), ControlsOf(kind), trail, LastOf(kind, Hides(kind, props), trail))
  {
    if LeadingIcon in props { EmptyTextExactly(props[LeadingIcon]); }
    if TrailingIcon in props { EmptyTextExactly(props[TrailingIcon]); }
  }

  /** Which values draw what in a field: an icon for a prop whose text is not empty, a
      reveal toggle for `secure` that is `true` and nothing else, a chevron while there is no
      trailing icon. */
  lemma FieldShows(kind: Kind, props: Props)
    requires IsField(kind)
    ensures var k := Layout(kind, props);
            && (PartEl(Leading) in k <==> Named(props, LeadingIcon))
            && (PartEl(Trailing) in k <==> Named(props, TrailingIcon))
            && (PartEl(Reveal) in k <==> Hides(kind, props))
            && (PartEl(Chevron) in k <==> kind.Dropdown? && !Named(props, TrailingIcon))
            && (PartEl(SelectControl) in k <==> kind.Dropdown?)
            && (PartEl(InputControl) in k <==> !kind.Dropdown?)
            && (PartEl(DataList) in k <==> kind.Autocomplete?)
  {
    var lead, trail := Named(props, LeadingIcon), Named(props, TrailingIcon);
    var controls, last := ControlsOf(kind), LastOf(kind, Hides(kind, props), trail);
    FieldIs(kind, props);
    FieldHolds(lead, controls, trail, last, PartEl(Leading));
    FieldHolds(lead, controls, trail, last, PartEl(Trailing));
    FieldHolds(lead, controls, trail, last, PartEl(Reveal));
    FieldHolds(lead, controls, trail, last, PartEl(Chevron));
    FieldHolds(lead, controls, trail, last, PartEl(SelectControl));
    FieldHolds(lead, controls, trail, last, PartEl(InputControl));
    FieldHolds(lead, controls, trail, last, PartEl(DataList));
  }

  /** And where: the leading icon first, the trailing one last but for the toggle, and
      nothing twice. */
  lemma FieldPlaces(kind: Kind, props: Props)
    requires IsField(kind)
    ensures var k, lead, trail := Layout(kind, props), Named(props, LeadingIcon), Named(props, TrailingIcon);
            && (lead ==> k != [] && k[0] == PartEl(Leading))
            && (Hides(kind, props) ==> k != [] && k[|k| - 1] == PartEl(Reveal))
            && (trail ==> |k| >= 2 && k[|k| - if Hides(kind, props) then 2 else 1] == PartEl(Trailing))
            && |k| == (if lead then 1 else 0) + (if kind.Autocomplete? then 2 else 1) + (if trail then 1 else 0)
                      + if Hides(kind, props) || (kind.Dropdown? && !trail) then 1 else 0
  {
    var trail := Named(props, TrailingIcon);
    FieldIs(kind, props);
    FieldEnds(Named(props, LeadingIcon), ControlsOf(kind), trail, LastOf(kind, Hides(kind, props), trail));
  }

  /** How many rows a redrawn widget shows: one for each entry of an array, none for
      anything else; an icon its outline exactly when its name is one the tables know. */
  lemma RedrawnShows(kind: Kind, props: Props)
    requires Redraws(kind)
    ensures var k := Layout(kind, props);
            && (kind.IconWidget? ==>
                  k == if Name in props && props[Name].IconName? && props[Name].known then [PartEl(Outline)] else [])
            && (kind.TabBar? ==>
                  && |k| == (if Tabs in props && props[Tabs].Arr? then |props[Tabs].items| else 0)
                  && forall i :: 0 <= i < |k| ==> k[i] == PartEl(Tab))
            && (kind.Menu? || kind.ActionSheet? ==>
                  && |k| == (if Items in props && props[Items].Arr? then |props[Items].items| else 0)
                  && forall i :: 0 <= i < |k| ==> k[i] == PartEl(MenuItem))
  {
  }

  /** The widgets whose parts are always the same, and the button whose glyph comes with
      its first icon, whatever the icon's value. */
  lemma FixedShows(kind: Kind, props: Props)
    ensures kind.Checkbox? || kind.Switch? || kind.DatePicker? || kind.TimePicker? || kind.FilePicker? ==>
              Layout(kind, props) == [PartEl(InputControl)]
    ensures kind.RangeSlider? ==> Layout(kind, props) == [PartEl(LowThumb), PartEl(HighThumb)]
    ensures kind.ProgressBar? ==> Layout(kind, props) == [PartEl(Fill)]
    ensures kind.RefreshControl? ==> Layout(kind, props) == [PartEl(Spinner)]
    ensures kind.IconButton? ==> Layout(kind, props) == if Icon in props then [PartEl(Glyph)] else []
    ensures kind.CameraPreview? || kind.QrScanner? ==> Layout(kind, props) == []
  {
  }

  /** Into any other widget the renderer draws nothing; a pass takes its children away exactly
      when it writes text: `content` on any of them, `label` on a Button, `message` on a
      Toast. */
  lemma TextClears(kind: Kind, kids: seq<Elem>, props: Props)
    requires kind.Text? || kind.Button? || kind.Toast? || kind.OtherKind?
    ensures var writes := Content in props || (kind.Button? && Label in props) || (kind.Toast? && Message in props);
            Paint(kind, kids, props) == if writes then [] else kids
  {
  }

  lemma FindIs(kids: seq<Elem>, name: PartName, i: nat)
    requires FirstAt(kids, name, i)
    ensures Find(kids, name) == i
  {
  }

  predicate FieldControls(controls: seq<Elem>) {
    || controls == [PartEl(InputControl)]
    || controls == [PartEl(SelectControl)]
    || controls == [PartEl(InputControl), PartEl(DataList)]
  }

  predicate FieldLast(last: seq<Elem>) {
    last == [] || last == [PartEl(Reveal)] || last == [PartEl(Chevron)]
  }

  lemma FieldTags(lead: bool, controls: seq<Elem>, trail: bool, last: seq<Elem>)
    requires FieldControls(controls) && FieldLast(last)
    ensures Placed(Field(lead, controls, trail, last), lead, controls, trail, last)
  {
  }

  /** The tags of a field's children, place by place. */
  predicate Placed(k: seq<Elem>, lead: bool, controls: seq<Elem>, trail: bool, last: seq<Elem>)
    requires controls != []
  {
    var a := if lead then 1 else 0;
    var c := a + |controls|;
    var d := if trail then c + 1 else c;
    && |k| == d + |last|
    && (lead ==> k[0] == PartEl(Leading))
    && k[a] == controls[0]
    && (|controls| == 2 ==> k[a + 1] == controls[1])
    && (trail ==> k[c] == PartEl(Trailing))
    && (last != [] ==> k[d] == last[0])
  }

  /** Where each part of a field stands. */
  lemma FieldFind(lead: bool, controls: seq<Elem>, trail: bool, last: seq<Elem>)
    requires FieldControls(controls) && FieldLast(last)
    ensures var k := Field(lead, controls, trail, last);
            var a := if lead then 1 else 0;
            var c := a + |controls|;
            var d := if trail then c + 1 else c;
            && |k| == d + |last|
            && Find(k, Leading) == (if lead then 0 else |k|)
            && Find(k, controls[0].tag.name) == a
            && Find(k, Trailing) == (if trail then c else |k|)
            && Find(k, Reveal) == (if last == [PartEl(Reveal)] then d else |k|)
            && Find(k, Chevron) == (if last == [PartEl(Chevron)] then d else |k|)
            && (|controls| == 2 ==> Find(k, DataList) == a + 1)
  {
    FieldTags(lead, controls, trail, last);
    PlacedFind(Field(lead, controls, trail, last), lead, controls, trail, last);
  }

  lemma PlacedFind(k: seq<Elem>, lead: bool, controls: seq<Elem>, trail: bool, last: seq<Elem>)
    requires FieldControls(controls) && FieldLast(last) && Placed(k, lead, controls, trail, last)
    ensures var a := if lead then 1 else 0;
            var c := a + |controls|;
            var d := if trail then c + 1 else c;
            && Find(k, Leading) == (if lead then 0 else |k|)
            && Find(k, controls[0].tag.name) == a
            && Find(k, Trailing) == (if trail then c else |k|)
            && Find(k, Reveal) == (if last == [PartEl(Reveal)] then d else |k|)
            && Find(k, Chevron) == (if last == [PartEl(Chevron)] then d else |k|)
            && (|controls| == 2 ==> Find(k, DataList) == a + 1)
  {
    var a := if lead then 1 else 0;
    var c := a + |controls|;
    var d := if trail then c + 1 else c;
    FindIs(k, Leading, if lead then 0 else |k|);
    FindIs(k, controls[0].tag.name, a);
    FindIs(k, Trailing, if trail then c else |k|);
    FindIs(k, Reveal, if last == [PartEl(Reveal)] then d else |k|);
    FindIs(k, Chevron, if last == [PartEl(Chevron)] then d else |k|);
    if |controls| == 2 {
      FindIs(k, DataList, a + 1);
    }
  }

  function Slot(front: seq<Elem>, present: bool, part: PartName, back: seq<Elem>): seq<Elem> {
    front + Maybe(present, part) + back
  }

  function Updated(present: bool, wanted: Option<bool>): bool {
    if wanted.None? then present else wanted.value
  }

  /** A part whose place is known comes and goes without moving anything else. */
  lemma PartSlot(front: seq<Elem>, back: seq<Elem>, present: bool, wanted: Option<bool>, part: PartName,
                 anchor: PartName)
    requires present ==> Find(Slot(front, true, part, back), part) == |front|
    requires !present ==> Find(front + back, part) == |front + back|
    requires !present ==> Find(front + back, anchor) == |front|
    ensures SetPart(Slot(front, present, part, back), wanted, part, anchor)
         == Slot(front, Updated(present, wanted), part, back)
  {
    assert Slot(front, false, part, back) == front + back;
    var full := Slot(front, true, part, back);
    assert full[..|front|] == front && full[|front| + 1..] == back;
    assert (front + back)[..|front|] == front && (front + back)[|front|..] == back;
  }

  lemma LeadingSlot(l: bool, controls: seq<Elem>, trail: bool, last: seq<Elem>)
    ensures Field(l, controls, trail, last) == Slot([], l, Leading, controls + Maybe(trail, Trailing) + last)
  {
  }

  lemma LeadingLaw(controls: seq<Elem>, lead: bool, wanted: Option<bool>, trail: bool, last: seq<Elem>)
    requires FieldControls(controls) && FieldLast(last)
    ensures SetPart(Field(lead, controls, trail, last), wanted, Leading, controls[0].tag.name)
         == Field(Updated(lead, wanted), controls, trail, last)
  {
    var rest := controls + Maybe(trail, Trailing) + last;
    LeadingSlot(lead, controls, trail, last);
    LeadingSlot(true, controls, trail, last);
    LeadingSlot(false, controls, trail, last);
    FieldFind(lead, controls, trail, last);
    assert [] + rest == Slot([], false, Leading, rest);
    PartSlot([], rest, lead, wanted, Leading, controls[0].tag.name);
  }

  lemma TrailingLaw(lead: bool, controls: seq<Elem>, trail: bool, wanted: Option<bool>, last: seq<Elem>)
    requires FieldControls(controls) && (last == [] || last == [PartEl(Reveal)])
    ensures SetPart(Field(lead, controls, trail, last), wanted, Trailing, Reveal)
         == Field(lead, controls, Updated(trail, wanted), last)
  {
    var front := Maybe(lead, Leading) + controls;
    FieldFind(lead, controls, trail, last);
    assert front + last == Field(lead, controls, false, last);
    PartSlot(front, last, trail, wanted, Trailing, Reveal);
  }

  /** Setting both icons moves a field to the icons its merged props ask for. */
  lemma IconsLaw(b: Props, u: Props, controls: seq<Elem>, last: seq<Elem>)
    requires FieldControls(controls) && (last == [] || last == [PartEl(Reveal)])
    ensures SetIcons(Field(Shown(b, LeadingIcon), controls, Shown(b, TrailingIcon), last), u, controls[0].tag.name)
         == Field(Shown(b + u, LeadingIcon), controls, Shown(b + u, TrailingIcon), last)
  {
    LeadingLaw(controls, Shown(b, LeadingIcon), Wanted(u, LeadingIcon), Shown(b, TrailingIcon), last);
    TrailingLaw(Shown(b + u, LeadingIcon), controls, Shown(b, TrailingIcon), Wanted(u, TrailingIcon), last);
  }

  lemma InputLaw(b: Props, u: Props)
    requires !Blanks(Input, u)
    ensures Paint(Input, Layout(Input, b), u) == Layout(Input, b + u)
  {
    var lead, trail, rev := Shown(b, LeadingIcon), Shown(b, TrailingIcon), IsSecure(b);
    FieldFind(lead, [PartEl(InputControl)], trail, Maybe(rev, Reveal));
    var k := Layout(Input, b);
    assert EnsureFront(k, InputControl) == k;
    var last := Maybe(IsSecure(b + u), Reveal);
    assert SetReveal(k, u) == Field(lead, [PartEl(InputControl)], trail, last);
    IconsLaw(b, u, [PartEl(InputControl)], last);
  }

  lemma AutocompleteLaw(b: Props, u: Props)
    requires !Blanks(Autocomplete, u)
    ensures Paint(Autocomplete, Layout(Autocomplete, b), u) == Layout(Autocomplete, b + u)
  {
    var controls := [PartEl(InputControl), PartEl(DataList)];
    FieldFind(Shown(b, LeadingIcon), controls, Shown(b, TrailingIcon), []);
    IconsLaw(b, u, controls, []);
  }

  /** A chevron that finds itself beside a trailing icon steps aside. */
  lemma ChevronYields(lead: bool)
    ensures var k := Field(lead, [PartEl(SelectControl)], false, [PartEl(Chevron)]) + [PartEl(Trailing)];
            SetChevron(k) == Field(lead, [PartEl(SelectControl)], true, [])
  {
    var k0 := Field(lead, [PartEl(SelectControl)], false, [PartEl(Chevron)]);
    var k := k0 + [PartEl(Trailing)];
    var c := |k0| - 1;
    FieldFind(lead, [PartEl(SelectControl)], false, [PartEl(Chevron)]);
    FindIs(k, Trailing, |k0|);
    FindIs(k, Chevron, c);
  }

  /** With no chevron yet, one is drawn exactly when the trailing slot is free. */
  lemma ChevronSettles(lead: bool, trail: bool)
    ensures SetChevron(Field(lead, [PartEl(SelectControl)], trail, []))
         == Field(lead, [PartEl(SelectControl)], trail, Maybe(!trail, Chevron))
  {
    FieldFind(lead, [PartEl(SelectControl)], trail, []);
    var k := Field(lead, [PartEl(SelectControl)], trail, []);
    if !trail {
      assert InsertAt(k, |k|, PartEl(Chevron)) == k + [PartEl(Chevron)];
    }
  }

  lemma ChevronStays(lead: bool, wanted: Option<bool>)
    requires wanted != Some(true)
    ensures var k := Field(lead, [PartEl(SelectControl)], false, [PartEl(Chevron)]);
            SetChevron(SetPart(k, wanted, Trailing, Reveal)) == k
  {
    FieldFind(lead, [PartEl(SelectControl)], false, [PartEl(Chevron)]);
  }

  lemma ChevronLeaves(lead: bool)
    ensures var k := Field(lead, [PartEl(SelectControl)], false, [PartEl(Chevron)]);
            SetChevron(SetPart(k, Some(true), Trailing, Reveal)) == Field(lead, [PartEl(SelectControl)], true, [])
  {
    var k := Field(lead, [PartEl(SelectControl)], false, [PartEl(Chevron)]);
    FieldFind(lead, [PartEl(SelectControl)], false, [PartEl(Chevron)]);
    assert InsertAt(k, |k|, PartEl(Trailing)) == k + [PartEl(Trailing)];
    ChevronYields(lead);
  }

  /** A trailing icon and a chevron never stand together. */
  lemma ChevronLaw(lead: bool, trail: bool, wanted: Option<bool>)
    ensures var k := Field(lead, [PartEl(SelectControl)], trail, Maybe(!trail, Chevron));
            var t := Updated(trail, wanted);
            SetChevron(SetPart(k, wanted, Trailing, Reveal))
              == Field(lead, [PartEl(SelectControl)], t, Maybe(!t, Chevron))
  {
    if trail {
      TrailingLaw(lead, [PartEl(SelectControl)], true, wanted, []);
      ChevronSettles(lead, Updated(true, wanted));
    } else if wanted == Some(true) {
      ChevronLeaves(lead);
    } else {
      ChevronStays(lead, wanted);
    }
  }

  lemma SelectStays(b: Props)
    ensures EnsureFront(Layout(Dropdown, b), SelectControl) == Layout(Dropdown, b)
  {
    var trail := Shown(b, TrailingIcon);
    FieldFind(Shown(b, LeadingIcon), [PartEl(SelectControl)], trail, Maybe(!trail, Chevron));
  }

  lemma DropdownLaw(b: Props, u: Props)
    requires !Blanks(Dropdown, u)
    ensures Paint(Dropdown, Layout(Dropdown, b), u) == Layout(Dropdown, b + u)
  {
    var lead, trail := Shown(b, LeadingIcon), Shown(b, TrailingIcon);
    SelectStays(b);
    LeadingLaw([PartEl(SelectControl)], lead, Wanted(u, LeadingIcon), trail, Maybe(!trail, Chevron));
    ChevronLaw(Shown(b + u, LeadingIcon), trail, Wanted(u, TrailingIcon));
  }

  lemma {:induction false} DropAllCopies(name: PartName, n: nat)
    ensures DropAll(Copies(name, n), name) == []
  {
    if n > 0 {
      assert Copies(name, n)[1..] == Copies(name, n - 1);
      DropAllCopies(name, n - 1);
    }
  }

  lemma SingleLaw(name: PartName)
    ensures EnsureFront([PartEl(name)], name) == EnsureBack([PartEl(name)], name) == [PartEl(name)]
    ensures EnsureFront([], name) == EnsureBack([], name) == [PartEl(name)]
  {
    FindIs([PartEl(name)], name, 0);
  }

  lemma RangeLaw()
    ensures var k := [PartEl(LowThumb), PartEl(HighThumb)];
            EnsureBack(EnsureBack(k, LowThumb), HighThumb) == EnsureBack(EnsureBack([], LowThumb), HighThumb) == k
  {
    var k := [PartEl(LowThumb), PartEl(HighThumb)];
    FindIs(k, LowThumb, 0);
    FindIs(k, HighThumb, 1);
    SingleLaw(LowThumb);
    FindIs([PartEl(LowThumb)], HighThumb, 1);
  }

  /** The kinds whose parts do not depend on where an update finds them. */
  lemma FixedLaw(kind: Kind, b: Props, u: Props)
    requires Drawn(kind) && !IsField(kind) && !Redraws(kind)
    ensures PaintFixed(kind, FixedLayout(kind, b), u) == FixedLayout(kind, b + u)
  {
    RangeLaw();
    SingleLaw(Fill);
    SingleLaw(Spinner);
    SingleLaw(Glyph);
    SingleLaw(InputControl);
  }

  lemma RedrawnLaw(kind: Kind, b: Props, u: Props)
    requires Redraws(kind)
    ensures Redrawn(kind, RedrawnLayout(kind, b), Told(kind, b, u)) == RedrawnLayout(kind, b + u)
  {
    DropAllCopies(MenuItem, RowsOf(b, Items));
  }

  /** One update takes a drawn widget from the children its props ask for to the
      children its merged props ask for. */
  lemma PaintLaw(kind: Kind, b: Props, u: Props)
    requires Drawn(kind) && !Blanks(kind, u)
    ensures Paint(kind, Layout(kind, b), Told(kind, b, u)) == Layout(kind, b + u)
  {
    if kind.Input? {
      InputLaw(b, u);
    } else if kind.Dropdown? {
      DropdownLaw(b, u);
    } else if kind.Autocomplete? {
      AutocompleteLaw(b, u);
    } else if Redraws(kind) {
      RedrawnLaw(kind, b, u);
    } else {
      FixedLaw(kind, b, u);
    }
  }

  predicate Renews(prop: Prop, u: Props, shown: bool) {
    prop in u || !shown
  }

  /** The update mentions again every prop whose part was showing. */
  predicate RenewsParts(kind: Kind, b: Props, u: Props) {
    if IsField(kind) then
      && Renews(LeadingIcon, u, Shown(b, LeadingIcon))
      && Renews(TrailingIcon, u, Shown(b, TrailingIcon))
      && (kind.Input? ==> Renews(Secure, u, IsSecure(b)))
    else if kind.IconWidget? then Renews(Name, u, Resolves(b)) || Size in u
    else if kind.TabBar? then Renews(Tabs, u, RowsOf(b, Tabs) > 0)
    else if Redraws(kind) then Renews(Items, u, RowsOf(b, Items) > 0)
    else kind.IconButton? ==> Renews(Icon, u, Icon in b)
  }

  lemma FieldInjective(controls: seq<Elem>, l: bool, t: bool, last: seq<Elem>, l': bool, t': bool, last': seq<Elem>)
    requires FieldControls(controls) && FieldLast(last) && FieldLast(last')
    ensures Field(l, controls, t, last) == Field(l', controls, t', last') <==> l == l' && t == t' && last == last'
  {
    FieldFind(l, controls, t, last);
    FieldFind(l', controls, t', last');
  }

  lemma RenewedField(kind: Kind, b: Props, u: Props)
    requires IsField(kind)
    ensures FieldLayout(kind, u) == FieldLayout(kind, b + u) <==> RenewsParts(kind, b, u)
  {
    var m := b + u;
    var t, t' := Shown(u, TrailingIcon), Shown(m, TrailingIcon);
    if kind.Input? {
      FieldInjective([PartEl(InputControl)], Shown(u, LeadingIcon), t, Maybe(IsSecure(u), Reveal),
                     Shown(m, LeadingIcon), t', Maybe(IsSecure(m), Reveal));
    } else if kind.Dropdown? {
      FieldInjective([PartEl(SelectControl)], Shown(u, LeadingIcon), t, Maybe(!t, Chevron),
                     Shown(m, LeadingIcon), t', Maybe(!t', Chevron));
    } else {
      var body := [PartEl(InputControl), PartEl(DataList)];
      FieldInjective(body, Shown(u, LeadingIcon), t, [], Shown(m, LeadingIcon), t', []);
    }
  }

  lemma RenewedRows(name: PartName, b: Props, u: Props, prop: Prop)
    ensures Copies(name, RowsOf(u, prop)) == Copies(name, RowsOf(b + u, prop)) <==> Renews(prop, u, RowsOf(b, prop) > 0)
  {
    assert |Copies(name, RowsOf(u, prop))| == RowsOf(u, prop);
    assert |Copies(name, RowsOf(b + u, prop))| == RowsOf(b + u, prop);
  }

  /** What the update shows by itself and what the merged props show agree exactly when
      it renews what was showing. */
  lemma RenewedLayout(kind: Kind, b: Props, u: Props)
    requires Drawn(kind)
    ensures Layout(kind, Told(kind, b, u)) == Layout(kind, b + u) <==> RenewsParts(kind, b, u)
  {
    if IsField(kind) {
      RenewedField(kind, b, u);
    } else if Redraws(kind) {
      RenewedRows(Tab, b, u, Tabs);
      RenewedRows(MenuItem, b, u, Items);
    }
  }

  /** An update that writes text wipes the parts first, and so forgets what earlier
      props asked for: the law holds for it exactly when it mentions again every prop
      whose part was showing. */
  lemma BlankingForgets(kind: Kind, b: Props, u: Props)
    requires Drawn(kind) && Blanks(kind, u)
    ensures Paint(kind, Layout(kind, b), Told(kind, b, u)) == Layout(kind, b + u) <==> RenewsParts(kind, b, u)
  {
    FreshLaw(kind, Told(kind, b, u));
    RenewedLayout(kind, b, u);
  }

  lemma BlankingLosesAnIcon()
    ensures var b, u := map[LeadingIcon := Str("user")], map[Content := Null];
            Paint(Input, Layout(Input, b), u) != Layout(Input, b + u)
  {
    var b, u: Props := map[LeadingIcon := Str("user")], map[Content := Null];
    BlankingForgets(Input, b, u);
    assert !EmptyText(Str("user")) && Shown(b, LeadingIcon);
  }

  lemma FreshInput(u: Props)
    ensures Paint(Input, [], u) == Layout(Input, u)
  {
    var input := [PartEl(InputControl)];
    SingleLaw(InputControl);
    FieldFind(false, input, false, []);
    var last := Maybe(IsSecure(u), Reveal);
    assert input == Field(false, input, false, []);
    assert InsertAt(input, |input|, PartEl(Reveal)) == Field(false, input, false, [PartEl(Reveal)]);
    assert SetReveal(input, u) == Field(false, input, false, last);
    IconsLaw(map[], u, input, last);
    assert map[] + u == u;
  }

  lemma FreshDropdown(u: Props)
    ensures Paint(Dropdown, [], u) == Layout(Dropdown, u)
  {
    var select := [PartEl(SelectControl)];
    SingleLaw(SelectControl);
    assert select == Field(false, select, false, []);
    IconsLaw(map[], u, select, []);
    assert map[] + u == u;
    ChevronSettles(Shown(u, LeadingIcon), Shown(u, TrailingIcon));
  }

  lemma FreshAutocomplete(u: Props)
    ensures Paint(Autocomplete, [], u) == Layout(Autocomplete, u)
  {
    var input, controls := [PartEl(InputControl)], [PartEl(InputControl), PartEl(DataList)];
    SingleLaw(InputControl);
    FindIs(input, DataList, 1);
    assert EnsureBack(input, DataList) == controls == Field(false, controls, false, []);
    IconsLaw(map[], u, controls, []);
    assert map[] + u == u;
  }

  /** Building a drawn widget gives it the children its props ask for. */
  lemma FreshLaw(kind: Kind, u: Props)
    requires Drawn(kind)
    ensures Paint(kind, [], u) == Layout(kind, u)
  {
    if kind.Input? {
      FreshInput(u);
    } else if kind.Dropdown? {
      FreshDropdown(u);
    } else if kind.Autocomplete? {
      FreshAutocomplete(u);
    } else {
      RangeLaw();
      SingleLaw(Fill);
      SingleLaw(Spinner);
      SingleLaw(Glyph);
      SingleLaw(InputControl);
    }
  }

  /** Parts depend on the accumulated props, not on the updates they came in: any
      run of updates ends where one build with the merged props would. */
  lemma {:induction false} HistoryLaw(kind: Kind, first: Props, updates: seq<Props>)
    requires Drawn(kind)
    requires forall i :: 0 <= i < |updates| ==> !Blanks(kind, updates[i])
    ensures PaintAll(kind, first, Paint(kind, [], first), updates) == Layout(kind, Accumulated(first, updates))
    ensures PaintAll(kind, first, Paint(kind, [], first), updates) == Paint(kind, [], Accumulated(first, updates))
    decreases |updates|
  {
    FreshLaw(kind, first);
    FreshLaw(kind, Accumulated(first, updates));
    if updates != [] {
      PaintLaw(kind, first, updates[0]);
      FreshLaw(kind, first + updates[0]);
      HistoryLaw(kind, first + updates[0], updates[1..]);
    }
  }
}
