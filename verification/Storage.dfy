/**
 Owner-scoped storage over one flat key space. The owner is folded into the key, so
 what has to be shown is that this behaves as a separate map per owner.
 */
module Storage {
  import opened Common

  const SEP: char := '\0'

  predicate Plain(s: string) {
    SEP !in s
  }

  function ScopedKey(owner: string, name: string): string {
    if owner != "" then owner + [SEP] + name else name
  }

  /** A listing narrowed to one owner's names, in listing order. */
  function OwnedNames(owner: string, keys: seq<string>): seq<string> {
    if keys == [] then []
    else
      (if owner == "" then (if Plain(keys[0]) then [keys[0]] else [])
       else if owner + [SEP] <= keys[0] then [keys[0][|owner| + 1..]] else [])
      + OwnedNames(owner, keys[1..])
  }

  // ---- Keys and pairs -----------------------------------------------------------------------

  datatype Slot = Slot(owner: string, name: string)

  /** Owners hold no separator; nor do the names of the default owner. */
  predicate Addressable(s: Slot) {
    Plain(s.owner) && (s.owner == "" ==> Plain(s.name))
  }

  function KeyOf(s: Slot): string {
    ScopedKey(s.owner, s.name)
  }

  function FirstSep(key: string): (i: nat)
    ensures i <= |key|
    ensures Plain(key[..i])
    ensures i < |key| ==> key[i] == SEP
    ensures Plain(key) <==> i == |key|
  {
    if key == [] || key[0] == SEP then 0 else 1 + FirstSep(key[1..])
  }

  /** The pair a stored key stands for: a raw key belongs to the default owner. */
  function SlotOf(key: string): Slot {
    var i := FirstSep(key);
    if i == |key| then Slot("", key) else Slot(key[..i], key[i + 1..])
  }

  lemma {:induction false} FirstSepAt(a: string, b: string)
    requires Plain(a)
    ensures FirstSep(a + [SEP] + b) == |a|
  {
    var key := a + [SEP] + b;
    if a != [] {
      assert a[0] in a && key[0] == a[0];
      assert key[1..] == a[1..] + [SEP] + b;
      FirstSepAt(a[1..], b);
    }
  }

  /** Pairs and keys correspond one to one; only keys that start with the separator
      stand for no pair. */
  lemma KeysAreSlots(s: Slot)
    requires Addressable(s)
    ensures SlotOf(KeyOf(s)) == s
    ensures KeyOf(s) != [] ==> KeyOf(s)[0] != SEP
  {
    if s.owner != "" {
      FirstSepAt(s.owner, s.name);
      var key := KeyOf(s);
      assert key[..|s.owner|] == s.owner && key[|s.owner| + 1..] == s.name;
      assert key[0] == s.owner[0] && s.owner[0] in s.owner;
    } else if s.name != [] {
      assert s.name[0] in s.name;
    }
  }

  lemma SlotsAreKeys(key: string)
    requires key != [] ==> key[0] != SEP
    ensures Addressable(SlotOf(key)) && KeyOf(SlotOf(key)) == key
  {
    var i := FirstSep(key);
    if i < |key| {
      assert key == key[..i] + [SEP] + key[i + 1..];
      assert i > 0;
    }
  }

  /** Among owners without separators, two different pairs share a key exactly when one
      is a default-owner name that spells out the other's key. */
  lemma CollisionsExactly(a: Slot, b: Slot)
    requires Plain(a.owner) && Plain(b.owner) && a != b
    ensures KeyOf(a) == KeyOf(b)
            <==> (a.owner == "" && b.owner != "" && a.name == KeyOf(b))
                 || (b.owner == "" && a.owner != "" && b.name == KeyOf(a))
  {
    if a.owner != "" && b.owner != "" {
      KeysAreSlots(a);
      KeysAreSlots(b);
    }
  }

  // ---- One map per owner ----------------------------------------------------------------------

  type Flat = map<string, string>

  /** The same contents as a map from pairs. */
  type Scoped = map<Slot, string>

  predicate Reachable(key: string) {
    key != [] ==> key[0] != SEP
  }

  function Unfolded(flat: Flat): Scoped {
    map s | s in Slots(flat) :: flat[KeyOf(s)]
  }

  function Slots(flat: Flat): (r: set<Slot>)
    ensures forall s :: s in r ==> KeyOf(s) in flat
  {
    set key | key in flat && Reachable(key) && KeyOf(SlotOf(key)) == key :: SlotOf(key)
  }

  lemma UnfoldedAt(flat: Flat, s: Slot)
    requires Addressable(s)
    ensures s in Unfolded(flat) <==> KeyOf(s) in flat
    ensures s in Unfolded(flat) ==> Unfolded(flat)[s] == flat[KeyOf(s)]
  {
    KeysAreSlots(s);
  }

  lemma PutUnfolds(flat: Flat, s: Slot, content: string)
    requires Addressable(s)
    ensures Unfolded(flat[KeyOf(s) := content]) == Unfolded(flat)[s := content]
  {
    var a, b := Unfolded(flat[KeyOf(s) := content]), Unfolded(flat)[s := content];
    forall t ensures t in a <==> t in b ensures t in a ==> a[t] == b[t] {
      if Addressable(t) {
        UnfoldedAt(flat[KeyOf(s) := content], t);
        UnfoldedAt(flat, t);
        KeysAreSlots(s);
        KeysAreSlots(t);
      } else {
        NotUnfolded(flat, t);
        NotUnfolded(flat[KeyOf(s) := content], t);
      }
    }
  }

  lemma RemoveUnfolds(flat: Flat, s: Slot)
    requires Addressable(s)
    ensures Unfolded(flat - {KeyOf(s)}) == Unfolded(flat) - {s}
  {
    var a, b := Unfolded(flat - {KeyOf(s)}), Unfolded(flat) - {s};
    forall t ensures t in a <==> t in b ensures t in a ==> a[t] == b[t] {
      if Addressable(t) {
        UnfoldedAt(flat - {KeyOf(s)}, t);
        UnfoldedAt(flat, t);
        KeysAreSlots(s);
        KeysAreSlots(t);
      } else {
        NotUnfolded(flat, t);
        NotUnfolded(flat - {KeyOf(s)}, t);
      }
    }
  }

  lemma NotUnfolded(flat: Flat, t: Slot)
    requires !Addressable(t)
    ensures t !in Unfolded(flat)
  {
    forall key | key in flat && Reachable(key) ensures SlotOf(key) != t {
      SlotsAreKeys(key);
    }
  }

  /** A key with the owner's prefix is that owner's key for what follows it. */
  lemma PrefixedKey(owner: string, key: string, name: string)
    requires owner != ""
    ensures owner + [SEP] <= key && key[|owner| + 1..] == name <==> key == ScopedKey(owner, name)
  {
    if owner + [SEP] <= key {
      assert key == owner + [SEP] + key[|owner| + 1..];
    }
    if key == ScopedKey(owner, name) {
      assert key[|owner| + 1..] == name;
    }
  }

  /** Under an owner the listing shows the names it has keys for; under none, the raw
      keys without a separator. */
  lemma {:induction false} NamesListed(owner: string, keys: seq<string>, name: string)
    ensures name in OwnedNames(owner, keys) <==> ScopedKey(owner, name) in keys && (owner == "" ==> Plain(name))
  {
    if keys != [] {
      NamesListed(owner, keys[1..], name);
      var key := ScopedKey(owner, name);
      assert key in keys <==> key == keys[0] || key in keys[1..];
      if owner != "" {
        PrefixedKey(owner, keys[0], name);
      }
    }
  }

  predicate NoneTwice(names: seq<string>) {
    forall i, j :: 0 <= i < j < |names| ==> names[i] != names[j]
  }

  /** A store that lists no key twice shows no name twice. */
  lemma {:induction false} NamesOnce(owner: string, keys: seq<string>)
    requires NoneTwice(keys)
    ensures NoneTwice(OwnedNames(owner, keys))
  {
    if keys != [] {
      var rest := OwnedNames(owner, keys[1..]);
      assert forall i :: 0 <= i < |keys| - 1 ==> keys[1..][i] == keys[i + 1];
      NamesOnce(owner, keys[1..]);
      forall name | name in rest ensures ScopedKey(owner, name) != keys[0] {
        NamesListed(owner, keys[1..], name);
        var k :| 0 <= k < |keys| - 1 && keys[1..][k] == ScopedKey(owner, name);
        assert keys[k + 1] != keys[0];
      }
      if owner != "" && owner + [SEP] <= keys[0] {
        PrefixedKey(owner, keys[0], keys[0][|owner| + 1..]);
      }
      var shown := OwnedNames(owner, keys);
      assert shown == rest || (shown == [shown[0]] + rest && ScopedKey(owner, shown[0]) == keys[0]);
    }
  }

  // ---- Runs -------------------------------------------------------------------------------------

  datatype Call = Configure(owner: string) | Put(name: string, content: string) | Get(name: string)
                | Remove(name: string) | List

  datatype Answer = Done | Content(text: string) | NotFound | Names(names: set<string>)

  /** The owner in force and the flat store, or the owner in force and a map of pairs. */
  datatype Backend = Backend(owner: string, flat: Flat)
  datatype Ideal = Ideal(owner: string, scoped: Scoped)

  function Step(b: Backend, c: Call): (Backend, Answer) {
    match c
    case Configure(owner) => (b.(owner := owner), Done)
    case Put(name, content) => (b.(flat := b.flat[ScopedKey(b.owner, name) := content]), Done)
    case Get(name) =>
      var key := ScopedKey(b.owner, name);
      (b, if key in b.flat then Content(b.flat[key]) else NotFound)
    case Remove(name) =>
      var key := ScopedKey(b.owner, name);
      if key in b.flat then (b.(flat := b.flat - {key}), Done) else (b, NotFound)
    case List => (b, Names(Listed(b.owner, b.flat)))
  }

  /** The names a listing shows, whatever order the backend lists its keys in. */
  function Listed(owner: string, flat: Flat): set<string> {
    if owner == "" then set key | key in flat && Plain(key)
    else set key | key in flat && owner + [SEP] <= key :: key[|owner| + 1..]
  }

  function IdealStep(i: Ideal, c: Call): (Ideal, Answer) {
    match c
    case Configure(owner) => (i.(owner := owner), Done)
    case Put(name, content) => (i.(scoped := i.scoped[Slot(i.owner, name) := content]), Done)
    case Get(name) =>
      var s := Slot(i.owner, name);
      (i, if s in i.scoped then Content(i.scoped[s]) else NotFound)
    case Remove(name) =>
      var s := Slot(i.owner, name);
      if s in i.scoped then (i.(scoped := i.scoped - {s}), Done) else (i, NotFound)
    case List => (i, Names(set s | s in i.scoped && s.owner == i.owner :: s.name))
  }

  /** Owners without separators, and under the default owner names without them. */
  predicate Proper(owner: string, c: Call) {
    match c
    case Configure(o) => Plain(o)
    case Put(name, _) => Addressable(Slot(owner, name))
    case Get(name) => Addressable(Slot(owner, name))
    case Remove(name) => Addressable(Slot(owner, name))
    case List => true
  }

  function OwnerAfter(owner: string, c: Call): string {
    if c.Configure? then c.owner else owner
  }

  predicate AllProper(owner: string, calls: seq<Call>)
    decreases |calls|
  {
    calls == [] || (Proper(owner, calls[0]) && AllProper(OwnerAfter(owner, calls[0]), calls[1..]))
  }

  function Answers(b: Backend, calls: seq<Call>): seq<Answer>
    decreases |calls|
  {
    if calls == [] then [] else [Step(b, calls[0]).1] + Answers(Step(b, calls[0]).0, calls[1..])
  }

  function IdealAnswers(i: Ideal, calls: seq<Call>): seq<Answer>
    decreases |calls|
  {
    if calls == [] then [] else [IdealStep(i, calls[0]).1] + IdealAnswers(IdealStep(i, calls[0]).0, calls[1..])
  }

  lemma ListedUnfolds(flat: Flat, owner: string)
    requires Plain(owner)
    ensures Listed(owner, flat) == set s | s in Unfolded(flat) && s.owner == owner :: s.name
  {
    var names := set s | s in Unfolded(flat) && s.owner == owner :: s.name;
    forall name ensures name in Listed(owner, flat) <==> Slot(owner, name) in Unfolded(flat) {
      ListedExactly(flat, owner, name);
    }
    forall name ensures name in names <==> Slot(owner, name) in Unfolded(flat) {
      if name in names {
        var s :| s in Unfolded(flat) && s.owner == owner && s.name == name;
        assert s == Slot(owner, name);
      }
    }
  }

  lemma ListedIs(owner: string, flat: Flat, name: string)
    ensures name in Listed(owner, flat) <==> ScopedKey(owner, name) in flat && (owner == "" ==> Plain(name))
  {
    if owner != "" {
      var key := ScopedKey(owner, name);
      PrefixedKey(owner, key, name);
      if name in Listed(owner, flat) {
        var k :| k in flat && owner + [SEP] <= k && k[|owner| + 1..] == name;
        PrefixedKey(owner, k, name);
      }
    }
  }

  lemma ListedExactly(flat: Flat, owner: string, name: string)
    requires Plain(owner)
    ensures name in Listed(owner, flat) <==> Slot(owner, name) in Unfolded(flat)
  {
    ListedIs(owner, flat, name);
    if Addressable(Slot(owner, name)) {
      UnfoldedAt(flat, Slot(owner, name));
    } else {
      NotUnfolded(flat, Slot(owner, name));
    }
  }

  lemma StepUnfolds(b: Backend, c: Call)
    requires Plain(b.owner) && Proper(b.owner, c)
    ensures var (b', a) := Step(b, c);
            IdealStep(Ideal(b.owner, Unfolded(b.flat)), c) == (Ideal(b'.owner, Unfolded(b'.flat)), a)
    ensures Step(b, c).0.owner == OwnerAfter(b.owner, c)
  {
    match c
    case Configure(_) =>
    case Put(name, content) => PutUnfolds(b.flat, Slot(b.owner, name), content);
    case Get(name) => UnfoldedAt(b.flat, Slot(b.owner, name));
    case Remove(name) =>
      UnfoldedAt(b.flat, Slot(b.owner, name));
      RemoveUnfolds(b.flat, Slot(b.owner, name));
    case List => ListedUnfolds(b.flat, b.owner);
  }

  /** Over any run of calls and changes of owner, whatever raw keys the store began
      with, every answer is the one a separate map per owner would give. */
  lemma {:induction false} OwnersAreSeparate(b: Backend, calls: seq<Call>)
    requires Plain(b.owner) && AllProper(b.owner, calls)
    ensures Answers(b, calls) == IdealAnswers(Ideal(b.owner, Unfolded(b.flat)), calls)
    decreases |calls|
  {
    if calls != [] {
      StepUnfolds(b, calls[0]);
      OwnersAreSeparate(Step(b, calls[0]).0, calls[1..]);
    }
  }

  /** A name with a separator, put under the default owner, can be read back but is
      never listed, and is another owner's name as well. */
  lemma SeparatorInNameCrosses()
    ensures var b := Step(Backend("", map[]), Put("u\0n", "v")).0;
            && Step(b, Get("u\0n")).1 == Content("v")
            && Step(b, List).1 == Names({})
            && Step(b.(owner := "u"), Get("n")).1 == Content("v")
  {
    var b := Step(Backend("", map[]), Put("u\0n", "v")).0;
    assert "u\0n"[1] == SEP;
    assert ScopedKey("u", "n") == "u\0n";
    assert Listed("", b.flat) == {};
  }

  // ---- The store ----------------------------------------------------------------------------------

  class ScopedStorage {
    var owner: string
    var flat: Flat

    function Now(): Backend
      reads this
    {
      Backend(owner, flat)
    }

    constructor (flat: Flat)
      ensures Now() == Backend("", flat)
    {
      this.owner := "";
      this.flat := flat;
    }

    method Configure(owner: string)
      modifies this`owner
      ensures (Now(), Done) == Step(old(Now()), Call.Configure(owner))
    {
      this.owner := owner;
    }

    method Put(name: string, content: string)
      modifies this`flat
      ensures (Now(), Done) == Step(old(Now()), Call.Put(name, content))
    {
      flat := flat[ScopedKey(owner, name) := content];
    }

    method Get(name: string) returns (a: Answer)
      ensures (Now(), a) == Step(Now(), Call.Get(name))
    {
      var key := ScopedKey(owner, name);
      if key !in flat {
        return NotFound;
      }
      a := Content(flat[key]);
    }

    method Remove(name: string) returns (a: Answer)
      modifies this`flat
      ensures (Now(), a) == Step(old(Now()), Call.Remove(name))
    {
      var key := ScopedKey(owner, name);
      if key !in flat {
        return NotFound;
      }
      flat := flat - {key};
      a := Done;
    }

    /** The backend enumerates its keys in an order of its own. */
    method Keys() returns (keys: seq<string>)
      ensures forall key :: key in keys <==> key in flat
      ensures NoneTwice(keys)
    {
      keys := [];
      var rest := flat.Keys;
      while rest != {}
        invariant rest <= flat.Keys
        invariant forall key :: key in keys <==> key in flat && key !in rest
        invariant NoneTwice(keys)
        decreases |rest|
      {
        var key :| key in rest;
        keys := keys + [key];
        rest := rest - {key};
      }
    }

    method List() returns (names: seq<string>)
      ensures Step(Now(), Call.List) == (Now(), Names(set name | name in names))
      ensures NoneTwice(names)
    {
      var keys := Keys();
      names := OwnedNames(owner, keys);
      NamesOnce(owner, keys);
      forall name ensures name in names <==> name in Listed(owner, flat) {
        NamesListed(owner, keys, name);
        ListedIs(owner, flat, name);
      }
      assert Listed(owner, flat) == set name | name in names;
    }
  }
}
