/**
 The input mask: a transducer over the characters typed so far. It is re-run on its
 own output after every keystroke, so what it has to be is insensitive to that.
 */
module Mask {
  import opened Common

  predicate IsDigit(c: char) { '0' <= c <= '9' }

  predicate IsLetter(c: char) { 'A' <= c <= 'Z' || 'a' <= c <= 'z' }

  /** `9` takes a digit, `A` a letter; any other mask character is itself. */
  predicate IsSlot(m: char) { m == '9' || m == 'A' }

  predicate Fills(m: char, c: char) {
    if m == '9' then IsDigit(c) else IsLetter(c)
  }

  /** The input from the first character that can fill the slot. */
  function Skip(slot: char, raw: string): (r: string)
    ensures |r| <= |raw|
    ensures r != [] ==> Fills(slot, r[0])
  {
    if raw == [] || Fills(slot, raw[0]) then raw else Skip(slot, raw[1..])
  }

  function Fill(mask: string, raw: string): string
    decreases |mask|
  {
    if mask == [] || raw == [] then []
    else if IsSlot(mask[0]) then
      var r := Skip(mask[0], raw);
      if r == [] then [] else [r[0]] + Fill(mask[1..], r[1..])
    else [mask[0]] + Fill(mask[1..], if raw[0] == mask[0] then raw[1..] else raw)
  }

  /** An absent mask leaves the text alone. */
  function Masked(mask: string, raw: string): string {
    if mask == [] then raw else Fill(mask, raw)
  }

  method SkipTo(slot: char, raw: string, from: nat) returns (index: nat)
    requires from <= |raw|
    ensures index <= |raw| && Skip(slot, raw[from..]) == raw[index..]
  {
    index := from;
    while index < |raw| && !Fills(slot, raw[index])
      invariant from <= index <= |raw|
      invariant Skip(slot, raw[index..]) == Skip(slot, raw[from..])
    {
      assert raw[index..][0] == raw[index] && raw[index..][1..] == raw[index + 1..];
      index := index + 1;
    }
  }

  lemma FillSlot(mask: string, at: nat, raw: string, index: nat, next: nat)
    requires at < |mask| && IsSlot(mask[at]) && index < |raw| && next <= |raw|
    requires Skip(mask[at], raw[index..]) == raw[next..]
    ensures Fill(mask[at..], raw[index..])
            == if next == |raw| then [] else [raw[next]] + Fill(mask[at + 1..], raw[next + 1..])
  {
    assert mask[at..][1..] == mask[at + 1..];
    if next < |raw| {
      assert raw[next..][1..] == raw[next + 1..];
    }
  }

  lemma FillLiteral(mask: string, at: nat, raw: string, index: nat)
    requires at < |mask| && !IsSlot(mask[at]) && index < |raw|
    ensures Fill(mask[at..], raw[index..])
            == [mask[at]] + Fill(mask[at + 1..], raw[if raw[index] == mask[at] then index + 1 else index..])
  {
    assert mask[at..][1..] == mask[at + 1..];
    assert raw[index..][1..] == raw[index + 1..];
  }

  lemma Append(out: string, c: char, rest: string)
    ensures (out + [c]) + rest == out + ([c] + rest)
  {
  }

  method ApplyMask(mask: string, raw: string) returns (out: string)
    ensures out == Masked(mask, raw)
  {
    if mask == [] {
      return raw;
    }
    out := "";
    var index := 0;
    for at := 0 to |mask|
      invariant index <= |raw|
      invariant out + Fill(mask[at..], raw[index..]) == Fill(mask, raw)
    {
      if index >= |raw| {
        break;
      }
      var slot := mask[at];
      if slot == '9' || slot == 'A' {
        var next := SkipTo(slot, raw, index);
        FillSlot(mask, at, raw, index, next);
        index := next;
        if index >= |raw| {
          break;
        }
        Append(out, raw[index], Fill(mask[at + 1..], raw[index + 1..]));
        out := out + [raw[index]];
        index := index + 1;
      } else {
        FillLiteral(mask, at, raw, index);
        if raw[index] == slot {
          index := index + 1;
        }
        Append(out, slot, Fill(mask[at + 1..], raw[index..]));
        out := out + [slot];
      }
    }
  }

  // ---- Streaming --------------------------------------------------------------------------

  lemma {:induction false} SkipConcat(slot: char, s: string, t: string)
    ensures Skip(slot, s + t) == if Skip(slot, s) == [] then Skip(slot, t) else Skip(slot, s) + t
  {
    if s == [] {
      assert s + t == t;
    } else {
      assert (s + t)[0] == s[0] && (s + t)[1..] == s[1..] + t;
      if !Fills(slot, s[0]) {
        SkipConcat(slot, s[1..], t);
      }
    }
  }

  lemma {:induction false} FillStreams(mask: string, s: string, t: string)
    ensures Fill(mask, Fill(mask, s) + t) == Fill(mask, s + t)
    decreases |mask|
  {
    if s == [] {
      assert Fill(mask, s) + t == t && s + t == t;
    } else if mask != [] {
      var m, rest := mask[0], mask[1..];
      if IsSlot(m) {
        var r := Skip(m, s);
        SkipConcat(m, s, t);
        if r == [] {
          assert Fill(mask, s) + t == t;
        } else {
          FillStreams(rest, r[1..], t);
          SlotStreams(mask, s, t);
        }
      } else {
        FillStreams(rest, if s[0] == m then s[1..] else s, t);
        LiteralStreams(mask, s, t);
      }
    }
  }

  lemma SlotStreams(mask: string, s: string, t: string)
    requires mask != [] && IsSlot(mask[0]) && Skip(mask[0], s) != [] && Skip(mask[0], s + t) == Skip(mask[0], s) + t
    requires var r := Skip(mask[0], s)[1..]; Fill(mask[1..], Fill(mask[1..], r) + t) == Fill(mask[1..], r + t)
    ensures Fill(mask, Fill(mask, s) + t) == Fill(mask, s + t)
  {
    var r := Skip(mask[0], s);
    var tail := Fill(mask[1..], r[1..]);
    assert ([r[0]] + tail) + t == [r[0]] + (tail + t);
    assert (r + t)[1..] == r[1..] + t;
  }

  lemma LiteralStreams(mask: string, s: string, t: string)
    requires mask != [] && !IsSlot(mask[0]) && s != []
    requires var r := if s[0] == mask[0] then s[1..] else s;
             Fill(mask[1..], Fill(mask[1..], r) + t) == Fill(mask[1..], r + t)
    ensures Fill(mask, Fill(mask, s) + t) == Fill(mask, s + t)
  {
    var m := mask[0];
    var r := if s[0] == m then s[1..] else s;
    var tail := Fill(mask[1..], r);
    assert ([m] + tail) + t == [m] + (tail + t);
    assert (s + t)[0] == s[0] && (s[0] == m ==> (s + t)[1..] == r + t);
  }

  /** Masking what is shown plus what comes next is masking all of it, for every mask
      and every two strings. */
  lemma MaskStreams(mask: string, s: string, t: string)
    ensures Masked(mask, Masked(mask, s) + t) == Masked(mask, s + t)
  {
    FillStreams(mask, s, t);
  }

  /** Masked text is left alone. */
  lemma MaskIdempotent(mask: string, s: string)
    ensures Masked(mask, Masked(mask, s)) == Masked(mask, s)
  {
    MaskStreams(mask, s, []);
    assert Masked(mask, s) + [] == Masked(mask, s) && s + [] == s;
  }

  function Typed(mask: string, shown: string, chunks: seq<string>): string
    decreases |chunks|
  {
    if chunks == [] then shown else Typed(mask, Masked(mask, shown + chunks[0]), chunks[1..])
  }

  function Joined(chunks: seq<string>): string {
    if chunks == [] then [] else chunks[0] + Joined(chunks[1..])
  }

  /** Typing in any pieces shows what pasting the whole would. */
  lemma {:induction false} TypingIsPasting(mask: string, shown: string, chunks: seq<string>)
    requires chunks != []
    ensures Typed(mask, shown, chunks) == Masked(mask, shown + Joined(chunks))
    decreases |chunks|
  {
    var first, rest := chunks[0], chunks[1..];
    var next := Masked(mask, shown + first);
    assert (shown + first) + Joined(rest) == shown + Joined(chunks);
    if rest == [] {
      assert Joined(chunks) == first;
    } else {
      TypingIsPasting(mask, next, rest);
      MaskStreams(mask, shown + first, Joined(rest));
    }
  }

  // ---- What comes out -----------------------------------------------------------------------

  predicate Matches(m: char, c: char) {
    if IsSlot(m) then Fills(m, c) else c == m
  }

  /** The output follows the mask, position by position, as far as it goes. */
  lemma {:induction false} FillConforms(mask: string, raw: string)
    ensures |Fill(mask, raw)| <= |mask|
    ensures forall i :: 0 <= i < |Fill(mask, raw)| ==> Matches(mask[i], Fill(mask, raw)[i])
    decreases |mask|
  {
    if mask != [] && raw != [] {
      if IsSlot(mask[0]) {
        var r := Skip(mask[0], raw);
        if r != [] {
          FillConforms(mask[1..], r[1..]);
          assert forall i :: 1 <= i < |Fill(mask, raw)| ==> mask[i] == mask[1..][i - 1];
        }
      } else {
        FillConforms(mask[1..], if raw[0] == mask[0] then raw[1..] else raw);
        assert forall i :: 1 <= i < |Fill(mask, raw)| ==> mask[i] == mask[1..][i - 1];
      }
    }
  }

  predicate Conforms(mask: string, shown: string) {
    |shown| <= |mask| && forall i :: 0 <= i < |shown| ==> Matches(mask[i], shown[i])
  }

  /** What conforms so far is kept, and the rest is matched against the rest of the mask. */
  lemma {:induction false} FillGoesOn(mask: string, shown: string, t: string)
    requires Conforms(mask, shown)
    ensures Fill(mask, shown + t) == shown + Fill(mask[|shown|..], t)
    decreases |mask|
  {
    if shown == [] {
      assert shown + t == t && mask[0..] == mask;
    } else {
      var raw := shown + t;
      assert raw[0] == shown[0] && raw[1..] == shown[1..] + t && Matches(mask[0], shown[0]);
      assert Conforms(mask[1..], shown[1..]) by {
        assert forall i :: 0 <= i < |shown| - 1 ==> mask[1..][i] == mask[i + 1] && shown[1..][i] == shown[i + 1];
      }
      FillGoesOn(mask[1..], shown[1..], t);
      assert mask[1..][|shown| - 1..] == mask[|shown|..];
      assert shown == [shown[0]] + shown[1..];
    }
  }

  /** Only literals of the mask stand from `n` up to `k`, none of them `c`. */
  predicate Between(mask: string, n: nat, k: nat, c: char) {
    n <= k <= |mask| && forall i :: n <= i < k ==> mask[i] !in {'9', 'A', c}
  }

  lemma {:induction false} OneIntoRest(mask: string, c: char, k: nat)
    requires Between(mask, 0, k, c)
    ensures k == |mask| ==> Fill(mask, [c]) == mask[..k]
    ensures k < |mask| && IsSlot(mask[k]) ==>
              Fill(mask, [c]) == mask[..k] + if Fills(mask[k], c) then [c] else []
    ensures k < |mask| && !IsSlot(mask[k]) && mask[k] == c ==> Fill(mask, [c]) == mask[..k] + [c]
    decreases k
  {
    assert [c][1..] == [];
    if k == 0 {
      if mask != [] && IsSlot(mask[0]) {
        assert Skip(mask[0], []) == [];
        assert Skip(mask[0], [c]) == if Fills(mask[0], c) then [c] else [];
      }
    } else {
      assert Between(mask[1..], 0, k - 1, c) by {
        assert forall i :: 0 <= i < k - 1 ==> mask[1..][i] == mask[i + 1];
      }
      OneIntoRest(mask[1..], c, k - 1);
      assert mask[..k] == [mask[0]] + mask[1..][..k - 1];
    }
  }

  /** One keystroke, on anything shown: the literals that come next are filled in, and then
      the character is taken if the mask's next place is its own or a slot it fits, and
      dropped if not; a full mask takes nothing. `k` is the place it is offered. */
  lemma Keystroke(mask: string, shown: string, c: char, k: nat)
    requires Conforms(mask, shown) && Between(mask, |shown|, k, c)
    requires k == |mask| || mask[k] in {'9', 'A', c}
    ensures var taken := k < |mask| && if mask[k] == '9' then '0' <= c <= '9'
                                       else if mask[k] == 'A' then 'A' <= c <= 'Z' || 'a' <= c <= 'z'
                                       else mask[k] == c;
            Fill(mask, shown + [c]) == shown + mask[|shown|..k] + if taken then [c] else []
  {
    var n := |shown|;
    var rest := mask[n..];
    FillGoesOn(mask, shown, [c]);
    assert Between(rest, 0, k - n, c) by {
      assert forall i :: 0 <= i < k - n ==> rest[i] == mask[n + i];
    }
    OneIntoRest(rest, c, k - n);
    assert rest[..k - n] == mask[n..k];
    if k < |mask| { assert rest[k - n] == mask[k]; }
  }

  function Digits(s: string): (d: string)
    ensures |d| <= |s|
  {
    if s == [] then [] else (if IsDigit(s[0]) then [s[0]] else []) + Digits(s[1..])
  }

  /** Digit slots, and literals that no digit could be mistaken for. */
  predicate DigitMask(mask: string) {
    forall i :: 0 <= i < |mask| ==> mask[i] == '9' || (mask[i] != 'A' && !IsDigit(mask[i]))
  }

  function SlotCount(mask: string): nat {
    if mask == [] then 0 else (if mask[0] == '9' then 1 else 0) + SlotCount(mask[1..])
  }

  lemma {:induction false} SkipKeepsDigits(s: string)
    ensures Digits(Skip('9', s)) == Digits(s)
    ensures Skip('9', s) == [] <==> Digits(s) == []
  {
    if s != [] && !IsDigit(s[0]) {
      SkipKeepsDigits(s[1..]);
    }
  }

  function FirstOf(s: string, n: nat): string {
    if n <= |s| then s[..n] else s
  }

  lemma FirstOfCons(c: char, s: string, n: nat)
    ensures FirstOf([c] + s, n + 1) == [c] + FirstOf(s, n)
  {
  }

  /** Strip the literals and the digits typed come back, up to the number of slots. */
  lemma {:induction false} DigitsComeBack(mask: string, raw: string)
    requires DigitMask(mask)
    ensures Digits(Fill(mask, raw)) == FirstOf(Digits(raw), SlotCount(mask))
    decreases |mask|
  {
    if mask != [] && raw != [] {
      var rest := mask[1..];
      assert DigitMask(rest) by {
        assert forall i :: 0 <= i < |rest| ==> rest[i] == mask[i + 1];
      }
      if mask[0] == '9' {
        SkipKeepsDigits(raw);
        var r := Skip('9', raw);
        if r != [] {
          DigitsComeBack(rest, r[1..]);
          assert ([r[0]] + Fill(rest, r[1..]))[1..] == Fill(rest, r[1..]);
          FirstOfCons(r[0], Digits(r[1..]), SlotCount(rest));
        }
      } else {
        var r := if raw[0] == mask[0] then raw[1..] else raw;
        DigitsComeBack(rest, r);
        assert ([mask[0]] + Fill(rest, r))[1..] == Fill(rest, r);
      }
    }
  }

  // ---- The caret ------------------------------------------------------------------------------

  predicate Fillable(c: char) { IsDigit(c) || IsLetter(c) }

  function CountFillable(s: string): nat {
    if s == [] then 0 else CountFillable(s[..|s| - 1]) + if Fillable(s[|s| - 1]) then 1 else 0
  }

  /** The caret stands right after as many fillable characters as preceded it; it goes
      to the end when none did or too few are left. */
  method PlaceCaret(masked: string, fillable: nat) returns (position: nat)
    ensures position <= |masked|
    ensures 1 <= fillable <= CountFillable(masked) ==>
              position >= 1 && Fillable(masked[position - 1]) && CountFillable(masked[..position]) == fillable
    ensures fillable == 0 || fillable > CountFillable(masked) ==> position == |masked|
  {
    var seen, i := 0, 0;
    position := |masked|;
    while i < |masked|
      invariant i <= |masked| && position == |masked|
      invariant seen == CountFillable(masked[..i])
      invariant fillable == 0 || seen < fillable
    {
      assert masked[..i + 1][..i] == masked[..i];
      if Fillable(masked[i]) {
        seen := seen + 1;
        if seen == fillable {
          position := i + 1;
          CountGrows(masked, i + 1);
          return;
        }
      }
      i := i + 1;
    }
    assert masked[..i] == masked;
  }

  lemma {:induction false} CountGrows(s: string, n: nat)
    requires n <= |s|
    ensures CountFillable(s[..n]) <= CountFillable(s)
    decreases |s|
  {
    if n < |s| {
      CountGrows(s[..|s| - 1], n);
      assert s[..|s| - 1][..n] == s[..n];
    } else {
      assert s[..n] == s;
    }
  }
}
