/**
 * Modifier masks: the table `create_masks` fills with every combination of the
 * seven modifier masks, and `str_to_modifier`, which picks a modifier mask by
 * name. The masks themselves (`valid_masks`) come from the X server's modifier
 * map and are a parameter here.
 */
module Modifiers {
  import opened Options

  /** `MOD_END`: SHIFT, CTRL, ALT, WIN, SCROLL, NUM, CAPS. */
  const MOD_END: nat := 7
  const SHIFT: nat := 0
  const CTRL: nat := 1
  const ALT: nat := 2
  const WIN: nat := 3
  const SCROLL: nat := 4
  const NUM: nat := 5
  const CAPS: nat := 6

  /** Number of combinations, `1 << MOD_END`. */
  const COMBINATIONS: nat := 128

  /** X11's `AnyModifier` (1 << 15). */
  const ANY_MODIFIER: bv32 := 0x8000

  /** `modifiers_names`, in enumerator order. */
  const ModifierNames: seq<string> := ["SHIFT", "CTRL", "ALT", "WIN", "SCROLL", "NUM", "CAPS"]

  /** `1 << j` for each modifier j. */
  const Bits: seq<bv32> := [1 << 0, 1 << 1, 1 << 2, 1 << 3, 1 << 4, 1 << 5, 1 << 6]

  /** The mask `v` when bit `b` is set in combination index `i`, else nothing:
      what one round `if ((1 << j) & i) arr[i] |= valid_masks[j]` contributes. */
  function Contribution(v: bv32, b: bv32, i: bv32): bv32
  {
    if b & i != 0 then v else 0
  }

  /** OR of `validMasks[j]` over the bits j < n set in i: `arr[i]` after n rounds of the inner loop. */
  function MaskOf(validMasks: seq<bv32>, i: bv32, n: nat): bv32
    requires n <= |validMasks| == MOD_END
    decreases n
  {
    if n == 0 then 0
    else MaskOf(validMasks, i, n - 1) | Contribution(validMasks[n - 1], Bits[n - 1], i)
  }

  /** `create_masks`: for every combination index i < 2^7, arr[i] becomes the
      OR of the modifier masks whose bits are set in i; the rest of arr is untouched. */
  method CreateMasks(arr: array<bv32>, validMasks: seq<bv32>)
    requires |validMasks| == MOD_END && arr.Length >= COMBINATIONS
    modifies arr
    ensures forall i :: 0 <= i < COMBINATIONS ==> arr[i] == MaskOf(validMasks, i as bv32, MOD_END)
    ensures forall i :: COMBINATIONS <= i < arr.Length ==> arr[i] == old(arr[i])
  {
    var i := 0;
    while i < COMBINATIONS
      invariant 0 <= i <= COMBINATIONS
      invariant forall k :: 0 <= k < i ==> arr[k] == MaskOf(validMasks, k as bv32, MOD_END)
      invariant forall k :: i <= k < arr.Length ==> arr[k] == old(arr[k])
    {
      CombineEntry(arr, i, validMasks);
      i := i + 1;
    }
  }

  /** The body of `create_masks`'s outer loop: clear arr[i], then OR in each
      modifier mask whose bit is set in i. */
  method CombineEntry(arr: array<bv32>, i: nat, validMasks: seq<bv32>)
    requires |validMasks| == MOD_END && i < COMBINATIONS <= arr.Length
    modifies arr
    ensures arr[i] == MaskOf(validMasks, i as bv32, MOD_END)
    ensures forall k :: 0 <= k < arr.Length && k != i ==> arr[k] == old(arr[k])
  {
    arr[i] := 0;
    var j := 0;
    while j < MOD_END
      invariant 0 <= j <= MOD_END
      invariant arr[i] == MaskOf(validMasks, i as bv32, j)
      invariant forall k :: 0 <= k < arr.Length && k != i ==> arr[k] == old(arr[k])
    {
      ghost var before := arr[i];
      if Bits[j] & (i as bv32) != 0 {
        arr[i] := arr[i] | validMasks[j];
      } else {
        assert arr[i] | 0 == arr[i];
      }
      assert arr[i] == before | Contribution(validMasks[j], Bits[j], i as bv32);
      j := j + 1;
    }
  }

  /** The empty combination has no modifier bits: arr[0] == 0. */
  lemma {:induction false} MaskOfNone(validMasks: seq<bv32>, n: nat)
    requires n <= |validMasks| == MOD_END
    ensures MaskOf(validMasks, 0, n) == 0
    decreases n
  {
    if n > 0 {
      MaskOfNone(validMasks, n - 1);
    }
  }

  /** A one-modifier combination gives exactly that modifier's mask: arr[1 << j] == valid_masks[j]. */
  lemma {:induction false} MaskOfSingle(validMasks: seq<bv32>, j: nat, n: nat)
    requires j < n <= |validMasks| == MOD_END
    ensures MaskOf(validMasks, Bits[j], n) == validMasks[j]
    decreases n
  {
    if j < n - 1 {
      MaskOfSingle(validMasks, j, n - 1);
      assert Bits[n - 1] & Bits[j] == 0;
    } else {
      MaskOfOthers(validMasks, j, n - 1);
      assert Bits[j] & Bits[j] != 0;
    }
  }

  /** Bits at or above n play no part in the first n rounds. */
  lemma {:induction false} MaskOfOthers(validMasks: seq<bv32>, j: nat, n: nat)
    requires n <= j < MOD_END && n <= |validMasks| == MOD_END
    ensures MaskOf(validMasks, Bits[j], n) == 0
    decreases n
  {
    if n > 0 {
      MaskOfOthers(validMasks, j, n - 1);
      assert Bits[n - 1] & Bits[j] == 0;
    }
  }

  /** The table is a homomorphism from combining indices to combining masks: arr[i | k] == arr[i] | arr[k]. */
  lemma {:induction false} MaskOfUnion(validMasks: seq<bv32>, i: bv32, k: bv32, n: nat)
    requires n <= |validMasks| == MOD_END
    ensures MaskOf(validMasks, i | k, n) == MaskOf(validMasks, i, n) | MaskOf(validMasks, k, n)
    decreases n
  {
    if n > 0 {
      var v, b := validMasks[n - 1], Bits[n - 1];
      MaskOfUnion(validMasks, i, k, n - 1);
      ContributionUnion(v, b, i, k);
      OrShuffle(MaskOf(validMasks, i, n - 1), MaskOf(validMasks, k, n - 1),
                Contribution(v, b, i), Contribution(v, b, k));
    }
  }

  lemma ContributionUnion(v: bv32, b: bv32, i: bv32, k: bv32)
    ensures Contribution(v, b, i | k) == Contribution(v, b, i) | Contribution(v, b, k)
  {
    assert b & (i | k) == (b & i) | (b & k);
    assert v | v == v && v | 0 == v && 0 | v == v && (0 as bv32) | 0 == 0;
  }

  lemma OrShuffle(a: bv32, c: bv32, ti: bv32, tk: bv32)
    ensures (a | c) | (ti | tk) == (a | ti) | (c | tk)
  {
  }

  /** ASCII lower-casing, as `strncasecmp` compares in the C locale. */
  function ToLower(c: char): char
  {
    if 'A' <= c <= 'Z' then (c as int + 32) as char else c
  }

  /** `strncasecmp(str, name, |name|) == 0`: str starts with name, ignoring ASCII case.
      A C string ends at its first NUL; since no name contains NUL, comparing the
      whole sequence gives the same answer. */
  predicate HasPrefixIgnoringCase(str: string, name: string)
  {
    |name| <= |str| && forall k :: 0 <= k < |name| ==> ToLower(str[k]) == ToLower(name[k])
  }

  /** `str_to_modifier`: None when no string is supplied (the C code reports the
      error and exits); AnyModifier for a string starting with "AnyModifier";
      otherwise the mask of the first modifier whose name starts the string,
      and the SHIFT mask when none does. All comparisons ignore ASCII case. */
  method StrToModifier(str: Option<string>, validMasks: seq<bv32>) returns (r: Option<bv32>)
    requires |validMasks| == MOD_END
    ensures str.None? <==> r.None?
    ensures str.Some? && HasPrefixIgnoringCase(str.value, "AnyModifier") ==> r == Some(ANY_MODIFIER)
    ensures str.Some? && !HasPrefixIgnoringCase(str.value, "AnyModifier") ==>
      || (exists i :: 0 <= i < MOD_END && HasPrefixIgnoringCase(str.value, ModifierNames[i])
                      && (forall j :: 0 <= j < i ==> !HasPrefixIgnoringCase(str.value, ModifierNames[j]))
                      && r == Some(validMasks[i]))
      || ((forall i :: 0 <= i < MOD_END ==> !HasPrefixIgnoringCase(str.value, ModifierNames[i]))
          && r == Some(validMasks[SHIFT]))
  {
    if str.None? {
      return None;
    }
    var s := str.value;
    if HasPrefixIgnoringCase(s, "AnyModifier") {
      return Some(ANY_MODIFIER);
    }
    var i := 0;
    while i < MOD_END
      invariant 0 <= i <= MOD_END
      invariant forall j :: 0 <= j < i ==> !HasPrefixIgnoringCase(s, ModifierNames[j])
    {
      if HasPrefixIgnoringCase(s, ModifierNames[i]) {
        return Some(validMasks[i]);
      }
      i := i + 1;
    }
    return Some(validMasks[SHIFT]);
  }
}
