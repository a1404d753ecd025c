/**
 * Ordering: the two in-place sorts of BackdropTools, `orderPaletteByIndex`
 * (by one channel) and `orderPaletteByLuminance` (by BT.709 luma), both of
 * which hand a key-difference comparator to JavaScript's stable
 * `Array.prototype.sort`.
 *
 * The sort is specified by `SortBy`, a stable insertion sort on sequences;
 * its properties (sorted, a permutation, stable) are proved as lemmas, and
 * the in-place method `StableSort` is proved to leave exactly `SortBy` of
 * the old contents in the array.
 */
module Ordering {
  import opened Pixels

  /** What a comparator compares: one channel, or the luminance. */
  datatype Key = ByChannel(c: ChannelIndex) | ByLuminance

  /** Luminance with the ITU-R BT.709 luma weights, over the reals. */
  function Luminance(p: Pixel): real {
    0.2126 * p.r as real + 0.7152 * p.g as real + 0.0722 * p.b as real
  }

  /** The luma scaled by 10000, which keeps it an integer. */
  function LuminanceKey(p: Pixel): (k: int)
    ensures k as real == 10000.0 * Luminance(p)
  {
    2126 * p.r + 7152 * p.g + 722 * p.b
  }

  /** The integer key orders pixels exactly as the real luma does. */
  lemma LuminanceKeyOrder(p: Pixel, q: Pixel)
    ensures LuminanceKey(p) <= LuminanceKey(q) <==> Luminance(p) <= Luminance(q)
  {
    assert LuminanceKey(p) as real == 10000.0 * Luminance(p);
    assert LuminanceKey(q) as real == 10000.0 * Luminance(q);
  }

  function KeyOf(k: Key, p: Pixel): int {
    match k
    case ByChannel(c) => Channel(p, c)
    case ByLuminance => LuminanceKey(p)
  }

  /** Non-decreasing in the key. */
  predicate SortedBy(s: seq<Pixel>, k: Key) {
    forall i, j :: 0 <= i < j < |s| ==> KeyOf(k, s[i]) <= KeyOf(k, s[j])
  }

  /** Inserts `x` after every element whose key is at most `x`'s. */
  function Insert(s: seq<Pixel>, x: Pixel, k: Key): (r: seq<Pixel>)
    ensures |r| == |s| + 1
  {
    if s == [] || KeyOf(k, s[|s| - 1]) <= KeyOf(k, x) then s + [x]
    else Insert(s[..|s| - 1], x, k) + [s[|s| - 1]]
  }

  /** The stable sort of `s` by key `k`: what `Array.prototype.sort` computes with a key-difference comparator. */
  function SortBy(s: seq<Pixel>, k: Key): (r: seq<Pixel>)
    ensures |r| == |s|
  {
    if s == [] then [] else Insert(SortBy(s[..|s| - 1], k), s[|s| - 1], k)
  }

  /** The elements of `s` whose key is `v`, in their order in `s`. */
  function WithKey(s: seq<Pixel>, k: Key, v: int): seq<Pixel> {
    if s == [] then []
    else WithKey(s[..|s| - 1], k, v) + (if KeyOf(k, s[|s| - 1]) == v then [s[|s| - 1]] else [])
  }

  lemma {:induction false} WithKeyAppend(s: seq<Pixel>, t: seq<Pixel>, k: Key, v: int)
    ensures WithKey(s + t, k, v) == WithKey(s, k, v) + WithKey(t, k, v)
    decreases |t|
  {
    if t == [] {
      assert s + t == s;
    } else {
      var t' := t[..|t| - 1];
      assert (s + t)[..|s + t| - 1] == s + t';
      WithKeyAppend(s, t', k, v);
    }
  }

  lemma {:induction false} InsertPermutes(s: seq<Pixel>, x: Pixel, k: Key)
    ensures multiset(Insert(s, x, k)) == multiset(s) + multiset{x}
    decreases |s|
  {
    if s == [] || KeyOf(k, s[|s| - 1]) <= KeyOf(k, x) {
    } else {
      var s', last := s[..|s| - 1], s[|s| - 1];
      InsertPermutes(s', x, k);
      assert s == s' + [last];
    }
  }

  lemma {:induction false} InsertSorted(s: seq<Pixel>, x: Pixel, k: Key)
    requires SortedBy(s, k)
    ensures SortedBy(Insert(s, x, k), k)
    decreases |s|
  {
    if s == [] || KeyOf(k, s[|s| - 1]) <= KeyOf(k, x) {
      forall i | 0 <= i < |s| ensures KeyOf(k, s[i]) <= KeyOf(k, x) {
        assert KeyOf(k, s[i]) <= KeyOf(k, s[|s| - 1]);
      }
      AppendSorted(s, x, k);
    } else {
      var s', last := s[..|s| - 1], s[|s| - 1];
      assert SortedBy(s', k);
      InsertSorted(s', x, k);
      InsertPermutes(s', x, k);
      var t := Insert(s', x, k);
      forall i | 0 <= i < |t|
        ensures KeyOf(k, t[i]) <= KeyOf(k, last)
      {
        assert t[i] in multiset(t);
        if t[i] != x {
          assert t[i] in multiset(s');
          var j :| 0 <= j < |s'| && s'[j] == t[i];
          assert s[j] == s'[j];
        }
      }
      AppendSorted(t, last, k);
    }
  }

  /** A sorted sequence stays sorted when an element no smaller than all of it is appended. */
  lemma AppendSorted(t: seq<Pixel>, y: Pixel, k: Key)
    requires SortedBy(t, k)
    requires forall i :: 0 <= i < |t| ==> KeyOf(k, t[i]) <= KeyOf(k, y)
    ensures SortedBy(t + [y], k)
  {
  }

  lemma {:induction false} InsertStable(s: seq<Pixel>, x: Pixel, k: Key, v: int)
    ensures WithKey(Insert(s, x, k), k, v) == WithKey(s, k, v) + (if KeyOf(k, x) == v then [x] else [])
    decreases |s|
  {
    if s == [] || KeyOf(k, s[|s| - 1]) <= KeyOf(k, x) {
      assert (s + [x])[..|s|] == s;
    } else {
      var s', last := s[..|s| - 1], s[|s| - 1];
      InsertStable(s', x, k, v);
      var t := Insert(s', x, k);
      assert (t + [last])[..|t|] == t;
    }
  }

  /** `SortBy` is a permutation of its input. */
  lemma {:induction false} SortByPermutes(s: seq<Pixel>, k: Key)
    ensures multiset(SortBy(s, k)) == multiset(s)
  {
    if s != [] {
      var s' := s[..|s| - 1];
      SortByPermutes(s', k);
      InsertPermutes(SortBy(s', k), s[|s| - 1], k);
      assert s == s' + [s[|s| - 1]];
    }
  }

  /** `SortBy` is non-decreasing in the key. */
  lemma {:induction false} SortBySorted(s: seq<Pixel>, k: Key)
    ensures SortedBy(SortBy(s, k), k)
  {
    if s != [] {
      SortBySorted(s[..|s| - 1], k);
      InsertSorted(SortBy(s[..|s| - 1], k), s[|s| - 1], k);
    }
  }

  /** `SortBy` is stable: elements with equal keys keep their relative order. */
  lemma {:induction false} SortByStable(s: seq<Pixel>, k: Key, v: int)
    ensures WithKey(SortBy(s, k), k, v) == WithKey(s, k, v)
  {
    if s != [] {
      SortByStable(s[..|s| - 1], k, v);
      InsertStable(SortBy(s[..|s| - 1], k), s[|s| - 1], k, v);
    }
  }

  /** Every element of the sorted sequence comes from the input. */
  lemma SortByMembers(s: seq<Pixel>, k: Key)
    ensures |SortBy(s, k)| == |s|
    ensures forall i :: 0 <= i < |s| ==> SortBy(s, k)[i] in s
  {
    SortByPermutes(s, k);
    var r := SortBy(s, k);
    forall i | 0 <= i < |s| ensures r[i] in s {
      assert r[i] in multiset(r);
    }
  }

  /** Where `Insert` puts `x`: after the last element whose key is at most `x`'s. */
  lemma {:induction false} InsertAt(s: seq<Pixel>, j: nat, x: Pixel, k: Key)
    requires j <= |s|
    requires j == 0 || KeyOf(k, s[j - 1]) <= KeyOf(k, x)
    requires forall m :: j <= m < |s| ==> KeyOf(k, s[m]) > KeyOf(k, x)
    ensures Insert(s, x, k) == s[..j] + [x] + s[j..]
    decreases |s|
  {
    if j < |s| {
      var s', last := s[..|s| - 1], s[|s| - 1];
      assert KeyOf(k, last) > KeyOf(k, x);
      assert Insert(s, x, k) == Insert(s', x, k) + [last];
      InsertAt(s', j, x, k);
      assert s'[..j] == s[..j];
      assert s[j..] == s'[j..] + [last];
    } else {
      assert s[..j] == s;
    }
  }

  /** The array contents after one shift step of `InsertInPlace`, on sequences. */
  lemma ShiftStep(before: seq<Pixel>, sorted: seq<Pixel>, tail: seq<Pixel>, j: nat)
    requires 0 < j <= |sorted| && |before| == |sorted| + 1 + |tail|
    requires before[..j] == sorted[..j] && before[j + 1..] == sorted[j..] + tail
    ensures before[j := before[j - 1]][..j - 1] == sorted[..j - 1]
    ensures before[j := before[j - 1]][j..] == sorted[j - 1..] + tail
  {
    var after := before[j := before[j - 1]];
    assert after[j..] == [sorted[j - 1]] + after[j + 1..];
  }

  /** The array contents once `InsertInPlace` drops the element into the gap at `j`. */
  lemma DropStep(before: seq<Pixel>, sorted: seq<Pixel>, tail: seq<Pixel>, j: nat, x: Pixel)
    requires j <= |sorted| && |before| == |sorted| + 1 + |tail|
    requires before[..j] == sorted[..j] && before[j + 1..] == sorted[j..] + tail
    ensures before[j := x][..|sorted| + 1] == sorted[..j] + [x] + sorted[j..]
    ensures before[j := x][|sorted| + 1..] == tail
  {
    var after := before[j := x];
    assert after == sorted[..j] + [x] + sorted[j..] + tail;
  }

  /**
   * One pass of insertion sort: shifts the elements of the prefix `a[..i]`
   * whose key exceeds `a[i]`'s one place right and drops `a[i]` into the gap,
   * which ends at the returned index `j`.
   */
  method InsertInPlace(a: array<Pixel>, i: nat, k: Key) returns (j: nat)
    requires i < a.Length
    modifies a
    ensures j <= i
    ensures a[..i + 1] == old(a[..i])[..j] + [old(a[i])] + old(a[..i])[j..]
    ensures a[i + 1..] == old(a[i + 1..])
    ensures j == 0 || KeyOf(k, old(a[j - 1])) <= KeyOf(k, old(a[i]))
    ensures forall m :: j <= m < i ==> KeyOf(k, old(a[m])) > KeyOf(k, old(a[i]))
  {
    ghost var sorted, tail := a[..i], a[i + 1..];
    var x := a[i];
    j := i;
    while j > 0 && KeyOf(k, a[j - 1]) > KeyOf(k, x)
      invariant 0 <= j <= i
      invariant a[..j] == sorted[..j]
      invariant a[j + 1..] == sorted[j..] + tail
      invariant forall m :: j <= m < i ==> KeyOf(k, sorted[m]) > KeyOf(k, x)
    {
      ShiftStep(a[..], sorted, tail, j);
      a[j] := a[j - 1];
      j := j - 1;
    }
    DropStep(a[..], sorted, tail, j, x);
    a[j] := x;
    assert forall m :: 0 <= m < i ==> old(a[m]) == sorted[m];
  }

  /** One outer step of `StableSort`, on sequences: the sorted prefix grows by one element. */
  lemma SortStep(s: seq<Pixel>, before: seq<Pixel>, after: seq<Pixel>, i: nat, j: nat, k: Key)
    requires i < |s| && |before| == |s| && |after| == |s| && j <= i
    requires before[..i] == SortBy(s[..i], k) && before[i..] == s[i..]
    requires after[..i + 1] == before[..i][..j] + [before[i]] + before[..i][j..]
    requires after[i + 1..] == before[i + 1..]
    requires j == 0 || KeyOf(k, before[j - 1]) <= KeyOf(k, before[i])
    requires forall m :: j <= m < i ==> KeyOf(k, before[m]) > KeyOf(k, before[i])
    ensures after[..i + 1] == SortBy(s[..i + 1], k) && after[i + 1..] == s[i + 1..]
  {
    var prefix := before[..i];
    assert before[i] == s[i];
    InsertAt(prefix, j, s[i], k);
    assert s[..i + 1] == s[..i] + [s[i]];
    assert after[i + 1..] == before[i..][1..];
  }

  /** `Array.prototype.sort` with a key-difference comparator, as an in-place stable insertion sort. */
  method StableSort(a: array<Pixel>, k: Key)
    modifies a
    ensures a[..] == SortBy(old(a[..]), k)
  {
    ghost var s := a[..];
    var i := 0;
    while i < a.Length
      invariant 0 <= i <= a.Length
      invariant a[..i] == SortBy(s[..i], k)
      invariant a[i..] == s[i..]
    {
      ghost var before := a[..];
      var j := InsertInPlace(a, i, k);
      SortStep(s, before, a[..], i, j, k);
      i := i + 1;
    }
    assert a[..] == a[..a.Length] && s == s[..a.Length];
  }

  /** `orderPaletteByIndex`: sorts the palette in place by one channel. */
  method OrderPaletteByIndex(palette: array<Pixel>, index: ChannelIndex)
    modifies palette
    ensures palette[..] == SortBy(old(palette[..]), ByChannel(index))
  {
    StableSort(palette, ByChannel(index));
  }

  /** `orderPaletteByLuminance`: sorts the palette in place by luminance. */
  method OrderPaletteByLuminance(palette: array<Pixel>)
    modifies palette
    ensures palette[..] == SortBy(old(palette[..]), ByLuminance)
  {
    StableSort(palette, ByLuminance);
  }
}
