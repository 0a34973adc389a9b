/** Small vocabulary shared by every module: optional values, weighted sums and
    joined text. */
module Prelude {

  datatype Option<+T> = None | Some(value: T)

  type u32 = x: int | 0 <= x < 0x1_0000_0000
  type u64 = x: int | 0 <= x < 0x1_0000_0000_0000_0000

  const U32_MAX: u32 := 0xFFFF_FFFF
  const U64_MAX: u64 := 0xFFFF_FFFF_FFFF_FFFF

  function Min(a: int, b: int): int {
    if a <= b then a else b
  }

  function Max(a: int, b: int): int {
    if a >= b then a else b
  }

  /** The total weight of a sequence. */
  function Weight<T>(items: seq<T>, w: T -> nat): nat {
    if items == [] then 0 else w(items[0]) + Weight(items[1..], w)
  }

  lemma {:induction false} WeightAppend<T>(a: seq<T>, b: seq<T>, w: T -> nat)
    ensures Weight(a + b, w) == Weight(a, w) + Weight(b, w)
  {
    if a == [] {
      assert a + b == b;
    } else {
      assert (a + b)[1..] == a[1..] + b;
      WeightAppend(a[1..], b, w);
    }
  }

  /** A shorter suffix never weighs more. */
  lemma SuffixWeight<T>(items: seq<T>, i: nat, j: nat, w: T -> nat)
    requires i <= j <= |items|
    ensures Weight(items[j..], w) <= Weight(items[i..], w)
  {
    assert items[i..] == items[i..j] + items[j..];
    WeightAppend(items[i..j], items[j..], w);
  }

  /** The pieces laid end to end. */
  function Concat(pieces: seq<string>): string {
    if pieces == [] then "" else pieces[0] + Concat(pieces[1..])
  }

  lemma {:induction false} ConcatAppend(a: seq<string>, b: seq<string>)
    ensures Concat(a + b) == Concat(a) + Concat(b)
  {
    if a == [] {
      assert a + b == b;
    } else {
      assert (a + b)[1..] == a[1..] + b;
      ConcatAppend(a[1..], b);
    }
  }

  lemma Assoc<T>(a: seq<T>, b: seq<T>, c: seq<T>)
    ensures (a + b) + c == a + (b + c)
  {
  }

  lemma {:induction false} CancelLess(a: nat, b: nat, c: nat)
    requires a * b < a * c
    ensures b < c
  {
  }

  lemma {:induction false} SubsetSize(a: set<nat>, b: set<nat>)
    requires a <= b
    ensures |a| <= |b|
    ensures |a| == |b| ==> a == b
  {
    assert b == a + (b - a);
  }

  /** `picked` is what stands at the positions `at` of a sequence, in order. */
  ghost predicate PickedAt<T>(from: seq<T>, at: seq<nat>, picked: seq<T>) {
    && |at| == |picked|
    && (forall k :: 0 <= k < |at| ==> at[k] < |from| && picked[k] == from[at[k]])
    && (forall j, k :: 0 <= j < k < |at| ==> at[j] < at[k])
  }

  /** Positions picked from a front, with or without the position that follows it. */
  lemma PickedSnoc<T>(from: seq<T>, n: nat, at: seq<nat>, picked: seq<T>)
    requires n < |from| && PickedAt(from[..n], at, picked)
    ensures PickedAt(from, at, picked) && n !in at
    ensures PickedAt(from, at + [n], picked + [from[n]])
    ensures forall p :: p in at + [n] <==> p in at || p == n
  {
  }

  /** The same positions, one further on. */
  ghost function Shifted(at: seq<nat>): (r: seq<nat>)
    ensures |r| == |at| && forall k :: 0 <= k < |r| ==> r[k] == at[k] + 1
    ensures forall p: nat :: p in r <==> p > 0 && p - 1 in at
  {
    if at == [] then [] else [at[0] + 1] + Shifted(at[1..])
  }

  lemma PickedCons<T>(from: seq<T>, at: seq<nat>, picked: seq<T>)
    requires from != [] && PickedAt(from[1..], at, picked)
    ensures PickedAt(from, Shifted(at), picked)
    ensures PickedAt(from, [0] + Shifted(at), [from[0]] + picked)
    ensures forall p: nat :: p in [0] + Shifted(at) <==> p == 0 || p in Shifted(at)
  {
  }
}
