/** Sequence helpers: concatenation of a sequence of sequences and Rust's
    `slice::chunks`. */
module Seqs {

  /** All elements of `ss`, in order (Rust's `flat_map` / `concat`). */
  function Flatten<T>(ss: seq<seq<T>>): seq<T> {
    if |ss| == 0 then [] else ss[0] + Flatten(ss[1..])
  }

  lemma {:induction false} FlattenAppend<T>(a: seq<seq<T>>, b: seq<seq<T>>)
    ensures Flatten(a + b) == Flatten(a) + Flatten(b)
  {
    if |a| > 0 {
      assert (a + b)[1..] == a[1..] + b;
      FlattenAppend(a[1..], b);
    } else {
      assert a + b == b;
    }
  }

  /** `ceil(n / size)`, written as Rust writes it: `(n + size - 1) / size`. */
  function CeilDiv(n: nat, size: nat): (q: nat)
    requires size > 0
    ensures (q - 1) * size < n <= q * size
  {
    var y := n + size - 1;
    assert y == y / size * size + y % size;
    assert (y / size - 1) * size == y / size * size - size;
    y / size
  }

  lemma MulAtLeast(k: int, d: int)
    requires d > 0
    ensures k >= 1 ==> k * d >= d
    ensures k <= -1 ==> k * d <= -d
  {
  }

  lemma DivUnique(x: int, d: int, q: int, r: int)
    requires d > 0 && 0 <= r < d && x == q * d + r
    ensures x / d == q
  {
    var q', r' := x / d, x % d;
    assert x == q' * d + r';
    assert (q - q') * d == r' - r;
    MulAtLeast(q - q', d);
  }

  lemma CeilDivStep(n: nat, size: nat)
    requires size > 0 && n > size
    ensures CeilDiv(n, size) == CeilDiv(n - size, size) + 1
  {
    var y := n - size + size - 1;
    var q, r := y / size, y % size;
    assert y == q * size + r;
    assert (q + 1) * size == q * size + size;
    assert n + size - 1 == (q + 1) * size + r;
    DivUnique(n + size - 1, size, q + 1, r);
  }

  lemma CeilDivSmall(n: nat, size: nat)
    requires 0 < n <= size
    ensures CeilDiv(n, size) == 1
  {
    DivUnique(n + size - 1, size, 1, n - 1);
  }

  /** Rust's `s.chunks(size)`: consecutive pieces of length `size`, the last
      one possibly shorter; no piece for an empty slice. */
  function Chunks<T>(s: seq<T>, size: nat): (r: seq<seq<T>>)
    requires size > 0
    ensures Flatten(r) == s
    ensures |r| == CeilDiv(|s|, size)
    ensures forall i :: 0 <= i < |r| ==> 0 < |r[i]| <= size
    ensures forall i :: 0 <= i < |r| - 1 ==> |r[i]| == size
    decreases |s|
  {
    if |s| == 0 then
      DivUnique(size - 1, size, 0, size - 1);
      []
    else if |s| <= size then
      CeilDivSmall(|s|, size);
      assert Flatten([s]) == s + Flatten([]);
      [s]
    else
      var head, rest := s[..size], Chunks(s[size..], size);
      CeilDivStep(|s|, size);
      var r := [head] + rest;
      assert r[0] == head && r[1..] == rest;
      assert Flatten(r) == head + Flatten(rest);
      assert head + s[size..] == s;
      assert forall i :: 1 <= i < |r| ==> r[i] == rest[i - 1];
      r
  }
}
