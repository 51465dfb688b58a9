/** Vocabulary shared by every module: bytes, optional values and byte-stream concatenation. */
module Prelude {

  type byte = x: int | 0 <= x < 256

  type Bytes = seq<byte>

  datatype Option<+T> = None | Some(value: T)

  /** The chunks of a stream, joined in order. */
  function Concat(chunks: seq<Bytes>): Bytes {
    if chunks == [] then [] else Concat(chunks[..|chunks| - 1]) + chunks[|chunks| - 1]
  }

  lemma {:induction false} ConcatAppend(a: seq<Bytes>, b: seq<Bytes>)
    ensures Concat(a + b) == Concat(a) + Concat(b)
  {
    if b == [] {
      assert a + b == a;
    } else {
      var n := |b| - 1;
      ConcatAppend(a, b[..n]);
      assert (a + b)[..|a + b| - 1] == a + b[..n];
    }
  }

  lemma ConcatSnoc(a: seq<Bytes>, c: Bytes)
    ensures Concat(a + [c]) == Concat(a) + c
  {
    assert (a + [c])[..|a|] == a;
  }

  /** Taking more chunks of the same list only extends the joined bytes. */
  lemma ConcatSlice(a: seq<Bytes>, lo: nat, mid: nat, hi: nat)
    requires lo <= mid <= hi <= |a|
    ensures Concat(a[lo..hi]) == Concat(a[lo..mid]) + Concat(a[mid..hi])
    ensures Concat(a[lo..mid]) <= Concat(a[lo..hi])
  {
    assert a[lo..hi] == a[lo..mid] + a[mid..hi];
    ConcatAppend(a[lo..mid], a[mid..hi]);
  }

  lemma ConcatOne(a: seq<Bytes>, lo: nat, k: nat)
    requires lo <= k < |a|
    ensures Concat(a[lo..k + 1]) == Concat(a[lo..k]) + a[k]
  {
    assert a[lo..k + 1] == a[lo..k] + [a[k]];
    ConcatSnoc(a[lo..k], a[k]);
  }

  lemma PrefixTrans(a: Bytes, b: Bytes, c: Bytes)
    requires a <= b <= c
    ensures a <= c && |a| <= |b| <= |c|
  {
    assert c[..|a|] == b[..|a|];
  }

  const TWO_63 := 0x8000_0000_0000_0000

  /** Signed 64-bit wrap-around. */
  function Wrap64(x: int): (r: int)
    ensures -TWO_63 <= r < TWO_63
    decreases if x < 0 then -2 * x - 1 else 2 * x + 1
  {
    if x < -TWO_63 then Wrap64(x + 2 * TWO_63) else if x >= TWO_63 then Wrap64(x - 2 * TWO_63) else x
  }

  /** Values that differ by a multiple of 2^64 wrap to the same one. */
  lemma {:induction false} WrapShift(x: int, k: nat)
    ensures Wrap64(x + k * (2 * TWO_63)) == Wrap64(x)
    decreases k
  {
    if k > 0 {
      WrapShift(x, k - 1);
      WrapOnce(x + (k - 1) * (2 * TWO_63));
    }
  }

  lemma {:induction false} WrapOnce(x: int)
    ensures Wrap64(x + 2 * TWO_63) == Wrap64(x)
    decreases if x < 0 then -x else 0
  {
    if x < -TWO_63 && x + 2 * TWO_63 < -TWO_63 {
      WrapOnce(x + 2 * TWO_63);
    }
  }

  lemma {:induction false} WrapInner(x: int, c: int)
    ensures Wrap64(Wrap64(x) + c) == Wrap64(x + c)
    decreases if x < 0 then -2 * x - 1 else 2 * x + 1
  {
    if x < -TWO_63 {
      WrapInner(x + 2 * TWO_63, c);
      WrapOnce(x + c);
    } else if x >= TWO_63 {
      WrapInner(x - 2 * TWO_63, c);
      WrapOnce(x - 2 * TWO_63 + c);
    }
  }

  /** What wraps to the same value still does after adding the same amount. */
  lemma WrapAdds(a: int, b: int, c: int)
    requires Wrap64(a) == Wrap64(b)
    ensures Wrap64(a + c) == Wrap64(b + c)
    ensures Wrap64(Wrap64(a) + c) == Wrap64(a + c)
  {
    WrapInner(a, c);
    WrapInner(b, c);
  }
}
