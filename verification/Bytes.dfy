/** Little-endian integers of every width and sign. */
module Bytes {

  type byte = n: nat | n < 256

  function Pow256(w: nat): (r: nat)
    ensures r > 0
  {
    if w == 0 then 1 else 256 * Pow256(w - 1)
  }

  predicate InRange(v: int, w: nat, signed: bool) {
    if signed then 0 <= 2 * v + Pow256(w) && 2 * v < Pow256(w) else 0 <= v < Pow256(w)
  }

  /** The low `w` bytes of `v` in two's complement, least significant first. */
  function ToBytes(v: int, w: nat): (r: seq<byte>)
    ensures |r| == w
    decreases w, v
  {
    if w == 0 then [] else [v % 256] + ToBytes(v / 256, w - 1)
  }

  /** The bytes `x` stand in `data` at `pos`. */
  predicate At(data: seq<byte>, pos: nat, x: seq<byte>) {
    pos + |x| <= |data| && forall i :: 0 <= i < |x| ==> data[pos + i] == x[i]
  }

  lemma AtSplit(data: seq<byte>, pos: nat, x: seq<byte>, y: seq<byte>)
    requires At(data, pos, x + y)
    ensures At(data, pos, x) && At(data, pos + |x|, y)
  {
    var z := x + y;
    forall i | 0 <= i < |x|
      ensures data[pos + i] == x[i]
    {
      assert z[i] == x[i];
    }
    forall i | 0 <= i < |y|
      ensures data[pos + |x| + i] == y[i]
    {
      assert z[|x| + i] == y[i];
    }
  }

  lemma AtSlice(data: seq<byte>, pos: nat, x: seq<byte>)
    requires At(data, pos, x)
    ensures data[pos..pos + |x|] == x
  {
  }

  /** The unsigned number that `w` bytes of `b` from `pos` on make. */
  function FromBytes(b: seq<byte>, pos: nat, w: nat): nat
    requires pos + w <= |b|
    decreases w, pos
  {
    if w == 0 then 0 else b[pos] + 256 * FromBytes(b, pos + 1, w - 1)
  }

  /** The number that an unsigned pattern of `w` bytes stands for. */
  function Reinterpret(u: nat, w: nat, signed: bool): int {
    Half(u, Pow256(w), signed)
  }

  function Half(u: nat, p: nat, signed: bool): int {
    if signed && 2 * u >= p then u - p else u
  }

  function Decode(b: seq<byte>, pos: nat, w: nat, signed: bool): int
    requires pos + w <= |b|
  {
    Reinterpret(FromBytes(b, pos, w), w, signed)
  }

  lemma {:induction false} FromBytesBound(b: seq<byte>, pos: nat, w: nat)
    requires pos + w <= |b|
    ensures FromBytes(b, pos, w) < Pow256(w)
    decreases w
  {
    if w > 0 {
      FromBytesBound(b, pos + 1, w - 1);
    }
  }

  lemma {:induction false} FromToBytes(b: seq<byte>, pos: nat, v: int, w: nat)
    requires At(b, pos, ToBytes(v, w))
    ensures FromBytes(b, pos, w) == v % Pow256(w)
    decreases w
  {
    if w > 0 {
      AtSplit(b, pos, [v % 256], ToBytes(v / 256, w - 1));
      FromToBytes(b, pos + 1, v / 256, w - 1);
      assert b[pos] == ToBytes(v, w)[0];
      DivModSplit(v, Pow256(w - 1));
    }
  }

  lemma DivModSplit(v: int, m: nat)
    requires m > 0
    ensures v % (256 * m) == v % 256 + 256 * (v / 256 % m)
  {
    var q, r := v / 256 / m, v / 256 % m;
    assert v / 256 == m * q + r;
    assert v == 256 * (m * q + r) + v % 256;
    var x := v % 256 + 256 * r;
    assert 256 * (m * q) == (256 * m) * q;
    assert v == (256 * m) * q + x;
    assert 0 <= x < 256 * m;
    ModUnique(v, 256 * m, q, x);
  }

  lemma ModUnique(v: int, m: nat, q: int, x: nat)
    requires m > 0 && x < m && v == m * q + x
    ensures v % m == x
  {
    var q1, x1 := v / m, v % m;
    assert v == m * q1 + x1;
    assert m * (q - q1) == x1 - x;
    if q != q1 {
      MulBig(m, q - q1);
      assert false;
    }
  }

  lemma MulBig(m: nat, d: int)
    requires d != 0
    ensures m * d >= m || m * d + m <= 0
  {
    if d > 0 {
      NonNegative(m, d - 1);
    } else {
      NonNegative(m, -d - 1);
    }
  }

  lemma NonNegative(a: nat, b: nat)
    ensures a * b >= 0
  {
  }

  /** Reading back the bytes of a number of any width and sign gives the number. */
  lemma DecodeToBytes(b: seq<byte>, pos: nat, v: int, w: nat, signed: bool)
    requires InRange(v, w, signed) && At(b, pos, ToBytes(v, w))
    ensures Decode(b, pos, w, signed) == v
  {
    hide ToBytes, FromBytes, Pow256;
    FromToBytes(b, pos, v, w);
    var m := Pow256(w);
    if v < 0 {
      ModUnique(v, m, -1, v + m);
    } else {
      ModUnique(v, m, 0, v);
    }
  }

  /** The loop of the writer: peel the low byte, shift right. */
  method WriteUnsafe(a: array<byte>, pos: nat, v: int, w: nat)
    requires pos + w <= a.Length
    modifies a
    ensures a[..] == old(a[..pos]) + ToBytes(v, w) + old(a[pos + w..])
  {
    if w == 1 {
      a[pos] := v % 256;
      assert ToBytes(v, 1) == [v % 256] + ToBytes(v / 256, 0);
    } else {
      var t := v;
      var i := 0;
      ghost var all := ToBytes(v, w);
      while i < w
        invariant 0 <= i <= w
        invariant ToBytes(t, w - i) == all[i..]
        invariant a[pos..pos + i] == all[..i]
        invariant a[..pos] == old(a[..pos]) && a[pos + w..] == old(a[pos + w..])
      {
        assert all[i] == ToBytes(t, w - i)[0] == t % 256;
        assert all[i + 1..] == ToBytes(t, w - i)[1..];
        a[pos + i] := t % 256;
        t := t / 256;
        assert a[pos..pos + i + 1] == a[pos..pos + i] + [all[i]];
        i := i + 1;
      }
    }
    assert a[..] == a[..pos] + a[pos..pos + w] + a[pos + w..];
  }

  /** What a variable of `w` bytes holds after `x` is stored in it. */
  function Wrap(x: int, w: nat, signed: bool): int {
    Reinterpret(x % Pow256(w), w, signed)
  }

  /** The loop of the reader: shift left, then add the next lower byte. */
  method ReadUnsafe(b: seq<byte>, pos: nat, w: nat, signed: bool) returns (t: int)
    requires 0 < w && pos + w <= |b|
    ensures t == Decode(b, pos, w, signed)
  {
    if w == 1 {
      t := Wrap(b[pos], 1, signed);
      assert FromBytes(b, pos, 1) == b[pos] + 256 * FromBytes(b, pos + 1, 0);
      return;
    }
    t := 0;
    var i := 0;
    while i < w
      invariant 0 <= i <= w
      invariant t == Reinterpret(FromBytes(b, pos + w - i, i), w, signed)
    {
      ShiftIn(b, pos + w - i, i, w, signed);
      t := Wrap(t * 256, w, signed) + b[pos + w - 1 - i];
      i := i + 1;
    }
  }

  lemma ShiftIn(b: seq<byte>, at: nat, i: nat, w: nat, signed: bool)
    requires 0 < at && at + i <= |b| && i < w && w >= 2
    ensures Wrap(Reinterpret(FromBytes(b, at, i), w, signed) * 256, w, signed) + b[at - 1]
            == Reinterpret(FromBytes(b, at - 1, i + 1), w, signed)
  {
    FromBytesBound(b, at, i);
    PowGrows(i, w - 1);
    var u, r := FromBytes(b, at, i), 128 * Pow256(w - 2);
    assert Pow256(w - 1) == 2 * r;
    assert Pow256(w) == 512 * r;
    ShiftNumbers(u, b[at - 1], r, signed);
  }

  lemma ShiftNumbers(u: nat, x: byte, r: nat, signed: bool)
    requires r > 0 && u < 2 * r
    ensures Half(u, 512 * r, signed) == u
    ensures Half((u * 256) % (512 * r), 512 * r, signed) + x == Half(x + 256 * u, 512 * r, signed)
  {
    assert (u * 256) % (512 * r) == u * 256 by {
      ModUnique(u * 256, 512 * r, 0, u * 256);
    }
  }

  lemma {:induction false} PowGrows(m: nat, n: nat)
    requires m <= n
    ensures Pow256(m) <= Pow256(n)
    decreases n
  {
    if m < n {
      PowGrows(m, n - 1);
    }
  }
}
