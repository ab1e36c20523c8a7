/** Bytes, fixed-width integers and the Result type shared by every codec. */
module Bytes {

  type Byte = x: int | 0 <= x < 0x100

  const TWO16: int := 0x1_0000
  const TWO32: int := 0x1_0000_0000
  const TWO64: int := 0x1_0000_0000_0000_0000

  /** A value or the reason there is none: the source's core.Result. */
  datatype Result<+T, +E> = Ok(value: T) | Err(error: E) {
    predicate IsFailure() { Err? }
    function PropagateFailure<U>(): Result<U, E>
      requires Err?
    {
      Err(error)
    }
    function Extract(): T
      requires Ok?
    {
      value
    }
  }

  datatype Option<+T> = None | Some(value: T)

  lemma Assoc<T>(a: seq<T>, b: seq<T>, c: seq<T>)
    ensures a + b + c == a + (b + c)
  {
  }

  function Pow256(w: nat): (p: nat)
    ensures p > 0
  {
    if w == 0 then 1 else 256 * Pow256(w - 1)
  }

  lemma Pow256Values()
    ensures Pow256(1) == 0x100 && Pow256(2) == TWO16 && Pow256(4) == TWO32 && Pow256(8) == TWO64
  {
    assert Pow256(2) == 256 * Pow256(1);
    assert Pow256(3) == 256 * Pow256(2);
    assert Pow256(4) == 256 * Pow256(3);
    assert Pow256(5) == 256 * Pow256(4);
    assert Pow256(6) == 256 * Pow256(5);
    assert Pow256(7) == 256 * Pow256(6);
  }

  /** The low w bytes of v, least significant first (binary.LittleEndian.PutUint*). */
  function LittleEndian(w: nat, v: nat): (s: seq<Byte>)
    ensures |s| == w
  {
    if w == 0 then [] else [v % 256] + LittleEndian(w - 1, v / 256)
  }

  lemma DivStep(v: nat, p: nat)
    requires p > 0
    ensures (v / 256) / p == v / (256 * p)
  {
    var q, r := (v / 256) / p, (v / 256) % p;
    assert v == 256 * (q * p + r) + v % 256;
    assert v == q * (256 * p) + (256 * r + v % 256) by {
      assert 256 * (q * p) == q * (256 * p);
    }
    RemainderUnique(v, 256 * p, q, 256 * r + v % 256);
  }

  /** Byte i is the digit of 256^i. */
  lemma {:induction false} LittleEndianDigit(w: nat, v: nat, i: nat)
    requires i < w
    ensures LittleEndian(w, v)[i] == v / Pow256(i) % 256
  {
    if i > 0 {
      LittleEndianDigit(w - 1, v / 256, i - 1);
      DivStep(v, Pow256(i - 1));
    }
  }

  /** The number whose little-endian bytes are s (binary.LittleEndian.Uint*). */
  function FromLittleEndian(s: seq<Byte>): (v: nat)
  {
    if s == [] then 0 else s[0] + 256 * FromLittleEndian(s[1..])
  }

  lemma {:induction false} FromLittleEndianBound(s: seq<Byte>)
    ensures FromLittleEndian(s) < Pow256(|s|)
  {
    if s != [] {
      FromLittleEndianBound(s[1..]);
    }
  }

  /** Writing w bytes keeps v modulo 256^w: this is also Go's truncating conversion. */
  lemma {:induction false} LittleEndianRoundTrip(w: nat, v: nat)
    ensures FromLittleEndian(LittleEndian(w, v)) == v % Pow256(w)
  {
    if w != 0 {
      LittleEndianRoundTrip(w - 1, v / 256);
      assert LittleEndian(w, v)[1..] == LittleEndian(w - 1, v / 256);
      ModStep(v, Pow256(w - 1));
    }
  }

  lemma ModStep(v: nat, p: nat)
    requires p > 0
    ensures v % 256 + 256 * ((v / 256) % p) == v % (256 * p)
  {
    var q, r := (v / 256) / p, (v / 256) % p;
    assert v == 256 * (q * p + r) + v % 256;
    assert v == q * (256 * p) + (256 * r + v % 256) by {
      assert 256 * (q * p) == q * (256 * p);
    }
    assert 256 * r + v % 256 < 256 * p;
    RemainderUnique(v, 256 * p, q, 256 * r + v % 256);
  }

  /** A non-zero multiple of m is at least m away from zero. */
  lemma MultipleIsFar(d: int, m: int)
    requires d != 0 && m > 0
    ensures d * m >= m || d * m <= -m
  {
    if d > 0 {
      assert (d - 1) * m >= 0;
    } else {
      assert (-d - 1) * m >= 0;
    }
  }

  lemma RemainderUnique(v: int, m: int, q: int, r: int)
    requires m > 0 && 0 <= r < m && v == q * m + r
    ensures v % m == r && v / m == q
  {
    var d := v / m - q;
    assert d * m == r - v % m by {
      assert v == (v / m) * m + v % m;
      assert d * m == (v / m) * m - q * m;
    }
    if d != 0 {
      MultipleIsFar(d, m);
    }
  }

  lemma {:induction false} FromLittleEndianRoundTrip(s: seq<Byte>)
    ensures LittleEndian(|s|, FromLittleEndian(s)) == s
  {
    if s != [] {
      FromLittleEndianRoundTrip(s[1..]);
      assert FromLittleEndian(s) % 256 == s[0] && FromLittleEndian(s) / 256 == FromLittleEndian(s[1..]);
    }
  }

  /** A signed number of w bytes as the unsigned number with the same bits, and back. */
  function ToUnsigned(w: nat, v: int): (u: nat)
    ensures u < Pow256(w)
  {
    v % Pow256(w)
  }

  function ToSigned(w: nat, u: nat): (v: int)
    requires u < Pow256(w)
  {
    if 2 * u < Pow256(w) then u else u - Pow256(w)
  }

  predicate SignedRange(w: nat, v: int)
  {
    -(Pow256(w) as int) <= 2 * v < Pow256(w)
  }

  lemma TwosComplement(w: nat, v: int)
    requires SignedRange(w, v)
    ensures ToSigned(w, ToUnsigned(w, v)) == v
  {
    if v >= 0 {
      RemainderUnique(v, Pow256(w), 0, v);
    } else {
      RemainderUnique(v, Pow256(w), -1, v + Pow256(w));
    }
  }
}
