/**
 The 128- and 256-bit integers over 64-bit limbs. Machine words are integers below 2^64: `^x` is
 2^64 - 1 - x, `x + 1` wraps, and `byte(x >> 8k)` is byte k of the little-endian form. big.Int is a
 mathematical integer; Bytes and SetBytes are its big-endian magnitude without leading zeros.
 */
module WideInt {
  import opened Wire

  type word = x: int | 0 <= x < TWO64

  const TWO127: int := 0x8000_0000_0000_0000_0000_0000_0000_0000
  const TWO128: int := 0x1_0000_0000_0000_0000_0000_0000_0000_0000
  const TWO255: int := 0x8000_0000_0000_0000_0000_0000_0000_0000_0000_0000_0000_0000_0000_0000_0000_0000
  const TWO256: int := 0x1_0000_0000_0000_0000_0000_0000_0000_0000_0000_0000_0000_0000_0000_0000_0000_0000

  /** Int128 and UInt128 share their layout, as do Int256 and UInt256. */
  datatype Limbs2 = Limbs2(lo: word, hi: word)
  datatype Limbs4 = Limbs4(lo: Limbs2, hi: Limbs2)

  function Not(x: word): word {
    TWO64 - 1 - x
  }

  function Inc(x: word): word {
    if x == TWO64 - 1 then 0 else x + 1
  }

  predicate Top(x: word) {
    x >= TWO63
  }

  // ---------- what the limbs mean ----------

  function U128(v: Limbs2): (n: nat)
    ensures n < TWO128
  {
    v.lo + TWO64 * v.hi
  }

  function I128(v: Limbs2): (n: int)
    ensures -TWO127 <= n < TWO127
  {
    if Top(v.hi) then U128(v) - TWO128 else U128(v)
  }

  function U256(v: Limbs4): (n: nat)
    ensures n < TWO256
  {
    U128(v.lo) + TWO128 * U128(v.hi)
  }

  function I256(v: Limbs4): (n: int)
    ensures -TWO255 <= n < TWO255
  {
    if Top(v.hi.hi) then U256(v) - TWO256 else U256(v)
  }

  lemma LimbsUnique(v: Limbs2, x: Limbs2)
    ensures U128(v) == U128(x) ==> v == x
    ensures I128(v) == I128(x) ==> v == x
  {
    if v.hi < x.hi { assert U128(v) < U128(x); }
    if x.hi < v.hi { assert U128(x) < U128(v); }
  }

  lemma Limbs4Unique(v: Limbs4, x: Limbs4)
    ensures U256(v) == U256(x) ==> v == x
    ensures I256(v) == I256(x) ==> v == x
  {
    LimbsUnique(v.lo, x.lo);
    LimbsUnique(v.hi, x.hi);
    if U128(v.hi) < U128(x.hi) { assert U256(v) < U256(x); }
    if U128(x.hi) < U128(v.hi) { assert U256(x) < U256(v); }
  }

  // ---------- negation ----------

  function Neg128(v: Limbs2): Limbs2 {
    var lo := Inc(Not(v.lo));
    var hi := Not(v.hi);
    Limbs2(lo, if lo == 0 then Inc(hi) else hi)
  }

  /** Negation modulo 2^128; only 0 and the minimum are their own negation. */
  lemma Neg128Exact(v: Limbs2)
    ensures U128(Neg128(v)) == (if U128(v) == 0 then 0 else TWO128 - U128(v))
    ensures Neg128(v) == v <==> U128(v) == 0 || I128(v) == -TWO127
    ensures I128(v) != -TWO127 ==> I128(Neg128(v)) == -I128(v)
  {
  }

  /** + 1 across 256 bits. */
  function Inc256(v: Limbs4): Limbs4 {
    var a := Inc(v.lo.lo);
    var b := if a == 0 then Inc(v.lo.hi) else v.lo.hi;
    var c := if a == 0 && b == 0 then Inc(v.hi.lo) else v.hi.lo;
    var d := if a == 0 && b == 0 && c == 0 then Inc(v.hi.hi) else v.hi.hi;
    Limbs4(Limbs2(a, b), Limbs2(c, d))
  }

  lemma Inc256Exact(v: Limbs4)
    ensures U256(Inc256(v)) == if U256(v) == TWO256 - 1 then 0 else U256(v) + 1
  {
  }

  function Not256(v: Limbs4): (r: Limbs4)
    ensures U256(r) == TWO256 - 1 - U256(v)
  {
    Limbs4(Limbs2(Not(v.lo.lo), Not(v.lo.hi)), Limbs2(Not(v.hi.lo), Not(v.hi.hi)))
  }

  /** neg256 is negation modulo 2^256; only 0 and the minimum are their own negation. */
  method Neg256(v: Limbs4) returns (r: Limbs4)
    ensures U256(r) == (if U256(v) == 0 then 0 else TWO256 - U256(v))
    ensures r == v <==> U256(v) == 0 || I256(v) == -TWO255
    ensures I256(v) != -TWO255 ==> I256(r) == -I256(v)
  {
    var lo := Limbs2(Not(v.lo.lo), Not(v.lo.hi));
    var hi := Limbs2(Not(v.hi.lo), Not(v.hi.hi));
    lo := lo.(lo := Inc(lo.lo));
    if lo.lo == 0 {
      lo := lo.(hi := Inc(lo.hi));
      if lo.hi == 0 {
        hi := hi.(lo := Inc(hi.lo));
        if hi.lo == 0 {
          hi := hi.(hi := Inc(hi.hi));
        }
      }
    }
    r := Limbs4(lo, hi);
    Neg256Exact(v);
    assert r == Inc256(Not256(v));
  }

  lemma Neg256Exact(v: Limbs4)
    ensures var r := Inc256(Not256(v));
            && U256(r) == (if U256(v) == 0 then 0 else TWO256 - U256(v))
            && (r == v <==> U256(v) == 0 || I256(v) == -TWO255)
            && (I256(v) != -TWO255 ==> I256(r) == -I256(v))
  {
    var r := Inc256(Not256(v));
    Inc256Exact(Not256(v));
    TopBit(v);
    TopBit(r);
    Limbs4Unique(r, v);
  }

  /** The sign bit says whether the value is at least half the range. */
  lemma TopBit(v: Limbs4)
    ensures Top(v.hi.hi) <==> U256(v) >= TWO255
  {
  }

  // ---------- comparison ----------

  function Sign(n: int): int {
    if n < 0 then -1 else if n > 0 then 1 else 0
  }

  function Cmp128(v: Limbs2, x: Limbs2): int {
    if Top(v.hi) != Top(x.hi) then (if Top(v.hi) then -1 else 1)
    else if v.hi != x.hi then (if v.hi < x.hi then -1 else 1)
    else if v.lo != x.lo then (if v.lo < x.lo then -1 else 1)
    else 0
  }

  function CmpU128(v: Limbs2, x: Limbs2): int {
    if v.hi != x.hi then (if v.hi < x.hi then -1 else 1)
    else if v.lo != x.lo then (if v.lo < x.lo then -1 else 1)
    else 0
  }

  /** The low halves are compared as signed numbers, as the code does. */
  function Cmp256(v: Limbs4, x: Limbs4): int {
    if Top(v.hi.hi) != Top(x.hi.hi) then (if Top(v.hi.hi) then -1 else 1)
    else if Cmp128(v.hi, x.hi) != 0 then Cmp128(v.hi, x.hi)
    else Cmp128(v.lo, x.lo)
  }

  function CmpU256(v: Limbs4, x: Limbs4): int {
    if CmpU128(v.hi, x.hi) != 0 then CmpU128(v.hi, x.hi) else CmpU128(v.lo, x.lo)
  }

  lemma Cmp128Exact(v: Limbs2, x: Limbs2)
    ensures Cmp128(v, x) == Sign(I128(v) - I128(x))
    ensures CmpU128(v, x) == Sign(U128(v) - U128(x))
  {
  }

  lemma CmpU256Exact(v: Limbs4, x: Limbs4)
    ensures CmpU256(v, x) == Sign(U256(v) - U256(x))
  {
    Cmp128Exact(v.hi, x.hi);
    Cmp128Exact(v.lo, x.lo);
    Halves(U128(v.lo), U128(x.lo), U128(v.hi), U128(x.hi));
  }

  lemma Halves(a: nat, b: nat, h: nat, g: nat)
    requires a < TWO128 && b < TWO128
    ensures Sign((a + TWO128 * h) - (b + TWO128 * g)) == if h != g then Sign(h - g) else Sign(a - b)
  {
  }

  /** Int256.Cmp is right exactly when it does not come down to low halves of different top bit. */
  lemma Cmp256Exact(v: Limbs4, x: Limbs4)
    ensures Cmp256(v, x) == Sign(I256(v) - I256(x)) <==> v.hi != x.hi || Top(v.lo.hi) == Top(x.lo.hi)
  {
    Cmp128Exact(v.hi, x.hi);
    Cmp128Exact(v.lo, x.lo);
    LimbsUnique(v.hi, x.hi);
    Halves(U128(v.lo), U128(x.lo), U128(v.hi), U128(x.hi));
  }

  /** 2^127 against 1: the larger is reported smaller. */
  lemma Cmp256Wrong()
    ensures var v, x := Limbs4(Limbs2(0, TWO63), Limbs2(0, 0)), Limbs4(Limbs2(1, 0), Limbs2(0, 0));
            I256(v) == TWO127 && I256(x) == 1 && Cmp256(v, x) == -1
  {
  }

  // ---------- bytes ----------

  /** The value of big-endian bytes: SetBytes. */
  function BEVal(s: seq<byte>): nat {
    if s == [] then 0 else BEVal(s[..|s| - 1]) * 256 + s[|s| - 1]
  }

  /** big.Int.Bytes: no leading zero byte. */
  function BEBytes(n: nat): (s: seq<byte>)
    ensures BEVal(s) == n
  {
    if n == 0 then []
    else
      var s := BEBytes(n / 256);
      assert (s + [n % 256])[..|s|] == s;
      s + [n % 256]
  }

  lemma {:induction false} BEBytesLength(n: nat, w: nat)
    ensures |BEBytes(n)| <= w <==> n < Pow256(w)
    decreases n
  {
    if n == 0 || w == 0 {
    } else {
      BEBytesLength(n / 256, w - 1);
    }
  }

  function Reverse(s: seq<byte>): (r: seq<byte>)
    ensures |r| == |s| && forall i :: 0 <= i < |s| ==> r[i] == s[|s| - 1 - i]
  {
    seq(|s|, i requires 0 <= i < |s| => s[|s| - 1 - i])
  }

  lemma {:induction false} ReverseVal(s: seq<byte>)
    ensures BEVal(Reverse(s)) == LEVal(s)
  {
    if s == [] {
    } else {
      ReverseVal(s[1..]);
      assert Reverse(s)[..|s| - 1] == Reverse(s[1..]);
    }
  }

  lemma {:induction false} LeadingZeros(z: nat, s: seq<byte>)
    ensures BEVal(seq(z, _ => 0) + s) == BEVal(s)
  {
    var zs: seq<byte> := seq(z, _ => 0);
    if s == [] {
      assert zs + s == zs;
      ZerosVal(z);
    } else {
      LeadingZeros(z, s[..|s| - 1]);
      assert (zs + s)[..z + |s| - 1] == zs + s[..|s| - 1];
    }
  }

  lemma {:induction false} ZerosVal(z: nat)
    ensures BEVal(seq(z, _ => 0)) == 0
  {
    if z == 0 {
    } else {
      ZerosVal(z - 1);
      assert seq(z, _ => 0 as byte)[..z - 1] == seq(z - 1, _ => 0 as byte);
    }
  }

  /** The two-pointer swap loop. */
  method ReverseInPlace(buf: array<byte>)
    modifies buf
    ensures buf[..] == Reverse(old(buf[..]))
  {
    var i, j := 0, buf.Length - 1;
    while i < j
      invariant 0 <= i <= j + 1 && i + j == buf.Length - 1
      invariant forall k :: 0 <= k < i || j < k < buf.Length ==> buf[k] == old(buf[buf.Length - 1 - k])
      invariant forall k :: i <= k <= j ==> buf[k] == old(buf[k])
    {
      buf[i], buf[j] := buf[j], buf[i];
      i, j := i + 1, j - 1;
    }
    assert forall k :: 0 <= k < buf.Length ==> buf[..][k] == Reverse(old(buf[..]))[k];
  }

  /** s with t written over it from position at. */
  function Splice(s: seq<byte>, at: nat, t: seq<byte>): (r: seq<byte>)
    requires at + |t| <= |s|
    ensures |r| == |s| && r[at..at + |t|] == t
    ensures r[..at] == s[..at] && r[at + |t|..] == s[at + |t|..]
  {
    s[..at] + t + s[at + |t|..]
  }

  lemma SpliceTwice(s: seq<byte>, at: nat, t: seq<byte>, u: seq<byte>)
    requires at + |t| + |u| <= |s|
    ensures Splice(Splice(s, at, t), at + |t|, u) == Splice(s, at, t + u)
  {
    var first, m := Splice(s, at, t), at + |t|;
    assert first[..m] == s[..at] + t;
    assert first[m + |u|..] == s[m + |u|..];
    assert s[..at] + t + u == s[..at] + (t + u);
  }

  /** The eight shifted bytes of a limb into buf. */
  method PutWord(buf: array<byte>, at: nat, x: word)
    requires at + 8 <= buf.Length
    modifies buf
    ensures buf[..] == Splice(old(buf[..]), at, LE(x, 8))
  {
    ghost var bytes := LE(x, 8);
    for i := 0 to 8
      invariant forall k :: 0 <= k < i ==> buf[at + k] == bytes[k]
      invariant forall k :: 0 <= k < buf.Length && !(at <= k < at + i) ==> buf[k] == old(buf[k])
    {
      LEAt(x, 8, i);
      buf[at + i] := ByteOf(x, i);
    }
    forall k | 0 <= k < buf.Length
      ensures buf[..][k] == Splice(old(buf[..]), at, bytes)[k]
    {
      if at <= k < at + 8 { assert buf[at + (k - at)] == bytes[k - at]; }
    }
  }

  function LimbBytes(v: Limbs2): (s: seq<byte>)
    ensures |s| == 16
  {
    LE(v.lo, 8) + LE(v.hi, 8)
  }

  method PutLE128(buf: array<byte>, at: nat, v: Limbs2)
    requires at + 16 <= buf.Length
    modifies buf
    ensures buf[..] == Splice(old(buf[..]), at, LimbBytes(v))
  {
    ghost var was := buf[..];
    PutWord(buf, at, v.lo);
    PutWord(buf, at + 8, v.hi);
    SpliceTwice(was, at, LE(v.lo, 8), LE(v.hi, 8));
  }

  lemma LimbBytesVal(v: Limbs2)
    ensures LEVal(LimbBytes(v)) == U128(v)
  {
    Pow8();
    LERoundTrip(v.lo, 8);
    LERoundTrip(v.hi, 8);
    LESplit(LE(v.lo, 8), LE(v.hi, 8));
  }

  lemma LimbBytes4Val(v: Limbs4)
    ensures LEVal(LimbBytes(v.lo) + LimbBytes(v.hi)) == U256(v)
  {
    LimbBytesVal(v.lo);
    LimbBytesVal(v.hi);
    LESplit(LimbBytes(v.lo), LimbBytes(v.hi));
    Pow16();
  }

  lemma Pow16()
    ensures Pow256(16) == TWO128
  {
    Pow8();
    assert Pow256(12) == 0x1_0000_0000 * Pow256(8);
    assert Pow256(16) == 0x1_0000_0000 * Pow256(12);
  }

  lemma Pow32()
    ensures Pow256(32) == TWO256
  {
    Pow16();
    assert Pow256(20) == 0x1_0000_0000 * Pow256(16);
    assert Pow256(24) == 0x1_0000_0000 * Pow256(20);
    assert Pow256(28) == 0x1_0000_0000 * Pow256(24);
    assert Pow256(32) == 0x1_0000_0000 * Pow256(28);
  }

  lemma {:induction false} PowBytes(k: nat)
    ensures Pow2(8 * k) == Pow256(k)
  {
    if k == 0 {
    } else {
      PowBytes(k - 1);
      var n := 8 * (k - 1);
      assert Pow2(n + 8) == 4 * Pow2(n + 6) && Pow2(n + 6) == 4 * Pow2(n + 4);
      assert Pow2(n + 4) == 4 * Pow2(n + 2) && Pow2(n + 2) == 4 * Pow2(n);
    }
  }

  /** The first bytes, each shifted to its place, joined with |. */
  function Joined(s: seq<byte>, k: nat): nat
    requires k <= |s|
  {
    if k == 0 then 0 else Or(Joined(s, k - 1), Shl(s[k - 1], 8 * (k - 1)))
  }

  /** No bit of a byte is lost by the shift to a place within a word. */
  lemma ShlByte(b: byte, k: nat)
    requires k < 8
    ensures Shl(b, 8 * k) == b * Pow256(k)
  {
    PowBytes(k);
    Pow8();
    MulStep(Pow256(k), b, 256);
    Pow256Monotone(k + 1, 8);
  }

  lemma {:induction false} Pow256Monotone(i: nat, j: nat)
    requires i <= j
    ensures Pow256(i) <= Pow256(j)
  {
    if i == j {
    } else {
      Pow256Monotone(i, j - 1);
    }
  }

  /** A shifted byte shares no bit with those before it, so that | adds it. */
  lemma JoinByte(x: nat, b: byte, k: nat)
    requires k < 8 && x < Pow256(k)
    ensures Or(x, Shl(b, 8 * k)) == x + Pow256(k) * b
  {
    ShlByte(b, k);
    PowBytes(k);
    OrDisjoint(x, b, 8 * k);
  }

  lemma {:induction false} JoinedVal(s: seq<byte>, k: nat)
    requires k <= |s| && k <= 8
    ensures Joined(s, k) == LEVal(s[..k])
  {
    if k == 0 {
    } else {
      var before, last := s[..k - 1], s[k - 1];
      JoinedVal(s, k - 1);
      LEBound(before);
      JoinByte(LEVal(before), last, k - 1);
      LESplit(before, [last]);
      assert before + [last] == s[..k] && LEVal([last]) == last;
    }
  }

  /** readLE64 */
  function Word(s: seq<byte>): (x: word)
    requires |s| == 8
    ensures x == LEVal(s)
  {
    JoinedVal(s, 8);
    assert s[..8] == s;
    LEBound(s);
    Pow8();
    Joined(s, 8)
  }

  /** The limbs of 16 little-endian bytes. */
  function LimbsOf(s: seq<byte>): (v: Limbs2)
    requires |s| == 16
    ensures U128(v) == LEVal(s)
  {
    LESplit(s[..8], s[8..]);
    assert s[..8] + s[8..] == s;
    Pow8();
    Limbs2(Word(s[..8]), Word(s[8..]))
  }

  /** Little-endian bytes of the magnitude n: big-endian, right-aligned in w bytes, reversed. */
  method MagnitudeBytes(n: nat, w: nat) returns (ok: bool, le: seq<byte>)
    ensures ok <==> n < Pow256(w)
    ensures ok ==> |le| == w && LEVal(le) == n
  {
    BEBytesLength(n, w);
    var b := BEBytes(n);
    if |b| > w { return false, []; }
    var be := RightAligned(b, w);
    ReversedVal(w - |b|, b);
    ReverseInPlace(be);
    return true, be[..];
  }

  /** The end of a zeroed array of w bytes. */
  method RightAligned(b: seq<byte>, w: nat) returns (be: array<byte>)
    requires |b| <= w
    ensures fresh(be) && be[..] == seq(w - |b|, _ => 0) + b
  {
    be := new byte[w](_ => 0);
    forall i | 0 <= i < |b| {
      be[w - |b| + i] := b[i];
    }
  }

  lemma ReversedVal(z: nat, b: seq<byte>)
    ensures var filled := seq(z, _ => 0) + b; LEVal(Reverse(filled)) == BEVal(b)
  {
    var filled: seq<byte> := seq(z, _ => 0) + b;
    LeadingZeros(z, b);
    assert Reverse(Reverse(filled)) == filled;
    ReverseVal(Reverse(filled));
  }

  method UInt128ToBigInt(v: Limbs2) returns (bi: int)
    ensures bi == U128(v)
  {
    var buf := new byte[16](_ => 0);
    PutLE128(buf, 0, v);
    assert buf[..] == LimbBytes(v);
    LimbBytesVal(v);
    ReverseVal(buf[..]);
    ReverseInPlace(buf);
    bi := BEVal(buf[..]);
  }

  method Int128ToBigInt(v: Limbs2) returns (bi: int)
    ensures bi == I128(v)
  {
    bi := UInt128ToBigInt(v);
    if Top(v.hi) { bi := bi - TWO128; }
  }

  /** A *big.Int argument. */
  datatype BigInt = Nil | Big(n: int)

  /** Succeeds exactly on [-2^127, 2^127), with the limbs of that value. */
  method Int128FromBigInt(bi: BigInt) returns (r: Outcome<Limbs2>)
    ensures r.Done? <==> bi.Big? && -TWO127 <= bi.n < TWO127
    ensures r.Done? ==> I128(r.value) == bi.n
  {
    if bi == Nil { return Failed(Malformed); }
    var neg := bi.n < 0;
    var mag := if neg then -bi.n else bi.n;
    Pow16();
    var ok, le := MagnitudeBytes(mag, 16);
    if !ok { return Failed(Overflow); }
    var v := LimbsOf(le);
    if neg {
      Neg128Exact(v);
      v := Neg128(v);
      if !Top(v.hi) { return Failed(Overflow); }
    } else if Top(v.hi) {
      return Failed(Overflow);
    }
    return Done(v);
  }

  /** Succeeds exactly on [0, 2^128). */
  method UInt128FromBigInt(bi: BigInt) returns (r: Outcome<Limbs2>)
    ensures r.Done? <==> bi.Big? && 0 <= bi.n < TWO128
    ensures r.Done? ==> U128(r.value) == bi.n
  {
    if bi == Nil { return Failed(Malformed); }
    if bi.n < 0 { return Failed(Overflow); }
    Pow16();
    var ok, le := MagnitudeBytes(bi.n, 16);
    if !ok { return Failed(Overflow); }
    return Done(LimbsOf(le));
  }

  method UInt256ToBigInt(v: Limbs4) returns (bi: int)
    ensures bi == U256(v)
  {
    var buf := new byte[32](_ => 0);
    ghost var was := buf[..];
    PutLE128(buf, 0, v.lo);
    PutLE128(buf, 16, v.hi);
    SpliceTwice(was, 0, LimbBytes(v.lo), LimbBytes(v.hi));
    assert buf[..] == LimbBytes(v.lo) + LimbBytes(v.hi);
    LimbBytes4Val(v);
    ReverseVal(buf[..]);
    ReverseInPlace(buf);
    bi := BEVal(buf[..]);
  }

  method Int256ToBigInt(v: Limbs4) returns (bi: int)
    ensures bi == I256(v)
  {
    bi := UInt256ToBigInt(v);
    if Top(v.hi.hi) { bi := bi - TWO256; }
  }

  function Limbs4Of(s: seq<byte>): (v: Limbs4)
    requires |s| == 32
    ensures U256(v) == LEVal(s)
  {
    LESplit(s[..16], s[16..]);
    assert s[..16] + s[16..] == s;
    Pow16();
    Limbs4(LimbsOf(s[..16]), LimbsOf(s[16..]))
  }

  /** Succeeds exactly on [-2^255, 2^255), with the limbs of that value. */
  method Int256FromBigInt(bi: BigInt) returns (r: Outcome<Limbs4>)
    ensures r.Done? <==> bi.Big? && -TWO255 <= bi.n < TWO255
    ensures r.Done? ==> I256(r.value) == bi.n
  {
    if bi == Nil { return Failed(Malformed); }
    var neg := bi.n < 0;
    var mag := if neg then -bi.n else bi.n;
    Pow32();
    var ok, le := MagnitudeBytes(mag, 32);
    if !ok { return Failed(Overflow); }
    var v := Limbs4Of(le);
    TopBit(v);
    if neg {
      v := Neg256(v);
      TopBit(v);
      if !Top(v.hi.hi) { return Failed(Overflow); }
    } else if Top(v.hi.hi) {
      return Failed(Overflow);
    }
    return Done(v);
  }

  /** Succeeds exactly on [0, 2^256). */
  method UInt256FromBigInt(bi: BigInt) returns (r: Outcome<Limbs4>)
    ensures r.Done? <==> bi.Big? && 0 <= bi.n < TWO256
    ensures r.Done? ==> U256(r.value) == bi.n
  {
    if bi == Nil { return Failed(Malformed); }
    if bi.n < 0 { return Failed(Overflow); }
    Pow32();
    var ok, le := MagnitudeBytes(bi.n, 32);
    if !ok { return Failed(Overflow); }
    return Done(Limbs4Of(le));
  }

  /** Converting to big.Int and back gives every pattern of limbs again. */
  method Int128Back(v: Limbs2) returns (r: Outcome<Limbs2>)
    ensures r == Done(v)
  {
    var bi := Int128ToBigInt(v);
    r := Int128FromBigInt(Big(bi));
    LimbsUnique(v, r.value);
  }

  method Int256Back(v: Limbs4) returns (r: Outcome<Limbs4>)
    ensures r == Done(v)
  {
    var bi := Int256ToBigInt(v);
    r := Int256FromBigInt(Big(bi));
    Limbs4Unique(v, r.value);
  }

  method UInt128Back(v: Limbs2) returns (r: Outcome<Limbs2>)
    ensures r == Done(v)
  {
    var bi := UInt128ToBigInt(v);
    r := UInt128FromBigInt(Big(bi));
    LimbsUnique(v, r.value);
  }

  method UInt256Back(v: Limbs4) returns (r: Outcome<Limbs4>)
    ensures r == Done(v)
  {
    var bi := UInt256ToBigInt(v);
    r := UInt256FromBigInt(Big(bi));
    Limbs4Unique(v, r.value);
  }
}
