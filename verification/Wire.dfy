/** Bytes on the wire: parse results, little-endian numbers and unsigned LEB128 varints. */
module Wire {

  type byte = x: int | 0 <= x < 256

  const MAX_INT: int := 0x7fff_ffff_ffff_ffff
  const TWO63: int := 0x8000_0000_0000_0000
  const TWO64: int := 0x1_0000_0000_0000_0000

  /** Why an operation stopped. `Panic` stands for a Go run-time panic. */
  datatype Fault = ShortRead | Overflow | Malformed | Panic | Mismatch | Server | Canceled

  /** The result of a parse: the value read and the bytes not yet read, or a fault. */
  datatype Parsed<+T> = Ok(value: T, rest: seq<byte>) | Err(fault: Fault)

  /** The result of an operation on mutable state. */
  datatype Outcome<+T> = Done(value: T) | Failed(fault: Fault)

  function Take(n: nat, s: seq<byte>): Parsed<seq<byte>> {
    if |s| < n then Err(ShortRead) else Ok(s[..n], s[n..])
  }

  lemma TakeExact(a: seq<byte>, tail: seq<byte>)
    ensures Take(|a|, a + tail) == Ok(a, tail)
  {
    assert (a + tail)[..|a|] == a && (a + tail)[|a|..] == tail;
  }

  /** A Go uint64 converted to a Go int on a 64-bit host. */
  function ToInt(u: nat): (i: int)
    ensures u < TWO64 ==> -TWO63 <= i < TWO63 && (i == u || i == u - TWO64)
  {
    if u < TWO63 then u else u - TWO64
  }

  // ---------- little-endian numbers ----------

  function Pow256(n: nat): (p: nat)
    ensures p > 0
  {
    if n == 0 then 1 else 256 * Pow256(n - 1)
  }

  function Pow2(n: nat): (p: nat)
    ensures p > 0
  {
    if n == 0 then 1 else 2 * Pow2(n - 1)
  }

  lemma {:induction false} MulMonotone(n: nat, a: nat, b: nat)
    requires a <= b
    ensures n * a <= n * b && a * n <= b * n
  {
    if a == b {
    } else {
      MulMonotone(n, a, b - 1);
      assert b * n == (b - 1) * n + n;
    }
  }

  lemma MulStep(n: nat, a: nat, b: nat)
    requires a < b
    ensures n * a + n <= n * b && a * n + n <= b * n
  {
    MulMonotone(n, a + 1, b);
    assert (a + 1) * n == a * n + n;
  }

  lemma DivUnique(a: nat, b: nat, q: nat)
    requires b > 0 && b * q <= a < b * q + b
    ensures a / b == q
  {
    var p := a / b;
    assert b * p <= a < b * p + b by { assert a == b * p + a % b; }
    if p < q { MulStep(b, p, q); }
    if q < p { MulStep(b, q, p); }
  }

  /** a * w, unfolded by addition. */
  function Times(a: nat, w: nat): nat {
    if a == 0 then 0 else Times(a - 1, w) + w
  }

  lemma {:induction false} TimesMul(a: nat, w: nat)
    ensures Times(a, w) == a * w
  {
    if a == 0 {
    } else {
      TimesMul(a - 1, w);
    }
  }

  /** The w low bytes of n, least significant first. */
  function LE(n: nat, w: nat): (s: seq<byte>)
    ensures |s| == w
  {
    if w == 0 then [] else [n % 256] + LE(n / 256, w - 1)
  }

  /** Byte k of n: n shifted right by 8 * k bits and cut to a byte. */
  function ByteOf(n: nat, k: nat): byte {
    n / Pow256(k) % 256
  }

  lemma DivDiv(n: nat, b: nat, p: nat)
    requires b in {128, 256} && p > 0
    ensures b * p > 0 && n / b / p == n / (b * p)
  {
    var m := n / b;
    var q := m / p;
    assert m == p * q + m % p;
    assert (b * p) * q == b * (p * q);
    DivUnique(n, b * p, q);
  }

  /** The little-endian bytes of n are its shifted and cut bytes. */
  lemma {:induction false} LEAt(n: nat, w: nat, k: nat)
    requires k < w
    ensures LE(n, w)[k] == ByteOf(n, k)
    decreases k
  {
    if k == 0 {
    } else {
      LEAt(n / 256, w - 1, k - 1);
      DivDiv(n, 256, Pow256(k - 1));
    }
  }

  function LEVal(s: seq<byte>): nat {
    if s == [] then 0 else s[0] + 256 * LEVal(s[1..])
  }

  lemma {:induction false} LERoundTrip(n: nat, w: nat)
    ensures LEVal(LE(n, w)) == n <==> n < Pow256(w)
  {
    if w == 0 {
    } else {
      LERoundTrip(n / 256, w - 1);
      assert LE(n, w)[1..] == LE(n / 256, w - 1);
      LEBound(LE(n / 256, w - 1));
      LEBound(LE(n, w));
    }
  }

  lemma {:induction false} LEBound(s: seq<byte>)
    ensures LEVal(s) < Pow256(|s|)
  {
    if s == [] {
    } else {
      LEBound(s[1..]);
    }
  }

  lemma {:induction false} LEInverse(s: seq<byte>)
    ensures LE(LEVal(s), |s|) == s
  {
    if s == [] {
    } else {
      LEInverse(s[1..]);
    }
  }

  lemma {:induction false} LESplit(a: seq<byte>, b: seq<byte>)
    ensures LEVal(a + b) == LEVal(a) + Pow256(|a|) * LEVal(b)
  {
    if a == [] {
      assert a + b == b;
    } else {
      assert (a + b)[1..] == a[1..] + b;
      LESplit(a[1..], b);
      assert 256 * (Pow256(|a| - 1) * LEVal(b)) == Pow256(|a|) * LEVal(b);
    }
  }

  // ---------- shifts and the bitwise or ----------

  /** uint64(b) << s */
  function Shl(b: nat, s: nat): nat {
    b * Pow2(s) % TWO64
  }

  /** x | y of Go's unsigned integers. */
  function Or(x: nat, y: nat): nat
    decreases x + y
  {
    if x == 0 then y
    else if y == 0 then x
    else (if x % 2 == 1 || y % 2 == 1 then 1 else 0) + 2 * Or(x / 2, y / 2)
  }

  /** Numbers that share no bit: one below 2^s and a multiple of it. */
  lemma {:induction false} OrDisjoint(x: nat, y: nat, s: nat)
    requires x < Pow2(s)
    ensures Or(x, y * Pow2(s)) == x + y * Pow2(s)
  {
    if s == 0 || x == 0 {
    } else {
      var half := y * Pow2(s - 1);
      assert y * Pow2(s) == 2 * half;
      OrDisjoint(x / 2, y, s - 1);
    }
  }

  // ---------- unsigned varints ----------

  function UVarint(x: nat): (s: seq<byte>)
    ensures s != []
  {
    if x < 128 then [x] else [x % 128 + 128] + UVarint(x / 128)
  }

  function Pow128(n: nat): (p: nat)
    ensures p > 0
  {
    if n == 0 then 1 else 128 * Pow128(n - 1)
  }

  /** Byte k of a varint holds bits 7k to 7k + 6; all but the last have a continuation bit. */
  lemma {:induction false} VarintBytes(x: nat, k: nat)
    requires k < |UVarint(x)|
    ensures UVarint(x)[k] == x / Pow128(k) % 128 + if k < |UVarint(x)| - 1 then 128 else 0
    decreases k
  {
    if k == 0 {
    } else {
      var p := Pow128(k - 1);
      DivDiv(x, 128, p);
      assert UVarint(x)[k] == UVarint(x / 128)[k - 1] && Pow128(k) == 128 * p;
      VarintBytes(x / 128, k - 1);
    }
  }

  lemma {:induction false} VarintBelow(x: nat)
    ensures x < Pow128(|UVarint(x)|)
  {
    if x < 128 {
      assert Pow128(1) == 128;
    } else {
      VarintBelow(x / 128);
    }
  }

  /** What is still representable in 64 bits once i groups have been read. */
  function Room(i: nat): (r: nat)
    requires i <= 9
    ensures r >= 2
    decreases 9 - i
  {
    if i == 9 then 2 else 128 * Room(i + 1)
  }

  /** Reads 7-bit groups, the next one being group i; at most ten groups, the last at most 1. */
  function ReadGroups(s: seq<byte>, i: nat): (r: Parsed<nat>)
    ensures r.Ok? ==> |r.rest| < |s| && i <= 9 && r.value < Room(i)
    decreases |s|
  {
    if i >= 10 then Err(Overflow)
    else if s == [] then Err(ShortRead)
    else if s[0] < 128 then
      if i == 9 && s[0] > 1 then Err(Overflow) else Ok(s[0], s[1..])
    else
      match ReadGroups(s[1..], i + 1)
      case Ok(v, rest) => Ok(s[0] % 128 + 128 * v, rest)
      case Err(f) => Err(f)
  }

  function ReadUVarint(s: seq<byte>): (r: Parsed<nat>)
    ensures r.Ok? ==> |r.rest| < |s| && r.value < TWO64
  {
    RoomAll();
    ReadGroups(s, 0)
  }

  lemma RoomAll()
    ensures Room(0) == TWO64
  {
    assert Room(9) == 2;
    assert Room(8) == 0x100;
    assert Room(7) == 0x8000;
    assert Room(6) == 0x40_0000;
    assert Room(5) == 0x2000_0000;
    assert Room(4) == 0x10_0000_0000;
    assert Room(3) == 0x800_0000_0000;
    assert Room(2) == 0x4_0000_0000_0000;
    assert Room(1) == 0x200_0000_0000_0000;
  }

  lemma {:induction false} GroupsRoundTrip(x: nat, tail: seq<byte>, i: nat)
    requires i <= 9 && x < Room(i)
    ensures ReadGroups(UVarint(x) + tail, i) == Ok(x, tail)
    decreases x
  {
    var s := UVarint(x) + tail;
    if x < 128 {
      assert s[1..] == tail;
    } else {
      assert s[1..] == UVarint(x / 128) + tail;
      GroupsRoundTrip(x / 128, tail, i + 1);
    }
  }

  /** Every 64-bit number is read back from its encoding, whatever follows it. */
  lemma VarintRoundTrip(x: nat, tail: seq<byte>)
    requires x < TWO64
    ensures ReadUVarint(UVarint(x) + tail) == Ok(x, tail)
  {
    RoomAll();
    GroupsRoundTrip(x, tail, 0);
  }

  /** No input that reads as a number is shorter than the varint written for it. */
  lemma VarintShortest(s: seq<byte>)
    ensures var r := ReadUVarint(s); r.Ok? ==> |UVarint(r.value)| + |r.rest| <= |s|
  {
    GroupsShortest(s, 0);
  }

  lemma {:induction false} GroupsShortest(s: seq<byte>, i: nat)
    ensures var r := ReadGroups(s, i); r.Ok? ==> |UVarint(r.value)| + |r.rest| <= |s|
    decreases |s|
  {
    if ReadGroups(s, i).Err? || s[0] < 128 {
    } else {
      GroupsShortest(s[1..], i + 1);
    }
  }

  function GroupSum(s: seq<byte>): nat {
    if s == [] then 0 else s[0] % 128 + 128 * GroupSum(s[1..])
  }

  /** The first byte without a continuation bit is byte k. */
  predicate TerminatedAt(s: seq<byte>, k: nat) {
    k < |s| && s[k] < 128 && forall j :: 0 <= j < k ==> s[j] >= 128
  }

  predicate Unterminated(s: seq<byte>) {
    forall j :: 0 <= j < |s| ==> s[j] >= 128
  }

  lemma {:induction false} GroupsExact(s: seq<byte>, i: nat, k: nat)
    requires i <= 9 && TerminatedAt(s, k)
    ensures ReadGroups(s, i) ==
            if i + k <= 9 && GroupSum(s[..k + 1]) < Room(i)
            then Ok(GroupSum(s[..k + 1]), s[k + 1..]) else Err(Overflow)
    decreases k
  {
    assert s[..k + 1][1..] == s[1..][..k];
    if k == 0 {
      assert GroupSum(s[..1]) == s[0];
    } else if i < 9 {
      GroupsExact(s[1..], i + 1, k - 1);
      assert s[1..][k..] == s[k + 1..];
    }
  }

  lemma {:induction false} GroupsUnterminated(s: seq<byte>, i: nat)
    requires i <= 10 && Unterminated(s)
    ensures ReadGroups(s, i) == Err(if |s| + i < 10 then ShortRead else Overflow)
    decreases |s|
  {
    if i == 10 || s == [] {
    } else {
      GroupsUnterminated(s[1..], i + 1);
    }
  }

  /** Exactly which inputs are accepted, with which value, and why the others are not. */
  lemma VarintExact(s: seq<byte>)
    ensures forall k {:trigger TerminatedAt(s, k)} :: TerminatedAt(s, k) ==>
              ReadUVarint(s) ==
              if k <= 9 && GroupSum(s[..k + 1]) < TWO64
              then Ok(GroupSum(s[..k + 1]), s[k + 1..]) else Err(Overflow)
    ensures Unterminated(s) ==> ReadUVarint(s) == Err(if |s| < 10 then ShortRead else Overflow)
    ensures ReadUVarint(s).Ok? ==> exists k :: TerminatedAt(s, k) && k <= 9
  {
    RoomAll();
    forall k | TerminatedAt(s, k) { GroupsExact(s, 0, k); }
    if Unterminated(s) {
      GroupsUnterminated(s, 0);
    } else {
      var k := FirstEnd(s);
      assert TerminatedAt(s, k);
      GroupsExact(s, 0, k);
    }
  }

  ghost function FirstEnd(s: seq<byte>): (k: nat)
    requires !Unterminated(s)
    ensures TerminatedAt(s, k)
  {
    if s[0] < 128 then 0
    else
      assert !Unterminated(s[1..]) by {
        var j :| 0 <= j < |s| && s[j] < 128;
        assert s[1..][j - 1] < 128;
      }
      1 + FirstEnd(s[1..])
  }

  // ---------- length-prefixed strings and bytes read one by one ----------

  function PutStr(b: seq<byte>): seq<byte> {
    UVarint(|b|) + b
  }

  /** A length from 2^63 on becomes a negative Go int, which no caller survives. */
  function GetStr(s: seq<byte>): (r: Parsed<seq<byte>>)
    ensures r.Ok? ==> |r.rest| < |s|
  {
    match ReadUVarint(s)
    case Err(f) => Err(f)
    case Ok(n, rest) => if n >= TWO63 then Err(Panic) else Take(n, rest)
  }

  /** The length as a varint, then the bytes. */
  lemma StrFormat(b: seq<byte>)
    requires |b| <= MAX_INT
    ensures ReadUVarint(PutStr(b)) == Ok(|b|, b)
  {
    VarintRoundTrip(|b|, b);
  }

  lemma StrRoundTrip(b: seq<byte>, tail: seq<byte>)
    requires |b| <= MAX_INT
    ensures GetStr(PutStr(b) + tail) == Ok(b, tail)
  {
    assert PutStr(b) + tail == UVarint(|b|) + (b + tail);
    VarintRoundTrip(|b|, b + tail);
    TakeExact(b, tail);
  }

  function GetBool(s: seq<byte>): (r: Parsed<bool>)
    ensures r.Ok? ==> |r.rest| < |s|
  {
    if s == [] then Err(ShortRead)
    else if s[0] > 1 then Err(Malformed)
    else Ok(s[0] == 1, s[1..])
  }

  function GetLE(w: nat, s: seq<byte>): (r: Parsed<nat>)
    ensures r.Ok? ==> |r.rest| + w == |s|
  {
    match Take(w, s)
    case Err(f) => Err(f)
    case Ok(b, rest) => Ok(LEVal(b), rest)
  }

  lemma LEReadBack(n: nat, w: nat, tail: seq<byte>)
    requires n < Pow256(w)
    ensures GetLE(w, LE(n, w) + tail) == Ok(n, tail)
  {
    TakeExact(LE(n, w), tail);
    LERoundTrip(n, w);
  }

  lemma Pow8()
    ensures Pow256(8) == TWO64
  {
    assert Pow256(4) == 0x1_0000_0000;
    assert Pow256(8) == 256 * (256 * (256 * (256 * Pow256(4))));
  }

  /** The unread part of a connection's input. */
  class Reader {
    var rest: seq<byte>

    constructor (input: seq<byte>)
      ensures rest == input
    {
      rest := input;
    }

    method ReadFull(n: nat) returns (r: Outcome<seq<byte>>)
      modifies this
      ensures match Take(n, old(rest))
              case Ok(b, s) => r == Done(b) && rest == s
              case Err(f) => r == Failed(f)
    {
      if |rest| < n { return Failed(ShortRead); }
      r := Done(rest[..n]);
      rest := rest[n..];
    }

    method UVarInt() returns (r: Outcome<nat>)
      modifies this
      ensures match ReadUVarint(old(rest))
              case Ok(v, s) => r == Done(v) && rest == s
              case Err(f) => r == Failed(f)
    {
      match ReadUVarint(rest)
      case Ok(v, s) => rest := s; r := Done(v);
      case Err(f) => r := Failed(f);
    }

    method Str() returns (r: Outcome<seq<byte>>)
      modifies this
      ensures match GetStr(old(rest))
              case Ok(v, s) => r == Done(v) && rest == s
              case Err(f) => r == Failed(f)
    {
      match GetStr(rest)
      case Ok(v, s) => rest := s; r := Done(v);
      case Err(f) => r := Failed(f);
    }

    method Number(w: nat) returns (r: Outcome<nat>)
      modifies this
      ensures match GetLE(w, old(rest))
              case Ok(v, s) => r == Done(v) && rest == s
              case Err(f) => r == Failed(f)
    {
      match GetLE(w, rest)
      case Ok(v, s) => rest := s; r := Done(v);
      case Err(f) => r := Failed(f);
    }

    method Bool() returns (r: Outcome<bool>)
      modifies this
      ensures match GetBool(old(rest))
              case Ok(v, s) => r == Done(v) && rest == s
              case Err(f) => r == Failed(f)
    {
      match GetBool(rest)
      case Ok(v, s) => rest := s; r := Done(v);
      case Err(f) => r := Failed(f);
    }
  }

  /** The output buffer columns are encoded into. */
  class Buffer {
    var buf: seq<byte>

    constructor ()
      ensures buf == []
    {
      buf := [];
    }

    method Put(s: seq<byte>)
      modifies this
      ensures buf == old(buf) + s
    {
      buf := buf + s;
    }
  }
}
