/**
 The String column: one contiguous byte buffer, a table of start positions, and a decoder that grows
 the buffer while it reads. Slices carry their capacity, so that what earlier calls left behind in
 the backing memory is part of the model.
 */
module Strings {
  import opened Wire
  import opened Codec

  /** A Go slice: backing memory of the slice's capacity, of which the first len elements show. */
  datatype Slice<T> = Slice(mem: seq<T>, len: nat) {
    predicate Ok() {
      len <= |mem|
    }

    function View(): seq<T>
      requires Ok()
    {
      mem[..len]
    }

    function Cap(): nat {
      |mem|
    }

    /** s[:n] */
    function Resize(n: nat): (s: Slice<T>)
      requires n <= |mem|
      ensures s.Ok()
    {
      Slice(mem, n)
    }

    /** append(s, v), in place when there is room. */
    function Append(v: T): (s: Slice<T>)
      requires Ok()
      ensures s.Ok() && s.View() == View() + [v]
    {
      if len < |mem| then Slice(mem[len := v], len + 1) else Slice(mem[..len] + [v], len + 1)
    }
  }

  /** make([]T, n, cap) with every element zero. */
  function Make<T>(n: nat, cap: nat, zero: T): (s: Slice<T>)
    requires n <= cap
    ensures s.Ok() && s.len == n && s.Cap() == cap
  {
    Slice(seq(cap, _ => zero), n)
  }

  function Join(vs: seq<Value>): seq<byte>
    requires AllTyped(Text, vs)
  {
    if vs == [] then [] else Join(Init(vs)) + Last(vs).b
  }

  function Lens(vs: seq<Value>): (ls: seq<nat>)
    requires AllTyped(Text, vs)
    ensures |ls| == |vs|
  {
    if vs == [] then [] else Lens(Init(vs)) + [|Last(vs).b|]
  }

  lemma TextSnoc(vs: seq<Value>, v: Value)
    requires AllTyped(Text, vs) && v.Str?
    ensures AllTyped(Text, vs + [v]) && Init(vs + [v]) == vs && Last(vs + [v]) == v
  {
  }

  lemma JoinPush(vs: seq<Value>, b: seq<byte>)
    requires AllTyped(Text, vs)
    ensures AllTyped(Text, vs + [Str(b)])
    ensures Join(vs + [Str(b)]) == Join(vs) + b && Lens(vs + [Str(b)]) == Lens(vs) + [|b|]
  {
    TextSnoc(vs, Str(b));
  }

  /** The position table: where each string starts, and where the last one ends. */
  function Starts(vs: seq<Value>): (ps: seq<nat>)
    requires AllTyped(Text, vs)
    ensures |ps| == |vs| + 1 && Last(ps) == |Join(vs)|
  {
    if vs == [] then [0] else Starts(Init(vs)) + [|Join(vs)|]
  }

  lemma StartsPush(vs: seq<Value>, b: seq<byte>)
    requires AllTyped(Text, vs)
    ensures AllTyped(Text, vs + [Str(b)])
    ensures Starts(vs + [Str(b)]) == Starts(vs) + [|Join(vs)| + |b|]
  {
    JoinPush(vs, b);
    TextSnoc(vs, Str(b));
    StartsOf(vs + [Str(b)]);
  }

  lemma StartsOf(vs: seq<Value>)
    requires AllTyped(Text, vs) && vs != []
    ensures AllTyped(Text, Init(vs)) && Starts(vs) == Starts(Init(vs)) + [|Join(vs)|]
  {
  }

  lemma StartsInit(vs: seq<Value>, j: nat)
    requires AllTyped(Text, vs) && j < |vs|
    ensures Starts(vs)[j] == Starts(Init(vs))[j]
  {
  }

  lemma SliceOfPrefix(a: seq<byte>, b: seq<byte>, lo: nat, hi: nat)
    requires lo <= hi <= |a|
    ensures (a + b)[lo..hi] == a[lo..hi]
  {
  }

  lemma SliceOfSuffix(a: seq<byte>, b: seq<byte>)
    ensures (a + b)[|a|..|a| + |b|] == b
  {
  }

  lemma JoinLast(vs: seq<Value>)
    requires AllTyped(Text, vs) && vs != []
    ensures var all := Join(Init(vs));
            && Join(vs) == all + Last(vs).b && Starts(vs)[|vs|] == |Join(vs)| && Starts(vs)[|vs| - 1] == |all|
  {
    StartsInit(vs, |vs| - 1);
  }

  /** The position table cuts the joined bytes back into the strings. */
  lemma {:induction false} JoinSlice(vs: seq<Value>, j: nat)
    requires AllTyped(Text, vs) && j < |vs|
    ensures Starts(vs)[j] <= Starts(vs)[j + 1] <= |Join(vs)|
    ensures Join(vs)[Starts(vs)[j]..Starts(vs)[j + 1]] == vs[j].b
  {
    var init, last := Init(vs), Last(vs).b;
    JoinLast(vs);
    if j < |vs| - 1 {
      JoinSlice(init, j);
      StartsInit(vs, j);
      StartsInit(vs, j + 1);
      SliceOfPrefix(Join(init), last, Starts(init)[j], Starts(init)[j + 1]);
    } else {
      SliceOfSuffix(Join(init), last);
    }
  }

  // ---------- buffer growth ----------

  /** The buffer's capacity after a string of length n, the last of those read so far, ends at end. */
  function Grow(cap: nat, end: nat, n: nat, left: nat): nat {
    if cap >= end then cap else if n >= 128 then end else end + n * left
  }

  function Sum(ls: seq<nat>): nat {
    if ls == [] then 0 else Sum(Init(ls)) + Last(ls)
  }

  /** Capacity after strings of lengths ls out of rows, from capacity cap. */
  function CapAfter(cap: nat, ls: seq<nat>, rows: nat): nat
    requires |ls| <= rows
  {
    if ls == [] then cap
    else Grow(CapAfter(cap, Init(ls), rows), Sum(ls), Last(ls), rows - (|ls| - 1))
  }

  /** The i-th string makes the decoder allocate. */
  predicate Reallocates(cap: nat, ls: seq<nat>, rows: nat, i: nat)
    requires i < |ls| <= rows
  {
    CapAfter(cap, ls[..i], rows) < Sum(ls[..i + 1])
  }

  lemma {:induction false} SumBound(ls: seq<nat>, i: nat, j: nat, n: nat)
    requires i <= j <= |ls|
    requires forall k :: i <= k < j ==> ls[k] <= n
    ensures Sum(ls[..j]) <= Sum(ls[..i]) + n * (j - i)
    decreases j
  {
    if i == j {
    } else {
      SumBound(ls, i, j - 1, n);
      assert Init(ls[..j]) == ls[..j - 1];
      assert n * (j - i) == n * (j - 1 - i) + n;
    }
  }

  lemma CapStep(cap: nat, ls: seq<nat>, rows: nat, i: nat)
    requires i < |ls| <= rows
    ensures CapAfter(cap, ls[..i + 1], rows)
         == Grow(CapAfter(cap, ls[..i], rows), Sum(ls[..i + 1]), ls[i], rows - i)
  {
    assert Init(ls[..i + 1]) == ls[..i];
  }

  /**
   What an allocation at string i asks for: room for the rest of the rows at that length when it is
   shorter than 128 bytes, else nothing to spare. Without one the capacity stays.
   */
  lemma CapExact(cap: nat, ls: seq<nat>, rows: nat, i: nat)
    requires i < |ls| <= rows
    ensures CapAfter(cap, ls[..i + 1], rows)
         == if CapAfter(cap, ls[..i], rows) >= Sum(ls[..i + 1]) then CapAfter(cap, ls[..i], rows)
            else Sum(ls[..i + 1]) + if ls[i] < 128 then ls[i] * (rows - i) else 0
  {
    CapStep(cap, ls, rows, i);
  }

  /** However long the strings are, the decoder never has more than 127 bytes a row to spare. */
  lemma {:induction false} CapBound(cap: nat, ls: seq<nat>, rows: nat)
    requires |ls| <= rows
    ensures CapAfter(cap, ls, rows) <= cap || CapAfter(cap, ls, rows) <= Sum(ls) + 127 * rows
    decreases |ls|
  {
    if ls == [] {
    } else {
      CapBound(cap, Init(ls), rows);
      var n, left := Last(ls), rows - (|ls| - 1);
      if n < 128 {
        MulMonotone(left, n, 127);
        MulMonotone(127, left, rows);
      }
    }
  }

  /**
   After an allocation at a string shorter than 128 bytes, the buffer is allocated again only for a
   string longer than that one: up to the first longer string its capacity stays what it was.
   */
  lemma {:induction false} GrowthBound(cap: nat, ls: seq<nat>, rows: nat, i: nat, j: nat)
    requires i < j < |ls| <= rows
    requires Reallocates(cap, ls, rows, i) && ls[i] < 128
    requires forall k :: i < k <= j ==> ls[k] <= ls[i]
    ensures !Reallocates(cap, ls, rows, j)
    ensures CapAfter(cap, ls[..j + 1], rows) == CapAfter(cap, ls[..i + 1], rows)
    decreases j
  {
    var n := ls[i];
    CapStep(cap, ls, rows, i);
    CapStep(cap, ls, rows, j);
    SumWithin(ls, i, j, rows, n);
    if i + 1 == j {
    } else {
      GrowthBound(cap, ls, rows, i, j - 1);
    }
  }

  lemma SumWithin(ls: seq<nat>, i: nat, j: nat, rows: nat, n: nat)
    requires i < j < |ls| <= rows
    requires forall k :: i < k <= j ==> ls[k] <= n
    ensures Sum(ls[..j + 1]) <= Sum(ls[..i + 1]) + n * (rows - i)
  {
    SumBound(ls, i + 1, j + 1, n);
    MulMonotone(n, j - i, rows - i);
  }

  /** A block of equally long strings under 128 bytes allocates its buffer at most once. */
  lemma EqualLengthsAllocateOnce(cap: nat, ls: seq<nat>, i: nat, j: nat)
    requires i < |ls| && j < |ls|
    requires forall k :: 0 <= k < |ls| ==> ls[k] == ls[0] && ls[k] < 128
    requires Reallocates(cap, ls, |ls|, i) && Reallocates(cap, ls, |ls|, j)
    ensures i == j
  {
    if i < j { GrowthBound(cap, ls, |ls|, i, j); }
    if j < i { GrowthBound(cap, ls, |ls|, j, i); }
  }

  // ---------- the naive decoder and a prefix of its work ----------

  function Prepend(vs: seq<Value>, p: Parsed<seq<Value>>): Parsed<seq<Value>> {
    match p
    case Ok(ws, rest) => Ok(vs + ws, rest)
    case Err(f) => Err(f)
  }

  lemma PrependNone(p: Parsed<seq<Value>>)
    ensures Prepend([], p) == p
  {
    if p.Ok? { assert [] + p.value == p.value; }
  }

  lemma PrependAll(vs: seq<Value>, s: seq<byte>)
    ensures Prepend(vs, Ok([], s)) == Ok(vs, s)
  {
    assert vs + [] == vs;
  }

  lemma PrependStep(k: Kind, vs: seq<Value>, v: Value, n: nat, s: seq<byte>)
    requires n > 0 && GetLeaf(k, s).Ok? && GetLeaf(k, s).value == v
    ensures Prepend(vs, GetLeaves(k, n, s)) == Prepend(vs + [v], GetLeaves(k, n - 1, GetLeaf(k, s).rest))
  {
    var p := GetLeaves(k, n - 1, GetLeaf(k, s).rest);
    if p.Ok? { assert vs + ([v] + p.value) == (vs + [v]) + p.value; }
  }

  lemma PrependFail(k: Kind, vs: seq<Value>, n: nat, s: seq<byte>)
    requires n > 0 && GetLeaf(k, s).Err?
    ensures Prepend(vs, GetLeaves(k, n, s)) == Err(GetLeaf(k, s).fault)
  {
  }

  lemma {:induction false} RoomShift(i: nat)
    requires i <= 9
    ensures Room(i) * Pow2(7 * i) == TWO64
  {
    if i == 0 {
      RoomAll();
    } else {
      RoomShift(i - 1);
      PowSeven(7 * (i - 1));
      Shift128(Room(i), Pow2(7 * (i - 1)));
    }
  }

  lemma Shift128(a: nat, b: nat)
    ensures a * (128 * b) == (128 * a) * b
  {
  }

  lemma PowSeven(s: nat)
    ensures Pow2(s + 7) == 128 * Pow2(s)
  {
    assert Pow2(s + 7) == 4 * Pow2(s + 5) && Pow2(s + 5) == 4 * Pow2(s + 3);
    assert Pow2(s + 3) == 4 * Pow2(s + 1);
  }

  lemma ShlFits(b: nat, i: nat)
    requires i <= 9 && b < 128 && (i == 9 ==> b <= 1)
    ensures Shl(b, 7 * i) == b * Pow2(7 * i)
  {
    var room, p := Room(i), Pow2(7 * i);
    RoomShift(i);
    assert b < room by { if i < 9 { assert room == 128 * Room(i + 1); } }
    MulStep(p, b, room);
  }

  /** Groups read one after the other share no bit, so that | adds them, and they stay below the next. */
  lemma OrGroup(x: nat, b: nat, i: nat)
    requires i <= 9 && x < Pow2(7 * i) && b < 128 && (i == 9 ==> b <= 1)
    ensures Or(x, Shl(b, 7 * i)) == x + b * Pow2(7 * i)
    ensures x + b * Pow2(7 * i) < Pow2(7 * i + 7)
  {
    ShlFits(b, i);
    OrDisjoint(x, b, 7 * i);
    PowSeven(7 * i);
    MulStep(Pow2(7 * i), b, 128);
  }

  /** The number whose groups from some position on are r, given the x read before and their weight p. */
  ghost function AfterGroups(x: nat, p: nat, r: Parsed<nat>): Parsed<nat> {
    match r
    case Ok(v, rest) => Ok(x + p * v, rest)
    case Err(f) => Err(f)
  }

  lemma MoreGroups(x: nat, i: nat, s: seq<byte>)
    requires i <= 9 && x < Pow2(7 * i) && s != [] && s[0] >= 128
    ensures AfterGroups(x, Pow2(7 * i), ReadGroups(s, i))
         == AfterGroups(Or(x, Shl(s[0] % 128, 7 * i)), Pow2(7 * i + 7), ReadGroups(s[1..], i + 1))
    ensures i < 9 ==> Or(x, Shl(s[0] % 128, 7 * i)) < Pow2(7 * i + 7)
  {
    if i < 9 {
      OrGroup(x, s[0] % 128, i);
      PowSeven(7 * i);
      var p, b, r := Pow2(7 * i), s[0] % 128, ReadGroups(s[1..], i + 1);
      if r.Ok? { Distribute(p, b, r.value); }
    }
  }

  lemma LastGroup(x: nat, i: nat, s: seq<byte>)
    requires i <= 9 && x < Pow2(7 * i) && s != [] && s[0] < 128 && (i == 9 ==> s[0] <= 1)
    ensures AfterGroups(x, Pow2(7 * i), ReadGroups(s, i)) == Ok(Or(x, Shl(s[0], 7 * i)), s[1..])
  {
    OrGroup(x, s[0], i);
    Commute(s[0], Pow2(7 * i));
  }

  lemma Commute(a: nat, b: nat)
    ensures a * b == b * a
  {
  }

  lemma Distribute(p: nat, b: nat, v: nat)
    ensures p * (b + 128 * v) == b * p + (128 * p) * v
  {
  }

  /** What one more string b adds to the buffer and the position table. */
  lemma ReadingMore(table: seq<nat>, end: nat, vs: seq<Value>, b: seq<byte>)
    requires AllTyped(Text, vs) && |vs| < |table| && end == |Join(vs)| && table[..|vs|] + [end] == Starts(vs)
    ensures var ws := vs + [Str(b)];
            && AllTyped(Text, ws) && Join(ws) == Join(vs) + b
            && table[|vs| := end][..|ws|] + [end + |b|] == Starts(ws)
  {
    JoinPush(vs, b);
    StartsPush(vs, b);
    assert table[|vs| := end][..|vs| + 1] == table[..|vs|] + [end];
  }

  class StrColumn {
    var data: Slice<Value>
    var buf: Slice<byte>
    var pos: Slice<nat>

    ghost predicate Valid()
      reads this
    {
      data.Ok() && buf.Ok() && pos.Ok() && AllTyped(Text, data.View())
    }

    constructor ()
      ensures Valid() && data.View() == []
    {
      data, buf, pos := Slice([], 0), Slice([], 0), Slice([], 0);
    }

    /** Reads one byte at a time; x stays below the next group. */
    method ReadUVarint(r: Reader) returns (out: Outcome<int>)
      modifies r
      ensures match Wire.ReadUVarint(old(r.rest))
              case Ok(v, s) => out == Done(ToInt(v)) && r.rest == s
              case Err(f) => out == Failed(f)
    {
      var x: nat, s: nat := 0, 0;
      for i := 0 to 10
        invariant s == 7 * i && (i <= 9 ==> x < Pow2(s))
        invariant Wire.ReadUVarint(old(r.rest)) == AfterGroups(x, Pow2(s), ReadGroups(r.rest, i))
      {
        ghost var before := r.rest;
        if r.rest == [] { return Failed(ShortRead); }
        var one := r.ReadFull(1);
        var b := one.value[0];
        if b < 0x80 {
          if i == 9 && b > 1 { return Failed(Overflow); }
          LastGroup(x, i, before);
          return Done(ToInt(Or(x, Shl(b, s))));
        }
        MoreGroups(x, i, before);
        x := Or(x, Shl(b % 128, s));
        s := s + 7;
      }
      return Failed(Overflow);
    }

    method Append(v: Value)
      requires Valid() && v.Str?
      modifies this
      ensures Valid() && data.View() == old(data.View()) + [v]
    {
      data := data.Append(v);
    }

    method Reset()
      requires Valid()
      modifies this
      ensures Valid() && data.View() == []
    {
      data := data.Resize(0);
    }

    /** The buffer with room for end bytes, its first bytes kept. */
    method Extend(end: nat, n: nat, left: nat)
      requires Valid() && buf.len <= end
      modifies this`buf
      ensures buf.Ok() && buf.len == end && buf.View()[..old(buf.len)] == old(buf.View())
      ensures buf.Cap() == Grow(old(buf.Cap()), end, n, left)
    {
      if buf.Cap() < end {
        var newCap := end + n * left;
        if n >= 128 { newCap := end; }
        buf := Moved(buf, Make(end, newCap, 0), end);
      } else {
        buf := buf.Resize(end);
      }
    }

    /** What a shows, copied over the front of b. */
    static function Moved(a: Slice<byte>, b: Slice<byte>, end: nat): (s: Slice<byte>)
      requires a.Ok() && b.Ok() && a.len <= end <= |b.mem|
      ensures s.Ok() && s.len == end && |s.mem| == |b.mem| && s.View()[..a.len] == a.View()
    {
      Slice(a.View() + b.mem[a.len..], end)
    }

    /** The next n bytes, read into the buffer behind what it shows. */
    method ReadInto(r: Reader, n: nat, left: nat) returns (out: Outcome<()>)
      requires Valid()
      modifies this`buf, r
      ensures Valid()
      ensures match Take(n, old(r.rest))
              case Ok(b, s) => out == Done(()) && r.rest == s && buf.View() == old(buf.View()) + b
              case Err(f) => out == Failed(f)
      ensures buf.Cap() == Grow(old(buf.Cap()), old(buf.len) + n, n, left)
    {
      var start := buf.len;
      Extend(start + n, n, left);
      var chunk := r.ReadFull(n);
      if chunk.Failed? { return Failed(chunk.fault); }
      assert buf.mem[..start] == buf.View()[..start];
      buf := buf.(mem := buf.mem[..start] + chunk.value + buf.mem[start + n..]);
      return Done(());
    }

    /** The strings cut out of buf at the positions in pos. */
    method CutStrings(rows: nat, ghost vs: seq<Value>)
      requires Valid() && AllTyped(Text, vs) && |vs| == rows
      requires buf.View() == Join(vs) && pos.len == rows + 1
      requires pos.View() == Starts(vs)
      modifies this`data
      ensures Valid() && data.View() == vs
    {
      if data.Cap() < rows {
        data := Make(rows, rows * 2, Str([]));
      } else {
        data := data.Resize(rows);
      }
      for i := 0 to rows
        invariant data.Ok() && data.len == rows
        invariant forall j :: 0 <= j < i ==> data.mem[j] == vs[j]
      {
        JoinSlice(vs, i);
        var lo, hi := pos.View()[i], pos.View()[i + 1];
        data := data.(mem := data.mem[i := Str(buf.View()[lo..hi])]);
      }
      assert data.View() == vs;
    }

    /** buf holds the strings read so far, and pos the start of each and of the next. */
    ghost predicate Reading(vs: seq<Value>, rows: nat, end: nat, cap: nat)
      reads this
    {
      && Valid() && AllTyped(Text, vs) && |vs| <= rows && pos.len == rows + 1
      && buf.View() == Join(vs) && end == buf.len && pos.mem[..|vs|] + [end] == Starts(vs)
      && buf.Cap() == CapAfter(cap, Lens(vs), rows)
    }

    /** Reading, and the naive decoder's result all is the strings read so far and those still to come. */
    ghost predicate Progress(r: Reader, vs: seq<Value>, rows: nat, end: nat, cap: nat, all: Parsed<seq<Value>>)
      reads this, r
    {
      Reading(vs, rows, end, cap) && all == Prepend(vs, GetLeaves(Text, rows - |vs|, r.rest))
    }

    /** One string: its length, its place in pos, its bytes; end is where the bytes read so far end. */
    method ReadOne(r: Reader, rows: nat, i: nat, end: nat, ghost vs: seq<Value>, ghost cap: nat)
      returns (out: Outcome<nat>)
      requires Reading(vs, rows, end, cap) && i == |vs| < rows
      modifies this`buf, this`pos, r
      ensures Valid()
      ensures match GetLeaf(Text, old(r.rest))
              case Err(f) => out == Failed(f)
              case Ok(v, rest) => out.Done? && r.rest == rest && Reading(vs + [v], rows, out.value, cap)
    {
      ghost var before, table := r.rest, pos.mem;
      var length := ReadUVarint(r);
      if length.Failed? { return Failed(length.fault); }
      var n := length.value;
      pos := pos.(mem := pos.mem[i := end]);
      if n < 0 { return Failed(Panic); }
      ghost var after := r.rest;
      assert GetStr(before) == Take(n, after);
      var chunk := ReadInto(r, n, rows - i);
      if chunk.Failed? { return Failed(chunk.fault); }
      ReadingMore(table, end, vs, after[..n]);
      CapPush(cap, vs, after[..n], rows);
      return Done(end + n);
    }

    /** One turn of the reading loop. */
    method ReadNext(r: Reader, rows: nat, i: nat, end: nat, ghost vs: seq<Value>, ghost cap: nat,
                    ghost all: Parsed<seq<Value>>)
      returns (out: Outcome<nat>, ghost read: seq<Value>)
      requires Progress(r, vs, rows, end, cap, all) && i == |vs| < rows
      modifies this`buf, this`pos, r
      ensures Valid()
      ensures out.Failed? ==> all == Err(out.fault)
      ensures out.Done? ==> |read| == i + 1 && Progress(r, read, rows, out.value, cap, all)
    {
      ghost var before, leaf := r.rest, GetLeaf(Text, r.rest);
      read := vs;
      out := ReadOne(r, rows, i, end, vs, cap);
      if out.Failed? {
        PrependFail(Text, vs, rows - i, before);
      } else {
        PrependStep(Text, vs, leaf.value, rows - i, before);
        read := vs + [leaf.value];
      }
    }

    /** The reading loop. */
    method ReadStrings(r: Reader, rows: nat) returns (out: Outcome<nat>, ghost vs: seq<Value>)
      requires Valid() && buf.len == 0 && pos.len == rows + 1
      modifies this`buf, this`pos, r
      ensures Valid()
      ensures out.Failed? ==> GetLeaves(Text, rows, old(r.rest)) == Err(out.fault)
      ensures out.Done? ==>
                && GetLeaves(Text, rows, old(r.rest)) == Ok(vs, r.rest)
                && |vs| == rows && Reading(vs, rows, out.value, old(buf.Cap()))
    {
      ghost var cap, all := buf.Cap(), GetLeaves(Text, rows, r.rest);
      vs := [];
      PrependNone(all);
      assert pos.mem[..0] + [0] == [0];
      var end: nat := 0;
      for i := 0 to rows
        invariant |vs| == i && Progress(r, vs, rows, end, cap, all)
      {
        var next;
        next, vs := ReadNext(r, rows, i, end, vs, cap, all);
        if next.Failed? { return Failed(next.fault), vs; }
        end := next.value;
      }
      PrependAll(vs, r.rest);
      return Done(end), vs;
    }

    /**
     Whatever capacity and bytes earlier calls left in buf, pos and data, the rows are those of the
     naive decoder, which reads one string at a time, and the buffer's capacity is that of CapAfter.
     */
    method DecodeColumn(r: Reader, rows: int) returns (out: Outcome<()>)
      requires Valid()
      modifies this, r
      ensures Valid()
      ensures match Decode(Leaf(Text), Vals(old(data.View())), rows, old(r.rest))
              case Ok(c, rest) => out == Done(()) && Vals(data.View()) == c && r.rest == rest
              case Err(f) => out == Failed(f)
      ensures rows > 0 && out.Done? ==>
                |data.View()| == rows && buf.Cap() == CapAfter(old(buf.Cap()), Lens(data.View()), rows)
    {
      if rows == 0 {
        data, buf, pos := data.Resize(0), buf.Resize(0), pos.Resize(0);
        return Done(());
      }
      buf, pos := buf.Resize(0), pos.Resize(0);
      var want := rows + 1;
      if want <= 0 { return Failed(Panic); }
      if pos.Cap() < want { pos := Make(want, want * 2, 0); }
      pos := pos.Resize(want);
      ghost var vs;
      var end;
      end, vs := ReadStrings(r, rows);
      if end.Failed? { return Failed(end.fault); }
      ghost var starts := pos.mem[..rows];
      pos := pos.(mem := pos.mem[rows := end.value]);
      assert pos.View() == starts + [end.value];
      CutStrings(rows, vs);
      return Done(());
    }

    method EncodeColumn(b: Buffer)
      requires Valid()
      modifies b
      ensures b.buf == old(b.buf) + PutLeaves(Text, data.View())
    {
      PutEach(b, Text, data.View());
    }
  }

  lemma CapPush(cap: nat, vs: seq<Value>, b: seq<byte>, rows: nat)
    requires AllTyped(Text, vs) && |vs| < rows
    ensures AllTyped(Text, vs + [Str(b)])
    ensures CapAfter(cap, Lens(vs + [Str(b)]), rows)
         == Grow(CapAfter(cap, Lens(vs), rows), |Join(vs)| + |b|, |b|, rows - |vs|)
  {
    JoinPush(vs, b);
    SumLens(vs + [Str(b)]);
    assert Init(Lens(vs) + [|b|]) == Lens(vs);
  }

  lemma {:induction false} SumLens(vs: seq<Value>)
    requires AllTyped(Text, vs)
    ensures Sum(Lens(vs)) == |Join(vs)|
  {
    if vs == [] {
    } else {
      SumLens(Init(vs));
      assert Init(Lens(vs)) == Lens(Init(vs));
    }
  }

  /** The loop that writes one value after the other. */
  method PutEach(b: Buffer, k: Kind, vs: seq<Value>)
    requires AllTyped(k, vs)
    modifies b
    ensures b.buf == old(b.buf) + PutLeaves(k, vs)
  {
    ghost var all, before := PutLeaves(k, vs), b.buf;
    ghost var left := vs;
    ghost var written := [];
    for i := 0 to |vs|
      invariant left == vs[i..] && AllTyped(k, left)
      invariant b.buf == before + written && written + PutLeaves(k, left) == all
    {
      var bytes := PutLeaf(k, vs[i]);
      b.Put(bytes);
      Assoc(before, written, bytes);
      Assoc(written, bytes, PutLeaves(k, left[1..]));
      written, left := written + bytes, left[1..];
    }
    assert written + [] == written;
  }
}
