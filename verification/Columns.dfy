/**
 The mutable columns. A `Column` is a Go interface value: one of the leaf columns, or an Array or Map
 column over other columns. Every method is proved against the functions of module Codec, and the
 objects reachable from a column form a tree (`Repr`), as they do when each column is built once.
 */
module Columns {
  import opened Wire
  import opened Codec
  import opened Strings

  /** safeMul: the product, or an error when it is not a positive Go int. */
  function SafeMul(rows: int, elemSize: int): Outcome<int> {
    if rows <= 0 || elemSize <= 0 then Failed(Overflow)
    else if MAX_INT / rows < elemSize then Failed(Overflow)
    else Done(rows * elemSize)
  }

  /** The division test refuses exactly the products that overflow. */
  lemma SafeMulExact(rows: int, elemSize: int)
    requires rows > 0 && elemSize > 0
    ensures SafeMul(rows, elemSize) == if rows * elemSize <= MAX_INT then Done(rows * elemSize) else Failed(Overflow)
  {
    var q := MAX_INT / rows;
    assert rows * q <= MAX_INT < rows * (q + 1) by {
      assert MAX_INT == rows * q + MAX_INT % rows;
      assert rows * (q + 1) == rows * q + rows;
    }
    if elemSize <= q {
      MulMonotone(rows, elemSize, q);
    } else {
      MulMonotone(rows, q + 1, elemSize);
    }
  }

  /** n elements of w bytes each, as they lie in memory. */
  function Elems(w: nat, n: nat, s: seq<byte>): (vs: seq<Value>)
    requires Times(n, w) <= |s|
    ensures |vs| == n
  {
    if n == 0 then [] else [Num(LEVal(s[..w]))] + Elems(w, n - 1, s[w..])
  }

  lemma ElemsMore(w: nat, n: nat, s: seq<byte>)
    requires n > 0 && w + Times(n - 1, w) <= |s|
    ensures var m := Times(n - 1, w);
            && s[w..][m..] == s[m + w..]
            && Elems(w, n, s[..m + w]) == [Num(LEVal(s[..w]))] + Elems(w, n - 1, s[w..][..m])
  {
    var m := Times(n - 1, w);
    assert s[..m + w][w..] == s[w..][..m] && s[..m + w][..w] == s[..w];
  }

  /** Reading a block of memory at once is reading its elements one by one. */
  lemma {:induction false} BulkRead(w: nat, n: nat, s: seq<byte>)
    ensures GetLeaves(Fixed(w), n, s) ==
            if Times(n, w) <= |s| then Ok(Elems(w, n, s[..Times(n, w)]), s[Times(n, w)..]) else Err(ShortRead)
  {
    if n == 0 || w > |s| {
    } else {
      BulkRead(w, n - 1, s[w..]);
      if w + Times(n - 1, w) <= |s| { ElemsMore(w, n, s); }
    }
  }

  lemma DivShift(i: nat, w: nat)
    requires w > 0
    ensures (w + i) / w == 1 + i / w && (w + i) % w == i % w
  {
    var q, r := i / w, i % w;
    assert i == w * q + r;
    assert w * (1 + q) == w + w * q;
    DivUnique(w + i, w, 1 + q);
    assert w + i == w * (1 + q) + (w + i) % w;
  }

  lemma DivBelow(j: nat, n: nat, w: nat)
    requires w > 0 && j < Times(n, w)
    ensures j / w < n
  {
    TimesMul(n, w);
    assert j == w * (j / w) + j % w;
    if j / w >= n { MulMonotone(w, n, j / w); }
  }

  /** The elements as they lie in memory, byte by byte. */
  function Memory(w: nat, vs: seq<Value>): (s: seq<byte>)
    requires w > 0 && AllTyped(Fixed(w), vs)
    ensures |s| == Times(|vs|, w)
  {
    seq(Times(|vs|, w), j requires 0 <= j < Times(|vs|, w) => DivBelow(j, |vs|, w); ByteOf(vs[j / w].n, j % w))
  }

  lemma MemoryHead(w: nat, vs: seq<Value>, j: nat)
    requires vs != [] && AllTyped(Fixed(w), vs) && j < w
    ensures Memory(w, vs)[j] == LE(vs[0].n, w)[j]
  {
    DivUnique(j, w, 0);
    LEAt(vs[0].n, w, j);
  }

  lemma MemoryAt(w: nat, vs: seq<Value>, j: nat, q: nat, r: nat)
    requires w > 0 && AllTyped(Fixed(w), vs) && j < Times(|vs|, w) && q == j / w && r == j % w
    ensures q < |vs| && Memory(w, vs)[j] == ByteOf(vs[q].n, r)
  {
    DivBelow(j, |vs|, w);
  }

  lemma MemoryTail(w: nat, vs: seq<Value>, i: nat)
    requires w > 0 && vs != [] && AllTyped(Fixed(w), vs) && i < Times(|vs| - 1, w)
    ensures Memory(w, vs)[w + i] == Memory(w, vs[1..])[i]
  {
    var q, r := i / w, i % w;
    DivShift(i, w);
    MemoryAt(w, vs[1..], i, q, r);
    MemoryAt(w, vs, w + i, 1 + q, r);
  }

  /** Copying a block of memory at once is writing its elements one by one. */
  lemma {:induction false} BulkWrite(w: nat, vs: seq<Value>)
    requires w > 0 && AllTyped(Fixed(w), vs)
    ensures Memory(w, vs) == PutLeaves(Fixed(w), vs)
  {
    if vs == [] {
    } else {
      var mem, head, rest := Memory(w, vs), LE(vs[0].n, w), Memory(w, vs[1..]);
      BulkWrite(w, vs[1..]);
      forall j | 0 <= j < |mem|
        ensures mem[j] == (head + rest)[j]
      {
        if j < w { MemoryHead(w, vs, j); } else { MemoryTail(w, vs, j - w); }
      }
      assert mem == head + rest;
    }
  }

  /** BaseColumn (w of 1, 2, 4, 8) and the wide integer columns (16, 32). */
  class FixedColumn {
    const w: nat
    var data: seq<Value>

    ghost predicate Valid()
      reads this
    {
      w in {1, 2, 4, 8, 16, 32} && AllTyped(Fixed(w), data)
    }

    constructor (w: nat)
      requires w in {1, 2, 4, 8, 16, 32}
      ensures Valid() && data == [] && this.w == w
    {
      this.w, data := w, [];
    }

    method DecodeColumn(r: Reader, rows: int) returns (out: Outcome<()>)
      requires Valid()
      modifies this, r
      ensures Valid()
      ensures match Decode(Leaf(Fixed(w)), Vals(old(data)), rows, old(r.rest))
              case Ok(c, rest) => out == Done(()) && Vals(data) == c && r.rest == rest
              case Err(f) => out == Failed(f)
    {
      if rows == 0 {
        data := [];
        return Done(());
      }
      if rows > 0 { SafeMulExact(rows, w); }
      var n := SafeMul(rows, w);
      if n.Failed? { return Failed(Overflow); }
      TimesMul(rows, w);
      BulkRead(w, rows, r.rest);
      GetLeavesTyped(Fixed(w), rows, r.rest);
      var bytes := r.ReadFull(n.value);
      if bytes.Failed? { return Failed(bytes.fault); }
      data := Elems(w, rows, bytes.value);
      return Done(());
    }

    method EncodeColumn(b: Buffer) returns (out: Outcome<()>)
      requires Valid()
      modifies b
      ensures out.Done? <==> |data| * w <= MAX_INT
      ensures out.Done? ==> b.buf == old(b.buf) + PutLeaves(Fixed(w), data)
    {
      if |data| == 0 {
        assert b.buf + [] == b.buf;
        return Done(());
      }
      SafeMulExact(|data|, w);
      var n := SafeMul(|data|, w);
      if n.Failed? { return Failed(n.fault); }
      BulkWrite(w, data);
      b.Put(Memory(w, data));
      return Done(());
    }
  }

  class FixedStringColumn {
    const n: nat
    var data: seq<Value>

    ghost predicate Valid()
      reads this
    {
      n > 0 && AllTyped(Blob(n), data)
    }

    constructor (n: nat)
      requires n > 0
      ensures Valid() && data == [] && this.n == n
    {
      this.n, data := n, [];
    }

    method Append(v: Value)
      requires Valid() && v.Str?
      modifies this
      ensures Valid() && data == old(data) + [Norm(Leaf(Blob(n)), v)]
    {
      var b := v.b;
      if |b| >= n {
        data := data + [Str(b[..n])];
        return;
      }
      var buf := Make(n, n, 0);
      var padded := b + buf.mem[|b|..];
      assert padded == Pad(n, b);
      data := data + [Str(padded)];
    }

    method DecodeColumn(r: Reader, rows: int) returns (out: Outcome<()>)
      requires Valid()
      modifies this, r
      ensures Valid()
      ensures match Decode(Leaf(Blob(n)), Vals(old(data)), rows, old(r.rest))
              case Ok(c, rest) => out == Done(()) && Vals(data) == c && r.rest == rest
              case Err(f) => out == Failed(f)
    {
      var count := if rows < 0 then 0 else rows;
      ghost var before, all, vs := data, GetLeaves(Blob(n), count, r.rest), [];
      PrependNone(all);
      for i := 0 to count
        invariant |vs| == i && Valid() && data == before + vs
        invariant all == Prepend(vs, GetLeaves(Blob(n), count - i, r.rest))
      {
        ghost var leaf, s := GetLeaf(Blob(n), r.rest), r.rest;
        if leaf.Err? { PrependFail(Blob(n), vs, count - i, s); }
        if leaf.Ok? { PrependStep(Blob(n), vs, leaf.value, count - i, s); }
        var buf := r.ReadFull(n);
        if buf.Failed? { return Failed(buf.fault); }
        Assoc(before, vs, [Str(buf.value)]);
        data := data + [Str(buf.value)];
        vs := vs + [Str(buf.value)];
      }
      PrependAll(vs, r.rest);
      return Done(());
    }
  }

  /** The offset loop shared by Array and Map. */
  method ReadOffsets(r: Reader, rows: int) returns (out: Outcome<seq<nat>>)
    modifies r
    ensures match GetOffsets(if rows < 0 then 0 else rows, old(r.rest))
            case Ok(offs, rest) => out == Done(offs) && r.rest == rest
            case Err(f) => out == Failed(f)
  {
    var offsets: seq<nat> := [];
    var count := if rows < 0 then 0 else rows;
    ghost var all := GetOffsets(count, r.rest);
    OffsetsNone(all);
    for i := 0 to count
      invariant |offsets| == i
      invariant all == OffsetsAfter(offsets, GetOffsets(count - i, r.rest))
    {
      ghost var s := r.rest;
      var v := r.UVarInt();
      if v.Failed? { return Failed(v.fault); }
      OffsetsStep(offsets, count - i, s);
      offsets := offsets + [v.value];
    }
    assert offsets + [] == offsets;
    return Done(offsets);
  }

  function OffsetsAfter(offs: seq<nat>, p: Parsed<seq<nat>>): Parsed<seq<nat>> {
    match p
    case Ok(more, rest) => Ok(offs + more, rest)
    case Err(f) => Err(f)
  }

  lemma OffsetsNone(p: Parsed<seq<nat>>)
    ensures OffsetsAfter([], p) == p
  {
    if p.Ok? { assert [] + p.value == p.value; }
  }

  lemma OffsetsStep(offs: seq<nat>, n: nat, s: seq<byte>)
    requires n > 0 && ReadUVarint(s).Ok?
    ensures OffsetsAfter(offs, GetOffsets(n, s))
         == OffsetsAfter(offs + [ReadUVarint(s).value], GetOffsets(n - 1, ReadUVarint(s).rest))
  {
    var v, p := ReadUVarint(s).value, GetOffsets(n - 1, ReadUVarint(s).rest);
    if p.Ok? { Assoc(offs, [v], p.value); }
  }

  /** encodeUVarInts */
  method WriteOffsets(offs: seq<nat>, b: Buffer)
    modifies b
    ensures b.buf == old(b.buf) + PutOffsets(offs)
  {
    ghost var all, before, written, left := PutOffsets(offs), b.buf, [], offs;
    for i := 0 to |offs|
      invariant left == offs[i..]
      invariant b.buf == before + written && written + PutOffsets(left) == all
    {
      var bytes := UVarint(offs[i]);
      b.Put(bytes);
      Assoc(before, written, bytes);
      Assoc(written, bytes, PutOffsets(left[1..]));
      written, left := written + bytes, left[1..];
    }
    assert written + [] == written;
  }

  /** Whether safeMul succeeds on every fixed-width column inside. */
  predicate MulsFit(sh: Shape, c: Cols) {
    match sh
    case Leaf(Fixed(w)) => c.Vals? ==> |c.vals| * w <= MAX_INT
    case Leaf(_) => true
    case Array(e) => c.Arr? ==> MulsFit(e, c.elem)
    case Map(k, v) => c.Mp? ==> MulsFit(k, c.keys) && MulsFit(v, c.values)
  }

  lemma {:induction false} FitsMuls(sh: Shape, c: Cols)
    requires Fits(sh, c)
    ensures MulsFit(sh, c)
  {
    match sh
    case Leaf(_) =>
    case Array(e) => if c.Arr? { FitsMuls(e, c.elem); }
    case Map(k, v) => if c.Mp? { FitsMuls(k, c.keys); FitsMuls(v, c.values); }
  }

  /** Where row i of an Array column lies in its elements. */
  lemma ArrayRowAt(e: Shape, c: Cols, i: nat)
    requires Sound(Array(e), c) && i < |c.offs|
    ensures Lo(c.offs, i) <= c.offs[i] <= Len(c.elem)
    ensures Rows(Array(e), c)[i] == List(Rows(e, c.elem)[Lo(c.offs, i)..c.offs[i]])
  {
    CutAt(Rows(e, c.elem), c.offs, i);
    ListsAt(Cut(Rows(e, c.elem), c.offs), i);
  }

  /** Where row i of a Map column lies in its pairs. */
  lemma MapRowAt(k: Shape, w: Shape, c: Cols, i: nat)
    requires Sound(Map(k, w), c) && i < |c.offs|
    ensures Lo(c.offs, i) <= c.offs[i] <= Len(c.keys)
    ensures Rows(Map(k, w), c)[i]
         == Entries(Zip(Rows(k, c.keys), Rows(w, c.values))[Lo(c.offs, i)..c.offs[i]])
  {
    var es := Zip(Rows(k, c.keys), Rows(w, c.values));
    CutAt(es, c.offs, i);
    DictsAt(Cut(es, c.offs), i);
  }

  lemma {:induction false} PushAllLeaf(k: Kind, c: Cols, vs: seq<Value>)
    requires c.Vals? && AllShaped(Leaf(k), vs)
    ensures PushAll(Leaf(k), c, vs) == Vals(c.vals + NormAll(Leaf(k), vs))
  {
    if vs == [] {
      assert c.vals + [] == c.vals;
    } else {
      PushAllLeaf(k, c, Init(vs));
      Assoc(c.vals, NormAll(Leaf(k), Init(vs)), [Norm(Leaf(k), Last(vs))]);
    }
  }

  lemma ShapedTyped(k: Kind, v: Value)
    requires !k.Blob? && Shaped(Leaf(k), v)
    ensures Norm(Leaf(k), v) == v && TypedLeaf(k, v)
  {
  }

  lemma {:induction false} NormPlain(k: Kind, vs: seq<Value>)
    requires !k.Blob? && AllShaped(Leaf(k), vs)
    ensures NormAll(Leaf(k), vs) == vs && AllTyped(k, vs)
  {
    forall i | 0 <= i < |vs|
      ensures TypedLeaf(k, vs[i])
    {
      ShapedTyped(k, vs[i]);
    }
    if vs == [] {
    } else {
      NormPlain(k, Init(vs));
      ShapedTyped(k, Last(vs));
      assert vs == Init(vs) + [Last(vs)];
    }
  }

  /** vs[..i + 1] ends in vs[i]. */
  lemma Snoc<T>(vs: seq<T>, i: nat)
    requires i < |vs|
    ensures Init(vs[..i + 1]) == vs[..i] && Last(vs[..i + 1]) == vs[i]
  {
  }

  class ArrayColumn {
    ghost const shape: Shape
    ghost const repr: set<object>
    const elem: Column
    var offsets: seq<nat>

    ghost predicate Valid()
      reads this, repr
      decreases shape, 0
    {
      && this in repr && shape == Array(elem.Form())
      && elem.Repr() <= repr && this !in elem.Repr() && elem.Valid()
    }

    ghost function State(): (c: Cols)
      requires Valid()
      reads this, repr
      ensures HasForm(shape, c) && LeavesTyped(shape, c)
      decreases shape, 0
    {
      Arr(offsets, elem.State())
    }

    constructor (elem: Column)
      requires elem.Valid()
      ensures Valid() && shape == Array(elem.Form()) && repr == elem.Repr() + {this}
      ensures State() == Arr([], elem.State())
    {
      this.elem, offsets := elem, [];
      shape, repr := Array(elem.Form()), elem.Repr() + {this};
    }

    method Append(v: Value)
      requires Valid() && Shaped(shape, v)
      modifies repr
      ensures Valid() && State() == Push(shape, old(State()), v)
      decreases shape, 0
    {
      var prev := elem.Length();
      elem.AppendArr(v.items);
      offsets := offsets + [prev + |v.items|];
    }

    method AppendArr(vs: seq<Value>)
      requires Valid() && AllShaped(shape, vs)
      modifies repr
      ensures Valid() && State() == PushAll(shape, old(State()), vs)
      decreases shape, 3
    {
      for i := 0 to |vs|
        invariant Valid() && State() == PushAll(shape, old(State()), vs[..i])
      {
        Snoc(vs, i);
        Append(vs[i]);
      }
      assert vs[..|vs|] == vs;
    }

    method Reset()
      requires Valid()
      modifies repr
      ensures Valid() && State() == Empty(shape)
      decreases shape, 0
    {
      offsets := [];
      elem.Reset();
    }

    /** Row i is elements lo to hi of rows. */
    ghost predicate RowIs(i: nat, rows: seq<Value>, lo: nat, hi: nat)
      reads this, repr
    {
      && Valid() && Sound(shape, State()) && i < |offsets| && lo <= hi <= |rows|
      && rows == Rows(elem.Form(), elem.State()) && Rows(shape, State())[i] == List(rows[lo..hi])
    }

    method Bounds(i: nat) returns (lo: nat, hi: nat, ghost rows: seq<Value>)
      requires Valid() && Sound(shape, State()) && i < |offsets|
      ensures RowIs(i, rows, lo, hi)
    {
      rows := Rows(elem.Form(), elem.State());
      ArrayRowAt(elem.Form(), State(), i);
      lo := if i > 0 then offsets[i - 1] else 0;
      hi := offsets[i];
    }

    method ElemRow(j: nat, ghost i: nat, ghost rows: seq<Value>, ghost lo: nat, ghost hi: nat) returns (v: Value)
      requires RowIs(i, rows, lo, hi) && j < |rows|
      ensures RowIs(i, rows, lo, hi) && v == rows[j]
      decreases shape, 0
    {
      v := elem.Row(j);
    }

    /** Leaf elements are sliced, others are copied one by one; both give the i-th row. */
    method Row(i: nat) returns (v: Value)
      requires Valid() && Sound(shape, State()) && i < |offsets|
      ensures Valid() && Sound(shape, State()) && i < |offsets| && v == Rows(shape, State())[i]
      decreases shape, 1
    {
      ghost var rows;
      var lo, hi;
      lo, hi, rows := Bounds(i);
      var items: seq<Value> := [];
      if elem.IsSliceAccessor() {
        items := elem.DataSlice(lo, hi);
      } else {
        for j := lo to hi
          invariant RowIs(i, rows, lo, hi) && items == rows[lo..j]
        {
          var x := ElemRow(j, i, rows, lo, hi);
          items := items + [x];
        }
      }
      return List(items);
    }

    method DecodeColumn(r: Reader, rows: int) returns (out: Outcome<()>)
      requires Valid() && r !in repr
      modifies repr, r
      ensures Valid()
      ensures match Decode(shape, old(State()), rows, old(r.rest))
              case Ok(c, rest) => out == Done(()) && State() == c && r.rest == rest
              case Err(f) => out == Failed(f)
      decreases shape, 0
    {
      var offs := ReadOffsets(r, rows);
      if offs.Failed? { return Failed(offs.fault); }
      offsets := offs.value;
      var totalElems := 0;
      if rows > 0 { totalElems := ToInt(offsets[rows - 1]); }
      out := elem.DecodeColumn(r, totalElems);
    }

    method EncodeColumn(b: Buffer) returns (out: Outcome<()>)
      requires Valid() && b !in repr
      modifies b
      ensures out.Done? <==> MulsFit(shape, State())
      ensures out.Done? ==> b.buf == old(b.buf) + Encode(shape, State())
      decreases shape, 0
    {
      WriteOffsets(offsets, b);
      ghost var before := old(b.buf);
      out := elem.EncodeColumn(b);
      if out.Done? { Assoc(before, PutOffsets(offsets), Encode(elem.Form(), elem.State())); }
    }
  }

  /** fn was called on all of es and never failed, or on a prefix of it, failing on its last entry only. */
  ghost predicate Visited(es: seq<(Value, Value)>, fails: ((Value, Value)) -> bool,
                          seen: seq<(Value, Value)>, ok: bool)
  {
    if ok then seen == es && forall i :: 0 <= i < |seen| ==> !fails(seen[i])
    else
      && 0 < |seen| <= |es| && seen == es[..|seen|] && fails(Last(seen))
      && forall i :: 0 <= i < |seen| - 1 ==> !fails(seen[i])
  }

  lemma VisitMore(es: seq<(Value, Value)>, lo: nat, j: nat, hi: nat, fails: ((Value, Value)) -> bool)
    requires lo <= j < hi <= |es| && Visited(es[lo..j], fails, es[lo..j], true)
    ensures es[lo..j] + [es[j]] == es[lo..j + 1]
    ensures if fails(es[j]) then Visited(es[lo..hi], fails, es[lo..j + 1], false)
            else Visited(es[lo..j + 1], fails, es[lo..j + 1], true)
  {
  }

  lemma EntriesShaped(k: Shape, w: Shape, v: Value)
    requires Shaped(Map(k, w), v)
    ensures v.Entries? && AllShaped(k, Firsts(v.entries)) && AllShaped(w, Seconds(v.entries))
  {
    var es := v.entries;
    forall i | 0 <= i < |es|
      ensures Shaped(k, Firsts(es)[i]) && Shaped(w, Seconds(es)[i])
    {
      assert Shaped(k, es[i].0) && Shaped(w, es[i].1);
    }
  }

  lemma PushMap(k: Shape, w: Shape, c: Cols, v: Value)
    requires HasForm(Map(k, w), c) && Shaped(Map(k, w), v)
    requires v.Entries? && AllShaped(k, Firsts(v.entries)) && AllShaped(w, Seconds(v.entries))
    ensures var keys := PushAll(k, c.keys, Firsts(v.entries));
            Push(Map(k, w), c, v) == Mp(c.offs + [Len(keys)], keys, PushAll(w, c.values, Seconds(v.entries)))
  {
  }

  class MapColumn {
    ghost const shape: Shape
    ghost const repr: set<object>
    const keys: Column
    const values: Column
    var offsets: seq<nat>

    ghost predicate Valid()
      reads this, repr
      decreases shape, 0
    {
      && this in repr && shape == Map(keys.Form(), values.Form())
      && keys.Repr() <= repr && values.Repr() <= repr && keys.Repr() !! values.Repr()
      && this !in keys.Repr() && this !in values.Repr()
      && keys.Valid() && values.Valid()
    }

    ghost function State(): (c: Cols)
      requires Valid()
      reads this, repr
      ensures HasForm(shape, c) && LeavesTyped(shape, c)
      decreases shape, 0
    {
      Mp(offsets, keys.State(), values.State())
    }

    constructor (keys: Column, values: Column)
      requires keys.Valid() && values.Valid() && keys.Repr() !! values.Repr()
      ensures Valid() && shape == Map(keys.Form(), values.Form())
      ensures repr == keys.Repr() + values.Repr() + {this}
      ensures State() == Mp([], keys.State(), values.State())
    {
      this.keys, this.values, offsets := keys, values, [];
      shape, repr := Map(keys.Form(), values.Form()), keys.Repr() + values.Repr() + {this};
    }

    method Append(v: Value)
      requires Valid() && Shaped(shape, v)
      modifies repr
      ensures Valid() && State() == Push(shape, old(State()), v)
      decreases shape, 2
    {
      EntriesShaped(keys.Form(), values.Form(), v);
      PushMap(keys.Form(), values.Form(), State(), v);
      AppendEntries(v.entries);
      var n := keys.Length();
      offsets := offsets + [n];
    }

    method AppendEntries(es: seq<(Value, Value)>)
      requires Valid() && AllShaped(keys.Form(), Firsts(es)) && AllShaped(values.Form(), Seconds(es))
      modifies keys.Repr(), values.Repr()
      ensures Valid()
      ensures keys.State() == PushAll(keys.Form(), old(keys.State()), Firsts(es))
      ensures values.State() == PushAll(values.Form(), old(values.State()), Seconds(es))
      decreases shape, 1
    {
      ghost var ks, vs := Firsts(es), Seconds(es);
      ghost var kc, vc := keys.State(), values.State();
      for i := 0 to |es|
        invariant Valid()
        invariant keys.State() == PushAll(keys.Form(), kc, ks[..i])
        invariant values.State() == PushAll(values.Form(), vc, vs[..i])
      {
        Snoc(ks, i);
        Snoc(vs, i);
        AppendEntry(es[i]);
      }
      assert ks[..|es|] == ks && vs[..|es|] == vs;
    }

    method AppendEntry(e: (Value, Value))
      requires Valid() && Shaped(keys.Form(), e.0) && Shaped(values.Form(), e.1)
      modifies keys.Repr(), values.Repr()
      ensures Valid()
      ensures keys.State() == Push(keys.Form(), old(keys.State()), e.0)
      ensures values.State() == Push(values.Form(), old(values.State()), e.1)
      decreases shape, 0
    {
      keys.Append(e.0);
      values.Append(e.1);
    }

    method AppendArr(vs: seq<Value>)
      requires Valid() && AllShaped(shape, vs)
      modifies repr
      ensures Valid() && State() == PushAll(shape, old(State()), vs)
      decreases shape, 3
    {
      for i := 0 to |vs|
        invariant Valid() && State() == PushAll(shape, old(State()), vs[..i])
      {
        Snoc(vs, i);
        Append(vs[i]);
      }
      assert vs[..|vs|] == vs;
    }

    method Reset()
      requires Valid()
      modifies repr
      ensures Valid() && State() == Empty(shape)
      decreases shape, 0
    {
      offsets := [];
      keys.Reset();
      values.Reset();
    }

    /** Row i is pairs lo to hi of es. */
    ghost predicate RowIs(i: nat, es: seq<(Value, Value)>, lo: nat, hi: nat)
      reads this, repr
    {
      && Valid() && Sound(shape, State()) && i < |offsets| && lo <= hi <= |es|
      && es == Zip(Rows(keys.Form(), keys.State()), Rows(values.Form(), values.State()))
      && Rows(shape, State())[i] == Entries(es[lo..hi])
    }

    method Bounds(i: nat) returns (lo: nat, hi: nat, ghost es: seq<(Value, Value)>)
      requires Valid() && Sound(shape, State()) && i < |offsets|
      ensures RowIs(i, es, lo, hi)
    {
      es := Zip(Rows(keys.Form(), keys.State()), Rows(values.Form(), values.State()));
      MapRowAt(keys.Form(), values.Form(), State(), i);
      lo := if i > 0 then offsets[i - 1] else 0;
      hi := offsets[i];
    }

    method Entry(j: nat, ghost i: nat, ghost es: seq<(Value, Value)>, ghost lo: nat, ghost hi: nat)
      returns (e: (Value, Value))
      requires RowIs(i, es, lo, hi) && j < |es|
      ensures RowIs(i, es, lo, hi) && e == es[j]
      decreases shape, 0
    {
      ZipAt(Rows(keys.Form(), keys.State()), Rows(values.Form(), values.State()), j);
      var k := keys.Row(j);
      var v := values.Row(j);
      return (k, v);
    }

    method Row(i: nat) returns (v: Value)
      requires Valid() && Sound(shape, State()) && i < |offsets|
      ensures Valid() && Sound(shape, State()) && i < |offsets| && v == Rows(shape, State())[i]
      decreases shape, 1
    {
      ghost var es;
      var lo, hi;
      lo, hi, es := Bounds(i);
      var out: seq<(Value, Value)> := [];
      for j := lo to hi
        invariant RowIs(i, es, lo, hi) && out == es[lo..j]
      {
        var e := Entry(j, i, es, lo, hi);
        out := out + [e];
      }
      return Entries(out);
    }

    /** The entries fn is called on: all of row i in order, or those up to the first on which it fails. */
    method ForEachEntry(i: nat, fails: ((Value, Value)) -> bool) returns (seen: seq<(Value, Value)>, ok: bool)
      requires Valid() && Sound(shape, State()) && i < |offsets|
      ensures Valid() && Sound(shape, State()) && i < |offsets| && Rows(shape, State())[i].Entries?
      ensures var es := Rows(shape, State())[i].entries;
              && Visited(es, fails, seen, ok) && |seen| <= |es| && seen == es[..|seen|]
              && (ok ==> |seen| == |es|) && forall j :: 0 <= j < |seen| ==> (fails(seen[j]) <==> !ok && j == |seen| - 1)
      decreases shape, 1
    {
      ghost var es;
      var lo, hi;
      lo, hi, es := Bounds(i);
      seen := [];
      for j := lo to hi
        invariant RowIs(i, es, lo, hi) && Visited(es[lo..j], fails, seen, true)
      {
        var e := Entry(j, i, es, lo, hi);
        VisitMore(es, lo, j, hi, fails);
        seen := seen + [e];
        if fails(e) { return seen, false; }
      }
      ok := true;
    }

    method DecodeColumn(r: Reader, rows: int) returns (out: Outcome<()>)
      requires Valid() && r !in repr
      modifies repr, r
      ensures Valid()
      ensures match Decode(shape, old(State()), rows, old(r.rest))
              case Ok(c, rest) => out == Done(()) && State() == c && r.rest == rest
              case Err(f) => out == Failed(f)
      decreases shape, 1
    {
      var offs := ReadOffsets(r, rows);
      if offs.Failed? { return Failed(offs.fault); }
      offsets := offs.value;
      var total := 0;
      if rows > 0 { total := ToInt(offsets[rows - 1]); }
      out := DecodeBoth(r, total);
    }

    method DecodeBoth(r: Reader, total: int) returns (out: Outcome<()>)
      requires Valid() && r !in repr
      modifies keys.Repr(), values.Repr(), r
      ensures Valid()
      ensures match Decode(keys.Form(), old(keys.State()), total, old(r.rest))
              case Err(f) => out == Failed(f)
              case Ok(kc, s) =>
                match Decode(values.Form(), old(values.State()), total, s)
                case Err(f) => out == Failed(f)
                case Ok(vc, rest) =>
                  out == Done(()) && keys.State() == kc && values.State() == vc && r.rest == rest
      decreases shape, 0
    {
      out := keys.DecodeColumn(r, total);
      if out.Failed? { return; }
      out := values.DecodeColumn(r, total);
    }

    method EncodeColumn(b: Buffer) returns (out: Outcome<()>)
      requires Valid() && b !in repr
      modifies b
      ensures out.Done? <==> MulsFit(shape, State())
      ensures out.Done? ==> b.buf == old(b.buf) + Encode(shape, State())
      decreases shape, 0
    {
      ghost var before, p := b.buf, PutOffsets(offsets);
      WriteOffsets(offsets, b);
      out := keys.EncodeColumn(b);
      if out.Failed? { return; }
      out := values.EncodeColumn(b);
      ghost var ks, vs := Encode(keys.Form(), keys.State()), Encode(values.Form(), values.State());
      Assoc(before + p, ks, vs);
      Assoc(before, p, ks + vs);
    }
  }

  datatype Column =
    | FixedCol(fx: FixedColumn)
    | StrCol(st: StrColumn)
    | BlobCol(fs: FixedStringColumn)
    | ArrayCol(ar: ArrayColumn)
    | MapCol(mp: MapColumn)
  {
    ghost function Form(): Shape {
      match this
      case FixedCol(c) => Leaf(Fixed(c.w))
      case StrCol(c) => Leaf(Text)
      case BlobCol(c) => Leaf(Blob(c.n))
      case ArrayCol(c) => c.shape
      case MapCol(c) => c.shape
    }

    ghost function Repr(): set<object> {
      match this
      case FixedCol(c) => {c}
      case StrCol(c) => {c}
      case BlobCol(c) => {c}
      case ArrayCol(c) => c.repr
      case MapCol(c) => c.repr
    }

    ghost predicate Valid()
      reads Repr()
      decreases Form(), 1
    {
      match this
      case FixedCol(c) => c.Valid()
      case StrCol(c) => c.Valid()
      case BlobCol(c) => c.Valid()
      case ArrayCol(c) => c in c.repr && c.Valid()
      case MapCol(c) => c in c.repr && c.Valid()
    }

    ghost function State(): (c: Cols)
      requires Valid()
      reads Repr()
      ensures HasForm(Form(), c) && LeavesTyped(Form(), c)
      decreases Form(), 1
    {
      match this
      case FixedCol(c) => Vals(c.data)
      case StrCol(c) => Vals(c.data.View())
      case BlobCol(c) => Vals(c.data)
      case ArrayCol(c) => c.State()
      case MapCol(c) => c.State()
    }

    function Length(): (n: nat)
      requires Valid()
      reads Repr()
      ensures n == Len(State())
    {
      match this
      case FixedCol(c) => |c.data|
      case StrCol(c) => c.data.len
      case BlobCol(c) => |c.data|
      case ArrayCol(c) => |c.offsets|
      case MapCol(c) => |c.offsets|
    }

    predicate IsSliceAccessor() {
      FixedCol? || StrCol? || BlobCol?
    }

    method DataSlice(start: nat, end: nat) returns (vs: seq<Value>)
      requires Valid() && IsSliceAccessor() && Sound(Form(), State()) && start <= end <= Len(State())
      ensures vs == Rows(Form(), State())[start..end]
    {
      match this
      case FixedCol(c) => vs := c.data[start..end];
      case StrCol(c) => vs := c.data.View()[start..end];
      case BlobCol(c) => vs := c.data[start..end];
    }

    method Append(v: Value)
      requires Valid() && Shaped(Form(), v)
      modifies Repr()
      ensures Valid() && State() == Push(Form(), old(State()), v)
      decreases Form(), 4
    {
      match this
      case FixedCol(c) => c.data := c.data + [v];
      case StrCol(c) => c.Append(v);
      case BlobCol(c) => c.Append(v);
      case ArrayCol(c) => c.Append(v);
      case MapCol(c) => c.Append(v);
    }

    method AppendArr(vs: seq<Value>)
      requires Valid() && AllShaped(Form(), vs)
      modifies Repr()
      ensures Valid() && State() == PushAll(Form(), old(State()), vs)
      decreases Form(), 5
    {
      match this
      case FixedCol(c) =>
        NormPlain(Fixed(c.w), vs);
        PushAllLeaf(Fixed(c.w), State(), vs);
        c.data := c.data + vs;
      case StrCol(_) => AppendEach(vs);
      case BlobCol(_) => AppendEach(vs);
      case ArrayCol(c) => c.AppendArr(vs);
      case MapCol(c) => c.AppendArr(vs);
    }

    method AppendEach(vs: seq<Value>)
      requires Valid() && AllShaped(Form(), vs) && (StrCol? || BlobCol?)
      modifies Repr()
      ensures Valid() && State() == PushAll(Form(), old(State()), vs)
    {
      for i := 0 to |vs|
        invariant Valid() && State() == PushAll(Form(), old(State()), vs[..i])
      {
        Snoc(vs, i);
        match this {
          case StrCol(c) => c.Append(vs[i]);
          case BlobCol(c) => c.Append(vs[i]);
        }
      }
      assert vs[..|vs|] == vs;
    }

    method Reset()
      requires Valid()
      modifies Repr()
      ensures Valid() && State() == Empty(Form())
      decreases Form(), 4
    {
      match this
      case FixedCol(c) => c.data := [];
      case StrCol(c) => c.Reset();
      case BlobCol(c) => c.data := [];
      case ArrayCol(c) => c.Reset();
      case MapCol(c) => c.Reset();
    }

    method Row(i: nat) returns (v: Value)
      requires Valid() && Sound(Form(), State()) && i < Len(State())
      ensures Valid() && Sound(Form(), State()) && i < Len(State()) && v == Rows(Form(), State())[i]
      decreases Form(), 4
    {
      match this
      case FixedCol(c) => v := c.data[i];
      case StrCol(c) => v := c.data.View()[i];
      case BlobCol(c) => v := c.data[i];
      case ArrayCol(c) => v := c.Row(i);
      case MapCol(c) => v := c.Row(i);
    }

    /** DecodeColumn on any nesting refines Decode. */
    method DecodeColumn(r: Reader, rows: int) returns (out: Outcome<()>)
      requires Valid() && r !in Repr()
      modifies Repr(), r
      ensures Valid()
      ensures match Decode(Form(), old(State()), rows, old(r.rest))
              case Ok(c, rest) => out == Done(()) && State() == c && r.rest == rest
              case Err(f) => out == Failed(f)
      decreases Form(), 4
    {
      match this
      case FixedCol(c) => out := c.DecodeColumn(r, rows);
      case StrCol(c) => out := c.DecodeColumn(r, rows);
      case BlobCol(c) => out := c.DecodeColumn(r, rows);
      case ArrayCol(c) => out := c.DecodeColumn(r, rows);
      case MapCol(c) => out := c.DecodeColumn(r, rows);
    }

    /** EncodeColumn on any nesting appends Encode; it fails only when safeMul does. */
    method EncodeColumn(b: Buffer) returns (out: Outcome<()>)
      requires Valid() && b !in Repr()
      modifies b
      ensures out.Done? <==> MulsFit(Form(), State())
      ensures out.Done? ==> b.buf == old(b.buf) + Encode(Form(), State())
      decreases Form(), 4
    {
      match this
      case FixedCol(c) => out := c.EncodeColumn(b);
      case StrCol(c) => c.EncodeColumn(b); out := Done(());
      case BlobCol(c) => PutEach(b, Blob(c.n), c.data); out := Done(());
      case ArrayCol(c) => out := c.EncodeColumn(b);
      case MapCol(c) => out := c.EncodeColumn(b);
    }
  }
}
