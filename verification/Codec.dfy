/**
 The column formats as values: what a column holds (`Cols`), how it grows (`Push`), which rows it
 shows (`Rows`), the bytes it becomes (`Encode`) and what a column becomes by reading (`Decode`).
 The classes in module Columns refine these functions; the theorems are about all nestings.
 */
module Codec {
  import opened Wire

  /** Fixed: w-byte elements (1, 2, 4, 8 for BaseColumn; 16, 32 for wide integers). */
  datatype Kind = Fixed(w: nat) | Text | Blob(n: nat)

  /** The column types that can nest. */
  datatype Shape = Leaf(kind: Kind) | Array(elem: Shape) | Map(key: Shape, val: Shape)

  /** One row. A number is the unsigned value of its element's bytes. */
  datatype Value =
    | Num(n: nat)
    | Str(b: seq<byte>)
    | List(items: seq<Value>)
    | Entries(entries: seq<(Value, Value)>)

  /** What a column holds: leaf data, or end offsets over the columns inside. */
  datatype Cols =
    | Vals(vals: seq<Value>)
    | Arr(offs: seq<nat>, elem: Cols)
    | Mp(offs: seq<nat>, keys: Cols, values: Cols)

  predicate WellFormed(sh: Shape) {
    match sh
    case Leaf(Fixed(w)) => w in {1, 2, 4, 8, 16, 32}
    case Leaf(Text) => true
    case Leaf(Blob(n)) => n > 0
    case Array(e) => WellFormed(e)
    case Map(k, v) => WellFormed(k) && WellFormed(v)
  }

  function Len(c: Cols): nat {
    match c
    case Vals(vs) => |vs|
    case Arr(offs, _) => |offs|
    case Mp(offs, _, _) => |offs|
  }

  function Empty(sh: Shape): (c: Cols)
    ensures HasForm(sh, c) && Sound(sh, c) && Fits(sh, c) && Clean(sh, c) && Len(c) == 0
  {
    match sh
    case Leaf(_) => Vals([])
    case Array(e) => Arr([], Empty(e))
    case Map(k, v) => Mp([], Empty(k), Empty(v))
  }

  predicate HasForm(sh: Shape, c: Cols) {
    match sh
    case Leaf(_) => c.Vals?
    case Array(e) => c.Arr? && HasForm(e, c.elem)
    case Map(k, v) => c.Mp? && HasForm(k, c.keys) && HasForm(v, c.values)
  }

  // ---------- the offsets invariant ----------

  function Init<T>(s: seq<T>): seq<T>
    requires s != []
  {
    s[..|s| - 1]
  }

  function Last<T>(s: seq<T>): T
    requires s != []
  {
    s[|s| - 1]
  }

  lemma Assoc<T>(a: seq<T>, b: seq<T>, c: seq<T>)
    ensures (a + b) + c == a + (b + c)
  {
  }

  function End(offs: seq<nat>): nat {
    if offs == [] then 0 else Last(offs)
  }

  predicate Ascending(offs: seq<nat>) {
    offs == [] || (End(Init(offs)) <= Last(offs) && Ascending(Init(offs)))
  }

  /** offs are the end offsets of consecutive rows over n elements. */
  predicate OffsetsOk(offs: seq<nat>, n: nat) {
    Ascending(offs) && n == End(offs)
  }

  predicate TypedLeaf(k: Kind, v: Value) {
    match k
    case Fixed(w) => v.Num? && v.n < Pow256(w)
    case Text => v.Str?
    case Blob(n) => v.Str? && |v.b| == n
  }

  predicate AllTyped(k: Kind, vs: seq<Value>) {
    forall i :: 0 <= i < |vs| ==> TypedLeaf(k, vs[i])
  }

  /** String lengths a Go process can hold. */
  predicate AllShort(vs: seq<Value>) {
    forall i :: 0 <= i < |vs| ==> vs[i].Str? ==> |vs[i].b| <= MAX_INT
  }

  /** Leaf data of the right kind and offsets that describe the columns inside. */
  predicate Sound(sh: Shape, c: Cols) {
    match sh
    case Leaf(k) => c.Vals? && AllTyped(k, c.vals)
    case Array(e) => c.Arr? && Sound(e, c.elem) && OffsetsOk(c.offs, Len(c.elem))
    case Map(k, v) => c.Mp? && Sound(k, c.keys) && Sound(v, c.values)
                      && Len(c.keys) == Len(c.values) && OffsetsOk(c.offs, Len(c.keys))
  }

  /** The sizes a 64-bit Go process can hold. */
  predicate Fits(sh: Shape, c: Cols) {
    && Len(c) <= MAX_INT
    && match sh
       case Leaf(Fixed(w)) => c.Vals? ==> |c.vals| * w <= MAX_INT
       case Leaf(Text) => c.Vals? ==> AllShort(c.vals)
       case Leaf(Blob(_)) => true
       case Array(e) => c.Arr? ==> Fits(e, c.elem)
       case Map(k, v) => c.Mp? ==> Fits(k, c.keys) && Fits(v, c.values)
  }

  /** No FixedString column inside holds rows. */
  predicate Clean(sh: Shape, c: Cols)
    requires HasForm(sh, c)
  {
    match sh
    case Leaf(k) => k.Blob? ==> c.vals == []
    case Array(e) => Clean(e, c.elem)
    case Map(k, v) => Clean(k, c.keys) && Clean(v, c.values)
  }

  // ---------- rows ----------

  /** es cut into consecutive rows at the given end offsets. */
  function Cut<T>(es: seq<T>, offs: seq<nat>): (rows: seq<seq<T>>)
    requires Ascending(offs) && End(offs) <= |es|
    ensures |rows| == |offs|
  {
    if offs == [] then [] else Cut(es, Init(offs)) + [es[End(Init(offs))..Last(offs)]]
  }

  lemma {:induction false} CutExtend<T>(es: seq<T>, more: seq<T>, offs: seq<nat>)
    requires Ascending(offs) && End(offs) <= |es|
    ensures Cut(es + more, offs) == Cut(es, offs)
  {
    if offs == [] {
    } else {
      CutExtend(es, more, Init(offs));
      var lo, hi := End(Init(offs)), Last(offs);
      assert (es + more)[lo..hi] == es[lo..hi];
    }
  }

  lemma CutPush<T>(es: seq<T>, more: seq<T>, offs: seq<nat>, next: seq<nat>, all: seq<T>)
    requires OffsetsOk(offs, |es|)
    requires next == offs + [|es| + |more|] && all == es + more
    ensures OffsetsOk(next, |all|) && Cut(all, next) == Cut(es, offs) + [more]
  {
    assert Init(next) == offs;
    CutExtend(es, more, offs);
    assert all[|es|..|all|] == more;
  }

  function Lo(offs: seq<nat>, i: nat): nat
    requires i < |offs|
  {
    if i == 0 then 0 else offs[i - 1]
  }

  /** Row i runs from the previous offset to its own. */
  lemma {:induction false} CutAt<T>(es: seq<T>, offs: seq<nat>, i: nat)
    requires Ascending(offs) && End(offs) <= |es| && i < |offs|
    ensures Lo(offs, i) <= offs[i] <= End(offs)
    ensures Cut(es, offs)[i] == es[Lo(offs, i)..offs[i]]
  {
    if i == |offs| - 1 {
    } else {
      CutAt(es, Init(offs), i);
    }
  }

  function Zip(ks: seq<Value>, vs: seq<Value>): (es: seq<(Value, Value)>)
    requires |ks| == |vs|
    ensures |es| == |ks|
  {
    if ks == [] then [] else Zip(Init(ks), Init(vs)) + [(Last(ks), Last(vs))]
  }

  lemma {:induction false} ZipConcat(ks: seq<Value>, vs: seq<Value>, ls: seq<Value>, ws: seq<Value>)
    requires |ks| == |vs| && |ls| == |ws|
    ensures Zip(ks + ls, vs + ws) == Zip(ks, vs) + Zip(ls, ws)
  {
    if ls == [] {
      assert ks + ls == ks && vs + ws == vs;
    } else {
      ZipConcat(ks, vs, Init(ls), Init(ws));
      assert Init(ks + ls) == ks + Init(ls) && Init(vs + ws) == vs + Init(ws);
    }
  }

  function Lists(rows: seq<seq<Value>>): (ls: seq<Value>)
    ensures |ls| == |rows|
  {
    if rows == [] then [] else Lists(Init(rows)) + [List(Last(rows))]
  }

  function Dicts(rows: seq<seq<(Value, Value)>>): (ds: seq<Value>)
    ensures |ds| == |rows|
  {
    if rows == [] then [] else Dicts(Init(rows)) + [Entries(Last(rows))]
  }

  lemma ListsPush(rows: seq<seq<Value>>, row: seq<Value>, all: seq<seq<Value>>)
    requires all == rows + [row]
    ensures Lists(all) == Lists(rows) + [List(row)]
  {
    assert Init(all) == rows;
  }

  lemma DictsPush(rows: seq<seq<(Value, Value)>>, row: seq<(Value, Value)>)
    ensures Dicts(rows + [row]) == Dicts(rows) + [Entries(row)]
  {
    assert Init(rows + [row]) == rows;
  }

  function Rows(sh: Shape, c: Cols): (rows: seq<Value>)
    requires Sound(sh, c)
    ensures |rows| == Len(c)
  {
    match sh
    case Leaf(_) => c.vals
    case Array(e) => Lists(Cut(Rows(e, c.elem), c.offs))
    case Map(k, v) => Dicts(Cut(Zip(Rows(k, c.keys), Rows(v, c.values)), c.offs))
  }

  // ---------- appending ----------

  function Zeros(n: nat): seq<byte> {
    seq(n, _ => 0)
  }

  /** FixedString(n) keeps the first n bytes and pads with zero bytes. */
  function Pad(n: nat, b: seq<byte>): (p: seq<byte>)
    ensures |p| == n && forall i :: 0 <= i < n ==> p[i] == if i < |b| then b[i] else 0
  {
    if |b| >= n then b[..n] else b + Zeros(n - |b|)
  }

  /** v is a Go value of the row type of sh. */
  predicate Shaped(sh: Shape, v: Value) {
    match sh
    case Leaf(Fixed(w)) => v.Num? && v.n < Pow256(w)
    case Leaf(_) => v.Str?
    case Array(e) => v.List? && forall i :: 0 <= i < |v.items| ==> Shaped(e, v.items[i])
    case Map(k, w) => v.Entries? && forall i :: 0 <= i < |v.entries| ==>
                        Shaped(k, v.entries[i].0) && Shaped(w, v.entries[i].1)
  }

  predicate AllShaped(sh: Shape, vs: seq<Value>) {
    forall i :: 0 <= i < |vs| ==> Shaped(sh, vs[i])
  }

  /** The value that is stored for v: FixedString leaves are padded or cut. */
  function Norm(sh: Shape, v: Value): Value
    requires Shaped(sh, v)
    decreases sh, 0
  {
    match sh
    case Leaf(Blob(n)) => Str(Pad(n, v.b))
    case Leaf(_) => v
    case Array(e) => List(NormAll(e, v.items))
    case Map(k, w) => Entries(Zip(NormAll(k, Firsts(v.entries)), NormAll(w, Seconds(v.entries))))
  }

  function NormAll(sh: Shape, vs: seq<Value>): (ns: seq<Value>)
    requires AllShaped(sh, vs)
    ensures |ns| == |vs|
    decreases sh, |vs| + 1
  {
    if vs == [] then [] else NormAll(sh, Init(vs)) + [Norm(sh, Last(vs))]
  }

  function Firsts(es: seq<(Value, Value)>): (ks: seq<Value>)
    ensures |ks| == |es|
    ensures forall i :: 0 <= i < |es| ==> ks[i] == es[i].0
  {
    if es == [] then [] else Firsts(Init(es)) + [Last(es).0]
  }

  function Seconds(es: seq<(Value, Value)>): (vs: seq<Value>)
    ensures |vs| == |es|
    ensures forall i :: 0 <= i < |es| ==> vs[i] == es[i].1
  {
    if es == [] then [] else Seconds(Init(es)) + [Last(es).1]
  }

  /** w is v, except that every FixedString inside is cut to its length or filled up with zero bytes. */
  predicate Kept(sh: Shape, v: Value, w: Value) {
    match sh
    case Leaf(Blob(n)) =>
      && v.Str? && w.Str? && |w.b| == n
      && forall i :: 0 <= i < n ==> w.b[i] == if i < |v.b| then v.b[i] else 0
    case Leaf(_) => w == v
    case Array(e) =>
      && v.List? && w.List? && |w.items| == |v.items|
      && forall i :: 0 <= i < |v.items| ==> Kept(e, v.items[i], w.items[i])
    case Map(k, x) =>
      && v.Entries? && w.Entries? && |w.entries| == |v.entries|
      && forall i :: 0 <= i < |v.entries| ==>
           Kept(k, v.entries[i].0, w.entries[i].0) && Kept(x, v.entries[i].1, w.entries[i].1)
  }

  predicate NoFixedString(sh: Shape) {
    match sh
    case Leaf(k) => !k.Blob?
    case Array(e) => NoFixedString(e)
    case Map(k, v) => NoFixedString(k) && NoFixedString(v)
  }

  /** What is stored for a row is the row, with its FixedStrings cut or filled up. */
  lemma {:induction false} NormKept(sh: Shape, v: Value)
    requires Shaped(sh, v)
    ensures Kept(sh, v, Norm(sh, v)) && (NoFixedString(sh) ==> Norm(sh, v) == v)
    decreases sh, 1
  {
    match sh
    case Leaf(_) =>
    case Array(e) => NormKeptAll(e, v.items, NormAll(e, v.items));
    case Map(_, _) => NormKeptMap(sh, v);
  }

  lemma {:induction false} NormKeptAll(sh: Shape, vs: seq<Value>, ws: seq<Value>)
    requires AllShaped(sh, vs) && ws == NormAll(sh, vs)
    ensures forall i :: 0 <= i < |vs| ==> Kept(sh, vs[i], ws[i])
    ensures NoFixedString(sh) ==> ws == vs
    decreases sh, 2
  {
    forall i | 0 <= i < |vs|
      ensures Kept(sh, vs[i], ws[i]) && (NoFixedString(sh) ==> ws[i] == vs[i])
    {
      NormAllAt(sh, vs, i);
      NormKept(sh, vs[i]);
    }
  }

  lemma {:induction false} NormKeptMap(sh: Shape, v: Value)
    requires Shaped(sh, v) && sh.Map?
    ensures Kept(sh, v, Norm(sh, v)) && (NoFixedString(sh) ==> Norm(sh, v) == v)
    decreases sh, 0
  {
    var k, x, es := sh.key, sh.val, v.entries;
    var ks, xs := Firsts(es), Seconds(es);
    var kn, xn := NormAll(k, ks), NormAll(x, xs);
    NormKeptAll(k, ks, kn);
    NormKeptAll(x, xs, xn);
    PairsKept(k, x, es, kn, xn);
    if NoFixedString(sh) { ZipPairs(es); }
  }

  lemma PairsKept(k: Shape, x: Shape, es: seq<(Value, Value)>, kn: seq<Value>, xn: seq<Value>)
    requires |es| == |kn| == |xn|
    requires forall i :: 0 <= i < |es| ==> Kept(k, Firsts(es)[i], kn[i])
    requires forall i :: 0 <= i < |es| ==> Kept(x, Seconds(es)[i], xn[i])
    ensures Kept(Map(k, x), Entries(es), Entries(Zip(kn, xn)))
  {
    forall i | 0 <= i < |es|
      ensures Zip(kn, xn)[i] == (kn[i], xn[i])
    {
      ZipAt(kn, xn, i);
    }
  }

  lemma ZipPairs(es: seq<(Value, Value)>)
    ensures Zip(Firsts(es), Seconds(es)) == es
  {
    forall i | 0 <= i < |es|
      ensures Zip(Firsts(es), Seconds(es))[i] == es[i]
    {
      ZipAt(Firsts(es), Seconds(es), i);
    }
  }

  lemma {:induction false} NormAllAt(sh: Shape, vs: seq<Value>, i: nat)
    requires AllShaped(sh, vs) && i < |vs|
    ensures NormAll(sh, vs)[i] == Norm(sh, vs[i])
    decreases |vs|
  {
    if i == |vs| - 1 {
    } else {
      NormAllAt(sh, Init(vs), i);
    }
  }

  lemma {:induction false} ZipAt(ks: seq<Value>, vs: seq<Value>, i: nat)
    requires |ks| == |vs| && i < |ks|
    ensures Zip(ks, vs)[i] == (ks[i], vs[i])
  {
    if i == |ks| - 1 {
    } else {
      ZipAt(Init(ks), Init(vs), i);
    }
  }

  /** Append of one row. */
  function Push(sh: Shape, c: Cols, v: Value): (r: Cols)
    requires HasForm(sh, c) && Shaped(sh, v)
    ensures HasForm(sh, r) && Len(r) == Len(c) + 1
    decreases sh, 0
  {
    match sh
    case Leaf(_) => Vals(c.vals + [Norm(sh, v)])
    case Array(e) => Arr(c.offs + [Len(c.elem) + |v.items|], PushAll(e, c.elem, v.items))
    case Map(k, w) =>
      var keys := PushAll(k, c.keys, Firsts(v.entries));
      Mp(c.offs + [Len(keys)], keys, PushAll(w, c.values, Seconds(v.entries)))
  }

  /** AppendArr: rows one after the other. */
  function PushAll(sh: Shape, c: Cols, vs: seq<Value>): (r: Cols)
    requires HasForm(sh, c) && AllShaped(sh, vs)
    ensures HasForm(sh, r) && Len(r) == Len(c) + |vs|
    decreases sh, |vs| + 1
  {
    if vs == [] then c
    else Push(sh, PushAll(sh, c, Init(vs)), Last(vs))
  }

  /** Append adds exactly the (padded) row at the end, whatever the nesting, and keeps the offsets sound. */
  lemma {:induction false} PushRows(sh: Shape, c: Cols, v: Value)
    requires HasForm(sh, c) && Sound(sh, c) && Shaped(sh, v)
    ensures Sound(sh, Push(sh, c, v))
    ensures Rows(sh, Push(sh, c, v)) == Rows(sh, c) + [Norm(sh, v)]
    decreases sh, 1
  {
    match sh
    case Leaf(_) =>
    case Array(_) => PushRowsArray(sh, c, v);
    case Map(_, _) => PushRowsMap(sh, c, v);
  }

  lemma {:induction false} PushRowsArray(sh: Shape, c: Cols, v: Value)
    requires HasForm(sh, c) && Sound(sh, c) && Shaped(sh, v) && sh.Array?
    ensures Sound(sh, Push(sh, c, v))
    ensures Rows(sh, Push(sh, c, v)) == Rows(sh, c) + [Norm(sh, v)]
    decreases sh, 0
  {
    var e, elem, added := sh.elem, PushAll(sh.elem, c.elem, v.items), NormAll(sh.elem, v.items);
    PushAllRows(e, c.elem, v.items);
    ArrayGrow(e, c, elem, added);
    assert Push(sh, c, v) == Arr(c.offs + [Len(elem)], elem) && Norm(sh, v) == List(added);
  }

  lemma ArrayGrow(e: Shape, c: Cols, elem: Cols, added: seq<Value>)
    requires Sound(Array(e), c) && Sound(e, elem) && Rows(e, elem) == Rows(e, c.elem) + added
    ensures Sound(Array(e), Arr(c.offs + [Len(elem)], elem))
    ensures Rows(Array(e), Arr(c.offs + [Len(elem)], elem)) == Rows(Array(e), c) + [List(added)]
  {
    RowsGrow(Rows(e, c.elem), added, Rows(e, elem), c.offs, c.offs + [Len(elem)]);
  }

  lemma RowsGrow(es: seq<Value>, added: seq<Value>, all: seq<Value>, offs: seq<nat>, next: seq<nat>)
    requires OffsetsOk(offs, |es|) && all == es + added && next == offs + [|all|]
    ensures OffsetsOk(next, |all|) && Lists(Cut(all, next)) == Lists(Cut(es, offs)) + [List(added)]
  {
    CutPush(es, added, offs, next, all);
    ListsPush(Cut(es, offs), added, Cut(all, next));
  }

  lemma MapGrow(k: Shape, w: Shape, c: Cols, keys: Cols, values: Cols, kn: seq<Value>, vn: seq<Value>)
    requires Sound(Map(k, w), c) && Sound(k, keys) && Sound(w, values) && |kn| == |vn|
    requires Rows(k, keys) == Rows(k, c.keys) + kn
    requires Rows(w, values) == Rows(w, c.values) + vn
    ensures Sound(Map(k, w), Mp(c.offs + [Len(keys)], keys, values))
    ensures Rows(Map(k, w), Mp(c.offs + [Len(keys)], keys, values))
         == Rows(Map(k, w), c) + [Entries(Zip(kn, vn))]
  {
    var kr, vr := Rows(k, c.keys), Rows(w, c.values);
    ZipConcat(kr, vr, kn, vn);
    CutPush(Zip(kr, vr), Zip(kn, vn), c.offs, c.offs + [Len(keys)], Zip(kr + kn, vr + vn));
    DictsPush(Cut(Zip(kr, vr), c.offs), Zip(kn, vn));
  }

  lemma {:induction false} PushRowsMap(sh: Shape, c: Cols, v: Value)
    requires HasForm(sh, c) && Sound(sh, c) && Shaped(sh, v) && sh.Map?
    ensures Sound(sh, Push(sh, c, v))
    ensures Rows(sh, Push(sh, c, v)) == Rows(sh, c) + [Norm(sh, v)]
    decreases sh, 0
  {
    var k, w := sh.key, sh.val;
    var ks, vs := Firsts(v.entries), Seconds(v.entries);
    PushAllRows(k, c.keys, ks);
    PushAllRows(w, c.values, vs);
    MapGrow(k, w, c, PushAll(k, c.keys, ks), PushAll(w, c.values, vs), NormAll(k, ks), NormAll(w, vs));
  }

  lemma {:induction false} PushAllRows(sh: Shape, c: Cols, vs: seq<Value>)
    requires HasForm(sh, c) && Sound(sh, c) && AllShaped(sh, vs)
    ensures Sound(sh, PushAll(sh, c, vs))
    ensures Rows(sh, PushAll(sh, c, vs)) == Rows(sh, c) + NormAll(sh, vs)
    decreases sh, |vs| + 2
  {
    if vs == [] {
    } else {
      var init, v := Init(vs), Last(vs);
      PushAllRows(sh, c, init);
      PushRows(sh, PushAll(sh, c, init), v);
      Assoc(Rows(sh, c), NormAll(sh, init), [Norm(sh, v)]);
    }
  }

  // ---------- encoding ----------

  function PutLeaf(k: Kind, v: Value): seq<byte>
    requires TypedLeaf(k, v)
  {
    match k
    case Fixed(w) => LE(v.n, w)
    case Text => PutStr(v.b)
    case Blob(_) => v.b
  }

  function PutLeaves(k: Kind, vs: seq<Value>): seq<byte>
    requires AllTyped(k, vs)
  {
    if vs == [] then [] else PutLeaf(k, vs[0]) + PutLeaves(k, vs[1..])
  }

  function PutOffsets(offs: seq<nat>): seq<byte> {
    if offs == [] then [] else UVarint(offs[0]) + PutOffsets(offs[1..])
  }

  function Encode(sh: Shape, c: Cols): seq<byte>
    requires HasForm(sh, c) && LeavesTyped(sh, c)
  {
    match sh
    case Leaf(k) => PutLeaves(k, c.vals)
    case Array(e) => PutOffsets(c.offs) + Encode(e, c.elem)
    case Map(k, v) => PutOffsets(c.offs) + (Encode(k, c.keys) + Encode(v, c.values))
  }

  /** What Go's types alone guarantee: leaf data of the right kind. */
  predicate LeavesTyped(sh: Shape, c: Cols) {
    match sh
    case Leaf(k) => c.Vals? ==> AllTyped(k, c.vals)
    case Array(e) => c.Arr? ==> LeavesTyped(e, c.elem)
    case Map(k, v) => c.Mp? ==> LeavesTyped(k, c.keys) && LeavesTyped(v, c.values)
  }

  lemma {:induction false} SoundTyped(sh: Shape, c: Cols)
    requires Sound(sh, c)
    ensures HasForm(sh, c) && LeavesTyped(sh, c)
  {
    match sh
    case Leaf(_) =>
    case Array(e) => SoundTyped(e, c.elem);
    case Map(k, v) => SoundTyped(k, c.keys); SoundTyped(v, c.values);
  }

  // ---------- decoding ----------

  function GetLeaf(k: Kind, s: seq<byte>): (r: Parsed<Value>)
    ensures r.Ok? ==> |r.rest| <= |s| && TypedLeaf(k, r.value)
  {
    match k
    case Fixed(w) =>
      (match GetLE(w, s)
       case Ok(n, rest) => LEBound(s[..w]); Ok(Num(n), rest)
       case Err(f) => Err(f))
    case Text =>
      (match GetStr(s)
       case Ok(b, rest) => Ok(Str(b), rest)
       case Err(f) => Err(f))
    case Blob(n) =>
      (match Take(n, s)
       case Ok(b, rest) => Ok(Str(b), rest)
       case Err(f) => Err(f))
  }

  function GetLeaves(k: Kind, n: nat, s: seq<byte>): (r: Parsed<seq<Value>>)
    ensures r.Ok? ==> |r.value| == n && |r.rest| <= |s|
  {
    if n == 0 then Ok([], s)
    else
      match GetLeaf(k, s)
      case Err(f) => Err(f)
      case Ok(v, s1) =>
        match GetLeaves(k, n - 1, s1)
        case Err(f) => Err(f)
        case Ok(vs, rest) => Ok([v] + vs, rest)
  }

  function GetOffsets(n: nat, s: seq<byte>): (r: Parsed<seq<nat>>)
    ensures r.Ok? ==> |r.value| == n && |r.rest| <= |s|
  {
    if n == 0 then Ok([], s)
    else
      match ReadUVarint(s)
      case Err(f) => Err(f)
      case Ok(v, s1) =>
        match GetOffsets(n - 1, s1)
        case Err(f) => Err(f)
        case Ok(vs, rest) => Ok([v] + vs, rest)
  }

  /** The element count a decoder derives from the offsets it has read. */
  function Total(offs: seq<nat>): int {
    if offs == [] then 0 else ToInt(offs[|offs| - 1])
  }

  /**
   DecodeColumn of `rows` rows into a column holding `prior`. A row count comes from an offset on
   the wire, so it can be any 64-bit int: negative counts are an error for fixed-width elements, a
   panic for strings, and are taken as no rows by FixedString, Array and Map. FixedString appends.
   */
  function Decode(sh: Shape, prior: Cols, rows: int, s: seq<byte>): (r: Parsed<Cols>)
    requires HasForm(sh, prior)
    ensures r.Ok? ==> HasForm(sh, r.value) && |r.rest| <= |s|
  {
    match sh
    case Leaf(k) =>
      if k.Fixed? && (rows < 0 || rows * k.w > MAX_INT) then Err(Overflow)
      else if k.Text? && rows < 0 then Err(Panic)
      else (match GetLeaves(k, if rows < 0 then 0 else rows, s)
            case Err(f) => Err(f)
            case Ok(vs, rest) => Ok(Vals(if k.Blob? then prior.vals + vs else vs), rest))
    case Array(e) =>
      (match GetOffsets(if rows < 0 then 0 else rows, s)
       case Err(f) => Err(f)
       case Ok(offs, s1) =>
         match Decode(e, prior.elem, Total(offs), s1)
         case Err(f) => Err(f)
         case Ok(c, rest) => Ok(Arr(offs, c), rest))
    case Map(k, v) =>
      (match GetOffsets(if rows < 0 then 0 else rows, s)
       case Err(f) => Err(f)
       case Ok(offs, s1) =>
         match Decode(k, prior.keys, Total(offs), s1)
         case Err(f) => Err(f)
         case Ok(keys, s2) =>
           match Decode(v, prior.values, Total(offs), s2)
           case Err(f) => Err(f)
           case Ok(vals, rest) => Ok(Mp(offs, keys, vals), rest))
  }

  lemma {:induction false} GetLeavesTyped(k: Kind, n: nat, s: seq<byte>)
    ensures GetLeaves(k, n, s).Ok? ==> AllTyped(k, GetLeaves(k, n, s).value)
  {
    if n == 0 || GetLeaf(k, s).Err? {
    } else {
      GetLeavesTyped(k, n - 1, GetLeaf(k, s).rest);
    }
  }

  /** Whatever the input, a decoder fills the leaves with values of their type. */
  lemma {:induction false} DecodeTyped(sh: Shape, prior: Cols, rows: int, s: seq<byte>)
    requires HasForm(sh, prior) && LeavesTyped(sh, prior)
    ensures Decode(sh, prior, rows, s).Ok? ==> LeavesTyped(sh, Decode(sh, prior, rows, s).value)
  {
    var n := if rows < 0 then 0 else rows;
    match sh
    case Leaf(k) => GetLeavesTyped(k, n, s);
    case Array(e) =>
      var offs := GetOffsets(n, s);
      if offs.Ok? { DecodeTyped(e, prior.elem, Total(offs.value), offs.rest); }
    case Map(k, v) =>
      var offs := GetOffsets(n, s);
      if offs.Ok? {
        var keys := Decode(k, prior.keys, Total(offs.value), offs.rest);
        DecodeTyped(k, prior.keys, Total(offs.value), offs.rest);
        if keys.Ok? { DecodeTyped(v, prior.values, Total(offs.value), keys.rest); }
      }
  }

  // ---------- round trip ----------

  lemma LeafRoundTrip(k: Kind, v: Value, tail: seq<byte>)
    requires TypedLeaf(k, v) && (k.Text? ==> |v.b| <= MAX_INT)
    ensures GetLeaf(k, PutLeaf(k, v) + tail) == Ok(v, tail)
  {
    match k
    case Fixed(w) => LEReadBack(v.n, w, tail);
    case Text => StrRoundTrip(v.b, tail);
    case Blob(_) => TakeExact(v.b, tail);
  }

  lemma {:induction false} LeavesRoundTrip(k: Kind, vs: seq<Value>, tail: seq<byte>)
    requires AllTyped(k, vs)
    requires k.Text? ==> AllShort(vs)
    ensures GetLeaves(k, |vs|, PutLeaves(k, vs) + tail) == Ok(vs, tail)
  {
    if vs == [] {
      assert [] + tail == tail;
    } else {
      var v, vs' := vs[0], vs[1..];
      var p, ps := PutLeaf(k, v), PutLeaves(k, vs');
      Assoc(p, ps, tail);
      LeafRoundTrip(k, v, ps + tail);
      LeavesRoundTrip(k, vs', tail);
      assert vs == [v] + vs';
    }
  }

  lemma {:induction false} AscendingBound(offs: seq<nat>)
    requires Ascending(offs)
    ensures forall i :: 0 <= i < |offs| ==> offs[i] <= End(offs)
  {
    if offs == [] {
    } else {
      AscendingBound(Init(offs));
    }
  }

  lemma {:induction false} OffsetsRoundTrip(offs: seq<nat>, tail: seq<byte>)
    requires forall i :: 0 <= i < |offs| ==> offs[i] < TWO64
    ensures GetOffsets(|offs|, PutOffsets(offs) + tail) == Ok(offs, tail)
  {
    if offs == [] {
      assert [] + tail == tail;
    } else {
      var o, offs' := offs[0], offs[1..];
      var p, ps := UVarint(o), PutOffsets(offs');
      Assoc(p, ps, tail);
      VarintRoundTrip(o, ps + tail);
      OffsetsRoundTrip(offs', tail);
      assert offs == [o] + offs';
    }
  }

  /** What decoding c's bytes leaves in a column that held prior: FixedString rows accumulate. */
  function Graft(sh: Shape, prior: Cols, c: Cols): (r: Cols)
    requires HasForm(sh, prior) && HasForm(sh, c)
    ensures HasForm(sh, r)
  {
    match sh
    case Leaf(k) => if k.Blob? then Vals(prior.vals + c.vals) else c
    case Array(e) => Arr(c.offs, Graft(e, prior.elem, c.elem))
    case Map(k, v) => Mp(c.offs, Graft(k, prior.keys, c.keys), Graft(v, prior.values, c.values))
  }

  lemma {:induction false} GraftClean(sh: Shape, prior: Cols, c: Cols)
    requires HasForm(sh, prior) && HasForm(sh, c)
    ensures Graft(sh, prior, c) == c <==> Clean(sh, prior)
  {
    match sh
    case Leaf(k) =>
      if k.Blob? {
        assert |prior.vals + c.vals| == |prior.vals| + |c.vals|;
      }
    case Array(e) => GraftClean(e, prior.elem, c.elem);
    case Map(k, v) => GraftClean(k, prior.keys, c.keys); GraftClean(v, prior.values, c.values);
  }

  /** For every nesting and every prior content, decoding reads exactly the encoded bytes. */
  lemma {:induction false} DecodeEncode(sh: Shape, prior: Cols, c: Cols, tail: seq<byte>)
    requires HasForm(sh, prior) && HasForm(sh, c) && LeavesTyped(sh, c)
    requires Sound(sh, c) && Fits(sh, c)
    ensures Decode(sh, prior, Len(c), Encode(sh, c) + tail) == Ok(Graft(sh, prior, c), tail)
    decreases sh, 1
  {
    match sh
    case Leaf(k) => LeavesRoundTrip(k, c.vals, tail);
    case Array(e) =>
      var inner := Encode(e, c.elem);
      Assoc(PutOffsets(c.offs), inner, tail);
      AscendingBound(c.offs);
      OffsetsRoundTrip(c.offs, inner + tail);
      DecodeEncode(e, prior.elem, c.elem, tail);
    case Map(_, _) => DecodeEncodeMap(sh, prior, c, tail);
  }

  lemma {:induction false} DecodeEncodeMap(sh: Shape, prior: Cols, c: Cols, tail: seq<byte>)
    requires HasForm(sh, prior) && HasForm(sh, c) && LeavesTyped(sh, c)
    requires Sound(sh, c) && Fits(sh, c) && sh.Map?
    ensures Decode(sh, prior, Len(c), Encode(sh, c) + tail) == Ok(Graft(sh, prior, c), tail)
    decreases sh, 0
  {
    var ks, vs := Encode(sh.key, c.keys), Encode(sh.val, c.values);
    Assoc(PutOffsets(c.offs), ks + vs, tail);
    Assoc(ks, vs, tail);
    AscendingBound(c.offs);
    OffsetsRoundTrip(c.offs, ks + (vs + tail));
    DecodeEncode(sh.key, prior.keys, c.keys, vs + tail);
    DecodeEncode(sh.val, prior.values, c.values, tail);
  }

  /**
   The round trip over all nestings: reading a column's own bytes, whatever follows them, gives the
   same column and stops at the first trailing byte, exactly when no FixedString column inside the
   receiver still holds rows.
   */
  lemma RoundTrip(sh: Shape, prior: Cols, c: Cols, tail: seq<byte>)
    requires HasForm(sh, prior) && Sound(sh, c) && Fits(sh, c)
    ensures HasForm(sh, c) && LeavesTyped(sh, c)
    ensures Decode(sh, prior, Len(c), Encode(sh, c) + tail) == Ok(c, tail) <==> Clean(sh, prior)
    ensures Decode(sh, prior, Len(c), Encode(sh, c) + tail).Ok?
    ensures Decode(sh, prior, Len(c), Encode(sh, c) + tail).rest == tail
  {
    SoundTyped(sh, c);
    DecodeEncode(sh, prior, c, tail);
    GraftClean(sh, prior, c);
  }

  /** Columns of one length whose encodings agree up to what follows are the same column. */
  lemma EncodeInjective(sh: Shape, c: Cols, d: Cols, t: seq<byte>, u: seq<byte>)
    requires Sound(sh, c) && Fits(sh, c) && Sound(sh, d) && Fits(sh, d) && Len(c) == Len(d)
    requires HasForm(sh, c) && LeavesTyped(sh, c) && HasForm(sh, d) && LeavesTyped(sh, d)
    requires Encode(sh, c) + t == Encode(sh, d) + u
    ensures c == d && t == u
  {
    RoundTrip(sh, Empty(sh), c, t);
    RoundTrip(sh, Empty(sh), d, u);
  }

  // ---------- rows and bytes determine each other ----------

  lemma {:induction false} CutInjective<T>(es: seq<T>, fs: seq<T>, a: seq<nat>, b: seq<nat>)
    requires OffsetsOk(a, |es|) && OffsetsOk(b, |fs|) && Cut(es, a) == Cut(fs, b)
    ensures es == fs && a == b
    decreases |a|
  {
    if a == [] {
    } else {
      var lo, at, rows := End(Init(a)), End(Init(b)), Cut(es, a);
      CutSplit(es, a, rows);
      CutSplit(fs, b, rows);
      CutInjective(es[..lo], fs[..at], Init(a), Init(b));
      assert es == es[..lo] + Last(rows) == fs;
    }
  }

  lemma CutSplit<T>(es: seq<T>, offs: seq<nat>, rows: seq<seq<T>>)
    requires OffsetsOk(offs, |es|) && offs != [] && rows == Cut(es, offs)
    ensures var lo := End(Init(offs));
            && OffsetsOk(Init(offs), |es[..lo]|) && Cut(es[..lo], Init(offs)) == Init(rows)
            && es == es[..lo] + Last(rows) && Last(offs) == lo + |Last(rows)|
  {
    var lo := End(Init(offs));
    assert es == es[..lo] + es[lo..];
    CutExtend(es[..lo], es[lo..], Init(offs));
    assert es[lo..|es|] == es[lo..];
  }

  lemma {:induction false} ZipInjective(ks: seq<Value>, vs: seq<Value>, ls: seq<Value>, ws: seq<Value>)
    requires |ks| == |vs| && |ls| == |ws| && Zip(ks, vs) == Zip(ls, ws)
    ensures ks == ls && vs == ws
  {
    if ks == [] {
    } else {
      var z, y := Zip(ks, vs), Zip(ls, ws);
      assert Init(z) == Zip(Init(ks), Init(vs)) && Init(y) == Zip(Init(ls), Init(ws));
      assert Last(z) == (Last(ks), Last(vs)) && Last(y) == (Last(ls), Last(ws));
      ZipInjective(Init(ks), Init(vs), Init(ls), Init(ws));
      assert ks == Init(ks) + [Last(ks)] && ls == Init(ls) + [Last(ls)];
      assert vs == Init(vs) + [Last(vs)] && ws == Init(ws) + [Last(ws)];
    }
  }

  lemma {:induction false} ListsAt(rows: seq<seq<Value>>, i: nat)
    requires i < |rows|
    ensures Lists(rows)[i] == List(rows[i])
  {
    if i == |rows| - 1 {
    } else {
      ListsAt(Init(rows), i);
    }
  }

  lemma {:induction false} DictsAt(rows: seq<seq<(Value, Value)>>, i: nat)
    requires i < |rows|
    ensures Dicts(rows)[i] == Entries(rows[i])
  {
    if i == |rows| - 1 {
    } else {
      DictsAt(Init(rows), i);
    }
  }

  /** A column is determined by the rows it shows: it keeps nothing else. */
  lemma {:induction false} RowsInjective(sh: Shape, c: Cols, d: Cols)
    requires Sound(sh, c) && Sound(sh, d) && Rows(sh, c) == Rows(sh, d)
    ensures c == d
  {
    match sh
    case Leaf(_) =>
    case Array(e) =>
      var a, b := Cut(Rows(e, c.elem), c.offs), Cut(Rows(e, d.elem), d.offs);
      forall i | 0 <= i < |a|
        ensures a[i] == b[i]
      {
        ListsAt(a, i);
        ListsAt(b, i);
      }
      CutInjective(Rows(e, c.elem), Rows(e, d.elem), c.offs, d.offs);
      RowsInjective(e, c.elem, d.elem);
    case Map(k, v) =>
      var y, z := Zip(Rows(k, c.keys), Rows(v, c.values)), Zip(Rows(k, d.keys), Rows(v, d.values));
      var a, b := Cut(y, c.offs), Cut(z, d.offs);
      forall i | 0 <= i < |a|
        ensures a[i] == b[i]
      {
        DictsAt(a, i);
        DictsAt(b, i);
      }
      CutInjective(y, z, c.offs, d.offs);
      ZipInjective(Rows(k, c.keys), Rows(v, c.values), Rows(k, d.keys), Rows(v, d.values));
      RowsInjective(k, c.keys, d.keys);
      RowsInjective(v, c.values, d.values);
  }

  /** However two columns of one length came about, they become the same bytes exactly when they show the same rows. */
  lemma BytesOfRows(sh: Shape, c: Cols, d: Cols)
    requires Sound(sh, c) && Fits(sh, c) && Sound(sh, d) && Fits(sh, d) && Len(c) == Len(d)
    ensures HasForm(sh, c) && LeavesTyped(sh, c) && HasForm(sh, d) && LeavesTyped(sh, d)
    ensures Encode(sh, c) == Encode(sh, d) <==> Rows(sh, c) == Rows(sh, d)
  {
    SoundTyped(sh, c);
    SoundTyped(sh, d);
    if Encode(sh, c) == Encode(sh, d) { EncodeInjective(sh, c, d, [], []); }
    if Rows(sh, c) == Rows(sh, d) { RowsInjective(sh, c, d); }
  }

  // ---------- runs of operations ----------

  /** One call on a column; Load is a decode of the encoding of another column of that shape. */
  datatype Op = Append(v: Value) | AppendArr(vs: seq<Value>) | Reset | Load(source: Cols)

  predicate OpShaped(sh: Shape, op: Op) {
    match op
    case Append(v) => Shaped(sh, v)
    case AppendArr(vs) => AllShaped(sh, vs)
    case Reset => true
    case Load(d) => Sound(sh, d) && Fits(sh, d)
  }

  /** A decode needs the FixedString columns inside to be reset first. */
  predicate Legal(sh: Shape, c: Cols, op: Op)
    requires HasForm(sh, c)
  {
    OpShaped(sh, op) && (op.Load? ==> Clean(sh, c))
  }

  ghost function Apply(sh: Shape, c: Cols, op: Op): (r: Cols)
    requires HasForm(sh, c) && Legal(sh, c, op)
    ensures HasForm(sh, r)
  {
    match op
    case Append(v) => Push(sh, c, v)
    case AppendArr(vs) => PushAll(sh, c, vs)
    case Reset => Empty(sh)
    case Load(d) =>
      SoundTyped(sh, d);
      RoundTrip(sh, c, d, []);
      Decode(sh, c, Len(d), Encode(sh, d) + []).value
  }

  ghost predicate LegalRun(sh: Shape, c: Cols, ops: seq<Op>)
    requires HasForm(sh, c)
    decreases |ops|
  {
    ops != [] ==> Legal(sh, c, ops[0]) && LegalRun(sh, Apply(sh, c, ops[0]), ops[1..])
  }

  ghost function Run(sh: Shape, c: Cols, ops: seq<Op>): Cols
    requires HasForm(sh, c) && LegalRun(sh, c, ops)
    decreases |ops|
  {
    if ops == [] then c else Run(sh, Apply(sh, c, ops[0]), ops[1..])
  }

  /** The plain list a caller has in mind. */
  ghost function Model(sh: Shape, rows: seq<Value>, ops: seq<Op>): seq<Value>
    requires forall op :: op in ops ==> OpShaped(sh, op)
    decreases |ops|
  {
    if ops == [] then rows
    else
      assert OpShaped(sh, ops[0]);
      var next := match ops[0]
                  case Append(v) => rows + [Norm(sh, v)]
                  case AppendArr(vs) => rows + NormAll(sh, vs)
                  case Reset => []
                  case Load(d) => Rows(sh, d);
      Model(sh, next, ops[1..])
  }

  lemma {:induction false} LegalOps(sh: Shape, c: Cols, ops: seq<Op>)
    requires HasForm(sh, c) && LegalRun(sh, c, ops)
    ensures forall op :: op in ops ==> OpShaped(sh, op)
    decreases |ops|
  {
    if ops == [] {
    } else {
      LegalOps(sh, Apply(sh, c, ops[0]), ops[1..]);
    }
  }

  /**
   Over any run of Append, AppendArr, Reset and decodes, the offsets stay sound and the column shows
   exactly the rows of the plain list.
   */
  lemma {:induction false} RunRows(sh: Shape, c: Cols, ops: seq<Op>)
    requires HasForm(sh, c) && Sound(sh, c) && LegalRun(sh, c, ops)
    ensures Sound(sh, Run(sh, c, ops))
    ensures (LegalOps(sh, c, ops); Rows(sh, Run(sh, c, ops)) == Model(sh, Rows(sh, c), ops))
    decreases |ops|
  {
    LegalOps(sh, c, ops);
    if ops == [] {
    } else {
      match ops[0] {
        case Append(v) => PushRows(sh, c, v);
        case AppendArr(vs) => PushAllRows(sh, c, vs);
        case Reset => assert Rows(sh, Empty(sh)) == [];
        case Load(d) => RoundTrip(sh, c, d, []);
      }
      RunRows(sh, Apply(sh, c, ops[0]), ops[1..]);
      LegalOps(sh, Apply(sh, c, ops[0]), ops[1..]);
    }
  }

  /**
   The whole way: a column filled by any run of operations is sent, and any column of its type without
   FixedString rows that reads the bytes, whatever follows them, shows the rows of the plain list.
   */
  lemma BuildRoundTrip(sh: Shape, ops: seq<Op>, prior: Cols, tail: seq<byte>)
    requires HasForm(sh, prior) && Clean(sh, prior)
    requires LegalRun(sh, Empty(sh), ops) && Fits(sh, Run(sh, Empty(sh), ops))
    ensures var c := Run(sh, Empty(sh), ops);
            && HasForm(sh, c) && LeavesTyped(sh, c)
            && var r := Decode(sh, prior, Len(c), Encode(sh, c) + tail);
            && r.Ok? && r.rest == tail && Sound(sh, r.value)
            && (LegalOps(sh, Empty(sh), ops); Rows(sh, r.value) == Model(sh, [], ops))
  {
    RunRows(sh, Empty(sh), ops);
    RoundTrip(sh, prior, Run(sh, Empty(sh), ops), tail);
    assert Rows(sh, Empty(sh)) == [];
  }
}
