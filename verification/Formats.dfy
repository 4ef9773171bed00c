/**
 The bytes on the wire said part by part, in the order and with the constants of the protocol: as what
 the readers for numbers and strings find, and apart from the decoders, which pass over names and
 metadata without looking at them.
 */
module Formats {
  import opened Wire
  import opened Codec
  import opened Wrappers
  import opened Dictionary
  import opened LowCardinality
  import opened Writers
  import opened Blocks

  // ---------- columns ----------

  /** A number is its bytes from the lowest up, a string its length and its bytes, a FixedString its bytes. */
  lemma LeafFormat(k: Kind, v: Value)
    requires TypedLeaf(k, v) && (k.Text? ==> |v.b| <= MAX_INT)
    ensures match k
            case Fixed(w) => |PutLeaf(k, v)| == w && forall j :: 0 <= j < w ==> PutLeaf(k, v)[j] == ByteOf(v.n, j)
            case Text => ReadUVarint(PutLeaf(k, v)) == Ok(|v.b|, v.b)
            case Blob(_) => PutLeaf(k, v) == v.b
  {
    match k
    case Fixed(w) =>
      forall j | 0 <= j < w
        ensures PutLeaf(k, v)[j] == ByteOf(v.n, j)
      {
        LEAt(v.n, w, j);
      }
    case Text => StrFormat(v.b);
    case Blob(_) =>
  }

  /** Leaf data is value after value. */
  lemma {:induction false} LeavesInOrder(k: Kind, vs: seq<Value>, i: nat)
    requires AllTyped(k, vs) && i < |vs|
    ensures PutLeaves(k, vs) == PutLeaves(k, vs[..i]) + (PutLeaf(k, vs[i]) + PutLeaves(k, vs[i + 1..]))
    decreases i
  {
    if i == 0 {
      assert [] + PutLeaves(k, vs) == PutLeaves(k, vs);
    } else {
      var tail, before, after := vs[1..], vs[..i], vs[i + 1..];
      LeavesInOrder(k, tail, i - 1);
      assert tail[i..] == after && tail[i - 1] == vs[i];
      assert before[1..] == tail[..i - 1] && before[0] == vs[0];
      Assoc(PutLeaf(k, vs[0]), PutLeaves(k, before[1..]), PutLeaf(k, vs[i]) + PutLeaves(k, after));
    }
  }

  /** First all offsets, then the elements. */
  lemma ArrayInParts(e: Shape, c: Cols, tail: seq<byte>)
    requires Sound(Array(e), c) && Fits(Array(e), c)
    ensures HasForm(Array(e), c) && LeavesTyped(Array(e), c)
    ensures GetOffsets(|c.offs|, Encode(Array(e), c) + tail) == Ok(c.offs, Encode(e, c.elem) + tail)
  {
    SoundTyped(Array(e), c);
    AscendingBound(c.offs);
    Assoc(PutOffsets(c.offs), Encode(e, c.elem), tail);
    OffsetsRoundTrip(c.offs, Encode(e, c.elem) + tail);
  }

  /** First all offsets, then the keys, then the values. */
  lemma MapInParts(k: Shape, v: Shape, c: Cols, tail: seq<byte>)
    requires Sound(Map(k, v), c) && Fits(Map(k, v), c)
    ensures HasForm(Map(k, v), c) && LeavesTyped(Map(k, v), c)
    ensures GetOffsets(|c.offs|, Encode(Map(k, v), c) + tail)
         == Ok(c.offs, Encode(k, c.keys) + (Encode(v, c.values) + tail))
  {
    SoundTyped(Map(k, v), c);
    var ks, vs := Encode(k, c.keys), Encode(v, c.values);
    AscendingBound(c.offs);
    Assoc(PutOffsets(c.offs), ks + vs, tail);
    Assoc(ks, vs, tail);
    OffsetsRoundTrip(c.offs, ks + (vs + tail));
  }

  /** Offsets are read one by one, the first row's first. */
  lemma OffsetsInOrder(offs: seq<nat>, tail: seq<byte>)
    requires offs != [] && offs[0] < TWO64
    ensures ReadUVarint(PutOffsets(offs) + tail) == Ok(offs[0], PutOffsets(offs[1..]) + tail)
  {
    Assoc(UVarint(offs[0]), PutOffsets(offs[1..]), tail);
    VarintRoundTrip(offs[0], PutOffsets(offs[1..]) + tail);
  }

  /** One byte a row, 1 for null and 0 for a value, and then the values. */
  lemma NullInParts(sh: Shape, c: NullCols)
    requires NullSound(sh, c)
    ensures HasForm(sh, c.values) && LeavesTyped(sh, c.values)
    ensures var s, n := NullEncode(sh, c), |c.nulls|;
            && n <= |s| && s[n..] == Encode(sh, c.values)
            && forall i :: 0 <= i < n ==> s[i] == if c.nulls[i] then 1 else 0
  {
    SoundTyped(sh, c.values);
  }

  /** Every flag byte but 0 is read as null. */
  lemma NullFlags(sh: Shape, prior: NullCols, rows: nat, s: seq<byte>)
    requires HasForm(sh, prior.values)
    ensures var r := NullDecode(sh, prior, rows, s);
            r.Ok? ==> && rows == |r.value.nulls| <= |s|
                      && forall i :: 0 <= i < rows ==> (r.value.nulls[i] <==> s[i] != 0)
  {
  }

  lemma TupleInParts(sh1: Shape, sh2: Shape, p: Cols, c1: Cols, c2: Cols, tail: seq<byte>)
    requires Sound(sh1, c1) && Fits(sh1, c1) && Sound(sh2, c2) && Fits(sh2, c2)
    requires HasForm(sh1, p) && Clean(sh1, p)
    ensures HasForm(sh1, c1) && LeavesTyped(sh1, c1) && HasForm(sh2, c2) && LeavesTyped(sh2, c2)
    ensures Decode(sh1, p, Len(c1), TupleEncode(sh1, sh2, c1, c2) + tail) == Ok(c1, Encode(sh2, c2) + tail)
  {
    SoundTyped(sh1, c1);
    SoundTyped(sh2, c2);
    Assoc(Encode(sh1, c1), Encode(sh2, c2), tail);
    RoundTrip(sh1, p, c1, Encode(sh2, c2) + tail);
    GraftClean(sh1, p, c1);
  }

  lemma {:induction false} EmptyBytes(sh: Shape)
    ensures LeavesTyped(sh, Empty(sh)) && Encode(sh, Empty(sh)) == []
  {
    match sh
    case Leaf(_) =>
    case Array(e) => EmptyBytes(e);
    case Map(k, v) => EmptyBytes(k); EmptyBytes(v);
  }

  predicate AllZero(s: seq<byte>) {
    forall i :: 0 <= i < |s| ==> s[i] == 0
  }

  /** The value stored beside a null is Go's zero value: alone in a column, it is sent as zero bytes only. */
  lemma ZeroBytes(sh: Shape)
    ensures var c := Push(sh, Empty(sh), Zero(sh));
            Sound(sh, c) && HasForm(sh, c) && LeavesTyped(sh, c) && AllZero(Encode(sh, c))
  {
    var c := Push(sh, Empty(sh), Zero(sh));
    PushRows(sh, Empty(sh), Zero(sh));
    SoundTyped(sh, c);
    match sh
    case Leaf(k) => ZeroLeaf(k, c.vals);
    case Array(e) => EmptyBytes(e); ZeroOffset(c.offs, []);
    case Map(k, v) => EmptyBytes(k); EmptyBytes(v); ZeroOffset(c.offs, [] + []);
  }

  lemma ZeroLeaf(k: Kind, vs: seq<Value>)
    requires AllTyped(k, vs) && |vs| == 1
    requires vs[0] == if k.Fixed? then Num(0) else if k.Text? then Str([]) else Str(Zeros(k.n))
    ensures AllZero(PutLeaves(k, vs))
  {
    assert PutLeaves(k, vs) == PutLeaf(k, vs[0]) + [];
    LeafFormat(k, vs[0]);
    match k
    case Fixed(w) =>
      forall j | 0 <= j < w
        ensures ByteOf(0, j) == 0
      {
        DivUnique(0, Pow256(j), 0);
      }
    case Text => assert UVarint(0) == [0];
    case Blob(_) =>
  }

  lemma ZeroOffset(offs: seq<nat>, rest: seq<byte>)
    requires offs == [0] && rest == []
    ensures AllZero(PutOffsets(offs) + rest)
  {
    assert PutOffsets(offs) == UVarint(0) + PutOffsets([]) == [0];
  }

  // ---------- what decoders do with input of any origin ----------

  /** FixedString keeps its rows and puts those it reads behind them. */
  lemma BlobAppends(n: nat, prior: seq<Value>, vs: seq<Value>, tail: seq<byte>)
    requires AllTyped(Blob(n), vs)
    ensures Decode(Leaf(Blob(n)), Vals(prior), |vs|, PutLeaves(Blob(n), vs) + tail) == Ok(Vals(prior + vs), tail)
  {
    LeavesRoundTrip(Blob(n), vs, tail);
  }

  /** A negative count, which an offset of 2^63 or more becomes, is an error, a panic, or no rows. */
  lemma NegativeCount(sh: Shape, prior: Cols, rows: int, s: seq<byte>)
    requires HasForm(sh, prior) && rows < 0
    ensures match sh
            case Leaf(Fixed(_)) => Decode(sh, prior, rows, s) == Err(Overflow)
            case Leaf(Text) => Decode(sh, prior, rows, s) == Err(Panic)
            case Leaf(Blob(_)) => Decode(sh, prior, rows, s) == Ok(prior, s)
            case _ => Decode(sh, prior, rows, s) == Decode(sh, prior, 0, s)
  {
    if sh.Leaf? && sh.kind.Blob? { assert prior.vals + [] == prior.vals; }
  }

  /** Whatever the offsets, the elements of an Array are as many as the last one says, taken as a Go int. */
  lemma LastOffsetCounts(e: Shape, prior: Cols, rows: nat, s: seq<byte>, offs: seq<nat>, rest: seq<byte>)
    requires HasForm(Array(e), prior) && rows > 0 && GetOffsets(rows, s) == Ok(offs, rest)
    ensures Decode(Array(e), prior, rows, s)
         == match Decode(e, prior.elem, ToInt(offs[rows - 1]), rest)
            case Err(f) => Err(f)
            case Ok(c, left) => Ok(Arr(offs, c), left)
  {
  }

  // ---------- LowCardinality blocks ----------

  /**
   Flags and key type, the size of the dictionary, its entries, the number of keys, the keys. The flags
   say that a dictionary follows and that it replaces any other.
   */
  ghost predicate BlockParts(k: Kind, kt: byte, d: seq<Value>, keys: seq<Value>, s: seq<byte>, tail: seq<byte>) {
    && [kt, 6, 0, 0, 0, 0, 0, 0] <= s
    && match GetLE(8, s[8..])
       case Err(_) => false
       case Ok(n, s1) =>
         n == |d|
         && match GetLeaves(k, n, s1)
            case Err(_) => false
            case Ok(entries, s2) => entries == d && KeyParts(kt, keys, s2, tail)
  }

  /** How many keys, and the keys in one, two, four or eight bytes each. */
  ghost predicate KeyParts(kt: byte, keys: seq<Value>, s: seq<byte>, tail: seq<byte>) {
    match GetLE(8, s)
    case Err(_) => false
    case Ok(m, s1) =>
      && m == |keys|
      && GetLeaves(Fixed(if kt == 0 then 1 else if kt == 1 then 2 else if kt == 2 then 4 else 8), m, s1)
         == Ok(keys, tail)
  }

  lemma BlockInParts(k: Kind, rows: seq<Value>, tail: seq<byte>)
    requires AllTyped(k, rows) && AllShort(rows) && 0 < |rows| <= MAX_INT
    ensures var d := Dedup(rows);
            && (forall i :: 0 <= i < |rows| ==> rows[i] in d)
            && BlockParts(k, if |d| <= 256 then 0 else if |d| <= 65536 then 1 else if |d| < 0x1_0000_0000 then 2 else 3,
                          d, Codes(d, rows), LCEncode(k, rows) + tail, tail)
  {
    var d, kt, ks := Dedup(rows), KeyType(|Dedup(rows)|), KeyBytes(rows);
    DedupTyped(k, rows);
    CodesTyped(rows);
    DedupExact(rows);
    var count := LE(|rows|, 8);
    Assoc5(LE(UPDATE_ALL + kt, 8), LE(|d|, 8), PutLeaves(k, d), count, ks, tail);
    KeysInParts(kt, Codes(d, rows), ks, tail);
    DictInParts(k, kt, d, Codes(d, rows), count + (ks + tail), tail);
  }

  lemma KeysInParts(kt: byte, codes: seq<Value>, ks: seq<byte>, tail: seq<byte>)
    requires kt < 4 && AllTyped(Fixed(Width(kt)), codes) && ks == PutLeaves(Fixed(Width(kt)), codes)
    requires |codes| <= MAX_INT
    ensures KeyParts(kt, codes, LE(|codes|, 8) + (ks + tail), tail)
  {
    Pow8();
    LEReadBack(|codes|, 8, ks + tail);
    LeavesRoundTrip(Fixed(Width(kt)), codes, tail);
  }

  lemma DictInParts(k: Kind, kt: byte, d: seq<Value>, codes: seq<Value>, rest: seq<byte>, tail: seq<byte>)
    requires kt < 4 && AllTyped(k, d) && AllShort(d) && |d| <= MAX_INT && KeyParts(kt, codes, rest, tail)
    ensures BlockParts(k, kt, d, codes, LE(UPDATE_ALL + kt, 8) + (LE(|d|, 8) + (PutLeaves(k, d) + rest)), tail)
  {
    var meta, s1 := LE(UPDATE_ALL + kt, 8), PutLeaves(k, d) + rest;
    Pow8();
    MetaBytes(kt);
    assert (meta + (LE(|d|, 8) + s1))[8..] == LE(|d|, 8) + s1;
    LEReadBack(|d|, 8, s1);
    LeavesRoundTrip(k, d, rest);
  }

  lemma MetaBytes(kt: byte)
    requires kt < 4
    ensures LE(UPDATE_ALL + kt, 8) == [kt, 6, 0, 0, 0, 0, 0, 0]
  {
    LowBytes(UPDATE_ALL + kt);
  }

  /**
   A block that needs a dictionary from elsewhere (bit 8), that does not bring one (bit 9 clear), whose
   dictionary has more than 100,000,000 entries, or that has another number of rows is refused.
   */
  lemma HeadRefused(k: Kind, st: LC, rows: nat, s: seq<byte>)
    requires rows > 0 && |s| >= 16
    ensures var meta, n := LEVal(s[..8]), LEVal(s[8..16]);
            meta / 256 % 2 == 1 || meta / 512 % 2 == 0 || n > 100_000_000 ==> LCDecode(k, st, rows, s) == Err(Malformed)
  {
    assert s[8..][..8] == s[8..16];
  }

  /** A key that does not index the dictionary makes the block malformed. */
  lemma KeyRefused(k: Kind, st: LC, rows: nat, s: seq<byte>, d: seq<Value>, kt: nat, s1: seq<byte>, i: nat)
    requires rows > 0 && kt < 4 && Head(k, st.uint8, rows, s) == Ok((d, kt), s1) && rows * Width(kt) <= |s1|
    requires i < |Keys(s1[..rows * Width(kt)], Width(kt))| && Keys(s1[..rows * Width(kt)], Width(kt))[i].Num?
    requires Keys(s1[..rows * Width(kt)], Width(kt))[i].n >= |d|
    ensures LCDecode(k, st, rows, s) == Err(Malformed)
  {
  }

  // ---------- blocks ----------

  /** A field other than 1 to 3 makes the block info malformed. */
  lemma InfoRefused(code: nat, s: seq<byte>)
    requires 3 < code < TWO64
    ensures SkipInfo(UVarint(code) + s) == Err(Malformed)
  {
    VarintRoundTrip(code, s);
  }

  /** A state other than version 1 is refused. */
  lemma StateRefused(fe: Features, b: Bound, version: nat, s: seq<byte>)
    requires fe.columnState && b.LowCol? && version < TWO64
    ensures ReadState(fe, b, LE(version, 8) + s) == if version == 1 then Ok((), s) else Err(Mismatch)
  {
    Pow8();
    LEReadBack(version, 8, s);
  }

  /** The counts a reader refuses, whatever follows them. */
  lemma CountsRefused(fe: Features, bs: seq<Bound>, n: int, rows: int, s: seq<byte>)
    ensures n > 1_000_000 || n < 0 || rows > 100_000_000 || rows < 0
            ==> CheckedColumns(fe, bs, n, rows, s) == Err(Malformed)
    ensures 0 <= n <= 1_000_000 && 0 <= rows <= 100_000_000 && (n > 0 || rows > 0) && n != |bs|
            ==> CheckedColumns(fe, bs, n, rows, s) == Err(Mismatch)
    ensures n == 0 && rows == 0 ==> CheckedColumns(fe, bs, n, rows, s) == Ok((bs, 0), s)
  {
  }

  /** What follows a column's head: the state of a LowCardinality column, null flags, and the data. */
  lemma BodyInParts(fe: Features, c: BlockCol)
    requires Sendable(c)
    ensures match c
            case Simple(_, _, sh, d) =>
              && HasForm(sh, d) && LeavesTyped(sh, d)
              && (Body(fe, c) == Encode(sh, d) <==> Intact(fe, c))
            case NullCol(_, _, sh, n) =>
              && HasForm(sh, n.values) && LeavesTyped(sh, n.values)
              && (Body(fe, c) == NullEncode(sh, n) <==> Intact(fe, c))
            case LowCol(_, _, k, lc) =>
              Body(fe, c) == (if fe.columnState then [1, 0, 0, 0, 0, 0, 0, 0] else []) + LCEncode(k, View(lc))
  {
    match c
    case Simple(_, _, sh, d) =>
      SoundTyped(sh, d);
      SentExact(fe.copies, sh, d);
    case NullCol(_, _, sh, n) =>
      SoundTyped(sh, n.values);
      SentExact(fe.copies, sh, n.values);
      SplitEqual(PutNulls(n.nulls), Sent(fe.copies, sh, n.values), PutNulls(n.nulls), Encode(sh, n.values));
    case LowCol(_, _, _, _) => StateBytes();
  }

  /** s is the columns' names, types, flags, state and data, column after column, and then tail. */
  ghost predicate ColumnParts(fe: Features, cs: seq<BlockCol>, rows: nat, s: seq<byte>, tail: seq<byte>)
    requires AllSendable(cs, rows)
    decreases |cs|
  {
    if cs == [] then s == tail
    else
      match GetStr(s)
      case Err(_) => false
      case Ok(name, s1) =>
        match GetStr(s1)
        case Err(_) => false
        case Ok(typ, s2) =>
          var flag: seq<byte> := if fe.customSerialization then [0] else [];
          var data: seq<byte> := if rows > 0 then Body(fe, cs[0]) else [];
          && name == cs[0].name && typ == cs[0].typ && flag + data <= s2
          && ColumnParts(fe, cs[1..], rows, s2[|flag + data|..], tail)
  }

  lemma {:induction false} ColumnsInParts(fe: Features, cs: seq<BlockCol>, rows: nat, tail: seq<byte>)
    requires AllSendable(cs, rows)
    ensures ColumnParts(fe, cs, rows, ColumnsBytes(fe, cs, rows) + tail, tail)
    decreases |cs|
  {
    if cs == [] {
      assert [] + tail == tail;
    } else {
      var c, rest := cs[0], ColumnsBytes(fe, cs[1..], rows) + tail;
      var flag: seq<byte> := if fe.customSerialization then [0] else [];
      var data: seq<byte> := if rows > 0 then Body(fe, c) else [];
      ColumnsInParts(fe, cs[1..], rows, tail);
      HeadInParts(fe, c, rows, ColumnsBytes(fe, cs[1..], rows), tail, flag + data);
      assert ((flag + data) + rest)[|flag + data|..] == rest;
    }
  }

  lemma HeadInParts(fe: Features, c: BlockCol, rows: nat, more: seq<byte>, tail: seq<byte>, body: seq<byte>)
    requires Sendable(c)
    requires body == (if fe.customSerialization then [0] else []) + (if rows > 0 then Body(fe, c) else [])
    ensures var s := (ColumnBytes(fe, c, rows) + more) + tail;
            GetStr(s) == Ok(c.name, PutStr(c.typ) + (body + (more + tail)))
    ensures GetStr(PutStr(c.typ) + (body + (more + tail))) == Ok(c.typ, body + (more + tail))
  {
    var name, typ := PutStr(c.name), PutStr(c.typ);
    Assoc(name + (typ + body), more, tail);
    Assoc(name, typ + body, more + tail);
    Assoc(typ, body, more + tail);
    StrRoundTrip(c.name, typ + (body + (more + tail)));
    StrRoundTrip(c.typ, body + (more + tail));
  }

  /**
   s is a data packet from the client, and then tail: its code 2, an empty table name, block info with
   field 1 (overflows) false, field 2 (the bucket number) and the end, the numbers of columns and rows,
   and the columns.
   */
  ghost predicate DataParts(fe: Features, bucket: seq<byte>, cs: seq<BlockCol>, rows: nat,
                            s: seq<byte>, tail: seq<byte>)
    requires AllSendable(cs, rows)
  {
    var table: seq<byte> := if fe.tempTables then [0] else [];
    var info: seq<byte> := if fe.blockInfo then [1, 0, 2] + bucket + [0] else [];
    var head := [2] + (table + info);
    head <= s && CountParts(fe, cs, rows, s[|head|..], tail)
  }

  ghost predicate CountParts(fe: Features, cs: seq<BlockCol>, rows: nat, s: seq<byte>, tail: seq<byte>)
    requires AllSendable(cs, rows)
  {
    match ReadUVarint(s)
    case Err(_) => false
    case Ok(n, s1) =>
      n == |cs|
      && match ReadUVarint(s1)
         case Err(_) => false
         case Ok(m, s2) => m == rows && ColumnParts(fe, cs, rows, s2, tail)
  }

  /** Block info with no overflows and the given bucket, as the client writes it. */
  lemma InfoBytes(bucket: nat)
    requires bucket < Pow256(4)
    ensures PutInfo([Overflows(false), Bucket(bucket)]) == [1, 0, 2] + LE(bucket, 4) + [0]
  {
    var fs := [Overflows(false), Bucket(bucket)];
    assert fs[1..] == [Bucket(bucket)] && fs[1..][1..] == [];
    assert PutInfo(fs) == PutField(fs[0]) + (PutField(fs[1]) + PutInfo([]));
    assert PutInfo([]) == [0] && PutField(fs[0]) == [1, 0] && PutField(fs[1]) == [2] + LE(bucket, 4);
  }

  lemma CountsInParts(fe: Features, cs: seq<BlockCol>, rows: nat, tail: seq<byte>)
    requires AllSendable(cs, rows)
    ensures CountParts(fe, cs, rows, (UVarint(|cs|) + (UVarint(rows) + ColumnsBytes(fe, cs, rows))) + tail, tail)
  {
    var n, m, body := UVarint(|cs|), UVarint(rows), ColumnsBytes(fe, cs, rows);
    Assoc(n, m + body, tail);
    Assoc(m, body, tail);
    VarintRoundTrip(|cs|, m + (body + tail));
    VarintRoundTrip(rows, body + tail);
    ColumnsInParts(fe, cs, rows, tail);
  }

  lemma DataInParts(fe: Features, bucket: nat, cs: seq<BlockCol>, rows: nat, tail: seq<byte>)
    requires AllSendable(cs, rows) && bucket < Pow256(4)
    ensures DataParts(fe, LE(bucket, 4), cs, rows,
                      (UVarint(2) + Frame(fe, [], [Overflows(false), Bucket(bucket)], cs, rows)) + tail, tail)
  {
    var table: seq<byte> := if fe.tempTables then [0] else [];
    var info: seq<byte> := if fe.blockInfo then [1, 0, 2] + LE(bucket, 4) + [0] else [];
    var counts := UVarint(|cs|) + (UVarint(rows) + ColumnsBytes(fe, cs, rows));
    InfoBytes(bucket);
    assert PutStr([]) == [0] && UVarint(2) == [2];
    CountsInParts(fe, cs, rows, tail);
    HeadFirst(table, info, counts, tail);
  }

  lemma HeadFirst(table: seq<byte>, info: seq<byte>, counts: seq<byte>, tail: seq<byte>)
    ensures var head, s := [2] + (table + info), ([2] + (table + (info + counts))) + tail;
            head <= s && s[|head|..] == counts + tail
  {
    assert ([2] + (table + (info + counts))) + tail == ([2] + (table + info)) + (counts + tail);
  }
}
