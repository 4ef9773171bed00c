/**
 LowCardinality: a dictionary and narrow keys on the wire, looked up lazily after a decode and
 expanded into the inner column only when the column is encoded again. Keys of integer and string
 types; the inner column is a leaf.
 */
module LowCardinality {
  import opened Wire
  import opened Codec
  import opened Columns
  import opened Dictionary

  const MAX_INDEX_ROWS := 100_000_000
  const UPDATE_ALL := 0x600
  const VERSION := 1

  /** The column's fields; uint8 tells the two one-byte element types apart. */
  datatype LC =
    LC(values: seq<Value>, dict: seq<Value>, keys: seq<byte>, width: nat, expanded: bool, uint8: bool)

  predicate IsKeyKind(k: Kind) {
    k == Text || k == Fixed(1) || k == Fixed(2) || k == Fixed(4) || k == Fixed(8)
  }

  function Width(kt: nat): (w: nat)
    requires kt < 4
    ensures w in {1, 2, 4, 8}
  {
    if kt == 0 then 1 else if kt == 1 then 2 else if kt == 2 then 4 else 8
  }

  /** The key type chosen for a dictionary of n entries. */
  function KeyType(n: nat): (kt: nat)
    ensures kt < 4
  {
    if n <= 256 then 0 else if n <= 65536 then 1 else if n <= 0xffff_ffff then 2 else 3
  }

  lemma PowWidth(kt: nat)
    requires kt < 4
    ensures Pow256(Width(kt)) == if kt == 0 then 256 else if kt == 1 then 65536
                                 else if kt == 2 then 0x1_0000_0000 else TWO64
  {
    assert Pow256(2) == 65536;
    assert Pow256(4) == 0x1_0000_0000;
    Pow8();
  }

  /** The key type is the narrowest that can number n entries, except for exactly 2^32 of them. */
  lemma NarrowestKeys(n: nat, kt: nat)
    requires kt < 4 && n <= TWO64
    ensures (KeyType(n) <= kt <==> n <= Pow256(Width(kt))) <==> !(kt == 2 && n == 0x1_0000_0000)
  {
    PowWidth(kt);
  }

  // ---------- the lazy view ----------

  function Keys(keys: seq<byte>, width: nat): seq<Value>
    requires width > 0
  {
    TimesMul(|keys| / width, width);
    Elems(width, |keys| / width, keys)
  }

  predicate Lazy(st: LC) {
    !st.expanded && st.dict != []
  }

  /** Every key indexes the dictionary, as far as the view uses them. */
  predicate ViewOk(st: LC) {
    Lazy(st) ==> st.width > 0 && InRange(Keys(st.keys, st.width), |st.dict|)
  }

  /** The rows the column shows. */
  function View(st: LC): seq<Value>
    requires ViewOk(st)
  {
    if Lazy(st) then Resolve(st.dict, Keys(st.keys, st.width)) else st.values
  }

  /** ensureExpanded */
  function Expand(st: LC): LC
    requires ViewOk(st)
  {
    if Lazy(st) then st.(values := View(st), expanded := true) else st
  }

  /** Expanding changes no row, and expanding again changes nothing. */
  lemma ExpandKeepsView(st: LC)
    requires ViewOk(st)
    ensures ViewOk(Expand(st)) && View(Expand(st)) == View(st) == Expand(st).values
    ensures st.dict == [] || Expand(st).expanded
    ensures Expand(Expand(st)) == Expand(st)
  {
  }

  // ---------- encoding ----------

  lemma {:induction false} DedupTyped(k: Kind, rows: seq<Value>)
    requires AllTyped(k, rows)
    ensures AllTyped(k, Dedup(rows)) && (AllShort(rows) ==> AllShort(Dedup(rows)))
  {
    if rows == [] {
    } else {
      DedupTyped(k, Init(rows));
    }
  }

  lemma CodesTyped(rows: seq<Value>)
    requires |rows| <= MAX_INT
    ensures forall i :: 0 <= i < |rows| ==> rows[i] in Dedup(rows)
    ensures AllTyped(Fixed(Width(KeyType(|Dedup(rows)|))), Codes(Dedup(rows), rows))
  {
    DedupExact(rows);
    PowWidth(KeyType(|Dedup(rows)|));
  }

  function KeyBytes(rows: seq<Value>): seq<byte>
    requires |rows| <= MAX_INT
  {
    CodesTyped(rows);
    PutLeaves(Fixed(Width(KeyType(|Dedup(rows)|))), Codes(Dedup(rows), rows))
  }

  /** The parts of a block in wire order. */
  function Block(k: Kind, kt: nat, dict: seq<Value>, n: nat, keyBytes: seq<byte>): seq<byte>
    requires AllTyped(k, dict)
  {
    LE(UPDATE_ALL + kt, 8) + (LE(|dict|, 8) + (PutLeaves(k, dict) + (LE(n, 8) + keyBytes)))
  }

  /** The bytes of a block with the given rows. */
  function LCEncode(k: Kind, rows: seq<Value>): seq<byte>
    requires AllTyped(k, rows) && |rows| <= MAX_INT
  {
    if rows == [] then []
    else
      DedupTyped(k, rows);
      Block(k, KeyType(|Dedup(rows)|), Dedup(rows), |rows|, KeyBytes(rows))
  }

  /** A number below 2^16 in eight bytes. */
  lemma LowBytes(n: nat)
    requires n < 0x1_0000
    ensures LE(n, 8) == [n % 256, n / 256, 0, 0, 0, 0, 0, 0]
  {
    assert LE(n / 256, 7) == [n / 256] + LE(0, 6);
    ZeroLE(6);
  }

  lemma {:induction false} ZeroLE(w: nat)
    ensures LE(0, w) == Zeros(w)
  {
    if w == 0 {
    } else {
      ZeroLE(w - 1);
    }
  }

  /** The state is the number 1. */
  lemma StateBytes()
    ensures LE(VERSION, 8) == [1, 0, 0, 0, 0, 0, 0, 0]
  {
    LowBytes(VERSION);
  }

  // ---------- decoding ----------

  predicate Bit(n: nat, value: nat)
    requires value > 0
  {
    n / value % 2 == 1
  }

  /** A key type above 3 leaves the keys of an earlier block in place. */
  function GetKeys(keys: seq<byte>, width: nat, kt: nat, rows: nat, s: seq<byte>): (r: Parsed<(seq<byte>, nat)>)
    ensures r.Ok? ==> |r.rest| <= |s|
  {
    if kt < 4 then
      (match Take(rows * Width(kt), s)
       case Ok(data, rest) => Ok((data, Width(kt)), rest)
       case Err(f) => Err(f))
    else Ok((keys, width), s)
  }

  /** The keys and their width, after the dictionary and the key type. */
  function Finish(keys: seq<byte>, width: nat, dict: seq<Value>, kt: nat, rows: nat, s: seq<byte>)
    : (r: Parsed<(seq<byte>, nat)>)
    ensures r.Ok? ==> |r.rest| <= |s|
  {
    match GetKeys(keys, width, kt, rows, s)
    case Err(f) => Err(f)
    case Ok((ks, w), rest) =>
      if w == 0 then Err(Panic)
      else if !InRange(Keys(ks, w), |dict|) then Err(Malformed)
      else Ok((ks, w), rest)
  }

  /** Everything before the keys: the dictionary and the key type. */
  function Head(k: Kind, uint8: bool, rows: nat, s: seq<byte>): (r: Parsed<(seq<Value>, nat)>)
    ensures r.Ok? ==> |r.rest| <= |s| && |r.value.0| <= MAX_INDEX_ROWS
  {
    match Meta(s)
    case Err(f) => Err(f)
    case Ok((kt, n), s1) => if n > MAX_INDEX_ROWS then Err(Malformed) else HeadDict(k, uint8, n, kt, rows, s1)
  }

  /** The key type and the size of the dictionary. */
  function Meta(s: seq<byte>): (r: Parsed<(nat, nat)>)
    ensures r.Ok? ==> |r.rest| <= |s|
  {
    match GetLE(8, s)
    case Err(f) => Err(f)
    case Ok(meta, s1) =>
      if Bit(meta, 0x100) || !Bit(meta, 0x200) then Err(Malformed)
      else
        match GetLE(8, s1)
        case Err(f) => Err(f)
        case Ok(n, rest) => Ok((meta % 256, n), rest)
  }

  /** The dictionary; a uint8 one is read through the address of its first element. */
  function GetDict(k: Kind, uint8: bool, n: nat, s: seq<byte>): Parsed<seq<Value>> {
    if uint8 && k == Fixed(1) && n == 0 then Err(Panic) else GetLeaves(k, n, s)
  }

  function HeadDict(k: Kind, uint8: bool, n: nat, kt: nat, rows: nat, s: seq<byte>)
    : (r: Parsed<(seq<Value>, nat)>)
    ensures r.Ok? ==> |r.rest| <= |s| && |r.value.0| == n && r.value.1 == kt
  {
    match GetDict(k, uint8, n, s)
    case Err(f) => Err(f)
    case Ok(dict, s1) =>
      match GetLE(8, s1)
      case Err(f) => Err(f)
      case Ok(m, rest) => if m != rows then Err(Mismatch) else Ok((dict, kt), rest)
  }

  /** DecodeColumn; no rows are not read at all and leave the column as it was. */
  function LCDecode(k: Kind, st: LC, rows: nat, s: seq<byte>): (r: Parsed<LC>)
    ensures r.Ok? ==> |r.rest| <= |s|
  {
    if rows == 0 then Ok(st, s)
    else
      match Head(k, st.uint8, rows, s)
      case Err(f) => Err(f)
      case Ok((dict, kt), s1) =>
        match Finish(st.keys, st.width, dict, kt, rows, s1)
        case Err(f) => Err(f)
        case Ok((keys, width), rest) => Ok(st.(dict := dict, keys := keys, width := width, expanded := false), rest)
  }

  // ---------- round trip ----------

  lemma {:induction false} FixedLength(w: nat, vs: seq<Value>)
    requires AllTyped(Fixed(w), vs)
    ensures |PutLeaves(Fixed(w), vs)| == Times(|vs|, w)
  {
    if vs == [] {
    } else {
      FixedLength(w, vs[1..]);
    }
  }

  lemma DivBack(n: nat, w: nat)
    requires w in {1, 2, 4, 8}
    ensures n * w / w == n
  {
    if w == 1 {
    } else if w == 2 {
    } else if w == 4 {
    } else {
      assert w == 8;
    }
  }

  lemma KeysBack(w: nat, vs: seq<Value>)
    requires w in {1, 2, 4, 8} && AllTyped(Fixed(w), vs)
    ensures |PutLeaves(Fixed(w), vs)| == |vs| * w && Keys(PutLeaves(Fixed(w), vs), w) == vs
  {
    var bytes, n := PutLeaves(Fixed(w), vs), |vs|;
    FixedLength(w, vs);
    TimesMul(n, w);
    DivBack(n, w);
    LeavesRoundTrip(Fixed(w), vs, []);
    assert bytes + [] == bytes && bytes[..|bytes|] == bytes;
    BulkRead(w, n, bytes);
  }

  /** The column after reading its own block. */
  function Decoded(st: LC, rows: seq<Value>): LC
    requires |rows| <= MAX_INT
  {
    var d := Dedup(rows);
    st.(dict := d, keys := KeyBytes(rows), width := Width(KeyType(|d|)), expanded := false)
  }

  lemma DecodedView(st: LC, rows: seq<Value>)
    requires 0 < |rows| <= MAX_INT
    ensures ViewOk(Decoded(st, rows)) && View(Decoded(st, rows)) == rows
  {
    CodesTyped(rows);
    KeysBack(Width(KeyType(|Dedup(rows)|)), Codes(Dedup(rows), rows));
    ResolveCodes(Dedup(rows), rows);
  }

  lemma FinishRoundTrip(keys: seq<byte>, width: nat, rows: seq<Value>, tail: seq<byte>)
    requires 0 < |rows| <= MAX_INT
    ensures Finish(keys, width, Dedup(rows), KeyType(|Dedup(rows)|), |rows|, KeyBytes(rows) + tail)
         == Ok((KeyBytes(rows), Width(KeyType(|Dedup(rows)|))), tail)
  {
    CodesTyped(rows);
    KeysBack(Width(KeyType(|Dedup(rows)|)), Codes(Dedup(rows), rows));
    ResolveCodes(Dedup(rows), rows);
    TakeExact(KeyBytes(rows), tail);
  }

  lemma DictRoundTrip(k: Kind, uint8: bool, d: seq<Value>, kt: nat, rows: nat, tail: seq<byte>)
    requires AllTyped(k, d) && AllShort(d) && d != [] && rows <= MAX_INT
    ensures HeadDict(k, uint8, |d|, kt, rows, PutLeaves(k, d) + (LE(rows, 8) + tail)) == Ok((d, kt), tail)
  {
    Pow8();
    LeavesRoundTrip(k, d, LE(rows, 8) + tail);
    LEReadBack(rows, 8, tail);
  }

  lemma MetaBits(kt: nat)
    requires kt < 4
    ensures !Bit(UPDATE_ALL + kt, 0x100) && Bit(UPDATE_ALL + kt, 0x200) && (UPDATE_ALL + kt) % 256 == kt
  {
  }

  lemma MetaRoundTrip(k: Kind, uint8: bool, n: nat, kt: nat, rows: nat, s: seq<byte>)
    requires n <= MAX_INT && kt < 4
    ensures Head(k, uint8, rows, LE(UPDATE_ALL + kt, 8) + (LE(n, 8) + s))
         == if n <= MAX_INDEX_ROWS then HeadDict(k, uint8, n, kt, rows, s) else Err(Malformed)
  {
    Pow8();
    MetaBits(kt);
    LEReadBack(UPDATE_ALL + kt, 8, LE(n, 8) + s);
    LEReadBack(n, 8, s);
  }

  lemma Assoc5(a: seq<byte>, b: seq<byte>, c: seq<byte>, d: seq<byte>, e: seq<byte>, tail: seq<byte>)
    ensures (a + (b + (c + (d + e)))) + tail == a + (b + (c + (d + (e + tail))))
  {
    Assoc(a, b + (c + (d + e)), tail);
    Assoc(b, c + (d + e), tail);
    Assoc(c, d + e, tail);
    Assoc(d, e, tail);
  }

  /**
   The round trip, into a column in any state: the same rows at exactly the encoded length, if and
   only if there are at most 100,000,000 distinct values. The dictionary is the one that encoding
   built, so encoding what was decoded gives the same bytes again.
   */
  lemma LCRoundTrip(k: Kind, st: LC, rows: seq<Value>, tail: seq<byte>)
    requires AllTyped(k, rows) && AllShort(rows) && 0 < |rows| <= MAX_INT
    ensures LCDecode(k, st, |rows|, LCEncode(k, rows) + tail)
         == if |Dedup(rows)| <= 100_000_000 then Ok(Decoded(st, rows), tail) else Err(Malformed)
    ensures ViewOk(Decoded(st, rows)) && View(Decoded(st, rows)) == rows
    ensures LCEncode(k, View(Decoded(st, rows))) == LCEncode(k, rows)
  {
    var d, ks := Dedup(rows), KeyBytes(rows);
    DedupTyped(k, rows);
    DedupExact(rows);
    assert rows[0] in d;
    BlockHead(k, st.uint8, KeyType(|d|), d, |rows|, ks, tail);
    FinishRoundTrip(st.keys, st.width, rows, tail);
    DecodedView(st, rows);
  }

  lemma BlockHead(k: Kind, uint8: bool, kt: nat, d: seq<Value>, n: nat, ks: seq<byte>, tail: seq<byte>)
    requires AllTyped(k, d) && AllShort(d) && 0 < |d| <= MAX_INT && n <= MAX_INT && kt < 4
    ensures Head(k, uint8, n, Block(k, kt, d, n, ks) + tail)
         == if |d| <= MAX_INDEX_ROWS then Ok((d, kt), ks + tail) else Err(Malformed)
  {
    Assoc5(LE(UPDATE_ALL + kt, 8), LE(|d|, 8), PutLeaves(k, d), LE(n, 8), ks, tail);
    MetaRoundTrip(k, uint8, |d|, kt, n, PutLeaves(k, d) + (LE(n, 8) + (ks + tail)));
    DictRoundTrip(k, uint8, d, kt, n, ks + tail);
  }

  /** An empty column writes nothing, and reading no rows keeps whatever the receiver showed. */
  lemma LCEmpty(k: Kind, st: LC, tail: seq<byte>)
    requires ViewOk(st)
    ensures LCDecode(k, st, 0, LCEncode(k, []) + tail) == Ok(st, tail)
    ensures View(LCDecode(k, st, 0, LCEncode(k, []) + tail).value) == [] <==> View(st) == []
  {
    assert [] + tail == tail;
  }

  // ---------- what a successful decode is worth ----------

  lemma {:induction false} ElemsRange(w: nat, n: nat, s: seq<byte>)
    requires Times(n, w) <= |s|
    ensures forall i :: 0 <= i < n ==> Elems(w, n, s)[i].Num? && Elems(w, n, s)[i].n < Pow256(w)
  {
    if n == 0 {
    } else {
      ElemsRange(w, n - 1, s[w..]);
      LEBound(s[..w]);
    }
  }

  /** The key type of a block. */
  function BlockKeyType(s: seq<byte>): nat {
    if GetLE(8, s).Ok? then GetLE(8, s).value % 256 else 0
  }

  lemma DecodedParts(k: Kind, st: LC, rows: nat, s: seq<byte>)
    requires rows > 0 && LCDecode(k, st, rows, s).Ok?
    ensures var r, kt := LCDecode(k, st, rows, s).value, BlockKeyType(s);
            && !r.expanded && r.width > 0 && InRange(Keys(r.keys, r.width), |r.dict|)
            && (kt < 4 ==> r.width == Width(kt) && |r.keys| == rows * r.width)
            && (kt >= 4 ==> r.keys == st.keys && r.width == st.width)
  {
    var h := Head(k, st.uint8, rows, s);
    assert h.value.1 == BlockKeyType(s);
    FinishParts(st.keys, st.width, h.value.0, h.value.1, rows, h.rest);
  }

  lemma FinishParts(keys: seq<byte>, width: nat, dict: seq<Value>, kt: nat, rows: nat, s: seq<byte>)
    requires Finish(keys, width, dict, kt, rows, s).Ok?
    ensures var (ks, w) := Finish(keys, width, dict, kt, rows, s).value;
            && w > 0 && InRange(Keys(ks, w), |dict|)
            && (kt < 4 ==> w == Width(kt) && |ks| == rows * w) && (kt >= 4 ==> ks == keys && w == width)
  {
  }

  lemma FreshKeys(k: Kind, st: LC, rows: nat, s: seq<byte>)
    requires rows > 0 && LCDecode(k, st, rows, s).Ok? && BlockKeyType(s) < 4
    ensures var r := LCDecode(k, st, rows, s).value;
            r.width > 0 && |Keys(r.keys, r.width)| == rows && r.dict != []
  {
    DecodedParts(k, st, rows, s);
    var r := LCDecode(k, st, rows, s).value;
    assert r.width == Width(BlockKeyType(s));
    DivBack(rows, r.width);
    assert Keys(r.keys, r.width)[0].n < |r.dict|;
  }

  /**
   A decoded block shows the rows it was asked for exactly when its key type is one of the four, or
   the keys left over from an earlier block happen to be as many.
   */
  lemma DecodedLength(k: Kind, st: LC, rows: nat, s: seq<byte>)
    requires rows > 0 && LCDecode(k, st, rows, s).Ok?
    requires LCDecode(k, st, rows, s).value.dict != []
    ensures ViewOk(LCDecode(k, st, rows, s).value)
    ensures |View(LCDecode(k, st, rows, s).value)| == rows
            <==> BlockKeyType(s) < 4 || (st.width > 0 && |st.keys| / st.width == rows)
  {
    DecodedParts(k, st, rows, s);
    if BlockKeyType(s) < 4 { FreshKeys(k, st, rows, s); }
  }

  /**
   Encoding a decoded block again: the dictionary is no larger than the received one and the keys
   are no wider than the received ones.
   */
  lemma ReencodeNarrower(k: Kind, st: LC, rows: nat, s: seq<byte>)
    requires rows > 0 && LCDecode(k, st, rows, s).Ok? && BlockKeyType(s) < 4
    ensures ViewOk(LCDecode(k, st, rows, s).value)
    ensures var r := LCDecode(k, st, rows, s).value;
            var d := Dedup(View(r));
            && |View(r)| == rows && |d| <= |r.dict|
            && KeyType(|d|) <= BlockKeyType(s) && Width(KeyType(|d|)) <= r.width
  {
    FreshKeys(k, st, rows, s);
    DecodedParts(k, st, rows, s);
    var r := LCDecode(k, st, rows, s).value;
    NarrowDict(r);
    DictBound(k, st, rows, s);
    NarrowKeys(|Dedup(View(r))|, BlockKeyType(s));
  }

  /** Rows looked up have no more distinct values than there are dictionary entries, or than the keys can tell apart. */
  lemma NarrowDict(r: LC)
    requires Lazy(r) && ViewOk(r)
    ensures |Dedup(View(r))| <= |r.dict| && |Dedup(View(r))| <= Pow256(r.width)
  {
    var ks := Keys(r.keys, r.width);
    KeysRange(r.keys, r.width);
    DistinctRows(r.dict, ks, |r.dict|);
    DistinctRows(r.dict, ks, Pow256(r.width));
  }

  lemma NarrowKeys(n: nat, kt: nat)
    requires kt < 4 && n <= MAX_INDEX_ROWS && n <= Pow256(Width(kt))
    ensures KeyType(n) <= kt && Width(KeyType(n)) <= Width(kt)
  {
    NarrowestKeys(n, kt);
  }

  lemma {:induction false} StringsShort(n: nat, s: seq<byte>)
    ensures GetLeaves(Text, n, s).Ok? ==> AllShort(GetLeaves(Text, n, s).value)
  {
    if n == 0 {
    } else {
      var leaf := GetLeaf(Text, s);
      if leaf.Ok? { StringsShort(n - 1, leaf.rest); }
    }
  }

  /** A received dictionary holds values of the key type that can be sent again. */
  lemma DictTyped(k: Kind, st: LC, rows: nat, s: seq<byte>)
    requires IsKeyKind(k) && rows > 0 && LCDecode(k, st, rows, s).Ok?
    ensures var d := LCDecode(k, st, rows, s).value.dict; AllTyped(k, d) && AllShort(d)
  {
    var n, dict := GetLE(8, s[8..]).value, s[8..][8..];
    assert GetLE(8, s).rest == s[8..] && GetLE(8, s[8..]).rest == dict;
    GetLeavesTyped(k, n, dict);
    if k == Text { StringsShort(n, dict); }
  }

  lemma ViewTyped(k: Kind, r: LC)
    requires ViewOk(r) && Lazy(r) && AllTyped(k, r.dict) && AllShort(r.dict)
    ensures AllTyped(k, View(r)) && AllShort(View(r))
  {
    var ks := Keys(r.keys, r.width);
    forall i | 0 <= i < |ks|
      ensures TypedLeaf(k, View(r)[i]) && (View(r)[i].Str? ==> |View(r)[i].b| <= MAX_INT)
    {
      assert View(r)[i] == r.dict[ks[i].n];
    }
  }

  /**
   Encoding is a normal form. Any block that was decoded, of whatever origin, is encoded again as a
   block that every column reads back to the same rows at exactly its length, with a dictionary in order
   of first occurrence that is no larger than the received one and keys no wider than the received
   ones; and encoding what was read back gives identical bytes.
   */
  lemma NormalForm(k: Kind, st: LC, rows: nat, s: seq<byte>, next: LC, tail: seq<byte>)
    requires IsKeyKind(k) && 0 < rows <= MAX_INT && LCDecode(k, st, rows, s).Ok? && BlockKeyType(s) < 4
    ensures ViewOk(LCDecode(k, st, rows, s).value) && |View(LCDecode(k, st, rows, s).value)| == rows
    ensures var r := LCDecode(k, st, rows, s).value;
            var v, again := View(r), Decoded(next, View(r));
            && AllTyped(k, v)
            && LCDecode(k, next, rows, LCEncode(k, v) + tail) == Ok(again, tail)
            && ViewOk(again) && View(again) == v && LCEncode(k, View(again)) == LCEncode(k, v)
            && IsDictionary(again.dict, v) && |again.dict| <= |r.dict| && again.width <= r.width
  {
    var r := LCDecode(k, st, rows, s).value;
    ReencodeNarrower(k, st, rows, s);
    FreshKeys(k, st, rows, s);
    DecodedParts(k, st, rows, s);
    DictTyped(k, st, rows, s);
    ViewTyped(k, r);
    DedupIsDictionary(View(r));
    DictBound(k, st, rows, s);
    LCRoundTrip(k, next, View(r), tail);
  }

  lemma KeysRange(keys: seq<byte>, width: nat)
    requires width > 0
    ensures forall i :: 0 <= i < |Keys(keys, width)| ==>
              Keys(keys, width)[i].Num? && Keys(keys, width)[i].n < Pow256(width)
  {
    TimesMul(|keys| / width, width);
    ElemsRange(width, |keys| / width, keys);
  }

  lemma DictBound(k: Kind, st: LC, rows: nat, s: seq<byte>)
    requires rows > 0 && LCDecode(k, st, rows, s).Ok?
    ensures |LCDecode(k, st, rows, s).value.dict| <= MAX_INDEX_ROWS
  {
    assert Head(k, st.uint8, rows, s).Ok?;
  }
}
