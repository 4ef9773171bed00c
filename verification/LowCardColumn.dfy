/** The LowCardinality column as an object. */
module LowCardColumn {
  import opened Wire
  import opened Codec
  import opened Strings
  import opened Columns
  import opened Dictionary
  import opened LowCardinality

  lemma {:induction false} ElemsAt(w: nat, n: nat, s: seq<byte>, i: nat)
    requires Times(n, w) <= |s| && i < n
    ensures Times(i, w) + w <= Times(n, w)
    ensures Elems(w, n, s)[i] == Num(LEVal(s[Times(i, w)..Times(i, w) + w]))
  {
    if i == 0 {
    } else {
      var lo, t := Times(i - 1, w), s[w..];
      ElemsAt(w, n - 1, t, i - 1);
      SliceShift(s, w, lo, lo + w);
      ElemsNext(w, n, s, i);
    }
  }

  lemma ElemsNext(w: nat, n: nat, s: seq<byte>, i: nat)
    requires Times(n, w) <= |s| && 0 < i < n
    ensures Elems(w, n, s)[i] == Elems(w, n - 1, s[w..])[i - 1]
  {
  }

  lemma SliceShift(s: seq<byte>, w: nat, lo: nat, hi: nat)
    requires lo <= hi && w + hi <= |s|
    ensures s[w..][lo..hi] == s[w + lo..w + hi]
  {
  }

  /** Key i as its bytes give it. */
  lemma KeyAt(keys: seq<byte>, w: nat, i: nat)
    requires w > 0 && i < |Keys(keys, w)|
    ensures i * w + w <= |keys|
    ensures Keys(keys, w)[i] == Num(LEVal(keys[i * w..i * w + w]))
    ensures LEVal(keys[i * w..i * w + w]) < Pow256(w)
  {
    TimesMul(|keys| / w, w);
    ElemsAt(w, |keys| / w, keys, i);
    TimesMul(i, w);
    LEBound(keys[i * w..i * w + w]);
  }

  lemma WidthFits(w: nat)
    requires w in {1, 2, 4, 8}
    ensures Pow256(w) <= TWO64
  {
    Pow8();
    assert Pow256(2) == 65536;
    assert Pow256(4) == 0x1_0000_0000;
  }

  lemma {:induction false} PutDict(k: Kind, vs: seq<Value>, i: nat)
    requires AllTyped(k, vs) && i < |vs|
    ensures PutLeaves(k, vs[..i + 1]) == PutLeaves(k, vs[..i]) + PutLeaf(k, vs[i])
    decreases i
  {
    var v, ws := vs[0], vs[1..];
    if i == 0 {
      assert vs[..1] == [v] && vs[..0] == [] && [v][1..] == [];
      assert PutLeaves(k, [v]) == PutLeaf(k, v) + [];
    } else {
      assert vs[..i + 1][1..] == ws[..i] && vs[..i][1..] == ws[..i - 1] && vs[i] == ws[i - 1];
      PutDict(k, ws, i - 1);
      Assoc(PutLeaf(k, v), PutLeaves(k, ws[..i - 1]), PutLeaf(k, vs[i]));
    }
  }

  /** dictMap built so far: the dictionary of the rows seen, by value. */
  ghost predicate Indexes(m: map<Value, nat>, d: seq<Value>) {
    && |m| == |d| && Distinct(d)
    && (forall v :: v in m <==> v in d)
    && (forall i :: 0 <= i < |d| ==> d[i] in m && m[d[i]] == i)
  }

  lemma IndexesPush(m: map<Value, nat>, d: seq<Value>, v: Value)
    requires Indexes(m, d) && v !in m
    ensures Indexes(m[v := |d|], d + [v])
  {
  }

  lemma IndexesFind(m: map<Value, nat>, d: seq<Value>, v: Value)
    requires Indexes(m, d) && v in d
    ensures v in m && m[v] == Find(d, v)
  {
    assert d[Find(d, v)] == v;
  }

  /** ordered[idx] = k for every entry, in whatever order the map yields them. */
  method OrderKeys(m: map<Value, nat>, ghost d: seq<Value>) returns (ordered: seq<Value>)
    requires Indexes(m, d)
    ensures ordered == d
  {
    var arr: Slice<Value> := Make(|m|, |m|, Num(0));
    var todo := m.Keys;
    while todo != {}
      invariant todo <= m.Keys && arr.Ok() && |arr.mem| == arr.len == |d|
      invariant forall i :: 0 <= i < |d| && d[i] !in todo ==> arr.mem[i] == d[i]
      decreases |todo|
    {
      var k :| k in todo;
      assert k in d;
      IndexesFind(m, d, k);
      arr := arr.(mem := arr.mem[m[k] := k]);
      todo := todo - {k};
    }
    ordered := arr.View();
  }

  /** n strings, one after the other. */
  method ReadStrings(r: Reader, n: nat) returns (out: Outcome<seq<Value>>)
    modifies r
    ensures match GetLeaves(Text, n, old(r.rest))
            case Ok(d, s) => out == Done(d) && r.rest == s
            case Err(f) => out == Failed(f)
  {
    ghost var all := GetLeaves(Text, n, r.rest);
    PrependNone(all);
    var d: seq<Value> := [];
    for i := 0 to n
      invariant |d| == i && all == Prepend(d, GetLeaves(Text, n - i, r.rest))
    {
      var next := ReadNext(r, d, n - i, all);
      if next.Failed? { return Failed(next.fault); }
      d := next.value;
    }
    PrependAll(d, r.rest);
    return Done(d);
  }

  /** One turn of that loop: the strings so far and the next one. */
  method ReadNext(r: Reader, d: seq<Value>, left: nat, ghost all: Parsed<seq<Value>>)
    returns (out: Outcome<seq<Value>>)
    requires left > 0 && all == Prepend(d, GetLeaves(Text, left, r.rest))
    modifies r
    ensures out.Failed? ==> all == Err(out.fault)
    ensures out.Done? ==> |out.value| == |d| + 1 && all == Prepend(out.value, GetLeaves(Text, left - 1, r.rest))
  {
    ghost var leaf, s := GetLeaf(Text, r.rest), r.rest;
    var v := r.Str();
    if v.Failed? {
      PrependFail(Text, d, left, s);
      return Failed(v.fault);
    }
    PrependStep(Text, d, leaf.value, left, s);
    return Done(d + [Str(v.value)]);
  }

  lemma ViewRow(st: LC, i: nat)
    requires ViewOk(st) && i < |View(st)|
    ensures if st.expanded || st.dict == [] then i < |st.values| && View(st)[i] == st.values[i]
            else
              && st.width > 0 && i < |Keys(st.keys, st.width)| && Keys(st.keys, st.width)[i].Num?
              && Keys(st.keys, st.width)[i].n < |st.dict| && View(st)[i] == st.dict[Keys(st.keys, st.width)[i].n]
  {
  }

  /**
   Row i is the inner column's when it is expanded or there is no dictionary, and otherwise what the
   dictionary has for the number in the i-th key's bytes.
   */
  lemma ViewExact(st: LC, i: nat)
    requires ViewOk(st) && i < |View(st)|
    ensures st.expanded || st.dict == [] ==> i < |st.values| && View(st)[i] == st.values[i]
    ensures !st.expanded && st.dict != [] ==>
              exists key: nat :: IsKey(st.keys, st.width, i, key) && key < |st.dict| && View(st)[i] == st.dict[key]
  {
    ViewRow(st, i);
    if !st.expanded && st.dict != [] {
      KeyIs(st.keys, st.width, i);
    }
  }

  lemma KeyIs(keys: seq<byte>, w: nat, i: nat)
    requires w > 0 && i < |Keys(keys, w)|
    ensures Keys(keys, w)[i].Num? && IsKey(keys, w, i, Keys(keys, w)[i].n)
  {
    KeyAt(keys, w, i);
  }

  /** The i-th key of w bytes is this number. */
  predicate IsKey(keys: seq<byte>, w: nat, i: nat, key: nat) {
    i * w + w <= |keys| && key == LEVal(keys[i * w..i * w + w])
  }

  lemma BlockOf(k: Kind, kt: nat, ordered: seq<Value>, rows: seq<Value>, keyBytes: seq<byte>)
    requires AllTyped(k, rows) && 0 < |rows| <= MAX_INT && ordered == Dedup(rows) && AllTyped(k, ordered)
    requires kt == KeyType(|ordered|) && keyBytes == KeyBytes(rows)
    ensures LCEncode(k, rows) == Block(k, kt, ordered, |rows|, keyBytes)
  {
  }

  class LowCardinalityColumn {
    const k: Kind
    const uint8: bool          // the values are uint8, not int8
    const values: Column
    var dict: seq<Value>
    var keys: seq<byte>
    var keyWidth: nat
    var expanded: bool

    ghost predicate Valid()
      reads this, values.Repr()
    {
      && this !in values.Repr() && values.Valid() && IsKeyKind(k) && values.Form() == Leaf(k)
      && keyWidth in {0, 1, 2, 4, 8} && AllTyped(k, dict) && (uint8 ==> k == Fixed(1))
    }

    ghost function State(): LC
      requires Valid()
      reads this, values.Repr()
    {
      LC(values.State().vals, dict, keys, keyWidth, expanded, uint8)
    }

    constructor (k: Kind, uint8: bool, values: Column)
      requires values.Valid() && IsKeyKind(k) && values.Form() == Leaf(k) && (uint8 ==> k == Fixed(1))
      ensures Valid() && State() == LC(values.State().vals, [], [], 0, false, uint8)
    {
      this.k, this.uint8, this.values := k, uint8, values;
      dict, keys, keyWidth, expanded := [], [], 0, false;
    }

    method Key(i: nat) returns (key: int)
      requires keyWidth in {1, 2, 4, 8} && i < |Keys(keys, keyWidth)|
      ensures Keys(keys, keyWidth)[i].Num? && key == ToInt(Keys(keys, keyWidth)[i].n)
      ensures Keys(keys, keyWidth)[i].n < TWO64
    {
      KeyAt(keys, keyWidth, i);
      WidthFits(keyWidth);
      key := ToInt(LEVal(keys[i * keyWidth..i * keyWidth + keyWidth]));
    }

    method Length() returns (n: nat)
      requires Valid() && ViewOk(State())
      ensures Valid() && ViewOk(State()) && n == |View(State())|
    {
      if expanded || |dict| == 0 {
        n := values.Length();
      } else {
        n := |keys| / keyWidth;
      }
    }

    /** The same row before and after the column is expanded. */
    method Row(i: nat) returns (v: Value)
      requires Valid() && ViewOk(State()) && |dict| <= MAX_INT && i < |View(State())|
      ensures Valid() && ViewOk(State()) && i < |View(State())| && v == View(State())[i]
    {
      ViewRow(State(), i);
      if expanded || |dict| == 0 {
        v := values.Row(i);
      } else {
        var key := Key(i);
        v := dict[key];
      }
    }

    method EnsureExpanded()
      requires Valid() && ViewOk(State()) && |dict| <= MAX_INT
      modifies this, values.Repr()
      ensures Valid() && State() == Expand(old(State()))
    {
      if expanded { return; }
      if |dict| == 0 { return; }
      ghost var rows := View(State());
      values.Reset();
      ExpandFrom(|keys| / keyWidth, rows);
      expanded := true;
    }

    /** values holds the first i of the rows that the keys stand for. */
    ghost predicate Expanding(rows: seq<Value>, i: nat)
      reads this, values.Repr()
    {
      && Valid() && keyWidth > 0 && i <= |rows| == |Keys(keys, keyWidth)| && |dict| <= MAX_INT
      && InRange(Keys(keys, keyWidth), |dict|) && rows == Resolve(dict, Keys(keys, keyWidth))
      && values.State() == Vals(rows[..i])
    }

    method ExpandFrom(n: nat, ghost rows: seq<Value>)
      requires Expanding(rows, 0) && n == |rows|
      modifies values.Repr()
      ensures Valid() && values.State() == Vals(rows)
    {
      for i := 0 to n
        invariant Expanding(rows, i)
      {
        ExpandOne(i, rows);
      }
      assert rows[..n] == rows;
    }

    method ExpandOne(i: nat, ghost rows: seq<Value>)
      requires Expanding(rows, i) && i < |rows|
      modifies values.Repr()
      ensures Expanding(rows, i + 1)
    {
      var key := Key(i);
      values.Append(dict[key]);
      assert rows[..i + 1] == rows[..i] + [rows[i]];
    }

    method EncodeState(b: Buffer)
      modifies b
      ensures b.buf == old(b.buf) + [1, 0, 0, 0, 0, 0, 0, 0]
    {
      StateBytes();
      b.Put(LE(VERSION, 8));
    }

    method DecodeState(r: Reader) returns (out: Outcome<()>)
      modifies r
      ensures match GetLE(8, old(r.rest))
              case Ok(v, s) => if v == 1 then out == Done(()) && r.rest == s else out == Failed(Mismatch)
              case Err(f) => out == Failed(f)
    {
      var v := r.Number(8);
      if v.Failed? { return Failed(v.fault); }
      if v.value != VERSION { return Failed(Mismatch); }
      return Done(());
    }

    /** decodeDictKeys: strings one by one, numbers as a block, which a uint8 dictionary reaches through &data[0]. */
    method DecodeDictKeys(r: Reader, n: nat) returns (out: Outcome<()>)
      requires Valid() && r !in values.Repr()
      modifies this`dict, r
      ensures Valid()
      ensures match GetDict(k, uint8, n, old(r.rest))
              case Ok(d, s) => out == Done(()) && dict == d && r.rest == s
              case Err(f) => out == Failed(f)
    {
      var d := DictKeys(r, n);
      if d.Failed? { return Failed(d.fault); }
      dict := d.value;
      return Done(());
    }

    method DictKeys(r: Reader, n: nat) returns (out: Outcome<seq<Value>>)
      requires Valid() && r !in values.Repr()
      modifies r
      ensures Valid() && (out.Done? ==> AllTyped(k, out.value))
      ensures match GetDict(k, uint8, n, old(r.rest))
              case Ok(d, s) => out == Done(d) && r.rest == s
              case Err(f) => out == Failed(f)
    {
      GetLeavesTyped(k, n, r.rest);
      if k == Text { out := ReadStrings(r, n); } else { out := DecodeNumbers(r, n); }
    }

    method DecodeNumbers(r: Reader, n: nat) returns (out: Outcome<seq<Value>>)
      requires Valid() && k.Fixed? && r !in values.Repr()
      modifies r
      ensures Valid()
      ensures match GetDict(k, uint8, n, old(r.rest))
              case Ok(d, s) => out == Done(d) && r.rest == s
              case Err(f) => out == Failed(f)
    {
      TimesMul(n, k.w);
      BulkRead(k.w, n, r.rest);
      var data := r.ReadFull(n * k.w);
      if data.Failed? { return Failed(data.fault); }
      if uint8 && |data.value| == 0 { return Failed(Panic); }
      return Done(Elems(k.w, n, data.value));
    }

    /** decodeKeyIndices; a key type above 3 reads and changes nothing. */
    method DecodeKeyIndices(r: Reader, rows: nat, kt: nat) returns (out: Outcome<()>)
      requires Valid() && r !in values.Repr()
      modifies this`keys, this`keyWidth, r
      ensures Valid()
      ensures match GetKeys(old(keys), old(keyWidth), kt, rows, old(r.rest))
              case Ok((ks, w), s) => out == Done(()) && keys == ks && keyWidth == w && r.rest == s
              case Err(f) => out == Failed(f)
    {
      if kt < 4 {
        var data := r.ReadFull(rows * Width(kt));
        if data.Failed? { return Failed(data.fault); }
        keys, keyWidth := data.value, Width(kt);
      }
      return Done(());
    }

    /** The validation loop. */
    method KeysInRange() returns (ok: bool)
      requires Valid() && keyWidth > 0 && |dict| <= MAX_INT
      ensures ok <==> InRange(Keys(keys, keyWidth), |dict|)
    {
      var n := |keys| / keyWidth;
      for i := 0 to n
        invariant forall j :: 0 <= j < i ==>
                    Keys(keys, keyWidth)[j].Num? && Keys(keys, keyWidth)[j].n < |dict|
      {
        var idx := Key(i);
        if idx >= |dict| || idx < 0 {
          assert !(Keys(keys, keyWidth)[i].n < |dict|);
          return false;
        }
      }
      return true;
    }

    /** Whatever the input and the column's state, DecodeColumn is LCDecode. */
    method DecodeColumn(r: Reader, rows: nat) returns (out: Outcome<()>)
      requires Valid() && r !in values.Repr()
      modifies this, r
      ensures Valid()
      ensures match LCDecode(k, old(State()), rows, old(r.rest))
              case Ok(st, s) => out == Done(()) && State() == st && r.rest == s
              case Err(f) => out == Failed(f)
    {
      if rows == 0 { return Done(()); }
      ghost var inner := values.State();
      out := DecodeBlock(r, rows);
      assert values.State() == inner;
    }

    /** The block's fields; the inner column is not touched. */
    method DecodeBlock(r: Reader, rows: nat) returns (out: Outcome<()>)
      requires Valid() && r !in values.Repr()
      modifies this, r
      ensures Valid()
      ensures match Head(k, uint8, rows, old(r.rest))
              case Err(f) => out == Failed(f)
              case Ok((d, kt), s1) =>
                match Finish(old(keys), old(keyWidth), d, kt, rows, s1)
                case Err(f) => out == Failed(f)
                case Ok((ks, w), s) =>
                  && out == Done(()) && r.rest == s
                  && dict == d && keys == ks && keyWidth == w && !expanded
    {
      var kt := DecodeHead(r, rows);
      if kt.Failed? { return Failed(kt.fault); }
      out := DecodeKeys(r, rows, kt.value);
    }

    method DecodeKeys(r: Reader, rows: nat, kt: nat) returns (out: Outcome<()>)
      requires Valid() && r !in values.Repr() && |dict| <= MAX_INT
      modifies this`keys, this`keyWidth, this`expanded, r
      ensures Valid()
      ensures match Finish(old(keys), old(keyWidth), dict, kt, rows, old(r.rest))
              case Ok((ks, w), s) =>
                out == Done(()) && keys == ks && keyWidth == w && !expanded && r.rest == s
              case Err(f) => out == Failed(f)
    {
      out := DecodeKeyIndices(r, rows, kt);
      if out.Failed? { return; }
      if keyWidth == 0 { return Failed(Panic); }
      var ok := KeysInRange();
      if !ok { return Failed(Malformed); }
      expanded := false;
    }

    method DecodeHead(r: Reader, rows: nat) returns (out: Outcome<nat>)
      requires Valid() && r !in values.Repr()
      modifies this`dict, r
      ensures Valid()
      ensures match Head(k, uint8, rows, old(r.rest))
              case Ok((d, kt), s) => out == Done(kt) && dict == d && r.rest == s
              case Err(f) => out == Failed(f)
    {
      var meta := DecodeMeta(r);
      if meta.Failed? { return Failed(meta.fault); }
      var (kt, indexRows) := meta.value;
      if indexRows > MAX_INDEX_ROWS { return Failed(Malformed); }
      var d := DecodeDict(r, indexRows, rows);
      return if d.Failed? then Failed(d.fault) else Done(kt);
    }

    method DecodeMeta(r: Reader) returns (out: Outcome<(nat, nat)>)
      requires Valid() && r !in values.Repr()
      modifies r
      ensures Valid()
      ensures match Meta(old(r.rest))
              case Ok(v, s) => out == Done(v) && r.rest == s
              case Err(f) => out == Failed(f)
    {
      var meta := r.Number(8);
      if meta.Failed? { return Failed(meta.fault); }
      if Bit(meta.value, 0x100) { return Failed(Malformed); }
      if !Bit(meta.value, 0x200) { return Failed(Malformed); }
      var indexRows := r.Number(8);
      return if indexRows.Failed? then Failed(indexRows.fault) else Done((meta.value % 256, indexRows.value));
    }

    /** The dictionary and the number of keys, which must be the number of rows. */
    method DecodeDict(r: Reader, n: nat, rows: nat) returns (out: Outcome<()>)
      requires Valid() && r !in values.Repr()
      modifies this`dict, r
      ensures Valid()
      ensures match HeadDict(k, uint8, n, 0, rows, old(r.rest))
              case Ok((d, _), s) => out == Done(()) && dict == d && r.rest == s
              case Err(f) => out == Failed(f)
    {
      var d := DecodeDictKeys(r, n);
      if d.Failed? { return Failed(d.fault); }
      var keyRows := r.Number(8);
      if keyRows.Failed? { return Failed(keyRows.fault); }
      if keyRows.value != rows { return Failed(Mismatch); }
      return Done(());
    }

    /** The inner column holds rows. */
    ghost predicate Holds(rows: seq<Value>)
      reads this, values.Repr()
    {
      Valid() && values.State() == Vals(rows) && AllTyped(k, rows)
    }

    method ValueRow(i: nat, ghost rows: seq<Value>) returns (v: Value)
      requires Holds(rows) && i < |rows|
      ensures Holds(rows) && v == rows[i]
    {
      v := values.Row(i);
    }

    /** The first pass: number every value that was not seen before. */
    method BuildDict(n: nat, ghost rows: seq<Value>) returns (m: map<Value, nat>)
      requires Holds(rows) && n == |rows|
      ensures Holds(rows) && Indexes(m, Dedup(rows))
    {
      m := map[];
      for i := 0 to n
        invariant Holds(rows) && Indexes(m, Dedup(rows[..i]))
      {
        var v := ValueRow(i, rows);
        Snoc(rows, i);
        if v !in m {
          IndexesPush(m, Dedup(rows[..i]), v);
          m := m[v := |m|];
        }
      }
      assert rows[..n] == rows;
    }

    /** The second pass: every row's number, in keys of the chosen width. */
    method KeyIndices(n: nat, m: map<Value, nat>, kt: nat, ghost rows: seq<Value>) returns (indexBuf: seq<byte>)
      requires Holds(rows) && n == |rows| <= MAX_INT && Indexes(m, Dedup(rows)) && kt == KeyType(|Dedup(rows)|)
      ensures Holds(rows) && indexBuf == KeyBytes(rows)
    {
      CodesTyped(rows);
      ghost var codes := Codes(Dedup(rows), rows);
      forall i | 0 <= i < n
        ensures rows[i] in m && codes[i] == Num(m[rows[i]])
      {
        IndexesFind(m, Dedup(rows), rows[i]);
      }
      indexBuf := PackKeys(n, m, Width(kt), rows, codes);
    }

    method PackKeys(n: nat, m: map<Value, nat>, w: nat, ghost rows: seq<Value>, ghost codes: seq<Value>)
      returns (indexBuf: seq<byte>)
      requires Holds(rows) && n == |rows| == |codes| && AllTyped(Fixed(w), codes)
      requires forall i :: 0 <= i < n ==> rows[i] in m && codes[i] == Num(m[rows[i]])
      ensures Holds(rows) && indexBuf == PutLeaves(Fixed(w), codes)
    {
      indexBuf := [];
      for i := 0 to n
        invariant Holds(rows) && indexBuf == PutLeaves(Fixed(w), codes[..i])
      {
        var v := ValueRow(i, rows);
        PutDict(Fixed(w), codes, i);
        indexBuf := indexBuf + LE(m[v], w);
      }
      assert codes[..n] == codes;
    }

    /** EncodeColumn writes the block of the rows shown and leaves the column expanded. */
    method EncodeColumn(b: Buffer)
      requires Valid() && ViewOk(State()) && |dict| <= MAX_INT && |View(State())| <= MAX_INT
      requires b !in values.Repr()
      modifies this, values.Repr(), b
      ensures Valid() && State() == Expand(old(State()))
      ensures AllTyped(k, View(old(State()))) && b.buf == old(b.buf) + LCEncode(k, View(old(State())))
    {
      ExpandKeepsView(State());
      EnsureExpanded();
      var n := values.Length();
      ghost var rows := values.State().vals;
      if n == 0 {
        assert b.buf + [] == b.buf;
        return;
      }
      WriteBlock(b, n, rows);
    }

    method WriteBlock(b: Buffer, n: nat, ghost rows: seq<Value>)
      requires Holds(rows) && n == |rows| && 0 < n <= MAX_INT && b !in values.Repr()
      modifies b
      ensures Holds(rows) && b.buf == old(b.buf) + LCEncode(k, rows)
    {
      DedupTyped(k, rows);
      var kt, ordered, indexBuf := PlanBlock(n, rows);
      BlockOf(k, kt, ordered, rows, indexBuf);
      EmitBlock(b, kt, ordered, n, indexBuf, rows);
    }

    method EmitBlock(b: Buffer, kt: nat, ordered: seq<Value>, n: nat, indexBuf: seq<byte>, ghost rows: seq<Value>)
      requires Holds(rows) && AllTyped(k, ordered) && b !in values.Repr()
      modifies b
      ensures Holds(rows) && b.buf == old(b.buf) + Block(k, kt, ordered, n, indexBuf)
    {
      Emit(b, k, kt, ordered, n, indexBuf);
    }

    method PlanBlock(n: nat, ghost rows: seq<Value>) returns (kt: nat, ordered: seq<Value>, indexBuf: seq<byte>)
      requires Holds(rows) && n == |rows| <= MAX_INT
      ensures Holds(rows) && ordered == Dedup(rows)
      ensures kt == KeyType(|ordered|) && indexBuf == KeyBytes(rows)
    {
      var m := BuildDict(n, rows);
      kt := KeyType(|m|);
      ordered := OrderKeys(m, Dedup(rows));
      indexBuf := KeyIndices(n, m, kt, rows);
    }
  }

  /** The parts of a block in wire order. */
  method Emit(b: Buffer, k: Kind, kt: nat, ordered: seq<Value>, n: nat, indexBuf: seq<byte>)
    requires AllTyped(k, ordered)
    modifies b
    ensures b.buf == old(b.buf) + Block(k, kt, ordered, n, indexBuf)
  {
    b.Put(LE(UPDATE_ALL + kt, 8));
    b.Put(LE(|ordered|, 8));
    PutEach(b, k, ordered);
    b.Put(LE(n, 8));
    b.Put(indexBuf);
    AppendFive(old(b.buf), LE(UPDATE_ALL + kt, 8), LE(|ordered|, 8), PutLeaves(k, ordered), LE(n, 8), indexBuf);
  }

  lemma AppendFive(x: seq<byte>, a: seq<byte>, b: seq<byte>, c: seq<byte>, d: seq<byte>, e: seq<byte>)
    ensures ((((x + a) + b) + c) + d) + e == x + (a + (b + (c + (d + e))))
  {
  }
}
