/** Data blocks: the frame Insert writes, block info fields, and handleDataBlock, which reads frames. */
module Blocks {
  import opened Wire
  import opened Codec
  import opened Wrappers
  import opened Dictionary
  import opened LowCardinality
  import opened Writers

  const MAX_COLUMNS := 1_000_000
  const MAX_ROWS := 100_000_000

  /**
   Which protocol features the server's revision has; whether the code path handles the state of
   LowCardinality columns, as Insert and Select do and the streams do not; and whether the sender copies
   the slices it is given, as a server does and a vectored writer may not.
   */
  datatype Features = Features(tempTables: bool, blockInfo: bool, customSerialization: bool,
                               columnState: bool, copies: bool)

  /** A column bound to a query. Tuple2 cannot be bound: it has no WriteColumn. */
  datatype BlockCol =
    | Simple(name: seq<byte>, typ: seq<byte>, sh: Shape, c: Cols)
    | NullCol(name: seq<byte>, typ: seq<byte>, sh: Shape, n: NullCols)
    | LowCol(name: seq<byte>, typ: seq<byte>, k: Kind, lc: LC)

  /** What the types of a bound column guarantee. */
  predicate Formed(col: BlockCol) {
    match col
    case Simple(_, _, sh, c) => HasForm(sh, c)
    case NullCol(_, _, sh, n) => HasForm(sh, n.values)
    case LowCol(_, _, k, _) => IsKeyKind(k)
  }

  type Bound = col: BlockCol | Formed(col) witness LowCol([], [], Text, LC([], [], [], 0, false, false))

  /** A column whose rows can be sent. */
  predicate Sendable(col: BlockCol) {
    && |col.name| <= MAX_INT && |col.typ| <= MAX_INT
    && match col
       case Simple(_, _, sh, c) => Sound(sh, c) && Fits(sh, c)
       case NullCol(_, _, sh, n) => NullSound(sh, n) && Fits(sh, n.values)
       case LowCol(_, _, k, lc) =>
         IsKeyKind(k) && ViewOk(lc) && AllTyped(k, View(lc)) && AllShort(View(lc)) && |View(lc)| <= MAX_INT
  }

  function RowCount(col: BlockCol): nat
    requires Sendable(col)
  {
    match col
    case Simple(_, _, _, c) => Len(c)
    case NullCol(_, _, _, n) => |n.nulls|
    case LowCol(_, _, _, lc) => |View(lc)|
  }

  // ---------- writing ----------

  /** Per-block state and data of a column. */
  function Body(fe: Features, col: BlockCol): seq<byte>
    requires Sendable(col)
  {
    match col
    case Simple(_, _, sh, c) => SentExact(fe.copies, sh, c); Sent(fe.copies, sh, c)
    case NullCol(_, _, sh, n) =>
      SentExact(fe.copies, sh, n.values); PutNulls(n.nulls) + Sent(fe.copies, sh, n.values)
    case LowCol(_, _, k, lc) => (if fe.columnState then LE(VERSION, 8) else []) + LCEncode(k, View(lc))
  }

  /** A block of rows > 0 rows carries data, a header block only names and types. */
  function ColumnBytes(fe: Features, col: BlockCol, rows: nat): seq<byte>
    requires Sendable(col)
  {
    PutStr(col.name) + (PutStr(col.typ)
      + ((if fe.customSerialization then [0] else []) + (if rows > 0 then Body(fe, col) else [])))
  }

  /** Columns of a block of `rows` rows; without rows only their names and types are sent. */
  predicate AllSendable(cols: seq<BlockCol>, rows: nat) {
    && rows <= MAX_INT && |cols| <= MAX_INT
    && forall i :: 0 <= i < |cols| ==> Sendable(cols[i]) && (rows > 0 ==> RowCount(cols[i]) == rows)
  }

  function ColumnsBytes(fe: Features, cols: seq<BlockCol>, rows: nat): seq<byte>
    requires AllSendable(cols, rows)
  {
    if cols == [] then [] else ColumnBytes(fe, cols[0], rows) + ColumnsBytes(fe, cols[1..], rows)
  }

  /** The column is sent as EncodeColumn writes it. */
  predicate Intact(fe: Features, col: BlockCol)
    requires Sendable(col)
  {
    fe.copies
    || match col
       case Simple(_, _, sh, c) => SoundTyped(sh, c); AllLevel(sh, c)
       case NullCol(_, _, sh, n) => SoundTyped(sh, n.values); AllLevel(sh, n.values)
       case LowCol(_, _, _, _) => true
  }

  predicate AllIntact(fe: Features, cols: seq<BlockCol>)
    requires forall i :: 0 <= i < |cols| ==> Sendable(cols[i])
  {
    forall i :: 0 <= i < |cols| ==> Intact(fe, cols[i])
  }

  /** A block info field, in any of the three kinds the decoder knows. */
  datatype Field = Overflows(set_: bool) | Bucket(n: nat) | OutOfOrder(ns: seq<nat>)

  predicate FieldOk(f: Field) {
    match f
    case Overflows(_) => true
    case Bucket(n) => n < Pow256(4)
    case OutOfOrder(ns) => |ns| < TWO64 && forall i :: 0 <= i < |ns| ==> ns[i] < Pow256(4)
  }

  function PutInts(ns: seq<nat>): seq<byte> {
    if ns == [] then [] else LE(ns[0], 4) + PutInts(ns[1..])
  }

  function PutField(f: Field): seq<byte> {
    match f
    case Overflows(b) => UVarint(1) + [if b then 1 else 0]
    case Bucket(n) => UVarint(2) + LE(n, 4)
    case OutOfOrder(ns) => UVarint(3) + (UVarint(|ns|) + PutInts(ns))
  }

  function PutInfo(fs: seq<Field>): seq<byte> {
    if fs == [] then UVarint(0) else PutField(fs[0]) + PutInfo(fs[1..])
  }

  /** A data packet after its code: table name, block info, counts, columns. */
  function Frame(fe: Features, table: seq<byte>, info: seq<Field>, cols: seq<BlockCol>, rows: nat): seq<byte>
    requires AllSendable(cols, rows)
  {
    (if fe.tempTables then PutStr(table) else [])
    + ((if fe.blockInfo then PutInfo(info) else [])
    + (UVarint(|cols|) + (UVarint(rows) + ColumnsBytes(fe, cols, rows))))
  }

  // ---------- reading block info ----------

  function SkipInts(n: nat, s: seq<byte>): (r: Parsed<()>)
    ensures r.Ok? ==> |r.rest| <= |s|
  {
    if n == 0 then Ok((), s)
    else
      match GetLE(4, s)
      case Err(f) => Err(f)
      case Ok(_, rest) => SkipInts(n - 1, rest)
  }

  function SkipField(code: nat, s: seq<byte>): (r: Parsed<()>)
    ensures r.Ok? ==> |r.rest| <= |s|
  {
    if code == 1 then
      (match GetBool(s)
       case Err(f) => Err(f)
       case Ok(_, rest) => Ok((), rest))
    else if code == 2 then SkipInts(1, s)
    else if code == 3 then
      (match ReadUVarint(s)
       case Err(f) => Err(f)
       case Ok(n, rest) => SkipInts(n, rest))
    else Err(Malformed)
  }

  function SkipInfo(s: seq<byte>): (r: Parsed<()>)
    ensures r.Ok? ==> |r.rest| < |s|
    decreases |s|
  {
    match ReadUVarint(s)
    case Err(f) => Err(f)
    case Ok(code, s1) =>
      if code == 0 then Ok((), s1)
      else
        match SkipField(code, s1)
        case Err(f) => Err(f)
        case Ok(_, s2) => SkipInfo(s2)
  }

  /** decodeBlockInfoSafe */
  method DecodeBlockInfoSafe(r: Reader) returns (out: Outcome<()>)
    modifies r
    ensures match SkipInfo(old(r.rest))
            case Ok(_, s) => out == Done(()) && r.rest == s
            case Err(f) => out == Failed(f)
  {
    while true
      invariant SkipInfo(r.rest) == SkipInfo(old(r.rest))
      decreases |r.rest|
    {
      var f := r.UVarInt();
      if f.Failed? { return Failed(f.fault); }
      match f.value {
        case 0 => return Done(());
        case 1 =>
          var b := r.Bool();
          if b.Failed? { return Failed(b.fault); }
        case 2 =>
          ghost var s := r.rest;
          var n := r.Number(4);
          if n.Failed? { return Failed(n.fault); }
          assert SkipInts(1, s) == SkipInts(0, r.rest);
        case 3 =>
          var n := r.UVarInt();
          if n.Failed? { return Failed(n.fault); }
          var skipped := ReadInts(r, n.value);
          if skipped.Failed? { return Failed(skipped.fault); }
        case _ => return Failed(Malformed);
      }
    }
  }

  method ReadInts(r: Reader, n: nat) returns (out: Outcome<()>)
    modifies r
    ensures match SkipInts(n, old(r.rest))
            case Ok(_, s) => out == Done(()) && r.rest == s
            case Err(f) => out == Failed(f)
  {
    for i := 0 to n
      invariant SkipInts(n - i, r.rest) == SkipInts(n, old(r.rest))
    {
      var x := r.Number(4);
      if x.Failed? { return Failed(x.fault); }
    }
    return Done(());
  }

  lemma {:induction false} IntsRoundTrip(ns: seq<nat>, tail: seq<byte>)
    requires forall i :: 0 <= i < |ns| ==> ns[i] < Pow256(4)
    ensures SkipInts(|ns|, PutInts(ns) + tail) == Ok((), tail)
  {
    if ns == [] {
      assert [] + tail == tail;
    } else {
      var more := PutInts(ns[1..]);
      Assoc(LE(ns[0], 4), more, tail);
      LEReadBack(ns[0], 4, more + tail);
      IntsRoundTrip(ns[1..], tail);
    }
  }

  lemma FieldRoundTrip(f: Field, tail: seq<byte>)
    requires FieldOk(f)
    ensures var code := if f.Overflows? then 1 else if f.Bucket? then 2 else 3;
            exists body :: PutField(f) == UVarint(code) + body && SkipField(code, body + tail) == Ok((), tail)
  {
    match f
    case Overflows(b) =>
      var body: seq<byte> := [if b then 1 else 0];
      assert (body + tail)[1..] == tail;
      assert PutField(f) == UVarint(1) + body && SkipField(1, body + tail) == Ok((), tail);
    case Bucket(n) =>
      var body := LE(n, 4);
      LEReadBack(n, 4, tail);
      assert SkipInts(1, body + tail) == SkipInts(0, tail);
      assert PutField(f) == UVarint(2) + body && SkipField(2, body + tail) == Ok((), tail);
    case OutOfOrder(ns) =>
      var body := UVarint(|ns|) + PutInts(ns);
      Assoc(UVarint(|ns|), PutInts(ns), tail);
      VarintRoundTrip(|ns|, PutInts(ns) + tail);
      IntsRoundTrip(ns, tail);
      assert PutField(f) == UVarint(3) + body && SkipField(3, body + tail) == Ok((), tail);
  }

  /** Any number of known fields in any order is read up to and including the end marker. */
  lemma {:induction false} InfoRoundTrip(fs: seq<Field>, tail: seq<byte>)
    requires forall i :: 0 <= i < |fs| ==> FieldOk(fs[i])
    ensures SkipInfo(PutInfo(fs) + tail) == Ok((), tail)
  {
    if fs == [] {
      VarintRoundTrip(0, tail);
    } else {
      var f, after := fs[0], PutInfo(fs[1..]) + tail;
      var code := if f.Overflows? then 1 else if f.Bucket? then 2 else 3;
      FieldRoundTrip(f, after);
      var body :| PutField(f) == UVarint(code) + body && SkipField(code, body + after) == Ok((), after);
      Assoc(PutField(f), PutInfo(fs[1..]), tail);
      Assoc(UVarint(code), body, after);
      VarintRoundTrip(code, body + after);
      InfoRoundTrip(fs[1..], tail);
    }
  }

  // ---------- reading columns ----------

  /** DecodeState, for the columns that have it. */
  function ReadState(fe: Features, col: BlockCol, s: seq<byte>): (r: Parsed<()>)
    ensures r.Ok? ==> |r.rest| <= |s|
  {
    if fe.columnState && col.LowCol? then
      (match GetLE(8, s)
       case Err(f) => Err(f)
       case Ok(v, rest) => if v == VERSION then Ok((), rest) else Err(Mismatch))
    else Ok((), s)
  }

  /** DecodeColumn of a bound column. */
  function ReadData(col: Bound, rows: nat, s: seq<byte>): (r: Parsed<Bound>)
    ensures r.Ok? ==> |r.rest| <= |s|
  {
    match col
    case Simple(_, _, sh, c) =>
      (match Decode(sh, c, rows, s)
       case Err(f) => Err(f)
       case Ok(d, rest) => Ok(col.(c := d), rest))
    case NullCol(_, _, sh, n) =>
      (match NullDecode(sh, n, rows, s)
       case Err(f) => Err(f)
       case Ok(d, rest) => Ok(col.(n := d), rest))
    case LowCol(_, _, k, lc) =>
      (match LCDecode(k, lc, rows, s)
       case Err(f) => Err(f)
       case Ok(d, rest) => Ok(col.(lc := d), rest))
  }

  /** Name, type and custom-serialization flag of a column. */
  function ReadHead(fe: Features, s: seq<byte>): (r: Parsed<()>)
    ensures r.Ok? ==> |r.rest| <= |s|
  {
    match GetStr(s)
    case Err(f) => Err(f)
    case Ok(_, s1) =>
      match GetStr(s1)
      case Err(f) => Err(f)
      case Ok(_, s2) =>
        if !fe.customSerialization then Ok((), s2)
        else
          match GetBool(s2)
          case Err(f) => Err(f)
          case Ok(_, rest) => Ok((), rest)
  }

  function ReadColumn(fe: Features, col: Bound, rows: nat, s: seq<byte>): (r: Parsed<Bound>)
    ensures r.Ok? ==> |r.rest| <= |s|
  {
    match ReadHead(fe, s)
    case Err(f) => Err(f)
    case Ok(_, s1) =>
      if rows == 0 then Ok(col, s1)
      else
        match ReadState(fe, col, s1)
        case Err(f) => Err(f)
        case Ok(_, s2) => ReadData(col, rows, s2)
  }

  function ReadColumns(fe: Features, cols: seq<Bound>, rows: nat, s: seq<byte>): (r: Parsed<seq<Bound>>)
    ensures r.Ok? ==> |r.value| == |cols| && |r.rest| <= |s|
  {
    if cols == [] then Ok([], s)
    else
      match ReadColumn(fe, cols[0], rows, s)
      case Err(f) => Err(f)
      case Ok(c, s1) =>
        match ReadColumns(fe, cols[1..], rows, s1)
        case Err(f) => Err(f)
        case Ok(cs, rest) => Ok([c] + cs, rest)
  }

  /** Table name and block info. */
  function ReadPrefix(fe: Features, s: seq<byte>): (r: Parsed<()>)
    ensures r.Ok? ==> |r.rest| <= |s|
  {
    match (if fe.tempTables then GetStr(s) else Ok([], s))
    case Err(f) => Err(f)
    case Ok(_, s1) => if fe.blockInfo then SkipInfo(s1) else Ok((), s1)
  }

  /** The column and row counts. */
  function ReadCounts(s: seq<byte>): (r: Parsed<(int, int)>)
    ensures r.Ok? ==> |r.rest| <= |s|
  {
    match ReadUVarint(s)
    case Err(f) => Err(f)
    case Ok(c, s1) =>
      match ReadUVarint(s1)
      case Err(f) => Err(f)
      case Ok(n, rest) => Ok((ToInt(c), ToInt(n)), rest)
  }

  function CheckedColumns(fe: Features, cols: seq<Bound>, n: int, rows: int, s: seq<byte>)
    : (r: Parsed<(seq<Bound>, nat)>)
    ensures r.Ok? ==> |r.value.0| == |cols| && |r.rest| <= |s|
  {
    if n > MAX_COLUMNS || n < 0 || rows > MAX_ROWS || rows < 0 then Err(Malformed)
    else if n == 0 && rows == 0 then Ok((cols, 0), s)
    else if |cols| != n then Err(Mismatch)
    else
      match ReadColumns(fe, cols, rows, s)
      case Err(f) => Err(f)
      case Ok(cs, rest) => Ok((cs, rows), rest)
  }

  /** handleDataBlock: the bound columns after the block, and its row count. */
  function HandleBlock(fe: Features, cols: seq<Bound>, s: seq<byte>): (r: Parsed<(seq<Bound>, nat)>)
    ensures r.Ok? ==> |r.value.0| == |cols| && |r.rest| <= |s|
  {
    match ReadPrefix(fe, s)
    case Err(f) => Err(f)
    case Ok(_, s1) =>
      match ReadCounts(s1)
      case Err(f) => Err(f)
      case Ok((n, rows), s2) => CheckedColumns(fe, cols, n, rows, s2)
  }

  // ---------- round trip ----------

  /** A bound column that can receive the other's data. */
  predicate SameKind(b: BlockCol, c: BlockCol) {
    match b
    case Simple(_, _, sh, _) => c.Simple? && c.sh == sh
    case NullCol(_, _, sh, _) => c.NullCol? && c.sh == sh
    case LowCol(_, _, k, _) => c.LowCol? && c.k == k
  }

  /** A block no larger than a reader accepts. */
  predicate WithinLimits(cols: seq<BlockCol>, rows: nat) {
    |cols| <= MAX_COLUMNS && rows <= MAX_ROWS
  }

  predicate AllSameKind(bs: seq<BlockCol>, cs: seq<BlockCol>) {
    |bs| == |cs| && forall i :: 0 <= i < |bs| ==> SameKind(bs[i], cs[i])
  }

  /** The bound column b after reading the data of c. */
  function Receive(b: Bound, c: BlockCol): (r: Bound)
    requires Sendable(c) && SameKind(b, c)
    ensures SameKind(r, c)
  {
    match b
    case Simple(_, _, sh, p) => SoundTyped(sh, c.c); b.(c := Graft(sh, p, c.c))
    case NullCol(_, _, sh, p) =>
      SoundTyped(sh, c.n.values); b.(n := NullCols(c.n.nulls, Graft(sh, p.values, c.n.values)))
    case LowCol(_, _, k, lc) => b.(lc := Decoded(lc, View(c.lc)))
  }

  function ReceiveAll(bs: seq<Bound>, cs: seq<BlockCol>, rows: nat): (rs: seq<Bound>)
    requires AllSameKind(bs, cs) && AllSendable(cs, rows) && rows > 0
    ensures AllSameKind(rs, cs)
  {
    if bs == [] then [] else [Receive(bs[0], cs[0])] + ReceiveAll(bs[1..], cs[1..], rows)
  }

  /** The bound columns after a block with columns cs. */
  function After(bs: seq<Bound>, cs: seq<BlockCol>, rows: nat): (rs: seq<Bound>)
    requires |bs| == |cs| && AllSendable(cs, rows) && (rows > 0 ==> AllSameKind(bs, cs))
    ensures |rs| == |bs|
  {
    if rows > 0 then ReceiveAll(bs, cs, rows) else bs
  }

  lemma DataRoundTrip(fe: Features, b: Bound, c: BlockCol, tail: seq<byte>)
    requires Sendable(c) && SameKind(b, c) && 0 < RowCount(c) <= MAX_ROWS && Intact(fe, c)
    ensures var s := Body(fe, c) + tail;
            ReadState(fe, b, s).Ok? && ReadData(b, RowCount(c), ReadState(fe, b, s).rest) == Ok(Receive(b, c), tail)
  {
    match b
    case Simple(_, _, sh, p) =>
      SentExact(fe.copies, sh, c.c);
      DecodeEncode(sh, p, c.c, tail);
    case NullCol(_, _, sh, p) =>
      SentExact(fe.copies, sh, c.n.values);
      NullRoundTrip(sh, p, c.n, tail);
    case LowCol(_, _, k, lc) =>
      var rows := View(c.lc);
      Pow8();
      var state: seq<byte> := if fe.columnState then LE(VERSION, 8) else [];
      Assoc(state, LCEncode(k, rows), tail);
      if fe.columnState {
        LEReadBack(VERSION, 8, LCEncode(k, rows) + tail);
      } else {
        assert state + (LCEncode(k, rows) + tail) == LCEncode(k, rows) + tail;
      }
      LCRoundTrip(k, lc, rows, tail);
      assert |Dedup(rows)| <= |rows|;
  }

  lemma HeadRoundTrip(fe: Features, c: BlockCol, rest: seq<byte>, tail: seq<byte>)
    requires |c.name| <= MAX_INT && |c.typ| <= MAX_INT
    ensures ReadHead(fe, (PutStr(c.name) + (PutStr(c.typ)
              + ((if fe.customSerialization then [0] else []) + rest))) + tail) == Ok((), rest + tail)
  {
    var flag: seq<byte> := if fe.customSerialization then [0] else [];
    Assoc(PutStr(c.name), PutStr(c.typ) + (flag + rest), tail);
    Assoc(PutStr(c.typ), flag + rest, tail);
    Assoc(flag, rest, tail);
    StrRoundTrip(c.name, PutStr(c.typ) + (flag + (rest + tail)));
    StrRoundTrip(c.typ, flag + (rest + tail));
    assert flag + (rest + tail) == if flag == [] then rest + tail else [0] + (rest + tail);
    assert ([0] + (rest + tail))[1..] == rest + tail;
  }

  lemma ColumnRoundTrip(fe: Features, b: Bound, c: BlockCol, rows: nat, tail: seq<byte>)
    requires Sendable(c) && rows <= MAX_ROWS
    requires rows > 0 ==> SameKind(b, c) && RowCount(c) == rows && Intact(fe, c)
    ensures ReadColumn(fe, b, rows, ColumnBytes(fe, c, rows) + tail)
         == Ok(if rows > 0 then Receive(b, c) else b, tail)
  {
    if rows > 0 {
      HeadRoundTrip(fe, c, Body(fe, c), tail);
      DataRoundTrip(fe, b, c, tail);
    } else {
      HeadRoundTrip(fe, c, [], tail);
      assert [] + tail == tail;
    }
  }

  lemma {:induction false} ColumnsRoundTrip(fe: Features, bs: seq<Bound>, cs: seq<BlockCol>, rows: nat, tail: seq<byte>)
    requires |bs| == |cs| && AllSendable(cs, rows) && rows <= MAX_ROWS
    requires rows > 0 ==> AllSameKind(bs, cs) && AllIntact(fe, cs)
    ensures ReadColumns(fe, bs, rows, ColumnsBytes(fe, cs, rows) + tail) == Ok(After(bs, cs, rows), tail)
  {
    if bs == [] {
      assert [] + tail == tail;
    } else {
      var b, bs', c, cs' := bs[0], bs[1..], cs[0], cs[1..];
      var p, ps := ColumnBytes(fe, c, rows), ColumnsBytes(fe, cs', rows);
      Assoc(p, ps, tail);
      ColumnRoundTrip(fe, b, c, rows, ps + tail);
      ColumnsRoundTrip(fe, bs', cs', rows, tail);
      AfterFirst(bs, cs, rows);
    }
  }

  lemma AfterFirst(bs: seq<Bound>, cs: seq<BlockCol>, rows: nat)
    requires |bs| == |cs| && AllSendable(cs, rows) && (rows > 0 ==> AllSameKind(bs, cs)) && bs != []
    ensures After(bs, cs, rows)
         == [if rows > 0 then Receive(bs[0], cs[0]) else bs[0]] + After(bs[1..], cs[1..], rows)
  {
  }

  lemma PrefixRoundTrip(fe: Features, table: seq<byte>, info: seq<Field>, s: seq<byte>)
    requires |table| <= MAX_INT && forall i :: 0 <= i < |info| ==> FieldOk(info[i])
    ensures ReadPrefix(fe, (if fe.tempTables then PutStr(table) else [])
              + ((if fe.blockInfo then PutInfo(info) else []) + s)) == Ok((), s)
  {
    var b: seq<byte> := if fe.blockInfo then PutInfo(info) else [];
    TableRoundTrip(fe, table, b + s);
    if fe.blockInfo { InfoRoundTrip(info, s); } else { assert [] + s == s; }
  }

  lemma TableRoundTrip(fe: Features, table: seq<byte>, s: seq<byte>)
    requires |table| <= MAX_INT
    ensures (if fe.tempTables then GetStr(PutStr(table) + s) else Ok([], [] + s))
         == Ok(if fe.tempTables then table else [], s)
  {
    if fe.tempTables { StrRoundTrip(table, s); } else { assert [] + s == s; }
  }

  /**
   Reading a frame: every column gets the frame's rows and exactly the frame is consumed; a frame
   beyond the limits or with another number of columns is refused; a frame without columns and rows
   is passed over.
   */
  lemma FrameRoundTrip(fe: Features, bs: seq<Bound>, table: seq<byte>, info: seq<Field>,
                       cs: seq<BlockCol>, rows: nat, tail: seq<byte>)
    requires AllSendable(cs, rows)
    requires |table| <= MAX_INT && forall i :: 0 <= i < |info| ==> FieldOk(info[i])
    requires rows > 0 && |bs| == |cs| ==> AllSameKind(bs, cs) && AllIntact(fe, cs)
    ensures HandleBlock(fe, bs, Frame(fe, table, info, cs, rows) + tail)
         == if !WithinLimits(cs, rows) then Err(Malformed)
            else if |cs| == 0 && rows == 0 then Ok((bs, 0), tail)
            else if |bs| != |cs| then Err(Mismatch)
            else Ok((After(bs, cs, rows), rows), tail)
  {
    var a: seq<byte> := if fe.tempTables then PutStr(table) else [];
    var b: seq<byte> := if fe.blockInfo then PutInfo(info) else [];
    var m, n, body := UVarint(|cs|), UVarint(rows), ColumnsBytes(fe, cs, rows);
    Assoc(a, b + (m + (n + body)), tail);
    Assoc(b, m + (n + body), tail);
    Assoc(m, n + body, tail);
    Assoc(n, body, tail);
    PrefixRoundTrip(fe, table, info, m + (n + (body + tail)));
    CountsRoundTrip(|cs|, rows, body + tail);
    if |cs| == 0 && rows == 0 {
      assert [] + tail == tail;
    } else if |bs| == |cs| && WithinLimits(cs, rows) {
      ColumnsRoundTrip(fe, bs, cs, rows, tail);
    }
  }

  lemma CountsRoundTrip(n: nat, rows: nat, s: seq<byte>)
    requires n <= MAX_INT && rows <= MAX_INT
    ensures ReadCounts(UVarint(n) + (UVarint(rows) + s)) == Ok((n, rows), s)
  {
    VarintRoundTrip(n, UVarint(rows) + s);
    VarintRoundTrip(rows, s);
  }
}
