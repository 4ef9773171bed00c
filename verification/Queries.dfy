/** Insert's data frame and the Select response loop. */
module Queries {
  import opened Wire
  import opened Codec
  import opened LowCardinality
  import opened Wrappers
  import opened Writers
  import opened Formats
  import opened Blocks

  // ---------- which rows a block leaves behind ----------

  /** The FixedString columns inside are reset. */
  predicate CleanCol(b: Bound)
  {
    match b
    case Simple(_, _, sh, c) => Clean(sh, c)
    case NullCol(_, _, sh, n) => Clean(sh, n.values)
    case LowCol(_, _, _, _) => true
  }

  predicate SameRows(r: BlockCol, c: BlockCol)
    requires Sendable(c)
  {
    match c
    case Simple(_, _, _, d) => r.Simple? && r.c == d
    case NullCol(_, _, _, n) => r.NullCol? && r.n == n
    case LowCol(_, _, _, lc) => r.LowCol? && ViewOk(r.lc) && View(r.lc) == View(lc)
  }

  /** A bound column shows the block's rows exactly when its FixedStrings were reset before. */
  lemma ReceiveRows(b: Bound, c: BlockCol)
    requires Sendable(c) && SameKind(b, c) && 0 < RowCount(c)
    ensures SameRows(Receive(b, c), c) <==> CleanCol(b)
  {
    match b
    case Simple(_, _, sh, p) =>
      SoundTyped(sh, c.c);
      GraftClean(sh, p, c.c);
    case NullCol(_, _, sh, p) =>
      SoundTyped(sh, c.n.values);
      GraftClean(sh, p.values, c.n.values);
    case LowCol(_, _, k, lc) =>
      DecodedView(lc, View(c.lc));
  }

  lemma {:induction false} ReceiveAllRows(bs: seq<Bound>, cs: seq<BlockCol>, rows: nat, i: nat)
    requires AllSameKind(bs, cs) && AllSendable(cs, rows) && rows > 0 && i < |bs|
    ensures ReceiveAll(bs, cs, rows)[i] == Receive(bs[i], cs[i])
    ensures SameRows(ReceiveAll(bs, cs, rows)[i], cs[i]) <==> CleanCol(bs[i])
  {
    if i > 0 {
      ReceiveAllRows(bs[1..], cs[1..], rows, i - 1);
    } else {
      ReceiveRows(bs[0], cs[0]);
    }
  }

  // ---------- Insert ----------

  /** BlockInfo{BucketNum: -1} */
  const INSERT_INFO: seq<Field> := [Overflows(false), Bucket(0xffff_ffff)]
  const CLIENT_DATA := 2
  const CLIENT_CANCEL := 3

  /** The blank block that ends the data. */
  function Blank(fe: Features): seq<byte> {
    UVarint(CLIENT_DATA) + ((if fe.tempTables then PutStr([]) else [])
      + ((if fe.blockInfo then PutInfo([Overflows(false), Bucket(0)]) else []) + (UVarint(0) + UVarint(0))))
  }

  predicate EqualLengths(cols: seq<BlockCol>)
    requires forall i :: 0 <= i < |cols| ==> Sendable(cols[i])
  {
    forall i :: 0 <= i < |cols| ==> RowCount(cols[i]) == RowCount(cols[0])
  }

  /** The data block and the blank block of Insert, or no bytes at all when the columns are refused. */
  method WriteData(b: Buffer, fe: Features, cols: seq<BlockCol>) returns (out: Outcome<nat>)
    requires |cols| <= MAX_INT && forall i :: 0 <= i < |cols| ==> Sendable(cols[i])
    modifies b
    ensures out.Done? <==> cols != [] && RowCount(cols[0]) > 0 && EqualLengths(cols)
    ensures out.Failed? ==> b.buf == old(b.buf)
    ensures out.Done? ==>
              && out.value == RowCount(cols[0]) && AllSendable(cols, out.value)
              && b.buf == old(b.buf) + UVarint(CLIENT_DATA) + Frame(fe, [], INSERT_INFO, cols, out.value) + Blank(fe)
              && DataParts(fe, [255, 255, 255, 255], cols, out.value, b.buf[|old(b.buf)|..], Blank(fe))
              && DataParts(fe, [0, 0, 0, 0], [], 0, Blank(fe), [])
  {
    out := CheckRows(cols);
    if out.Failed? { return; }
    ghost var before, data, frame := b.buf, UVarint(CLIENT_DATA), Frame(fe, [], INSERT_INFO, cols, out.value);
    b.Put(UVarint(CLIENT_DATA));
    WriteFrame(b, fe, cols, out.value);
    b.Put(Blank(fe));
    InsertInParts(fe, cols, out.value, Blank(fe));
    BlankInParts(fe);
    PutBehind(before, data, frame, Blank(fe));
  }

  lemma PutBehind(before: seq<byte>, a: seq<byte>, b: seq<byte>, c: seq<byte>)
    ensures (before + a + b + c)[|before|..] == (a + b) + c
  {
  }

  /** What Insert and Append send is, part by part, a data packet with all columns, their names first. */
  lemma InsertInParts(fe: Features, cs: seq<BlockCol>, rows: nat, tail: seq<byte>)
    requires AllSendable(cs, rows)
    ensures DataParts(fe, [255, 255, 255, 255], cs, rows,
                      (UVarint(CLIENT_DATA) + Frame(fe, [], INSERT_INFO, cs, rows)) + tail, tail)
  {
    assert Pow256(4) == 0x1_0000_0000;
    BucketBytes(0xffff_ffff);
    DataInParts(fe, 0xffff_ffff, cs, rows, tail);
  }

  /** The blank block is a data packet without columns and rows. */
  lemma BlankInParts(fe: Features)
    ensures DataParts(fe, [0, 0, 0, 0], [], 0, Blank(fe), [])
  {
    assert Pow256(4) == 0x1_0000_0000;
    BucketBytes(0);
    DataInParts(fe, 0, [], 0, []);
    var head, counts := Blank(fe), UVarint(0) + (UVarint(0) + []);
    assert ColumnsBytes(fe, [], 0) == [] && UVarint(0) + [] == UVarint(0);
    assert (UVarint(CLIENT_DATA) + Frame(fe, [], [Overflows(false), Bucket(0)], [], 0)) + [] == Blank(fe);
  }

  lemma BucketBytes(n: nat)
    requires n == 0 || n == 0xffff_ffff
    ensures LE(n, 4) == if n == 0 then [0, 0, 0, 0] else [255, 255, 255, 255]
  {
    var a, b := n / 256, n / 65536;
    assert LE(n, 4) == [n % 256] + LE(a, 3) && LE(a, 3) == [a % 256] + LE(b, 2);
    assert LE(b, 2) == [b % 256] + LE(b / 256, 1) && LE(b / 256, 1) == [b / 256 % 256] + [];
  }

  /** The first byte of every packet says what it is; the client's Cancel is a packet of its own. */
  lemma PacketCodes(fe: Features, p: Packet)
    requires p.Data? ==> AllSendable(p.cols, p.rows)
    requires p.RawBlock? ==> p.code < 128
    ensures Print(fe, p) != [] && Print(fe, p)[0] == match p
                                                     case Data(_, _, _, _) => 1
                                                     case Exception(_) => 2
                                                     case Progress(_) => 3
                                                     case EndOfStream => 5
                                                     case Profile(_) => 6
                                                     case RawBlock(code, _, _, _) => code
                                                     case TableColumns(_) => 11
    ensures UVarint(CLIENT_CANCEL) == [3] && {PROFILE_EVENTS, LOG, TOTALS, EXTREMES} == {14, 10, 7, 8}
  {
  }

  /** The checks before anything is sent: there are rows, and every column has as many. */
  method CheckRows(cols: seq<BlockCol>) returns (out: Outcome<nat>)
    requires |cols| <= MAX_INT && forall i :: 0 <= i < |cols| ==> Sendable(cols[i])
    ensures out.Done? <==> cols != [] && RowCount(cols[0]) > 0 && EqualLengths(cols)
    ensures out.Done? ==> out.value == RowCount(cols[0]) && AllSendable(cols, out.value)
    ensures out.Failed? ==> out.fault == if cols == [] || RowCount(cols[0]) == 0 then Malformed else Mismatch
  {
    if |cols| == 0 || RowCount(cols[0]) == 0 { return Failed(Malformed); }
    var rows := RowCount(cols[0]);
    for i := 1 to |cols|
      invariant forall j :: 0 <= j < i ==> RowCount(cols[j]) == rows
    {
      if RowCount(cols[i]) != rows { return Failed(Mismatch); }
    }
    return Done(rows);
  }

  method WriteFrame(b: Buffer, fe: Features, cols: seq<BlockCol>, rows: nat)
    requires AllSendable(cols, rows)
    modifies b
    ensures b.buf == old(b.buf) + Frame(fe, [], INSERT_INFO, cols, rows)
  {
    ghost var x := b.buf;
    ghost var t, info, n, m: seq<byte> := [], [], UVarint(|cols|), UVarint(rows);
    if fe.tempTables {
      t := PutStr([]);
      b.Put(PutStr([]));
    }
    assert b.buf == x + t;
    if fe.blockInfo {
      info := PutInfo(INSERT_INFO);
      b.Put(PutInfo(INSERT_INFO));
    }
    assert b.buf == x + t + info;
    b.Put(UVarint(|cols|));
    b.Put(UVarint(rows));
    WriteColumns(b, fe, cols, rows);
    Flatten(x, t, info, n, m, ColumnsBytes(fe, cols, rows));
  }

  lemma Flatten(x: seq<byte>, a: seq<byte>, b: seq<byte>, c: seq<byte>, d: seq<byte>, e: seq<byte>)
    ensures x + a + b + c + d + e == x + (a + (b + (c + (d + e))))
  {
  }

  lemma MoveOn(before: seq<byte>, written: seq<byte>, bytes: seq<byte>, more: seq<byte>, all: seq<byte>)
    requires written + (bytes + more) == all
    ensures (before + written) + bytes == before + (written + bytes) && (written + bytes) + more == all
  {
  }

  lemma ColumnsFirst(fe: Features, cols: seq<BlockCol>, rows: nat)
    requires AllSendable(cols, rows) && cols != []
    ensures AllSendable(cols[1..], rows)
    ensures ColumnsBytes(fe, cols, rows) == ColumnBytes(fe, cols[0], rows) + ColumnsBytes(fe, cols[1..], rows)
  {
  }

  /** Name, type, flag, state and data, column by column. */
  method WriteColumns(b: Buffer, fe: Features, cols: seq<BlockCol>, rows: nat)
    requires AllSendable(cols, rows)
    modifies b
    ensures b.buf == old(b.buf) + ColumnsBytes(fe, cols, rows)
  {
    ghost var before, written, left, all := b.buf, [], cols, ColumnsBytes(fe, cols, rows);
    for i := 0 to |cols|
      invariant left == cols[i..] && AllSendable(left, rows)
      invariant b.buf == before + written && written + ColumnsBytes(fe, left, rows) == all
    {
      ghost var bytes := ColumnBytes(fe, cols[i], rows);
      ColumnsFirst(fe, left, rows);
      ghost var more := ColumnsBytes(fe, left[1..], rows);
      WriteColumn(b, fe, cols[i], rows);
      MoveOn(before, written, bytes, more, all);
      written, left := written + bytes, left[1..];
    }
    assert written + [] == written;
  }

  method WriteColumn(b: Buffer, fe: Features, col: BlockCol, rows: nat)
    requires Sendable(col)
    modifies b
    ensures b.buf == old(b.buf) + ColumnBytes(fe, col, rows)
  {
    ghost var x, flag, body: seq<byte> := b.buf, [], [];
    var name, typ := PutStr(col.name), PutStr(col.typ);
    b.Put(name);
    b.Put(typ);
    if fe.customSerialization {
      flag := [0];
      b.Put([0]);
    }
    assert b.buf == x + name + typ + flag;
    if rows > 0 {
      body := Body(fe, col);
      b.Put(Body(fe, col));
    }
    assert b.buf == x + name + typ + flag + body;
    FlattenColumn(x, name, typ, flag, body);
  }

  lemma FlattenColumn(x: seq<byte>, a: seq<byte>, b: seq<byte>, c: seq<byte>, d: seq<byte>)
    ensures x + a + b + c + d == x + (a + (b + (c + d)))
  {
  }

  /**
   What Insert writes after the packet code, handleDataBlock reads back to the same rows, whatever
   follows it, if and only if it is within the limits, the FixedStrings of the bound columns were reset,
   and the writer copies slices or every Array and Map inside has level offsets. Then, and whatever the
   FixedStrings hold, exactly the frame is consumed.
   */
  lemma InsertRoundTrip(fe: Features, bs: seq<Bound>, cs: seq<BlockCol>, rows: nat, tail: seq<byte>)
    requires AllSameKind(bs, cs) && AllSendable(cs, rows) && cs != [] && rows > 0
    ensures var r := HandleBlock(fe, bs, Frame(fe, [], INSERT_INFO, cs, rows) + tail);
            && (r.Ok? && AllSameRows(r.value.0, cs)
                <==> |cs| <= 1_000_000 && rows <= 100_000_000 && AllClean(bs) && AllIntact(fe, cs))
            && (WithinLimits(cs, rows) && AllIntact(fe, cs) ==> r.Ok? && r.value.1 == rows && r.rest == tail)
  {
    assert Pow256(4) == 0x1_0000_0000;
    FrameStart(fe, bs, [], INSERT_INFO, cs, rows, tail);
    if WithinLimits(cs, rows) {
      ColumnsExact(fe, bs, cs, rows, tail);
    }
  }

  predicate AllSameRows(rs: seq<Bound>, cs: seq<BlockCol>)
    requires forall i :: 0 <= i < |cs| ==> Sendable(cs[i])
  {
    |rs| == |cs| && forall i :: 0 <= i < |cs| ==> SameRows(rs[i], cs[i])
  }

  predicate AllClean(bs: seq<Bound>) {
    forall i :: 0 <= i < |bs| ==> CleanCol(bs[i])
  }

  lemma NullLost(sh: Shape, prior: NullCols, c: NullCols, tail: seq<byte>)
    requires HasForm(sh, prior.values) && NullSound(sh, c) && Fits(sh, c.values)
    requires HasForm(sh, c.values) && LeavesTyped(sh, c.values) && AllWords(sh, c.values) && !AllLevel(sh, c.values)
    ensures var r := NullDecode(sh, prior, |c.nulls|, (PutNulls(c.nulls) + Sent(false, sh, c.values)) + tail);
            r.Ok? ==> r.value != c
  {
    var bits, body := PutNulls(c.nulls), Sent(false, sh, c.values);
    Assoc(bits, body, tail);
    TakeExact(bits, body + tail);
    SentLost(sh, prior.values, c.values, tail);
    SameOffsetsSelf(sh, c.values);
  }

  lemma DataLost(fe: Features, b: Bound, c: BlockCol, tail: seq<byte>)
    requires Sendable(c) && SameKind(b, c) && RowCount(c) > 0 && !Intact(fe, c)
    ensures var r := ReadData(b, RowCount(c), Body(fe, c) + tail); r.Ok? ==> !SameRows(r.value, c)
  {
    match b
    case Simple(_, _, sh, p) =>
      SentExact(false, sh, c.c);
      SentLost(sh, p, c.c, tail);
      SameOffsetsSelf(sh, c.c);
    case NullCol(_, _, sh, p) =>
      SentExact(false, sh, c.n.values);
      NullLost(sh, p, c.n, tail);
    case LowCol(_, _, _, _) =>
  }

  /** A column that is not sent as EncodeColumn writes it never arrives. */
  lemma ColumnLost(fe: Features, b: Bound, c: BlockCol, rows: nat, tail: seq<byte>)
    requires Sendable(c) && SameKind(b, c) && rows > 0 && RowCount(c) == rows && !Intact(fe, c)
    ensures var r := ReadColumn(fe, b, rows, ColumnBytes(fe, c, rows) + tail); r.Ok? ==> !SameRows(r.value, c)
  {
    HeadRoundTrip(fe, c, Body(fe, c), tail);
    DataLost(fe, b, c, tail);
  }

  lemma FirstLost(fe: Features, bs: seq<Bound>, cs: seq<BlockCol>, rows: nat, tail: seq<byte>)
    requires AllSameKind(bs, cs) && AllSendable(cs, rows) && 0 < rows <= MAX_ROWS && cs != [] && !Intact(fe, cs[0])
    ensures var r := ReadColumns(fe, bs, rows, ColumnsBytes(fe, cs, rows) + tail); r.Ok? ==> !AllSameRows(r.value, cs)
  {
    var p, ps := ColumnBytes(fe, cs[0], rows), ColumnsBytes(fe, cs[1..], rows);
    Assoc(p, ps, tail);
    ColumnLost(fe, bs[0], cs[0], rows, ps + tail);
  }

  /** When a column behind the first does not arrive, the block does not. */
  lemma LaterLost(fe: Features, bs: seq<Bound>, cs: seq<BlockCol>, rows: nat, tail: seq<byte>)
    requires AllSameKind(bs, cs) && AllSendable(cs, rows) && 0 < rows <= MAX_ROWS && cs != [] && Intact(fe, cs[0])
    requires var r := ReadColumns(fe, bs[1..], rows, ColumnsBytes(fe, cs[1..], rows) + tail);
             r.Ok? ==> !AllSameRows(r.value, cs[1..])
    ensures var r := ReadColumns(fe, bs, rows, ColumnsBytes(fe, cs, rows) + tail); r.Ok? ==> !AllSameRows(r.value, cs)
  {
    var p, ps := ColumnBytes(fe, cs[0], rows), ColumnsBytes(fe, cs[1..], rows);
    Assoc(p, ps, tail);
    ColumnRoundTrip(fe, bs[0], cs[0], rows, ps + tail);
    ReadOn(fe, bs, rows, p + (ps + tail), Receive(bs[0], cs[0]), ps + tail);
    LostBehind(Receive(bs[0], cs[0]), ReadColumns(fe, bs[1..], rows, ps + tail), cs);
  }

  /** The columns read behind the first are put behind it. */
  lemma ReadOn(fe: Features, bs: seq<Bound>, rows: nat, s: seq<byte>, first: Bound, rest: seq<byte>)
    requires bs != [] && ReadColumn(fe, bs[0], rows, s) == Ok(first, rest)
    ensures ReadColumns(fe, bs, rows, s) == FirstThen(first, ReadColumns(fe, bs[1..], rows, rest))
  {
  }

  function FirstThen(first: Bound, r: Parsed<seq<Bound>>): Parsed<seq<Bound>> {
    match r
    case Err(f) => Err(f)
    case Ok(cs, rest) => Ok([first] + cs, rest)
  }

  lemma LostBehind(first: Bound, r: Parsed<seq<Bound>>, cs: seq<BlockCol>)
    requires cs != [] && (forall i :: 0 <= i < |cs| ==> Sendable(cs[i]))
    requires r.Ok? ==> !AllSameRows(r.value, cs[1..])
    ensures r.Ok? ==> !AllSameRows(FirstThen(first, r).value, cs)
  {
    if r.Ok? { TailDiffers(r.value, cs[1..], [first] + r.value, cs); }
  }

  lemma {:induction false} ColumnsLost(fe: Features, bs: seq<Bound>, cs: seq<BlockCol>, rows: nat, tail: seq<byte>)
    requires AllSameKind(bs, cs) && AllSendable(cs, rows) && 0 < rows <= MAX_ROWS && !AllIntact(fe, cs)
    ensures var r := ReadColumns(fe, bs, rows, ColumnsBytes(fe, cs, rows) + tail); r.Ok? ==> !AllSameRows(r.value, cs)
  {
    if !Intact(fe, cs[0]) {
      FirstLost(fe, bs, cs, rows, tail);
    } else {
      var i :| 0 <= i < |cs| && !Intact(fe, cs[i]);
      assert cs[1..][i - 1] == cs[i];
      ColumnsLost(fe, bs[1..], cs[1..], rows, tail);
      LaterLost(fe, bs, cs, rows, tail);
    }
  }

  lemma TailDiffers(rs: seq<Bound>, cs: seq<BlockCol>, rs': seq<Bound>, cs': seq<BlockCol>)
    requires rs' != [] && cs' != [] && rs == rs'[1..] && cs == cs'[1..]
    requires (forall i :: 0 <= i < |cs'| ==> Sendable(cs'[i])) && !AllSameRows(rs, cs)
    ensures !AllSameRows(rs', cs')
  {
    if |rs| == |cs| {
      var i :| 0 <= i < |cs| && !SameRows(rs[i], cs[i]);
      assert rs'[i + 1] == rs[i] && cs'[i + 1] == cs[i];
    }
  }

  /** The columns of a block within the limits arrive with the same rows exactly when they can. */
  lemma ColumnsExact(fe: Features, bs: seq<Bound>, cs: seq<BlockCol>, rows: nat, tail: seq<byte>)
    requires AllSameKind(bs, cs) && AllSendable(cs, rows) && 0 < rows <= MAX_ROWS
    ensures var r := ReadColumns(fe, bs, rows, ColumnsBytes(fe, cs, rows) + tail);
            && (r.Ok? && AllSameRows(r.value, cs) <==> AllClean(bs) && AllIntact(fe, cs))
            && (AllIntact(fe, cs) ==> r == Ok(ReceiveAll(bs, cs, rows), tail))
  {
    if AllIntact(fe, cs) {
      ColumnsRoundTrip(fe, bs, cs, rows, tail);
      forall i | 0 <= i < |cs|
        ensures SameRows(ReceiveAll(bs, cs, rows)[i], cs[i]) <==> CleanCol(bs[i])
      {
        ReceiveAllRows(bs, cs, rows, i);
      }
    } else {
      ColumnsLost(fe, bs, cs, rows, tail);
    }
  }

  /** handleDataBlock up to the columns of a frame with as many columns as are bound. */
  lemma FrameStart(fe: Features, bs: seq<Bound>, table: seq<byte>, info: seq<Field>,
                   cs: seq<BlockCol>, rows: nat, tail: seq<byte>)
    requires AllSendable(cs, rows) && PrefixOk(table, info) && |bs| == |cs| && rows > 0
    ensures HandleBlock(fe, bs, Frame(fe, table, info, cs, rows) + tail)
         == CheckedColumns(fe, bs, |cs|, rows, ColumnsBytes(fe, cs, rows) + tail)
  {
    var a: seq<byte> := if fe.tempTables then PutStr(table) else [];
    var b: seq<byte> := if fe.blockInfo then PutInfo(info) else [];
    var m, n, body := UVarint(|cs|), UVarint(rows), ColumnsBytes(fe, cs, rows);
    Assoc(a, b + (m + (n + body)), tail);
    Assoc(b, m + (n + body), tail);
    Assoc(m, n + body, tail);
    Assoc(n, body, tail);
    PrefixRoundTrip(fe, table, info, m + (n + (body + tail)));
    CountsRoundTrip(|cs|, rows, body + tail);
  }

  // ---------- handleDataBlock ----------

  /** The loop over the bound columns. */
  method DecodeColumns(r: Reader, fe: Features, cols: seq<Bound>, rows: nat) returns (out: Outcome<seq<Bound>>)
    modifies r
    ensures match ReadColumns(fe, cols, rows, old(r.rest))
            case Ok(cs, s) => out == Done(cs) && r.rest == s
            case Err(f) => out == Failed(f)
  {
    ghost var all := ReadColumns(fe, cols, rows, r.rest);
    var done: seq<Bound> := [];
    ghost var left := cols;
    ColumnsNone(all);
    for i := 0 to |cols|
      invariant left == cols[i..]
      invariant all == ColumnsAfter(done, ReadColumns(fe, left, rows, r.rest))
    {
      ghost var s := r.rest;
      ColumnsStep(fe, done, left, rows, s);
      var next := DecodeOne(r, fe, cols[i], rows);
      if next.Failed? { return Failed(next.fault); }
      done, left := done + [next.value], left[1..];
    }
    assert done + [] == done;
    return Done(done);
  }

  function ColumnsAfter(done: seq<Bound>, p: Parsed<seq<Bound>>): Parsed<seq<Bound>> {
    match p
    case Ok(cs, rest) => Ok(done + cs, rest)
    case Err(f) => Err(f)
  }

  lemma ColumnsNone(p: Parsed<seq<Bound>>)
    ensures ColumnsAfter([], p) == p
  {
    if p.Ok? { assert [] + p.value == p.value; }
  }

  lemma ColumnsStep(fe: Features, done: seq<Bound>, left: seq<Bound>, rows: nat, s: seq<byte>)
    requires left != []
    ensures ColumnsAfter(done, ReadColumns(fe, left, rows, s))
         == match ReadColumn(fe, left[0], rows, s)
            case Err(f) => Err(f)
            case Ok(c, rest) => ColumnsAfter(done + [c], ReadColumns(fe, left[1..], rows, rest))
  {
    var c := ReadColumn(fe, left[0], rows, s);
    if c.Ok? {
      var p := ReadColumns(fe, left[1..], rows, c.rest);
      if p.Ok? { Assoc(done, [c.value], p.value); }
    }
  }

  method DecodeHead(r: Reader, fe: Features) returns (out: Outcome<()>)
    modifies r
    ensures match ReadHead(fe, old(r.rest))
            case Ok(_, s) => out == Done(()) && r.rest == s
            case Err(f) => out == Failed(f)
  {
    var name := r.Str();
    if name.Failed? { return Failed(name.fault); }
    var typ := r.Str();
    if typ.Failed? { return Failed(typ.fault); }
    if fe.customSerialization {
      var flag := r.Bool();
      if flag.Failed? { return Failed(flag.fault); }
    }
    return Done(());
  }

  method DecodeOne(r: Reader, fe: Features, col: Bound, rows: nat) returns (out: Outcome<Bound>)
    modifies r
    ensures match ReadColumn(fe, col, rows, old(r.rest))
            case Ok(c, s) => out == Done(c) && r.rest == s
            case Err(f) => out == Failed(f)
  {
    var head := DecodeHead(r, fe);
    if head.Failed? { return Failed(head.fault); }
    if rows == 0 { return Done(col); }
    if fe.columnState && col.LowCol? {
      var version := r.Number(8);
      if version.Failed? { return Failed(version.fault); }
      if version.value != VERSION { return Failed(Mismatch); }
    }
    match ReadData(col, rows, r.rest)
    case Ok(c, s) =>
      r.rest := s;
      return Done(c);
    case Err(f) => return Failed(f);
  }

  method HandleDataBlock(r: Reader, fe: Features, cols: seq<Bound>) returns (out: Outcome<(seq<Bound>, nat)>)
    modifies r
    ensures match HandleBlock(fe, cols, old(r.rest))
            case Ok(v, s) => out == Done(v) && r.rest == s
            case Err(f) => out == Failed(f)
  {
    var prefix := DecodePrefix(r, fe);
    if prefix.Failed? { return Failed(prefix.fault); }
    var counts := DecodeCounts(r);
    if counts.Failed? { return Failed(counts.fault); }
    var (blockCols, blockRows) := counts.value;
    if blockCols > MAX_COLUMNS || blockCols < 0 { return Failed(Malformed); }
    if blockRows > MAX_ROWS || blockRows < 0 { return Failed(Malformed); }
    if blockCols == 0 && blockRows == 0 { return Done((cols, 0)); }
    if |cols| != blockCols { return Failed(Mismatch); }
    var cs := DecodeColumns(r, fe, cols, blockRows);
    if cs.Failed? { return Failed(cs.fault); }
    return Done((cs.value, blockRows));
  }

  method DecodePrefix(r: Reader, fe: Features) returns (out: Outcome<()>)
    modifies r
    ensures match ReadPrefix(fe, old(r.rest))
            case Ok(_, s) => out == Done(()) && r.rest == s
            case Err(f) => out == Failed(f)
  {
    if fe.tempTables {
      var table := r.Str();
      if table.Failed? { return Failed(table.fault); }
    }
    if fe.blockInfo {
      out := DecodeBlockInfoSafe(r);
      return;
    }
    return Done(());
  }

  method DecodeCounts(r: Reader) returns (out: Outcome<(int, int)>)
    modifies r
    ensures match ReadCounts(old(r.rest))
            case Ok(v, s) => out == Done(v) && r.rest == s
            case Err(f) => out == Failed(f)
  {
    var c := r.UVarInt();
    if c.Failed? { return Failed(c.fault); }
    var n := r.UVarInt();
    if n.Failed? { return Failed(n.fault); }
    return Done((ToInt(c.value), ToInt(n.value)));
  }

  // ---------- Select ----------

  /** How many bytes a library decoder takes from the front of its input; negative when it fails. */
  type BodyDecoder = seq<byte> -> int

  datatype Env = Env(fe: Features, progress: BodyDecoder, profile: BodyDecoder, exception: BodyDecoder,
                     block: BodyDecoder, columns: BodyDecoder)

  function SkipBody(f: BodyDecoder, s: seq<byte>): (r: Parsed<()>)
    ensures r.Ok? ==> |r.rest| <= |s|
  {
    if 0 <= f(s) <= |s| then Ok((), s[f(s)..]) else Err(Malformed)
  }

  /** skipBlock: table name, block info and a raw block. */
  function SkipBlock(env: Env, s: seq<byte>): (r: Parsed<()>)
    ensures r.Ok? ==> |r.rest| <= |s|
  {
    match GetStr(s)
    case Err(f) => Err(f)
    case Ok(_, s1) =>
      match (if env.fe.blockInfo then SkipInfo(s1) else Ok((), s1))
      case Err(f) => Err(f)
      case Ok(_, s2) => SkipBody(env.block, s2)
  }

  const DATA := 1
  const EXCEPTION := 2
  const PROGRESS := 3
  const END_OF_STREAM := 5
  const PROFILE := 6
  const TOTALS := 7
  const EXTREMES := 8
  const LOG := 10
  const TABLE_COLUMNS := 11
  const PROFILE_EVENTS := 14

  /** Packets between data blocks. */
  function SkipPacket(env: Env, code: nat, s: seq<byte>): (r: Parsed<()>)
    ensures r.Ok? ==> |r.rest| <= |s|
  {
    if code == PROGRESS then SkipBody(env.progress, s)
    else if code == PROFILE then SkipBody(env.profile, s)
    else if code in {PROFILE_EVENTS, LOG, TOTALS, EXTREMES} then SkipBlock(env, s)
    else Ok((), s)
  }

  /**
   The end of a Select: everything was read, the server raised an exception, the stream broke, or the
   context was done. After a break the unread input is not tracked.
   */
  datatype Reply =
    | Complete(rows: nat, cols: seq<Bound>, rest: seq<byte>)
    | Raised(rows: nat, rest: seq<byte>)
    | Broken(rows: nat, fault: Fault)
    | Abandoned(rows: nat)

  /** One turn of the response loop: carry on, end, report an exception, or fail. */
  datatype Turn =
    | Continue(cols: seq<Bound>, added: nat, rest: seq<byte>)
    | End(rest: seq<byte>)
    | Throw(rest: seq<byte>)
    | Fail(fault: Fault)

  /** What a packet does; a server code is one byte. */
  function TakePacket(env: Env, cols: seq<Bound>, code: nat, s: seq<byte>): (t: Turn)
    ensures t.Continue? ==> |t.cols| == |cols| && |t.rest| <= |s|
  {
    if code == DATA then
      (match HandleBlock(env.fe, cols, s)
       case Err(f) => Fail(f)
       case Ok((cs, added), rest) => Continue(cs, added, rest))
    else if code == END_OF_STREAM then End(s)
    else if code == EXCEPTION then
      (match SkipBody(env.exception, s)
       case Err(f) => Fail(f)
       case Ok(_, rest) => Throw(rest))
    else
      (match SkipPacket(env, code, s)
       case Err(f) => Fail(f)
       case Ok(_, rest) => Continue(cols, 0, rest))
  }

  function TakeTurn(env: Env, cols: seq<Bound>, s: seq<byte>): (t: Turn)
    ensures t.Continue? ==> |t.cols| == |cols| && |t.rest| < |s|
  {
    match ReadUVarint(s)
    case Err(f) => Fail(f)
    case Ok(v, rest) => TakePacket(env, cols, v % 256, rest)
  }

  type TurnFn = (seq<Bound>, seq<byte>) -> Turn

  /** Every turn reads something. */
  ghost predicate Advances(turn: TurnFn) {
    forall cs, s :: turn(cs, s).Continue? ==> |turn(cs, s).rest| < |s|
  }

  /** turn is TakeTurn in env. */
  ghost predicate Linked(turn: TurnFn, env: Env) {
    forall cs, s {:trigger TakeTurn(env, cs, s)} :: turn(cs, s) == TakeTurn(env, cs, s)
  }

  function TurnOf(env: Env): (turn: TurnFn)
    ensures Advances(turn) && Linked(turn, env)
  {
    (cs, s) => TakeTurn(env, cs, s)
  }

  /** Turns until the end; the context is done after `patience` of them, or never when that is negative. */
  function Loop(turn: TurnFn, cols: seq<Bound>, rows: nat, s: seq<byte>, patience: int): Reply
    requires Advances(turn)
    decreases |s|
  {
    if patience == 0 then Abandoned(rows)
    else
      match turn(cols, s)
      case Continue(cs, added, rest) => Loop(turn, cs, rows + added, rest, patience - 1)
      case End(rest) => Complete(rows, cols, rest)
      case Throw(rest) => Raised(rows, rest)
      case Fail(f) => Broken(rows, f)
  }

  method Skip(r: Reader, f: BodyDecoder) returns (out: Outcome<()>)
    modifies r
    ensures match SkipBody(f, old(r.rest))
            case Ok(_, s) => out == Done(()) && r.rest == s
            case Err(f) => out == Failed(f)
  {
    var n := f(r.rest);
    if n < 0 || n > |r.rest| { return Failed(Malformed); }
    r.rest := r.rest[n..];
    return Done(());
  }

  method SkipRawBlock(r: Reader, env: Env) returns (out: Outcome<()>)
    modifies r
    ensures match SkipBlock(env, old(r.rest))
            case Ok(_, s) => out == Done(()) && r.rest == s
            case Err(f) => out == Failed(f)
  {
    var table := r.Str();
    if table.Failed? { return Failed(table.fault); }
    if env.fe.blockInfo {
      var info := DecodeBlockInfoSafe(r);
      if info.Failed? { return Failed(info.fault); }
    }
    out := Skip(r, env.block);
  }

  method SkipOther(r: Reader, env: Env, code: nat) returns (out: Outcome<()>)
    modifies r
    ensures match SkipPacket(env, code, old(r.rest))
            case Ok(_, s) => out == Done(()) && r.rest == s
            case Err(f) => out == Failed(f)
  {
    match code
    case 3 => out := Skip(r, env.progress);
    case 6 => out := Skip(r, env.profile);
    case 14 => out := SkipRawBlock(r, env);
    case 10 => out := SkipRawBlock(r, env);
    case 7 => out := SkipRawBlock(r, env);
    case 8 => out := SkipRawBlock(r, env);
    case _ => out := Done(());
  }

  method ReadPacket(r: Reader, env: Env, cols: seq<Bound>, code: nat) returns (t: Turn)
    modifies r
    ensures t == TakePacket(env, cols, code, old(r.rest))
    ensures !t.Fail? ==> r.rest == t.rest
  {
    if code == DATA {
      var added := HandleDataBlock(r, env.fe, cols);
      if added.Failed? { return Fail(added.fault); }
      return Continue(added.value.0, added.value.1, r.rest);
    } else if code == END_OF_STREAM {
      return End(r.rest);
    } else if code == EXCEPTION {
      var ex := Skip(r, env.exception);
      return if ex.Failed? then Fail(ex.fault) else Throw(r.rest);
    }
    var skipped := SkipOther(r, env, code);
    if skipped.Failed? { return Fail(skipped.fault); }
    return Continue(cols, 0, r.rest);
  }

  /** Reads a packet's code and acts on it. */
  method NextTurn(r: Reader, env: Env, cols: seq<Bound>, ghost turn: TurnFn) returns (t: Turn)
    requires Linked(turn, env)
    modifies r
    ensures t == turn(cols, old(r.rest))
    ensures !t.Fail? ==> r.rest == t.rest
  {
    ghost var s := r.rest;
    assert turn(cols, s) == TakeTurn(env, cols, s);
    var code := r.UVarInt();
    if code.Failed? { return Fail(code.fault); }
    t := ReadPacket(r, env, cols, code.value % 256);
  }

  /**
   Select after its query was sent computes Loop, leaves the input right behind the end or the
   exception, and sends a Cancel packet exactly when the context was done first.
   */
  method Select(b: Buffer, r: Reader, env: Env, bound: seq<Bound>, patience: int) returns (reply: Reply)
    modifies r, b
    ensures reply == Loop(TurnOf(env), bound, 0, old(r.rest), patience)
    ensures reply.Complete? || reply.Raised? ==> r.rest == reply.rest
    ensures b.buf == old(b.buf) + if reply.Abandoned? then UVarint(CLIENT_CANCEL) else []
  {
    reply := RunLoop(b, r, env, bound, patience, TurnOf(env));
  }

  method RunLoop(b: Buffer, r: Reader, env: Env, bound: seq<Bound>, patience: int, ghost turn: TurnFn)
    returns (reply: Reply)
    requires Advances(turn) && Linked(turn, env)
    modifies r, b
    ensures reply == Loop(turn, bound, 0, old(r.rest), patience)
    ensures reply.Complete? || reply.Raised? ==> r.rest == reply.rest
    ensures b.buf == old(b.buf) + if reply.Abandoned? then UVarint(CLIENT_CANCEL) else []
  {
    var rows, cols, turns := 0, bound, patience;
    assert b.buf + [] == b.buf;
    while true
      invariant rows >= 0 && b.buf == old(b.buf)
      invariant Loop(turn, cols, rows, r.rest, turns) == Loop(turn, bound, 0, old(r.rest), patience)
      decreases |r.rest|
    {
      if turns == 0 {
        b.Put(UVarint(CLIENT_CANCEL));
        return Abandoned(rows);
      }
      turns := turns - 1;
      var t := NextTurn(r, env, cols, turn);
      match t {
        case Continue(cs, added, _) => cols, rows := cs, rows + added;
        case End(rest) => return Complete(rows, cols, rest);
        case Throw(rest) => return Raised(rows, rest);
        case Fail(f) => return Broken(rows, f);
      }
    }
  }

  // ---------- streams of packets ----------

  datatype Packet =
    | Data(table: seq<byte>, info: seq<Field>, cols: seq<BlockCol>, rows: nat)
    | Progress(body: seq<byte>)
    | Profile(body: seq<byte>)
    | RawBlock(code: nat, table: seq<byte>, info: seq<Field>, body: seq<byte>)
    | TableColumns(body: seq<byte>)
    | EndOfStream
    | Exception(body: seq<byte>)

  /** A body its decoder takes whole, whatever follows. */
  ghost predicate Delimited(f: BodyDecoder, body: seq<byte>) {
    forall t :: f(body + t) == |body|
  }

  predicate PrefixOk(table: seq<byte>, info: seq<Field>) {
    |table| <= MAX_INT && forall i :: 0 <= i < |info| ==> FieldOk(info[i])
  }

  /** A well-formed packet for these bound columns; only the number of its columns may be wrong. */
  ghost predicate PacketOk(env: Env, bs: seq<Bound>, p: Packet) {
    match p
    case Data(table, info, cs, rows) =>
      && PrefixOk(table, info) && AllSendable(cs, rows) && WithinLimits(cs, rows)
      && (rows > 0 && |cs| == |bs| ==> AllSameKind(bs, cs) && AllIntact(env.fe, cs))
    case Progress(body) => Delimited(env.progress, body)
    case Profile(body) => Delimited(env.profile, body)
    case RawBlock(code, table, info, body) =>
      code in {PROFILE_EVENTS, LOG, TOTALS, EXTREMES} && PrefixOk(table, info) && Delimited(env.block, body)
    case TableColumns(_) => false
    case EndOfStream => true
    case Exception(body) => Delimited(env.exception, body)
  }

  function Print(fe: Features, p: Packet): seq<byte>
    requires p.Data? ==> AllSendable(p.cols, p.rows)
  {
    match p
    case Data(table, info, cs, rows) => UVarint(DATA) + Frame(fe, table, info, cs, rows)
    case Progress(body) => UVarint(PROGRESS) + body
    case Profile(body) => UVarint(PROFILE) + body
    case RawBlock(code, table, info, body) =>
      UVarint(code) + (PutStr(table) + ((if fe.blockInfo then PutInfo(info) else []) + body))
    case TableColumns(body) => UVarint(TABLE_COLUMNS) + body
    case EndOfStream => UVarint(END_OF_STREAM)
    case Exception(body) => UVarint(EXCEPTION) + body
  }

  predicate Printable(ps: seq<Packet>) {
    forall i :: 0 <= i < |ps| ==> ps[i].Data? ==> AllSendable(ps[i].cols, ps[i].rows)
  }

  function PrintAll(fe: Features, ps: seq<Packet>): seq<byte>
    requires Printable(ps)
  {
    if ps == [] then [] else Print(fe, ps[0]) + PrintAll(fe, ps[1..])
  }

  /** A data packet that does not fit the bound columns: another number of columns. */
  predicate Misfit(bs: seq<Bound>, p: Packet) {
    p.Data? && |p.cols| != |bs| && !(p.cols == [] && p.rows == 0)
  }

  predicate Stops(bs: seq<Bound>, p: Packet) {
    p.EndOfStream? || p.Exception? || Misfit(bs, p)
  }

  function AddedRows(p: Packet): nat {
    if p.Data? then p.rows else 0
  }

  function SumRows(ps: seq<Packet>): nat {
    if ps == [] then 0 else AddedRows(ps[0]) + SumRows(ps[1..])
  }

  /** The bound columns after a packet that does not stop the loop. */
  ghost function AfterPacket(env: Env, bs: seq<Bound>, p: Packet): (rs: seq<Bound>)
    requires PacketOk(env, bs, p) && !Stops(bs, p)
    ensures |rs| == |bs|
  {
    if p.Data? && p.rows > 0 then After(bs, p.cols, p.rows) else bs
  }

  lemma ReceiveAllKind(bs: seq<Bound>, cs: seq<BlockCol>, rows: nat, ds: seq<BlockCol>)
    requires AllSameKind(bs, cs) && AllSendable(cs, rows) && rows > 0
    ensures AllSameKind(bs, ds) <==> AllSameKind(ReceiveAll(bs, cs, rows), ds)
  {
    var rs := ReceiveAll(bs, cs, rows);
    forall i | 0 <= i < |bs|
      ensures SameKind(rs[i], cs[i]) && SameKind(bs[i], cs[i])
    {
    }
    if |ds| == |bs| {
      forall i | 0 <= i < |bs|
        ensures SameKind(bs[i], ds[i]) <==> SameKind(rs[i], ds[i])
      {
      }
    }
  }

  /** Receiving a block changes no column's kind. */
  lemma AfterKeepsPackets(env: Env, bs: seq<Bound>, p: Packet, q: Packet)
    requires PacketOk(env, bs, p) && !Stops(bs, p) && PacketOk(env, bs, q)
    ensures PacketOk(env, AfterPacket(env, bs, p), q)
    ensures Stops(AfterPacket(env, bs, p), q) <==> Stops(bs, q)
  {
    if p.Data? && p.rows > 0 && q.Data? { ReceiveAllKind(bs, p.cols, p.rows, q.cols); }
  }

  lemma BodySkipped(f: BodyDecoder, body: seq<byte>, tail: seq<byte>)
    requires Delimited(f, body)
    ensures SkipBody(f, body + tail) == Ok((), tail)
  {
    assert f(body + tail) == |body|;
    assert (body + tail)[|body|..] == tail;
  }

  lemma RawSkipped(env: Env, p: Packet, tail: seq<byte>)
    requires p.RawBlock? && PacketOk(env, [], p)
    ensures SkipBlock(env, (PutStr(p.table) + ((if env.fe.blockInfo then PutInfo(p.info) else []) + p.body)) + tail)
         == Ok((), tail)
  {
    var i: seq<byte> := if env.fe.blockInfo then PutInfo(p.info) else [];
    Assoc(PutStr(p.table), i + p.body, tail);
    Assoc(i, p.body, tail);
    StrRoundTrip(p.table, i + (p.body + tail));
    if env.fe.blockInfo { InfoRoundTrip(p.info, p.body + tail); } else { assert i + (p.body + tail) == p.body + tail; }
    BodySkipped(env.block, p.body, tail);
  }

  lemma CodeRead(code: nat, body: seq<byte>, tail: seq<byte>)
    requires code < 128
    ensures ReadUVarint((UVarint(code) + body) + tail) == Ok(code, body + tail) && code % 256 == code
  {
    Assoc(UVarint(code), body, tail);
    VarintRoundTrip(code, body + tail);
  }

  /** A packet that is a code and a body its decoder takes whole. */
  lemma BodyRead(f: BodyDecoder, code: nat, body: seq<byte>, tail: seq<byte>)
    requires code < 128 && Delimited(f, body)
    ensures var r := ReadUVarint((UVarint(code) + body) + tail);
            r.Ok? && r.value == code && r.value % 256 == code && SkipBody(f, r.rest) == Ok((), tail)
  {
    CodeRead(code, body, tail);
    BodySkipped(f, body, tail);
  }

  lemma RawRead(env: Env, p: Packet, tail: seq<byte>)
    requires p.RawBlock? && PacketOk(env, [], p)
    ensures var r := ReadUVarint(Print(env.fe, p) + tail);
            r.Ok? && r.value == p.code && r.value % 256 == p.code && SkipBlock(env, r.rest) == Ok((), tail)
  {
    CodeRead(p.code, PutStr(p.table) + ((if env.fe.blockInfo then PutInfo(p.info) else []) + p.body), tail);
    RawSkipped(env, p, tail);
  }

  /** What one turn makes of a well-formed packet. */
  ghost function TurnFor(env: Env, bs: seq<Bound>, p: Packet, tail: seq<byte>): Turn
    requires PacketOk(env, bs, p)
  {
    if p.EndOfStream? then End(tail)
    else if p.Exception? then Throw(tail)
    else if Misfit(bs, p) then Fail(Mismatch)
    else Continue(AfterPacket(env, bs, p), AddedRows(p), tail)
  }

  lemma DataPacket(env: Env, bs: seq<Bound>, p: Packet, tail: seq<byte>)
    requires PacketOk(env, bs, p) && p.Data?
    ensures TakeTurn(env, bs, Print(env.fe, p) + tail) == TurnFor(env, bs, p, tail)
  {
    CodeRead(DATA, Frame(env.fe, p.table, p.info, p.cols, p.rows), tail);
    FrameRoundTrip(env.fe, bs, p.table, p.info, p.cols, p.rows, tail);
  }

  lemma RawPacket(env: Env, bs: seq<Bound>, p: Packet, tail: seq<byte>)
    requires PacketOk(env, bs, p) && p.RawBlock?
    ensures TakeTurn(env, bs, Print(env.fe, p) + tail) == Continue(bs, 0, tail)
  {
    var s := Print(env.fe, p) + tail;
    RawRead(env, p, tail);
    RawTurn(env, bs, s, p.code, tail);
  }

  lemma RawTurn(env: Env, bs: seq<Bound>, s: seq<byte>, code: nat, tail: seq<byte>)
    requires code in {PROFILE_EVENTS, LOG, TOTALS, EXTREMES} && ReadUVarint(s).Ok? && ReadUVarint(s).value == code
    requires SkipBlock(env, ReadUVarint(s).rest) == Ok((), tail)
    ensures TakeTurn(env, bs, s) == Continue(bs, 0, tail)
  {
  }

  lemma CountPacket(env: Env, bs: seq<Bound>, p: Packet, tail: seq<byte>)
    requires PacketOk(env, bs, p) && (p.Progress? || p.Profile?)
    ensures TakeTurn(env, bs, Print(env.fe, p) + tail) == Continue(bs, 0, tail)
  {
    match p
    case Progress(body) => BodyRead(env.progress, PROGRESS, body, tail);
    case Profile(body) => BodyRead(env.profile, PROFILE, body, tail);
  }

  lemma LastPacket(env: Env, bs: seq<Bound>, p: Packet, tail: seq<byte>)
    requires PacketOk(env, bs, p) && (p.EndOfStream? || p.Exception?)
    ensures TakeTurn(env, bs, Print(env.fe, p) + tail) == if p.EndOfStream? then End(tail) else Throw(tail)
  {
    match p
    case EndOfStream => EndRead(env.fe, p, tail);
    case Exception(body) => BodyRead(env.exception, EXCEPTION, body, tail);
  }

  lemma EndRead(fe: Features, p: Packet, tail: seq<byte>)
    requires p.EndOfStream?
    ensures ReadUVarint(Print(fe, p) + tail) == Ok(END_OF_STREAM, tail)
  {
    VarintRoundTrip(END_OF_STREAM, tail);
  }

  lemma OnePacket(env: Env, bs: seq<Bound>, p: Packet, tail: seq<byte>)
    requires PacketOk(env, bs, p)
    ensures TakeTurn(env, bs, Print(env.fe, p) + tail) == TurnFor(env, bs, p, tail)
  {
    if p.Data? {
      DataPacket(env, bs, p, tail);
    } else if p.RawBlock? {
      RawPacket(env, bs, p, tail);
    } else if p.EndOfStream? || p.Exception? {
      LastPacket(env, bs, p, tail);
    } else {
      CountPacket(env, bs, p, tail);
    }
  }

  /** A turn function that treats every well-formed packet as TurnFor says. */
  ghost predicate Obeys(turn: TurnFn, env: Env) {
    forall bs, p, tail {:trigger TurnFor(env, bs, p, tail)} :: PacketOk(env, bs, p) ==>
      turn(bs, Print(env.fe, p) + tail) == TurnFor(env, bs, p, tail)
  }

  /** Well-formed packets that do not stop the loop. */
  ghost predicate AllPass(env: Env, bs: seq<Bound>, ps: seq<Packet>)
    ensures AllPass(env, bs, ps) ==> Printable(ps)
  {
    forall i :: 0 <= i < |ps| ==> PacketOk(env, bs, ps[i]) && !Stops(bs, ps[i])
  }

  lemma PassOn(env: Env, bs: seq<Bound>, ps: seq<Packet>)
    requires ps != [] && AllPass(env, bs, ps)
    ensures AllPass(env, AfterPacket(env, bs, ps[0]), ps[1..])
  {
    var next := AfterPacket(env, bs, ps[0]);
    forall i | 0 <= i < |ps[1..]|
      ensures PacketOk(env, next, ps[1..][i]) && !Stops(next, ps[1..][i])
    {
      AfterKeepsPackets(env, bs, ps[0], ps[i + 1]);
    }
  }

  ghost function AfterAll(env: Env, bs: seq<Bound>, ps: seq<Packet>): (rs: seq<Bound>)
    requires AllPass(env, bs, ps)
    ensures |rs| == |bs|
    decreases |ps|
  {
    if ps == [] then bs
    else
      PassOn(env, bs, ps);
      AfterAll(env, AfterPacket(env, bs, ps[0]), ps[1..])
  }

  lemma PrintFirst(fe: Features, ps: seq<Packet>, last: seq<byte>)
    requires Printable(ps) && ps != []
    ensures PrintAll(fe, ps) + last == Print(fe, ps[0]) + (PrintAll(fe, ps[1..]) + last)
  {
    Assoc(Print(fe, ps[0]), PrintAll(fe, ps[1..]), last);
  }

  /** Receiving well-formed blocks leaves the bound columns able to receive what they could before. */
  lemma {:induction false} AfterAllKeeps(env: Env, bs: seq<Bound>, ps: seq<Packet>, q: Packet)
    requires AllPass(env, bs, ps) && PacketOk(env, bs, q)
    ensures PacketOk(env, AfterAll(env, bs, ps), q)
    ensures Stops(AfterAll(env, bs, ps), q) <==> Stops(bs, q)
    decreases |ps|
  {
    if ps == [] {
    } else {
      PassOn(env, bs, ps);
      AfterKeepsPackets(env, bs, ps[0], q);
      AfterAllKeeps(env, AfterPacket(env, bs, ps[0]), ps[1..], q);
    }
  }

  /** What Select returns when the packets ps are followed by one that stops it. */
  ghost function ReplyFor(env: Env, bs: seq<Bound>, ps: seq<Packet>, stop: Packet, more: seq<byte>): Reply
    requires AllPass(env, bs, ps)
  {
    if stop.EndOfStream? then Complete(SumRows(ps), AfterAll(env, bs, ps), more)
    else if stop.Exception? then Raised(SumRows(ps), more)
    else Broken(SumRows(ps), Mismatch)
  }

  lemma LoopStops(turn: TurnFn, env: Env, bs: seq<Bound>, rows: nat, stop: Packet, more: seq<byte>, patience: int)
    requires Advances(turn) && Obeys(turn, env) && PacketOk(env, bs, stop) && Stops(bs, stop) && patience != 0
    ensures Loop(turn, bs, rows, Print(env.fe, stop) + more, patience)
         == if stop.EndOfStream? then Complete(rows, bs, more)
            else if stop.Exception? then Raised(rows, more)
            else Broken(rows, Mismatch)
  {
    assert turn(bs, Print(env.fe, stop) + more) == TurnFor(env, bs, stop, more);
  }

  lemma LoopPasses(turn: TurnFn, env: Env, bs: seq<Bound>, rows: nat, p: Packet, rest: seq<byte>, patience: int,
                   next: seq<Bound>, sum: nat, reply: Reply)
    requires Advances(turn) && Obeys(turn, env) && PacketOk(env, bs, p) && !Stops(bs, p) && patience != 0
    requires next == AfterPacket(env, bs, p) && sum == rows + AddedRows(p)
    requires Loop(turn, next, sum, rest, patience - 1) == reply
    ensures Loop(turn, bs, rows, Print(env.fe, p) + rest, patience) == reply
  {
    var s := Print(env.fe, p) + rest;
    assert turn(bs, s) == TurnFor(env, bs, p, rest);
  }

  lemma AfterAllFirst(env: Env, bs: seq<Bound>, ps: seq<Packet>)
    requires AllPass(env, bs, ps) && ps != []
    ensures PacketOk(env, bs, ps[0]) && !Stops(bs, ps[0]) && SumRows(ps) == AddedRows(ps[0]) + SumRows(ps[1..])
    ensures AllPass(env, AfterPacket(env, bs, ps[0]), ps[1..])
    ensures AfterAll(env, bs, ps) == AfterAll(env, AfterPacket(env, bs, ps[0]), ps[1..])
  {
    PassOn(env, bs, ps);
  }

  /** One packet that passes, given what the loop makes of the rest. */
  lemma LoopStep(turn: TurnFn, env: Env, bs: seq<Bound>, rows: nat, ps: seq<Packet>, last: seq<byte>,
                 patience: int, next: seq<Bound>, sum: nat, reply: Reply)
    requires Advances(turn) && Obeys(turn, env) && ps != [] && AllPass(env, bs, ps) && patience != 0
    requires next == AfterPacket(env, bs, ps[0]) && sum == rows + AddedRows(ps[0])
    requires Loop(turn, next, sum, PrintAll(env.fe, ps[1..]) + last, patience - 1) == reply
    ensures Loop(turn, bs, rows, PrintAll(env.fe, ps) + last, patience) == reply
  {
    PrintFirst(env.fe, ps, last);
    LoopPasses(turn, env, bs, rows, ps[0], PrintAll(env.fe, ps[1..]) + last, patience, next, sum, reply);
  }

  /** Packets that do not stop the loop are taken one by one: what it makes of the rest is what it returns. */
  lemma {:induction false} LoopOver(turn: TurnFn, env: Env, bs: seq<Bound>, rows: nat, ps: seq<Packet>,
                                    last: seq<byte>, patience: int, cs: seq<Bound>, sum: nat, left: int, reply: Reply)
    requires Advances(turn) && Obeys(turn, env) && AllPass(env, bs, ps) && (patience < 0 || patience >= |ps|)
    requires cs == AfterAll(env, bs, ps) && sum == rows + SumRows(ps) && left == patience - |ps|
    requires Loop(turn, cs, sum, last, left) == reply
    ensures Loop(turn, bs, rows, PrintAll(env.fe, ps) + last, patience) == reply
    decreases |ps|
  {
    if ps == [] {
      assert [] + last == last;
    } else {
      AfterAllFirst(env, bs, ps);
      var next, more := AfterPacket(env, bs, ps[0]), rows + AddedRows(ps[0]);
      LoopOver(turn, env, next, more, ps[1..], last, patience - 1, cs, sum, left, reply);
      LoopStep(turn, env, bs, rows, ps, last, patience, next, more, reply);
    }
  }

  lemma LoopOverStops(turn: TurnFn, env: Env, bs: seq<Bound>, ps: seq<Packet>, stop: Packet, more: seq<byte>,
                      patience: int)
    requires Advances(turn) && Obeys(turn, env)
    requires PacketOk(env, bs, stop) && Stops(bs, stop) && AllPass(env, bs, ps) && (patience < 0 || patience > |ps|)
    ensures Loop(turn, bs, 0, PrintAll(env.fe, ps) + (Print(env.fe, stop) + more), patience)
         == ReplyFor(env, bs, ps, stop, more)
  {
    var cs := AfterAll(env, bs, ps);
    AfterAllKeeps(env, bs, ps, stop);
    var sum, left := SumRows(ps), patience - |ps|;
    LoopStops(turn, env, cs, sum, stop, more, left);
    LoopOver(turn, env, bs, 0, ps, Print(env.fe, stop) + more, patience, cs, sum, left,
             ReplyFor(env, bs, ps, stop, more));
  }

  lemma LoopRunsOut(turn: TurnFn, env: Env, bs: seq<Bound>, ps: seq<Packet>, patience: int)
    requires Advances(turn) && Obeys(turn, env) && AllPass(env, bs, ps) && (patience < 0 || patience > |ps|)
    requires turn(AfterAll(env, bs, ps), []) == Fail(ShortRead)
    ensures Loop(turn, bs, 0, PrintAll(env.fe, ps), patience) == Broken(SumRows(ps), ShortRead)
  {
    var cs, s := AfterAll(env, bs, ps), PrintAll(env.fe, ps);
    assert s + [] == s;
    var sum, left := SumRows(ps), patience - |ps|;
    LoopEmpty(turn, cs, sum, left);
    LoopOver(turn, env, bs, 0, ps, [], patience, cs, sum, left, Broken(sum, ShortRead));
  }

  lemma LoopEmpty(turn: TurnFn, cols: seq<Bound>, rows: nat, patience: int)
    requires Advances(turn) && turn(cols, []) == Fail(ShortRead) && patience != 0
    ensures Loop(turn, cols, rows, [], patience) == Broken(rows, ShortRead)
  {
  }

  lemma NothingToTake(turn: TurnFn, env: Env)
    requires Linked(turn, env)
    ensures forall cs :: turn(cs, []) == Fail(ShortRead)
  {
    forall cs
      ensures turn(cs, []) == Fail(ShortRead)
    {
      assert turn(cs, []) == TakeTurn(env, cs, []);
    }
  }

  lemma {:induction false} PrintSplit(fe: Features, ps: seq<Packet>, j: nat)
    requires Printable(ps) && j <= |ps|
    ensures PrintAll(fe, ps) == PrintAll(fe, ps[..j]) + PrintAll(fe, ps[j..])
    decreases j
  {
    if j == 0 {
      assert ps[0..] == ps && [] + PrintAll(fe, ps) == PrintAll(fe, ps);
    } else {
      PrintSplit(fe, ps[1..], j - 1);
      assert ps[1..][..j - 1] == ps[..j][1..] && ps[1..][j - 1..] == ps[j..];
      PrintFirst(fe, ps[..j], PrintAll(fe, ps[j..]));
    }
  }

  lemma SplitAtStop(fe: Features, ps: seq<Packet>, j: nat)
    requires Printable(ps) && j < |ps|
    ensures PrintAll(fe, ps) == PrintAll(fe, ps[..j]) + (Print(fe, ps[j]) + PrintAll(fe, ps[j + 1..]))
  {
    PrintSplit(fe, ps, j);
    assert ps[j..][1..] == ps[j + 1..];
  }

  lemma LoopHalts(turn: TurnFn, env: Env, bs: seq<Bound>, ps: seq<Packet>, last: seq<byte>)
    requires Advances(turn) && Obeys(turn, env) && AllPass(env, bs, ps)
    ensures Loop(turn, bs, 0, PrintAll(env.fe, ps) + last, |ps|) == Abandoned(SumRows(ps))
  {
    var cs, sum := AfterAll(env, bs, ps), SumRows(ps);
    LoopOver(turn, env, bs, 0, ps, last, |ps|, cs, sum, 0, Abandoned(sum));
  }

  lemma LoopExact(turn: TurnFn, env: Env, bs: seq<Bound>, ps: seq<Packet>, j: nat, patience: int)
    requires Advances(turn) && Obeys(turn, env) && forall cs :: turn(cs, []) == Fail(ShortRead)
    requires forall i :: 0 <= i < |ps| ==> PacketOk(env, bs, ps[i])
    requires j <= |ps| && (forall i :: 0 <= i < j ==> !Stops(bs, ps[i])) && (j < |ps| ==> Stops(bs, ps[j]))
    ensures Printable(ps) && AllPass(env, bs, ps[..j])
    ensures Loop(turn, bs, 0, PrintAll(env.fe, ps), patience)
         == if 0 <= patience <= j then Abandoned(SumRows(ps[..patience]))
            else if j == |ps| then Broken(SumRows(ps), ShortRead)
            else ReplyFor(env, bs, ps[..j], ps[j], PrintAll(env.fe, ps[j + 1..]))
  {
    if 0 <= patience <= j {
      PrintSplit(env.fe, ps, patience);
      LoopHalts(turn, env, bs, ps[..patience], PrintAll(env.fe, ps[patience..]));
    } else if j == |ps| {
      assert ps[..j] == ps;
      LoopRunsOut(turn, env, bs, ps, patience);
    } else {
      var stop, more := ps[j], PrintAll(env.fe, ps[j + 1..]);
      SplitAtStop(env.fe, ps, j);
      LoopOverStops(turn, env, bs, ps[..j], stop, more, patience);
    }
  }

  lemma {:induction false} SumPush(ps: seq<Packet>, p: Packet)
    ensures SumRows(ps + [p]) == SumRows(ps) + if p.Data? then p.rows else 0
  {
    if ps == [] {
      assert [] + [p] == [p] && [p][1..] == [];
    } else {
      assert (ps + [p])[1..] == ps[1..] + [p];
      SumPush(ps[1..], p);
    }
  }

  /** totals[i] is the number of rows in the first i packets. */
  ghost predicate Totals(totals: seq<nat>, ps: seq<Packet>) {
    && |totals| == |ps| + 1 && totals[0] == 0
    && forall i :: 0 <= i < |ps| ==> totals[i + 1] == totals[i] + if ps[i].Data? then ps[i].rows else 0
  }

  lemma {:induction false} TotalsSum(totals: seq<nat>, ps: seq<Packet>, i: nat)
    requires Totals(totals, ps) && i <= |ps|
    ensures totals[i] == SumRows(ps[..i])
    decreases i
  {
    if i == 0 {
    } else {
      TotalsSum(totals, ps, i - 1);
      SumPush(ps[..i - 1], ps[i - 1]);
      assert ps[..i - 1] + [ps[i - 1]] == ps[..i];
    }
  }

  /**
   Over every stream of well-formed packets: packet j being the first that is EndOfStream, an Exception
   or a data block with another number of columns, and j their number when there is none. Select ends
   there: without an error exactly when that packet is EndOfStream, the bound columns being those the
   blocks before it leave behind, with the server's at an Exception, and right behind either; it breaks
   when there is none. A context that is done after at most j packets ends it before. The row count is
   always that of the packets it has read.
   */
  lemma SelectExact(env: Env, bs: seq<Bound>, ps: seq<Packet>, j: nat, totals: seq<nat>, patience: int)
    requires (forall i :: 0 <= i < |ps| ==> PacketOk(env, bs, ps[i])) && Totals(totals, ps) && j <= |ps|
    requires forall i :: 0 <= i < j ==> !ps[i].EndOfStream? && !ps[i].Exception?
    requires forall i :: 0 <= i < j && ps[i].Data? ==> |ps[i].cols| == |bs| || (ps[i].cols == [] && ps[i].rows == 0)
    requires j < |ps| ==> (ps[j].EndOfStream? || ps[j].Exception?
                            || (ps[j].Data? && |ps[j].cols| != |bs| && (ps[j].cols != [] || ps[j].rows > 0)))
    ensures Printable(ps) && AllPass(env, bs, ps[..j])
    ensures Loop(TurnOf(env), bs, 0, PrintAll(env.fe, ps), patience)
         == if 0 <= patience <= j then Abandoned(totals[patience])
            else if j == |ps| then Broken(totals[j], ShortRead)
            else if ps[j].EndOfStream? then
              Complete(totals[j], AfterAll(env, bs, ps[..j]), PrintAll(env.fe, ps[j + 1..]))
            else if ps[j].Exception? then Raised(totals[j], PrintAll(env.fe, ps[j + 1..]))
            else Broken(totals[j], Mismatch)
  {
    var turn := TurnOf(env);
    ObeysPackets(turn, env);
    NothingToTake(turn, env);
    LoopExact(turn, env, bs, ps, j, patience);
    TotalsSum(totals, ps, j);
    if 0 <= patience <= j { TotalsSum(totals, ps, patience); }
    assert ps[..|ps|] == ps;
  }

  lemma ObeysPackets(turn: TurnFn, env: Env)
    requires Linked(turn, env)
    ensures Obeys(turn, env)
  {
    forall bs, p, tail | PacketOk(env, bs, p)
      ensures turn(bs, Print(env.fe, p) + tail) == TurnFor(env, bs, p, tail)
    {
      OnePacket(env, bs, p, tail);
    }
  }

  // ---------- the rows a Select leaves ----------

  predicate IsBlock(p: Packet) {
    p.Data? && p.rows > 0
  }

  predicate HasBlock(ps: seq<Packet>) {
    ps != [] && (IsBlock(ps[0]) || HasBlock(ps[1..]))
  }

  /** The last data block with rows. */
  function LastBlock(ps: seq<Packet>): (p: Packet)
    requires HasBlock(ps)
    ensures IsBlock(p)
  {
    if HasBlock(ps[1..]) then LastBlock(ps[1..]) else ps[0]
  }

  predicate Replaces(b: BlockCol) {
    b.LowCol? || NoFixedString(b.sh)
  }

  lemma {:induction false} NoFixedStringClean(sh: Shape, c: Cols)
    requires NoFixedString(sh) && HasForm(sh, c)
    ensures Clean(sh, c)
  {
    match sh
    case Leaf(_) =>
    case Array(e) => NoFixedStringClean(e, c.elem);
    case Map(k, v) => NoFixedStringClean(k, c.keys); NoFixedStringClean(v, c.values);
  }

  lemma {:induction false} NoBlockNoChange(env: Env, bs: seq<Bound>, ps: seq<Packet>)
    requires AllPass(env, bs, ps) && !HasBlock(ps)
    ensures AfterAll(env, bs, ps) == bs
    decreases |ps|
  {
    if ps == [] {
    } else {
      PassOn(env, bs, ps);
      NoBlockNoChange(env, bs, ps[1..]);
    }
  }

  /** A bound column without FixedString ends up with the rows of the last block that had rows, and no others. */
  lemma {:induction false} SelectLeavesLastBlock(env: Env, bs: seq<Bound>, ps: seq<Packet>, i: nat)
    requires AllPass(env, bs, ps) && HasBlock(ps) && i < |bs| && Replaces(bs[i])
    ensures |LastBlock(ps).cols| == |bs| && Sendable(LastBlock(ps).cols[i])
    ensures SameRows(AfterAll(env, bs, ps)[i], LastBlock(ps).cols[i])
    decreases |ps|
  {
    var p := ps[0];
    PassOn(env, bs, ps);
    var next := AfterPacket(env, bs, p);
    if IsBlock(p) { ReceiveAllRows(bs, p.cols, p.rows, i); }
    if HasBlock(ps[1..]) {
      SelectLeavesLastBlock(env, next, ps[1..], i);
    } else {
      NoBlockNoChange(env, next, ps[1..]);
      match bs[i]
      case Simple(_, _, sh, c) => NoFixedStringClean(sh, c);
      case NullCol(_, _, sh, n) => NoFixedStringClean(sh, n.values);
      case LowCol(_, _, _, _) =>
    }
  }
}
