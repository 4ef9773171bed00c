/** SelectStream and InsertStream: block by block, holding the connection until they are closed. */
module Streams {
  import opened Wire
  import opened Codec
  import opened LowCardinality
  import opened Blocks
  import opened Formats
  import opened Queries
  import opened Responses
  import Connections

  // ---------- the block a stream reads ----------

  /** Names, types and flags of a block without rows, as many as the block says. */
  function SkipHeads(fe: Features, n: nat, s: seq<byte>): (r: Parsed<()>)
    ensures r.Ok? ==> |r.rest| <= |s|
  {
    if n == 0 then Ok((), s)
    else
      match ReadHead(fe, s)
      case Err(f) => Err(f)
      case Ok(_, rest) => SkipHeads(fe, n - 1, rest)
  }

  function StreamColumns(fe: Features, cols: seq<Bound>, n: int, rows: int, s: seq<byte>): (p: Pulled)
    ensures !p.Halted? && (p.Skipped? ==> |p.rest| <= |s|)
  {
    if n > MAX_COLUMNS || n < 0 || rows > MAX_ROWS || rows < 0 then Error(Malformed)
    else if rows == 0 then
      (match SkipHeads(fe, n, s)
       case Err(f) => Error(f)
       case Ok(_, rest) => Skipped(rest))
    else if |cols| != n then Unfit(s)
    else
      match ReadColumns(fe, cols, rows, s)
      case Err(f) => Error(f)
      case Ok(cs, rest) => Block(cs, rows, rest)
  }

  /** A data packet in Next: unlike handleDataBlock, a block without rows may have any number of columns. */
  function StreamBlock(fe: Features, cols: seq<Bound>, s: seq<byte>): (p: Pulled)
    ensures !p.Halted? && (p.Skipped? ==> |p.rest| <= |s|)
  {
    match ReadPrefix(fe, s)
    case Err(f) => Error(f)
    case Ok(_, s1) =>
      match ReadCounts(s1)
      case Err(f) => Error(f)
      case Ok((n, rows), s2) => StreamColumns(fe, cols, n, rows, s2)
  }

  lemma {:induction false} HeadsSkipped(fe: Features, cs: seq<BlockCol>, tail: seq<byte>)
    requires AllSendable(cs, 0)
    ensures SkipHeads(fe, |cs|, ColumnsBytes(fe, cs, 0) + tail) == Ok((), tail)
  {
    if cs == [] {
      assert [] + tail == tail;
    } else {
      var p, ps := ColumnBytes(fe, cs[0], 0), ColumnsBytes(fe, cs[1..], 0);
      Assoc(p, ps, tail);
      HeadRoundTrip(fe, cs[0], [], ps + tail);
      assert [] + (ps + tail) == ps + tail;
      HeadsSkipped(fe, cs[1..], tail);
    }
  }

  /**
   What Next makes of a frame written with the same treatment of column state: Append's frames in
   particular. When the number of columns does not fit, the columns are left unread.
   */
  lemma StreamFrame(fe: Features, bs: seq<Bound>, table: seq<byte>, info: seq<Field>,
                    cs: seq<BlockCol>, rows: nat, tail: seq<byte>)
    requires AllSendable(cs, rows) && PrefixOk(table, info)
    requires rows > 0 && |bs| == |cs| ==> AllSameKind(bs, cs) && AllIntact(fe, cs)
    ensures StreamBlock(fe, bs, Frame(fe, table, info, cs, rows) + tail)
         == if !WithinLimits(cs, rows) then Error(Malformed)
            else if rows == 0 then Skipped(tail)
            else if |bs| != |cs| then Unfit(ColumnsBytes(fe, cs, rows) + tail)
            else Block(After(bs, cs, rows), rows, tail)
  {
    StreamStart(fe, bs, table, info, cs, rows, tail);
    StreamBody(fe, bs, cs, rows, tail);
  }

  lemma StreamStart(fe: Features, bs: seq<Bound>, table: seq<byte>, info: seq<Field>,
                    cs: seq<BlockCol>, rows: nat, tail: seq<byte>)
    requires AllSendable(cs, rows) && PrefixOk(table, info)
    ensures StreamBlock(fe, bs, Frame(fe, table, info, cs, rows) + tail)
         == StreamColumns(fe, bs, |cs|, rows, ColumnsBytes(fe, cs, rows) + tail)
  {
    var a: seq<byte> := if fe.tempTables then PutStr(table) else [];
    var b: seq<byte> := if fe.blockInfo then PutInfo(info) else [];
    var m, n, body := UVarint(|cs|), UVarint(rows), ColumnsBytes(fe, cs, rows);
    Assoc(a, b + (m + (n + body)), tail);
    Assoc(b, m + (n + body), tail);
    Assoc(m, n + body, tail);
    Assoc(n, body, tail);
    PrefixRoundTrip(fe, table, info, m + (n + (body + tail)));
    CountsRoundTrip(|cs|, rows, body + tail);
  }

  lemma StreamBody(fe: Features, bs: seq<Bound>, cs: seq<BlockCol>, rows: nat, tail: seq<byte>)
    requires AllSendable(cs, rows) && (rows > 0 && |bs| == |cs| ==> AllSameKind(bs, cs) && AllIntact(fe, cs))
    ensures StreamColumns(fe, bs, |cs|, rows, ColumnsBytes(fe, cs, rows) + tail)
         == if !WithinLimits(cs, rows) then Error(Malformed)
            else if rows == 0 then Skipped(tail)
            else if |bs| != |cs| then Unfit(ColumnsBytes(fe, cs, rows) + tail)
            else Block(After(bs, cs, rows), rows, tail)
  {
    if rows == 0 {
      HeadsSkipped(fe, cs, tail);
    } else if |bs| == |cs| && WithinLimits(cs, rows) {
      ColumnsRoundTrip(fe, bs, cs, rows, tail);
    }
  }

  /** A column of a frame with column state, read by a stream: always refused for LowCardinality, else read. */
  lemma StreamReadsState(fe: Features, b: Bound, c: BlockCol, rows: nat, tail: seq<byte>)
    requires Sendable(c) && SameKind(b, c) && 0 < rows <= MAX_ROWS && RowCount(c) == rows
    requires fe.columnState && Intact(fe, c)
    ensures ReadColumn(fe.(columnState := false), b, rows, ColumnBytes(fe, c, rows) + tail)
         == if c.LowCol? then Err(Malformed) else Ok(Receive(b, c), tail)
  {
    var stream := fe.(columnState := false);
    HeadRoundTrip(stream, c, Body(fe, c), tail);
    if c.LowCol? {
      Assoc(LE(VERSION, 8), LCEncode(c.k, View(c.lc)), tail);
      StateMisread(b.k, b.lc, rows, LCEncode(c.k, View(c.lc)) + tail);
    } else {
      DataRoundTrip(stream, b, c, tail);
    }
  }

  /** The state is not a LowCardinality block. */
  lemma StateMisread(k: Kind, lc: LC, rows: nat, data: seq<byte>)
    requires IsKeyKind(k) && rows > 0
    ensures LCDecode(k, lc, rows, LE(VERSION, 8) + data) == Err(Malformed)
  {
    Pow8();
    LEReadBack(VERSION, 8, data);
    assert !Bit(VERSION, 0x200);
  }

  /** Streams read the columns of a block with column state exactly when none is a LowCardinality column. */
  lemma {:induction false} StreamNeedsStateless(fe: Features, bs: seq<Bound>, cs: seq<BlockCol>, rows: nat,
                                                tail: seq<byte>)
    requires AllSameKind(bs, cs) && AllSendable(cs, rows) && 0 < rows <= MAX_ROWS
    requires fe.columnState && AllIntact(fe, cs)
    ensures ReadColumns(fe.(columnState := false), bs, rows, ColumnsBytes(fe, cs, rows) + tail)
         == if exists i :: 0 <= i < |cs| && cs[i].LowCol? then Err(Malformed) else Ok(After(bs, cs, rows), tail)
  {
    if bs == [] {
      assert [] + tail == tail;
    } else {
      var bs', cs' := bs[1..], cs[1..];
      var p, ps := ColumnBytes(fe, cs[0], rows), ColumnsBytes(fe, cs', rows);
      Assoc(p, ps, tail);
      StreamReadsState(fe, bs[0], cs[0], rows, ps + tail);
      StreamNeedsStateless(fe, bs', cs', rows, tail);
      SomeLow(cs);
    }
  }

  lemma SomeLow(cs: seq<BlockCol>)
    requires cs != []
    ensures (exists i :: 0 <= i < |cs| && cs[i].LowCol?)
            <==> cs[0].LowCol? || exists i :: 0 <= i < |cs[1..]| && cs[1..][i].LowCol?
  {
    if i :| 0 < i < |cs| && cs[i].LowCol? { assert cs[1..][i - 1].LowCol?; }
  }

  // ---------- Next ----------

  /** Next reads TableColumns packets, which Select does not. */
  function PullPacket(env: Env, cols: seq<Bound>, code: nat, s: seq<byte>): (p: Pulled)
    ensures !p.Halted? && (p.Skipped? ==> |p.rest| <= |s|)
  {
    if code == DATA then StreamBlock(env.fe, cols, s)
    else if code == END_OF_STREAM then Ended(s)
    else if code == EXCEPTION then
      (match SkipBody(env.exception, s)
       case Err(f) => Error(f)
       case Ok(_, rest) => Thrown(rest))
    else
      (match (if code == TABLE_COLUMNS then SkipBody(env.columns, s) else SkipPacket(env, code, s))
       case Err(f) => Error(f)
       case Ok(_, rest) => Skipped(rest))
  }

  function PullTurn(env: Env, cols: seq<Bound>, s: seq<byte>): (p: Pulled)
    ensures !p.Halted? && (p.Skipped? ==> |p.rest| < |s|)
  {
    match ReadUVarint(s)
    case Err(f) => Error(f)
    case Ok(v, rest) => PullPacket(env, cols, v % 256, rest)
  }

  ghost predicate Pulls(pull: PullFn, env: Env, cols: seq<Bound>) {
    forall s {:trigger PullTurn(env, cols, s)} :: pull(s) == PullTurn(env, cols, s)
  }

  function PullOf(env: Env, cols: seq<Bound>): (pull: PullFn)
    ensures Moves(pull) && Pulls(pull, env, cols)
  {
    s => PullTurn(env, cols, s)
  }

  /** A well-formed packet for a stream with these bound columns. */
  ghost predicate StreamOk(env: Env, bs: seq<Bound>, p: Packet)
    ensures StreamOk(env, bs, p) ==> Prints(p)
  {
    if p.TableColumns? then Delimited(env.columns, p.body) else PacketOk(env, bs, p)
  }

  /** A packet Next passes over. */
  predicate Quiet(p: Packet) {
    !p.EndOfStream? && !p.Exception? && (p.Data? ==> p.rows == 0)
  }

  /** What Next makes of a packet. */
  ghost function PullFor(env: Env, bs: seq<Bound>, p: Packet, tail: seq<byte>): Pulled
    requires StreamOk(env, bs, p)
  {
    if p.EndOfStream? then Ended(tail)
    else if p.Exception? then Thrown(tail)
    else if Quiet(p) then Skipped(tail)
    else if |p.cols| != |bs| then Unfit(ColumnsBytes(env.fe, p.cols, p.rows) + tail)
    else Block(After(bs, p.cols, p.rows), p.rows, tail)
  }

  lemma OnePull(env: Env, bs: seq<Bound>, p: Packet, tail: seq<byte>)
    requires StreamOk(env, bs, p)
    ensures PullTurn(env, bs, Print(env.fe, p) + tail) == PullFor(env, bs, p, tail)
  {
    if p.Data? {
      CodeRead(DATA, Frame(env.fe, p.table, p.info, p.cols, p.rows), tail);
      StreamFrame(env.fe, bs, p.table, p.info, p.cols, p.rows, tail);
    } else if p.RawBlock? {
      PullRaw(env, bs, p, tail);
    } else if p.EndOfStream? {
      EndRead(env.fe, p, tail);
    } else if p.Progress? || p.Profile? {
      PullBody(env, bs, p, tail);
    } else {
      PullOther(env, bs, p, tail);
    }
  }

  lemma PullRaw(env: Env, bs: seq<Bound>, p: Packet, tail: seq<byte>)
    requires StreamOk(env, bs, p) && p.RawBlock?
    ensures PullTurn(env, bs, Print(env.fe, p) + tail) == Skipped(tail)
  {
    RawRead(env, p, tail);
  }

  lemma PullBody(env: Env, bs: seq<Bound>, p: Packet, tail: seq<byte>)
    requires StreamOk(env, bs, p) && (p.Progress? || p.Profile?)
    ensures PullTurn(env, bs, Print(env.fe, p) + tail) == Skipped(tail)
  {
    match p
    case Progress(body) => BodyRead(env.progress, PROGRESS, body, tail);
    case Profile(body) => BodyRead(env.profile, PROFILE, body, tail);
  }

  lemma PullOther(env: Env, bs: seq<Bound>, p: Packet, tail: seq<byte>)
    requires StreamOk(env, bs, p) && (p.TableColumns? || p.Exception?)
    ensures PullTurn(env, bs, Print(env.fe, p) + tail) == if p.Exception? then Thrown(tail) else Skipped(tail)
  {
    match p
    case TableColumns(body) => BodyRead(env.columns, TABLE_COLUMNS, body, tail);
    case Exception(body) => BodyRead(env.exception, EXCEPTION, body, tail);
  }

  /** Quiet packets are passed over, up to one that is not or until the context is done. */
  lemma PullExact(env: Env, bs: seq<Bound>, ps: seq<Packet>, p: Packet, more: seq<byte>, patience: int)
    requires forall i :: 0 <= i < |ps| ==> StreamOk(env, bs, ps[i]) && Quiet(ps[i])
    requires StreamOk(env, bs, p) && !Quiet(p)
    ensures Printable(ps)
    ensures Pull(PullOf(env, bs), PrintAll(env.fe, ps) + (Print(env.fe, p) + more), patience)
         == if 0 <= patience <= |ps| then Halted(PrintAll(env.fe, ps[patience..]) + (Print(env.fe, p) + more))
            else PullFor(env, bs, p, more)
  {
    var pull, ok := PullOf(env, bs), q => StreamOk(env, bs, q);
    var answer := (q, tail) => if StreamOk(env, bs, q) then PullFor(env, bs, q, tail) else Error(Malformed);
    forall q, tail | ok(q)
      ensures Prints(q) && pull(Print(env.fe, q) + tail) == answer(q, tail)
    {
      OnePull(env, bs, q, tail);
      assert pull(Print(env.fe, q) + tail) == PullTurn(env, bs, Print(env.fe, q) + tail);
    }
    if 0 <= patience <= |ps| {
      PullHalts(pull, env.fe, ok, answer, ps, Print(env.fe, p) + more, patience);
    } else {
      PullOver(pull, env.fe, ok, answer, ps, p, more, patience);
    }
  }

  // ---------- packets the loops do not know or cannot read ----------

  /** Insert's loop refuses a code it does not know; the others read on right behind it, Select also behind 11. */
  lemma UnknownCode(w: Waiter, env: Env, cols: seq<Bound>, code: nat, s: seq<byte>)
    requires code !in {1, 2, 3, 5, 6, 7, 8, 10, 11, 14}
    ensures TakePacket(env, cols, code, s) == TakePacket(env, cols, 11, s) == Continue(cols, 0, s)
    ensures PullPacket(env, cols, code, s) == Skipped(s)
    ensures WaitPacket(w, env, code, s) == if w == Inserted then Error(Malformed) else Skipped(s)
  {
  }

  /** A server code is the low byte of the number read. */
  lemma CodeIsAByte(w: Waiter, env: Env, cols: seq<Bound>, v: nat, s: seq<byte>)
    requires v < TWO64
    ensures TakeTurn(env, cols, UVarint(v) + s) == TakePacket(env, cols, v % 256, s)
    ensures PullTurn(env, cols, UVarint(v) + s) == PullPacket(env, cols, v % 256, s)
    ensures WaitTurn(w, env, UVarint(v) + s) == WaitPacket(w, env, v % 256, s)
  {
    VarintRoundTrip(v, s);
  }

  /** A body its decoder fails on, or takes more of than there is, ends every loop. */
  lemma Unreadable(w: Waiter, env: Env, cols: seq<Bound>, code: nat, f: BodyDecoder, s: seq<byte>)
    requires (code == 2 && f == env.exception) || (code == 3 && f == env.progress)
          || (code == 6 && f == env.profile) || (code == 11 && f == env.columns)
    requires f(s) < 0 || f(s) > |s|
    ensures code != 11 ==> TakePacket(env, cols, code, s) == Fail(Malformed)
    ensures PullPacket(env, cols, code, s) == Error(Malformed)
    ensures WaitPacket(w, env, code, s) == Error(Malformed)
  {
    assert SkipBody(f, s) == Err(Malformed);
  }

  // ---------- a whole stream ----------

  /** Where a SelectStream stands: bound columns, unread input, rows so far, and whether and how it ended. */
  datatype Cursor =
    Cursor(cols: seq<Bound>, bound: bool, rest: seq<byte>, rows: nat, done: bool, failed: Outcome<()>)

  /** What a call of Next does with what its loop came to. Where the unread input is not tracked, rest is empty. */
  function Fetched(env: Env, c: Cursor, p: Pulled): Cursor {
    match p
    case Block(cs, n, rest) => c.(cols := cs, rest := rest, rows := c.rows + n)
    case Thrown(rest) => c.(rest := rest, done := true, failed := Failed(Server))
    case Unfit(rest) => c.(rest := rest, done := true, failed := Failed(Mismatch))
    case Halted(rest) =>
      var q := Pull(WaitOf(Cancelling, env), rest, -1);
      c.(rest := if q.Ended? then q.rest else [], done := true, failed := Failed(Canceled))
    case Error(f) => c.(rest := [], done := true, failed := Failed(f))
    case _ => c.(rest := p.rest, done := true)
  }

  /** One call of Next. */
  function Fetch(env: Env, c: Cursor, patience: int): Cursor {
    if c.done then c
    else if !c.bound then c.(done := true, failed := Failed(Malformed))
    else Fetched(env, c, Pull(PullOf(env, c.cols), c.rest, patience))
  }

  /** Next reads packets until its context is done. */
  predicate Halts(env: Env, c: Cursor, patience: int) {
    !c.done && c.bound && Pull(PullOf(env, c.cols), c.rest, patience).Halted?
  }

  /** The unread input after the call is tracked. */
  predicate Tracked(env: Env, c: Cursor, patience: int) {
    c.done || !c.bound
    || (match Pull(PullOf(env, c.cols), c.rest, patience)
        case Error(_) => false
        case Halted(rest) => Pull(WaitOf(Cancelling, env), rest, -1).Ended?
        case _ => true)
  }

  /**
   A call of Next on well-formed packets, framed as Append frames them. Everything up to the next block
   with rows, EndOfStream or Exception is passed over. It hands over that block's rows and leaves the
   input right behind it; it ends the stream without an error at EndOfStream and with the server's at
   an Exception, right behind either; a block with another number of columns is refused with its columns
   unread. A context that is done before that ends the stream, and exactly then Cancel is sent.
   */
  lemma NextExact(env: Env, c: Cursor, ps: seq<Packet>, p: Packet, more: seq<byte>, patience: int)
    requires c.bound && !c.done
    requires forall i :: 0 <= i < |ps| ==> StreamOk(env, c.cols, ps[i]) && !ps[i].EndOfStream? && !ps[i].Exception?
    requires forall i :: 0 <= i < |ps| && ps[i].Data? ==> ps[i].rows == 0
    requires StreamOk(env, c.cols, p) && (p.EndOfStream? || p.Exception? || (p.Data? && p.rows > 0))
    requires Printable(ps) && c.rest == PrintAll(env.fe, ps) + (Print(env.fe, p) + more)
    ensures Halts(env, c, patience) <==> 0 <= patience <= |ps|
    ensures Tracked(env, c, patience) || 0 <= patience <= |ps|
    ensures var n := Fetch(env, c, patience);
            if 0 <= patience <= |ps| then n == c.(rest := n.rest, done := true, failed := Failed(Canceled))
            else if p.EndOfStream? then n == c.(rest := more, done := true)
            else if p.Exception? then n == c.(rest := more, done := true, failed := Failed(Server))
            else if |p.cols| != |c.cols| then
              n == c.(rest := ColumnsBytes(env.fe, p.cols, p.rows) + more, done := true, failed := Failed(Mismatch))
            else n == c.(cols := After(c.cols, p.cols, p.rows), rest := more, rows := c.rows + p.rows)
  {
    PullExact(env, c.cols, ps, p, more, patience);
    if 0 <= patience <= |ps| {
      FetchHalted(env, c, patience, PrintAll(env.fe, ps[patience..]) + (Print(env.fe, p) + more));
    } else {
      FetchPulled(env, c, patience, PullFor(env, c.cols, p, more));
      FetchedFor(env, c, p, more);
    }
  }

  lemma FetchHalted(env: Env, c: Cursor, patience: int, left: seq<byte>)
    requires c.bound && !c.done && Pull(PullOf(env, c.cols), c.rest, patience) == Halted(left)
    ensures Halts(env, c, patience)
    ensures var n := Fetch(env, c, patience); n == c.(rest := n.rest, done := true, failed := Failed(Canceled))
  {
  }

  lemma FetchPulled(env: Env, c: Cursor, patience: int, q: Pulled)
    requires c.bound && !c.done && q == Pull(PullOf(env, c.cols), c.rest, patience)
    ensures Fetch(env, c, patience) == Fetched(env, c, q)
    ensures (Halts(env, c, patience) <==> q.Halted?) && (Tracked(env, c, patience) || q.Halted? || q.Error?)
  {
  }

  /** A packet that cannot be read ends the stream with that error. */
  lemma FetchBroken(env: Env, c: Cursor, patience: int, f: Fault)
    requires c.bound && !c.done && Pull(PullOf(env, c.cols), c.rest, patience) == Error(f)
    ensures Fetch(env, c, patience) == c.(rest := [], done := true, failed := Failed(f))
  {
  }

  lemma FetchedFor(env: Env, c: Cursor, p: Packet, more: seq<byte>)
    requires StreamOk(env, c.cols, p) && !Quiet(p)
    ensures var q := PullFor(env, c.cols, p, more);
            && !q.Halted? && !q.Error?
            && Fetched(env, c, q)
            == if p.EndOfStream? then c.(rest := more, done := true)
               else if p.Exception? then c.(rest := more, done := true, failed := Failed(Server))
               else if |p.cols| != |c.cols| then
                 c.(rest := ColumnsBytes(env.fe, p.cols, p.rows) + more, done := true, failed := Failed(Mismatch))
               else c.(cols := After(c.cols, p.cols, p.rows), rest := more, rows := c.rows + p.rows)
  {
  }

  function Fetches(env: Env, c: Cursor, n: nat): Cursor
    decreases n
  {
    if n == 0 then c else Fetches(env, Fetch(env, c, -1), n - 1)
  }

  /** What Close leaves unread: a stream that is not done is cancelled and drained first. */
  function Drained(env: Env, c: Cursor): Pulled {
    if c.done then Ended(c.rest) else Pull(WaitOf(Cancelling, env), c.rest, -1)
  }

  /** A well-formed packet within a stream; only its number of columns may not fit. */
  ghost predicate Inside(env: Env, bs: seq<Bound>, p: Packet)
    ensures Inside(env, bs, p) ==> Prints(p)
  {
    StreamOk(env, bs, p) && WaitOk(env, p) && !p.EndOfStream? && !p.Exception?
  }

  lemma InsideAfter(env: Env, bs: seq<Bound>, p: Packet, q: Packet)
    requires Inside(env, bs, p) && IsBlock(p) && |p.cols| == |bs| && Inside(env, bs, q)
    ensures Inside(env, After(bs, p.cols, p.rows), q)
  {
    if IsBlock(q) { ReceiveAllKind(bs, p.cols, p.rows, q.cols); }
  }

  /** Next on a packet it ends at. */
  lemma FetchStop(env: Env, c: Cursor, p: Packet, tail: seq<byte>)
    requires StreamOk(env, c.cols, p) && !Quiet(p) && c.rest == Print(env.fe, p) + tail
    ensures Pull(PullOf(env, c.cols), c.rest, -1) == PullFor(env, c.cols, p, tail)
  {
    OnePull(env, c.cols, p, tail);
    PullOnce(env, c.cols, c.rest);
  }

  /** Next passes over a quiet packet. */
  lemma FetchSkip(env: Env, c: Cursor, p: Packet, tail: seq<byte>)
    requires StreamOk(env, c.cols, p) && Quiet(p) && c.rest == Print(env.fe, p) + tail
    ensures Pull(PullOf(env, c.cols), c.rest, -1) == Pull(PullOf(env, c.cols), tail, -1)
  {
    var pull := PullOf(env, c.cols);
    OnePull(env, c.cols, p, tail);
    assert pull(c.rest) == PullTurn(env, c.cols, c.rest);
    Patient(pull, tail, -2, -1);
  }

  lemma {:induction false} FetchesDone(env: Env, c: Cursor, n: nat)
    requires c.done
    ensures Fetches(env, c, n) == c
  {
    if n == 0 {
    } else {
      FetchesDone(env, c, n - 1);
    }
  }

  /** How many of the packets are blocks with rows. */
  function BlocksIn(ps: seq<Packet>): nat {
    if ps == [] then 0 else (if IsBlock(ps[0]) then 1 else 0) + BlocksIn(ps[1..])
  }

  /** None of the first n blocks with rows has another number of columns. */
  ghost predicate FirstFit(width: nat, ps: seq<Packet>, n: nat) {
    forall i :: 0 <= i < |ps| && IsBlock(ps[i]) && BlocksIn(ps[..i]) < n ==> |ps[i].cols| == width
  }

  lemma FirstFitStep(width: nat, ps: seq<Packet>, n: nat)
    requires ps != [] && n > 0
    ensures FirstFit(width, ps, n)
            <==> if IsBlock(ps[0]) then |ps[0].cols| == width && FirstFit(width, ps[1..], n - 1)
                 else FirstFit(width, ps[1..], n)
  {
    var tail, m := ps[1..], if IsBlock(ps[0]) then n - 1 else n;
    assert BlocksIn(ps[..0]) == 0;
    forall i | 0 <= i < |tail|
      ensures tail[i] == ps[i + 1] && (BlocksIn(tail[..i]) < m <==> BlocksIn(ps[..i + 1]) < n)
    {
      assert ps[..i + 1][1..] == tail[..i];
    }
    if FirstFit(width, ps, n) {
      forall i | 0 <= i < |tail| && IsBlock(tail[i]) && BlocksIn(tail[..i]) < m
        ensures |tail[i].cols| == width
      {
        assert IsBlock(ps[i + 1]);
      }
    }
    if FirstFit(width, tail, m) && (IsBlock(ps[0]) ==> |ps[0].cols| == width) {
      forall i | 0 <= i < |ps| && IsBlock(ps[i]) && BlocksIn(ps[..i]) < n
        ensures |ps[i].cols| == width
      {
        if i > 0 { assert IsBlock(tail[i - 1]); }
      }
    }
  }

  /** What a response ends with: EndOfStream, or an Exception. */
  ghost predicate Final(env: Env, p: Packet) {
    (p.EndOfStream? || p.Exception?) && WaitOk(env, p)
  }

  /** The unread input is these packets, then the last one of the response, then more. */
  ghost predicate Ahead(env: Env, c: Cursor, ps: seq<Packet>, last: Packet, more: seq<byte>) {
    && !c.done && Printable(ps) && (forall i :: 0 <= i < |ps| ==> Inside(env, c.cols, ps[i]))
    && Final(env, last) && c.rest == PrintAll(env.fe, ps) + (Print(env.fe, last) + more)
  }

  /** The cursor behind a quiet packet, or behind a block that Next hands over. */
  function Behind(c: Cursor, p: Packet, rest: seq<byte>): Cursor
    requires IsBlock(p) ==> |c.cols| == |p.cols| && AllSendable(p.cols, p.rows) && AllSameKind(c.cols, p.cols)
  {
    if IsBlock(p) then c.(cols := After(c.cols, p.cols, p.rows), rest := rest, rows := c.rows + p.rows)
    else c.(rest := rest)
  }

  /** What follows the first packet. */
  ghost function Rest(env: Env, ps: seq<Packet>, last: Packet, more: seq<byte>): seq<byte>
    requires Printable(ps) && ps != [] && Final(env, last)
  {
    PrintAll(env.fe, ps[1..]) + (Print(env.fe, last) + more)
  }

  lemma AheadNext(env: Env, c: Cursor, ps: seq<Packet>, last: Packet, more: seq<byte>)
    requires Ahead(env, c, ps, last, more) && ps != []
    ensures Inside(env, c.cols, ps[0]) && c.rest == Print(env.fe, ps[0]) + Rest(env, ps, last, more)
    ensures (IsBlock(ps[0]) && |ps[0].cols| != |c.cols|)
            || Ahead(env, Behind(c, ps[0], Rest(env, ps, last, more)), ps[1..], last, more)
  {
    PrintFirst(env.fe, ps, Print(env.fe, last) + more);
    if !IsBlock(ps[0]) || |ps[0].cols| == |c.cols| {
      var next := Behind(c, ps[0], Rest(env, ps, last, more));
      forall i | 0 <= i < |ps[1..]|
        ensures Inside(env, next.cols, ps[1..][i])
      {
        if IsBlock(ps[0]) { InsideAfter(env, c.cols, ps[0], ps[i + 1]); }
      }
    }
  }

  lemma FetchesOn(env: Env, c: Cursor, p: Packet, rest: seq<byte>, n: nat)
    requires Inside(env, c.cols, p) && c.rest == Print(env.fe, p) + rest && n > 0
    requires c.bound && !c.done && (IsBlock(p) ==> |p.cols| == |c.cols|)
    ensures Fetches(env, c, n) == Fetches(env, Behind(c, p, rest), if Quiet(p) then n else n - 1)
  {
    if Quiet(p) {
      FetchSkip(env, c, p, rest);
      FetchesSkip(env, c, rest, n);
    } else {
      FetchesOver(env, c, p, rest, n);
    }
  }

  lemma FetchesOver(env: Env, c: Cursor, p: Packet, rest: seq<byte>, n: nat)
    requires Inside(env, c.cols, p) && c.rest == Print(env.fe, p) + rest && n > 0
    requires c.bound && !c.done && IsBlock(p) && |p.cols| == |c.cols|
    ensures Fetches(env, c, n) == Fetches(env, Behind(c, p, rest), n - 1)
  {
    FetchOver(env, c, p, rest);
    FetchesNext(env, c, Behind(c, p, rest), n);
  }

  lemma FetchOver(env: Env, c: Cursor, p: Packet, rest: seq<byte>)
    requires Inside(env, c.cols, p) && c.rest == Print(env.fe, p) + rest
    requires c.bound && !c.done && IsBlock(p) && |p.cols| == |c.cols|
    ensures Fetch(env, c, -1) == Behind(c, p, rest)
  {
    FetchStop(env, c, p, rest);
    FetchBlock(env, c, After(c.cols, p.cols, p.rows), p.rows, rest);
  }

  lemma FetchesSkip(env: Env, c: Cursor, rest: seq<byte>, n: nat)
    requires c.bound && !c.done && n > 0
    requires Pull(PullOf(env, c.cols), c.rest, -1) == Pull(PullOf(env, c.cols), rest, -1)
    ensures Fetches(env, c, n) == Fetches(env, c.(rest := rest), n)
  {
    var next := Fetch(env, c, -1);
    FetchesNext(env, c, next, n);
    FetchesNext(env, c.(rest := rest), next, n);
  }

  lemma FetchBlock(env: Env, c: Cursor, cols: seq<Bound>, rows: nat, rest: seq<byte>)
    requires c.bound && !c.done && Pull(PullOf(env, c.cols), c.rest, -1) == Block(cols, rows, rest)
    ensures Fetch(env, c, -1) == c.(cols := cols, rest := rest, rows := c.rows + rows)
  {
  }

  lemma FetchesNext(env: Env, c: Cursor, next: Cursor, n: nat)
    requires n > 0 && Fetch(env, c, -1) == next
    ensures Fetches(env, c, n) == Fetches(env, next, n - 1)
  {
  }

  /** A block whose number of columns does not fit is left unread, and so is all that follows it. */
  lemma FetchesUnfit(env: Env, c: Cursor, p: Packet, rest: seq<byte>, n: nat)
    requires Inside(env, c.cols, p) && c.rest == Print(env.fe, p) + rest && n > 0
    requires c.bound && !c.done && IsBlock(p) && |p.cols| != |c.cols|
    ensures Fetches(env, c, n)
         == c.(rest := ColumnsBytes(env.fe, p.cols, p.rows) + rest, done := true, failed := Failed(Mismatch))
  {
    FetchStop(env, c, p, rest);
    FetchUnfit(env, c, n, ColumnsBytes(env.fe, p.cols, p.rows) + rest);
  }

  lemma FetchUnfit(env: Env, c: Cursor, n: nat, left: seq<byte>)
    requires c.bound && !c.done && n > 0 && Pull(PullOf(env, c.cols), c.rest, -1) == Unfit(left)
    ensures Fetches(env, c, n) == c.(rest := left, done := true, failed := Failed(Mismatch))
  {
    var end := c.(rest := left, done := true, failed := Failed(Mismatch));
    FetchesNext(env, c, end, n);
    FetchesDone(env, end, n - 1);
  }

  /** The stream is done at the last packet of the response: without an error at EndOfStream only. */
  lemma FetchesEnd(env: Env, c: Cursor, last: Packet, more: seq<byte>, n: nat)
    requires Ahead(env, c, [], last, more) && c.bound && n > 0
    ensures Fetches(env, c, n)
         == c.(rest := more, done := true, failed := if last.Exception? then Failed(Server) else c.failed)
  {
    var left, end := Print(env.fe, last) + more, Fetch(env, c, -1);
    assert [] + left == left;
    FetchStop(env, c, last, more);
    FetchesNext(env, c, end, n);
    FetchesDone(env, end, n - 1);
  }

  lemma FetchesUnbound(env: Env, c: Cursor, n: nat)
    requires !c.done && !c.bound && n > 0
    ensures Fetches(env, c, n) == c.(done := true, failed := Failed(Malformed))
  {
    var end := c.(done := true, failed := Failed(Malformed));
    FetchesNext(env, c, end, n);
    FetchesDone(env, end, n - 1);
  }

  // ---------- Close behind n calls of Next ----------

  /** The draining loop passes over the packets of a response, also over an Exception. */
  lemma {:induction false} DrainOver(env: Env, ps: seq<Packet>, more: seq<byte>)
    requires forall i :: 0 <= i < |ps| ==> WaitOk(env, ps[i]) && !StopsWait(Cancelling, ps[i])
    ensures Printable(ps)
    ensures Pull(WaitOf(Cancelling, env), PrintAll(env.fe, ps) + more, -1) == Pull(WaitOf(Cancelling, env), more, -1)
  {
    if ps == [] {
      assert [] + more == more;
    } else {
      DrainOver(env, ps[1..], more);
      PrintFirst(env.fe, ps, more);
      DrainFirst(env, ps[0], PrintAll(env.fe, ps[1..]) + more);
    }
  }

  lemma DrainFirst(env: Env, p: Packet, rest: seq<byte>)
    requires WaitOk(env, p) && !StopsWait(Cancelling, p)
    ensures Pull(WaitOf(Cancelling, env), Print(env.fe, p) + rest, -1) == Pull(WaitOf(Cancelling, env), rest, -1)
  {
    var pull, s := WaitOf(Cancelling, env), Print(env.fe, p) + rest;
    WaitForPacket(Cancelling, env, p, rest);
    assert pull(s) == WaitTurn(Cancelling, env, s);
    Patient(pull, rest, -2, -1);
  }

  /** Draining ends behind an EndOfStream, and so not where it started. */
  lemma {:induction false} DrainShrinks(env: Env, s: seq<byte>, patience: int)
    ensures var p := Pull(WaitOf(Cancelling, env), s, patience); p.Ended? ==> |p.rest| < |s|
    decreases |s|
  {
    var pull := WaitOf(Cancelling, env);
    assert pull(s) == WaitTurn(Cancelling, env, s);
    if patience != 0 && pull(s).Skipped? { DrainShrinks(env, pull(s).rest, patience - 1); }
  }

  /** A stream closed before Next was called. */
  lemma ClosedAtOnce(env: Env, c: Cursor, ps: seq<Packet>, last: Packet, more: seq<byte>)
    requires Ahead(env, c, ps, last, more)
    ensures Drained(env, c) == Ended(more) <==> last.EndOfStream?
  {
    if last.EndOfStream? {
      WaitExact(Cancelling, env, c.rest, ps, last, more, -1);
    } else {
      DrainOver(env, ps, Print(env.fe, last) + more);
      DrainFirst(env, last, more);
      DrainShrinks(env, more, -1);
    }
  }

  /** After n calls of Next on such a response, Close leaves the input right behind it. */
  ghost predicate ClosesClean(c: Cursor, ps: seq<Packet>, last: Packet, n: nat) {
    if last.EndOfStream? then n == 0 || (c.bound && FirstFit(|c.cols|, ps, n))
    else c.bound && FirstFit(|c.cols|, ps, n) && BlocksIn(ps) < n
  }

  /**
   Over any response of well-formed packets that ends with EndOfStream or an Exception: after n calls
   of Next, Close leaves the input right behind it, so that the connection it gives back starts its
   next statement on a clean input, if and only if columns were bound, none of the first n blocks with
   rows has another number of columns and, when it ends with an Exception, Next got as far as that. A
   response that ends with EndOfStream is left clean also when Next was not called at all. Then no
   call of Next failed, other than by the Exception.
   */
  lemma {:induction false} ClosedClean(env: Env, c: Cursor, ps: seq<Packet>, last: Packet, more: seq<byte>, n: nat)
    requires Ahead(env, c, ps, last, more)
    ensures Drained(env, Fetches(env, c, n)) == Ended(more) <==> ClosesClean(c, ps, last, n)
    ensures Drained(env, Fetches(env, c, n)) == Ended(more)
            ==> Fetches(env, c, n).failed == if last.Exception? then Failed(Server) else c.failed
    decreases |ps|
  {
    if n == 0 {
      ClosedAtOnce(env, c, ps, last, more);
    } else if !c.bound {
      FetchesUnbound(env, c, n);
      assert |c.rest| > |more|;
    } else if ps == [] {
      FetchesEnd(env, c, last, more, n);
    } else {
      FirstFitStep(|c.cols|, ps, n);
      ClosedStep(env, c, ps, last, more, n);
      var p := ps[0];
      if !IsBlock(p) || |p.cols| == |c.cols| {
        AheadNext(env, c, ps, last, more);
        ClosedClean(env, Behind(c, p, Rest(env, ps, last, more)), ps[1..], last, more, if Quiet(p) then n else n - 1);
      }
    }
  }

  /** The first packet: passed over or handed over, or the end of it. */
  lemma ClosedStep(env: Env, c: Cursor, ps: seq<Packet>, last: Packet, more: seq<byte>, n: nat)
    requires Ahead(env, c, ps, last, more) && ps != [] && c.bound && n > 0
    ensures Inside(env, c.cols, ps[0])
    ensures if IsBlock(ps[0]) && |ps[0].cols| != |c.cols| then Drained(env, Fetches(env, c, n)) != Ended(more)
            else
              var m := if Quiet(ps[0]) then n else n - 1;
              Fetches(env, c, n) == Fetches(env, Behind(c, ps[0], Rest(env, ps, last, more)), m)
  {
    var p, rest := ps[0], Rest(env, ps, last, more);
    AheadNext(env, c, ps, last, more);
    if IsBlock(p) && |p.cols| != |c.cols| {
      FetchesUnfit(env, c, p, rest, n);
      assert |ColumnsBytes(env.fe, p.cols, p.rows) + rest| > |more|;
    } else {
      FetchesOn(env, c, p, rest, n);
    }
  }

  /** Next before Bind, then Close: the whole response is still unread. */
  lemma UnboundUnread(env: Env)
    ensures var c := Cursor([], false, Print(env.fe, EndOfStream), 0, false, Done(()));
            Drained(env, Fetches(env, c, 1)) == Ended([END_OF_STREAM])
  {
    var c := Cursor([], false, Print(env.fe, EndOfStream), 0, false, Done(()));
    FetchesUnbound(env, c, 1);
  }

  /** Closed before Next reached the Exception a response ends with, a stream reads on behind it. */
  lemma ExceptionOverrun(env: Env, body: seq<byte>)
    requires Delimited(env.exception, body)
    ensures Drained(env, Cursor([], true, Print(env.fe, Exception(body)), 0, false, Done(()))) == Error(ShortRead)
  {
    var pull, p := WaitOf(Cancelling, env), Exception(body);
    DrainFirst(env, p, []);
    assert Print(env.fe, p) + [] == Print(env.fe, p);
    assert pull([]) == WaitTurn(Cancelling, env, []);
  }

  /** One column of one byte arrives where none was bound, and Close leaves it and EndOfStream unread. */
  lemma UnfitUnread(env: Env)
    requires env.fe == Features(false, false, false, false, true)
    ensures var c := Cursor([], true, [DATA, 1, 1, 0, 0, 7, END_OF_STREAM], 0, false, Done(()));
            Drained(env, Fetches(env, c, 1)) == Ended([0, 0, 7, END_OF_STREAM])
  {
    var left: seq<byte> := [0, 0, 7, END_OF_STREAM];
    var block: seq<byte> := [1, 1] + left;
    var s: seq<byte> := [DATA] + block;
    UnfitTurn(env, left);
    PullOnce(env, [], s);
    FetchUnfit(env, Cursor([], true, s, 0, false, Done(())), 1, left);
  }

  lemma UnfitTurn(env: Env, left: seq<byte>)
    requires env.fe == Features(false, false, false, false, true)
    ensures PullTurn(env, [], [DATA] + ([1, 1] + left)) == Unfit(left)
  {
    var block: seq<byte> := [1, 1] + left;
    VarintRoundTrip(DATA, block);
    UnfitBlock(env.fe, block, left);
  }

  lemma UnfitBlock(fe: Features, block: seq<byte>, left: seq<byte>)
    requires !fe.tempTables && !fe.blockInfo && block == [1, 1] + left
    ensures StreamBlock(fe, [], block) == Unfit(left)
  {
    assert block == UVarint(1) + (UVarint(1) + left);
    CountsRoundTrip(1, 1, left);
    assert ReadPrefix(fe, block) == Ok((), block);
  }

  lemma PullOnce(env: Env, cols: seq<Bound>, s: seq<byte>)
    requires !PullTurn(env, cols, s).Skipped?
    ensures Pull(PullOf(env, cols), s, -1) == PullTurn(env, cols, s)
  {
    var pull := PullOf(env, cols);
    assert pull(s) == PullTurn(env, cols, s);
  }

  // ---------- the streams as objects ----------

  method SkipHeadsLoop(r: Reader, fe: Features, n: nat) returns (out: Outcome<()>)
    modifies r
    ensures match SkipHeads(fe, n, old(r.rest))
            case Ok(_, s) => out == Done(()) && r.rest == s
            case Err(f) => out == Failed(f)
  {
    ghost var all := SkipHeads(fe, n, r.rest);
    for j := 0 to n
      invariant SkipHeads(fe, n - j, r.rest) == all
    {
      var head := DecodeHead(r, fe);
      if head.Failed? { return Failed(head.fault); }
    }
    return Done(());
  }

  method ReadBlock(r: Reader, fe: Features, cols: seq<Bound>) returns (p: Pulled)
    modifies r
    ensures p == StreamBlock(fe, cols, old(r.rest)) && (!p.Error? ==> r.rest == p.rest)
  {
    var prefix := DecodePrefix(r, fe);
    if prefix.Failed? { return Error(prefix.fault); }
    var counts := DecodeCounts(r);
    if counts.Failed? { return Error(counts.fault); }
    var (blockCols, blockRows) := counts.value;
    if blockCols > MAX_COLUMNS || blockCols < 0 { return Error(Malformed); }
    if blockRows > MAX_ROWS || blockRows < 0 { return Error(Malformed); }
    if blockRows == 0 {
      var skipped := SkipHeadsLoop(r, fe, blockCols);
      return if skipped.Failed? then Error(skipped.fault) else Skipped(r.rest);
    }
    if |cols| != blockCols { return Unfit(r.rest); }
    var cs := DecodeColumns(r, fe, cols, blockRows);
    return if cs.Failed? then Error(cs.fault) else Block(cs.value, blockRows, r.rest);
  }

  method PullOne(r: Reader, env: Env, cols: seq<Bound>, ghost pull: PullFn) returns (p: Pulled)
    requires Pulls(pull, env, cols)
    modifies r
    ensures p == pull(old(r.rest)) && !p.Halted? && (!p.Error? ==> r.rest == p.rest)
  {
    ghost var s := r.rest;
    assert pull(s) == PullTurn(env, cols, s);
    var v := r.UVarInt();
    if v.Failed? { return Error(v.fault); }
    var code := v.value % 256;
    if code == DATA {
      p := ReadBlock(r, env.fe, cols);
      return;
    } else if code == END_OF_STREAM {
      return Ended(r.rest);
    } else if code == EXCEPTION {
      var ex := Skip(r, env.exception);
      return if ex.Failed? then Error(ex.fault) else Thrown(r.rest);
    }
    var skipped;
    if code == TABLE_COLUMNS { skipped := Skip(r, env.columns); } else { skipped := SkipOther(r, env, code); }
    return if skipped.Failed? then Error(skipped.fault) else Skipped(r.rest);
  }

  method PullLoop(r: Reader, env: Env, cols: seq<Bound>, patience: int, ghost pull: PullFn) returns (p: Pulled)
    requires Moves(pull) && Pulls(pull, env, cols)
    modifies r
    ensures p == Pull(pull, old(r.rest), patience) && (!p.Error? ==> r.rest == p.rest)
  {
    var turns := patience;
    while true
      invariant Pull(pull, r.rest, turns) == Pull(pull, old(r.rest), patience)
      decreases |r.rest|
    {
      if turns == 0 { return Halted(r.rest); }
      turns := turns - 1;
      p := PullOne(r, env, cols, pull);
      if !p.Skipped? { return; }
    }
  }

  /** The loop of Next: on a context that is done, it asks the server to stop and drains. */
  method PullNext(b: Buffer, r: Reader, env: Env, cols: seq<Bound>, patience: int) returns (p: Pulled)
    modifies b, r
    ensures p == Pull(PullOf(env, cols), old(r.rest), patience)
    ensures !p.Error? && !p.Halted? ==> r.rest == p.rest
    ensures p.Halted? ==> var q := Pull(WaitOf(Cancelling, env), p.rest, -1); q.Ended? ==> r.rest == q.rest
    ensures b.buf == old(b.buf) + if p.Halted? then UVarint(CLIENT_CANCEL) else []
  {
    assert b.buf + [] == b.buf;
    p := PullLoop(r, env, cols, patience, PullOf(env, cols));
    if p.Halted? { CancelAndDrain(b, r, env); }
  }

  /** Asks the server to stop and reads up to EndOfStream, or to a packet that cannot be read. */
  method CancelAndDrain(b: Buffer, r: Reader, env: Env)
    modifies r, b
    ensures b.buf == old(b.buf) + UVarint(CLIENT_CANCEL)
    ensures var p := Pull(WaitOf(Cancelling, env), old(r.rest), -1); p.Ended? ==> r.rest == p.rest
  {
    b.Put(UVarint(CLIENT_CANCEL));
    var _ := Wait(b, r, Cancelling, env, -1);
    assert b.buf + [] == b.buf;
  }

  class SelectStream {
    const conn: Connections.Conn
    var cols: seq<Bound>
    var bound: bool
    var done: bool
    var closed: bool
    var failed: Outcome<()>       // how Next failed, if it did
    var blockRows: nat
    ghost var releases: nat       // how often the release function ran

    /** The connection is given back at most once, and only by a closed stream. */
    ghost predicate Valid()
      reads this
    {
      releases == if closed then 1 else 0
    }

    ghost function At(r: Reader): Cursor
      reads this, r
    {
      Cursor(cols, bound, r.rest, blockRows, done, failed)
    }

    constructor (conn: Connections.Conn)
      ensures Valid() && !closed && !done && !bound && failed == Done(()) && this.conn == conn && blockRows == 0
    {
      this.conn := conn;
      cols, bound, done, closed, failed, blockRows, releases := [], false, false, false, Done(()), 0, 0;
    }

    method Bind(cs: seq<Bound>)
      requires Valid()
      modifies this`cols, this`bound
      ensures Valid() && cols == cs && bound
    {
      cols, bound := cs, true;
    }

    /** True exactly when a block with rows was read into the bound columns; once false, always false. */
    method Next(b: Buffer, r: Reader, env: Env, patience: int) returns (more: bool)
      requires Valid()
      modifies this`cols, this`done, this`failed, this`blockRows, r, b
      ensures Valid() && more == !(closed || done)
      ensures closed ==> At(r) == old(At(r)) && b.buf == old(b.buf)
      ensures !closed ==>
                var c := Fetch(env, old(At(r)), patience);
                && done == c.done && failed == c.failed && blockRows == c.rows
                && (Tracked(env, old(At(r)), patience) ==> At(r) == c)
                && b.buf == old(b.buf) + if Halts(env, old(At(r)), patience) then UVarint(CLIENT_CANCEL) else []
    {
      assert b.buf + [] == b.buf;
      if closed || done { return false; }
      if !bound {
        failed, done := Failed(Malformed), true;
        return false;
      }
      ghost var was := At(r);
      var p := PullNext(b, r, env, cols, patience);
      Settle(p, env, was);
      return !done;
    }

    /** Next's part after its loop. */
    method Settle(p: Pulled, ghost env: Env, ghost was: Cursor)
      requires Valid() && !p.Skipped?
      requires was == Cursor(cols, bound, was.rest, blockRows, done, failed)
      modifies this`cols, this`done, this`failed, this`blockRows
      ensures Valid()
      ensures var c := Fetched(env, was, p);
              (cols, bound, blockRows, done, failed) == (c.cols, c.bound, c.rows, c.done, c.failed)
    {
      match p {
        case Block(cs, n, _) => cols, blockRows := cs, blockRows + n;
        case Ended(_) => done := true;
        case Thrown(_) => failed, done := Failed(Server), true;
        case Unfit(_) => failed, done := Failed(Mismatch), true;
        case Halted(_) => failed, done := Failed(Canceled), true;
        case Error(f) => failed, done := Failed(f), true;
      }
    }

    method Cancel(b: Buffer, r: Reader, env: Env)
      requires Valid()
      modifies this`done, r, b
      ensures Valid() && (!closed ==> done)
      ensures old(closed || done) ==> b.buf == old(b.buf) && r.rest == old(r.rest) && done == old(done)
      ensures !old(closed || done) ==>
                && b.buf == old(b.buf) + UVarint(CLIENT_CANCEL)
                && (Drained(env, old(At(r))).Ended? ==> r.rest == Drained(env, old(At(r))).rest)
    {
      if closed || done { return; }
      CancelAndDrain(b, r, env);
      done := true;
    }

    /** Gives the connection back on its first call, drained if Next has not ended; does nothing on any other. */
    method Close(b: Buffer, r: Reader, env: Env)
      requires Valid()
      modifies this`closed, this`releases, conn, r, b
      ensures Valid() && closed
      ensures old(closed) ==> conn.state == old(conn.state) && b.buf == old(b.buf) && r.rest == old(r.rest)
      ensures !old(closed) ==>
                && releases == old(releases) + 1 && conn.state == Connections.Ready
                && b.buf == old(b.buf) + (if done then [] else UVarint(CLIENT_CANCEL))
                && (Drained(env, old(At(r))).Ended? ==> r.rest == Drained(env, old(At(r))).rest)
    {
      if closed { return; }
      closed := true;
      if !done { CancelAndDrain(b, r, env); } else { assert b.buf + [] == b.buf; }
      conn.Unlock();
      releases := releases + 1;
    }
  }

  class InsertStream {
    const conn: Connections.Conn
    var cols: seq<BlockCol>
    var bound: bool
    var closed: bool
    ghost var releases: nat

    ghost predicate Valid()
      reads this
    {
      releases == (if closed then 1 else 0) && CanSend(cols)
    }

    constructor (conn: Connections.Conn)
      ensures Valid() && !closed && !bound && this.conn == conn
    {
      this.conn := conn;
      cols, bound, closed, releases := [], false, false, 0;
    }

    method Bind(cs: seq<BlockCol>)
      requires Valid() && CanSend(cs)
      modifies this`cols, this`bound
      ensures Valid() && cols == cs && bound
    {
      cols, bound := cs, true;
    }

    /** One data packet of the bound columns, or an error and no bytes. */
    method Append(b: Buffer, fe: Features) returns (out: Outcome<nat>)
      requires Valid()
      modifies b
      ensures out.Done? <==> !closed && bound && cols != [] && RowCount(cols[0]) > 0 && EqualLengths(cols)
      ensures out.Failed? ==> b.buf == old(b.buf)
      ensures out.Done? ==>
                && out.value == RowCount(cols[0]) && AllSendable(cols, out.value)
                && b.buf == old(b.buf) + UVarint(CLIENT_DATA)
                            + Frame(fe.(columnState := false), [], INSERT_INFO, cols, out.value)
                && DataParts(fe.(columnState := false), [255, 255, 255, 255], cols, out.value,
                             b.buf[|old(b.buf)|..], [])
    {
      if closed { return Failed(Mismatch); }
      if !bound { return Failed(Malformed); }
      out := CheckRows(cols);
      if out.Failed? { return; }
      ghost var before, data, sent := b.buf, UVarint(CLIENT_DATA), fe.(columnState := false);
      b.Put(UVarint(CLIENT_DATA));
      WriteFrame(b, fe.(columnState := false), cols, out.value);
      InsertInParts(sent, cols, out.value, []);
      PutBehind(before, data, Frame(sent, [], INSERT_INFO, cols, out.value), []);
      assert b.buf + [] == b.buf;
    }

    /**
     Sends the blank block and waits for the end of the statement, or sends a Cancel packet too when the
     context is done first. However that goes, the first call gives the connection back exactly once,
     and any other does nothing.
     */
    method Close(b: Buffer, r: Reader, env: Env, flushed: bool, patience: int) returns (out: Outcome<()>)
      requires Valid()
      modifies this`closed, this`releases, conn, b, r
      ensures Valid() && closed
      ensures old(closed) ==>
                out == Done(()) && conn.state == old(conn.state) && b.buf == old(b.buf) && r.rest == old(r.rest)
      ensures !old(closed) ==> releases == old(releases) + 1 && conn.state == Connections.Ready
      ensures !old(closed) && !flushed ==> out.Failed? && r.rest == old(r.rest) && b.buf == old(b.buf) + Blank(env.fe)
      ensures !old(closed) && flushed ==>
                var p := Pull(WaitOf(Inserted, env), old(r.rest), patience);
                && (out.Done? <==> p.Ended?) && (!p.Error? ==> r.rest == p.rest)
                && b.buf == old(b.buf) + Blank(env.fe) + if p.Halted? then UVarint(CLIENT_CANCEL) else []
      ensures !old(closed) && flushed ==>
                forall ps, last, more :: Response(Inserted, env, old(r.rest), ps, last, more) ==>
                  out == if 0 <= patience <= |ps| then Failed(Canceled)
                         else if last.EndOfStream? then Done(())
                         else if last.Exception? then Failed(Server)
                         else Failed(Malformed)
    {
      if closed { return Done(()); }
      closed := true;
      b.Put(Blank(env.fe));
      if !flushed {
        ReleaseOnce();
        return Failed(ShortRead);
      }
      out := Await(b, r, Inserted, env, patience);
      ReleaseOnce();
    }

    method ReleaseOnce()
      modifies this`releases, conn
      ensures releases == old(releases) + 1 && conn.state == Connections.Ready
    {
      conn.Unlock();
      releases := releases + 1;
    }
  }

  predicate CanSend(cols: seq<BlockCol>) {
    |cols| <= MAX_INT && forall i :: 0 <= i < |cols| ==> Sendable(cols[i])
  }

  /**
   Next reads back the block that Append wrote to the same rows under the same conditions as
   handleDataBlock does Insert's.
   */
  lemma AppendNext(fe: Features, bs: seq<Bound>, cs: seq<BlockCol>, rows: nat, tail: seq<byte>)
    requires AllSameKind(bs, cs) && AllSendable(cs, rows) && rows > 0
    ensures var p := StreamBlock(fe, bs, Frame(fe, [], INSERT_INFO, cs, rows) + tail);
            && (p.Block? && AllSameRows(p.cols, cs)
                <==> |cs| <= 1_000_000 && rows <= 100_000_000 && AllClean(bs) && AllIntact(fe, cs))
            && (WithinLimits(cs, rows) && AllIntact(fe, cs) ==> p.Block? && p.rows == rows && p.rest == tail)
  {
    assert Pow256(4) == 0x1_0000_0000;
    StreamStart(fe, bs, [], INSERT_INFO, cs, rows, tail);
    if WithinLimits(cs, rows) {
      ColumnsExact(fe, bs, cs, rows, tail);
    }
  }
}
