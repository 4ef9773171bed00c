/** Packet loops that only wait: after Exec, after Insert's data, in InsertStream.Close, and while cancelling. */
module Responses {
  import opened Wire
  import opened Blocks
  import opened Queries

  /**
   What a loop comes to, with the unread input: it skipped a packet, has a block for its caller, met
   the end, an exception or a block with another number of columns, or was halted by its context. What
   is unread after any other error is not tracked.
   */
  datatype Pulled =
    | Skipped(rest: seq<byte>)
    | Block(cols: seq<Bound>, rows: nat, rest: seq<byte>)
    | Ended(rest: seq<byte>)
    | Thrown(rest: seq<byte>)
    | Unfit(rest: seq<byte>)
    | Halted(rest: seq<byte>)
    | Error(fault: Fault)

  type PullFn = seq<byte> -> Pulled

  ghost predicate Moves(pull: PullFn) {
    forall s :: pull(s).Skipped? ==> |pull(s).rest| < |s|
  }

  /** Packets are skipped up to the first that is not, or until the context is done. */
  function Pull(pull: PullFn, s: seq<byte>, patience: int): (p: Pulled)
    requires Moves(pull)
    ensures !p.Skipped?
    decreases |s|
  {
    if patience == 0 then Halted(s)
    else if pull(s).Skipped? then Pull(pull, pull(s).rest, patience - 1)
    else pull(s)
  }

  /** Without cancellation the number of turns does not matter. */
  lemma {:induction false} Patient(pull: PullFn, s: seq<byte>, a: int, b: int)
    requires Moves(pull) && a < 0 && b < 0
    ensures Pull(pull, s, a) == Pull(pull, s, b)
    decreases |s|
  {
    if !pull(s).Skipped? {
    } else {
      Patient(pull, pull(s).rest, a - 1, b - 1);
    }
  }

  // ---------- loops over printed packets ----------

  /** What a loop makes of a packet and the bytes behind it. */
  type AnswerFn = (Packet, seq<byte>) -> Pulled

  predicate Prints(p: Packet) {
    p.Data? ==> AllSendable(p.cols, p.rows)
  }

  /** On the packets in ok, pull does what answer says. */
  ghost predicate Follows(pull: PullFn, fe: Features, ok: Packet -> bool, answer: AnswerFn) {
    forall p, tail {:trigger answer(p, tail)} :: ok(p) ==> Prints(p) && pull(Print(fe, p) + tail) == answer(p, tail)
  }

  ghost predicate Passes(answer: AnswerFn, p: Packet) {
    forall tail :: answer(p, tail) == Skipped(tail)
  }

  lemma {:induction false} PullOver(pull: PullFn, fe: Features, ok: Packet -> bool, answer: AnswerFn,
                                    ps: seq<Packet>, p: Packet, more: seq<byte>, patience: int)
    requires Moves(pull) && Follows(pull, fe, ok, answer) && Printable(ps) && (patience < 0 || patience > |ps|)
    requires forall i :: 0 <= i < |ps| ==> ok(ps[i]) && Passes(answer, ps[i])
    requires ok(p) && Prints(p) && !answer(p, more).Skipped?
    ensures Pull(pull, PrintAll(fe, ps) + (Print(fe, p) + more), patience) == answer(p, more)
    decreases |ps|
  {
    var last := Print(fe, p) + more;
    if ps == [] {
      assert [] + last == last;
      PullLast(pull, fe, ok, answer, p, more, patience);
    } else {
      PrintFirst(fe, ps, last);
      PullPast(pull, fe, ok, answer, ps[0], PrintAll(fe, ps[1..]) + last, patience);
      PullOver(pull, fe, ok, answer, ps[1..], p, more, patience - 1);
    }
  }

  lemma PullLast(pull: PullFn, fe: Features, ok: Packet -> bool, answer: AnswerFn, p: Packet, more: seq<byte>,
                 patience: int)
    requires Moves(pull) && Follows(pull, fe, ok, answer) && ok(p) && Prints(p) && !answer(p, more).Skipped?
    requires patience != 0
    ensures Pull(pull, Print(fe, p) + more, patience) == answer(p, more)
  {
  }

  lemma PullPast(pull: PullFn, fe: Features, ok: Packet -> bool, answer: AnswerFn, p: Packet, rest: seq<byte>,
                 patience: int)
    requires Moves(pull) && Follows(pull, fe, ok, answer) && ok(p) && Passes(answer, p) && Prints(p)
    requires patience != 0
    ensures Pull(pull, Print(fe, p) + rest, patience) == Pull(pull, rest, patience - 1)
  {
    assert answer(p, rest) == Skipped(rest);
  }

  /** A context that is done before the loop ends leaves all packets unread but those passed over. */
  lemma {:induction false} PullHalts(pull: PullFn, fe: Features, ok: Packet -> bool, answer: AnswerFn,
                                     ps: seq<Packet>, last: seq<byte>, k: nat)
    requires Moves(pull) && Follows(pull, fe, ok, answer) && Printable(ps) && k <= |ps|
    requires forall i :: 0 <= i < |ps| ==> ok(ps[i]) && Passes(answer, ps[i])
    ensures Pull(pull, PrintAll(fe, ps) + last, k) == Halted(PrintAll(fe, ps[k..]) + last)
    decreases k
  {
    if k == 0 {
      assert ps[0..] == ps;
    } else {
      var tail := ps[1..];
      var rest := PrintAll(fe, tail) + last;
      PrintFirst(fe, ps, last);
      PullHalts(pull, fe, ok, answer, tail, last, k - 1);
      assert tail[k - 1..] == ps[k..];
      PullPast(pull, fe, ok, answer, ps[0], rest, k);
    }
  }

  // ---------- the waiting loops ----------

  /** Exec's loop; the one of Insert and InsertStream.Close; SelectStream's cancel. */
  datatype Waiter = Exec | Inserted | Cancelling

  /** What the loop does with a packet it does not end at. */
  function PassPacket(w: Waiter, env: Env, code: nat, s: seq<byte>): (r: Parsed<()>)
    ensures r.Ok? ==> |r.rest| <= |s|
  {
    if code == PROGRESS then SkipBody(env.progress, s)
    else if code == PROFILE then SkipBody(env.profile, s)
    else if code == TABLE_COLUMNS then SkipBody(env.columns, s)
    else if code == EXCEPTION then SkipBody(env.exception, s)
    else if code in {DATA, PROFILE_EVENTS, LOG} || (code in {TOTALS, EXTREMES} && w != Inserted) then SkipBlock(env, s)
    else if w == Inserted then Err(Malformed)
    else Ok((), s)
  }

  /** Only the cancelling loop reads on behind an Exception. */
  function WaitPacket(w: Waiter, env: Env, code: nat, s: seq<byte>): (p: Pulled)
    ensures !p.Halted? && !p.Block? && !p.Unfit? && (p.Skipped? || p.Ended? ==> |p.rest| <= |s|)
  {
    if code == END_OF_STREAM then Ended(s)
    else
      match PassPacket(w, env, code, s)
      case Err(f) => Error(f)
      case Ok(_, rest) => if code == EXCEPTION && w != Cancelling then Thrown(rest) else Skipped(rest)
  }

  function WaitTurn(w: Waiter, env: Env, s: seq<byte>): (p: Pulled)
    ensures !p.Halted? && !p.Block? && !p.Unfit? && (p.Skipped? || p.Ended? ==> |p.rest| < |s|)
  {
    match ReadUVarint(s)
    case Err(f) => Error(f)
    case Ok(v, rest) => WaitPacket(w, env, v % 256, rest)
  }

  ghost predicate Waits(pull: PullFn, w: Waiter, env: Env) {
    forall s {:trigger WaitTurn(w, env, s)} :: pull(s) == WaitTurn(w, env, s)
  }

  function WaitOf(w: Waiter, env: Env): (pull: PullFn)
    ensures Moves(pull) && Waits(pull, w, env)
  {
    s => WaitTurn(w, env, s)
  }

  method PassOne(r: Reader, w: Waiter, env: Env, code: nat) returns (out: Outcome<()>)
    modifies r
    ensures match PassPacket(w, env, code, old(r.rest))
            case Ok(_, s) => out == Done(()) && r.rest == s
            case Err(f) => out == Failed(f)
  {
    match code {
      case 3 => out := Skip(r, env.progress);
      case 6 => out := Skip(r, env.profile);
      case 11 => out := Skip(r, env.columns);
      case 2 => out := Skip(r, env.exception);
      case _ =>
        if code in {DATA, PROFILE_EVENTS, LOG} || (code in {TOTALS, EXTREMES} && w != Inserted) {
          out := SkipRawBlock(r, env);
        } else if w == Inserted {
          out := Failed(Malformed);
        } else {
          out := Done(());
        }
    }
  }

  method WaitOne(r: Reader, w: Waiter, env: Env, ghost pull: PullFn) returns (p: Pulled)
    requires Waits(pull, w, env)
    modifies r
    ensures p == pull(old(r.rest)) && !p.Halted? && (!p.Error? ==> r.rest == p.rest)
  {
    ghost var s := r.rest;
    assert pull(s) == WaitTurn(w, env, s);
    var v := r.UVarInt();
    if v.Failed? { return Error(v.fault); }
    var code := v.value % 256;
    if code == END_OF_STREAM { return Ended(r.rest); }
    var passed := PassOne(r, w, env, code);
    if passed.Failed? { return Error(passed.fault); }
    if code == EXCEPTION && w != Cancelling { return Thrown(r.rest); }
    return Skipped(r.rest);
  }

  /**
   Waits for the end of a statement; the context is done after `patience` packets, or never when that
   is negative. Exactly then, all but the cancelling loop send a Cancel packet.
   */
  method Wait(b: Buffer, r: Reader, w: Waiter, env: Env, patience: int) returns (p: Pulled)
    modifies b, r
    ensures p == Pull(WaitOf(w, env), old(r.rest), patience) && (!p.Error? ==> r.rest == p.rest)
    ensures b.buf == old(b.buf) + if p.Halted? && w != Cancelling then UVarint(CLIENT_CANCEL) else []
  {
    p := WaitLoop(b, r, w, env, patience, WaitOf(w, env));
  }

  method WaitLoop(b: Buffer, r: Reader, w: Waiter, env: Env, patience: int, ghost pull: PullFn) returns (p: Pulled)
    requires Moves(pull) && Waits(pull, w, env)
    modifies b, r
    ensures p == Pull(pull, old(r.rest), patience) && (!p.Error? ==> r.rest == p.rest)
    ensures b.buf == old(b.buf) + if p.Halted? && w != Cancelling then UVarint(CLIENT_CANCEL) else []
  {
    var turns := patience;
    assert b.buf + [] == b.buf;
    while true
      invariant b.buf == old(b.buf)
      invariant Pull(pull, r.rest, turns) == Pull(pull, old(r.rest), patience)
      decreases |r.rest|
    {
      if turns == 0 {
        if w != Cancelling { b.Put(UVarint(CLIENT_CANCEL)); }
        return Halted(r.rest);
      }
      turns := turns - 1;
      p := WaitOne(r, w, env, pull);
      if !p.Skipped? { return; }
    }
  }

  // ---------- what the loops wait for ----------

  /** Column and row count and columns of a data block, which a waiting loop leaves to the library. */
  function RawBody(fe: Features, cs: seq<BlockCol>, rows: nat): seq<byte>
    requires AllSendable(cs, rows)
  {
    UVarint(|cs|) + (UVarint(rows) + ColumnsBytes(fe, cs, rows))
  }

  /** A packet the library's decoders take whole; skipping always expects a table name. */
  ghost predicate WaitOk(env: Env, p: Packet)
    ensures WaitOk(env, p) ==> Prints(p)
  {
    match p
    case Data(table, info, cs, rows) =>
      && env.fe.tempTables && PrefixOk(table, info) && AllSendable(cs, rows)
      && Delimited(env.block, RawBody(env.fe, cs, rows))
    case Progress(body) => Delimited(env.progress, body)
    case Profile(body) => Delimited(env.profile, body)
    case RawBlock(code, table, info, body) =>
      code in {PROFILE_EVENTS, LOG, TOTALS, EXTREMES} && PrefixOk(table, info) && Delimited(env.block, body)
    case TableColumns(body) => Delimited(env.columns, body)
    case EndOfStream => true
    case Exception(body) => Delimited(env.exception, body)
  }

  /** Insert's loop knows no totals and extremes. */
  predicate Refused(w: Waiter, p: Packet) {
    w == Inserted && p.RawBlock? && p.code in {TOTALS, EXTREMES}
  }

  function WaitFor(w: Waiter, p: Packet, tail: seq<byte>): Pulled {
    if p.EndOfStream? then Ended(tail)
    else if p.Exception? && w != Cancelling then Thrown(tail)
    else if Refused(w, p) then Error(Malformed)
    else Skipped(tail)
  }

  predicate StopsWait(w: Waiter, p: Packet) {
    p.EndOfStream? || (p.Exception? && w != Cancelling) || Refused(w, p)
  }

  lemma WaitForPacket(w: Waiter, env: Env, p: Packet, tail: seq<byte>)
    requires WaitOk(env, p)
    ensures WaitTurn(w, env, Print(env.fe, p) + tail) == WaitFor(w, p, tail)
  {
    if p.Data? {
      WaitForData(w, env, p, tail);
    } else if p.RawBlock? {
      WaitForRaw(w, env, p, tail);
    } else if p.EndOfStream? {
      WaitForEnd(w, env, p, tail);
    } else if p.Progress? || p.Profile? {
      WaitForCount(w, env, p, tail);
    } else {
      WaitForBody(w, env, p, tail);
    }
  }

  lemma WaitForEnd(w: Waiter, env: Env, p: Packet, tail: seq<byte>)
    requires p.EndOfStream?
    ensures WaitTurn(w, env, Print(env.fe, p) + tail) == WaitFor(w, p, tail)
  {
    EndRead(env.fe, p, tail);
  }

  lemma WaitForCount(w: Waiter, env: Env, p: Packet, tail: seq<byte>)
    requires WaitOk(env, p) && (p.Progress? || p.Profile?)
    ensures WaitTurn(w, env, Print(env.fe, p) + tail) == WaitFor(w, p, tail)
  {
    match p
    case Progress(body) => BodyRead(env.progress, PROGRESS, body, tail);
    case Profile(body) => BodyRead(env.profile, PROFILE, body, tail);
  }

  lemma WaitForRaw(w: Waiter, env: Env, p: Packet, tail: seq<byte>)
    requires WaitOk(env, p) && p.RawBlock?
    ensures WaitTurn(w, env, Print(env.fe, p) + tail) == WaitFor(w, p, tail)
  {
    RawRead(env, p, tail);
  }

  lemma WaitForBody(w: Waiter, env: Env, p: Packet, tail: seq<byte>)
    requires WaitOk(env, p) && (p.TableColumns? || p.Exception?)
    ensures WaitTurn(w, env, Print(env.fe, p) + tail) == WaitFor(w, p, tail)
  {
    match p
    case TableColumns(body) => BodyRead(env.columns, TABLE_COLUMNS, body, tail);
    case Exception(body) => BodyRead(env.exception, EXCEPTION, body, tail);
  }

  lemma WaitForData(w: Waiter, env: Env, p: Packet, tail: seq<byte>)
    requires WaitOk(env, p) && p.Data?
    ensures WaitTurn(w, env, Print(env.fe, p) + tail) == WaitFor(w, p, tail)
  {
    var body := RawBody(env.fe, p.cols, p.rows);
    var raw := RawBlock(LOG, p.table, p.info, body);
    CodeRead(DATA, Frame(env.fe, p.table, p.info, p.cols, p.rows), tail);
    RawSkipped(env, raw, tail);
  }

  /**
   s is a response: well-formed packets the loop passes over, then one it ends at, then more. Only the
   cancelling loop passes over Exceptions, and Insert's refuses totals (7) and extremes (8).
   */
  ghost predicate Response(w: Waiter, env: Env, s: seq<byte>, ps: seq<Packet>, last: Packet, more: seq<byte>) {
    && (forall i :: 0 <= i < |ps| ==>
          && WaitOk(env, ps[i]) && !ps[i].EndOfStream? && (ps[i].Exception? ==> w == Cancelling)
          && !(w == Inserted && ps[i].RawBlock? && ps[i].code in {7, 8}))
    && WaitOk(env, last)
    && (last.EndOfStream? || (last.Exception? && w != Cancelling)
        || (w == Inserted && last.RawBlock? && last.code in {7, 8}))
    && s == PrintAll(env.fe, ps) + (Print(env.fe, last) + more)
  }

  /**
   Over any response each loop ends at its last packet: without an error exactly at EndOfStream, and
   right behind it, with the server's at an Exception. A context that is done after no more packets
   than there are before that one halts it, with all other packets unread.
   */
  lemma WaitExact(w: Waiter, env: Env, s: seq<byte>, ps: seq<Packet>, last: Packet, more: seq<byte>, patience: int)
    requires Response(w, env, s, ps, last, more)
    ensures Pull(WaitOf(w, env), s, patience)
         == if 0 <= patience <= |ps| then Halted(PrintAll(env.fe, ps[patience..]) + (Print(env.fe, last) + more))
            else if last.EndOfStream? then Ended(more)
            else if last.Exception? then Thrown(more)
            else Error(Malformed)
  {
    var pull, ok, answer := WaitOf(w, env), q => WaitOk(env, q), (q, tail) => WaitFor(w, q, tail);
    forall q, tail | ok(q)
      ensures Prints(q) && pull(Print(env.fe, q) + tail) == answer(q, tail)
    {
      WaitForPacket(w, env, q, tail);
      assert pull(Print(env.fe, q) + tail) == WaitTurn(w, env, Print(env.fe, q) + tail);
    }
    if 0 <= patience <= |ps| {
      PullHalts(pull, env.fe, ok, answer, ps, Print(env.fe, last) + more, patience);
    } else {
      PullOver(pull, env.fe, ok, answer, ps, last, more, patience);
    }
  }

  // ---------- what a statement's caller is told ----------

  function WaitResult(p: Pulled): Outcome<()> {
    match p
    case Error(f) => Failed(f)
    case Thrown(_) => Failed(Server)
    case Halted(_) => Failed(Canceled)
    case _ => Done(())
  }

  lemma {:induction false} WaitPulls(pull: PullFn, w: Waiter, env: Env, s: seq<byte>, patience: int)
    requires Moves(pull) && Waits(pull, w, env)
    ensures var p := Pull(pull, s, patience); p.Ended? || p.Thrown? || p.Halted? || p.Error?
    decreases |s|
  {
    assert pull(s) == WaitTurn(w, env, s);
    if patience != 0 && pull(s).Skipped? { WaitPulls(pull, w, env, pull(s).rest, patience - 1); }
  }

  /** What the caller is told about every response: no error exactly at EndOfStream before the context was done. */
  lemma ToldExact(w: Waiter, env: Env, s: seq<byte>, patience: int)
    ensures forall ps, last, more :: Response(w, env, s, ps, last, more) ==>
              WaitResult(Pull(WaitOf(w, env), s, patience))
              == if 0 <= patience <= |ps| then Failed(Canceled)
                 else if last.EndOfStream? then Done(())
                 else if last.Exception? then Failed(Server)
                 else Failed(Malformed)
  {
    forall ps, last, more | Response(w, env, s, ps, last, more)
      ensures WaitResult(Pull(WaitOf(w, env), s, patience))
           == if 0 <= patience <= |ps| then Failed(Canceled)
              else if last.EndOfStream? then Done(())
              else if last.Exception? then Failed(Server)
              else Failed(Malformed)
    {
      WaitExact(w, env, s, ps, last, more, patience);
    }
  }

  /** Exec or Insert once its statement and data were sent. */
  method Await(b: Buffer, r: Reader, w: Waiter, env: Env, patience: int) returns (out: Outcome<()>)
    requires w != Cancelling
    modifies b, r
    ensures var p := Pull(WaitOf(w, env), old(r.rest), patience);
            && (out.Done? <==> p.Ended?) && (p.Halted? ==> out == Failed(Canceled))
            && (p.Thrown? ==> out == Failed(Server)) && (p.Error? ==> out == Failed(p.fault))
            && (!p.Error? ==> r.rest == p.rest)
            && b.buf == old(b.buf) + if p.Halted? then UVarint(CLIENT_CANCEL) else []
    ensures forall ps, last, more :: Response(w, env, old(r.rest), ps, last, more) ==>
              out == if 0 <= patience <= |ps| then Failed(Canceled)
                     else if last.EndOfStream? then Done(())
                     else if last.Exception? then Failed(Server)
                     else Failed(Malformed)
  {
    ToldExact(w, env, r.rest, patience);
    WaitPulls(WaitOf(w, env), w, env, r.rest, patience);
    var p := Wait(b, r, w, env, patience);
    return WaitResult(p);
  }
}
