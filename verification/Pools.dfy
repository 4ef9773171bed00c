/**
 The pool: connections handed out and given back by any interleaving of Exec, Select, Insert,
 SelectStream and InsertStream, together with each connection's own lock.
 */
module Pools {
  import Connections

  type ConnState = Connections.ConnState

  /** Where an operation of the pool stands; `c` is the connection it was handed. */
  datatype OpPhase =
    | Acquiring(second: bool)            // inside Acquire, for the first time or the retry
    | Handed(c: nat, second: bool)       // Acquire has returned c
    | Sent(c: nat, second: bool)         // the statement was sent on c
    | StreamOpen(c: nat)                 // the caller has a stream on c
    | StreamClosing(c: nat)              // inside the stream's Close, unlocked, c not yet released
    | Finished

  datatype Op = Op(stream: bool, phase: OpPhase, sends: nat)

  predicate HasConn(p: OpPhase) {
    p.Handed? || p.Sent? || p.StreamOpen? || p.StreamClosing?
  }

  /** How a statement or a stream ended; `unread`: part of its response may be left on the connection. */
  datatype Ended = Fine | ServerError | NetworkError(unread: bool) | OtherError(unread: bool)

  predicate Clean(e: Ended) {
    e == Fine || e == ServerError || !e.unread
  }

  /**
   locks: every connection ever made and not destroyed, with its lock; out: those the sub-pools
   count as handed out; home: the sub-pool of a connection; shut: the sub-pools that are closed;
   handed, back: how often Acquire gave a connection and a caller returned one; dirty: those that
   may hold part of an earlier statement's response.
   */
  datatype World = World(locks: map<nat, ConnState>, out: set<nat>, ops: map<nat, Op>, home: map<nat, nat>,
                         shut: set<nat>, handed: nat, back: nat, dirty: set<nat>)

  datatype Step =
    | Begin(o: nat, stream: bool)
    | Acquired(o: nat, c: nat, p: nat)   // an idle connection of sub-pool p, or a new one
    | AcquireFailed(o: nat)
    | Send(o: nat)                       // lock and write the statement
    | Reply(o: nat, e: Ended)            // a request's response was read, or failed
    | StreamStart(o: nat, e: Ended)      // SelectStream or InsertStream of the connection returned
    | StreamUnlock(o: nat, e: Ended)     // Close of a stream that ended so, up to the unlock in its release function
    | StreamRelease(o: nat)              // the release of the connection after it
    | CloseAgain(o: nat)                 // Close of a stream that is closed or closing
    | Evict(c: nat)                      // a sub-pool destroys an idle connection
    | CloseSub(p: nat)                   // a replica is marked dead or replaced, or the pool is closed

  predicate In(w: World, o: nat, p: OpPhase) {
    o in w.ops && w.ops[o].phase == p
  }

  predicate Enabled(w: World, s: Step) {
    match s
    case Begin(o, _) => o !in w.ops
    case Acquired(o, c, p) =>
      && o in w.ops && w.ops[o].phase.Acquiring? && c !in w.out && p !in w.shut
      && (c in w.locks ==> c in w.home && w.home[c] == p)
    case AcquireFailed(o) => o in w.ops && w.ops[o].phase.Acquiring?
    case Send(o) => o in w.ops && w.ops[o].phase.Handed?
    case Reply(o, _) => o in w.ops && w.ops[o].phase.Sent? && !w.ops[o].stream
    case StreamStart(o, _) => o in w.ops && w.ops[o].phase.Sent? && w.ops[o].stream
    case StreamUnlock(o, _) => o in w.ops && w.ops[o].phase.StreamOpen?
    case StreamRelease(o) => o in w.ops && w.ops[o].phase.StreamClosing?
    case CloseAgain(o) => o in w.ops && w.ops[o].stream && (w.ops[o].phase.StreamClosing? || w.ops[o].phase.Finished?)
    case Evict(c) => c in w.locks && c !in w.out
    case CloseSub(_) => true
  }

  function SetPhase(w: World, o: nat, p: OpPhase): World
    requires o in w.ops
  {
    w.(ops := w.ops[o := w.ops[o].(phase := p)])
  }

  /** The sub-pool of c is closed. */
  predicate Shut(w: World, c: nat) {
    c in w.home && w.home[c] in w.shut
  }

  /** Release: back to its sub-pool, which destroys it when it is closed. */
  function Released(w: World, c: nat): World {
    if Shut(w, c) then Destroyed(w, c) else w.(out := w.out - {c}, back := w.back + 1)
  }

  /** Close of a pooled connection: its sub-pool destroys it. */
  function Destroyed(w: World, c: nat): World {
    w.(out := w.out - {c}, back := w.back + 1, locks := w.locks - {c}, dirty := w.dirty - {c})
  }

  /** The statement on c ended so, and c is unlocked. */
  function Unlock(w: World, c: nat, e: Ended): World {
    w.(locks := w.locks[c := Connections.Ready], dirty := if Clean(e) then w.dirty else w.dirty + {c})
  }

  /** The first attempt is destroyed on any error and tried again on a network error; the second is released. */
  function AfterReply(w: World, o: nat, c: nat, second: bool, e: Ended): World
    requires o in w.ops
  {
    var u := Unlock(w, c, e);
    if e == Fine || second then SetPhase(Released(u, c), o, Finished)
    else SetPhase(Destroyed(u, c), o, if e.NetworkError? then Acquiring(true) else Finished)
  }

  function Next(w: World, s: Step): World
    requires Enabled(w, s)
  {
    match s
    case Begin(o, stream) => w.(ops := w.ops[o := Op(stream, Acquiring(false), 0)])
    case Acquired(o, c, p) =>
      var u := SetPhase(w, o, Handed(c, w.ops[o].phase.second));
      u.(out := w.out + {c}, handed := w.handed + 1,
         locks := if c in w.locks then w.locks else w.locks[c := Connections.Ready], home := w.home[c := p])
    case AcquireFailed(o) => SetPhase(w, o, Finished)
    case Send(o) =>
      var op := w.ops[o];
      w.(ops := w.ops[o := op.(phase := Sent(op.phase.c, op.phase.second), sends := op.sends + 1)],
         locks := w.locks[op.phase.c := Connections.Busy])
    case Reply(o, e) => AfterReply(w, o, w.ops[o].phase.c, w.ops[o].phase.second, e)
    case StreamStart(o, e) =>
      var c := w.ops[o].phase.c;
      if e == Fine then SetPhase(w, o, StreamOpen(c)) else SetPhase(Released(Unlock(w, c, e), c), o, Finished)
    case StreamUnlock(o, e) => SetPhase(Unlock(w, w.ops[o].phase.c, e), o, StreamClosing(w.ops[o].phase.c))
    case StreamRelease(o) => SetPhase(Released(w, w.ops[o].phase.c), o, Finished)
    case CloseAgain(_) => w
    case Evict(c) => w.(locks := w.locks - {c}, dirty := w.dirty - {c})
    case CloseSub(p) => w.(shut := w.shut + {p})
  }

  // ---------- the invariant ----------

  /** Operations that were handed a connection they have not given back: running ones and unclosed streams. */
  function Keepers(w: World): set<nat> {
    set o | o in w.ops && HasConn(w.ops[o].phase)
  }

  function SendBound(op: Op): nat {
    match op.phase
    case Acquiring(second) => if second then 1 else 0
    case Handed(_, second) => if second then 1 else 0
    case Sent(_, second) => if second then 2 else 1
    case _ => if op.stream then 1 else 2
  }

  /** The lock a connection must have while its operation stands at p. */
  function LockFor(p: OpPhase): ConnState {
    if p.Sent? || p.StreamOpen? then Connections.Busy else Connections.Ready
  }

  ghost predicate Owned(w: World) {
    && (forall o :: o in Keepers(w) ==> w.ops[o].phase.c in w.out)
    && (forall o, q :: o in Keepers(w) && q in Keepers(w) && o != q ==> w.ops[o].phase.c != w.ops[q].phase.c)
    && (forall c :: c in w.out ==> c in w.locks)
  }

  /** Connections not handed out are Ready, and handed out ones are locked exactly while in use. */
  ghost predicate LocksOk(w: World) {
    && (forall c :: c in w.locks && c !in w.out ==> w.locks[c] == Connections.Ready)
    && (forall o :: o in Keepers(w) ==> LockIs(w, w.ops[o].phase.c, LockFor(w.ops[o].phase)))
  }

  predicate LockIs(w: World, c: nat, state: ConnState) {
    c in w.locks && w.locks[c] == state
  }

  /** Only a request is tried a second time. */
  predicate RetryOk(op: Op) {
    op.stream && (op.phase.Acquiring? || op.phase.Handed? || op.phase.Sent?) ==> !op.phase.second
  }

  ghost predicate Counted(w: World) {
    && w.handed == w.back + |w.out| && |w.out| == |Keepers(w)|
    && (forall o :: o in w.ops ==> w.ops[o].sends <= SendBound(w.ops[o]) && RetryOk(w.ops[o]))
  }

  ghost predicate Inv(w: World) {
    Owned(w) && LocksOk(w) && Counted(w)
  }

  /** Putting op into phase p changes only whether o keeps a connection. */
  lemma KeepersUpdate(w: World, o: nat, op: Op, v: World)
    requires v.ops == w.ops[o := op]
    ensures Keepers(v) == if HasConn(op.phase) then Keepers(w) + {o} else Keepers(w) - {o}
  {
  }

  lemma StepInv(w: World, s: Step)
    requires Inv(w) && Enabled(w, s)
    ensures Inv(Next(w, s))
  {
    match s
    case Acquired(o, c, p) => TakeOut(w, o, c, p);
    case Evict(c) => assert Keepers(Next(w, s)) == Keepers(w);
    case CloseSub(_) => assert Keepers(Next(w, s)) == Keepers(w);
    case CloseAgain(_) =>
    case Send(o) => SendStep(w, o);
    case Reply(o, e) => ReplyStep(w, o, e);
    case StreamStart(o, e) => StartStep(w, o, e);
    case StreamUnlock(o, e) => UnlockStep(w, o, e);
    case StreamRelease(o) => ReleaseStep(w, o);
    case _ => WaitStep(w, s);
  }

  lemma WaitStep(w: World, s: Step)
    requires Inv(w) && Enabled(w, s) && (s.Begin? || s.AcquireFailed?)
    ensures Inv(Next(w, s))
  {
    if s.AcquireFailed? { assert w.ops[s.o].sends <= SendBound(w.ops[s.o]); }
    Waits(w, s.o, Next(w, s));
  }

  lemma SendStep(w: World, o: nat)
    requires Inv(w) && Enabled(w, Send(o))
    ensures Inv(Next(w, Send(o)))
  {
    InProgress(w, o);
    Moves(w, o, Next(w, Send(o)));
  }

  lemma ReplyStep(w: World, o: nat, e: Ended)
    requires Inv(w) && Enabled(w, Reply(o, e))
    ensures Inv(Next(w, Reply(o, e)))
  {
    InProgress(w, o);
    GiveBack(w, o, Next(w, Reply(o, e)));
  }

  lemma UnlockStep(w: World, o: nat, e: Ended)
    requires Inv(w) && Enabled(w, StreamUnlock(o, e))
    ensures Inv(Next(w, StreamUnlock(o, e)))
  {
    InProgress(w, o);
    Moves(w, o, Next(w, StreamUnlock(o, e)));
  }

  lemma ReleaseStep(w: World, o: nat)
    requires Inv(w) && Enabled(w, StreamRelease(o))
    ensures Inv(Next(w, StreamRelease(o)))
  {
    InProgress(w, o);
    GiveBack(w, o, Next(w, StreamRelease(o)));
  }

  /** What the invariant says of an operation that has a connection. */
  lemma InProgress(w: World, o: nat)
    requires Inv(w) && o in w.ops && HasConn(w.ops[o].phase)
    ensures o in Keepers(w) && w.ops[o].phase.c in w.out && w.ops[o].phase.c in w.locks
    ensures w.ops[o].sends <= SendBound(w.ops[o]) && RetryOk(w.ops[o])
  {
    assert o in Keepers(w);
  }

  lemma StartStep(w: World, o: nat, e: Ended)
    requires Inv(w) && Enabled(w, StreamStart(o, e))
    ensures Inv(Next(w, StreamStart(o, e)))
  {
    InProgress(w, o);
    if e == Fine { Moves(w, o, Next(w, StreamStart(o, e))); } else { GiveBack(w, o, Next(w, StreamStart(o, e))); }
  }

  /** A step of an operation that has no connection before or after it. */
  lemma Waits(w: World, o: nat, v: World)
    requires Inv(w) && o in v.ops && v == w.(ops := w.ops[o := v.ops[o]])
    requires (o in w.ops ==> !HasConn(w.ops[o].phase)) && !HasConn(v.ops[o].phase)
    requires v.ops[o].sends <= SendBound(v.ops[o]) && RetryOk(v.ops[o])
    ensures Inv(v)
  {
    assert o !in Keepers(w);
    KeepersUpdate(w, o, v.ops[o], v);
  }

  lemma TakeOut(w: World, o: nat, c: nat, p: nat)
    requires Inv(w) && Enabled(w, Acquired(o, c, p))
    ensures Inv(Next(w, Acquired(o, c, p)))
  {
    var v := Next(w, Acquired(o, c, p));
    assert o !in Keepers(w);
    KeepersUpdate(w, o, v.ops[o], v);
    TakeOutOwned(w, o, c, p, v);
    TakeOutLocks(w, o, c, p, v);
    TakeOutCounted(w, o, c, p, v);
  }

  lemma TakeOutOwned(w: World, o: nat, c: nat, p: nat, v: World)
    requires Owned(w) && Enabled(w, Acquired(o, c, p)) && v == Next(w, Acquired(o, c, p))
    requires Keepers(v) == Keepers(w) + {o}
    ensures Owned(v)
  {
    forall q | q in Keepers(v)
      ensures v.ops[q].phase.c in v.out && (q != o ==> v.ops[q].phase.c in w.out)
    {
      if q != o { assert q in Keepers(w); }
    }
  }

  lemma TakeOutLocks(w: World, o: nat, c: nat, p: nat, v: World)
    requires Owned(w) && LocksOk(w) && Enabled(w, Acquired(o, c, p)) && v == Next(w, Acquired(o, c, p))
    requires Keepers(v) == Keepers(w) + {o}
    ensures LocksOk(v)
  {
    forall q | q in Keepers(v)
      ensures LockIs(v, v.ops[q].phase.c, LockFor(v.ops[q].phase))
    {
      if q != o { assert q in Keepers(w) && LockIs(w, w.ops[q].phase.c, LockFor(w.ops[q].phase)); }
    }
  }

  lemma TakeOutCounted(w: World, o: nat, c: nat, p: nat, v: World)
    requires Counted(w) && Enabled(w, Acquired(o, c, p)) && v == Next(w, Acquired(o, c, p))
    requires o !in Keepers(w) && Keepers(v) == Keepers(w) + {o}
    ensures Counted(v)
  {
    forall q | q in v.ops
      ensures v.ops[q].sends <= SendBound(v.ops[q]) && RetryOk(v.ops[q])
    {
      assert w.ops[q].sends <= SendBound(w.ops[q]) && RetryOk(w.ops[q]);
    }
  }

  /** A step of an operation that keeps its connection. */
  lemma Moves(w: World, o: nat, v: World)
    requires Inv(w) && o in w.ops && HasConn(w.ops[o].phase) && o in v.ops && HasConn(v.ops[o].phase)
    requires var c := w.ops[o].phase.c;
             && v.ops[o].phase.c == c && c in v.locks && v.locks[c] == LockFor(v.ops[o].phase)
             && v == w.(ops := w.ops[o := v.ops[o]], locks := w.locks[c := v.locks[c]], dirty := v.dirty)
    requires v.ops[o].sends <= SendBound(v.ops[o]) && RetryOk(v.ops[o])
    ensures Inv(v)
  {
    assert o in Keepers(w);
    KeepersUpdate(w, o, v.ops[o], v);
    assert Keepers(v) == Keepers(w);
  }

  /** Every way of giving a connection back: its lock is released, and it is kept idle or destroyed. */
  lemma GiveBack(w: World, o: nat, v: World)
    requires Inv(w) && o in w.ops && HasConn(w.ops[o].phase) && v.ops.Keys == w.ops.Keys
    requires forall q :: q in w.ops && q != o ==> v.ops[q] == w.ops[q]
    requires !HasConn(v.ops[o].phase) && v.ops[o].stream == w.ops[o].stream && v.ops[o].sends == w.ops[o].sends
    requires v.ops[o].phase == Finished
          || (v.ops[o].phase == Acquiring(true) && !w.ops[o].stream && w.ops[o].sends <= 1)
    requires w.ops[o].sends <= SendBound(v.ops[o])
    requires var c := w.ops[o].phase.c;
             && v.out == w.out - {c} && v.back == w.back + 1 && v.handed == w.handed
             && (v.locks == w.locks[c := Connections.Ready] || v.locks == w.locks[c := Connections.Ready] - {c})
    ensures Inv(v)
  {
    var c := w.ops[o].phase.c;
    assert o in Keepers(w) && c in w.out;
    assert v.ops == w.ops[o := v.ops[o]];
    KeepersUpdate(w, o, v.ops[o], v);
  }

  // ---------- every run ----------

  ghost predicate Possible(w: World, run: seq<Step>)
    decreases |run|
  {
    run != [] ==> Enabled(w, run[0]) && Possible(Next(w, run[0]), run[1..])
  }

  function After(w: World, run: seq<Step>): World
    requires Possible(w, run)
    decreases |run|
  {
    if run == [] then w else After(Next(w, run[0]), run[1..])
  }

  const START := World(map[], {}, map[], map[], {}, 0, 0, {})

  lemma {:induction false} RunInv(w: World, run: seq<Step>)
    requires Inv(w) && Possible(w, run)
    ensures Inv(After(w, run))
    decreases |run|
  {
    if run == [] {
    } else {
      StepInv(w, run[0]);
      RunInv(Next(w, run[0]), run[1..]);
    }
  }

  /**
   In every run from an empty pool: the connections handed out and not given back are as many as the
   operations in progress that have one plus the unclosed streams, no two of these share one, and no
   request is sent more than twice, no stream's statement more than once.
   */
  lemma Conservation(run: seq<Step>)
    requires Possible(START, run)
    ensures var w := After(START, run);
            && w.handed - w.back == |w.out| == |Keepers(w)|
            && (forall o, q :: o in Keepers(w) && q in Keepers(w) && o != q ==> w.ops[o].phase.c != w.ops[q].phase.c)
            && (forall o :: o in w.ops ==> w.ops[o].sends <= if w.ops[o].stream then 1 else 2)
  {
    assert Keepers(START) == {};
    RunInv(START, run);
    var w := After(START, run);
    forall o | o in w.ops
      ensures w.ops[o].sends <= if w.ops[o].stream then 1 else 2
    {
      assert w.ops[o].sends <= SendBound(w.ops[o]) && RetryOk(w.ops[o]);
    }
  }

  /** A pooled connection is never refused by its own lock: whoever sends on it finds it Ready. */
  lemma SendFindsReady(run: seq<Step>, o: nat)
    requires Possible(START, run) && Enabled(After(START, run), Send(o))
    ensures var w := After(START, run);
            var c := w.ops[o].phase.c;
            LockIs(w, c, Connections.Ready) && Connections.Locked(w.locks[c]) == (Connections.Busy, true)
  {
    assert Keepers(START) == {};
    RunInv(START, run);
    assert o in Keepers(After(START, run));
  }

  // ---------- what a reply leads to ----------

  /**
   The end of a request's attempt: a network error on the first is followed by another Acquire, anything
   else ends the request. The connection is given back, Ready, to an open sub-pool, and destroyed when
   its sub-pool is closed and after any error of a first attempt.
   */
  lemma ReplyOutcome(w: World, o: nat, e: Ended)
    requires Inv(w) && Enabled(w, Reply(o, e))
    ensures var (c, second) := (w.ops[o].phase.c, w.ops[o].phase.second);
            var v := Next(w, Reply(o, e));
            && v.ops[o].phase == (if e.NetworkError? && !second then Acquiring(true) else Finished)
            && c in w.out && v.out == w.out - {c}
            && (c in v.locks <==> (e == Fine || second) && !(c in w.home && w.home[c] in w.shut))
            && (c in v.locks ==> v.locks[c] == Connections.Ready)
            && v.locks - {c} == w.locks - {c}
            && (c in v.locks ==>
                  (c in v.dirty <==> c in w.dirty || ((e.NetworkError? || e.OtherError?) && e.unread)))
  {
    InProgress(w, o);
  }

  /** Acquire hands out a connection of an open sub-pool that nobody has, Ready, or ends the operation. */
  lemma AcquireOutcome(w: World, s: Step)
    requires Inv(w) && Enabled(w, s) && (s.Acquired? || s.AcquireFailed?)
    ensures var v := Next(w, s);
            if s.AcquireFailed? then v == w.(ops := v.ops) && v.ops[s.o].phase == Finished
            else
              && v.ops[s.o].phase == Handed(s.c, w.ops[s.o].phase.second) && v.handed == w.handed + 1
              && s.c !in w.out && v.out == w.out + {s.c} && LockIs(v, s.c, Connections.Ready)
              && s.p !in v.shut && v.home[s.c] == s.p && (s.c in w.locks ==> w.home[s.c] == s.p)
  {
  }

  /** A stream that started keeps its connection, locked; one that did not, or was closed, gives it back. */
  lemma StreamOutcome(w: World, o: nat, s: Step)
    requires Inv(w) && Enabled(w, s) && (s.StreamStart? || s.StreamRelease?) && s.o == o
    ensures var c, v := w.ops[o].phase.c, Next(w, s);
            if s.StreamStart? && s.e == Fine then
              v.ops[o].phase == StreamOpen(c) && c in v.out && LockIs(v, c, Connections.Busy)
            else
              && v.ops[o].phase == Finished && v.out == w.out - {c}
              && (c in v.locks <==> !(c in w.home && w.home[c] in w.shut))
              && (c in v.locks ==>
                    && v.locks[c] == Connections.Ready
                    && (c in v.dirty <==> || c in w.dirty
                                          || (s.StreamStart? && (s.e.NetworkError? || s.e.OtherError?) && s.e.unread)))
  {
    InProgress(w, o);
    assert LockIs(w, w.ops[o].phase.c, LockFor(w.ops[o].phase));
  }

  /** Closing a stream unlocks its connection, which may hold part of the response when the stream broke. */
  lemma UnlockOutcome(w: World, o: nat, e: Ended)
    requires Inv(w) && Enabled(w, StreamUnlock(o, e))
    ensures var c, v := w.ops[o].phase.c, Next(w, StreamUnlock(o, e));
            && v.ops[o].phase == StreamClosing(c) && v.out == w.out && LockIs(v, c, Connections.Ready)
            && (c in v.dirty <==> c in w.dirty || ((e.NetworkError? || e.OtherError?) && e.unread))
  {
  }

  /** The operation is at, or past, a second attempt. */
  predicate Retried(op: Op) {
    op.sends > 1 || ((op.phase.Acquiring? || op.phase.Handed? || op.phase.Sent?) && op.phase.second)
  }

  /** Only a network error of its own leads an operation there. */
  lemma RetriedStep(w: World, s: Step, o: nat)
    requires Inv(w) && Enabled(w, s) && o in Next(w, s).ops && Retried(Next(w, s).ops[o])
    ensures (o in w.ops && Retried(w.ops[o])) || (s.Reply? && s.o == o && s.e.NetworkError?)
  {
    if o in w.ops { assert w.ops[o].sends <= SendBound(w.ops[o]) && RetryOk(w.ops[o]); }
  }

  lemma {:induction false} RetriedRun(w: World, run: seq<Step>, o: nat)
    requires Inv(w) && Possible(w, run) && o in After(w, run).ops && Retried(After(w, run).ops[o])
    ensures (o in w.ops && Retried(w.ops[o]))
            || exists i :: 0 <= i < |run| && run[i].Reply? && run[i].o == o && run[i].e.NetworkError?
    decreases |run|
  {
    if run == [] {
    } else {
      var s, v, rest := run[0], Next(w, run[0]), run[1..];
      StepInv(w, s);
      RetriedRun(v, rest, o);
      if i :| 0 <= i < |rest| && rest[i].Reply? && rest[i].o == o && rest[i].e.NetworkError? {
        assert run[i + 1] == rest[i];
      } else {
        RetriedStep(w, s, o);
      }
    }
  }

  /** A statement is sent a second time only after a network error ended the first attempt. */
  lemma RetryOnNetworkError(run: seq<Step>, o: nat)
    requires Possible(START, run) && o in After(START, run).ops && After(START, run).ops[o].sends > 1
    ensures exists i :: 0 <= i < |run| && run[i].Reply? && run[i].o == o && run[i].e.NetworkError?
  {
    assert Keepers(START) == {};
    RetriedRun(START, run, o);
  }

  /** Once no operation is in progress and every stream is closed, every connection has been given back. */
  lemma AllReturned(run: seq<Step>)
    requires Possible(START, run)
    requires forall o :: o in After(START, run).ops ==> After(START, run).ops[o].phase == Finished
    ensures After(START, run).out == {} && After(START, run).handed == After(START, run).back
  {
    Conservation(run);
    var w := After(START, run);
    assert Keepers(w) == {};
  }

  // ---------- what an idle connection holds ----------

  /** No idle connection may hold part of an earlier response. */
  ghost predicate IdleClean(w: World) {
    forall c :: c in w.locks && c !in w.out ==> c !in w.dirty
  }

  /** Connections are handed out clean and get dirty only at the end of their statement. */
  ghost predicate InUseClean(w: World) {
    && (forall c :: c in w.dirty ==> c in w.locks)
    && (forall o :: o in Keepers(w) && !w.ops[o].phase.StreamClosing? ==> w.ops[o].phase.c !in w.dirty)
  }

  /**
   The steps that put a connection that may hold an unread response back into an open sub-pool: a
   second attempt that broke, a stream that could not be started, and the release of a stream that broke.
   */
  predicate ReturnsDirty(w: World, s: Step)
    requires Enabled(w, s)
  {
    match s
    case Reply(o, e) => !Shut(w, w.ops[o].phase.c) && w.ops[o].phase.second && !Clean(e)
    case StreamStart(o, e) => !Shut(w, w.ops[o].phase.c) && !Clean(e)
    case StreamRelease(o) => !Shut(w, w.ops[o].phase.c) && w.ops[o].phase.c in w.dirty
    case _ => false
  }

  /** Steps of an operation that has a connection. */
  predicate Uses(s: Step) {
    s.Reply? || s.StreamStart? || s.StreamUnlock? || s.StreamRelease? || s.Send?
  }

  /** Another operation's connection is not the one the step is about. */
  lemma Apart(w: World, s: Step, o: nat)
    requires Inv(w) && Enabled(w, s) && o in Keepers(w) && Uses(s)
    ensures s.o in Keepers(w) && (s.o != o ==> w.ops[s.o].phase.c != w.ops[o].phase.c)
  {
    assert s.o in Keepers(w);
  }

  lemma KeepsClean(w: World, s: Step, o: nat)
    requires Inv(w) && InUseClean(w) && IdleClean(w) && Enabled(w, s)
    requires o in Keepers(Next(w, s)) && !Next(w, s).ops[o].phase.StreamClosing?
    ensures Next(w, s).ops[o].phase.c !in Next(w, s).dirty
  {
    if o in Keepers(w) {
      InProgress(w, o);
      if !Uses(s) {
      } else if s.o == o {
        KeepsOwn(w, s);
      } else {
        KeepsOther(w, s, o);
      }
    }
  }

  lemma KeepsOwn(w: World, s: Step)
    requires Inv(w) && InUseClean(w) && Enabled(w, s) && Uses(s)
    requires s.o in Keepers(w) && s.o in Keepers(Next(w, s)) && !Next(w, s).ops[s.o].phase.StreamClosing?
    ensures Next(w, s).ops[s.o].phase.c !in Next(w, s).dirty
  {
    assert !w.ops[s.o].phase.StreamClosing?;
  }

  lemma KeepsOther(w: World, s: Step, o: nat)
    requires Inv(w) && InUseClean(w) && Enabled(w, s) && Uses(s) && s.o != o && o in Keepers(w)
    requires !Next(w, s).ops[o].phase.StreamClosing?
    ensures Next(w, s).ops[o].phase.c !in Next(w, s).dirty
  {
    var c, d := w.ops[o].phase.c, w.ops[s.o].phase.c;
    Apart(w, s, o);
    assert Next(w, s).ops[o] == w.ops[o] && c !in w.dirty;
    assert Next(w, s).dirty <= w.dirty + {d};
  }

  lemma KeepsKnown(w: World, s: Step, c: nat)
    requires Inv(w) && InUseClean(w) && Enabled(w, s) && c in Next(w, s).dirty
    ensures c in Next(w, s).locks
  {
    if Uses(s) {
      assert s.o in Keepers(w);
    }
  }

  lemma KeepsInUse(w: World, s: Step)
    requires Inv(w) && InUseClean(w) && IdleClean(w) && Enabled(w, s)
    ensures InUseClean(Next(w, s))
  {
    var v := Next(w, s);
    forall o | o in Keepers(v) && !v.ops[o].phase.StreamClosing?
      ensures v.ops[o].phase.c !in v.dirty
    {
      KeepsClean(w, s, o);
    }
    forall c | c in v.dirty
      ensures c in v.locks
    {
      KeepsKnown(w, s, c);
    }
  }

  /** From a pool whose idle connections are clean, a step leaves one that is not exactly when it returns it dirty. */
  lemma StaysClean(w: World, s: Step)
    requires Inv(w) && InUseClean(w) && IdleClean(w) && Enabled(w, s)
    ensures IdleClean(Next(w, s)) <==> !ReturnsDirty(w, s)
  {
    if ReturnsDirty(w, s) {
      DirtyReturn(w, s);
    } else if Uses(s) {
      CleanReturn(w, s);
    }
  }

  lemma DirtyReturn(w: World, s: Step)
    requires Inv(w) && Enabled(w, s) && ReturnsDirty(w, s)
    ensures !IdleClean(Next(w, s))
  {
    var c, v := w.ops[s.o].phase.c, Next(w, s);
    InProgress(w, s.o);
    assert c in v.locks && c !in v.out && c in v.dirty;
  }

  lemma CleanReturn(w: World, s: Step)
    requires Inv(w) && InUseClean(w) && IdleClean(w) && Enabled(w, s) && Uses(s) && !ReturnsDirty(w, s)
    ensures IdleClean(Next(w, s))
  {
    var c, v := w.ops[s.o].phase.c, Next(w, s);
    InProgress(w, s.o);
    assert v.out == w.out || v.out == w.out - {c};
    forall d | d in v.locks && d !in v.out
      ensures d !in v.dirty
    {
      if d != c { assert d in w.locks && d !in w.out && v.dirty <= w.dirty + {c}; }
    }
  }

  ghost predicate NoneReturnsDirty(w: World, run: seq<Step>)
    requires Possible(w, run)
    decreases |run|
  {
    run != [] ==> !ReturnsDirty(w, run[0]) && NoneReturnsDirty(Next(w, run[0]), run[1..])
  }

  /** Every point of a run from w has clean idle connections. */
  ghost predicate AlwaysClean(w: World, run: seq<Step>)
    requires Possible(w, run)
    decreases |run|
  {
    IdleClean(w) && (run != [] ==> AlwaysClean(Next(w, run[0]), run[1..]))
  }

  lemma {:induction false} CleanRuns(w: World, run: seq<Step>)
    requires Inv(w) && InUseClean(w) && IdleClean(w) && Possible(w, run)
    ensures AlwaysClean(w, run) <==> NoneReturnsDirty(w, run)
    decreases |run|
  {
    if run == [] {
    } else {
      StaysClean(w, run[0]);
      if !ReturnsDirty(w, run[0]) {
        StepInv(w, run[0]);
        KeepsInUse(w, run[0]);
        CleanRuns(Next(w, run[0]), run[1..]);
      } else {
        assert !AlwaysClean(Next(w, run[0]), run[1..]);
      }
    }
  }

  /**
   In a run from an empty pool no idle connection may at any point hold part of a response, if and only
   if no second attempt breaks, no stream fails to start and no stream that broke is released, other
   than by an error that leaves nothing unread or with the connection's own sub-pool closed.
   */
  lemma PoolStaysClean(run: seq<Step>)
    requires Possible(START, run)
    ensures AlwaysClean(START, run) <==> NoneReturnsDirty(START, run)
  {
    assert Keepers(START) == {};
    CleanRuns(START, run);
  }

  const BROKEN_FIRST: seq<Step> := [Begin(0, false), Acquired(0, 0, 0), Send(0), Reply(0, NetworkError(true))]
  const BROKEN_SECOND: seq<Step> := [Acquired(0, 1, 0), Send(0), Reply(0, NetworkError(true))]
  const BETWEEN := World(map[], {}, map[0 := Op(false, Acquiring(true), 1)], map[0 := 0], {}, 1, 1, {})

  lemma FirstBreaks()
    ensures Possible(START, BROKEN_FIRST) && After(START, BROKEN_FIRST) == BETWEEN
  {
    var w1 := Next(START, BROKEN_FIRST[0]);
    var w2 := Next(w1, BROKEN_FIRST[1]);
    var w3 := Next(w2, BROKEN_FIRST[2]);
    Prepend(w3, BROKEN_FIRST[3..]);
    Prepend(w2, BROKEN_FIRST[2..]);
    Prepend(w1, BROKEN_FIRST[1..]);
    Prepend(START, BROKEN_FIRST);
  }

  lemma SecondBreaks()
    ensures Possible(BETWEEN, BROKEN_SECOND)
    ensures var w := After(BETWEEN, BROKEN_SECOND);
            1 in w.locks && 1 !in w.out && 1 in w.dirty && 0 in w.ops && w.ops[0].sends == 2
  {
    var w1 := Next(BETWEEN, BROKEN_SECOND[0]);
    var w2 := Next(w1, BROKEN_SECOND[1]);
    Prepend(w2, BROKEN_SECOND[2..]);
    Prepend(w1, BROKEN_SECOND[1..]);
    Prepend(BETWEEN, BROKEN_SECOND);
  }

  /** A request whose two attempts both break leaves its second connection idle and dirty. */
  lemma RetryReturnsDirty()
    ensures var run := BROKEN_FIRST + BROKEN_SECOND;
            && Possible(START, run)
            && var w := After(START, run);
               1 in w.locks && 1 !in w.out && 1 in w.dirty && 0 in w.ops && w.ops[0].sends == 2
  {
    FirstBreaks();
    SecondBreaks();
    RunOn(START, BROKEN_FIRST, BROKEN_SECOND);
  }

  lemma {:induction false} RunOn(w: World, a: seq<Step>, b: seq<Step>)
    requires Possible(w, a) && Possible(After(w, a), b)
    ensures Possible(w, a + b) && After(w, a + b) == After(After(w, a), b)
    decreases |a|
  {
    if a == [] {
      assert a + b == b;
    } else {
      assert (a + b)[1..] == a[1..] + b;
      RunOn(Next(w, a[0]), a[1..], b);
    }
  }

  lemma Prepend(w: World, run: seq<Step>)
    requires run != [] && Enabled(w, run[0]) && Possible(Next(w, run[0]), run[1..])
    ensures Possible(w, run) && After(w, run) == After(Next(w, run[0]), run[1..])
  {
  }
}
