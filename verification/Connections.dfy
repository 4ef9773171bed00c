/**
 Who may use a connection's wire: the Ready/Busy/Closed lock, requests and streams of any number of
 callers, interleaved step by step.
 */
module Connections {

  datatype ConnState = Initial | Ready | Busy | Closed

  /** The state as an object; every method is one step under the mutex. */
  class Conn {
    var state: ConnState

    constructor ()
      ensures state == Ready
    {
      state := Busy;
      new;
      state := Ready;
    }

    method Lock() returns (ok: bool)
      modifies this
      ensures ok <==> old(state) == Ready
      ensures state == (if ok then Busy else old(state)) && (state, ok) == Locked(old(state))
    {
      if state != Ready { return false; }
      state := Busy;
      return true;
    }

    method Unlock()
      modifies this
      ensures state == Ready
    {
      state := Ready;
    }

    /** Whether this call closes the socket. */
    method Close() returns (first: bool)
      modifies this
      ensures state == Closed && first == (old(state) != Closed)
    {
      if state == Closed { return false; }
      state := Closed;
      return true;
    }
  }

  function Locked(s: ConnState): (ConnState, bool) {
    if s == Ready then (Busy, true) else (s, false)
  }

  // ---------- callers ----------

  /** Where a call of Exec, Select, Insert or Ping, or a stream, stands. */
  datatype Phase =
    | Requesting          // Exec, Select, Insert or Ping after its lock
    | Opening             // SelectStream or InsertStream after its lock
    | Streaming           // handed to the caller, not closed
    | Draining            // inside the stream's Close, before its release
    | Over                // returned, failed or released

  datatype World = World(state: ConnState, calls: map<nat, Phase>)

  datatype Step =
    | Request(i: nat)     // a request tries to lock
    | Reply(i: nat)       // a request returns and unlocks
    | Open(i: nat)        // a stream tries to lock
    | OpenFailed(i: nat)  // sending its query failed: unlock
    | Opened(i: nat)
    | Use(i: nat)         // Next, Append, Cancel or the request itself writes or reads
    | CloseStream(i: nat) // Close marks the stream closed
    | Release(i: nat)     // Close calls the release function: unlock
    | CloseConn           // Conn.Close, by anyone

  predicate Holding(p: Phase) {
    p != Over
  }

  function Holders(w: World): set<nat> {
    set i | i in w.calls && Holding(w.calls[i])
  }

  predicate At(w: World, i: nat, p: Phase) {
    i in w.calls && w.calls[i] == p
  }

  predicate Enabled(w: World, s: Step) {
    match s
    case Request(i) => i !in w.calls
    case Reply(i) => At(w, i, Requesting)
    case Open(i) => i !in w.calls
    case OpenFailed(i) => At(w, i, Opening)
    case Opened(i) => At(w, i, Opening)
    case Use(i) => i in Holders(w)
    case CloseStream(i) => i in w.calls
    case Release(i) => At(w, i, Draining)
    case CloseConn => true
  }

  /** A failed lock ends the call with an error; closing a stream twice does nothing. */
  function Next(w: World, s: Step): World
    requires Enabled(w, s)
  {
    match s
    case Request(i) =>
      var (state, ok) := Locked(w.state);
      World(state, w.calls[i := if ok then Requesting else Over])
    case Reply(i) => World(Ready, w.calls[i := Over])
    case Open(i) =>
      var (state, ok) := Locked(w.state);
      World(state, w.calls[i := if ok then Opening else Over])
    case OpenFailed(i) => World(Ready, w.calls[i := Over])
    case Opened(i) => World(w.state, w.calls[i := Streaming])
    case Use(_) => w
    case CloseStream(i) => if w.calls[i] == Streaming then World(w.state, w.calls[i := Draining]) else w
    case Release(i) => World(Ready, w.calls[i := Over])
    case CloseConn => World(Closed, w.calls)
  }

  /** At most one holder, Busy exactly as long as it must be, and Ready only when nobody holds. */
  ghost predicate Exclusive(w: World) {
    && (forall i, j :: i in Holders(w) && j in Holders(w) ==> i == j)
    && (Holders(w) != {} ==> w.state == Busy || w.state == Closed)
    && (w.state == Busy ==> Holders(w) != {})
    && w.state != Initial
  }

  lemma HoldersUpdate(w: World, state: ConnState, i: nat, p: Phase)
    ensures Holders(World(state, w.calls[i := p]))
         == if Holding(p) then Holders(w) + {i} else Holders(w) - {i}
  {
  }

  lemma StepExclusive(w: World, s: Step)
    requires Exclusive(w) && Enabled(w, s)
    ensures Exclusive(Next(w, s))
  {
    match s
    case Request(i) =>
      HoldersUpdate(w, Locked(w.state).0, i, if Locked(w.state).1 then Requesting else Over);
      assert i !in Holders(w);
    case Open(i) =>
      HoldersUpdate(w, Locked(w.state).0, i, if Locked(w.state).1 then Opening else Over);
      assert i !in Holders(w);
    case Reply(i) => Freed(w, i);
    case OpenFailed(i) => Freed(w, i);
    case Release(i) => Freed(w, i);
    case Opened(i) =>
      assert i in Holders(w);
      HoldersUpdate(w, w.state, i, Streaming);
    case CloseStream(i) =>
      if w.calls[i] == Streaming {
        assert i in Holders(w);
        HoldersUpdate(w, w.state, i, Draining);
      }
    case Use(_) =>
    case CloseConn => assert Holders(World(Closed, w.calls)) == Holders(w);
  }

  /** The only holder gives the connection back. */
  lemma Freed(w: World, i: nat)
    requires Exclusive(w) && i in w.calls && Holding(w.calls[i])
    ensures Holders(World(Ready, w.calls[i := Over])) == {}
  {
    assert i in Holders(w);
    HoldersUpdate(w, Ready, i, Over);
  }

  /** What each step does: a lock on a Ready connection makes its caller a holder, any other refuses it. */
  lemma StepOutcome(w: World, s: Step)
    requires Enabled(w, s)
    ensures var v := Next(w, s);
            match s
            case Request(i) =>
              && At(v, i, if w.state == Ready then Requesting else Over)
              && v.state == (if w.state == Ready then Busy else w.state)
            case Open(i) =>
              && At(v, i, if w.state == Ready then Opening else Over)
              && v.state == (if w.state == Ready then Busy else w.state)
            case Opened(i) => At(v, i, Streaming) && v.state == w.state
            case CloseStream(i) =>
              At(v, i, if w.calls[i] == Streaming then Draining else w.calls[i]) && v.state == w.state
            case CloseConn => v.calls == w.calls && v.state == Closed
            case Use(_) => v == w
            case _ => At(v, s.i, Over) && v.state == Ready
  {
  }

  ghost predicate Possible(w: World, run: seq<Step>)
    decreases |run|
  {
    run != [] ==> Enabled(w, run[0]) && Possible(Next(w, run[0]), run[1..])
  }

  function After(w: World, run: seq<Step>): World
    requires Possible(w, run)
    decreases |run|
  {
    if run == [] then w else After(Next(w, run[0]), run[1..])
  }

  const START := World(Ready, map[])

  /**
   Over every interleaving of any number of callers, at most one request or stream holds the
   connection, the state is Busy or Closed while one does, and every use of the wire is by it.
   */
  lemma {:induction false} MutualExclusion(w: World, run: seq<Step>)
    requires Exclusive(w) && Possible(w, run)
    ensures Exclusive(After(w, run))
    ensures forall i: nat :: Enabled(After(w, run), Use(i)) ==> Holders(After(w, run)) == {i}
    decreases |run|
  {
    if run == [] {
    } else {
      StepExclusive(w, run[0]);
      MutualExclusion(Next(w, run[0]), run[1..]);
    }
  }

  lemma StartExclusive()
    ensures Exclusive(START) && Holders(START) == {}
  {
  }

  /** In every run of a new connection. */
  lemma OneHolder(run: seq<Step>)
    requires Possible(START, run)
    ensures Exclusive(After(START, run))
    ensures forall i: nat :: Enabled(After(START, run), Use(i)) ==> Holders(After(START, run)) == {i}
  {
    StartExclusive();
    MutualExclusion(START, run);
  }

  // ---------- unlocking and closing out of turn ----------

  /** SelectStream.Release or Conn.Unlock called from outside a Close. */
  function Unlocked(w: World): World {
    World(Ready, w.calls)
  }

  /** An unlock outside Close keeps mutual exclusion exactly when nobody holds the connection. */
  lemma StrayUnlock(w: World)
    requires Exclusive(w)
    ensures Exclusive(Unlocked(w)) <==> Holders(w) == {}
  {
    assert Holders(Unlocked(w)) == Holders(w);
  }

  /** After a stray unlock under a holder, the next request joins it on the wire. */
  lemma TwoHolders(w: World, i: nat, j: nat)
    requires Exclusive(w) && i in Holders(w) && j !in w.calls
    ensures Enabled(Unlocked(w), Request(j))
    ensures Holders(Next(Unlocked(w), Request(j))) == {i, j}
  {
    assert Holders(Unlocked(w)) == Holders(w) == {i};
    HoldersUpdate(Unlocked(w), Busy, j, Requesting);
  }

  lemma {:induction false} ClosedWithoutHolder(w: World, run: seq<Step>)
    requires Exclusive(w) && w.state == Closed && Holders(w) == {} && Possible(w, run)
    ensures After(w, run).state == Closed && Holders(After(w, run)) == {}
    decreases |run|
  {
    if run == [] {
    } else {
      var s, v := run[0], Next(w, run[0]);
      forall i | i in w.calls
        ensures w.calls[i] == Over
      {
        assert i !in Holders(w);
      }
      assert v.state == Closed && Holders(v) == {};
      StepExclusive(w, s);
      ClosedWithoutHolder(v, run[1..]);
    }
  }

  /** The steps by which a holder gives the connection back. */
  function WayOut(p: Phase, i: nat): seq<Step>
    requires Holding(p)
  {
    match p
    case Requesting => [Reply(i)]
    case Opening => [OpenFailed(i)]
    case Streaming => [CloseStream(i), Release(i)]
    case Draining => [Release(i)]
  }

  lemma OneStep(w: World, s: Step)
    requires Enabled(w, s)
    ensures Possible(w, [s]) && After(w, [s]) == Next(w, s)
  {
    assert [s][1..] == [];
    assert Possible(Next(w, s), []);
  }

  lemma HolderReopens(w: World, i: nat)
    requires i in Holders(w)
    ensures var run := WayOut(w.calls[i], i); Possible(w, run) && After(w, run).state == Ready
  {
    if w.calls[i] == Streaming {
      var v := Next(w, CloseStream(i));
      OneStep(v, Release(i));
      assert [CloseStream(i), Release(i)][1..] == [Release(i)];
    } else {
      OneStep(w, WayOut(w.calls[i], i)[0]);
    }
  }

  /** Conn.Close is final exactly when it does not run under a holder, whose unlock makes the state Ready again. */
  lemma CloseIsFinal(w: World)
    requires Exclusive(w)
    ensures var c := Next(w, CloseConn);
            (forall run :: Possible(c, run) ==> After(c, run).state == Closed) <==> Holders(w) == {}
  {
    var c := Next(w, CloseConn);
    StepExclusive(w, CloseConn);
    assert Holders(c) == Holders(w);
    if Holders(w) == {} {
      forall run | Possible(c, run)
        ensures After(c, run).state == Closed
      {
        ClosedWithoutHolder(c, run);
      }
    } else {
      var i :| i in Holders(c);
      HolderReopens(c, i);
    }
  }
}
