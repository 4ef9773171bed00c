/** How the pool picks replicas: round robin over the live ones, marking dead and reviving. */
module Replicas {
  import Wire

  /** One address: whether it is marked dead, and its current sub-pool. */
  datatype Sub = Sub(dead: bool, pool: nat)

  /** What a sub-pool's Acquire returned. */
  datatype Try = Got | ClosedPool | ContextOver | DialFailed

  datatype Result = Picked(sub: nat) | PoolClosed | AllUnreachable | Canceled | NoneAvailable

  /** The indices below n of replicas not marked dead, in order. */
  function LiveUpTo(subs: seq<Sub>, n: nat): (live: seq<nat>)
    requires n <= |subs|
    ensures forall i :: 0 <= i < |live| ==> live[i] < n && !subs[live[i]].dead
    ensures forall i, j :: 0 <= i < j < |live| ==> live[i] < live[j]
    ensures forall x :: 0 <= x < n && !subs[x].dead ==> x in live
  {
    if n == 0 then []
    else
      var live := LiveUpTo(subs, n - 1);
      if subs[n - 1].dead then live else live + [n - 1]
  }

  function Live(subs: seq<Sub>): seq<nat> {
    LiveUpTo(subs, |subs|)
  }

  function Wrap(n: nat, k: nat): (r: nat)
    requires n < 2 * k
    ensures r < k
  {
    if n < k then n else n - k
  }

  lemma WrapMod(n: nat, k: nat)
    requires n < 2 * k
    ensures n % k == Wrap(n, k)
  {
    if n >= k { assert n == k + (n - k); ModShift(n - k, k); }
  }

  lemma ModShift(r: nat, k: nat)
    requires r < k
    ensures (k + r) % k == r
  {
    var q := (k + r) / k;
    assert k + r == k * q + (k + r) % k;
    if q >= 2 { Wire.MulMonotone(k, 2, q); }
  }

  /** The i-th replica tried when the turn stands at start. */
  function Turn(live: seq<nat>, start: nat, i: nat): nat
    requires start < |live| && i < |live|
  {
    live[Wrap(start + i, |live|)]
  }

  predicate Passed(t: Try) {
    t == ClosedPool || t == DialFailed
  }

  /** The replicas tried, in order: no replica twice, and only after all before it failed. */
  ghost predicate TriedInTurn(live: seq<nat>, start: nat, tried: seq<nat>, attempt: nat -> Try)
    requires start < |live|
  {
    && |tried| <= |live|
    && (forall i :: 0 <= i < |tried| ==> tried[i] == Turn(live, start, i))
    && (forall i :: 0 <= i < |tried| - 1 ==> Passed(attempt(tried[i])))
  }

  lemma TriedExact(live: seq<nat>, start: nat, tried: seq<nat>, attempt: nat -> Try)
    requires start < |live|
    ensures TriedInTurn(live, start, tried, attempt)
            <==> && |tried| <= |live|
                 && (forall i :: 0 <= i < |tried| ==> tried[i] == live[(start + i) % |live|])
                 && (forall i :: 0 <= i < |tried| - 1 ==> attempt(tried[i]) in {ClosedPool, DialFailed})
  {
    forall i | 0 <= i < |live|
      ensures Turn(live, start, i) == live[(start + i) % |live|]
    {
      WrapMod(start + i, |live|);
    }
  }

  /** Replica x after the tried ones whose dial failed were marked dead. */
  predicate Marked(x: nat, tried: seq<nat>, attempt: nat -> Try) {
    x in tried && attempt(x) == DialFailed
  }

  /** Exactly the tried replicas whose dial failed are marked dead; nothing else changes. */
  ghost predicate MarkedBy(before: seq<Sub>, after: seq<Sub>, tried: seq<nat>, attempt: nat -> Try) {
    && |after| == |before|
    && forall x :: 0 <= x < |before| ==>
         after[x] == if Marked(x, tried, attempt) then Sub(true, before[x].pool) else before[x]
  }

  lemma MarkedExact(before: seq<Sub>, after: seq<Sub>, tried: seq<nat>, attempt: nat -> Try)
    ensures MarkedBy(before, after, tried, attempt)
            <==> && |after| == |before|
                 && forall x :: 0 <= x < |before| ==>
                      && after[x].pool == before[x].pool
                      && (after[x].dead <==> before[x].dead || (x in tried && attempt(x) == DialFailed))
  {
    if |after| == |before| {
      forall x | 0 <= x < |before|
        ensures Marked(x, tried, attempt) <==> x in tried && attempt(x) == DialFailed
      {
      }
    }
  }

  lemma MarkMore(before: seq<Sub>, tried: seq<nat>, x: nat, attempt: nat -> Try)
    requires x < |before|
    ensures forall y {:trigger Marked(y, tried + [x], attempt)} :: Marked(y, tried + [x], attempt)
              <==> Marked(y, tried, attempt) || (y == x && attempt(x) == DialFailed)
  {
  }

  /** Without failures the first replica tried is the last, and none is marked dead. */
  lemma FirstGot(before: seq<Sub>, after: seq<Sub>, live: seq<nat>, start: nat, tried: seq<nat>, attempt: nat -> Try)
    requires start < |live| && tried != [] && TriedInTurn(live, start, tried, attempt)
    requires MarkedBy(before, after, tried, attempt) && forall x :: attempt(x) == Got
    ensures tried == [live[start]] && after == before
  {
    assert |tried| > 1 ==> Passed(attempt(tried[0]));
    assert tried[0] == Turn(live, start, 0);
  }

  /** A turn that goes around tries every live replica exactly once. */
  lemma TurnsCover(live: seq<nat>, start: nat, x: nat)
    requires start < |live| && x in live
    requires forall i, j :: 0 <= i < j < |live| ==> live[i] < live[j]
    ensures exists i :: 0 <= i < |live| && Turn(live, start, i) == x
    ensures forall i, j :: 0 <= i < j < |live| ==> Turn(live, start, i) != Turn(live, start, j)
  {
    var p :| 0 <= p < |live| && live[p] == x;
    var i := if p >= start then p - start else p - start + |live|;
    assert Turn(live, start, i) == x;
  }

  class Pool {
    var subs: seq<Sub>
    var rrIdx: nat
    var closed: bool
    var shut: set<nat>     // the sub-pools that were closed

    ghost predicate Valid()
      reads this
    {
      DeadShut(subs, shut)
    }

    constructor (n: nat)
      ensures Valid() && |subs| == n && !closed && rrIdx == 0 && shut == {}
      ensures forall i :: 0 <= i < n ==> subs[i] == Sub(false, i)
    {
      subs := seq(n, (i: nat) => Sub(false, i));
      rrIdx, closed, shut := 0, false, {};
    }

    /** The second critical section of Acquire, after a failed dial. */
    method MarkDead(x: nat)
      requires Valid() && x < |subs|
      modifies this`subs, this`shut
      ensures Valid() && subs == old(subs)[x := Sub(true, old(subs)[x].pool)]
      ensures shut == if old(subs)[x].dead then old(shut) else old(shut) + {old(subs)[x].pool}
    {
      if !subs[x].dead {
        subs := subs[x := Sub(true, subs[x].pool)];
        shut := shut + {subs[x].pool};
      }
    }

    /** The loop over the live replicas: the last one tried, after all before it failed. */
    method TryInTurn(live: seq<nat>, start: nat, attempt: nat -> Try) returns (tried: seq<nat>)
      requires Valid() && start < |live| && forall i :: 0 <= i < |live| ==> live[i] < |subs|
      modifies this`subs, this`shut
      ensures Valid() && tried != [] && TriedInTurn(live, start, tried, attempt)
      ensures Passed(attempt(tried[|tried| - 1])) ==> |tried| == |live|
      ensures MarkedBy(old(subs), subs, tried, attempt)
    {
      tried := [];
      var idx := start;
      for i := 0 to |live|
        invariant Valid() && |tried| == i && TriedInTurn(live, start, tried, attempt)
        invariant i > 0 ==> Passed(attempt(tried[i - 1]))
        invariant idx == if i < |live| then Wrap(start + i, |live|) else start
        invariant MarkedBy(old(subs), subs, tried, attempt)
      {
        var x := live[idx];
        WrapMod(idx + 1, |live|);
        idx := (idx + 1) % |live|;
        assert x == Turn(live, start, i);
        ghost var before := tried;
        tried := tried + [x];
        var t := attempt(x);
        if t == DialFailed { MarkDead(x); }
        MarkMore(old(subs), before, x, attempt);
        if t == Got || t == ContextOver { return; }
      }
    }

    /**
     Acquire, with attempt telling how each sub-pool answers. The replicas are tried in turn from rrIdx,
     none twice, as long as they have no connection to give. One that has ends it, and so does the
     context; otherwise every live replica was tried, and the error says whether one is still live.
     Exactly those whose dial failed are marked dead.
     */
    method Acquire(attempt: nat -> Try) returns (r: Result, ghost tried: seq<nat>)
      requires Valid()
      modifies this
      ensures Valid() && closed == old(closed) && MarkedBy(old(subs), subs, tried, attempt)
      ensures old(closed) || Live(old(subs)) == [] ==> tried == [] && rrIdx == old(rrIdx)
      ensures !old(closed) && Live(old(subs)) != [] ==>
                var live := Live(old(subs));
                && rrIdx == Wrap(old(rrIdx) % |live| + 1, |live|) && tried != []
                && TriedInTurn(live, old(rrIdx) % |live|, tried, attempt)
                && (attempt(tried[|tried| - 1]) in {ClosedPool, DialFailed} ==> |tried| == |live|)
      ensures r.Picked? ==> tried != [] && r.sub == tried[|tried| - 1] && attempt(r.sub) == Got
      ensures r == Canceled <==> tried != [] && attempt(tried[|tried| - 1]) == ContextOver
      ensures r == PoolClosed <==> old(closed)
      ensures r == AllUnreachable || r == NoneAvailable
              <==> !old(closed) && (tried == [] || attempt(tried[|tried| - 1]) in {ClosedPool, DialFailed})
      ensures r == AllUnreachable ==> forall x :: 0 <= x < |subs| ==> subs[x].dead
      ensures r == NoneAvailable ==> exists x :: 0 <= x < |subs| && !subs[x].dead
    {
      tried := [];
      if closed { return PoolClosed, tried; }
      var live := Live(subs);
      if |live| == 0 {
        assert forall x :: 0 <= x < |subs| ==> subs[x].dead;
        return AllUnreachable, tried;
      }
      var idx := TakeTurn(|live|);
      r, tried := AcquireFrom(live, idx, attempt);
    }

    method TakeTurn(k: nat) returns (idx: nat)
      requires k > 0
      modifies this`rrIdx
      ensures idx == old(rrIdx) % k && rrIdx == Wrap(idx + 1, k)
    {
      idx := rrIdx % k;
      WrapMod(idx + 1, k);
      rrIdx := (idx + 1) % k;
    }

    /** Acquire's loop and what it returns behind it. */
    method AcquireFrom(live: seq<nat>, start: nat, attempt: nat -> Try) returns (r: Result, ghost tried: seq<nat>)
      requires Valid() && start < |live| && forall i :: 0 <= i < |live| ==> live[i] < |subs|
      modifies this`subs, this`shut
      ensures Valid() && MarkedBy(old(subs), subs, tried, attempt)
      ensures tried != [] && TriedInTurn(live, start, tried, attempt)
      ensures r != PoolClosed && (r.Picked? ==> r.sub == tried[|tried| - 1] && attempt(r.sub) == Got)
      ensures r == Canceled <==> attempt(tried[|tried| - 1]) == ContextOver
      ensures r == AllUnreachable || r == NoneAvailable <==> attempt(tried[|tried| - 1]) in {ClosedPool, DialFailed}
      ensures attempt(tried[|tried| - 1]) in {ClosedPool, DialFailed} ==> |tried| == |live|
      ensures r == AllUnreachable ==> forall x :: 0 <= x < |subs| ==> subs[x].dead
      ensures r == NoneAvailable ==> exists x :: 0 <= x < |subs| && !subs[x].dead
    {
      var ts := TryInTurn(live, start, attempt);
      tried := ts;
      var last := ts[|ts| - 1];
      match attempt(last) {
        case Got => return Picked(last), tried;
        case ContextOver => return Canceled, tried;
        case _ =>
      }
      var allDead := AllDead();
      return if allDead then AllUnreachable else NoneAvailable, tried;
    }

    method AllDead() returns (all: bool)
      ensures all <==> forall x :: 0 <= x < |subs| ==> subs[x].dead
    {
      for i := 0 to |subs|
        invariant forall j :: 0 <= j < i ==> subs[j].dead
      {
        if !subs[i].dead { return false; }
      }
      return true;
    }

    /** m calls without a failure pick the live replicas evenly: no two counts differ by more than one. */
    method Rounds(m: nat) returns (picks: seq<nat>)
      requires Valid() && !closed && Live(subs) != []
      modifies this
      ensures |picks| == m && subs == old(subs)
      ensures forall x, y :: x in Live(subs) && y in Live(subs) ==> Count(picks, x) <= Count(picks, y) + 1
    {
      var live := Live(subs);
      ghost var k, start := |live|, rrIdx % |live|;
      picks := [];
      for i := 0 to m
        invariant Valid() && !closed && subs == old(subs) && |picks| == i
        invariant rrIdx % k == TurnAfter(k, start, i)
        invariant forall j :: 0 <= j < i ==> picks[j] == live[Turns(k, start, i)[j]]
      {
        ghost var at := TurnAfter(k, start, i);
        var x := PickOne(live, at);
        picks := picks + [x];
      }
      forall x, y | x in live && y in live
        ensures Count(picks, x) <= Count(picks, y) + 1
      {
        FairPicks(live, start, picks, x, y);
      }
    }

    method PickOne(live: seq<nat>, ghost at: nat) returns (x: nat)
      requires Valid() && !closed && live == Live(subs) && live != [] && rrIdx % |live| == at
      modifies this
      ensures Valid() && !closed && subs == old(subs) && x == live[at]
      ensures rrIdx % |live| == Wrap(at + 1, |live|)
    {
      var always: nat -> Try := _ => Got;
      var r;
      ghost var tried;
      r, tried := Acquire(always);
      FirstGot(old(subs), subs, live, at, tried, always);
      WrapMod(Wrap(at + 1, |live|), |live|);
      return r.sub;
    }
  }

  // ---------- fairness ----------

  function Count(s: seq<nat>, x: nat): nat {
    if s == [] then 0 else Count(s[..|s| - 1], x) + if s[|s| - 1] == x then 1 else 0
  }

  function TurnAfter(k: nat, start: nat, i: nat): (t: nat)
    requires start < k
    ensures t < k
  {
    if i == 0 then start else Wrap(TurnAfter(k, start, i - 1) + 1, k)
  }

  function Turns(k: nat, start: nat, m: nat): (ts: seq<nat>)
    requires start < k
    ensures |ts| == m && forall i :: 0 <= i < m ==> ts[i] < k
  {
    if m == 0 then [] else Turns(k, start, m - 1) + [TurnAfter(k, start, m - 1)]
  }

  lemma {:induction false} CountLifts(live: seq<nat>, turns: seq<nat>, picks: seq<nat>, p: nat)
    requires |turns| == |picks| && p < |live|
    requires forall i, j :: 0 <= i < j < |live| ==> live[i] < live[j]
    requires forall j :: 0 <= j < |turns| ==> turns[j] < |live| && picks[j] == live[turns[j]]
    ensures Count(picks, live[p]) == Count(turns, p)
  {
    if turns == [] {
    } else {
      var t := turns[|turns| - 1];
      assert t < |live| && picks[|picks| - 1] == live[t];
      assert live[t] == live[p] <==> t == p;
      CountLifts(live, turns[..|turns| - 1], picks[..|picks| - 1], p);
    }
  }

  /** How many turns ago p had its turn, counting the round before the first turn, when `at` is next. */
  function Since(k: nat, at: nat, p: nat): nat
    requires at < k && p < k
  {
    if p < at then at - p else at + k - p
  }

  /** Whoever had its turn more recently was picked as often as the other, or once more. */
  lemma {:induction false} Recent(k: nat, start: nat, m: nat, p: nat, q: nat)
    requires start < k && p < k && q < k
    requires Since(k, TurnAfter(k, start, m), p) <= Since(k, TurnAfter(k, start, m), q)
    ensures 0 <= Count(Turns(k, start, m), p) - Count(Turns(k, start, m), q) <= 1
    decreases m
  {
    if m == 0 {
    } else {
      var before, at := Turns(k, start, m - 1), TurnAfter(k, start, m - 1);
      assert Turns(k, start, m)[..m - 1] == before;
      if p == at { Recent(k, start, m - 1, q, p); } else { Recent(k, start, m - 1, p, q); }
    }
  }

  lemma Fair(k: nat, start: nat, m: nat, p: nat, q: nat)
    requires start < k && p < k && q < k
    ensures Count(Turns(k, start, m), p) <= Count(Turns(k, start, m), q) + 1
  {
    var at := TurnAfter(k, start, m);
    if Since(k, at, p) <= Since(k, at, q) { Recent(k, start, m, p, q); } else { Recent(k, start, m, q, p); }
  }

  lemma FairPicks(live: seq<nat>, start: nat, picks: seq<nat>, x: nat, y: nat)
    requires start < |live| && x in live && y in live
    requires forall i, j :: 0 <= i < j < |live| ==> live[i] < live[j]
    requires forall j :: 0 <= j < |picks| ==> picks[j] == live[Turns(|live|, start, |picks|)[j]]
    ensures Count(picks, x) <= Count(picks, y) + 1
  {
    var p :| 0 <= p < |live| && live[p] == x;
    var q :| 0 <= q < |live| && live[q] == y;
    var turns := Turns(|live|, start, |picks|);
    CountLifts(live, turns, picks, p);
    CountLifts(live, turns, picks, q);
    Fair(|live|, start, |picks|, p, q);
  }

  // ---------- dead replicas under all interleavings ----------

  /** Every replica marked dead has a closed sub-pool. */
  ghost predicate DeadShut(subs: seq<Sub>, shut: set<nat>) {
    forall i :: 0 <= i < |subs| && subs[i].dead ==> subs[i].pool in shut
  }

  /** swept: how many sub-pools the loop of Close has closed. */
  datatype World = World(subs: seq<Sub>, shut: set<nat>, closed: bool, swept: nat)

  /** The critical sections that touch replicas, from any number of Acquire calls, health checks and Close. */
  datatype Step =
    | MarkDead(i: nat)              // Acquire, after a failed dial
    | Revive(i: nat, pool: nat)     // checkHealth: close the old sub-pool, install a new one
    | SetClosed                     // Close, its critical section
    | CloseSub(i: nat)              // Close, its loop, outside the mutex

  predicate Enabled(w: World, s: Step) {
    match s
    case MarkDead(i) => i < |w.subs|
    case Revive(i, pool) => i < |w.subs| && pool !in w.shut && forall j :: 0 <= j < |w.subs| ==> pool != w.subs[j].pool
    case SetClosed => true
    case CloseSub(i) => w.closed && i == w.swept < |w.subs|
  }

  function Next(w: World, s: Step): World
    requires Enabled(w, s)
  {
    match s
    case MarkDead(i) =>
      if w.subs[i].dead then w
      else w.(subs := w.subs[i := Sub(true, w.subs[i].pool)], shut := w.shut + {w.subs[i].pool})
    case Revive(i, pool) => w.(subs := w.subs[i := Sub(false, pool)], shut := w.shut + {w.subs[i].pool})
    case SetClosed => w.(closed := true)
    case CloseSub(i) => w.(shut := w.shut + {w.subs[i].pool}, swept := i + 1)
  }

  ghost predicate Possible(w: World, run: seq<Step>)
    decreases |run|
  {
    run != [] ==> Enabled(w, run[0]) && Possible(Next(w, run[0]), run[1..])
  }

  function After(w: World, run: seq<Step>): World
    requires Possible(w, run)
    decreases |run|
  {
    if run == [] then w else After(Next(w, run[0]), run[1..])
  }

  /** A dead replica's sub-pool is closed, at every point of every interleaving. */
  lemma {:induction false} DeadStaysShut(w: World, run: seq<Step>)
    requires DeadShut(w.subs, w.shut) && Possible(w, run)
    ensures DeadShut(After(w, run).subs, After(w, run).shut)
    decreases |run|
  {
    if run == [] {
    } else {
      DeadStaysShut(Next(w, run[0]), run[1..]);
    }
  }

  // ---------- Pool.Close ----------

  ghost predicate Sane(w: World) {
    && DeadShut(w.subs, w.shut)
    && forall i, j :: 0 <= i < j < |w.subs| ==> w.subs[i].pool != w.subs[j].pool
  }

  predicate Shut(w: World, i: nat)
    requires i < |w.subs|
  {
    w.subs[i].pool in w.shut
  }

  predicate AllShut(w: World) {
    forall i :: 0 <= i < |w.subs| ==> Shut(w, i)
  }

  /** The step closes or replaces the sub-pool of replica i. */
  predicate Touches(i: nat, s: Step) {
    !s.SetClosed? && s.i == i
  }

  /** Whether replica i ends up with an open sub-pool: its last step decides, and was does when there is none. */
  predicate Open(i: nat, run: seq<Step>, was: bool) {
    if run == [] then was else Open(i, run[1..], if Touches(i, run[0]) then run[0].Revive? else was)
  }

  lemma OpenStep(w: World, s: Step, i: nat)
    requires Sane(w) && Enabled(w, s) && i < |w.subs|
    ensures Sane(Next(w, s)) && |Next(w, s).subs| == |w.subs|
    ensures !Shut(Next(w, s), i) <==> if Touches(i, s) then s.Revive? else !Shut(w, i)
  {
    var v := Next(w, s);
    if s.Revive? { assert v.subs[s.i].pool == s.pool; }
  }

  /** A sub-pool is open exactly when the last step on its replica was a health check's. */
  lemma {:induction false} OpenExact(w: World, run: seq<Step>, i: nat)
    requires Sane(w) && Possible(w, run) && i < |w.subs|
    ensures |After(w, run).subs| == |w.subs|
    ensures !Shut(After(w, run), i) <==> Open(i, run, !Shut(w, i))
    decreases |run|
  {
    if run == [] {
    } else {
      OpenStep(w, run[0], i);
      OpenExact(Next(w, run[0]), run[1..], i);
    }
  }

  /** Whether replica i ends up dead: its last failed dial or health check decides. */
  predicate EndsDead(i: nat, run: seq<Step>, was: bool) {
    if run == [] then was
    else
      var s := run[0];
      EndsDead(i, run[1..], if s == MarkDead(i) then true else if s.Revive? && s.i == i then false else was)
  }

  /** A replica is dead exactly when the last failed dial or health check on it was a failed dial. */
  lemma {:induction false} DeadExact(w: World, run: seq<Step>, i: nat)
    requires Possible(w, run) && i < |w.subs|
    ensures |After(w, run).subs| == |w.subs|
    ensures After(w, run).subs[i].dead <==> EndsDead(i, run, w.subs[i].dead)
    decreases |run|
  {
    if run == [] {
    } else {
      DeadExact(Next(w, run[0]), run[1..], i);
    }
  }

  /** The last step on replica i is a health check's. */
  predicate RevivedLast(i: nat, run: seq<Step>) {
    Open(i, run, false)
  }

  /** Once the loop of Close has passed replica i, what it was before does not matter. */
  lemma {:induction false} SweptDecides(w: World, run: seq<Step>, i: nat, was: bool)
    requires Possible(w, run) && w.swept <= i < After(w, run).swept
    ensures Open(i, run, was) <==> RevivedLast(i, run)
    decreases |run|
  {
    if run == [] {
      assert false;
    } else {
      var s := run[0];
      if !Touches(i, s) {
        SweptDecides(Next(w, s), run[1..], i, was);
      }
    }
  }

  /**
   Over every interleaving of Close with any number of Acquire calls and health checks: when the loop of
   Close is done, every sub-pool is closed if and only if the last step on no replica is a health
   check's.
   */
  lemma CloseShutsAll(w: World, run: seq<Step>)
    requires Sane(w) && w.swept == 0 && Possible(w, run) && After(w, run).swept == |w.subs|
    ensures AllShut(After(w, run)) <==> forall i :: 0 <= i < |w.subs| ==> !RevivedLast(i, run)
  {
    var v := After(w, run);
    SameReplicas(w, run);
    forall i | 0 <= i < |w.subs|
      ensures Shut(v, i) <==> !RevivedLast(i, run)
    {
      OpenExact(w, run, i);
      SweptDecides(w, run, i, !Shut(w, i));
    }
  }

  lemma {:induction false} SameReplicas(w: World, run: seq<Step>)
    requires Possible(w, run)
    ensures |After(w, run).subs| == |w.subs|
    decreases |run|
  {
    if run == [] {
    } else {
      SameReplicas(Next(w, run[0]), run[1..]);
    }
  }

  /** Once all sub-pools are closed they stay closed until a health check revives one. */
  lemma {:induction false} ShutUntilRevive(w: World, run: seq<Step>)
    requires AllShut(w) && Possible(w, run) && forall s :: s in run ==> !s.Revive?
    ensures AllShut(After(w, run))
    decreases |run|
  {
    if run == [] {
    } else {
      assert run[0] in run && forall s :: s in run[1..] ==> s in run;
      var v := Next(w, run[0]);
      forall i | 0 <= i < |v.subs|
        ensures Shut(v, i)
      {
        assert Shut(w, i);
      }
      ShutUntilRevive(v, run[1..]);
    }
  }

  /** From there, a step opens a sub-pool exactly when it is a health check's. */
  lemma CloseLeak(w: World, s: Step)
    requires AllShut(w) && Enabled(w, s)
    ensures AllShut(Next(w, s)) <==> !s.Revive?
  {
    var v := Next(w, s);
    if s.Revive? {
      assert !Shut(v, s.i);
    } else {
      forall i | 0 <= i < |v.subs|
        ensures Shut(v, i)
      {
        assert Shut(w, i);
      }
    }
  }

  /** A health check that was running when Close came leaves its replica with an open sub-pool. */
  lemma ReviveAfterClose()
    ensures var w, run := World([Sub(true, 0)], {0}, false, 0), [SetClosed, CloseSub(0), Revive(0, 1)];
            Sane(w) && Possible(w, run) && After(w, run).swept == 1 && !AllShut(After(w, run))
  {
    var w, run := World([Sub(true, 0)], {0}, false, 0), [SetClosed, CloseSub(0), Revive(0, 1)];
    var w1 := Next(w, run[0]);
    var w2 := Next(w1, run[1]);
    assert run[1..][1..] == run[2..] && run[2..][1..] == [];
    assert Possible(w2, run[2..]);
    assert Possible(w1, run[1..]);
    assert After(w, run) == Next(w2, run[2]);
    assert !Shut(After(w, run), 0);
  }
}
