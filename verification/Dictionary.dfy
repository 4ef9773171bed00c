/** The dictionary of a LowCardinality block: distinct values in order of first occurrence. */
module Dictionary {
  import opened Codec

  function Dedup(rows: seq<Value>): (d: seq<Value>)
    ensures |d| <= |rows| && (rows != [] ==> d != [])
  {
    if rows == [] then []
    else
      var d := Dedup(Init(rows));
      if Last(rows) in d then d else d + [Last(rows)]
  }

  ghost predicate Distinct(d: seq<Value>) {
    forall i, j :: 0 <= i < j < |d| ==> d[i] != d[j]
  }

  /** Where v stands in d. */
  function Find(d: seq<Value>, v: Value): (i: nat)
    requires v in d
    ensures i < |d| && d[i] == v && v !in d[..i]
  {
    if d[0] == v then 0
    else
      assert v in d[1..];
      var i := Find(d[1..], v);
      assert d[..i + 1] == [d[0]] + d[1..][..i];
      i + 1
  }

  /** The dictionary holds exactly the values that occur, each once. */
  lemma {:induction false} DedupExact(rows: seq<Value>)
    ensures Distinct(Dedup(rows))
    ensures forall v :: v in Dedup(rows) <==> v in rows
  {
    if rows == [] {
    } else {
      DedupExact(Init(rows));
      assert rows == Init(rows) + [Last(rows)];
    }
  }

  lemma {:induction false} FindUnique(d: seq<Value>, v: Value, i: nat)
    requires i < |d| && d[i] == v && v !in d[..i]
    ensures Find(d, v) == i
  {
    if i == 0 {
    } else {
      assert d[..i][0] == d[0] && d[1..][i - 1] == v && d[1..][..i - 1] == d[..i][1..];
      FindUnique(d[1..], v, i - 1);
    }
  }

  lemma FindExtend(d: seq<Value>, x: Value, v: Value)
    requires v in d
    ensures v in d + [x] && Find(d + [x], v) == Find(d, v)
  {
    var i := Find(d, v);
    assert (d + [x])[..i] == d[..i];
    FindUnique(d + [x], v, i);
  }

  /** Values first seen earlier come earlier in the dictionary. */
  lemma {:induction false} DedupOrder(rows: seq<Value>, i: nat, j: nat)
    requires i < j < |Dedup(rows)|
    ensures Dedup(rows)[i] in rows && Dedup(rows)[j] in rows
    ensures Find(rows, Dedup(rows)[i]) < Find(rows, Dedup(rows)[j])
  {
    var d, init := Dedup(rows), Init(rows);
    DedupExact(rows);
    DedupExact(init);
    assert rows == init + [Last(rows)];
    assert d[i] in Dedup(init);
    FindExtend(init, Last(rows), d[i]);
    if j < |Dedup(init)| {
      assert d[j] in Dedup(init);
      DedupOrder(init, i, j);
      FindExtend(init, Last(rows), d[j]);
    } else {
      assert rows[..|init|] == init;
      FindUnique(rows, d[j], |init|);
    }
  }

  /** d lists every value of rows once, in order of first occurrence. */
  ghost predicate IsDictionary(d: seq<Value>, rows: seq<Value>) {
    && Distinct(d) && (forall v :: v in d <==> v in rows)
    && forall i, j :: 0 <= i < j < |d| && d[i] in rows && d[j] in rows ==> Find(rows, d[i]) < Find(rows, d[j])
  }

  lemma DedupIsDictionary(rows: seq<Value>)
    ensures IsDictionary(Dedup(rows), rows)
  {
    DedupExact(rows);
    var d := Dedup(rows);
    forall i, j | 0 <= i < j < |d|
      ensures d[i] in rows && d[j] in rows && Find(rows, d[i]) < Find(rows, d[j])
    {
      DedupOrder(rows, i, j);
    }
  }

  /** The dictionary's position of each row. */
  function Codes(d: seq<Value>, rows: seq<Value>): (ks: seq<Value>)
    requires forall i :: 0 <= i < |rows| ==> rows[i] in d
    ensures |ks| == |rows|
    ensures forall i :: 0 <= i < |rows| ==> ks[i] == Num(Find(d, rows[i]))
  {
    seq(|rows|, i requires 0 <= i < |rows| => Num(Find(d, rows[i])))
  }

  /** Keys that index a dictionary of n entries. */
  predicate InRange(ks: seq<Value>, n: nat) {
    forall i :: 0 <= i < |ks| ==> ks[i].Num? && ks[i].n < n
  }

  /** The rows that keys ks stand for. */
  function Resolve(d: seq<Value>, ks: seq<Value>): (rows: seq<Value>)
    requires InRange(ks, |d|)
    ensures |rows| == |ks|
    ensures forall i :: 0 <= i < |ks| ==> rows[i] == d[ks[i].n]
  {
    seq(|ks|, i requires 0 <= i < |ks| => d[ks[i].n])
  }

  lemma ResolveCodes(d: seq<Value>, rows: seq<Value>)
    requires forall i :: 0 <= i < |rows| ==> rows[i] in d
    ensures InRange(Codes(d, rows), |d|) && Resolve(d, Codes(d, rows)) == rows
  {
  }

  // ---------- how large a dictionary can get ----------

  /** Looking values up cannot make more of them distinct. */
  lemma {:induction false} DedupResolve(d: seq<Value>, ks: seq<Value>)
    requires InRange(ks, |d|)
    ensures |Dedup(Resolve(d, ks))| <= |Dedup(ks)|
  {
    if ks == [] {
    } else {
      var init := Init(ks);
      DedupResolve(d, init);
      assert Init(Resolve(d, ks)) == Resolve(d, init);
      DedupExact(init);
      DedupExact(Resolve(d, init));
      if Last(ks) in Dedup(init) {
        var i :| 0 <= i < |init| && init[i] == Last(ks);
        assert Resolve(d, init)[i] == Last(Resolve(d, ks));
      }
    }
  }

  /** Distinct numbers below a bound are at most that many. */
  lemma {:induction false} Pigeonhole(xs: seq<Value>, bound: nat)
    requires Distinct(xs)
    requires forall i :: 0 <= i < |xs| ==> xs[i].Num? && xs[i].n < bound
    ensures |xs| <= bound
    decreases bound
  {
    if xs == [] {
    } else {
      assert xs[0].n < bound;
      var top := Num(bound - 1);
      if top in xs {
        var p := Find(xs, top);
        var ys := xs[..p] + xs[p + 1..];
        forall i | 0 <= i < |ys|
          ensures ys[i].Num? && ys[i].n < bound - 1
        {
          assert ys[i] == xs[if i < p then i else i + 1];
        }
        Pigeonhole(ys, bound - 1);
      } else {
        forall i | 0 <= i < |xs|
          ensures xs[i].n < bound - 1
        {
          assert xs[i] in xs;
        }
        Pigeonhole(xs, bound - 1);
      }
    }
  }

  /** However a block's rows were coded, they have no more distinct values than it has keys or entries. */
  lemma DistinctRows(d: seq<Value>, ks: seq<Value>, bound: nat)
    requires InRange(ks, |d|)
    requires forall i :: 0 <= i < |ks| ==> ks[i].n < bound
    ensures |Dedup(Resolve(d, ks))| <= bound
  {
    DedupResolve(d, ks);
    DedupExact(ks);
    var xs := Dedup(ks);
    forall i | 0 <= i < |xs|
      ensures xs[i].Num? && xs[i].n < bound
    {
      assert xs[i] in ks;
    }
    Pigeonhole(xs, bound);
  }
}
