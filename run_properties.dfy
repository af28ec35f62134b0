/** What `evaluate` promises about a whole program, read against the record of its
    statements that blocks are read against as well. */
module RunProperties {
  import opened Ast
  import opened Objects
  import opened Evaluator
  import opened EvalProperties

  /** The values of a record with no crash in it, in order. */
  function Values(tr: seq<Result>): (vs: seq<Value>)
    requires forall k | 0 <= k < |tr| :: tr[k].Normal?
    ensures |vs| == |tr| && forall k | 0 <= k < |tr| :: vs[k] == tr[k].value
  {
    if tr == [] then [] else [tr[0].value] + Values(tr[1..])
  }

  /** `r` is what `evaluate` returns, having collected `results`, for statements whose record
      is `tr`: the first `ReturnValue` or `Error` alone in the heap it left, or the crash, or,
      with neither, the results followed by every statement's value. */
  predicate RunYields(tr: seq<Result>, r: Outcome<seq<Value>>, results: seq<Value>, h: Heap, n: nat) {
    (FirstEnd(tr) < |tr| && tr[FirstEnd(tr)].Stuck? ==> r == Stuck(tr[FirstEnd(tr)].reason)) &&
    (FirstEnd(tr) < |tr| && tr[FirstEnd(tr)].Normal? ==>
      r == Normal([tr[FirstEnd(tr)].value], tr[FirstEnd(tr)].heap)) &&
    (FirstEnd(tr) == |tr| ==> |tr| == n && r == Normal(results + Values(tr), FinalHeap(tr, h)))
  }

  /** A first result that does not end the run is pushed, and the rest of the record decides. */
  lemma {:induction false} RunYieldsAfter(x: Result, rest: seq<Result>, r: Outcome<seq<Value>>, results: seq<Value>, h: Heap, n: nat)
    requires x.Normal? && !Ends(x)
    requires RunYields(rest, r, results + [x.value], x.heap, n)
    ensures RunYields([x] + rest, r, results, h, n + 1)
  {
    var tr := [x] + rest;
    assert tr[1..] == rest;
    assert FirstEnd(tr) == 1 + FirstEnd(rest);
    if FirstEnd(rest) < |rest| {
      assert tr[FirstEnd(tr)] == rest[FirstEnd(rest)];
    } else {
      assert Values(tr) == [x.value] + Values(rest);
      assert results + Values(tr) == (results + [x.value]) + Values(rest);
    }
  }

  /** A statement that does not end the run pushes its value and hands on its heap. */
  lemma RunStep(stmts: seq<Statement>, i: nat, env: EnvId, h: Heap, fuel: nat, results: seq<Value>)
    requires i < |stmts| && !Ends(EvalStmt(stmts[i], env, h, fuel))
    ensures var x := EvalStmt(stmts[i], env, h, fuel);
      RunFrom(stmts, i, env, h, fuel, results) == RunFrom(stmts, i + 1, env, x.heap, fuel, results + [x.value])
  {
  }

  /** `RunFrom` from statement `i` on yields what its record says. */
  lemma {:induction false} RunRecord(stmts: seq<Statement>, i: nat, env: EnvId, h: Heap, fuel: nat, results: seq<Value>)
    requires i <= |stmts|
    ensures RunYields(Trace(stmts, i, env, h, fuel), RunFrom(stmts, i, env, h, fuel, results), results, h, |stmts| - i)
    decreases |stmts| - i
  {
    if i == |stmts| {
      assert results + Values([]) == results;
    } else {
      var tr := Trace(stmts, i, env, h, fuel);
      var r := RunFrom(stmts, i, env, h, fuel, results);
      var x := EvalStmt(stmts[i], env, h, fuel);
      TraceHead(stmts, i, env, h, fuel);
      if !Ends(x) {
        var rest := Trace(stmts, i + 1, env, x.heap, fuel);
        RunRecord(stmts, i + 1, env, x.heap, fuel, results + [x.value]);
        TraceCons(stmts, i, env, h, fuel);
        RunStep(stmts, i, env, h, fuel, results);
        RunYieldsAfter(x, rest, r, results, h, |stmts| - i - 1);
      } else {
        assert FirstEnd(tr) == 0;
      }
    }
  }

  /** Given no stopping value among the results so far, a run that yields what its record says
      ends early exactly when some entry of the record ends it. */
  lemma RunEndsExactly(tr: seq<Result>, r: Outcome<seq<Value>>, results: seq<Value>, h: Heap, n: nat)
    requires RunYields(tr, r, results, h, n)
    requires forall k | 0 <= k < |results| :: !Stops(results[k])
    ensures (r.Stuck? || exists k | 0 <= k < |r.value| :: Stops(r.value[k])) <==> (exists k | 0 <= k < |tr| :: Ends(tr[k]))
  {
    if FirstEnd(tr) == |tr| {
      var vs := results + Values(tr);
      assert forall k | 0 <= k < |vs| :: !Stops(vs[k]) by {
        forall k | 0 <= k < |vs|
          ensures !Stops(vs[k])
        {
          if k >= |results| {
            assert vs[k] == tr[k - |results|].value;
          }
        }
      }
    } else {
      assert Ends(tr[FirstEnd(tr)]);
      if tr[FirstEnd(tr)].Normal? {
        assert Stops(r.value[0]);
      }
    }
  }

  /** `evaluate` from statement `i` on, read against the record of its statements: the first
      `ReturnValue` or `Error` in the record is returned alone, in the heap it left, and a
      crash before it is the run's crash; with neither, the run returns the results so far
      followed by every statement's value in order. The run ends early exactly when some
      statement's result ends it. */
  lemma RunStopsAtFirst(stmts: seq<Statement>, i: nat, env: EnvId, h: Heap, fuel: nat, results: seq<Value>)
    requires i <= |stmts|
    requires forall k | 0 <= k < |results| :: !Stops(results[k])
    ensures var tr := Trace(stmts, i, env, h, fuel);
      var r := RunFrom(stmts, i, env, h, fuel, results);
      (FirstEnd(tr) < |tr| && tr[FirstEnd(tr)].Stuck? ==> r == Stuck(tr[FirstEnd(tr)].reason)) &&
      (FirstEnd(tr) < |tr| && tr[FirstEnd(tr)].Normal? ==>
        r == Normal([tr[FirstEnd(tr)].value], tr[FirstEnd(tr)].heap)) &&
      (FirstEnd(tr) == |tr| ==>
        |tr| == |stmts| - i && r == Normal(results + Values(tr), FinalHeap(tr, h)))
    ensures var tr := Trace(stmts, i, env, h, fuel);
      var r := RunFrom(stmts, i, env, h, fuel, results);
      (r.Stuck? || exists k | 0 <= k < |r.value| :: Stops(r.value[k])) <==>
      (exists k | 0 <= k < |tr| :: Ends(tr[k]))
  {
    var tr := Trace(stmts, i, env, h, fuel);
    var r := RunFrom(stmts, i, env, h, fuel, results);
    RunRecord(stmts, i, env, h, fuel, results);
    RunEndsExactly(tr, r, results, h, |stmts| - i);
  }
}
