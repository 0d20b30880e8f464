/**
 * The iteration schemes of the two `ACM.loop` methods, stated for any step
 * function: `Iterate` applies a step k times, `Trace` runs up to k passes
 * that end at the first snake meeting `stop` (ACM/ACM.js: length 0), and `Iterates` is
 * the list of all k iterates that KASS/ACM.js records.
 */
module Runs {
  import opened Wrappers
  import opened Contours

  /** The snake after k steps. */
  function Iterate(step: Contour -> Contour, s: Contour, k: nat): Contour {
    if k == 0 then s else step(Iterate(step, s, k - 1))
  }

  lemma {:induction false} IterateShift(step: Contour -> Contour, s: Contour, i: nat)
    ensures Iterate(step, step(s), i) == Iterate(step, s, i + 1)
  {
    if i > 0 {
      IterateShift(step, s, i - 1);
    }
  }

  /** Iterates 1 .. k, as the loop of KASS/ACM.js records them. */
  function Iterates(step: Contour -> Contour, s: Contour, k: nat): (r: seq<Contour>)
    ensures |r| == k
  {
    seq(k, i requires 0 <= i < k => Iterate(step, s, i + 1))
  }

  /** One more pass appends the next iterate. */
  lemma IteratesSnoc(step: Contour -> Contour, s: Contour, k: nat)
    ensures Iterates(step, s, k + 1) == Iterates(step, s, k) + [step(Iterate(step, s, k))]
  {
    var a, b := Iterates(step, s, k + 1), Iterates(step, s, k) + [step(Iterate(step, s, k))];
    assert forall i :: 0 <= i < k + 1 ==> a[i] == b[i];
  }

  /** Each snake of `rs` is one step from the snake before it, the first one from s. */
  ghost predicate Chain(step: Contour -> Contour, s: Contour, rs: seq<Contour>) {
    (|rs| > 0 ==> rs[0] == step(s)) &&
    forall i :: 0 < i < |rs| ==> rs[i] == step(rs[i - 1])
  }

  /** The snake after the steps `rs` from s. */
  function Last(s: Contour, rs: seq<Contour>): (r: Contour)
    ensures rs != [] ==> r == rs[|rs| - 1]
    ensures rs == [] ==> r == s
  {
    if rs == [] then s else rs[|rs| - 1]
  }

  /** A chain is extended by the step from its last snake. */
  lemma ChainSnoc(step: Contour -> Contour, s: Contour, rs: seq<Contour>, next: Contour)
    requires Chain(step, s, rs) && next == step(Last(s, rs))
    ensures Chain(step, s, rs + [next]) && Last(s, rs + [next]) == next
  {
    var r := rs + [next];
    forall i | 0 < i < |r|
      ensures r[i] == step(r[i - 1])
    {
      assert r[i - 1] == rs[i - 1];
      if i < |rs| {
        assert r[i] == rs[i];
      }
    }
  }

  /** A chain of steps is the list of iterates, and its last snake the last iterate. */
  lemma {:induction false} ChainIterates(step: Contour -> Contour, s: Contour, rs: seq<Contour>)
    requires Chain(step, s, rs)
    ensures rs == Iterates(step, s, |rs|) && Last(s, rs) == Iterate(step, s, |rs|)
    decreases |rs|
  {
    if rs != [] {
      var n := |rs| - 1;
      var front := rs[..n];
      assert Chain(step, s, front) by {
        forall i | 0 < i < |front|
          ensures front[i] == step(front[i - 1])
        {
          assert front[i] == rs[i] && front[i - 1] == rs[i - 1];
        }
      }
      ChainIterates(step, s, front);
      assert rs[n] == step(Last(s, front));
      IteratesSnoc(step, s, n);
      assert rs == front + [rs[n]];
    }
  }

  /** Conversely, the iterates form a chain: the two descriptions agree. */
  lemma IteratesChain(step: Contour -> Contour, s: Contour, k: nat)
    ensures Chain(step, s, Iterates(step, s, k))
  {
    var rs := Iterates(step, s, k);
    if k > 0 {
      assert rs[0] == Iterate(step, s, 1);
    }
    forall i | 0 < i < k
      ensures rs[i] == step(rs[i - 1])
    {
      assert rs[i] == Iterate(step, s, i + 1);
      assert rs[i - 1] == Iterate(step, s, i);
    }
  }

  /** The snakes a stopping run kept, and whether it stopped early. */
  datatype Outcome = Outcome(snakes: seq<Contour>, collapsed: bool)

  function Prepend(done: seq<Contour>, o: Outcome): Outcome {
    Outcome(done + o.snakes, o.collapsed)
  }

  lemma PrependNothing(o: Outcome)
    ensures Prepend([], o) == o
  {
    assert [] + o.snakes == o.snakes;
  }

  /**
   * Up to k passes from s: each new snake that does not meet `stop` is kept
   * and fed back; the first that does ends the run.
   */
  function Trace(step: Contour -> Contour, stop: Contour -> bool, s: Contour, k: nat): Outcome
    decreases k, 1
  {
    if k == 0 then Outcome([], false) else TraceOn(step, stop, s, k)
  }

  /** The first of k passes from s, then the k - 1 passes from the snake it leaves. */
  function TraceOn(step: Contour -> Contour, stop: Contour -> bool, s: Contour, k: nat): Outcome
    requires k > 0
    decreases k, 0
  {
    if !stop(step(s)) then Prepend([step(s)], Trace(step, stop, step(s), k - 1))
    else Outcome([], true)
  }

  /** One pass of a run after the passes already done: it keeps the new snake or stops. */
  lemma TracePass(step: Contour -> Contour, stop: Contour -> bool, done: seq<Contour>, s: Contour, k: nat)
    requires k > 0
    ensures !stop(step(s)) ==>
      Prepend(done, Trace(step, stop, s, k)) == Prepend(done + [step(s)], Trace(step, stop, step(s), k - 1))
    ensures stop(step(s)) ==> Prepend(done, Trace(step, stop, s, k)) == Outcome(done, true)
  {
    assert Trace(step, stop, s, k) == TraceOn(step, stop, s, k);
    var o := Trace(step, stop, step(s), k - 1);
    assert (done + [step(s)]) + o.snakes == done + ([step(s)] + o.snakes);
  }

  /**
   * The loop invariant of a stopping run: after `done`, the rest of the run
   * starts from s with `left` passes to go; a pass to `next` either extends
   * `done` or ends the run.
   */
  lemma Advance(step: Contour -> Contour, stop: Contour -> bool, s0: Contour, k: nat,
                done: seq<Contour>, s: Contour, left: nat, next: Contour)
    requires 0 < left && next == step(s)
    requires Trace(step, stop, s0, k) == Prepend(done, Trace(step, stop, s, left))
    ensures !stop(next) ==>
      Trace(step, stop, s0, k) == Prepend(done + [next], Trace(step, stop, next, left - 1))
    ensures stop(next) ==> Trace(step, stop, s0, k) == Outcome(done, true)
  {
    TracePass(step, stop, done, s, left);
  }


  /** Without a stop the run makes exactly k passes; with one, fewer. */
  lemma {:induction false} TraceLength(step: Contour -> Contour, stop: Contour -> bool, s: Contour, k: nat)
    decreases k
    ensures var o := Trace(step, stop, s, k);
      |o.snakes| <= k && (o.collapsed <==> |o.snakes| < k)
  {
    if k > 0 && !stop(step(s)) {
      assert Trace(step, stop, s, k) == TraceOn(step, stop, s, k);
      TraceLength(step, stop, step(s), k - 1);
    }
  }

  /**
   * The kept snakes are the first iterates, none meeting `stop`, and an
   * early end means that the next iterate meets it.
   */
  lemma {:induction false} TraceIterates(step: Contour -> Contour, stop: Contour -> bool, s: Contour, k: nat)
    decreases k
    ensures var o := Trace(step, stop, s, k);
      (forall i :: 0 <= i < |o.snakes| ==> o.snakes[i] == Iterate(step, s, i + 1) && !stop(o.snakes[i])) &&
      (o.collapsed ==> stop(Iterate(step, s, |o.snakes| + 1)))
  {
    if k > 0 {
      assert Trace(step, stop, s, k) == TraceOn(step, stop, s, k);
      var tmp := step(s);
      assert Iterate(step, s, 1) == tmp;
      if !stop(tmp) {
        TraceIterates(step, stop, tmp, k - 1);
        var rest := Trace(step, stop, tmp, k - 1);
        forall i | 0 <= i <= |rest.snakes|
          ensures Iterate(step, tmp, i) == Iterate(step, s, i + 1)
        {
          IterateShift(step, s, i);
        }
      }
    }
  }

  /** A run in which no iterate meets `stop` keeps all k iterates. */
  lemma {:induction false} TraceWithoutStop(step: Contour -> Contour, stop: Contour -> bool, s: Contour, k: nat)
    requires forall i :: 1 <= i <= k ==> !stop(Iterate(step, s, i))
    decreases k
    ensures Trace(step, stop, s, k) == Outcome(Iterates(step, s, k), false)
  {
    if k > 0 {
      assert Trace(step, stop, s, k) == TraceOn(step, stop, s, k);
      assert Iterate(step, s, 1) == step(s);
      forall i | 1 <= i <= k - 1
        ensures !stop(Iterate(step, step(s), i))
      {
        IterateShift(step, s, i);
      }
      TraceWithoutStop(step, stop, step(s), k - 1);
      var rest := Iterates(step, step(s), k - 1);
      forall i | 0 <= i < k - 1
        ensures rest[i] == Iterate(step, s, i + 2)
      {
        IterateShift(step, s, i + 1);
      }
      assert [step(s)] + rest == Iterates(step, s, k);
    }
  }
  /** The snake after one pass, and whether the pass recorded it. */
  datatype Pass = Pass(snake: Contour, kept: bool)

  /** The recorded snakes ahead of what the remaining passes record; nothing if those fail. */
  function After(done: seq<Contour>, rest: Option<seq<Contour>>): Option<seq<Contour>> {
    match rest
    case None => None
    case Some(cs) => Some(done + cs)
  }

  /**
   * k passes from s, each of which may fail (an exception, ending the run
   * with no result); every pass replaces the snake and may record it.
   */
  function Recorded(step: Contour -> Option<Pass>, s: Contour, k: nat): Option<seq<Contour>>
    decreases k, 1
  {
    if k == 0 then Some([]) else Proceed(step, s, k)
  }

  /** The pass from s, then the k - 1 passes from the snake it leaves. */
  function Proceed(step: Contour -> Option<Pass>, s: Contour, k: nat): Option<seq<Contour>>
    requires k > 0
    decreases k, 0
  {
    match step(s)
    case None => None
    case Some(pass) =>
      After(if pass.kept then [pass.snake] else [], Recorded(step, pass.snake, k - 1))
  }

  /** One pass of a recording run after the passes that recorded `done`. */
  lemma RecordedPass(step: Contour -> Option<Pass>, done: seq<Contour>, s: Contour, k: nat)
    requires k > 0
    ensures step(s).None? ==> After(done, Recorded(step, s, k)) == None
    ensures step(s).Some? ==>
      After(done, Recorded(step, s, k)) ==
      After(done + (if step(s).value.kept then [step(s).value.snake] else []), Recorded(step, step(s).value.snake, k - 1))
  {
    assert Recorded(step, s, k) == Proceed(step, s, k);
    if step(s).Some? {
      var pass := step(s).value;
      var pushed := if pass.kept then [pass.snake] else [];
      var rest := Recorded(step, pass.snake, k - 1);
      if rest.Some? {
        assert (done + pushed) + rest.value == done + (pushed + rest.value);
      }
    }
  }

  /**
   * The loop invariant of a recording run: after `done`, the rest of the
   * run starts from s with `left` passes to go; the pass from s ends the run
   * when it fails, and otherwise extends `done` by what it records.
   */
  lemma RecordedAdvance(step: Contour -> Option<Pass>, s0: Contour, k: nat,
                        done: seq<Contour>, s: Contour, left: nat, next: Option<Pass>)
    requires 0 < left && next == step(s)
    requires Recorded(step, s0, k) == After(done, Recorded(step, s, left))
    ensures next.None? ==> Recorded(step, s0, k) == None
    ensures next.Some? && next.value.kept ==>
      Recorded(step, s0, k) == After(done + [next.value.snake], Recorded(step, next.value.snake, left - 1))
    ensures next.Some? && !next.value.kept ==>
      Recorded(step, s0, k) == After(done, Recorded(step, next.value.snake, left - 1))
  {
    RecordedPass(step, done, s, left);
    assert done + [] == done;
  }


  /** At the start nothing is recorded; at the end the recorded snakes are the result. */
  lemma RecordedEnds(step: Contour -> Option<Pass>, s: Contour, k: nat, done: seq<Contour>)
    ensures After([], Recorded(step, s, k)) == Recorded(step, s, k)
    ensures After(done, Recorded(step, s, 0)) == Some(done)
  {
    var rest := Recorded(step, s, k);
    if rest.Some? {
      assert [] + rest.value == rest.value;
    }
    assert done + [] == done;
  }

  /** At most one snake per pass is recorded, and each is one a pass recorded. */
  lemma {:induction false} RecordedBy(step: Contour -> Option<Pass>, ok: Contour -> bool, s: Contour, k: nat)
    requires forall c :: step(c).Some? && step(c).value.kept ==> ok(step(c).value.snake)
    decreases k
    ensures var r := Recorded(step, s, k);
      r.Some? ==> |r.value| <= k && forall j :: 0 <= j < |r.value| ==> ok(r.value[j])
  {
    if k > 0 {
      assert Recorded(step, s, k) == Proceed(step, s, k);
      if step(s).Some? {
        RecordedBy(step, ok, step(s).value.snake, k - 1);
      }
    }
  }
}
