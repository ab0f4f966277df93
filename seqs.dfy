/** Small facts about sequences that both collectors use for their request traces. */
module Seqs {
  import opened Wrappers

  /** The concatenation of a sequence of sequences. */
  function Flatten<T>(xss: seq<seq<T>>): seq<T> {
    if xss == [] then [] else xss[0] + Flatten(xss[1..])
  }

  /** `k` copies of `x`. */
  function Repeat<T>(x: T, k: nat): (r: seq<T>)
    ensures |r| == k && forall j :: 0 <= j < k ==> r[j] == x
  {
    if k == 0 then [] else [x] + Repeat(x, k - 1)
  }

  lemma RepeatSnoc<T>(x: T, k: nat)
    ensures Repeat(x, k) + [x] == Repeat(x, k + 1)
  {
  }

  lemma Assoc<T>(a: seq<T>, b: seq<T>, c: seq<T>)
    ensures a + b + c == a + (b + c)
  {
  }

  /** The values in front of the first failure, and the outcome: that failure, or success when there is none. */
  datatype Prefix<+Y, +E> = Prefix(outcome: Result<(), E>, added: seq<Y>)

  /** A loop over `rs` that keeps each value and stops at the first failure. */
  function Successes<Y, E>(rs: seq<Result<Y, E>>): Prefix<Y, E> {
    if rs == [] then Prefix(Success(()), [])
    else match rs[0]
      case Failure(e) => Prefix(Failure(e), [])
      case Success(y) =>
        var rest := Successes(rs[1..]);
        Prefix(rest.outcome, [y] + rest.added)
  }

  /**
    The values kept are those of the results in front, in order; the outcome is
    a success exactly when every result is one, and otherwise the first failure.
  */
  lemma {:induction false} SuccessesShape<Y, E>(rs: seq<Result<Y, E>>)
    ensures var p := Successes(rs);
            && |p.added| <= |rs|
            && (forall k :: 0 <= k < |p.added| ==> rs[k] == Success(p.added[k]))
            && (p.outcome.Success? <==> |p.added| == |rs|)
            && (p.outcome.Failure? ==> rs[|p.added|] == Failure(p.outcome.error))
    decreases |rs|
  {
    if rs != [] && rs[0].Success? {
      var rest := rs[1..];
      SuccessesShape(rest);
      var p := Successes(rs);
      var q := Successes(rest);
      assert p.added == [rs[0].value] + q.added;
      forall k | 1 <= k < |p.added|
        ensures rs[k] == Success(p.added[k])
      {
        assert p.added[k] == q.added[k - 1];
        assert rest[k - 1] == rs[k];
      }
      if p.outcome.Failure? {
        assert rest[|q.added|] == rs[|p.added|];
      }
    }
  }

  /** One step of `Successes` at position `k`. */
  lemma SuccessesStep<Y, E>(rs: seq<Result<Y, E>>, k: nat)
    requires k < |rs|
    ensures var p := Successes(rs[k..]);
            var rest := Successes(rs[k + 1..]);
            match rs[k]
            case Failure(e) => p == Prefix(Failure(e), [])
            case Success(y) => p == Prefix(rest.outcome, [y] + rest.added)
  {
    assert rs[k..][0] == rs[k];
    assert rs[k..][1..] == rs[k + 1..];
  }

  /** What a stage, or one step of it, does: its outcome, the requests it makes, the items it leaves. */
  datatype Stage<+U, +L, +E> = Stage(outcome: Result<(), E>, requests: seq<U>, items: seq<L>)

  /**
    Steps run one after the other until the first that fails: the requests and
    the items of the steps that ran, in order, and the outcome of the last.
  */
  function Chain<U, L, E>(steps: seq<Stage<U, L, E>>): Stage<U, L, E> {
    if steps == [] then Stage(Success(()), [], [])
    else if steps[0].outcome.Failure? then steps[0]
    else
      var rest := Chain(steps[1..]);
      Stage(rest.outcome, steps[0].requests + rest.requests, steps[0].items + rest.items)
  }

  /** One step of `Chain` at position `k`. */
  lemma ChainStep<U, L, E>(steps: seq<Stage<U, L, E>>, k: nat)
    requires k < |steps|
    ensures var c := Chain(steps[k..]);
            var rest := Chain(steps[k + 1..]);
            && (steps[k].outcome.Failure? ==> c == steps[k])
            && (steps[k].outcome.Success? ==>
                  c == Stage(rest.outcome, steps[k].requests + rest.requests, steps[k].items + rest.items))
  {
    assert steps[k..][0] == steps[k];
    assert steps[k..][1..] == steps[k + 1..];
  }

  /**
    When step `k` makes the one request `us[k]`, the chain makes the requests
    `us` in order up to and including the step that fails, whose outcome is the
    chain's, every step before it having succeeded; and all of them when none fails.
  */
  lemma {:induction false} ChainSingleRequests<U, L, E>(steps: seq<Stage<U, L, E>>, us: seq<U>)
    requires |us| == |steps|
    requires forall k :: 0 <= k < |steps| ==> steps[k].requests == [us[k]]
    ensures var c := Chain(steps);
            && |c.requests| <= |us|
            && (forall k :: 0 <= k < |c.requests| ==> c.requests[k] == us[k])
            && (c.outcome.Success? ==> |c.requests| == |us|)
            && (c.outcome.Failure? ==>
                  && 1 <= |c.requests|
                  && c.outcome == steps[|c.requests| - 1].outcome
                  && forall k :: 0 <= k < |c.requests| - 1 ==> steps[k].outcome.Success?)
    decreases |steps|
  {
    if steps != [] && steps[0].outcome.Success? {
      var tail, vs := steps[1..], us[1..];
      forall k | 0 <= k < |tail|
        ensures tail[k].requests == [vs[k]]
      {
        assert tail[k] == steps[k + 1] && vs[k] == us[k + 1];
      }
      ChainSingleRequests(tail, vs);
      var c := Chain(steps);
      var rest := Chain(tail);
      assert c.requests == [us[0]] + rest.requests;
      forall k | 1 <= k < |c.requests|
        ensures c.requests[k] == us[k]
      {
        assert c.requests[k] == rest.requests[k - 1];
      }
      if c.outcome.Failure? {
        assert steps[|c.requests| - 1] == tail[|rest.requests| - 1];
        forall k | 1 <= k < |c.requests| - 1
          ensures steps[k].outcome.Success?
        {
          assert steps[k] == tail[k - 1];
        }
      }
    }
  }

  /** When no step fails, the chain succeeds with every step's requests and items, in order. */
  lemma {:induction false} ChainAllSucceed<U, L, E>(steps: seq<Stage<U, L, E>>)
    requires forall k :: 0 <= k < |steps| ==> steps[k].outcome.Success?
    ensures var c := Chain(steps);
            && c.outcome == Success(())
            && c.requests == Flatten(seq(|steps|, k requires 0 <= k < |steps| => steps[k].requests))
            && c.items == Flatten(seq(|steps|, k requires 0 <= k < |steps| => steps[k].items))
    decreases |steps|
  {
    if steps != [] {
      var tail := steps[1..];
      forall k | 0 <= k < |tail|
        ensures tail[k].outcome.Success?
      {
        assert tail[k] == steps[k + 1];
      }
      ChainAllSucceed(tail);
      var rs := seq(|steps|, k requires 0 <= k < |steps| => steps[k].requests);
      var its := seq(|steps|, k requires 0 <= k < |steps| => steps[k].items);
      assert rs[1..] == seq(|tail|, k requires 0 <= k < |tail| => tail[k].requests);
      assert its[1..] == seq(|tail|, k requires 0 <= k < |tail| => tail[k].items);
    }
  }

  /** Concatenating one-element sequences gives back their elements. */
  lemma {:induction false} FlattenSingletons<T>(xs: seq<T>)
    ensures Flatten(seq(|xs|, k requires 0 <= k < |xs| => [xs[k]])) == xs
    decreases |xs|
  {
    if xs != [] {
      var ys := seq(|xs|, k requires 0 <= k < |xs| => [xs[k]]);
      assert ys[1..] == seq(|xs[1..]|, k requires 0 <= k < |xs[1..]| => [xs[1..][k]]);
      FlattenSingletons(xs[1..]);
      assert xs == [xs[0]] + xs[1..];
    }
  }
}
