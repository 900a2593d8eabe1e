/** Futures as poll histories, and the one-shot wrapper `Fuse` (src/fuse.rs). */
module Futures {
  import opened Wrappers

  /** An arbitrary future: `answers(n)` is what its poll number `n` returns. It must not be
      polled again once it has answered `Ready`, which `PollOnce` demands of its callers. */
  datatype Future<T> = Future(answers: nat -> Poll<T>, polls: nat, done: bool) {

    ghost predicate Valid() {
      && (done ==> 0 < polls && answers(polls - 1).Ready?)
      && forall n | 0 <= n < (if done then polls - 1 else polls) :: answers(n).Pending?
    }

    function PollOnce(): (r: (Poll<T>, Future<T>))
      requires Valid() && !done
      ensures r.1.Valid() && r.1.answers == answers && r.1.polls == polls + 1
      ensures r.0 == answers(polls) && r.1.done == r.0.Ready?
    {
      var answer := answers(polls);
      (answer, Future(answers, polls + 1, answer.Ready?))
    }

    /** The same future, once its surroundings have decided what its next poll will answer. What it
        has been asked so far is not touched. */
    function Resolve(answer: Poll<T>): (f: Future<T>)
      requires Valid() && !done
      ensures f.Valid() && !f.done && f.polls == polls && f.answers(polls) == answer
      ensures forall n: nat | n != polls :: f.answers(n) == answers(n)
    {
      Future(n => if n == polls then answer else answers(n), polls, false)
    }
  }

  function Unpolled<T>(answers: nat -> Poll<T>): (f: Future<T>)
    ensures f.Valid() && !f.done && f.polls == 0 && f.answers == answers
  {
    Future(answers, 0, false)
  }

  /** What poll number `n` of a fused future must return, from the answers of the inner future
      alone: its first `Ready`, once, and `Pending` at every other time. */
  ghost function FusedAnswer<T>(source: Option<nat -> Poll<T>>, n: nat): Poll<T> {
    match source
    case None => Pending
    case Some(answers) =>
      if forall j | 0 <= j < n :: answers(j).Pending? then answers(n) else Pending
  }

  class Fuse<T> {
    var inner: Option<Future<T>>
    // The answers of the future it wraps or has wrapped, and its own answers so far.
    ghost var source: Option<nat -> Poll<T>>
    ghost var results: seq<Poll<T>>

    ghost predicate Valid()
      reads this
    {
      && (forall n | 0 <= n < |results| :: results[n] == FusedAnswer(source, n))
      && match inner
         case Some(f) => f.Valid() && !f.done && f.polls == |results| && source == Some(f.answers)
         case None => source.Some? ==> exists j :: 0 <= j < |results| && source.value(j).Ready?
    }

    constructor (inner: Option<Future<T>>)
      requires inner.Some? ==> inner.value.Valid() && !inner.value.done && inner.value.polls == 0
      ensures Valid() && this.inner == inner && results == []
      ensures source == if inner.Some? then Some(inner.value.answers) else None
    {
      this.inner := inner;
      this.source := if inner.Some? then Some(inner.value.answers) else None;
      this.results := [];
    }

    method Poll() returns (r: Poll<T>)
      requires Valid()
      modifies this`inner, this`results
      ensures Valid()
      ensures results == old(results) + [r]
      ensures r == FusedAnswer(source, |old(results)|)
      ensures inner.None? <==> old(inner).None? || r.Ready?
    {
      match inner {
        case Some(fut) =>
          var (answer, polled) := fut.PollOnce();
          r := answer;
          inner := if answer.Ready? then None else Some(polled);
        case None =>
          r := Pending;
      }
      results := results + [r];
    }

    /** The next poll will find that the inner future, if there still is one, answers `answer`. */
    method Resolve(answer: Poll<T>)
      requires Valid()
      modifies this`inner, this`source
      ensures Valid() && (inner.Some? <==> old(inner).Some?)
      ensures FusedAnswer(source, |results|) == if inner.Some? then answer else Pending
      ensures inner.Some? ==> inner.value.answers(inner.value.polls) == answer
    {
      if inner.Some? {
        inner := Some(inner.value.Resolve(answer));
        source := Some(inner.value.answers);
      }
    }
  }

  /** Over any number of polls a fused future is pending throughout, or answers once, with the
      inner future's first result, and is pending before and after. */
  lemma {:induction false} FuseHistory<T>(answers: nat -> Poll<T>, n: nat) returns (k: nat)
    ensures k <= n
    ensures forall j | 0 <= j < k :: answers(j).Pending?
    ensures forall j | 0 <= j < n && j != k :: FusedAnswer(Some(answers), j) == Pending
    ensures k < n ==> answers(k).Ready? && FusedAnswer(Some(answers), k) == answers(k)
  {
    if n == 0 {
      k := 0;
    } else {
      k := FuseHistory(answers, n - 1);
      if k == n - 1 && answers(k).Pending? {
        k := n;
      }
    }
  }

  /** No result is lost: if the inner future would ever be ready, some poll of the fused future
      delivers a result, and no two do. */
  lemma FuseDelivers<T>(answers: nat -> Poll<T>)
    ensures (exists n: nat :: answers(n).Ready?) <==> (exists n: nat :: FusedAnswer(Some(answers), n).Ready?)
    ensures forall m: nat, n: nat ::
              FusedAnswer(Some(answers), m).Ready? && FusedAnswer(Some(answers), n).Ready? ==> m == n
  {
    if n: nat :| answers(n).Ready? {
      var k := FuseHistory(answers, n + 1);
      assert FusedAnswer(Some(answers), k).Ready?;
    }
    if n: nat :| FusedAnswer(Some(answers), n).Ready? {
      assert answers(n).Ready?;
    }
  }
}
