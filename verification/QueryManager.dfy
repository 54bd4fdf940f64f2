// ASyncQueryManager: `query` marks an attempt, calls out, waits and looks at the condition, while `done`
// overwrites the condition from another thread without taking the lock. One action is one atomic step.
module QueryManager {

  datatype Condition = Failed | Initialized | OnGoing | Timeout | Success

  // The loop over the attempts. The code ranges over `iota(num_tries)`, which has no upper end; its name
  // and its callers speak of `num_tries` attempts.
  datatype Loop = Unbounded | Bounded(tries: nat)

  datatype Pc =
    | Check                  // head of the loop
    | Mark                   // about to set the condition to OnGoing
    | Calling                // in func_, lock held
    | Waiting                // in wait_for, lock released
    | Woken(timedOut: bool)  // back from wait_for
    | Test                   // about to compare the condition with Success
    | Fetch                  // about to read the condition again, to return it
    | Sleeping               // between two attempts
    | FinalFetch             // past the loop, about to read the condition
    | Returned(result: Condition)

  // `since` lists what `done` has been called with since the latest attempt was marked; `cut` is how many of
  // these calls the attempt's write of Timeout overwrote, 0 without such a write.
  datatype Query = Query(pc: Pc, condition: Condition, attempts: nat, since: seq<bool>, cut: nat)

  datatype Action =
    | Advance                   // the querying thread takes its next step
    | TimeOut                   // the wait ends by its time
    | Spurious                  // the wait ends for no reason
    | DoneWrite(success: bool)  // first half of `done`
    | Notify                    // second half of `done`

  function Start(stale: Condition): Query {
    Query(Check, stale, 0, [], 0)
  }

  function Advanced(loop: Loop, q: Query): Query {
    match q.pc
    case Check => q.(pc := if loop.Unbounded? || q.attempts < loop.tries then Mark else FinalFetch)
    case Mark => Query(Calling, OnGoing, q.attempts + 1, [], 0)
    case Calling => q.(pc := Waiting)
    case Woken(timedOut) =>
      if timedOut then q.(pc := Test, condition := Timeout, cut := |q.since|) else q.(pc := Test)
    case Test => q.(pc := if q.condition.Success? then Fetch else Sleeping)
    case Fetch => q.(pc := Returned(q.condition))
    case Sleeping => q.(pc := Check)
    case FinalFetch => q.(pc := Returned(q.condition))
    case _ => q
  }

  function Next(loop: Loop, q: Query, a: Action): Query {
    match a
    case Advance => Advanced(loop, q)
    case TimeOut => if q.pc.Waiting? then q.(pc := Woken(true)) else q
    case Spurious => if q.pc.Waiting? then q.(pc := Woken(false)) else q
    case DoneWrite(success) => q.(condition := if success then Success else Failed, since := q.since + [success])
    case Notify => if q.pc.Waiting? then q.(pc := Woken(false)) else q
  }

  function Run(loop: Loop, stale: Condition, acts: seq<Action>): Query {
    if acts == [] then Start(stale) else Next(loop, Run(loop, stale, acts[..|acts| - 1]), acts[|acts| - 1])
  }

  // What the calls of `done` since the mark leave behind, if no timeout overwrites it.
  function LeftByDone(since: seq<bool>): Condition {
    if since == [] then OnGoing else if since[|since| - 1] then Success else Failed
  }

  predicate FailureAfterSuccess(since: seq<bool>) {
    exists i, j :: 0 <= i < j < |since| && since[i] && !since[j]
  }

  // What the condition holds during an attempt.
  predicate Standing(q: Query) {
    && q.cut <= |q.since|
    && (if q.cut < |q.since| then q.condition == LeftByDone(q.since)
        else q.condition.Timeout? || (q.condition.OnGoing? && q.since == []))
  }

  predicate Inv(loop: Loop, q: Query) {
    && (loop.Bounded? ==> q.attempts <= loop.tries && (q.pc.Mark? ==> q.attempts < loop.tries))
    && (!(q.pc.Check? || q.pc.Mark? || q.pc.FinalFetch? || q.pc.Returned?) ==> 0 < q.attempts)
    && (0 < q.attempts ==> Standing(q))
    && (q.pc.Fetch? ==> true in q.since && q.condition == LeftByDone(q.since))
    && (q.pc.Returned? && (loop.Unbounded? || (q.pc.result.Success? && 0 < q.attempts)) ==> true in q.since)
    && (q.pc.FinalFetch? ==> loop.Bounded? && q.attempts == loop.tries)
    && (q.pc.Returned? && loop.Unbounded?
        ==> 0 < q.attempts && (q.pc.result.Success? || (q.pc.result.Failed? && FailureAfterSuccess(q.since))))
  }

  lemma FetchSeesFailure(since: seq<bool>)
    requires true in since && LeftByDone(since) != Success
    ensures LeftByDone(since) == Failed && FailureAfterSuccess(since)
  {
    var i :| 0 <= i < |since| && since[i];
    assert since[i] && !since[|since| - 1];
  }

  lemma DoneKeepsInv(loop: Loop, q: Query, success: bool)
    requires Inv(loop, q)
    ensures Inv(loop, Next(loop, q, DoneWrite(success)))
  {
    var longer := q.since + [success];
    assert true in q.since ==> true in longer;
    if FailureAfterSuccess(q.since) {
      var i, j :| 0 <= i < j < |q.since| && q.since[i] && !q.since[j];
      assert longer[i] && !longer[j];
    }
  }

  lemma NextKeepsInv(loop: Loop, q: Query, a: Action)
    requires Inv(loop, q)
    ensures Inv(loop, Next(loop, q, a))
  {
    match a
    case DoneWrite(success) => DoneKeepsInv(loop, q, success);
    case Advance =>
      if q.pc.Fetch? && q.condition != Success {
        FetchSeesFailure(q.since);
      }
      hide FailureAfterSuccess;
    case _ =>
  }

  lemma {:induction false} RunKeepsInv(loop: Loop, stale: Condition, acts: seq<Action>)
    ensures Inv(loop, Run(loop, stale, acts))
  {
    if acts != [] {
      RunKeepsInv(loop, stale, acts[..|acts| - 1]);
      hide Inv;
      NextKeepsInv(loop, Run(loop, stale, acts[..|acts| - 1]), acts[|acts| - 1]);
    }
  }

  // Under every interleaving of calls of `done`, timeouts, lost and spurious wakeups, a query that has made
  // an attempt returns Success only if `done(true)` was called after its latest attempt was marked, and a
  // bounded loop makes no more attempts than it is given.
  lemma HandshakeIsSafe(loop: Loop, stale: Condition, acts: seq<Action>)
    ensures var q := Run(loop, stale, acts);
            && (q.pc == Returned(Success) && 0 < q.attempts ==> true in q.since)
            && (loop.Bounded? ==> q.attempts <= loop.tries)
  {
    RunKeepsInv(loop, stale, acts);
  }

  // The loop as written returns only past its test for Success: `done(true)` was called since the mark, and
  // the result is Success unless a `done(false)` came in between that test and the read of the result.
  lemma WrittenLoopReturnsOnlyOnSuccess(stale: Condition, acts: seq<Action>)
    ensures var q := Run(Unbounded, stale, acts);
            q.pc.Returned?
            ==> && 0 < q.attempts && true in q.since
                && (q.pc.result.Success? || (q.pc.result.Failed? && FailureAfterSuccess(q.since)))
  {
    RunKeepsInv(Unbounded, stale, acts);
  }

  // An attempt passes its test exactly when the last call of `done` since the mark reported success and no
  // write of Timeout came after it.
  lemma AttemptPassesIff(loop: Loop, stale: Condition, acts: seq<Action>)
    requires Run(loop, stale, acts).pc.Test?
    ensures var q := Run(loop, stale, acts);
            Next(loop, q, Advance).pc.Fetch? <==> q.cut < |q.since| && q.since[|q.since| - 1]
  {
    RunKeepsInv(loop, stale, acts);
  }

  lemma Extend(loop: Loop, stale: Condition, acts: seq<Action>, a: Action) returns (longer: seq<Action>)
    ensures Run(loop, stale, longer) == Next(loop, Run(loop, stale, acts), a)
    ensures longer == acts + [a]
    ensures DoneWrite(true) in longer <==> DoneWrite(true) in acts || a == DoneWrite(true)
  {
    longer := acts + [a];
    assert longer[..|longer| - 1] == acts;
  }

  // A query that waits and is told `done(true)` returns Success with its next steps, whatever came before in
  // the attempt.
  lemma PromptAnswerReturns(loop: Loop, stale: Condition, acts: seq<Action>)
    requires Run(loop, stale, acts).pc.Waiting?
    ensures var q := Run(loop, stale, acts + [DoneWrite(true), Notify, Advance, Advance, Advance]);
            q.pc == Returned(Success) && q.attempts == Run(loop, stale, acts).attempts
  {
    var told := acts + [DoneWrite(true)];
    var longer := Extend(loop, stale, acts, DoneWrite(true));
    longer := Extend(loop, stale, told, Notify);
    longer := Extend(loop, stale, told + [Notify], Advance);
    longer := Extend(loop, stale, told + [Notify, Advance], Advance);
    longer := Extend(loop, stale, told + [Notify, Advance, Advance], Advance);
    hide Run;
    assert told + [Notify, Advance] == told + [Notify] + [Advance];
    assert told + [Notify, Advance, Advance] == told + [Notify, Advance] + [Advance];
    assert acts + [DoneWrite(true), Notify, Advance, Advance, Advance] == told + [Notify, Advance, Advance] + [Advance];
  }

  // One attempt that is answered with a failure leads back to the head of the loop.
  lemma FailedAttempt(stale: Condition, acts: seq<Action>) returns (longer: seq<Action>)
    requires Run(Unbounded, stale, acts).pc.Check?
    ensures Run(Unbounded, stale, longer).pc.Check?
    ensures Run(Unbounded, stale, longer).attempts == Run(Unbounded, stale, acts).attempts + 1
    ensures DoneWrite(true) in longer <==> DoneWrite(true) in acts
  {
    hide Run;
    longer := Extend(Unbounded, stale, acts, Advance);
    longer := Extend(Unbounded, stale, longer, Advance);
    longer := Extend(Unbounded, stale, longer, DoneWrite(false));
    longer := Extend(Unbounded, stale, longer, Advance);
    longer := Extend(Unbounded, stale, longer, Notify);
    longer := Extend(Unbounded, stale, longer, Advance);
    longer := Extend(Unbounded, stale, longer, Advance);
    longer := Extend(Unbounded, stale, longer, Advance);
  }

  // As written there is no bound on the attempts: failing answers are retried for ever.
  lemma {:induction false} WrittenLoopRetriesForEver(stale: Condition, n: nat) returns (acts: seq<Action>)
    ensures Run(Unbounded, stale, acts).pc.Check? && Run(Unbounded, stale, acts).attempts == n
    ensures DoneWrite(true) !in acts
  {
    if n == 0 {
      acts := [];
    } else {
      acts := WrittenLoopRetriesForEver(stale, n - 1);
      acts := FailedAttempt(stale, acts);
    }
  }

  // A bounded loop without attempts hands back whatever an earlier query left; this is the only way to
  // Success without a `done(true)`.
  lemma StaleSuccessIff(loop: Loop, stale: Condition)
    ensures (exists acts :: var q := Run(loop, stale, acts); q.pc == Returned(Success) && true !in q.since)
            <==> loop == Bounded(0) && stale == Success
  {
    if loop == Bounded(0) && stale == Success {
      var acts := Extend(loop, stale, [], Advance);
      acts := Extend(loop, stale, acts, Advance);
      assert Run(loop, stale, acts).pc == Returned(Success) && true !in Run(loop, stale, acts).since;
    } else {
      forall acts | Run(loop, stale, acts).pc == Returned(Success) ensures true in Run(loop, stale, acts).since {
        RunKeepsInv(loop, stale, acts);
        if loop.Bounded? {
          NoAttemptNoSuccess(loop, stale, acts);
        }
      }
    }
  }

  // While no attempt has been made, the condition is the stale one or what `done` wrote over it.
  lemma {:induction false} NoAttemptNoSuccess(loop: Loop, stale: Condition, acts: seq<Action>)
    requires loop.Bounded?
    ensures var q := Run(loop, stale, acts);
            q.attempts == 0 ==>
              && (q.pc.Check? || q.pc.Mark? || q.pc.FinalFetch? || q.pc.Returned?)
              && (q.pc.FinalFetch? || q.pc.Returned? ==> loop.tries == 0)
              && (q.condition == if q.since == [] then stale else LeftByDone(q.since))
              && (q.pc == Returned(Success) ==> stale == Success || true in q.since)
  {
    if acts != [] {
      NoAttemptNoSuccess(loop, stale, acts[..|acts| - 1]);
      var before, a := Run(loop, stale, acts[..|acts| - 1]), acts[|acts| - 1];
      assert a.DoneWrite? && true in before.since ==> true in before.since + [a.success];
      hide Run;
    }
  }

  // An answer can be lost: `done(true)` between the end of the wait by its time and the write of Timeout is
  // overwritten, and the attempt counts as failed.
  lemma AnswerMayBeLost(stale: Condition) returns (acts: seq<Action>)
    ensures var q := Run(Unbounded, stale, acts); q.pc.Sleeping? && q.attempts == 1 && q.since == [true] && q.cut == 1
  {
    acts := Extend(Unbounded, stale, [], Advance);
    acts := Extend(Unbounded, stale, acts, Advance);
    acts := Extend(Unbounded, stale, acts, Advance);
    acts := Extend(Unbounded, stale, acts, TimeOut);
    acts := Extend(Unbounded, stale, acts, DoneWrite(true));
    acts := Extend(Unbounded, stale, acts, Advance);
    acts := Extend(Unbounded, stale, acts, Advance);
  }
}
