/**
  Every request is answered. What a request gets is counted against what it has been through, key by key and in every
  reachable state; and what a step does to it does not depend on the requests beside it.
 */
module Answering {
  import opened Common
  import opened Protocol
  import opened Safety
  import opened Execution
  import opened Liveness

  /** The request has got what it will get: it is past its handler run, or past the sending of its replay. */
  predicate Settled(st: Stage) {
    st.Produced? || st.Stamped? || st.InMemory? || st.Expiring? || st.CreateWait? || st.Creating? || st.Created? || st.Done?
  }

  function SettledCount(reqs: seq<Req>, k: CacheKey): nat {
    if reqs == [] then 0
    else SettledCount(reqs[..|reqs| - 1], k) +
         var last := reqs[|reqs| - 1]; if last.key == k && Settled(last.stage) then 1 else 0
  }

  /** How many requests have come with k. */
  function Requests(reqs: seq<Req>, k: CacheKey): nat {
    if reqs == [] then 0
    else Requests(reqs[..|reqs| - 1], k) + if reqs[|reqs| - 1].key == k then 1 else 0
  }

  /** The payloads of the answers to k that a handler wrote itself, in order. */
  function FirstHand(answers: seq<Answer>, k: CacheKey): seq<Payload> {
    if answers == [] then []
    else FirstHand(answers[..|answers| - 1], k) +
         var last := answers[|answers| - 1]; if last.key == k && !last.replayed then [last.payload] else []
  }

  // ---- Sums ----

  lemma {:induction false} SettledUpdate(reqs: seq<Req>, r: nat, st: Stage, k: CacheKey)
    requires r < |reqs|
    ensures SettledCount(reqs[r := reqs[r].(stage := st)], k) + (if reqs[r].key == k && Settled(reqs[r].stage) then 1 else 0) ==
            SettledCount(reqs, k) + (if reqs[r].key == k && Settled(st) then 1 else 0)
  {
    var n, now := |reqs| - 1, reqs[r].(stage := st);
    if r == n {
      assert reqs[r := now][..n] == reqs[..n];
    } else {
      assert reqs[r := now][..n] == reqs[..n][r := now];
      SettledUpdate(reqs[..n], r, st, k);
    }
  }

  lemma SettledAppend(reqs: seq<Req>, q: Req, k: CacheKey)
    ensures SettledCount(reqs + [q], k) == SettledCount(reqs, k) + if q.key == k && Settled(q.stage) then 1 else 0
  {
    assert (reqs + [q])[..|reqs|] == reqs;
  }

  lemma {:induction false} AllSettled(reqs: seq<Req>, k: CacheKey)
    requires forall r | 0 <= r < |reqs| :: reqs[r].stage.Done?
    ensures SettledCount(reqs, k) == Requests(reqs, k)
  {
    if reqs != [] {
      AllSettled(reqs[..|reqs| - 1], k);
    }
  }

  lemma HandAppend(answers: seq<Answer>, a: Answer, runs: seq<Run>, run: Run, k: CacheKey)
    ensures FirstHand(answers + [a], k) == FirstHand(answers, k) + if a.key == k && !a.replayed then [a.payload] else []
    ensures Successes(runs + [run], k) ==
            Successes(runs, k) + if run.key == k && run.outcome.Some? then [run.outcome.value] else []
  {
    assert (answers + [a])[..|answers|] == answers;
    assert (runs + [run])[..|runs|] == runs;
  }

  // ---- The account ----

  ghost predicate Balanced(s: State, k: CacheKey) {
    && |Sent(s.answers, k)| + FailCount(s.runs, k) == SettledCount(s.reqs, k)
    && FirstHand(s.answers, k) == Successes(s.runs, k)
  }

  lemma LookupSettles(cfg: Config, s: State, r: nat)
    requires Enabled(cfg, s, Advance(r)) && Rank(s.reqs[r].stage) > 11
    ensures !Settled(Step(cfg, s, r).reqs[r].stage)
  {
  }

  lemma StoreSettles(cfg: Config, s: State, r: nat)
    requires Enabled(cfg, s, Advance(r)) && Rank(s.reqs[r].stage) <= 11
    ensures var was, st := s.reqs[r].stage, Step(cfg, s, r).reqs[r].stage;
            Settled(st) <==> Settled(was) || was.Sending?
  {
  }

  /** A step settles a request exactly when it sends its replay. */
  lemma AdvanceSettles(cfg: Config, s: State, r: nat)
    requires Enabled(cfg, s, Advance(r))
    ensures var was, st := s.reqs[r].stage, Step(cfg, s, r).reqs[r].stage;
            Settled(st) <==> Settled(was) || was.Sending?
  {
    if Rank(s.reqs[r].stage) > 11 {
      LookupSettles(cfg, s, r);
    } else {
      StoreSettles(cfg, s, r);
    }
  }

  lemma AdvanceBalances(cfg: Config, s: State, r: nat, k: CacheKey)
    requires Enabled(cfg, s, Advance(r)) && Balanced(s, k)
    ensures Balanced(Step(cfg, s, r), k)
  {
    var t, q := Step(cfg, s, r), s.reqs[r];
    AdvanceSettles(cfg, s, r);
    StepRequest(cfg, s, r);
    StepAppends(cfg, s, r);
    AdvanceAnswers(cfg, s, r);
    SettledUpdate(s.reqs, r, t.reqs[r].stage, k);
    if q.stage.Sending? {
      var a := Answer(q.key, q.stage.payload, true);
      AnswersAppend(s.answers, a, k);
      HandAppend(s.answers, a, s.runs, Run(q.key, None), k);
    }
  }

  lemma FinishBalances(cfg: Config, s: State, r: nat, outcome: Option<Payload>, k: CacheKey)
    requires Enabled(cfg, s, Finish(r, outcome)) && Balanced(s, k)
    ensures Balanced(FinishRun(cfg, s, r, outcome), k)
  {
    var t, own := FinishRun(cfg, s, r, outcome), s.reqs[r].key;
    SettledUpdate(s.reqs, r, t.reqs[r].stage, k);
    RunsAppend(s.runs, Run(own, outcome), k);
    var a := Answer(own, if outcome.Some? then outcome.value else Payload([], 0, ""), false);
    AnswersAppend(s.answers, a, k);
    HandAppend(s.answers, a, s.runs, Run(own, outcome), k);
  }

  lemma NextBalances(cfg: Config, s: State, l: Label, k: CacheKey)
    requires Enabled(cfg, s, l) && Balanced(s, k)
    ensures Balanced(Next(cfg, s, l), k)
  {
    if l.Advance? {
      AdvanceBalances(cfg, s, l.r, k);
    } else if l.Finish? {
      FinishBalances(cfg, s, l.r, l.outcome, k);
    } else if l.Arrive? {
      SettledAppend(s.reqs, Req(l.inst, l.key, Arrived), k);
    }
  }

  lemma {:induction false} PathBalances(cfg: Config, s: State, ls: seq<Label>, t: State, k: CacheKey)
    requires Path(cfg, s, ls, t) && Balanced(s, k)
    ensures Balanced(t, k)
    decreases |ls|
  {
    if ls != [] {
      NextBalances(cfg, s, ls[0], k);
      PathBalances(cfg, Next(cfg, s, ls[0]), ls[1..], t, k);
    }
  }

  /**
    In every reachable state, for every key: answers and failed runs together are as many as the requests that have
    got past their handler or their replay; and first hand, each successful run was answered with once, in order.
   */
  lemma EachAnsweredOnce(cfg: Config, s: State, k: CacheKey)
    requires Reachable(cfg, s)
    ensures |Sent(s.answers, k)| + FailCount(s.runs, k) == SettledCount(s.reqs, k)
    ensures FirstHand(s.answers, k) == Successes(s.runs, k)
  {
    var start, ls :| Path(cfg, Init(cfg, start), ls, s);
    PathBalances(cfg, Init(cfg, start), ls, s, k);
  }

  /** Once all requests are done, each was answered once or its handler failed; those answered and not run were replays. */
  lemma AllDoneIsAnswered(cfg: Config, s: State, k: CacheKey)
    requires Reachable(cfg, s) && AllDone(s)
    ensures |Sent(s.answers, k)| + FailCount(s.runs, k) == Requests(s.reqs, k)
    ensures |Sent(s.answers, k)| == |Successes(s.runs, k)| + (Requests(s.reqs, k) - RunCount(s.runs, k))
  {
    EachAnsweredOnce(cfg, s, k);
    AllSettled(s.reqs, k);
    RunsAreFailuresAndSuccesses(s.runs, k);
  }

  /**
    Without new arrivals a run takes at most Work request steps, and when no request step is left every request is done,
    no lock is held, no connection is used, and each request was answered once or its handler failed.
   */
  lemma EveryRunCompletes(cfg: Config, s: State, ls: seq<Label>, t: State, i: nat, k: CacheKey)
    requires Reachable(cfg, s) && Path(cfg, s, ls, t) && forall l | l in ls :: !l.Arrive?
    requires cfg.pool <= 0 || cfg.admitted < cfg.pool
    ensures RequestSteps(ls) <= Work(s.reqs)
    ensures !SomeRequestStep(cfg, t) ==> AllDone(t) && t.locks == map[] && Used(t.reqs, i) == 0
    ensures !SomeRequestStep(cfg, t) ==> |Sent(t.answers, k)| + FailCount(t.runs, k) == Requests(t.reqs, k)
  {
    PathWork(cfg, s, ls, t);
    ReachableExtend(cfg, s, ls, t);
    ReachableInv(cfg, t);
    BelowPoolIsDeadlockFree(cfg);
    if !SomeRequestStep(cfg, t) {
      NothingUsed(t.reqs, i);
      assert forall l :: l !in t.locks;
      assert t.locks == map[];
      AllDoneIsAnswered(cfg, t, k);
    }
  }

  // ---- Other requests ----

  /** The state with request r as the only one. */
  function Only(s: State, r: nat): State
    requires r < |s.reqs|
  {
    s.(reqs := [s.reqs[r]])
  }

  /** u is t with the requests beside the only one of t put around it. */
  predicate SameStep(s: State, r: nat, t: State, u: State)
    requires r < |s.reqs| && |u.reqs| == 1
  {
    && t.reqs == s.reqs[r := u.reqs[0]]
    && t.locks.Keys == u.locks.Keys
    && (t.now, t.mem, t.table) == (u.now, u.mem, u.table)
    && (t.runs, t.answers, t.stores) == (u.runs, u.answers, u.stores)
  }

  lemma LookupIsLocal(cfg: Config, s: State, r: nat)
    requires Enabled(cfg, s, Advance(r)) && Rank(s.reqs[r].stage) > 11
    ensures SameStep(s, r, Step(cfg, s, r), Step(cfg, Only(s, r), 0))
  {
  }

  lemma StoreIsLocal(cfg: Config, s: State, r: nat)
    requires Enabled(cfg, s, Advance(r)) && 5 <= Rank(s.reqs[r].stage) <= 11
    ensures SameStep(s, r, Step(cfg, s, r), Step(cfg, Only(s, r), 0))
  {
  }

  lemma EndIsLocal(cfg: Config, s: State, r: nat)
    requires Enabled(cfg, s, Advance(r)) && Rank(s.reqs[r].stage) < 5
    ensures SameStep(s, r, Step(cfg, s, r), Step(cfg, Only(s, r), 0))
  {
  }

  /**
    Whatever other requests are doing, a request's step does to it, to the LRUs, the table and the histories what it
    would do if it were the only one, and takes and frees the same lock.
   */
  lemma StepsAreLocal(cfg: Config, s: State, r: nat)
    requires Enabled(cfg, s, Advance(r))
    ensures SameStep(s, r, Step(cfg, s, r), Step(cfg, Only(s, r), 0))
  {
    if Rank(s.reqs[r].stage) > 11 {
      LookupIsLocal(cfg, s, r);
    } else if Rank(s.reqs[r].stage) >= 5 {
      StoreIsLocal(cfg, s, r);
    } else {
      EndIsLocal(cfg, s, r);
    }
  }

  lemma RunsAreLocal(cfg: Config, s: State, r: nat, outcome: Option<Payload>)
    requires Enabled(cfg, s, Finish(r, outcome))
    ensures SameStep(s, r, FinishRun(cfg, s, r, outcome), FinishRun(cfg, Only(s, r), 0, outcome))
  {
  }
}
