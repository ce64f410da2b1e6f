/**
  What the idempotency protocol promises, over every fault-free run: at most one execution and one
  answer before the first row expires, no execution while any row is live, and an LRU that answers
  as the table would.
 */
module Execution {
  import opened Common
  import opened Protocol
  import opened Safety
  import Lru

  /** k's first row has not been inserted yet, or it is the only one and has not expired. */
  ghost predicate BeforeFirstExpiry(s: State, k: CacheKey) {
    Stores(s.stores, k) == 0 || (Stores(s.stores, k) == 1 && Live(s, k))
  }

  /** At most one successful run, and every answer ever sent for k is that run's. */
  lemma AtMostOnce(cfg: Config, s: State, k: CacheKey)
    requires Reachable(cfg, s) && BeforeFirstExpiry(s, k)
    ensures |Successes(s.runs, k)| <= 1
    ensures forall p | p in Sent(s.answers, k) :: Successes(s.runs, k) == [p]
    ensures Live(s, k) ==> Successes(s.runs, k) == [s.table[k].payload]
  {
    ReachableInv(cfg, s);
    assert KeyInv(cfg, s, k);
  }

  /** Two requests that hold locks never hold the same one, in particular never for the same key. */
  lemma MutualExclusion(cfg: Config, s: State, a: nat, b: nat)
    requires Reachable(cfg, s) && a < |s.reqs| && b < |s.reqs|
    requires Holds(s.reqs[a].stage) && Holds(s.reqs[b].stage)
    requires LockOf(cfg, s.reqs[a].key) == LockOf(cfg, s.reqs[b].key)
    ensures a == b
  {
    ReachableInv(cfg, s);
  }

  /**
    A request waits for its lock exactly while one with the same hash of the Idempotency-Key header holds it, whatever
    the user and the path.
   */
  lemma WaitsExactly(cfg: Config, s: State, r: nat)
    requires Reachable(cfg, s) && r < |s.reqs| && s.reqs[r].stage.AwaitLock?
    ensures !Enabled(cfg, s, Advance(r)) <==>
              exists q :: 0 <= q < |s.reqs| && Holds(s.reqs[q].stage)
                       && cfg.lockKey(s.reqs[q].key.requestID) == cfg.lockKey(s.reqs[r].key.requestID)
  {
    ReachableInv(cfg, s);
    var lock := LockOf(cfg, s.reqs[r].key);
    if lock in s.locks {
      var q := s.locks[lock];
      assert Holds(s.reqs[q].stage) && LockOf(cfg, s.reqs[q].key) == lock;
    }
  }

  /** While k has a live row, no request for k is running the handler, about to, or storing a result. */
  lemma NoRunWhileLive(cfg: Config, s: State, r: nat)
    requires Inv(cfg, s) && r < |s.reqs| && Live(s, s.reqs[r].key)
    ensures !MissedRow(s.reqs[r].stage)
  {
    if Holds(s.reqs[r].stage) {
      assert Holder(cfg, s, s.reqs[r].key) == Some(s.reqs[r]);
      assert KeyInv(cfg, s, s.reqs[r].key);
    }
  }

  lemma RunsAppend(runs: seq<Run>, run: Run, k: CacheKey)
    ensures RunCount(runs + [run], k) == RunCount(runs, k) + if run.key == k then 1 else 0
    ensures FailCount(runs + [run], k) == FailCount(runs, k) + if run.key == k && run.outcome.None? then 1 else 0
  {
    assert (runs + [run])[..|runs|] == runs;
  }

  lemma LiveStep(cfg: Config, s: State, l: Label, k: CacheKey)
    requires Inv(cfg, s) && Enabled(cfg, s, l) && Live(s, k)
    ensures var t := Next(cfg, s, l);
            && RunCount(t.runs, k) == RunCount(s.runs, k)
            && k in t.table && t.table[k] == s.table[k]
  {
    match l
    case Advance(r) =>
      if s.reqs[r].key == k {
        NoRunWhileLive(cfg, s, r);
      }
    case Finish(r, outcome) =>
      RunsAppend(s.runs, Run(s.reqs[r].key, outcome), k);
      if s.reqs[r].key == k {
        NoRunWhileLive(cfg, s, r);
      }
    case _ =>
  }

  lemma {:induction false} LivePath(cfg: Config, s: State, k: CacheKey, ls: seq<Label>, t: State)
    requires Inv(cfg, s) && Live(s, k) && Path(cfg, s, ls, t) && t.now < s.table[k].expiresAt
    ensures RunCount(t.runs, k) == RunCount(s.runs, k)
    ensures k in t.table && t.table[k] == s.table[k]
    decreases |ls|
  {
    if ls != [] {
      var u := Next(cfg, s, ls[0]);
      LiveStep(cfg, s, ls[0], k);
      NextKeeps(cfg, s, ls[0]);
      PathNow(cfg, u, ls[1..], t);
      LivePath(cfg, u, k, ls[1..], t);
    }
  }

  /**
    In every generation of rows, also after purges: from any reachable state in which k has a live
    row until that row expires, the handler is not run for k again, not even with an error, and the
    row stays what it was.
   */
  lemma NoRunBeforeExpiry(cfg: Config, s: State, k: CacheKey, ls: seq<Label>, t: State)
    requires Reachable(cfg, s) && Live(s, k) && Path(cfg, s, ls, t) && t.now < s.table[k].expiresAt
    ensures RunCount(t.runs, k) == RunCount(s.runs, k)
    ensures k in t.table && t.table[k] == s.table[k]
  {
    ReachableInv(cfg, s);
    LivePath(cfg, s, k, ls, t);
  }

  lemma AnswersAppend(answers: seq<Answer>, a: Answer, k: CacheKey)
    ensures Sent(answers + [a], k) == Sent(answers, k) + if a.key == k then [a.payload] else []
  {
    assert (answers + [a])[..|answers|] == answers;
  }

  /** After the first ones, only p was answered. */
  predicate OnlyThen(before: seq<Payload>, after: seq<Payload>, p: Payload) {
    before <= after && forall j | |before| <= j < |after| :: after[j] == p
  }

  /** Every replay of k on its way without the lock is the live row's. */
  predicate SendsRow(s: State, k: CacheKey, q: Req, p: Payload) {
    q.key == k && q.stage.Sending? ==> q.stage.payload == p
  }

  ghost predicate SendersAgree(s: State, k: CacheKey, p: Payload) {
    forall r | 0 <= r < |s.reqs| :: SendsRow(s, k, s.reqs[r], p)
  }

  /** A request that commits a replay of k while its row lives carries the row's response. */
  lemma SendersStep(cfg: Config, s: State, l: Label, k: CacheKey)
    requires Inv(cfg, s) && Enabled(cfg, s, l) && Live(s, k) && cfg.instances <= 1
    requires SendersAgree(s, k, s.table[k].payload)
    ensures SendersAgree(Next(cfg, s, l), k, s.table[k].payload)
  {
    var t := Next(cfg, s, l);
    if l.Advance? {
      StepRequest(cfg, s, l.r);
      if s.reqs[l.r].key == k && s.reqs[l.r].stage.Replay? {
        assert Holder(cfg, s, k) == Some(s.reqs[l.r]) && KeyInv(cfg, s, k);
      }
    }
    forall r | 0 <= r < |t.reqs| ensures SendsRow(t, k, t.reqs[r], s.table[k].payload) {
      assert r < |s.reqs| ==> SendsRow(s, k, s.reqs[r], s.table[k].payload);
    }
  }

  lemma AdvanceAnswers(cfg: Config, s: State, r: nat)
    requires Enabled(cfg, s, Advance(r))
    ensures Step(cfg, s, r).answers ==
            if s.reqs[r].stage.Sending? then s.answers + [Answer(s.reqs[r].key, s.reqs[r].stage.payload, true)]
            else s.answers
  {
  }

  lemma AnswerStep(cfg: Config, s: State, l: Label, k: CacheKey)
    requires Inv(cfg, s) && Enabled(cfg, s, l) && Live(s, k)
    requires SendersAgree(s, k, s.table[k].payload)
    ensures OnlyThen(Sent(s.answers, k), Sent(Next(cfg, s, l).answers, k), s.table[k].payload)
  {
    if l.Advance? {
      var q := s.reqs[l.r];
      AdvanceAnswers(cfg, s, l.r);
      if q.stage.Sending? {
        assert SendsRow(s, k, q, s.table[k].payload);
        AnswersAppend(s.answers, Answer(q.key, q.stage.payload, true), k);
      }
    } else if l.Finish? {
      var p := if l.outcome.Some? then l.outcome.value else Payload([], 0, "");
      AnswersAppend(s.answers, Answer(s.reqs[l.r].key, p, false), k);
      if s.reqs[l.r].key == k {
        NoRunWhileLive(cfg, s, l.r);
      }
    }
  }

  lemma {:induction false} AnswersPath(cfg: Config, s: State, k: CacheKey, ls: seq<Label>, t: State)
    requires Inv(cfg, s) && Live(s, k) && cfg.instances <= 1 && SendersAgree(s, k, s.table[k].payload)
    requires Path(cfg, s, ls, t) && t.now < s.table[k].expiresAt
    ensures OnlyThen(Sent(s.answers, k), Sent(t.answers, k), s.table[k].payload)
    decreases |ls|
  {
    if ls != [] {
      var u := Next(cfg, s, ls[0]);
      LiveStep(cfg, s, ls[0], k);
      NextKeeps(cfg, s, ls[0]);
      PathNow(cfg, u, ls[1..], t);
      AnswerStep(cfg, s, ls[0], k);
      SendersStep(cfg, s, ls[0], k);
      AnswersPath(cfg, u, k, ls[1..], t);
    }
  }

  /** In every run from s, until k's live row expires, every answer sent for k is the row's. */
  ghost predicate AnswersStayTheRows(cfg: Config, s: State, k: CacheKey)
    requires Live(s, k)
  {
    forall ls, t | Path(cfg, s, ls, t) && t.now < s.table[k].expiresAt ::
      OnlyThen(Sent(s.answers, k), Sent(t.answers, k), s.table[k].payload)
  }

  /**
    On a single instance, in every generation of rows: in all runs from a state with a live row every answer sent until
    it expires is the row's exactly when no replay of another response has been committed and not yet sent.
   */
  lemma AnswersAreTheRows(cfg: Config, s: State, k: CacheKey)
    requires Reachable(cfg, s) && Live(s, k) && cfg.instances <= 1
    ensures AnswersStayTheRows(cfg, s, k) <==> SendersAgree(s, k, s.table[k].payload)
  {
    ReachableInv(cfg, s);
    var p := s.table[k].payload;
    if SendersAgree(s, k, p) {
      forall ls, t | Path(cfg, s, ls, t) && t.now < s.table[k].expiresAt
        ensures OnlyThen(Sent(s.answers, k), Sent(t.answers, k), p)
      {
        AnswersPath(cfg, s, k, ls, t);
      }
    } else {
      var r :| 0 <= r < |s.reqs| && !SendsRow(s, k, s.reqs[r], p);
      OtherIsSent(cfg, s, k, r);
    }
  }

  /** The step that sends another response than the row's. */
  lemma OtherIsSent(cfg: Config, s: State, k: CacheKey, r: nat)
    requires Inv(cfg, s) && Live(s, k) && r < |s.reqs| && !SendsRow(s, k, s.reqs[r], s.table[k].payload)
    ensures !AnswersStayTheRows(cfg, s, k)
  {
    var p, t := s.reqs[r].stage.payload, Next(cfg, s, Advance(r));
    assert [Advance(r)][1..] == [] && Path(cfg, t, [], t);
    assert Path(cfg, s, [Advance(r)], t);
    AnswersAppend(s.answers, Answer(k, p, true), k);
    assert Sent(t.answers, k)[|Sent(s.answers, k)|] == p;
  }

  /** The table's own answer to a lookup of k. */
  function TableAnswer(s: State, k: CacheKey): Option<Payload> {
    if Live(s, k) then Some(s.table[k].payload) else None
  }

  /**
    A hit in any LRU, of any size, is the table's answer while the row is live, for a single
    instance always and for several as long as k's first row is its only one.
   */
  lemma HitIsTableAnswer(cfg: Config, s: State, k: CacheKey, i: nat)
    requires Reachable(cfg, s) && Live(s, k) && i < |s.mem|
    requires cfg.instances <= 1 || Stores(s.stores, k) == 1
    ensures Lru.Lookup(s.mem[i], k).Some? ==> Some(Lru.Lookup(s.mem[i], k).value.payload) == TableAnswer(s, k)
  {
    ReachableInv(cfg, s);
    assert KeyInv(cfg, s, k);
    assert Agrees(s.mem[i], k, s.table[k].payload);
  }

  /** Before any row of k exists, only the instance whose request is between LRU write and insert can hold k. */
  lemma EarlyEntryIsTheHolders(cfg: Config, s: State, k: CacheKey, i: nat)
    requires Reachable(cfg, s) && Stores(s.stores, k) == 0 && i < |s.mem| && Lru.Lookup(s.mem[i], k).Some?
    ensures exists r :: 0 <= r < |s.reqs| && s.reqs[r].key == k && s.reqs[r].inst == i
                     && Storing(s.reqs[r].stage) == Some(Lru.Lookup(s.mem[i], k).value.payload)
  {
    ReachableInv(cfg, s);
    assert KeyInv(cfg, s, k);
    var r := s.locks[LockOf(cfg, k)];
    assert s.reqs[r].key == k && s.reqs[r].inst == i;
  }

  // ---- Accounting ----

  lemma {:induction false} RunsAreFailuresAndSuccesses(runs: seq<Run>, k: CacheKey)
    ensures RunCount(runs, k) == FailCount(runs, k) + |Successes(runs, k)|
  {
    if runs != [] {
      RunsAreFailuresAndSuccesses(runs[..|runs| - 1], k);
    }
  }

  /** Before the first row expires, the handler ran for k as often as it failed, plus zero or one. */
  lemma ExecutionAccounting(cfg: Config, s: State, k: CacheKey)
    requires Reachable(cfg, s) && BeforeFirstExpiry(s, k)
    ensures FailCount(s.runs, k) <= RunCount(s.runs, k) <= FailCount(s.runs, k) + 1
    ensures Live(s, k) ==> RunCount(s.runs, k) == FailCount(s.runs, k) + 1
  {
    RunsAreFailuresAndSuccesses(s.runs, k);
    AtMostOnce(cfg, s, k);
  }

  /**
    A failed run frees its lock and leaves nothing to replay: no entry in its instance's LRU, no
    live row, and, before any row was stored, no entry in any LRU and no row at all.
   */
  lemma FailedRunLeavesNothing(cfg: Config, s: State, r: nat)
    requires Reachable(cfg, s) && Enabled(cfg, s, Finish(r, None))
    ensures var t, k, i := FinishRun(cfg, s, r, None), s.reqs[r].key, s.reqs[r].inst;
            && LockOf(cfg, k) !in t.locks && i < |t.mem|
            && Lru.Lookup(t.mem[i], k).None? && TableAnswer(t, k).None?
            && (Stores(s.stores, k) == 0 ==>
                  k !in t.table && forall j | 0 <= j < |t.mem| :: Lru.Lookup(t.mem[j], k).None?)
  {
    ReachableInv(cfg, s);
    var k := s.reqs[r].key;
    assert KeyInv(cfg, s, k);
    assert Holder(cfg, s, k) == Some(s.reqs[r]);
  }

  // ---- Age of table replays ----

  /** A row expires ttl after a moment no later than its creation. */
  ghost predicate RowsDated(cfg: Config, s: State) {
    && (forall k | k in s.table :: s.table[k].expiresAt - cfg.ttl <= s.table[k].createdAt <= s.now)
    && (forall r | 0 <= r < |s.reqs| ::
          && (s.reqs[r].stage.Expiring? ==> s.reqs[r].stage.expiresAt - cfg.ttl <= s.now)
          && (s.reqs[r].stage.CreateWait? || s.reqs[r].stage.Creating? ==>
                s.reqs[r].stage.expiresAt - cfg.ttl <= s.reqs[r].stage.createdAt <= s.now))
  }

  lemma {:induction false} RowsDatedPath(cfg: Config, s: State, ls: seq<Label>, t: State)
    requires RowsDated(cfg, s) && Path(cfg, s, ls, t)
    ensures RowsDated(cfg, t)
    decreases |ls|
  {
    if ls != [] {
      RowsDatedStep(cfg, s, ls[0]);
      RowsDatedPath(cfg, Next(cfg, s, ls[0]), ls[1..], t);
    }
  }

  lemma RowsDatedStep(cfg: Config, s: State, l: Label)
    requires RowsDated(cfg, s) && Enabled(cfg, s, l)
    ensures RowsDated(cfg, Next(cfg, s, l))
  {
    if l.Advance? {
      StepDates(cfg, s, l.r);
      RowsDatedAdvance(cfg, s, Step(cfg, s, l.r), l.r);
    }
  }

  /** Of a request's advance, all that touches dates: the expiry it computes and the row it inserts. */
  ghost predicate DatesMoved(cfg: Config, s: State, t: State, r: nat) {
    && r < |s.reqs| && r < |t.reqs| && t.now == s.now
    && t.reqs == s.reqs[r := s.reqs[r].(stage := t.reqs[r].stage)]
    && (t.reqs[r].stage.Expiring? ==> t.reqs[r].stage.expiresAt == s.now + cfg.ttl)
    && (t.reqs[r].stage.CreateWait? ==>
          s.reqs[r].stage.Expiring? && t.reqs[r].stage.createdAt == s.now
          && t.reqs[r].stage.expiresAt == s.reqs[r].stage.expiresAt)
    && (t.reqs[r].stage.Creating? ==>
          s.reqs[r].stage.CreateWait? && t.reqs[r].stage.createdAt == s.reqs[r].stage.createdAt
          && t.reqs[r].stage.expiresAt == s.reqs[r].stage.expiresAt)
    && (t.table == s.table ||
        (s.reqs[r].stage.Creating? &&
         t.table == s.table[s.reqs[r].key := Row(s.reqs[r].stage.payload, s.reqs[r].stage.createdAt, s.reqs[r].stage.expiresAt)]))
  }

  lemma StepDates(cfg: Config, s: State, r: nat)
    requires Enabled(cfg, s, Advance(r))
    ensures DatesMoved(cfg, s, Step(cfg, s, r), r)
  {
  }

  lemma RowsDatedAdvance(cfg: Config, s: State, t: State, r: nat)
    requires RowsDated(cfg, s) && DatesMoved(cfg, s, t, r)
    ensures RowsDated(cfg, t)
  {
  }

  /** What the SELECT returns is younger than ttl at that moment. */
  lemma LiveRowIsYoung(cfg: Config, s: State, k: CacheKey)
    requires Reachable(cfg, s) && Live(s, k)
    ensures s.now - s.table[k].createdAt < cfg.ttl
  {
    var start, ls :| Path(cfg, Init(cfg, start), ls, s);
    RowsDatedPath(cfg, Init(cfg, start), ls, s);
  }
}
