/**
  Where a response can come from, with any number of instances and in every generation of rows:
  whatever an LRU, a row or a request holds for a key is a response of a successful run for it.
 */
module Provenance {
  import opened Common
  import opened Liveness
  import opened Protocol
  import opened Staleness
  import Lru

  /** The response a request carries, if any. */
  function Carried(st: Stage): Option<Payload> {
    match st
    case Reload(v) => Some(v.payload)
    case Replay(v) => Some(v.payload)
    case Produced(p) => Some(p)
    case Stamped(v) => Some(v.payload)
    case InMemory(p) => Some(p)
    case Expiring(p, _) => Some(p)
    case CreateWait(p, _, _) => Some(p)
    case Creating(p, _, _) => Some(p)
    case Sending(p) => Some(p)
    case _ => None
  }

  predicate Ran(s: State, k: CacheKey, p: Payload) {
    p in Successes(s.runs, k)
  }

  predicate CarriesRun(s: State, q: Req) {
    Carried(q.stage).Some? ==> Ran(s, q.key, Carried(q.stage).value)
  }

  predicate Truthful(s: State, a: Answer) {
    Ran(s, a.key, a.payload)
  }

  ghost predicate Genuine(s: State) {
    && (forall i, e | 0 <= i < |s.mem| && e in s.mem[i] :: Ran(s, e.key, e.value.payload))
    && (forall k | k in s.table :: Ran(s, k, s.table[k].payload))
    && (forall r | 0 <= r < |s.reqs| :: CarriesRun(s, s.reqs[r]))
    && (forall a | a in s.answers :: Truthful(s, a))
  }

  /** A run once successful stays in the history. */
  lemma StillRan(s: State, run: Run, k: CacheKey, p: Payload)
    ensures Ran(s, k, p) ==> Ran(s.(runs := s.runs + [run]), k, p)
    ensures run == Run(k, Some(p)) ==> Ran(s.(runs := s.runs + [run]), k, p)
  {
    assert (s.runs + [run])[..|s.runs|] == s.runs;
  }

  /** t follows s by a step of request r that moved on a response of a run of its key, if any. */
  ghost predicate MovesRun(s: State, t: State, r: nat)
    requires r < |s.reqs|
  {
    var k := s.reqs[r].key;
    && t.runs == s.runs && r < |t.reqs| && t.reqs == s.reqs[r := t.reqs[r]] && CarriesRun(s, t.reqs[r])
    && (t.table == s.table || (k in t.table && Ran(s, k, t.table[k].payload) && t.table == s.table[k := t.table[k]]))
    && (t.answers == s.answers || exists a :: t.answers == s.answers + [a] && Truthful(s, a))
  }

  lemma WaitMovesRun(cfg: Config, s: State, r: nat)
    requires Enabled(cfg, s, Advance(r)) && Rank(s.reqs[r].stage) > 11
    requires !s.reqs[r].stage.MemLookup? && !s.reqs[r].stage.DbQuery?
    ensures MovesRun(s, Step(cfg, s, r), r)
  {
  }

  lemma LookupMovesRun(cfg: Config, s: State, r: nat)
    requires Enabled(cfg, s, Advance(r)) && (s.reqs[r].stage.MemLookup? || s.reqs[r].stage.DbQuery?)
    requires var c, k := s.mem[s.reqs[r].inst], s.reqs[r].key;
             && (Lru.Lookup(c, k).Some? ==> Ran(s, k, Lru.Lookup(c, k).value.payload))
             && (k in s.table ==> Ran(s, k, s.table[k].payload))
    ensures MovesRun(s, Step(cfg, s, r), r)
  {
  }

  lemma StoreMovesRun(cfg: Config, s: State, r: nat)
    requires Enabled(cfg, s, Advance(r)) && 5 <= Rank(s.reqs[r].stage) <= 11 && CarriesRun(s, s.reqs[r])
    ensures MovesRun(s, Step(cfg, s, r), r)
  {
  }

  lemma EndMovesRun(cfg: Config, s: State, r: nat)
    requires Enabled(cfg, s, Advance(r)) && Rank(s.reqs[r].stage) < 5 && CarriesRun(s, s.reqs[r])
    ensures MovesRun(s, Step(cfg, s, r), r)
  {
    if s.reqs[r].stage.Sending? {
      var a := Answer(s.reqs[r].key, s.reqs[r].stage.payload, true);
      assert Step(cfg, s, r).answers == s.answers + [a] && Truthful(s, a);
    }
  }

  lemma SameRuns(s: State, t: State)
    requires s.runs == t.runs
    ensures forall k, p :: Ran(t, k, p) == Ran(s, k, p)
    ensures forall q :: CarriesRun(t, q) == CarriesRun(s, q)
    ensures forall a :: Truthful(t, a) == Truthful(s, a)
  {
  }

  lemma AdvanceGenuine(cfg: Config, s: State, r: nat)
    requires Genuine(s) && Enabled(cfg, s, Advance(r))
    ensures Genuine(Step(cfg, s, r))
  {
    var t, i, k := Step(cfg, s, r), s.reqs[r].inst, s.reqs[r].key;
    Lru.LookupIn(s.mem[i], k);
    if Lru.Lookup(s.mem[i], k).Some? {
      var e := Lru.Entry(k, Lru.Lookup(s.mem[i], k).value);
      assert Ran(s, e.key, e.value.payload);
    }
    assert CarriesRun(s, s.reqs[r]);
    if s.reqs[r].stage.MemLookup? || s.reqs[r].stage.DbQuery? {
      LookupMovesRun(cfg, s, r);
    } else if Rank(s.reqs[r].stage) > 11 {
      WaitMovesRun(cfg, s, r);
    } else if Rank(s.reqs[r].stage) >= 5 {
      StoreMovesRun(cfg, s, r);
    } else {
      EndMovesRun(cfg, s, r);
    }
    EntriesGenuine(cfg, s, r);
    Rebuilt(s, t, r);
  }

  lemma EntriesGenuine(cfg: Config, s: State, r: nat)
    requires Genuine(s) && Enabled(cfg, s, Advance(r))
    ensures var t := Step(cfg, s, r);
            |t.mem| == |s.mem| && forall i, e | 0 <= i < |t.mem| && e in t.mem[i] :: Ran(s, e.key, e.value.payload)
  {
    var t := Step(cfg, s, r);
    StepEntries(cfg, s, r, s.reqs[r].inst);
    assert CarriesRun(s, s.reqs[r]);
    forall i, e | 0 <= i < |t.mem| && e in t.mem[i]
      ensures Ran(s, e.key, e.value.payload)
    {
      StepEntries(cfg, s, r, i);
    }
  }

  lemma Rebuilt(s: State, t: State, r: nat)
    requires Genuine(s) && r < |s.reqs| == |t.reqs| && MovesRun(s, t, r)
    requires forall i, e | 0 <= i < |t.mem| && e in t.mem[i] :: Ran(s, e.key, e.value.payload)
    ensures Genuine(t)
  {
    SameRuns(s, t);
    forall q | 0 <= q < |t.reqs| ensures CarriesRun(t, t.reqs[q]) {
      assert q != r ==> t.reqs[q] == s.reqs[q];
    }
  }

  lemma FinishGenuine(cfg: Config, s: State, r: nat, outcome: Option<Payload>)
    requires Genuine(s) && Enabled(cfg, s, Finish(r, outcome))
    ensures Genuine(FinishRun(cfg, s, r, outcome))
  {
    var run := Run(s.reqs[r].key, outcome);
    forall k, p ensures Ran(s, k, p) ==> Ran(s.(runs := s.runs + [run]), k, p) {
      StillRan(s, run, k, p);
    }
    if outcome.Some? {
      StillRan(s, run, s.reqs[r].key, outcome.value);
    }
    var t := FinishRun(cfg, s, r, outcome);
    forall q | 0 <= q < |t.reqs| ensures CarriesRun(t, t.reqs[q]) {
      assert CarriesRun(s, s.reqs[q]);
    }
  }

  lemma EnvironmentGenuine(cfg: Config, s: State, l: Label)
    requires Genuine(s) && Enabled(cfg, s, l) && !IsRequestStep(l)
    ensures Genuine(Next(cfg, s, l))
  {
    var t := Next(cfg, s, l);
    SameRuns(s, t);
    if l.MemCleanup? {
      Lru.SurvivorsSubset(s.mem[l.inst], l.at - cfg.ttl);
    }
    forall r | 0 <= r < |t.reqs| ensures CarriesRun(t, t.reqs[r]) {
      assert r < |s.reqs| ==> t.reqs[r] == s.reqs[r];
    }
  }

  lemma NextGenuine(cfg: Config, s: State, l: Label)
    requires Genuine(s) && Enabled(cfg, s, l)
    ensures Genuine(Next(cfg, s, l))
  {
    if l.Advance? {
      AdvanceGenuine(cfg, s, l.r);
    } else if l.Finish? {
      FinishGenuine(cfg, s, l.r, l.outcome);
    } else {
      EnvironmentGenuine(cfg, s, l);
    }
  }

  lemma {:induction false} PathGenuine(cfg: Config, s: State, ls: seq<Label>, t: State)
    requires Genuine(s) && Path(cfg, s, ls, t)
    ensures Genuine(t)
    decreases |ls|
  {
    if ls != [] {
      NextGenuine(cfg, s, ls[0]);
      PathGenuine(cfg, Next(cfg, s, ls[0]), ls[1..], t);
    }
  }

  lemma {:induction false} SentWasAnswered(answers: seq<Answer>, k: CacheKey, p: Payload)
    requires p in Sent(answers, k)
    ensures exists a :: a in answers && a.key == k && a.payload == p
  {
    var init, last := answers[..|answers| - 1], answers[|answers| - 1];
    if p in Sent(init, k) {
      SentWasAnswered(init, k, p);
    } else {
      assert last in answers && last.key == k && last.payload == p;
    }
  }

  /** In every reachable state every answer ever sent for a key, first hand or replayed, is a successful run's for that key. */
  lemma AnswersAreRuns(cfg: Config, s: State, k: CacheKey, p: Payload)
    requires Reachable(cfg, s) && p in Sent(s.answers, k)
    ensures p in Successes(s.runs, k)
  {
    var start, ls :| Path(cfg, Init(cfg, start), ls, s);
    PathGenuine(cfg, Init(cfg, start), ls, s);
    SentWasAnswered(s.answers, k, p);
    var a :| a in s.answers && a.key == k && a.payload == p;
    assert Truthful(s, a);
  }

  /** So is every entry of every LRU and every row. */
  lemma StoredAreRuns(cfg: Config, s: State, k: CacheKey)
    requires Reachable(cfg, s)
    ensures k in s.table ==> s.table[k].payload in Successes(s.runs, k)
    ensures forall i | 0 <= i < |s.mem| ::
              Lru.Lookup(s.mem[i], k).Some? ==> Lru.Lookup(s.mem[i], k).value.payload in Successes(s.runs, k)
  {
    var start, ls :| Path(cfg, Init(cfg, start), ls, s);
    PathGenuine(cfg, Init(cfg, start), ls, s);
    forall i | 0 <= i < |s.mem| && Lru.Lookup(s.mem[i], k).Some?
      ensures Lru.Lookup(s.mem[i], k).value.payload in Successes(s.runs, k)
    {
      Lru.LookupIn(s.mem[i], k);
      var e := Lru.Entry(k, Lru.Lookup(s.mem[i], k).value);
      assert e in s.mem[i] && Ran(s, e.key, e.value.payload);
    }
  }
}
