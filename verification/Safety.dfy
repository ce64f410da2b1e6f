/**
  The invariant of the idempotency protocol, kept by every step: mutual exclusion by the advisory
  locks, and for each cache key how the LRUs, the table and the histories relate.
 */
module Safety {
  import opened Common
  import opened Protocol
  import Lru

  /** Exactly the requests in a lock-holding stage own their lock; a lock id has one owner. */
  ghost predicate LocksOk(cfg: Config, s: State) {
    && (forall l | l in s.locks ::
          && s.locks[l] < |s.reqs| && Holds(s.reqs[s.locks[l]].stage)
          && LockOf(cfg, s.reqs[s.locks[l]].key) == l)
    && (forall r | 0 <= r < |s.reqs| && Holds(s.reqs[r].stage) ::
          var l := LockOf(cfg, s.reqs[r].key); l in s.locks && s.locks[l] == r)
  }

  ghost predicate ShapeOk(cfg: Config, s: State) {
    && |s.mem| == cfg.instances
    && (forall r | 0 <= r < |s.reqs| :: s.reqs[r].inst < cfg.instances)
    && (forall i | 0 <= i < |s.mem| :: Lru.NoDup(s.mem[i]) && |s.mem[i]| <= Lru.Capacity(cfg.maxSize))
  }

  /** The request that holds k's lock on behalf of k itself, if any. */
  ghost function Holder(cfg: Config, s: State, k: CacheKey): Option<Req> {
    var l := LockOf(cfg, k);
    if l in s.locks && s.locks[l] < |s.reqs| && s.reqs[s.locks[l]].key == k
    then Some(s.reqs[s.locks[l]]) else None
  }

  predicate MissedMem(st: Stage) {
    st.DbWait? || st.DbQuery? || st.Reload? || st.RunWait? || st.Running? || st.Produced? || st.Stamped?
  }

  predicate MissedRow(st: Stage) {
    st.RunWait? || st.Running? || st.Produced? || st.Stamped? || st.InMemory? || st.Expiring? || st.CreateWait? || st.Creating?
  }

  /** The payload a request is between writing to the LRU and inserting into the table. */
  function Storing(st: Stage): Option<Payload> {
    match st
    case InMemory(p) => Some(p)
    case Expiring(p, _) => Some(p)
    case CreateWait(p, _, _) => Some(p)
    case Creating(p, _, _) => Some(p)
    case _ => None
  }

  /** The payload of a successful run that is not in the table yet. */
  function Unstored(st: Stage): Option<Payload> {
    match st
    case Produced(p) => Some(p)
    case Stamped(v) => Some(v.payload)
    case _ => Storing(st)
  }

  /** An LRU that holds k holds it with payload p. */
  ghost predicate Agrees(c: Lru.Cache, k: CacheKey, p: Payload) {
    Lru.Lookup(c, k).Some? ==> Lru.Lookup(c, k).value.payload == p
  }

  /** With one instance always, with several until a second row is inserted: no LRU can be out of date. */
  ghost predicate Sole(cfg: Config, s: State, k: CacheKey) {
    cfg.instances <= 1 || Stores(s.stores, k) == 1
  }

  ghost predicate HolderOk(cfg: Config, s: State, k: CacheKey, h: Req) {
    && h.inst < |s.mem|
    && (MissedMem(h.stage) ==> Lru.Lookup(s.mem[h.inst], k).None?)
    && (MissedRow(h.stage) ==> !Live(s, k))
    && (h.stage.Reload? && Live(s, k) ==> h.stage.value.payload == s.table[k].payload)
    && (h.stage.Replay? && Live(s, k) && Sole(cfg, s, k) ==> h.stage.value.payload == s.table[k].payload)
    && (Storing(h.stage).Some? ==> Agrees(s.mem[h.inst], k, Storing(h.stage).value))
  }

  ghost predicate NeverStored(s: State, k: CacheKey, h: Option<Req>) {
    && k !in s.table
    && (forall i | 0 <= i < |s.mem| :: Lru.Lookup(s.mem[i], k).Some? ==>
          h.Some? && Storing(h.value.stage).Some? && h.value.inst == i)
    && Successes(s.runs, k) == Sent(s.answers, k)
    && Successes(s.runs, k) ==
       (if h.Some? && Unstored(h.value.stage).Some? then [Unstored(h.value.stage).value] else [])
    && (h.Some? ==> !h.value.stage.Reload? && !h.value.stage.Replay? && !h.value.stage.Created?)
  }

  ghost predicate FirstRowLive(s: State, k: CacheKey)
    requires Live(s, k)
  {
    && Successes(s.runs, k) == [s.table[k].payload]
    && forall p | p in Sent(s.answers, k) :: p == s.table[k].payload
  }

  /** A replay of k on its way without the lock: none before the first row, and the first row's while that lives. */
  predicate SenderOk(s: State, k: CacheKey, q: Req) {
    q.key == k && q.stage.Sending? ==>
      && Stores(s.stores, k) > 0
      && (Stores(s.stores, k) == 1 && Live(s, k) ==> q.stage.payload == s.table[k].payload)
  }

  ghost predicate KeyInv(cfg: Config, s: State, k: CacheKey) {
    var h := Holder(cfg, s, k);
    && SendersOk(s, k)
    && (h.Some? ==> HolderOk(cfg, s, k, h.value))
    && (Live(s, k) && Sole(cfg, s, k) ==>
          forall i | 0 <= i < |s.mem| :: Agrees(s.mem[i], k, s.table[k].payload))
    && (Stores(s.stores, k) == 0 ==> NeverStored(s, k, h))
    && (Stores(s.stores, k) == 1 && Live(s, k) ==> FirstRowLive(s, k))
  }

  ghost predicate Inv(cfg: Config, s: State) {
    ShapeOk(cfg, s) && LocksOk(cfg, s) && forall k :: KeyInv(cfg, s, k)
  }

  // ---- Steps that do not concern k, or concern it only by losing LRU entries or its row ----

  /** Everything k's invariant depends on is as before, or only lost: LRU entries, the row, time. */
  ghost predicate Quiet(cfg: Config, s: State, t: State, k: CacheKey) {
    && s.now <= t.now && |t.mem| == |s.mem|
    && Holder(cfg, t, k) == Holder(cfg, s, k)
    && SameSenders(s, t, k)
    && (k in t.table ==> k in s.table && t.table[k] == s.table[k])
    && (forall i | 0 <= i < |s.mem| ::
          Lru.Lookup(t.mem[i], k).None? || Lru.Lookup(t.mem[i], k) == Lru.Lookup(s.mem[i], k))
    && Successes(t.runs, k) == Successes(s.runs, k)
    && Sent(t.answers, k) == Sent(s.answers, k)
    && Stores(t.stores, k) == Stores(s.stores, k)
  }

  /** No new request of k is on its way to send a replay. */
  ghost predicate SameSenders(s: State, t: State, k: CacheKey) {
    forall r | 0 <= r < |t.reqs| && t.reqs[r].key == k && t.reqs[r].stage.Sending? ::
      r < |s.reqs| && s.reqs[r] == t.reqs[r]
  }

  ghost predicate SendersOk(s: State, k: CacheKey) {
    forall r | 0 <= r < |s.reqs| :: SenderOk(s, k, s.reqs[r])
  }

  lemma SendersKept(s: State, t: State, k: CacheKey)
    requires SendersOk(s, k) && SameSenders(s, t, k) && s.now <= t.now
    requires Stores(t.stores, k) == Stores(s.stores, k) && (k in t.table ==> k in s.table && t.table[k] == s.table[k])
    ensures SendersOk(t, k)
  {
    forall r | 0 <= r < |t.reqs| ensures SenderOk(t, k, t.reqs[r]) {
      assert r < |s.reqs| ==> SenderOk(s, k, s.reqs[r]);
    }
  }

  lemma QuietKeeps(cfg: Config, s: State, t: State, k: CacheKey)
    requires KeyInv(cfg, s, k) && Quiet(cfg, s, t, k)
    ensures KeyInv(cfg, t, k)
  {
    SendersKept(s, t, k);
    assert Live(t, k) ==> Live(s, k) && t.table[k] == s.table[k];
  }

  lemma HistoryAppend(runs: seq<Run>, run: Run, answers: seq<Answer>, answer: Answer, stores: seq<CacheKey>, key: CacheKey, k: CacheKey)
    ensures Successes(runs + [run], k) ==
            Successes(runs, k) + if run.key == k && run.outcome.Some? then [run.outcome.value] else []
    ensures Sent(answers + [answer], k) == Sent(answers, k) + if answer.key == k then [answer.payload] else []
    ensures Stores(stores + [key], k) == Stores(stores, k) + if key == k then 1 else 0
  {
    assert (runs + [run])[..|runs|] == runs;
    assert (answers + [answer])[..|answers|] == answers;
    assert (stores + [key])[..|stores|] == stores;
  }

  /** One request moves to another lock-holding stage, or within the stages that hold no lock. */
  ghost predicate Moved(cfg: Config, s: State, t: State, r: nat, st: Stage) {
    && r < |s.reqs| && t.reqs == s.reqs[r := s.reqs[r].(stage := st)]
    && t.locks == s.locks && Holds(st) == Holds(s.reqs[r].stage)
  }

  lemma MovedKeeps(cfg: Config, s: State, t: State, r: nat, st: Stage, k: CacheKey)
    requires LocksOk(cfg, s) && Moved(cfg, s, t, r, st)
    ensures LocksOk(cfg, t)
    ensures Holds(st) ==>
              (Holder(cfg, s, s.reqs[r].key) == Some(s.reqs[r]) && Holder(cfg, t, s.reqs[r].key) == Some(t.reqs[r]))
    ensures k != s.reqs[r].key || !Holds(st) ==> Holder(cfg, t, k) == Holder(cfg, s, k)
  {
    var l := LockOf(cfg, k);
    if l in s.locks && s.locks[l] == r {
      assert Holds(s.reqs[r].stage) && LockOf(cfg, s.reqs[r].key) == l;
    }
  }

  ghost predicate Released(cfg: Config, s: State, t: State, r: nat) {
    && r < |s.reqs| == |t.reqs| && Holds(s.reqs[r].stage) && !Holds(t.reqs[r].stage)
    && t.reqs == s.reqs[r := s.reqs[r].(stage := t.reqs[r].stage)]
    && t.locks == s.locks - {LockOf(cfg, s.reqs[r].key)}
  }

  lemma ReleasedKeeps(cfg: Config, s: State, t: State, r: nat, k: CacheKey)
    requires LocksOk(cfg, s) && Released(cfg, s, t, r)
    ensures LocksOk(cfg, t)
    ensures Holder(cfg, s, s.reqs[r].key) == Some(s.reqs[r]) && Holder(cfg, t, s.reqs[r].key).None?
    ensures k != s.reqs[r].key ==> Holder(cfg, t, k) == Holder(cfg, s, k)
  {
    forall r' | 0 <= r' < |t.reqs| && Holds(t.reqs[r'].stage)
      ensures var l := LockOf(cfg, t.reqs[r'].key); l in t.locks && t.locks[l] == r'
    {
      assert r' != r && Holds(s.reqs[r'].stage);
    }
  }

  lemma AcquiredKeeps(cfg: Config, s: State, t: State, r: nat, k: CacheKey)
    requires LocksOk(cfg, s) && r < |s.reqs| && s.reqs[r].stage.AwaitLock?
    requires LockOf(cfg, s.reqs[r].key) !in s.locks
    requires t.reqs == s.reqs[r := s.reqs[r].(stage := MemLookup)]
    requires t.locks == s.locks[LockOf(cfg, s.reqs[r].key) := r]
    ensures LocksOk(cfg, t)
    ensures Holder(cfg, s, s.reqs[r].key).None? && Holder(cfg, t, s.reqs[r].key) == Some(t.reqs[r])
    ensures k != s.reqs[r].key ==> Holder(cfg, t, k) == Holder(cfg, s, k)
  {
  }

  // ---- The steps of the request that holds k's lock ----

  /** Only the holder's stage changes; what k's LRU lookups, row and histories say stays. */
  ghost predicate StageOnly(cfg: Config, s: State, t: State, r: nat, k: CacheKey) {
    && r < |s.reqs| && s.reqs[r].key == k && r < |t.reqs| && Moved(cfg, s, t, r, t.reqs[r].stage) && Holds(s.reqs[r].stage)
    && t.now == s.now && t.table == s.table && t.runs == s.runs && t.answers == s.answers && t.stores == s.stores
    && |t.mem| == |s.mem|
    && (forall i | 0 <= i < |s.mem| :: Lru.Lookup(t.mem[i], k) == Lru.Lookup(s.mem[i], k))
  }

  lemma StageOnlyKeeps(cfg: Config, s: State, t: State, r: nat, k: CacheKey)
    requires LocksOk(cfg, s) && KeyInv(cfg, s, k) && StageOnly(cfg, s, t, r, k)
    requires var was, st := s.reqs[r].stage, t.reqs[r].stage;
             Stores(s.stores, k) == 0 ==>
               && Unstored(st) == Unstored(was) && (Storing(was).Some? ==> Storing(st).Some?)
               && !st.Reload? && !st.Replay? && !st.Created?
    requires HolderOk(cfg, t, k, t.reqs[r])
    ensures KeyInv(cfg, t, k)
  {
    MovedKeeps(cfg, s, t, r, t.reqs[r].stage, k);
    assert Live(t, k) == Live(s, k) && Sole(cfg, t, k) == Sole(cfg, s, k);
  }

  lemma MemLookupKeeps(cfg: Config, s: State, r: nat, k: CacheKey)
    requires Inv(cfg, s) && Enabled(cfg, s, Advance(r)) && s.reqs[r].key == k && s.reqs[r].stage.MemLookup?
    ensures KeyInv(cfg, Step(cfg, s, r), k) && ShapeOk(cfg, Step(cfg, s, r))
  {
    var t, i := Step(cfg, s, r), s.reqs[r].inst;
    assert KeyInv(cfg, s, k);
    MovedKeeps(cfg, s, s, r, MemLookup, k) by { assert s.reqs[r := s.reqs[r]] == s.reqs; }
    Lru.GetLookup(s.mem[i], k, k);
    Lru.ApplyKeeps(s.mem[i], cfg.maxSize, Lru.Get(k));
    if Lru.Lookup(s.mem[i], k).Some? && Live(s, k) && Sole(cfg, s, k) {
      assert Agrees(s.mem[i], k, s.table[k].payload);
    }
    StageOnlyKeeps(cfg, s, t, r, k);
  }

  lemma MissStepKeeps(cfg: Config, s: State, r: nat, k: CacheKey)
    requires Inv(cfg, s) && Enabled(cfg, s, Advance(r)) && s.reqs[r].key == k
    requires s.reqs[r].stage.DbWait? || s.reqs[r].stage.DbQuery? || s.reqs[r].stage.RunWait?
    ensures KeyInv(cfg, Step(cfg, s, r), k)
  {
    var t := Step(cfg, s, r);
    assert KeyInv(cfg, s, k);
    MovedKeeps(cfg, s, t, r, t.reqs[r].stage, k);
    StageOnlyKeeps(cfg, s, t, r, k);
  }

  lemma StoreStepKeeps(cfg: Config, s: State, r: nat, k: CacheKey)
    requires Inv(cfg, s) && Enabled(cfg, s, Advance(r)) && s.reqs[r].key == k
    requires s.reqs[r].stage.Produced? || s.reqs[r].stage.InMemory? || s.reqs[r].stage.Expiring? || s.reqs[r].stage.CreateWait?
    ensures KeyInv(cfg, Step(cfg, s, r), k)
  {
    var t := Step(cfg, s, r);
    assert KeyInv(cfg, s, k);
    MovedKeeps(cfg, s, t, r, t.reqs[r].stage, k);
    StageOnlyKeeps(cfg, s, t, r, k);
  }

  lemma AcquireStepKeeps(cfg: Config, s: State, r: nat, k: CacheKey)
    requires Inv(cfg, s) && Enabled(cfg, s, Advance(r)) && s.reqs[r].key == k && s.reqs[r].stage.AwaitLock?
    ensures KeyInv(cfg, Step(cfg, s, r), k)
  {
    var t := Step(cfg, s, r);
    assert KeyInv(cfg, s, k);
    AcquiredKeeps(cfg, s, t, r, k);
    assert Live(t, k) == Live(s, k) && Sole(cfg, t, k) == Sole(cfg, s, k);
  }

  /** Both writes to the LRU: a reloaded row, and the stamped result of a run. */
  lemma MemSetKeeps(cfg: Config, s: State, r: nat, k: CacheKey)
    requires Inv(cfg, s) && Enabled(cfg, s, Advance(r)) && s.reqs[r].key == k
    requires s.reqs[r].stage.Reload? || s.reqs[r].stage.Stamped?
    ensures KeyInv(cfg, Step(cfg, s, r), k)
  {
    var t, i, v := Step(cfg, s, r), s.reqs[r].inst, s.reqs[r].stage.value;
    assert KeyInv(cfg, s, k);
    MovedKeeps(cfg, s, t, r, t.reqs[r].stage, k);
    Lru.SetLookup(s.mem[i], cfg.maxSize, k, v, k);
    assert Live(t, k) == Live(s, k) && Sole(cfg, t, k) == Sole(cfg, s, k);
    assert forall j | 0 <= j < |s.mem| && j != i :: t.mem[j] == s.mem[j];
    assert Lru.Lookup(t.mem[i], k) == Some(v);
  }

  lemma ConflictKeeps(cfg: Config, s: State, r: nat, k: CacheKey)
    requires Inv(cfg, s) && Enabled(cfg, s, Advance(r)) && s.reqs[r].key == k
    requires s.reqs[r].stage.Creating? && k in s.table
    ensures KeyInv(cfg, Step(cfg, s, r), k)
  {
    var t := Step(cfg, s, r);
    assert KeyInv(cfg, s, k);
    MovedKeeps(cfg, s, t, r, Created, k);
    StageOnlyKeeps(cfg, s, t, r, k);
  }

  /** What an insert changes for its key. */
  ghost predicate Inserted(cfg: Config, s: State, t: State, r: nat, k: CacheKey) {
    && r < |s.reqs| && s.reqs[r].key == k && s.reqs[r].stage.Creating? && k !in s.table
    && t.now == s.now && t.mem == s.mem && t.runs == s.runs && t.answers == s.answers && SameSenders(s, t, k)
    && k in t.table && t.table[k].payload == s.reqs[r].stage.payload
    && Stores(t.stores, k) == Stores(s.stores, k) + 1
    && Holder(cfg, s, k) == Some(s.reqs[r]) && Holder(cfg, t, k) == Some(s.reqs[r].(stage := Created))
  }

  lemma InsertStep(cfg: Config, s: State, r: nat, k: CacheKey)
    requires Inv(cfg, s) && Enabled(cfg, s, Advance(r)) && s.reqs[r].key == k
    requires s.reqs[r].stage.Creating? && k !in s.table
    ensures Inserted(cfg, s, Step(cfg, s, r), r, k)
  {
    var t, p := Step(cfg, s, r), s.reqs[r].stage.payload;
    MovedKeeps(cfg, s, t, r, Created, k);
    HistoryAppend(s.runs, Run(k, None), s.answers, Answer(k, p, false), s.stores, k, k);
  }

  lemma InsertKeeps(cfg: Config, s: State, r: nat, k: CacheKey)
    requires Inv(cfg, s) && Enabled(cfg, s, Advance(r)) && s.reqs[r].key == k
    requires s.reqs[r].stage.Creating? && k !in s.table
    ensures KeyInv(cfg, Step(cfg, s, r), k)
  {
    assert KeyInv(cfg, s, k);
    InsertStep(cfg, s, r, k);
    InsertedKeeps(cfg, s, Step(cfg, s, r), r, k);
  }

  lemma InsertedKeeps(cfg: Config, s: State, t: State, r: nat, k: CacheKey)
    requires ShapeOk(cfg, s) && KeyInv(cfg, s, k) && Inserted(cfg, s, t, r, k)
    ensures KeyInv(cfg, t, k)
  {
    assert Agrees(s.mem[s.reqs[r].inst], k, t.table[k].payload);
    forall q | 0 <= q < |t.reqs| ensures SenderOk(t, k, t.reqs[q]) {
      assert q < |s.reqs| ==> SenderOk(s, k, s.reqs[q]);
    }
  }

  lemma ReplayKeeps(cfg: Config, s: State, r: nat, k: CacheKey)
    requires Inv(cfg, s) && Enabled(cfg, s, Advance(r)) && s.reqs[r].key == k && s.reqs[r].stage.Replay?
    ensures KeyInv(cfg, Step(cfg, s, r), k)
  {
    var t := Step(cfg, s, r);
    assert KeyInv(cfg, s, k);
    ReleasedKeeps(cfg, s, t, r, k);
    assert Live(t, k) == Live(s, k) && Sole(cfg, t, k) == Sole(cfg, s, k);
    assert Stores(s.stores, k) > 0 && HolderOk(cfg, s, k, s.reqs[r]);
    forall q | 0 <= q < |t.reqs| ensures SenderOk(t, k, t.reqs[q]) {
      assert SenderOk(s, k, s.reqs[q]);
    }
  }

  /** A response that is sent is no longer on its way. */
  lemma SendKeeps(cfg: Config, s: State, r: nat, k: CacheKey)
    requires Inv(cfg, s) && Enabled(cfg, s, Advance(r)) && s.reqs[r].key == k && s.reqs[r].stage.Sending?
    ensures KeyInv(cfg, Step(cfg, s, r), k)
  {
    var t := Step(cfg, s, r);
    assert KeyInv(cfg, s, k) && SenderOk(s, k, s.reqs[r]);
    MovedKeeps(cfg, s, t, r, Done, k);
    SendersKept(s, t, k);
    assert Live(t, k) == Live(s, k) && Sole(cfg, t, k) == Sole(cfg, s, k);
    HistoryAppend(s.runs, Run(k, None), s.answers, Answer(k, s.reqs[r].stage.payload, true), s.stores, k, k);
  }

  lemma CommitKeeps(cfg: Config, s: State, r: nat, k: CacheKey)
    requires Inv(cfg, s) && Enabled(cfg, s, Advance(r)) && s.reqs[r].key == k && s.reqs[r].stage.Created?
    ensures KeyInv(cfg, Step(cfg, s, r), k)
  {
    var t := Step(cfg, s, r);
    assert KeyInv(cfg, s, k);
    ReleasedKeeps(cfg, s, t, r, k);
    assert Live(t, k) == Live(s, k) && Sole(cfg, t, k) == Sole(cfg, s, k);
  }

  lemma FailKeeps(cfg: Config, s: State, r: nat, k: CacheKey)
    requires Inv(cfg, s) && Enabled(cfg, s, Finish(r, None)) && s.reqs[r].key == k
    ensures KeyInv(cfg, FinishRun(cfg, s, r, None), k)
  {
    var t := FinishRun(cfg, s, r, None);
    assert KeyInv(cfg, s, k);
    assert Live(t, k) == Live(s, k) && Sole(cfg, t, k) == Sole(cfg, s, k);
    ReleasedKeeps(cfg, s, t, r, k);
    HistoryAppend(s.runs, Run(k, None), s.answers, Answer(k, Payload([], 0, ""), true), s.stores, k, k);
  }

  /** What a successful run changes for its key. */
  ghost predicate Succeeded(cfg: Config, s: State, t: State, r: nat, p: Payload, k: CacheKey) {
    && r < |s.reqs| && s.reqs[r].key == k && s.reqs[r].stage.Running?
    && t.now == s.now && t.mem == s.mem && t.table == s.table && t.stores == s.stores && SameSenders(s, t, k)
    && Successes(t.runs, k) == Successes(s.runs, k) + [p] && Sent(t.answers, k) == Sent(s.answers, k) + [p]
    && Holder(cfg, s, k) == Some(s.reqs[r]) && Holder(cfg, t, k) == Some(s.reqs[r].(stage := Produced(p)))
  }

  lemma SucceedStep(cfg: Config, s: State, r: nat, p: Payload, k: CacheKey)
    requires Inv(cfg, s) && Enabled(cfg, s, Finish(r, Some(p))) && s.reqs[r].key == k
    ensures Succeeded(cfg, s, FinishRun(cfg, s, r, Some(p)), r, p, k)
  {
    MovedKeeps(cfg, s, FinishRun(cfg, s, r, Some(p)), r, Produced(p), k);
    HistoryAppend(s.runs, Run(k, Some(p)), s.answers, Answer(k, p, false), s.stores, k, k);
  }

  lemma SucceededKeeps(cfg: Config, s: State, t: State, r: nat, p: Payload, k: CacheKey)
    requires KeyInv(cfg, s, k) && Succeeded(cfg, s, t, r, p, k)
    ensures KeyInv(cfg, t, k)
  {
    SendersKept(s, t, k);
    assert Live(t, k) == Live(s, k) && Sole(cfg, t, k) == Sole(cfg, s, k);
  }

  lemma SucceedKeeps(cfg: Config, s: State, r: nat, p: Payload, k: CacheKey)
    requires Inv(cfg, s) && Enabled(cfg, s, Finish(r, Some(p))) && s.reqs[r].key == k
    ensures KeyInv(cfg, FinishRun(cfg, s, r, Some(p)), k)
  {
    assert KeyInv(cfg, s, k);
    SucceedStep(cfg, s, r, p, k);
    SucceededKeeps(cfg, s, FinishRun(cfg, s, r, Some(p)), r, p, k);
  }

  // ---- Every step ----

  lemma OwnStepKeeps(cfg: Config, s: State, r: nat)
    requires Inv(cfg, s) && Enabled(cfg, s, Advance(r)) && !s.reqs[r].stage.Arrived?
    ensures KeyInv(cfg, Step(cfg, s, r), s.reqs[r].key)
  {
    var k := s.reqs[r].key;
    var st := s.reqs[r].stage;
    if st.AwaitLock? {
      AcquireStepKeeps(cfg, s, r, k);
    } else if st.MemLookup? {
      MemLookupKeeps(cfg, s, r, k);
    } else if st.DbWait? || st.DbQuery? || st.RunWait? {
      MissStepKeeps(cfg, s, r, k);
    } else if st.Reload? || st.Stamped? {
      MemSetKeeps(cfg, s, r, k);
    } else if st.Replay? {
      ReplayKeeps(cfg, s, r, k);
    } else if st.Sending? {
      SendKeeps(cfg, s, r, k);
    } else if st.Created? {
      CommitKeeps(cfg, s, r, k);
    } else if st.Creating? && k in s.table {
      ConflictKeeps(cfg, s, r, k);
    } else if st.Creating? {
      InsertKeeps(cfg, s, r, k);
    } else {
      StoreStepKeeps(cfg, s, r, k);
    }
  }

  /** What a step does to the locks and to the holder of any other key. */
  lemma StepLocks(cfg: Config, s: State, r: nat, k: CacheKey)
    requires Inv(cfg, s) && Enabled(cfg, s, Advance(r))
    ensures LocksOk(cfg, Step(cfg, s, r))
    ensures k != s.reqs[r].key || s.reqs[r].stage.Arrived? ==>
              Holder(cfg, Step(cfg, s, r), k) == Holder(cfg, s, k)
  {
    var t := Step(cfg, s, r);
    var st := s.reqs[r].stage;
    if st.AwaitLock? {
      AcquiredKeeps(cfg, s, t, r, k);
    } else if st.Replay? || st.Created? {
      ReleasedKeeps(cfg, s, t, r, k);
    } else {
      MovedKeeps(cfg, s, t, r, t.reqs[r].stage, k);
    }
  }

  /** An operation on one LRU: shape kept, and other keys' entries kept or evicted. */
  lemma MemOp(cfg: Config, s: State, i: nat, op: Lru.Op, k: CacheKey)
    requires ShapeOk(cfg, s) && i < |s.mem| && !op.DeleteOld?
    ensures var c := Lru.Apply(s.mem[i], cfg.maxSize, op);
            && ShapeOk(cfg, s.(mem := s.mem[i := c]))
            && (k != op.key ==> Lru.Lookup(c, k).None? || Lru.Lookup(c, k) == Lru.Lookup(s.mem[i], k))
  {
    Lru.ApplyKeeps(s.mem[i], cfg.maxSize, op);
    if op.Get? {
      Lru.GetLookup(s.mem[i], op.key, k);
    } else {
      Lru.SetLookup(s.mem[i], cfg.maxSize, op.key, op.value, k);
    }
  }

  lemma StepMem(cfg: Config, s: State, r: nat, k: CacheKey)
    requires ShapeOk(cfg, s) && Enabled(cfg, s, Advance(r))
    ensures ShapeOk(cfg, Step(cfg, s, r))
    ensures k != s.reqs[r].key ==>
              forall i | 0 <= i < |s.mem| ::
                || Lru.Lookup(Step(cfg, s, r).mem[i], k).None?
                || Lru.Lookup(Step(cfg, s, r).mem[i], k) == Lru.Lookup(s.mem[i], k)
  {
    var t, i, own, st := Step(cfg, s, r), s.reqs[r].inst, s.reqs[r].key, s.reqs[r].stage;
    if st.MemLookup? {
      MemOp(cfg, s, i, Lru.Get(own), k);
      assert t.mem == s.mem[i := Lru.AfterGet(s.mem[i], own)];
    } else if st.Reload? || st.Stamped? {
      MemOp(cfg, s, i, Lru.Set(own, st.value), k);
      assert t.mem == s.mem[i := Lru.AfterSet(s.mem[i], cfg.maxSize, own, st.value)];
    } else {
      assert t.mem == s.mem;
    }
  }

  lemma StepRequest(cfg: Config, s: State, r: nat)
    requires Enabled(cfg, s, Advance(r))
    ensures var t := Step(cfg, s, r);
            |t.reqs| == |s.reqs| && t.reqs == s.reqs[r := s.reqs[r].(stage := t.reqs[r].stage)] && t.now == s.now
  {
  }

  /** What a step appends to the histories and puts into the table. */
  lemma StepAppends(cfg: Config, s: State, r: nat)
    requires Enabled(cfg, s, Advance(r))
    ensures var t, k := Step(cfg, s, r), s.reqs[r].key;
            && t.runs == s.runs
            && (t.answers == s.answers || exists a :: t.answers == s.answers + [a] && a.key == k)
            && ((t.stores == s.stores && t.table == s.table) ||
                (t.stores == s.stores + [k] && k in t.table && t.table == s.table[k := t.table[k]]))
  {
    var st := s.reqs[r].stage;
    if st.Sending? {
      var a := Answer(s.reqs[r].key, st.payload, true);
      assert Step(cfg, s, r).answers == s.answers + [a] && a.key == s.reqs[r].key;
    }
  }

  /** It concerns its own key. */
  lemma StepHistory(cfg: Config, s: State, r: nat, k: CacheKey)
    requires Enabled(cfg, s, Advance(r)) && k != s.reqs[r].key
    ensures var t := Step(cfg, s, r);
            && t.runs == s.runs && Sent(t.answers, k) == Sent(s.answers, k)
            && Stores(t.stores, k) == Stores(s.stores, k) && (k in t.table ==> k in s.table && t.table[k] == s.table[k])
  {
    StepAppends(cfg, s, r);
    AppendOther(s.answers, Step(cfg, s, r).answers, s.stores, s.reqs[r].key, k);
  }

  lemma AppendOther(answers: seq<Answer>, after: seq<Answer>, stores: seq<CacheKey>, own: CacheKey, k: CacheKey)
    requires k != own && (after == answers || exists a :: after == answers + [a] && a.key == own)
    ensures Sent(after, k) == Sent(answers, k) && Stores(stores + [own], k) == Stores(stores, k)
  {
    HistoryAppend([], Run(own, None), answers, Answer(own, Payload([], 0, ""), true), stores, own, k);
    if after != answers {
      var a :| after == answers + [a] && a.key == own;
      HistoryAppend([], Run(own, None), answers, a, stores, own, k);
    }
  }

  lemma OtherStepKeeps(cfg: Config, s: State, r: nat, k: CacheKey)
    requires Inv(cfg, s) && Enabled(cfg, s, Advance(r)) && k != s.reqs[r].key
    ensures KeyInv(cfg, Step(cfg, s, r), k)
  {
    var t := Step(cfg, s, r);
    assert KeyInv(cfg, s, k);
    StepLocks(cfg, s, r, k);
    StepMem(cfg, s, r, k);
    StepRequest(cfg, s, r);
    StepHistory(cfg, s, r, k);
    assert SameSenders(s, t, k);
    QuietKeeps(cfg, s, t, k);
  }

  lemma AdvanceKeeps(cfg: Config, s: State, r: nat)
    requires Inv(cfg, s) && Enabled(cfg, s, Advance(r))
    ensures Inv(cfg, Step(cfg, s, r))
  {
    var t := Step(cfg, s, r);
    StepLocks(cfg, s, r, s.reqs[r].key);
    StepMem(cfg, s, r, s.reqs[r].key);
    forall k
      ensures KeyInv(cfg, t, k)
    {
      if k != s.reqs[r].key {
        OtherStepKeeps(cfg, s, r, k);
      } else if s.reqs[r].stage.Arrived? {
        StepLocks(cfg, s, r, k);
        assert KeyInv(cfg, s, k);
        QuietKeeps(cfg, s, t, k);
      } else {
        OwnStepKeeps(cfg, s, r);
      }
    }
  }

  lemma FinishStepKeeps(cfg: Config, s: State, r: nat, outcome: Option<Payload>)
    requires Inv(cfg, s) && Enabled(cfg, s, Finish(r, outcome))
    ensures Inv(cfg, FinishRun(cfg, s, r, outcome))
  {
    var t, own := FinishRun(cfg, s, r, outcome), s.reqs[r].key;
    if outcome.Some? {
      MovedKeeps(cfg, s, t, r, Produced(outcome.value), own);
    } else {
      ReleasedKeeps(cfg, s, t, r, own);
    }
    forall k
      ensures KeyInv(cfg, t, k)
    {
      if k == own {
        if outcome.Some? {
          SucceedKeeps(cfg, s, r, outcome.value, k);
        } else {
          FailKeeps(cfg, s, r, k);
        }
      } else {
        assert KeyInv(cfg, s, k);
        var p := if outcome.Some? then outcome.value else Payload([], 0, "");
        HistoryAppend(s.runs, Run(own, outcome), s.answers, Answer(own, p, false), s.stores, own, k);
        if outcome.Some? {
          MovedKeeps(cfg, s, t, r, Produced(outcome.value), k);
        } else {
          ReleasedKeeps(cfg, s, t, r, k);
        }
        QuietKeeps(cfg, s, t, k);
      }
    }
  }

  lemma EnvironmentKeeps(cfg: Config, s: State, l: Label)
    requires Inv(cfg, s) && Enabled(cfg, s, l) && !IsRequestStep(l)
    ensures Inv(cfg, Next(cfg, s, l))
  {
    var t := Next(cfg, s, l);
    if l.MemCleanup? {
      Lru.SurvivorsSubset(s.mem[l.inst], l.at - cfg.ttl);
    }
    forall k
      ensures KeyInv(cfg, t, k)
    {
      assert KeyInv(cfg, s, k);
      if l.MemCleanup? {
        Lru.DeleteOldLookup(s.mem[l.inst], l.at - cfg.ttl, k);
      }
      QuietKeeps(cfg, s, t, k);
    }
  }

  lemma NextKeeps(cfg: Config, s: State, l: Label)
    requires Inv(cfg, s) && Enabled(cfg, s, l)
    ensures Inv(cfg, Next(cfg, s, l))
  {
    match l
    case Advance(r) => AdvanceKeeps(cfg, s, r);
    case Finish(r, outcome) => FinishStepKeeps(cfg, s, r, outcome);
    case _ => EnvironmentKeeps(cfg, s, l);
  }

  lemma {:induction false} PathKeeps(cfg: Config, s: State, ls: seq<Label>, t: State)
    requires Inv(cfg, s) && Path(cfg, s, ls, t)
    ensures Inv(cfg, t)
    decreases |ls|
  {
    if ls != [] {
      NextKeeps(cfg, s, ls[0]);
      PathKeeps(cfg, Next(cfg, s, ls[0]), ls[1..], t);
    }
  }

  /** The invariant holds in every reachable state. */
  lemma ReachableInv(cfg: Config, t: State)
    requires Reachable(cfg, t)
    ensures Inv(cfg, t)
  {
    var start, ls :| Path(cfg, Init(cfg, start), ls, t);
    PathKeeps(cfg, Init(cfg, start), ls, t);
  }
}
