/**
  The idempotency middleware as a state machine: any number of requests on any number of server
  instances, one LRU per instance, one shared request_cache table, one table of advisory locks and
  one connection pool per instance. Each label is one atomic step; steps interleave freely.

  The runs considered are fault-free: no database failure and no cancelled request context.
 */
module Protocol {
  import opened Common
  import Lru

  /**
    pool is the connection limit of an instance (zero or less means unlimited), admitted bounds the
    idempotent requests an instance serves at once, and lockKey is the hash of the Idempotency-Key
    header that names the advisory lock; nothing is assumed of it, so keys may collide.
   */
  datatype Config = Config(
    instances: nat, maxSize: int, ttl: int, pool: int, admitted: nat, lockKey: string -> int)

  datatype Stage =
    | Arrived                                  // waits for the connection of its lock transaction
    | AwaitLock                                // in pg_advisory_xact_lock
    | MemLookup                                // lock held, before the LRU lookup
    | DbWait                                   // LRU miss, waits for a second connection
    | DbQuery                                  // second connection held, before the SELECT
    | Reload(value: CacheValue)                // row found, before it is set in the LRU
    | Replay(value: CacheValue)                // hit, before the commit that frees the lock
    | Sending(payload: Payload)                // committed, before the response is written; holds nothing
    | RunWait                                  // miss, the handler waits for a connection
    | Running                                  // handler running, with its connection
    | Produced(payload: Payload)               // handler succeeded, before CreatedAt is stamped
    | Stamped(value: CacheValue)               // before the value is set in the LRU
    | InMemory(payload: Payload)               // set in the LRU, before the expiry is computed
    | Expiring(payload: Payload, expiresAt: int)                     // before the row's creation time is stamped
    | CreateWait(payload: Payload, expiresAt: int, createdAt: int)   // waits for a connection to insert with
    | Creating(payload: Payload, expiresAt: int, createdAt: int)
    | Created                                  // inserted or skipped, before the commit
    | Done

  datatype Req = Req(inst: nat, key: CacheKey, stage: Stage)

  /** A finished handler run; None is a handler that returned an error. */
  datatype Run = Run(key: CacheKey, outcome: Option<Payload>)

  datatype Answer = Answer(key: CacheKey, payload: Payload, replayed: bool)

  /** runs, answers and stores are histories: handler runs, responses sent, rows inserted. */
  datatype State = State(
    now: int,
    reqs: seq<Req>,
    locks: map<int, nat>,
    mem: seq<Lru.Cache>,
    table: map<CacheKey, Row>,
    runs: seq<Run>,
    answers: seq<Answer>,
    stores: seq<CacheKey>)

  datatype Label =
    | Arrive(inst: nat, key: CacheKey)
    | Advance(r: nat)
    | Finish(r: nat, outcome: Option<Payload>)
    | Tick(d: nat)
    | MemCleanup(inst: nat, at: int)
    | DbCleanup

  predicate IsRequestStep(l: Label) {
    l.Advance? || l.Finish?
  }

  predicate Holds(st: Stage) {
    !st.Arrived? && !st.AwaitLock? && !st.Sending? && !st.Done?
  }

  /** Connections a request holds: its lock transaction, and a second one while it queries, runs or inserts. */
  function Conns(st: Stage): nat {
    if st.Arrived? || st.Sending? || st.Done? then 0
    else if st.DbQuery? || st.Running? || st.Creating? then 2
    else 1
  }

  function Used(reqs: seq<Req>, inst: nat): nat {
    if reqs == [] then 0
    else Used(reqs[..|reqs| - 1], inst) +
         var last := reqs[|reqs| - 1]; if last.inst == inst then Conns(last.stage) else 0
  }

  function Active(reqs: seq<Req>, inst: nat): nat {
    if reqs == [] then 0
    else Active(reqs[..|reqs| - 1], inst) +
         var last := reqs[|reqs| - 1]; if last.inst == inst && !last.stage.Done? then 1 else 0
  }

  predicate CanTake(cfg: Config, s: State, inst: nat) {
    cfg.pool <= 0 || Used(s.reqs, inst) < cfg.pool
  }

  function LockOf(cfg: Config, k: CacheKey): int {
    cfg.lockKey(k.requestID)
  }

  /** The row the SELECT finds: one that has not expired. */
  predicate Live(s: State, k: CacheKey) {
    k in s.table && s.now < s.table[k].expiresAt
  }

  predicate Ready(cfg: Config, s: State, r: nat)
    requires r < |s.reqs|
  {
    match s.reqs[r].stage
    case Arrived => CanTake(cfg, s, s.reqs[r].inst)
    case AwaitLock => LockOf(cfg, s.reqs[r].key) !in s.locks
    case DbWait => CanTake(cfg, s, s.reqs[r].inst)
    case RunWait => CanTake(cfg, s, s.reqs[r].inst)
    case CreateWait(_, _, _) => CanTake(cfg, s, s.reqs[r].inst)
    case Running => false
    case Done => false
    case _ => true
  }

  predicate Enabled(cfg: Config, s: State, l: Label) {
    match l
    case Arrive(i, k) => i < cfg.instances && Active(s.reqs, i) < cfg.admitted
    case Advance(r) => r < |s.reqs| && s.reqs[r].inst < |s.mem| && Ready(cfg, s, r)
    case Finish(r, _) => r < |s.reqs| && s.reqs[r].stage.Running?
    case Tick(_) => true
    case MemCleanup(i, at) => i < |s.mem| && at <= s.now
    case DbCleanup => true
  }

  function At(s: State, r: nat, st: Stage): State
    requires r < |s.reqs|
  {
    s.(reqs := s.reqs[r := s.reqs[r].(stage := st)])
  }

  /** Commit or rollback: the transaction ends, which frees the lock and the connection. */
  function Release(cfg: Config, s: State, r: nat, st: Stage): State
    requires r < |s.reqs|
  {
    At(s, r, st).(locks := s.locks - {LockOf(cfg, s.reqs[r].key)})
  }

  function SetMem(cfg: Config, s: State, inst: nat, k: CacheKey, v: CacheValue): State
    requires inst < |s.mem|
  {
    s.(mem := s.mem[inst := Lru.AfterSet(s.mem[inst], cfg.maxSize, k, v)])
  }

  /** INSERT ... ON CONFLICT DO NOTHING: an existing row stays, expired or not. */
  function Insert(s: State, k: CacheKey, row: Row): State {
    if k in s.table then s else s.(table := s.table[k := row], stores := s.stores + [k])
  }

  function Step(cfg: Config, s: State, r: nat): State
    requires r < |s.reqs| && s.reqs[r].inst < |s.mem|
  {
    var Req(i, k, st) := s.reqs[r];
    match st
    case Arrived => At(s, r, AwaitLock)
    case AwaitLock => At(s, r, MemLookup).(locks := s.locks[LockOf(cfg, k) := r])
    case MemLookup =>
      (match Lru.Lookup(s.mem[i], k)
       case None => At(s, r, DbWait)
       case Some(v) => At(s, r, Replay(v)).(mem := s.mem[i := Lru.AfterGet(s.mem[i], k)]))
    case DbWait => At(s, r, DbQuery)
    case DbQuery =>
      if Live(s, k) then At(s, r, Reload(CacheValue(s.table[k].payload, s.table[k].createdAt)))
      else At(s, r, RunWait)
    case Reload(v) => SetMem(cfg, At(s, r, Replay(v)), i, k, v)
    case Replay(v) => Release(cfg, s, r, Sending(v.payload))
    case Sending(p) => At(s, r, Done).(answers := s.answers + [Answer(k, p, true)])
    case RunWait => At(s, r, Running)
    case Running => s
    case Produced(p) => At(s, r, Stamped(CacheValue(p, s.now)))
    case Stamped(v) => SetMem(cfg, At(s, r, InMemory(v.payload)), i, k, v)
    case InMemory(p) => At(s, r, Expiring(p, s.now + cfg.ttl))
    case Expiring(p, e) => At(s, r, CreateWait(p, e, s.now))
    case CreateWait(p, e, c) => At(s, r, Creating(p, e, c))
    case Creating(p, e, c) => Insert(At(s, r, Created), k, Row(p, c, e))
    case Created => Release(cfg, s, r, Done)
    case Done => s
  }

  function FinishRun(cfg: Config, s: State, r: nat, outcome: Option<Payload>): State
    requires r < |s.reqs|
  {
    var k := s.reqs[r].key;
    match outcome
    case None => Release(cfg, s, r, Done).(runs := s.runs + [Run(k, None)])
    case Some(p) =>
      // the recorder passes the handler's writes through, so the client already has this answer
      At(s, r, Produced(p)).(runs := s.runs + [Run(k, Some(p))], answers := s.answers + [Answer(k, p, false)])
  }

  function Next(cfg: Config, s: State, l: Label): State
    requires Enabled(cfg, s, l)
  {
    match l
    case Arrive(i, k) => s.(reqs := s.reqs + [Req(i, k, Arrived)])
    case Advance(r) => Step(cfg, s, r)
    case Finish(r, outcome) => FinishRun(cfg, s, r, outcome)
    case Tick(d) => s.(now := s.now + d)
    case MemCleanup(i, at) => s.(mem := s.mem[i := Lru.Survivors(s.mem[i], at - cfg.ttl)])
    case DbCleanup => s.(table := map k | k in s.table && s.table[k].expiresAt >= s.now :: s.table[k])
  }

  function Init(cfg: Config, start: int): State {
    State(start, [], map[], seq(cfg.instances, _ => []), map[], [], [], [])
  }

  /** The labels lead from s to t, every one enabled in its turn. */
  ghost predicate Path(cfg: Config, s: State, ls: seq<Label>, t: State)
    decreases |ls|
  {
    if ls == [] then s == t else Enabled(cfg, s, ls[0]) && Path(cfg, Next(cfg, s, ls[0]), ls[1..], t)
  }

  ghost predicate Reachable(cfg: Config, t: State) {
    exists start, ls :: Path(cfg, Init(cfg, start), ls, t)
  }

  lemma {:induction false} PathAppend(cfg: Config, s: State, ls: seq<Label>, t: State, ms: seq<Label>, u: State)
    requires Path(cfg, s, ls, t) && Path(cfg, t, ms, u)
    ensures Path(cfg, s, ls + ms, u)
    decreases |ls|
  {
    if ls == [] {
      assert ls + ms == ms;
    } else {
      PathAppend(cfg, Next(cfg, s, ls[0]), ls[1..], t, ms, u);
      assert (ls + ms)[1..] == ls[1..] + ms;
    }
  }

  lemma ReachableExtend(cfg: Config, s: State, ls: seq<Label>, t: State)
    requires Reachable(cfg, s) && Path(cfg, s, ls, t)
    ensures Reachable(cfg, t)
  {
    var start, ms :| Path(cfg, Init(cfg, start), ms, s);
    PathAppend(cfg, Init(cfg, start), ms, s, ls, t);
  }

  lemma {:induction false} PathNow(cfg: Config, s: State, ls: seq<Label>, t: State)
    requires Path(cfg, s, ls, t)
    ensures s.now <= t.now
    decreases |ls|
  {
    if ls != [] {
      PathNow(cfg, Next(cfg, s, ls[0]), ls[1..], t);
    }
  }

  // ---- Histories of one key ----

  /** The payloads of the successful handler runs for k, in order. */
  function Successes(runs: seq<Run>, k: CacheKey): seq<Payload> {
    if runs == [] then []
    else Successes(runs[..|runs| - 1], k) +
         var last := runs[|runs| - 1]; if last.key == k && last.outcome.Some? then [last.outcome.value] else []
  }

  /** The payloads of the answers sent for k, in order. */
  function Sent(answers: seq<Answer>, k: CacheKey): seq<Payload> {
    if answers == [] then []
    else Sent(answers[..|answers| - 1], k) +
         var last := answers[|answers| - 1]; if last.key == k then [last.payload] else []
  }

  /** How many rows were inserted for k. */
  function Stores(stores: seq<CacheKey>, k: CacheKey): nat {
    if stores == [] then 0
    else Stores(stores[..|stores| - 1], k) + if stores[|stores| - 1] == k then 1 else 0
  }

  /** How many handler runs for k have finished, failed ones included. */
  function RunCount(runs: seq<Run>, k: CacheKey): nat {
    if runs == [] then 0
    else RunCount(runs[..|runs| - 1], k) + if runs[|runs| - 1].key == k then 1 else 0
  }

  function FailCount(runs: seq<Run>, k: CacheKey): nat {
    if runs == [] then 0
    else FailCount(runs[..|runs| - 1], k) +
         var last := runs[|runs| - 1]; if last.key == k && last.outcome.None? then 1 else 0
  }
}
