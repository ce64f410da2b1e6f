/**
  Password-reset tokens: confirmations read a token, check the clock, change a password and mark
  the token used, each a separate step, next to the cleanup that deletes used and expired tokens.
 */
module ResetTokens {

  datatype TokenRow = TokenRow(expiresAt: int, used: bool)

  datatype Reason = NotFound | AlreadyUsed | Expired

  datatype Stage =
    | Started
    | Read(expiresAt: int)     // found and unused, before the expiry check
    | Accepted                 // passed all checks, before the password update
    | Changed                  // password updated, before MarkUsed
    | Confirmed
    | Rejected(reason: Reason)
    | Failed                   // the update found no active user, or MarkUsed failed

  /** early: no MarkUsed of the token had completed when this confirmation read it. */
  datatype Confirm = Confirm(token: string, stage: Stage, early: bool)

  /** created and marked: tokens ever inserted and ever marked used; updates: tokens of password changes made. */
  datatype State = State(
    now: int, rows: map<string, TokenRow>, confirms: seq<Confirm>,
    created: set<string>, marked: set<string>, updates: seq<string>)

  datatype Label =
    | Create(token: string, expiresAt: int)
    | Start(token: string)
    | ReadToken(c: nat)
    | CheckClock(c: nat)
    | Update(c: nat, ok: bool)
    | MarkUsed(c: nat, ok: bool)
    | DeleteExpired
    | Tick(d: nat)

  function Put(s: State, c: nat, st: Stage): State
    requires c < |s.confirms|
  {
    s.(confirms := s.confirms[c := s.confirms[c].(stage := st)])
  }

  /** What a confirmation finds in the table under its token. */
  function Found(rows: map<string, TokenRow>, t: string): Stage {
    if t !in rows then Rejected(NotFound)
    else if rows[t].used then Rejected(AlreadyUsed)
    else Read(rows[t].expiresAt)
  }

  /** A label whose confirmation is not at that step has no effect; a token string is fresh when created. */
  function Next(s: State, l: Label): State {
    match l
    case Create(t, e) =>
      if t in s.created then s else s.(rows := s.rows[t := TokenRow(e, false)], created := s.created + {t})
    case Start(t) => s.(confirms := s.confirms + [Confirm(t, Started, false)])
    case ReadToken(c) =>
      if c >= |s.confirms| || !s.confirms[c].stage.Started? then s
      else
        var t := s.confirms[c].token;
        s.(confirms := s.confirms[c := Confirm(t, Found(s.rows, t), t !in s.marked)])
    case CheckClock(c) =>
      if c >= |s.confirms| || !s.confirms[c].stage.Read? then s
      else Put(s, c, if s.now > s.confirms[c].stage.expiresAt then Rejected(Expired) else Accepted)
    case Update(c, ok) =>
      if c >= |s.confirms| || !s.confirms[c].stage.Accepted? then s
      else if ok then Put(s, c, Changed).(updates := s.updates + [s.confirms[c].token])
      else Put(s, c, Failed)
    case MarkUsed(c, ok) =>
      if c >= |s.confirms| || !s.confirms[c].stage.Changed? then s
      else if ok then
        var t := s.confirms[c].token;
        Put(s, c, Confirmed).(
          rows := if t in s.rows then s.rows[t := s.rows[t].(used := true)] else s.rows,
          marked := s.marked + {t})
      else Put(s, c, Failed)
    case DeleteExpired =>
      s.(rows := map t | t in s.rows && !(s.rows[t].expiresAt < s.now || s.rows[t].used) :: s.rows[t])
    case Tick(d) => s.(now := s.now + d)
  }

  function Init(start: int): State {
    State(start, map[], [], {}, {}, [])
  }

  function Run(s: State, ls: seq<Label>): State {
    if ls == [] then s else Next(Run(s, ls[..|ls| - 1]), ls[|ls| - 1])
  }

  predicate Moves(l: Label) {
    l.ReadToken? || l.CheckClock? || l.Update? || l.MarkUsed?
  }

  function Changes(updates: seq<string>, t: string): nat {
    if updates == [] then 0 else Changes(updates[..|updates| - 1], t) + if updates[|updates| - 1] == t then 1 else 0
  }

  predicate InFlight(x: Confirm, t: string) {
    x.token == t && (x.stage.Started? || x.stage.Read? || x.stage.Accepted? || x.stage.Changed?)
  }

  function Running(cs: seq<Confirm>, t: string): nat {
    if cs == [] then 0 else Running(cs[..|cs| - 1], t) + if InFlight(cs[|cs| - 1], t) then 1 else 0
  }

  /** Confirmations that read t before any MarkUsed of it completed and found it usable. */
  function EarlyReaders(cs: seq<Confirm>, t: string): nat {
    if cs == [] then 0
    else EarlyReaders(cs[..|cs| - 1], t) +
         var x := cs[|cs| - 1]; if x.token == t && x.early && !x.stage.Started? && !x.stage.Rejected? then 1 else 0
  }

  // ---- Bounds on password changes, over every interleaving ----

  /** A marked token is never usable again, and only early readers are past the first check. */
  ghost predicate TokensOk(s: State) {
    && s.marked <= s.created && s.rows.Keys <= s.created
    && (forall t | t in s.marked && t in s.rows :: s.rows[t].used)
    && (forall c | 0 <= c < |s.confirms| ::
          var x := s.confirms[c];
          && (!x.stage.Started? && !x.stage.Rejected? ==> x.early && x.token in s.created)
          && (x.stage.Started? ==> !x.early))
  }

  lemma TokensStep(s: State, l: Label)
    requires TokensOk(s)
    ensures TokensOk(Next(s, l))
  {
  }

  lemma {:induction false} TokensRun(start: int, ls: seq<Label>)
    ensures TokensOk(Run(Init(start), ls))
  {
    if ls != [] {
      TokensRun(start, ls[..|ls| - 1]);
      TokensStep(Run(Init(start), ls[..|ls| - 1]), ls[|ls| - 1]);
    }
  }

  /** A confirmation that reads its token after a MarkUsed of it completed is rejected. */
  lemma LateReadIsRejected(start: int, ls: seq<Label>, c: nat)
    requires var s := Run(Init(start), ls);
             c < |s.confirms| && s.confirms[c].stage.Started? && s.confirms[c].token in s.marked
    ensures Next(Run(Init(start), ls), ReadToken(c)).confirms[c].stage.Rejected?
  {
    TokensRun(start, ls);
  }

  lemma {:induction false} ReadersUpdate(cs: seq<Confirm>, c: nat, x: Confirm, t: string)
    requires c < |cs| && x.token == cs[c].token
    ensures Running(cs[c := x], t) + (if InFlight(cs[c], t) then 1 else 0) ==
            Running(cs, t) + (if InFlight(x, t) then 1 else 0)
  {
    var n := |cs| - 1;
    if c == n {
      assert cs[c := x][..n] == cs[..n];
    } else {
      assert cs[c := x][..n] == cs[..n][c := x];
      ReadersUpdate(cs[..n], c, x, t);
    }
  }

  function Credit(x: Confirm, t: string): nat {
    if x.token == t && (x.stage.Changed? || x.stage.Confirmed? || x.stage.Failed?) then 1 else 0
  }

  /** Confirmations of t that have changed a password, or failed to, whatever became of their MarkUsed. */
  function Credits(cs: seq<Confirm>, t: string): nat {
    if cs == [] then 0 else Credits(cs[..|cs| - 1], t) + Credit(cs[|cs| - 1], t)
  }

  lemma {:induction false} CreditsUpdate(cs: seq<Confirm>, c: nat, x: Confirm, t: string)
    requires c < |cs|
    ensures Credits(cs[c := x], t) + Credit(cs[c], t) == Credits(cs, t) + Credit(x, t)
  {
    var n := |cs| - 1;
    if c == n {
      assert cs[c := x][..n] == cs[..n];
    } else {
      assert cs[c := x][..n] == cs[..n][c := x];
      CreditsUpdate(cs[..n], c, x, t);
    }
  }

  lemma ChangesAppend(updates: seq<string>, x: string, t: string)
    ensures Changes(updates + [x], t) == Changes(updates, t) + if x == t then 1 else 0
  {
    assert (updates + [x])[..|updates|] == updates;
  }

  /** A confirmation's step adds at most as many changes as credit. */
  lemma CreditMoves(s: State, l: Label, t: string)
    requires Moves(l) && l.c < |s.confirms|
    ensures var u := Next(s, l);
            && u.confirms == s.confirms[l.c := u.confirms[l.c]]
            && u.confirms[l.c].token == s.confirms[l.c].token && s.marked <= u.marked
            && Credit(u.confirms[l.c], t) >= Credit(s.confirms[l.c], t)
            && (u.updates == s.updates
                || (u.updates == s.updates + [s.confirms[l.c].token]
                    && (s.confirms[l.c].token == t ==> Credit(u.confirms[l.c], t) == Credit(s.confirms[l.c], t) + 1)))
  {
  }

  lemma ChangesMove(s: State, l: Label, t: string)
    requires Changes(s.updates, t) <= Credits(s.confirms, t) && Moves(l) && l.c < |s.confirms|
    ensures var u := Next(s, l); Changes(u.updates, t) <= Credits(u.confirms, t)
  {
    CreditMoves(s, l, t);
    CreditsUpdate(s.confirms, l.c, Next(s, l).confirms[l.c], t);
    ChangesAppend(s.updates, s.confirms[l.c].token, t);
  }

  lemma ChangesStep(s: State, l: Label, t: string)
    requires Changes(s.updates, t) <= Credits(s.confirms, t)
    ensures var u := Next(s, l); Changes(u.updates, t) <= Credits(u.confirms, t)
  {
    var u := Next(s, l);
    if l.Start? {
      assert u.confirms[..|s.confirms|] == s.confirms;
    } else if Moves(l) && l.c < |s.confirms| {
      ChangesMove(s, l, t);
    } else {
      assert u.confirms == s.confirms && u.updates == s.updates;
    }
  }

  lemma {:induction false} CreditsAreEarly(cs: seq<Confirm>, t: string)
    requires forall c | 0 <= c < |cs| :: !cs[c].stage.Started? && !cs[c].stage.Rejected? ==> cs[c].early
    ensures Credits(cs, t) <= EarlyReaders(cs, t)
  {
    if cs != [] {
      CreditsAreEarly(cs[..|cs| - 1], t);
    }
  }

  lemma {:induction false} ChangesRun(start: int, ls: seq<Label>, t: string)
    ensures var s := Run(Init(start), ls); Changes(s.updates, t) <= Credits(s.confirms, t)
  {
    if ls != [] {
      ChangesRun(start, ls[..|ls| - 1], t);
      ChangesStep(Run(Init(start), ls[..|ls| - 1]), ls[|ls| - 1], t);
    }
  }

  /** In every run, password changes through a token never outnumber its early readers. */
  lemma ChangesBounded(start: int, ls: seq<Label>, t: string)
    ensures var s := Run(Init(start), ls);
            Changes(s.updates, t) <= EarlyReaders(s.confirms, t)
  {
    TokensRun(start, ls);
    ChangesRun(start, ls, t);
    CreditsAreEarly(Run(Init(start), ls).confirms, t);
  }

  // ---- When a token changes a password at most once ----

  /** limit: how many confirmations of one token may overlap; markMayFail: whether MarkUsed can fail. */
  datatype Limits = Limits(limit: nat, markMayFail: bool)

  predicate Obeys(lim: Limits, s: State, l: Label) {
    && (l.Start? ==> Running(s.confirms, l.token) < lim.limit)
    && (l.MarkUsed? ==> l.ok || lim.markMayFail)
  }

  predicate Allowed(lim: Limits, start: int, ls: seq<Label>) {
    ls == [] || (
      var before := ls[..|ls| - 1];
      Allowed(lim, start, before) && Obeys(lim, Run(Init(start), before), ls[|ls| - 1]))
  }

  ghost predicate AtMostOneChange(lim: Limits, start: int) {
    forall ls, t | Allowed(lim, start, ls) :: Changes(Run(Init(start), ls).updates, t) <= 1
  }

  ghost predicate HasChangedNow(s: State, t: string) {
    exists c | 0 <= c < |s.confirms| :: s.confirms[c].token == t && s.confirms[c].stage.Changed?
  }

  /** A change of t is made by a confirmation that is still to mark it, or t is marked. */
  ghost predicate OnceOk(s: State, t: string) {
    && Running(s.confirms, t) <= 1
    && Changes(s.updates, t) <= 1
    && (Changes(s.updates, t) == 1 ==> t in s.marked || HasChangedNow(s, t))
    && (forall c | 0 <= c < |s.confirms| && s.confirms[c].token == t ::
          s.confirms[c].stage.Read? || s.confirms[c].stage.Accepted? ==> Changes(s.updates, t) == 0)
  }

  lemma {:induction false} OneRunning(cs: seq<Confirm>, a: nat, t: string)
    requires a < |cs| && InFlight(cs[a], t)
    ensures Running(cs, t) >= 1
  {
    if a < |cs| - 1 {
      OneRunning(cs[..|cs| - 1], a, t);
    }
  }

  lemma {:induction false} TwoRunning(cs: seq<Confirm>, a: nat, b: nat, t: string)
    requires a < b < |cs| && InFlight(cs[a], t) && InFlight(cs[b], t)
    ensures Running(cs, t) >= 2
  {
    if b < |cs| - 1 {
      TwoRunning(cs[..|cs| - 1], a, b, t);
    } else {
      OneRunning(cs[..|cs| - 1], a, t);
    }
  }

  lemma SoleRunner(s: State, a: nat, b: nat, t: string)
    requires OnceOk(s, t) && a < |s.confirms| && b < |s.confirms|
    requires InFlight(s.confirms[a], t) && InFlight(s.confirms[b], t)
    ensures a == b
  {
    if a < b { TwoRunning(s.confirms, a, b, t); }
    if b < a { TwoRunning(s.confirms, b, a, t); }
  }

  lemma OnceStart(s: State, l: Label, t: string)
    requires TokensOk(s) && OnceOk(s, t) && l.Start? && Obeys(Limits(1, false), s, l)
    ensures OnceOk(Next(s, l), t)
  {
    var u := Next(s, l);
    assert u.confirms[..|s.confirms|] == s.confirms;
    if HasChangedNow(s, t) {
      var c :| 0 <= c < |s.confirms| && s.confirms[c].token == t && s.confirms[c].stage.Changed?;
      assert u.confirms[c] == s.confirms[c];
    }
  }

  /** A step of another token's confirmation. */
  lemma OnceOther(s: State, u: State, c: nat, x: Confirm, t: string)
    requires OnceOk(s, t) && c < |s.confirms| && s.confirms[c].token == x.token != t
    requires u.confirms == s.confirms[c := x] && s.marked <= u.marked && Changes(u.updates, t) == Changes(s.updates, t)
    ensures OnceOk(u, t)
  {
    ReadersUpdate(s.confirms, c, x, t);
    if HasChangedNow(s, t) {
      var d :| 0 <= d < |s.confirms| && s.confirms[d].token == t && s.confirms[d].stage.Changed?;
      assert u.confirms[d] == s.confirms[d];
    }
  }

  lemma OnceMove(s: State, l: Label, t: string)
    requires TokensOk(s) && OnceOk(s, t) && Obeys(Limits(1, false), s, l)
    requires Moves(l) && l.c < |s.confirms| && s.confirms[l.c].token == t && Next(s, l) != s
    ensures OnceOk(Next(s, l), t)
  {
    var u := Next(s, l);
    var x, y := s.confirms[l.c], u.confirms[l.c];
    assert u.confirms == s.confirms[l.c := y];
    ReadersUpdate(s.confirms, l.c, y, t);
    forall c | 0 <= c < |s.confirms| && InFlight(s.confirms[c], t) ensures c == l.c {
      SoleRunner(s, c, l.c, t);
    }
    if l.Update? && l.ok {
      assert u.updates[..|s.updates|] == s.updates;
      assert HasChangedNow(u, t);
    }
  }

  lemma {:induction false} OnceRun(start: int, ls: seq<Label>, t: string)
    requires Allowed(Limits(1, false), start, ls)
    ensures OnceOk(Run(Init(start), ls), t)
  {
    if ls != [] {
      var before, l := ls[..|ls| - 1], ls[|ls| - 1];
      var s := Run(Init(start), before);
      OnceRun(start, before, t);
      TokensRun(start, before);
      if l.Start? {
        OnceStart(s, l, t);
      } else if l.Create? || l.DeleteExpired? || l.Tick? {
        assert Next(s, l).confirms == s.confirms;
        assert HasChangedNow(s, t) ==> HasChangedNow(Next(s, l), t);
      } else if Next(s, l) != s {
        if s.confirms[l.c].token == t {
          OnceMove(s, l, t);
        } else {
          CreditMoves(s, l, t);
          ChangesAppend(s.updates, s.confirms[l.c].token, t);
          OnceOther(s, Next(s, l), l.c, Next(s, l).confirms[l.c], t);
        }
      }
    }
  }

  lemma {:induction false} NoneStarted(markMayFail: bool, start: int, ls: seq<Label>)
    requires Allowed(Limits(0, markMayFail), start, ls)
    ensures var s := Run(Init(start), ls); s.confirms == [] && s.updates == []
  {
    if ls != [] {
      NoneStarted(markMayFail, start, ls[..|ls| - 1]);
    }
  }

  /** One more allowed step: from the state s that the labels ls lead to, to the state u. */
  lemma Then(lim: Limits, start: int, ls: seq<Label>, s: State, l: Label, u: State) returns (longer: seq<Label>)
    requires Allowed(lim, start, ls) && Run(Init(start), ls) == s
    requires Obeys(lim, s, l) && Next(s, l) == u
    ensures Allowed(lim, start, longer) && Run(Init(start), longer) == u
  {
    longer := ls + [l];
    assert longer[..|ls|] == ls;
  }

  /** Token "t" still unused, with these confirmations of it and these password changes so far. */
  function Fresh(start: int, confirms: seq<Confirm>, updates: seq<string>): State {
    State(start, map["t" := TokenRow(start, false)], confirms, {"t"}, {}, updates)
  }

  lemma {:induction false} Confirms(lim: Limits, start: int, ls: seq<Label>, cs: seq<Confirm>, updates: seq<string>)
    returns (longer: seq<Label>)
    requires Allowed(lim, start, ls) && Run(Init(start), ls) == Fresh(start, cs, updates)
    requires Running(cs, "t") < lim.limit
    ensures Allowed(lim, start, longer)
    ensures Run(Init(start), longer) == Fresh(start, cs + [Confirm("t", Accepted, true)], updates)
  {
    var n := |cs|;
    var c0, c1, c2 := Confirm("t", Started, false), Confirm("t", Read(start), true), Confirm("t", Accepted, true);
    longer := Then(lim, start, ls, Fresh(start, cs, updates), Start("t"), Fresh(start, cs + [c0], updates));
    assert (cs + [c0])[n := c1] == cs + [c1] && (cs + [c1])[n := c2] == cs + [c2];
    assert (cs + [c0])[n := c0.(early := true)][n := c1] == cs + [c1];
    longer := Then(lim, start, longer, Fresh(start, cs + [c0], updates), ReadToken(n), Fresh(start, cs + [c1], updates));
    longer := Then(lim, start, longer, Fresh(start, cs + [c1], updates), CheckClock(n), Fresh(start, cs + [c2], updates));
  }

  lemma FirstConfirms(lim: Limits, start: int) returns (ls: seq<Label>)
    requires lim.limit >= 1
    ensures Allowed(lim, start, ls)
    ensures Run(Init(start), ls) == Fresh(start, [Confirm("t", Accepted, true)], [])
  {
    ls := Then(lim, start, [], Init(start), Create("t", start), Fresh(start, [], []));
    ls := Confirms(lim, start, ls, [], []);
    assert [] + [Confirm("t", Accepted, true)] == [Confirm("t", Accepted, true)];
  }

  /** Two confirmations that both pass the checks before either marks the token change the password twice. */
  lemma OverlapChangesTwice(lim: Limits, start: int) returns (ls: seq<Label>)
    requires lim.limit >= 2
    ensures Allowed(lim, start, ls) && Run(Init(start), ls).updates == ["t", "t"]
  {
    var ok, done := Confirm("t", Accepted, true), Confirm("t", Changed, true);
    ls := FirstConfirms(lim, start);
    assert [ok][..0] == [];
    ls := Confirms(lim, start, ls, [ok], []);
    assert [ok] + [ok] == [ok, ok] && [ok, ok][0 := done] == [done, ok] && [done, ok][1 := done] == [done, done];
    assert [] + ["t"] == ["t"] && ["t"] + ["t"] == ["t", "t"];
    ls := Then(lim, start, ls, Fresh(start, [ok, ok], []), Update(0, true), Fresh(start, [done, ok], ["t"]));
    ls := Then(lim, start, ls, Fresh(start, [done, ok], ["t"]), Update(1, true), Fresh(start, [done, done], ["t", "t"]));
  }

  /** After a MarkUsed that failed, the token changes the password again. */
  lemma FailedMarkChangesTwice(lim: Limits, start: int) returns (ls: seq<Label>)
    requires lim.limit >= 1 && lim.markMayFail
    ensures Allowed(lim, start, ls) && Run(Init(start), ls).updates == ["t", "t"]
  {
    var ok, done, failed := Confirm("t", Accepted, true), Confirm("t", Changed, true), Confirm("t", Failed, true);
    ls := FirstConfirms(lim, start);
    assert [ok][0 := done] == [done] && [done][0 := failed] == [failed] && [] + ["t"] == ["t"];
    ls := Then(lim, start, ls, Fresh(start, [ok], []), Update(0, true), Fresh(start, [done], ["t"]));
    ls := Then(lim, start, ls, Fresh(start, [done], ["t"]), MarkUsed(0, false), Fresh(start, [failed], ["t"]));
    assert [failed][..0] == [];
    ls := Confirms(lim, start, ls, [failed], ["t"]);
    assert [failed] + [ok] == [failed, ok] && [failed, ok][1 := done] == [failed, done] && ["t"] + ["t"] == ["t", "t"];
    ls := Then(lim, start, ls, Fresh(start, [failed, ok], ["t"]), Update(1, true), Fresh(start, [failed, done], ["t", "t"]));
  }

  lemma CountTwo()
    ensures Changes(["t", "t"], "t") == 2
  {
    assert ["t", "t"][..1] == ["t"] && ["t"][..0] == [];
  }

  /** A token changes a password at most once in every run exactly when confirmations of it never overlap and MarkUsed never fails. */
  lemma OnceExactly(lim: Limits, start: int)
    ensures AtMostOneChange(lim, start) <==> lim.limit == 0 || (lim.limit == 1 && !lim.markMayFail)
  {
    if lim.limit >= 2 {
      var ls := OverlapChangesTwice(lim, start);
      CountTwo();
      assert !AtMostOneChange(lim, start);
    } else if lim.limit == 1 && lim.markMayFail {
      var ls := FailedMarkChangesTwice(lim, start);
      CountTwo();
      assert !AtMostOneChange(lim, start);
    } else {
      forall ls, t | Allowed(lim, start, ls) ensures Changes(Run(Init(start), ls).updates, t) <= 1 {
        if lim.limit == 0 {
          NoneStarted(lim.markMayFail, start, ls);
        } else {
          OnceRun(start, ls, t);
        }
      }
    }
  }

  // ---- Cleanup never decides which confirmations pass ----

  function WithoutCleanups(ls: seq<Label>): seq<Label> {
    if ls == [] then []
    else
      var rest := WithoutCleanups(ls[..|ls| - 1]);
      if ls[|ls| - 1].DeleteExpired? then rest else rest + [ls[|ls| - 1]]
  }

  /** Equal, or rejected against rejected, or rejected as missing against sure to be rejected as expired. */
  predicate SameVerdict(x: Stage, y: Stage, now: int) {
    x == y || (x.Rejected? && (y.Rejected? || (y.Read? && y.expiresAt < now)))
  }

  /** a ran with cleanups, b without them. */
  ghost predicate Similar(a: State, b: State) {
    && SimilarTables(a, b) && |a.confirms| == |b.confirms|
    && (forall c | 0 <= c < |a.confirms| :: SimilarConfirm(a.confirms[c], b.confirms[c], b.now))
  }

  ghost predicate SimilarTables(a: State, b: State) {
    && a.now == b.now && a.created == b.created && a.marked == b.marked && a.updates == b.updates
    && (forall t | t in a.rows :: t in b.rows && a.rows[t] == b.rows[t])
    && (forall t | t in b.rows && t !in a.rows :: b.rows[t].used || b.rows[t].expiresAt < b.now)
  }

  predicate SimilarConfirm(x: Confirm, y: Confirm, now: int) {
    x.token == y.token && SameVerdict(x.stage, y.stage, now)
  }

  lemma SimilarMove(a: State, b: State, l: Label)
    requires Similar(a, b) && Moves(l)
    ensures Similar(Next(a, l), Next(b, l))
  {
    if l.c < |a.confirms| {
      assert SimilarConfirm(a.confirms[l.c], b.confirms[l.c], b.now);
      SimilarMoved(a, b, l);
    }
  }

  lemma SimilarMoved(a: State, b: State, l: Label)
    requires SimilarTables(a, b) && Moves(l) && l.c < |a.confirms| && l.c < |b.confirms|
    requires SimilarConfirm(a.confirms[l.c], b.confirms[l.c], b.now)
    ensures SimilarTables(Next(a, l), Next(b, l))
    ensures var x := Next(a, l).confirms[l.c]; Next(a, l).confirms == a.confirms[l.c := x]
    ensures var y := Next(b, l).confirms[l.c]; Next(b, l).confirms == b.confirms[l.c := y]
    ensures SimilarConfirm(Next(a, l).confirms[l.c], Next(b, l).confirms[l.c], b.now)
  {
  }

  lemma SimilarStep(a: State, b: State, l: Label)
    requires Similar(a, b) && !Moves(l)
    ensures Similar(Next(a, l), if l.DeleteExpired? then b else Next(b, l))
  {
  }

  /**
    Removing every cleanup from a run leaves the same confirmations past the not-found, used and expired checks and
    the same password changes; only why a confirmation is rejected, and how early, may differ.
   */
  lemma {:induction false} CleanupsAreInvisible(start: int, ls: seq<Label>)
    ensures Similar(Run(Init(start), ls), Run(Init(start), WithoutCleanups(ls)))
  {
    if ls != [] {
      var before, l := ls[..|ls| - 1], ls[|ls| - 1];
      CleanupsAreInvisible(start, before);
      var a, b := Run(Init(start), before), Run(Init(start), WithoutCleanups(before));
      if Moves(l) { SimilarMove(a, b, l); } else { SimilarStep(a, b, l); }
      if !l.DeleteExpired? {
        assert WithoutCleanups(ls)[..|WithoutCleanups(before)|] == WithoutCleanups(before);
      }
    }
  }
}
