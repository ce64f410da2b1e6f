/**
  Password changes that interleave: a change reads the account, compares the old password with what it
  read and writes the new one, each a separate step with no transaction around them, next to the steps
  of reset confirmations, registrations and deletions.
 */
module PasswordWrites {
  import opened Common
  import opened Users
  import opened Credentials
  import R = ResetTokens
  import ConfirmSteps

  datatype Stage =
    | Started
    | Read(seen: string)       // the password the account had when it was read
    | Compared(seen: string)   // the shown password matched it
    | Written
    | Dropped

  /** since: how many password writes there had been, of any account, when this change read its account. */
  datatype Change = Change(uuid: string, current: string, next: string, stage: Stage, since: nat)

  datatype Write = Write(uuid: string, password: string)

  /** accounts: passwords of the open accounts; owner: whose a reset token is; writes: all password writes made. */
  datatype State = State(
    accounts: map<string, string>, known: set<string>, owner: map<string, string>,
    tokens: R.State, changes: seq<Change>, writes: seq<Write>)

  datatype Label =
    | Open(uuid: string, password: string)
    | Close(uuid: string)
    | Grant(token: string, uuid: string, expiresAt: int)
    | Confirm(step: R.Label, password: string)
    | Start(uuid: string, current: string, next: string)
    | ReadUser(c: nat)
    | CompareOld(c: nat)
    | WriteNew(c: nat)

  function Put(s: State, c: nat, x: Change): State
    requires c < |s.changes|
  {
    s.(changes := s.changes[c := x])
  }

  function SetPassword(s: State, uuid: string, password: string): State {
    s.(accounts := s.accounts[uuid := password], writes := s.writes + [Write(uuid, password)])
  }

  /** The account whose password a confirmation's step is about to write, if that is what the step does. */
  function Target(s: State, step: R.Label): Option<string> {
    if step.Update? && step.ok && step.c < |s.tokens.confirms| && s.tokens.confirms[step.c].stage.Accepted?
       && s.tokens.confirms[step.c].token in s.owner
       && s.owner[s.tokens.confirms[step.c].token] in s.accounts
    then Some(s.owner[s.tokens.confirms[step.c].token]) else None
  }

  /** A label whose change or confirmation is not at that step has no effect. */
  function Next(lib: Library, s: State, l: Label): State {
    match l
    case Open(uuid, password) =>
      if uuid in s.known then s
      else s.(accounts := s.accounts[uuid := password], known := s.known + {uuid})
    case Close(uuid) => s.(accounts := s.accounts - {uuid})
    case Grant(token, uuid, expiresAt) =>
      if uuid !in s.accounts || token in s.tokens.created then s
      else s.(owner := s.owner[token := uuid], tokens := R.Next(s.tokens, R.Create(token, expiresAt)))
    case Confirm(step, password) =>
      var target := Target(s, step);
      if step.Create? then s
      else if target.Some? then SetPassword(s.(tokens := R.Next(s.tokens, step)), target.value, password)
      else s.(tokens := R.Next(s.tokens, if step.Update? then R.Update(step.c, false) else step))
    case Start(uuid, current, next) => s.(changes := s.changes + [Change(uuid, current, next, Started, 0)])
    case ReadUser(c) =>
      if c >= |s.changes| || !s.changes[c].stage.Started? then s
      else
        var x := s.changes[c];
        if x.uuid in s.accounts then Put(s, c, x.(stage := Read(s.accounts[x.uuid]), since := |s.writes|))
        else Put(s, c, x.(stage := Dropped))
    case CompareOld(c) =>
      if c >= |s.changes| || !s.changes[c].stage.Read? then s
      else
        var x := s.changes[c];
        if Seen(lib, x.current) == x.stage.seen && Hashable(x.next) then Put(s, c, x.(stage := Compared(x.stage.seen)))
        else Put(s, c, x.(stage := Dropped))
    case WriteNew(c) =>
      if c >= |s.changes| || !s.changes[c].stage.Compared? then s
      else
        var x := s.changes[c];
        if x.uuid in s.accounts then SetPassword(Put(s, c, x.(stage := Written)), x.uuid, x.next)
        else Put(s, c, x.(stage := Dropped))
  }

  function Init(start: int): State {
    State(map[], {}, map[], R.Init(start), [], [])
  }

  function Run(lib: Library, s: State, ls: seq<Label>): State {
    if ls == [] then s else Next(lib, Run(lib, s, ls[..|ls| - 1]), ls[|ls| - 1])
  }

  /** The last password written to the account in a stretch of the history. */
  function LastWrite(writes: seq<Write>, uuid: string): Option<string> {
    if writes == [] then None
    else if writes[|writes| - 1].uuid == uuid then Some(writes[|writes| - 1].password)
    else LastWrite(writes[..|writes| - 1], uuid)
  }

  predicate Pending(st: Stage) {
    st.Read? || st.Compared?
  }

  /** What was read plus what was written since is what the account has. */
  predicate ChangeOk(lib: Library, s: State, x: Change) {
    Pending(x.stage) ==>
      && x.uuid in s.known && x.since <= |s.writes|
      && (x.uuid in s.accounts ==>
            var last := LastWrite(s.writes[x.since..], x.uuid);
            s.accounts[x.uuid] == if last.Some? then last.value else x.stage.seen)
      && (x.stage.Compared? ==> x.stage.seen == Seen(lib, x.current))
  }

  ghost predicate Inv(lib: Library, s: State) {
    && R.TokensOk(s.tokens) && s.accounts.Keys <= s.known
    && (forall c | 0 <= c < |s.changes| :: ChangeOk(lib, s, s.changes[c]))
  }

  lemma LastWriteAppend(writes: seq<Write>, w: Write, since: nat, uuid: string)
    requires since <= |writes|
    ensures LastWrite((writes + [w])[since..], uuid) ==
            if w.uuid == uuid then Some(w.password) else LastWrite(writes[since..], uuid)
  {
    assert (writes + [w])[since..] == writes[since..] + [w];
    assert (writes[since..] + [w])[..|writes| - since] == writes[since..];
  }

  /** A password write keeps what every pending change knows. */
  lemma WriteKeeps(lib: Library, s: State, uuid: string, password: string, x: Change)
    requires ChangeOk(lib, s, x)
    ensures ChangeOk(lib, SetPassword(s, uuid, password), x)
  {
    if Pending(x.stage) {
      LastWriteAppend(s.writes, Write(uuid, password), x.since, x.uuid);
    }
  }

  lemma ConfirmKeeps(lib: Library, s: State, step: R.Label, password: string)
    requires Inv(lib, s)
    ensures Inv(lib, Next(lib, s, Confirm(step, password)))
  {
    var target := Target(s, step);
    R.TokensStep(s.tokens, step);
    if step.Update? {
      R.TokensStep(s.tokens, R.Update(step.c, false));
    }
    if target.Some? {
      var t := s.(tokens := R.Next(s.tokens, step));
      forall c | 0 <= c < |s.changes| ensures ChangeOk(lib, SetPassword(t, target.value, password), s.changes[c]) {
        assert ChangeOk(lib, s, s.changes[c]) && ChangeOk(lib, t, s.changes[c]);
        WriteKeeps(lib, t, target.value, password, s.changes[c]);
      }
    } else {
      assert forall c | 0 <= c < |s.changes| :: ChangeOk(lib, s, s.changes[c]);
    }
  }

  lemma WriteNewKeeps(lib: Library, s: State, c: nat)
    requires Inv(lib, s) && c < |s.changes|
    ensures Inv(lib, Next(lib, s, WriteNew(c)))
  {
    var u := Next(lib, s, WriteNew(c));
    forall d | 0 <= d < |u.changes| ensures ChangeOk(lib, u, u.changes[d]) {
      assert ChangeOk(lib, s, s.changes[d]);
      WriteKeeps(lib, s, s.changes[c].uuid, s.changes[c].next, s.changes[d]);
    }
  }

  lemma ReadUserKeeps(lib: Library, s: State, c: nat)
    requires Inv(lib, s) && c < |s.changes|
    ensures Inv(lib, Next(lib, s, ReadUser(c)))
  {
    var u := Next(lib, s, ReadUser(c));
    assert s.writes[|s.writes|..] == [];
    forall d | 0 <= d < |u.changes| ensures ChangeOk(lib, u, u.changes[d]) {
      assert ChangeOk(lib, s, s.changes[d]);
    }
  }

  lemma CompareKeeps(lib: Library, s: State, c: nat)
    requires Inv(lib, s) && c < |s.changes|
    ensures Inv(lib, Next(lib, s, CompareOld(c)))
  {
    var u := Next(lib, s, CompareOld(c));
    forall d | 0 <= d < |u.changes| ensures ChangeOk(lib, u, u.changes[d]) {
      assert ChangeOk(lib, s, s.changes[d]);
    }
  }

  lemma OtherKeeps(lib: Library, s: State, l: Label)
    requires Inv(lib, s) && (l.Open? || l.Close? || l.Grant? || l.Start?)
    ensures Inv(lib, Next(lib, s, l))
  {
    var u := Next(lib, s, l);
    if l.Grant? {
      R.TokensStep(s.tokens, R.Create(l.token, l.expiresAt));
    }
    forall c | 0 <= c < |u.changes| ensures ChangeOk(lib, u, u.changes[c]) {
      assert c < |s.changes| ==> ChangeOk(lib, s, s.changes[c]) && u.changes[c] == s.changes[c];
    }
  }

  lemma {:induction false} RunKeeps(lib: Library, start: int, ls: seq<Label>)
    ensures Inv(lib, Run(lib, Init(start), ls))
  {
    if ls != [] {
      var s, l := Run(lib, Init(start), ls[..|ls| - 1]), ls[|ls| - 1];
      RunKeeps(lib, start, ls[..|ls| - 1]);
      if l.Confirm? {
        ConfirmKeeps(lib, s, l.step, l.password);
      } else if l.WriteNew? {
        if l.c < |s.changes| { WriteNewKeeps(lib, s, l.c); }
      } else if l.ReadUser? {
        if l.c < |s.changes| { ReadUserKeeps(lib, s, l.c); }
      } else if l.CompareOld? {
        if l.c < |s.changes| { CompareKeeps(lib, s, l.c); }
      } else {
        OtherKeeps(lib, s, l);
      }
    }
  }

  /** The last write to the account since the change read it, if any, put the shown password back. */
  predicate Undisturbed(lib: Library, s: State, x: Change)
    requires x.since <= |s.writes|
  {
    var last := LastWrite(s.writes[x.since..], x.uuid);
    last.None? || last == Some(Seen(lib, x.current))
  }

  /**
    In every run, a change that is about to write replaces the password its caller showed exactly when nothing was
    written to the account since its read, or the last write put the shown password back.
   */
  lemma ReplacesShownExactly(lib: Library, start: int, ls: seq<Label>, c: nat)
    requires var s := Run(lib, Init(start), ls);
             c < |s.changes| && s.changes[c].stage.Compared? && s.changes[c].uuid in s.accounts
    ensures var s := Run(lib, Init(start), ls);
            var x := s.changes[c];
            x.since <= |s.writes| && (s.accounts[x.uuid] == Seen(lib, x.current) <==> Undisturbed(lib, s, x))
  {
    RunKeeps(lib, start, ls);
    var s := Run(lib, Init(start), ls);
    assert ChangeOk(lib, s, s.changes[c]);
  }

  /**
    In every run, a step that gives an open account another password is the write of a change whose caller showed the
    password the account had when the change read it, or the update of a confirmation that read a token of this
    account before any use of it was marked, and passed its checks.
   */
  lemma OnlyProvenWrites(lib: Library, start: int, ls: seq<Label>, l: Label, uuid: string)
    requires var s := Run(lib, Init(start), ls); uuid in s.accounts
    ensures var s, t := Run(lib, Init(start), ls), Next(lib, Run(lib, Init(start), ls), l);
            uuid in t.accounts && t.accounts[uuid] != s.accounts[uuid] ==>
              || (l.WriteNew? && l.c < |s.changes| && s.changes[l.c].uuid == uuid
                  && s.changes[l.c].stage == Compared(Seen(lib, s.changes[l.c].current)))
              || (l.Confirm? && Target(s, l.step) == Some(uuid) && s.tokens.confirms[l.step.c].early)
  {
    RunKeeps(lib, start, ls);
    var s := Run(lib, Init(start), ls);
    if l.WriteNew? && l.c < |s.changes| {
      assert ChangeOk(lib, s, s.changes[l.c]);
    }
  }

  // ---- How many operations of one account may overlap ----

  predicate ChangeInFlight(x: Change, uuid: string) {
    x.uuid == uuid && (x.stage.Started? || Pending(x.stage))
  }

  predicate ConfirmInFlight(x: R.Confirm, owner: map<string, string>, uuid: string) {
    x.token in owner && owner[x.token] == uuid && R.InFlight(x, x.token)
  }

  function ChangesOf(cs: seq<Change>, uuid: string): nat {
    if cs == [] then 0 else ChangesOf(cs[..|cs| - 1], uuid) + if ChangeInFlight(cs[|cs| - 1], uuid) then 1 else 0
  }

  function ConfirmsOf(cs: seq<R.Confirm>, owner: map<string, string>, uuid: string): nat {
    if cs == [] then 0
    else ConfirmsOf(cs[..|cs| - 1], owner, uuid) + if ConfirmInFlight(cs[|cs| - 1], owner, uuid) then 1 else 0
  }

  /** The changes and confirmations of an account that have started and not ended. */
  function InFlight(s: State, uuid: string): nat {
    ChangesOf(s.changes, uuid) + ConfirmsOf(s.tokens.confirms, s.owner, uuid)
  }

  ghost predicate Within(limit: nat, s: State) {
    forall uuid :: InFlight(s, uuid) <= limit
  }

  /** A run in which no account ever has more than `limit` operations in flight. */
  ghost predicate Allowed(lib: Library, limit: nat, start: int, ls: seq<Label>)
    decreases |ls|
  {
    Within(limit, Run(lib, Init(start), ls)) && (ls == [] || Allowed(lib, limit, start, ls[..|ls| - 1]))
  }

  /** In every allowed run, every change that is about to write replaces the password its caller showed. */
  ghost predicate AlwaysShown(lib: Library, limit: nat, start: int) {
    forall ls, c | Allowed(lib, limit, start, ls) && 0 <= c < |Run(lib, Init(start), ls).changes| ::
      ReplacesShown(lib, Run(lib, Init(start), ls), Run(lib, Init(start), ls).changes[c])
  }

  predicate ReplacesShown(lib: Library, s: State, x: Change) {
    x.stage.Compared? && x.uuid in s.accounts ==> s.accounts[x.uuid] == Seen(lib, x.current)
  }

  lemma {:induction false} OneChange(cs: seq<Change>, a: nat, uuid: string)
    requires a < |cs| && ChangeInFlight(cs[a], uuid)
    ensures ChangesOf(cs, uuid) >= 1
  {
    if a < |cs| - 1 {
      OneChange(cs[..|cs| - 1], a, uuid);
    }
  }

  lemma {:induction false} TwoChanges(cs: seq<Change>, a: nat, b: nat, uuid: string)
    requires a < b < |cs| && ChangeInFlight(cs[a], uuid) && ChangeInFlight(cs[b], uuid)
    ensures ChangesOf(cs, uuid) >= 2
  {
    if b < |cs| - 1 {
      TwoChanges(cs[..|cs| - 1], a, b, uuid);
    } else {
      OneChange(cs[..|cs| - 1], a, uuid);
    }
  }

  lemma {:induction false} OneConfirm(cs: seq<R.Confirm>, owner: map<string, string>, a: nat, uuid: string)
    requires a < |cs| && ConfirmInFlight(cs[a], owner, uuid)
    ensures ConfirmsOf(cs, owner, uuid) >= 1
  {
    if a < |cs| - 1 {
      OneConfirm(cs[..|cs| - 1], owner, a, uuid);
    }
  }

  /** What a pending change has read is what its account still has. */
  predicate Fresh(s: State, x: Change) {
    Pending(x.stage) && x.uuid in s.accounts ==> s.accounts[x.uuid] == x.stage.seen
  }

  ghost predicate AllFresh(s: State) {
    forall c | 0 <= c < |s.changes| :: Fresh(s, s.changes[c])
  }

  /** The one operation in flight is the one that writes, so nobody else's reading is outdated. */
  lemma WriteFresh(lib: Library, s: State, c: nat)
    requires Within(1, s) && AllFresh(s) && c < |s.changes|
    ensures AllFresh(Next(lib, s, WriteNew(c)))
  {
    var u := Next(lib, s, WriteNew(c));
    forall d | 0 <= d < |u.changes| ensures Fresh(u, u.changes[d]) {
      assert Fresh(s, s.changes[d]);
      var uuid := s.changes[c].uuid;
      if s.changes[c].stage.Compared? && d != c && ChangeInFlight(s.changes[d], uuid) {
        assert InFlight(s, uuid) <= 1;
        if d < c { TwoChanges(s.changes, d, c, uuid); } else { TwoChanges(s.changes, c, d, uuid); }
      }
    }
  }

  lemma ConfirmFresh(lib: Library, s: State, step: R.Label, password: string)
    requires Within(1, s) && AllFresh(s)
    ensures AllFresh(Next(lib, s, Confirm(step, password)))
  {
    var u, target := Next(lib, s, Confirm(step, password)), Target(s, step);
    forall d | 0 <= d < |u.changes| ensures Fresh(u, u.changes[d]) {
      assert Fresh(s, s.changes[d]);
      if target.Some? && ChangeInFlight(s.changes[d], target.value) {
        assert InFlight(s, target.value) <= 1;
        OneChange(s.changes, d, target.value);
        OneConfirm(s.tokens.confirms, s.owner, step.c, target.value);
      }
    }
  }

  lemma OtherFresh(lib: Library, s: State, l: Label)
    requires Inv(lib, s) && AllFresh(s) && !l.WriteNew? && !l.Confirm?
    ensures AllFresh(Next(lib, s, l))
  {
    var u := Next(lib, s, l);
    forall d | 0 <= d < |u.changes| ensures Fresh(u, u.changes[d]) {
      assert d < |s.changes| ==> Fresh(s, s.changes[d]) && ChangeOk(lib, s, s.changes[d]);
    }
  }

  lemma {:induction false} RunFresh(lib: Library, start: int, ls: seq<Label>)
    requires Allowed(lib, 1, start, ls)
    ensures AllFresh(Run(lib, Init(start), ls))
    decreases |ls|
  {
    if ls != [] {
      var before, l := ls[..|ls| - 1], ls[|ls| - 1];
      var s := Run(lib, Init(start), before);
      RunFresh(lib, start, before);
      RunKeeps(lib, start, before);
      if l.Confirm? {
        ConfirmFresh(lib, s, l.step, l.password);
      } else if l.WriteNew? {
        if l.c < |s.changes| { WriteFresh(lib, s, l.c); }
      } else {
        OtherFresh(lib, s, l);
      }
    }
  }

  lemma {:induction false} AllowedMore(lib: Library, few: nat, many: nat, start: int, ls: seq<Label>)
    requires few <= many && Allowed(lib, few, start, ls)
    ensures Allowed(lib, many, start, ls)
    decreases |ls|
  {
    forall uuid ensures InFlight(Run(lib, Init(start), ls), uuid) <= many {
      assert InFlight(Run(lib, Init(start), ls), uuid) <= few;
    }
    if ls != [] {
      AllowedMore(lib, few, many, start, ls[..|ls| - 1]);
    }
  }

  // ---- Two changes that overlap ----

  lemma Then(lib: Library, start: int, ls: seq<Label>, s: State, l: Label, u: State) returns (longer: seq<Label>)
    requires Allowed(lib, 2, start, ls) && Run(lib, Init(start), ls) == s && Next(lib, s, l) == u
    requires |u.changes| <= 2 && u.tokens.confirms == []
    ensures Allowed(lib, 2, start, longer) && Run(lib, Init(start), longer) == u
  {
    longer := ls + [l];
    assert longer[..|ls|] == ls;
    FewInFlight(u);
  }

  lemma {:induction false} AtMostAll(cs: seq<Change>, uuid: string)
    ensures ChangesOf(cs, uuid) <= |cs|
  {
    if cs != [] {
      AtMostAll(cs[..|cs| - 1], uuid);
    }
  }

  lemma FewInFlight(s: State)
    requires |s.changes| <= 2 && s.tokens.confirms == []
    ensures Within(2, s)
  {
    forall uuid ensures InFlight(s, uuid) <= 2 {
      AtMostAll(s.changes, uuid);
    }
  }

  /** Account "u" with a password, and two changes of it. */
  function Two(start: int, password: string, x: Change, y: Change, writes: seq<Write>): State {
    State(map["u" := password], {"u"}, map[], R.Init(start), [x, y], writes)
  }

  lemma TwoReaders(lib: Library, start: int, a: string, b: string, c: string) returns (ls: seq<Label>)
    ensures Allowed(lib, 2, start, ls)
    ensures Run(lib, Init(start), ls) == Two(start, a, Change("u", a, b, Read(a), 0), Change("u", a, c, Read(a), 0), [])
  {
    var x, y := Change("u", a, b, Started, 0), Change("u", a, c, Started, 0);
    var x', y' := x.(stage := Read(a)), y.(stage := Read(a));
    FewInFlight(Init(start));
    var first := Init(start).(accounts := map["u" := a], known := {"u"});
    ls := Then(lib, start, [], Init(start), Open("u", a), first);
    ls := Then(lib, start, ls, first, Start("u", a, b), first.(changes := [x]));
    ls := Then(lib, start, ls, first.(changes := [x]), Start("u", a, c), Two(start, a, x, y, []));
    assert [x, y][0 := x'] == [x', y] && [x', y][1 := y'] == [x', y'];
    ls := Then(lib, start, ls, Two(start, a, x, y, []), ReadUser(0), Two(start, a, x', y, []));
    ls := Then(lib, start, ls, Two(start, a, x', y, []), ReadUser(1), Two(start, a, x', y', []));
  }

  lemma TwoComparers(lib: Library, start: int, a: string, b: string, c: string) returns (ls: seq<Label>)
    requires Hashable(a) && Hashable(b) && Hashable(c)
    ensures Allowed(lib, 2, start, ls)
    ensures Run(lib, Init(start), ls) ==
            Two(start, a, Change("u", a, b, Compared(a), 0), Change("u", a, c, Compared(a), 0), [])
  {
    var x, y := Change("u", a, b, Read(a), 0), Change("u", a, c, Read(a), 0);
    var x', y' := x.(stage := Compared(a)), y.(stage := Compared(a));
    ls := TwoReaders(lib, start, a, b, c);
    assert [x, y][0 := x'] == [x', y] && [x', y][1 := y'] == [x', y'];
    ls := Then(lib, start, ls, Two(start, a, x, y, []), CompareOld(0), Two(start, a, x', y, []));
    ls := Then(lib, start, ls, Two(start, a, x', y, []), CompareOld(1), Two(start, a, x', y', []));
  }

  /** Both callers show a; the one that writes last replaces b, which nobody showed. */
  lemma OverlapReplacesUnshown(lib: Library, start: int, a: string, b: string, c: string) returns (ls: seq<Label>)
    requires Hashable(a) && Hashable(b) && Hashable(c)
    ensures Allowed(lib, 2, start, ls)
    ensures var s := Run(lib, Init(start), ls);
            && s.accounts == map["u" := b] && |s.changes| == 2
            && s.changes[1] == Change("u", a, c, Compared(a), 0)
            && Next(lib, s, WriteNew(1)).accounts == map["u" := c]
  {
    var x, y := Change("u", a, b, Compared(a), 0), Change("u", a, c, Compared(a), 0);
    var z := x.(stage := Written);
    ls := TwoComparers(lib, start, a, b, c);
    assert [x, y][0 := z] == [z, y];
    assert [] + [Write("u", b)] == [Write("u", b)] && map["u" := a]["u" := b] == map["u" := b];
    ls := Then(lib, start, ls, Two(start, a, x, y, []), WriteNew(0), Two(start, b, z, y, [Write("u", b)]));
    assert map["u" := b]["u" := c] == map["u" := c];
  }

  lemma {:induction false} ByteLengthBound(s: string)
    ensures ByteLength(s) <= 4 * |s|
  {
    if s != [] {
      ByteLengthBound(s[1..]);
    }
  }

  lemma TwoPasswords() returns (a: string, b: string)
    ensures a != b && Hashable(a) && Hashable(b) && ValidPassword(a) && ValidPassword(b)
  {
    a, b := "first password", "second password";
    ByteLengthBound(a);
    ByteLengthBound(b);
    assert |a| != |b|;
  }

  lemma OneAtATime(lib: Library, start: int)
    ensures AlwaysShown(lib, 1, start)
  {
    forall ls, c | Allowed(lib, 1, start, ls) && 0 <= c < |Run(lib, Init(start), ls).changes|
      ensures ReplacesShown(lib, Run(lib, Init(start), ls), Run(lib, Init(start), ls).changes[c])
    {
      var s := Run(lib, Init(start), ls);
      RunFresh(lib, start, ls);
      RunKeeps(lib, start, ls);
      assert Fresh(s, s.changes[c]) && ChangeOk(lib, s, s.changes[c]);
    }
  }

  lemma OverlapIsNotShown(lib: Library, limit: nat, start: int)
    requires limit >= 2
    ensures !AlwaysShown(lib, limit, start)
  {
    var a, b := TwoPasswords();
    var ls := OverlapReplacesUnshown(lib, start, a, b, b);
    AllowedMore(lib, 2, limit, start, ls);
    assert !ReplacesShown(lib, Run(lib, Init(start), ls), Run(lib, Init(start), ls).changes[1]);
  }

  /** Every change replaces the password its caller showed, in all runs, exactly when operations of one account do not overlap. */
  lemma AlwaysShownExactly(lib: Library, limit: nat, start: int)
    ensures AlwaysShown(lib, limit, start) <==> limit <= 1
  {
    if limit <= 1 {
      OneAtATime(lib, start);
      forall ls | Allowed(lib, limit, start, ls) ensures Allowed(lib, 1, start, ls) {
        AllowedMore(lib, limit, 1, start, ls);
      }
    } else {
      OverlapIsNotShown(lib, limit, start);
    }
  }

  // ---- A change that runs alone ----

  function PasswordsOf(t: Table): map<string, string> {
    map u | u in t.uuids && Active(t, t.uuids[u]) :: t.rows[t.uuids[u]].hash.of
  }

  function Steps(lib: Library, s: State, uuid: string, current: string, next: string): State {
    var c := |s.changes|;
    Next(lib, Next(lib, Next(lib, Next(lib, s, Start(uuid, current, next)), ReadUser(c)), CompareOld(c)), WriteNew(c))
  }

  /** Where the steps of a lone change lead, from what its account has. */
  lemma StepsOf(lib: Library, s: State, uuid: string, current: string, next: string)
    ensures var u, c := Steps(lib, s, uuid, current, next), |s.changes|;
            var shown := uuid in s.accounts && Seen(lib, current) == s.accounts[uuid] && Hashable(next);
            && |u.changes| == c + 1
            && u.accounts == (if shown then s.accounts[uuid := next] else s.accounts)
            && u.changes[c].stage == (if shown then Written else Dropped)
  {
    var c := |s.changes|;
    var s2 := Next(lib, Next(lib, s, Start(uuid, current, next)), ReadUser(c));
    if uuid in s.accounts {
      assert s2.changes == s.changes + [Change(uuid, current, next, Read(s.accounts[uuid]), |s.writes|)];
    } else {
      assert s2.changes == s.changes + [Change(uuid, current, next, Dropped, 0)];
    }
  }

  /** The steps of a lone change are the whole operation. */
  lemma ChangeAlone(lib: Library, db: Db, s: State, uuid: string, current: string, next: string)
    requires Consistent(db) && s.accounts == PasswordsOf(db.users)
    ensures var (d, r) := AfterChangePassword(db, uuid, Seen(lib, current), next);
            var u := Steps(lib, s, uuid, current, next);
            && u.accounts == PasswordsOf(d.users) && |u.changes| == |s.changes| + 1
            && u.changes[|s.changes|].stage == (if r.Done? then Written else Dropped)
  {
    StepsOf(lib, s, uuid, current, next);
    var id := ByUuid(db.users, uuid);
    if id.Some? {
      assert db.users.rows[id.value].uuid == uuid;
      PasswordsAfter(db.users, id.value, next);
    }
  }

  lemma PasswordsAfter(t: Table, id: int, password: string)
    requires Indexed(t) && Active(t, id)
    ensures PasswordsOf(Users.SetPassword(t, id, Hash(password)).0) == PasswordsOf(t)[t.rows[id].uuid := password]
  {
  }

  // ---- A confirmation that runs alone ----

  /** Up to the expiry check. */
  function Checked(lib: Library, s: State, token: string, password: string): State {
    var c := |s.tokens.confirms|;
    Next(lib, Next(lib, Next(lib, s, Confirm(R.Start(token), password)), Confirm(R.ReadToken(c), password)),
         Confirm(R.CheckClock(c), password))
  }

  function Finished(lib: Library, s: State, c: nat, password: string): State {
    Next(lib, Next(lib, s, Confirm(R.Update(c, Hashable(password)), password)), Confirm(R.MarkUsed(c, true), password))
  }

  function StepsOfConfirm(lib: Library, s: State, token: string, password: string): State {
    Finished(lib, Checked(lib, s, token, password), |s.tokens.confirms|, password)
  }

  function TokensChecked(tokens: R.State, token: string): R.State {
    var c := |tokens.confirms|;
    R.Next(R.Next(R.Next(tokens, R.Start(token)), R.ReadToken(c)), R.CheckClock(c))
  }

  /** The checks are on the tokens alone. */
  lemma CheckedTokens(lib: Library, s: State, token: string, password: string)
    ensures var t := TokensChecked(s.tokens, token);
            && Checked(lib, s, token, password) == s.(tokens := t)
            && |t.confirms| == |s.tokens.confirms| + 1 && t.confirms[|s.tokens.confirms|].token == token
            && (t.confirms[|s.tokens.confirms|].stage.Accepted? ==> token in s.tokens.rows)
            && t.updates == s.tokens.updates
  {
  }

  /** The write happens exactly with a change of the tokens' history, and only if the account is open. */
  lemma FinishedState(lib: Library, s: State, c: nat, password: string, ok: bool)
    requires c < |s.tokens.confirms|
    requires s.tokens.confirms[c].stage.Accepted? ==>
               var token := s.tokens.confirms[c].token;
               token in s.owner && ok == (Hashable(password) && s.owner[token] in s.accounts)
    ensures var u := Finished(lib, s, c, password);
            && u.tokens == R.Next(R.Next(s.tokens, R.Update(c, ok)), R.MarkUsed(c, true)) && u.owner == s.owner
            && u.accounts == if u.tokens.updates == s.tokens.updates then s.accounts
                             else s.accounts[s.owner[s.tokens.confirms[c].token] := password]
  {
    assert |s.tokens.updates + [s.tokens.confirms[c].token]| > |s.tokens.updates|;
  }

  /** The open accounts and the tokens of the database, each token with its account. */
  ghost predicate Mirrors(s: State, db: Db) {
    && s.accounts == PasswordsOf(db.users) && s.tokens.rows == ConfirmSteps.RowsOf(db.resets)
    && forall t | t in db.resets && db.resets[t].userId in db.users.rows ::
         t in s.owner && s.owner[t] == db.users.rows[db.resets[t].userId].uuid
  }

  /** The steps of a lone confirmation are the whole operation too, with the password it writes. */
  lemma ConfirmAlone(lib: Library, db: Db, s: State, token: string, password: string)
    requires Consistent(db) && Mirrors(s, db)
    ensures var (d, r) := AfterConfirm(db, token, password, s.tokens.now);
            var u := StepsOfConfirm(lib, s, token, password);
            && Mirrors(u, d) && |u.tokens.confirms| == |s.tokens.confirms| + 1
            && ConfirmSteps.Ends(r, u.tokens.confirms[|s.tokens.confirms|].stage)
  {
    var ok := Hashable(password) && token in db.resets && Active(db.users, db.resets[token].userId);
    CheckedTokens(lib, s, token, password);
    OwnerOpen(db, s, token);
    FinishedState(lib, Checked(lib, s, token, password), |s.tokens.confirms|, password, ok);
    ConfirmSteps.ConfirmAlone(db, s.tokens, token, password);
    assert |s.tokens.updates + [token]| > |s.tokens.updates|;
    ConfirmedPasswords(db, token, password, s.tokens.now);
  }

  lemma OwnerOpen(db: Db, s: State, token: string)
    requires Consistent(db) && Mirrors(s, db)
    ensures token in s.tokens.rows ==>
              && token in db.resets && token in s.owner
              && (s.owner[token] in s.accounts <==> Active(db.users, db.resets[token].userId))
  {
  }

  lemma ConfirmedPasswords(db: Db, token: string, password: string, now: int)
    requires Consistent(db)
    ensures var (d, r) := AfterConfirm(db, token, password, now);
            && (r.Refused? ==> d == db)
            && (r.Done? ==>
                  && token in db.resets && db.resets[token].userId in db.users.rows
                  && PasswordsOf(d.users) == PasswordsOf(db.users)[db.users.rows[db.resets[token].userId].uuid := password]
                  && (forall id | id in d.users.rows :: id in db.users.rows && d.users.rows[id].uuid == db.users.rows[id].uuid)
                  && (forall t | t in d.resets :: t in db.resets && d.resets[t].userId == db.resets[t].userId))
  {
    if AfterConfirm(db, token, password, now).1.Done? {
      PasswordsAfter(db.users, db.resets[token].userId, password);
    }
  }
}
