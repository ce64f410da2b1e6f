/** The steps of a lone confirmation, one after another, are the whole operation. */
module ConfirmSteps {
  import opened Common
  import opened Users
  import opened Credentials
  import R = ResetTokens

  function RowsOf(resets: map<string, Reset>): map<string, R.TokenRow> {
    map t | t in resets :: R.TokenRow(resets[t].expiresAt, resets[t].used)
  }

  /** How a confirmation ends that is answered so. */
  predicate Ends(r: Reply, stage: R.Stage) {
    match r
    case Done => stage == R.Confirmed
    case Refused(TokenNotFound) => stage == R.Rejected(R.NotFound)
    case Refused(TokenAlreadyUsed) => stage == R.Rejected(R.AlreadyUsed)
    case Refused(TokenExpired) => stage == R.Rejected(R.Expired)
    case Refused(_) => stage == R.Failed
  }

  function Steps(s: R.State, token: string, ok: bool): R.State {
    var c := |s.confirms|;
    R.Next(R.Next(R.Next(R.Next(R.Next(s, R.Start(token)), R.ReadToken(c)), R.CheckClock(c)), R.Update(c, ok)),
           R.MarkUsed(c, true))
  }

  lemma ConfirmAlone(db: Db, s: R.State, token: string, password: string)
    requires s.rows == RowsOf(db.resets)
    ensures var (d, r) := AfterConfirm(db, token, password, s.now);
            var ok := Hashable(password) && token in db.resets && Active(db.users, db.resets[token].userId);
            var u := Steps(s, token, ok);
            && u.rows == RowsOf(d.resets) && |u.confirms| == |s.confirms| + 1
            && Ends(r, u.confirms[|s.confirms|].stage)
            && u.updates == (if r.Done? then s.updates + [token] else s.updates)
            && u.marked == (if r.Done? then s.marked + {token} else s.marked)
  {
    var c := |s.confirms|;
    var s1 := R.Next(s, R.Start(token));
    var s2 := R.Next(s1, R.ReadToken(c));
    assert s2.confirms == s.confirms + [R.Confirm(token, R.Found(s.rows, token), token !in s.marked)];
    if token in db.resets && !db.resets[token].used {
      var s3 := R.Next(s2, R.CheckClock(c));
      assert s3.confirms[c].stage ==
             if s.now > db.resets[token].expiresAt then R.Rejected(R.Expired) else R.Accepted;
    }
  }
}
