/** `/private` and `/public`: a user hides their account from the
    leaderboard or shows it again. */
module Privacy {
  import opened Ledger

  /** The account after asking for private (`makePrivate`) or public mode:
      unchanged when it is already in that mode, otherwise switched and the
      switch logged. */
  function Visibility(a: Account, makePrivate: bool, now: int): (r: Account)
    ensures r.isPrivate == makePrivate
    ensures r.id == a.id && r.balance == a.balance && r.transactions == a.transactions
    ensures r.lastDaily == a.lastDaily
    ensures a.isPrivate == makePrivate ==> r == a
    ensures a.isPrivate != makePrivate ==>
      r.logs == a.logs + [Log(if makePrivate then SetToPrivate else SetToPublic, now)]
  {
    if a.isPrivate == makePrivate then a
    else a.(isPrivate := makePrivate, logs := a.logs + [Log(if makePrivate then SetToPrivate else SetToPublic, now)])
  }

  /** Asking twice for the same mode changes nothing the second time. */
  lemma VisibilityIdempotent(a: Account, makePrivate: bool, now: int, later: int)
    ensures Visibility(Visibility(a, makePrivate, now), makePrivate, later) == Visibility(a, makePrivate, now)
  {
  }

  /** Going private and back public restores the account except for the two
      log entries. */
  lemma PrivateThenPublic(a: Account, now: int, later: int)
    requires !a.isPrivate
    ensures var b := Visibility(Visibility(a, true, now), false, later);
      b == a.(logs := a.logs + [Log(SetToPrivate, now), Log(SetToPublic, later)])
  {
  }

  /** `/private` for `userId`; returns false when the account was already
      private (nothing is saved then). */
  method SetPrivate(st: Store, userId: Id, now: int) returns (changed: bool)
    requires st.Valid()
    modifies st
    ensures st.Valid() && st.guilds == old(st.guilds)
    ensures var a := Loaded(old(st.accounts), userId, now);
      && changed == !a.isPrivate
      && st.accounts == old(st.accounts)[userId := Visibility(a, true, now)]
  {
    var account := st.GetAccountFromId(userId, now);
    if account.isPrivate {
      return false;
    }
    account := account.(isPrivate := true);
    account := account.(logs := account.logs + [Log(SetToPrivate, now)]);
    SaveAfterTouch(old(st.accounts), userId, now, account);
    st.UpdateAccount(account);
    return true;
  }

  /** `/public` for `userId`; returns false when the account was already
      public (nothing is saved then). */
  method SetPublic(st: Store, userId: Id, now: int) returns (changed: bool)
    requires st.Valid()
    modifies st
    ensures st.Valid() && st.guilds == old(st.guilds)
    ensures var a := Loaded(old(st.accounts), userId, now);
      && changed == a.isPrivate
      && st.accounts == old(st.accounts)[userId := Visibility(a, false, now)]
  {
    var account := st.GetAccountFromId(userId, now);
    if !account.isPrivate {
      return false;
    }
    account := account.(isPrivate := false);
    account := account.(logs := account.logs + [Log(SetToPublic, now)]);
    SaveAfterTouch(old(st.accounts), userId, now, account);
    st.UpdateAccount(account);
    return true;
  }
}
