/** `/daily`: once every 24 hours a user may collect the guild's daily
    payout; a payout of 0 means the guild has switched the command off. */
module Daily {
  import opened Ledger

  /** Whether a day has passed since the last payout at `last`. */
  predicate Due(last: int, now: int) {
    now - last >= DaySeconds
  }

  /** Whether a payout amount leaves `/daily` switched on: only an amount of
      exactly 0 switches it off. */
  predicate Enabled(payout: int) {
    payout != 0
  }

  /** The hours, minutes and seconds components of a time span, as the
      reply that asks the user to wait shows them. */
  datatype Duration = Duration(hours: int, minutes: int, seconds: int)

  /** The components of a span of `span` seconds: whole days are dropped,
      as the hours component of a time span does. */
  function Breakdown(span: int): (d: Duration)
    requires span >= 0
    ensures 0 <= d.hours < 24 && 0 <= d.minutes < 60 && 0 <= d.seconds < 60
    ensures span < DaySeconds ==> d.hours * 3600 + d.minutes * 60 + d.seconds == span
  {
    Duration((span / 3600) % 24, (span / 60) % 60, span % 60)
  }

  datatype DailyOutcome =
    | Disabled
    /** Not a day yet; `wait` is what is left of the day. */
    | NotDue(wait: Duration)
    | Claimed(amount: int)

  /** The account after collecting `amount`: the cooldown restarts now,
      the balance grows, and the payout is logged and recorded as coming
      from nobody. */
  function Claim(a: Account, amount: int, now: int): Account {
    a.(lastDaily := now,
       balance := a.balance + amount,
       transactions := a.transactions + [Transaction(DailyPayout(amount), amount, HouseId, a.id, now)],
       logs := a.logs + [Log(DailyPayout(amount), now)])
  }

  /** `/daily` for `userId` in `guildId`. */
  method Daily(st: Store, guildId: Id, userId: Id, now: int) returns (outcome: DailyOutcome)
    requires st.Valid()
    modifies st
    ensures st.Valid()
    ensures st.guilds == old(st.guilds)[guildId := LoadedSettings(old(st.guilds), guildId, st.defaultColor)]
    ensures
      var amount := LoadedSettings(old(st.guilds), guildId, st.defaultColor).dailyPayout;
      var a := Loaded(old(st.accounts), userId, now);
      if !Enabled(amount) then
        outcome == Disabled && st.accounts == old(st.accounts)
      else if !Due(a.lastDaily, now) then
        outcome == NotDue(Breakdown(a.lastDaily + DaySeconds - now))
        && st.accounts == Touched(old(st.accounts), userId, now)
      else
        outcome == Claimed(amount) && st.accounts == old(st.accounts)[userId := Claim(a, amount, now)]
  {
    var settings := st.LoadSettings(guildId);
    if settings.dailyPayout == 0 {
      return Disabled;
    }
    var account := st.GetAccountFromId(userId, now);
    if now - account.lastDaily >= DaySeconds {
      account := account.(lastDaily := now);
    } else {
      var difference := account.lastDaily + DaySeconds - now;
      return NotDue(Breakdown(difference));
    }
    account := account.(balance := account.balance + settings.dailyPayout);
    account := account.(transactions := account.transactions +
      [Transaction(DailyPayout(settings.dailyPayout), settings.dailyPayout, HouseId, userId, now)]);
    account := account.(logs := account.logs + [Log(DailyPayout(settings.dailyPayout), now)]);
    SaveAfterTouch(old(st.accounts), userId, now, account);
    st.UpdateAccount(account);
    return Claimed(settings.dailyPayout);
  }

  /** A brand-new account may collect at once. */
  lemma NewAccountDue(id: Id, now: int)
    ensures Due(NewAccount(id, now).lastDaily, now)
  {
  }

  /** After a claim at `now` the next claim is refused until a full day has
      passed, and the wait shown is exactly what is left of that day. */
  lemma ClaimBlocksForADay(a: Account, amount: int, now: int, later: int)
    ensures var b := Claim(a, amount, now);
      && (Due(b.lastDaily, later) <==> later >= now + DaySeconds)
      && (now < later && !Due(b.lastDaily, later) ==>
            var w := Breakdown(b.lastDaily + DaySeconds - later);
            w.hours * 3600 + w.minutes * 60 + w.seconds == now + DaySeconds - later)
  {
  }

  /** A claim credits exactly the payout and changes nothing but the
      balance, the cooldown, the logs and the transactions. */
  lemma ClaimCredits(a: Account, amount: int, now: int)
    ensures var b := Claim(a, amount, now);
      && b.balance == a.balance + amount
      && b.id == a.id && b.isPrivate == a.isPrivate
      && |b.transactions| == |a.transactions| + 1
      && b.transactions[|a.transactions|].payee == a.id
      && b.transactions[|a.transactions|].payer == HouseId
      && b.logs[..|a.logs|] == a.logs
  {
  }
}
