/** The `/manager` command group, open to managers only: viewing another
    user's balance and logs, paying currency out of nothing, taking it away,
    the propaganda image list and the daily payout amount. */
module Management {
  import opened Seqs
  import opened Ledger
  import Reports
  import Daily

  // ------------------------------------------------------- /manager bal

  /** The stored accounts after a manager views `targetId`'s balance: both
      records are loaded, and the manager's record gets an entry saying
      whose balance was viewed and whether that account was private. */
  function AfterBalance(m: map<Id, Account>, managerId: Id, targetId: Id, now: int): map<Id, Account> {
    var target := Loaded(m, targetId, now);
    Touched(m, targetId, now)[managerId := WithLog(Loaded(m, managerId, now), ViewedBalance(targetId, target.isPrivate), now)]
  }

  /** The same, as the command is written: the entry goes onto the
      manager's snapshot, but the snapshot saved afterwards is the target's,
      so the entry is never stored. */
  function AfterBalanceAsWritten(m: map<Id, Account>, managerId: Id, targetId: Id, now: int): map<Id, Account> {
    Touched(Touched(m, targetId, now), managerId, now)[targetId := Loaded(m, targetId, now)]
  }

  /** `/manager bal` as written: returns the target's balance. */
  method BalanceAsWritten(st: Store, managerId: Id, targetId: Id, now: int) returns (balance: int)
    requires st.Valid()
    modifies st
    ensures st.Valid() && st.guilds == old(st.guilds)
    ensures balance == Loaded(old(st.accounts), targetId, now).balance
    ensures st.accounts == AfterBalanceAsWritten(old(st.accounts), managerId, targetId, now)
  {
    var account := st.GetAccountFromId(targetId, now);
    balance := account.balance;
    var selfUser := st.GetAccountFromId(managerId, now);
    selfUser := selfUser.(logs := selfUser.logs + [Log(ViewedBalance(targetId, account.isPrivate), now)]);
    st.UpdateAccount(account);
  }

  /** `/manager bal`: returns the target's balance and keeps the manager's
      record of the access. */
  method Balance(st: Store, managerId: Id, targetId: Id, now: int) returns (balance: int)
    requires st.Valid()
    modifies st
    ensures st.Valid() && st.guilds == old(st.guilds)
    ensures balance == Loaded(old(st.accounts), targetId, now).balance
    ensures st.accounts == AfterBalance(old(st.accounts), managerId, targetId, now)
  {
    var account := st.GetAccountFromId(targetId, now);
    balance := account.balance;
    var selfUser := st.GetAccountFromId(managerId, now);
    LoadedAfterTouch(old(st.accounts), targetId, managerId, now);
    selfUser := selfUser.(logs := selfUser.logs + [Log(ViewedBalance(targetId, account.isPrivate), now)]);
    SaveAfterTouch(Touched(old(st.accounts), targetId, now), managerId, now, selfUser);
    st.UpdateAccount(selfUser);
  }

  /** As written, the manager's record never receives the entry, whoever
      is viewed; as intended it gains exactly that one entry. Neither
      version changes a balance. */
  lemma BalanceLogLost(m: map<Id, Account>, managerId: Id, targetId: Id, now: int)
    ensures var written := AfterBalanceAsWritten(m, managerId, targetId, now);
      managerId in written && written[managerId] == Loaded(m, managerId, now)
    ensures var intended := AfterBalance(m, managerId, targetId, now);
      && managerId in intended
      && intended[managerId].logs ==
           Loaded(m, managerId, now).logs + [Log(ViewedBalance(targetId, Loaded(m, targetId, now).isPrivate), now)]
      && intended[managerId].balance == Loaded(m, managerId, now).balance
  {
    LoadedAfterTouch(m, targetId, managerId, now);
  }

  /** A manager looking at a private account of 7 with an empty history:
      as written, nothing of the look is stored. */
  lemma BalanceLogLostExample()
    ensures var m := map[1 := NewAccount(1, 0), 2 := NewAccount(2, 0).(isPrivate := true, balance := 7)];
      && AfterBalanceAsWritten(m, 1, 2, 5) == m
      && AfterBalance(m, 1, 2, 5)[1].logs == [Log(Created, 0), Log(ViewedBalance(2, true), 5)]
  {
  }

  // ------------------------------------------------------- /manager pay

  /** The manager's copy after a management payment: recorded and logged,
      the balance untouched. */
  function PaidOut(a: Account, payeeId: Id, amount: int, now: int): Account {
    a.(transactions := a.transactions + [Transaction(ManagementPaid(payeeId, amount), amount, a.id, payeeId, now)],
       logs := a.logs + [Log(ManagementPaid(payeeId, amount), now)])
  }

  /** The payee's copy after a management payment: credited, recorded and logged. */
  function PaidIn(a: Account, managerId: Id, amount: int, now: int): Account {
    a.(balance := a.balance + amount,
       transactions := a.transactions + [Transaction(ManagementReceived(managerId, amount), amount, managerId, a.id, now)],
       logs := a.logs + [Log(ManagementReceived(managerId, amount), now)])
  }

  /** The stored accounts after `/manager pay`: the payee is loaded, then
      the manager; the manager's copy is saved, then the payee's. */
  function AfterManagerPay(m: map<Id, Account>, managerId: Id, payeeId: Id, amount: int, now: int): map<Id, Account> {
    var loaded := Touched(Touched(m, payeeId, now), managerId, now);
    loaded[managerId := PaidOut(Loaded(m, managerId, now), payeeId, amount, now)]
          [payeeId := PaidIn(Loaded(m, payeeId, now), managerId, amount, now)]
  }

  /** `/manager pay`: credits `amount` to `payeeId` without charging anyone.
      The amount is not checked in any way. */
  method Pay(st: Store, managerId: Id, payeeId: Id, amount: int, now: int)
    requires st.Valid()
    modifies st
    ensures st.Valid() && st.guilds == old(st.guilds)
    ensures st.accounts == AfterManagerPay(old(st.accounts), managerId, payeeId, amount, now)
  {
    var payeeAccount := st.GetAccountFromId(payeeId, now);
    var payerAccount := st.GetAccountFromId(managerId, now);
    LoadedAfterTouch(old(st.accounts), payeeId, managerId, now);
    payerAccount := payerAccount.(transactions := payerAccount.transactions +
      [Transaction(ManagementPaid(payeeId, amount), amount, managerId, payeeId, now)]);
    payerAccount := payerAccount.(logs := payerAccount.logs + [Log(ManagementPaid(payeeId, amount), now)]);
    st.UpdateAccount(payerAccount);
    payeeAccount := payeeAccount.(balance := payeeAccount.balance + amount);
    payeeAccount := payeeAccount.(transactions := payeeAccount.transactions +
      [Transaction(ManagementReceived(managerId, amount), amount, managerId, payeeId, now)]);
    payeeAccount := payeeAccount.(logs := payeeAccount.logs + [Log(ManagementReceived(managerId, amount), now)]);
    st.UpdateAccount(payeeAccount);
  }

  /** Between two different users a management payment creates the amount:
      the payee gains it, the manager keeps their balance and records the
      payment, and every other record is left alone. */
  lemma ManagerPayCreates(m: map<Id, Account>, managerId: Id, payeeId: Id, amount: int, now: int)
    requires KeyedById(m) && managerId != payeeId
    ensures var after := AfterManagerPay(m, managerId, payeeId, amount, now);
      && managerId in after && payeeId in after
      && after[payeeId].balance == Loaded(m, payeeId, now).balance + amount
      && after[managerId].balance == Loaded(m, managerId, now).balance
      && after[managerId].balance + after[payeeId].balance ==
           Loaded(m, managerId, now).balance + Loaded(m, payeeId, now).balance + amount
      && after[managerId].logs == Loaded(m, managerId, now).logs + [Log(ManagementPaid(payeeId, amount), now)]
      && after[managerId] == PaidOut(Loaded(m, managerId, now), payeeId, amount, now)
      && after[payeeId] == PaidIn(Loaded(m, payeeId, now), managerId, amount, now)
      && forall id | id in m && id != managerId && id != payeeId :: id in after && after[id] == m[id]
  {
  }

  /** A manager paying themselves keeps the credit, but the payee's copy is
      saved last, so the record of the payment made is lost: the account
      gains a single entry, the receipt. */
  lemma ManagerPaySelf(m: map<Id, Account>, id: Id, amount: int, now: int)
    ensures var after := AfterManagerPay(m, id, id, amount, now);
      && id in after
      && after[id].balance == Loaded(m, id, now).balance + amount
      && after[id].logs == Loaded(m, id, now).logs + [Log(ManagementReceived(id, amount), now)]
      && |after[id].transactions| == |Loaded(m, id, now).transactions| + 1
  {
  }

  // ---------------------------------------------------- /manager remove

  /** The balance left after taking `amount` from `balance`: never below 0. */
  function Clamped(balance: int, amount: int): (r: int)
    ensures r >= 0 && r >= balance - amount
    ensures r == balance - amount || r == 0
  {
    if balance - amount < 0 then 0 else balance - amount
  }

  /** The manager's copy after a removal: recorded and logged. */
  function RemovalMade(a: Account, targetId: Id, amount: int, now: int): Account {
    a.(transactions := a.transactions + [Transaction(ManagementRemoved(targetId, amount), amount, a.id, targetId, now)],
       logs := a.logs + [Log(ManagementRemoved(targetId, amount), now)])
  }

  /** The target's copy after a removal: debited down to no less than 0,
      with the requested amount recorded and logged. */
  function RemovalSuffered(a: Account, managerId: Id, amount: int, now: int): Account {
    a.(balance := Clamped(a.balance, amount),
       transactions := a.transactions + [Transaction(RemovedByManagement(managerId, amount), amount, managerId, a.id, now)],
       logs := a.logs + [Log(RemovedByManagement(managerId, amount), now)])
  }

  /** The stored accounts after `/manager remove`, with the same load and
      save order as `/manager pay`. */
  function AfterRemove(m: map<Id, Account>, managerId: Id, targetId: Id, amount: int, now: int): map<Id, Account> {
    var loaded := Touched(Touched(m, targetId, now), managerId, now);
    loaded[managerId := RemovalMade(Loaded(m, managerId, now), targetId, amount, now)]
          [targetId := RemovalSuffered(Loaded(m, targetId, now), managerId, amount, now)]
  }

  /** `/manager remove`: takes `amount` from `targetId`'s balance. */
  method Remove(st: Store, managerId: Id, targetId: Id, amount: int, now: int)
    requires st.Valid()
    modifies st
    ensures st.Valid() && st.guilds == old(st.guilds)
    ensures st.accounts == AfterRemove(old(st.accounts), managerId, targetId, amount, now)
  {
    var payeeAccount := st.GetAccountFromId(targetId, now);
    var payerAccount := st.GetAccountFromId(managerId, now);
    LoadedAfterTouch(old(st.accounts), targetId, managerId, now);
    payerAccount := payerAccount.(transactions := payerAccount.transactions +
      [Transaction(ManagementRemoved(targetId, amount), amount, managerId, targetId, now)]);
    payerAccount := payerAccount.(logs := payerAccount.logs + [Log(ManagementRemoved(targetId, amount), now)]);
    st.UpdateAccount(payerAccount);
    payeeAccount := payeeAccount.(balance := payeeAccount.balance - amount);
    if payeeAccount.balance < 0 {
      payeeAccount := payeeAccount.(balance := 0);
    }
    payeeAccount := payeeAccount.(transactions := payeeAccount.transactions +
      [Transaction(RemovedByManagement(managerId, amount), amount, managerId, targetId, now)]);
    payeeAccount := payeeAccount.(logs := payeeAccount.logs + [Log(RemovedByManagement(managerId, amount), now)]);
    st.UpdateAccount(payeeAccount);
  }

  /** Whatever the stored balance and the amount, a removal leaves the
      target with a balance of at least 0; it takes the whole amount when
      the balance covers it and otherwise empties the account, while the
      record always shows the amount requested. The manager's balance is
      untouched, and no other record changes. */
  lemma RemoveNeverNegative(m: map<Id, Account>, managerId: Id, targetId: Id, amount: int, now: int)
    requires KeyedById(m)
    ensures var after := AfterRemove(m, managerId, targetId, amount, now);
      var before := Loaded(m, targetId, now).balance;
      && targetId in after && managerId in after
      && after[targetId].balance >= 0
      && (before >= amount ==> after[targetId].balance == before - amount)
      && (before < amount ==> after[targetId].balance == 0)
      && after[targetId].transactions[|after[targetId].transactions| - 1].amount == amount
      && (managerId != targetId ==> after[managerId].balance == Loaded(m, managerId, now).balance)
      && after[targetId] == RemovalSuffered(Loaded(m, targetId, now), managerId, amount, now)
      && (managerId != targetId ==> after[managerId] == RemovalMade(Loaded(m, managerId, now), targetId, amount, now))
      && forall id | id in m && id != managerId && id != targetId :: id in after && after[id] == m[id]
  {
  }

  /** For a non-negative amount the target never loses more than asked. */
  lemma RemoveTakesAtMost(m: map<Id, Account>, managerId: Id, targetId: Id, amount: int, now: int)
    requires amount >= 0
    ensures var after := AfterRemove(m, managerId, targetId, amount, now);
      targetId in after && Loaded(m, targetId, now).balance - after[targetId].balance <= amount
  {
  }

  // ------------------------------------------------- /manager view-logs

  /** `/manager view-logs`: the manager's record gets an entry naming the
      target and is saved; the listing is of the target's logs as loaded
      before that entry was made, newest first. */
  method Logs(st: Store, managerId: Id, targetId: Id, now: int) returns (lines: seq<Reports.LogLine>)
    requires st.Valid()
    modifies st
    ensures st.Valid() && st.guilds == old(st.guilds)
    ensures st.accounts == Touched(old(st.accounts), targetId, now)
      [managerId := WithLog(Loaded(old(st.accounts), managerId, now), ViewedLogs(targetId), now)]
    ensures var logs := Loaded(old(st.accounts), targetId, now).logs;
      && |lines| == |logs|
      && forall i :: 0 <= i < |lines| ==>
           lines[i] == Reports.LogLine(i + 1, logs[|logs| - 1 - i].time, logs[|logs| - 1 - i].event)
  {
    var targetUsersAccount := st.GetAccountFromId(targetId, now);
    var currentUsersAccount := st.GetAccountFromId(managerId, now);
    LoadedAfterTouch(old(st.accounts), targetId, managerId, now);
    currentUsersAccount := currentUsersAccount.(logs := currentUsersAccount.logs + [Log(ViewedLogs(targetId), now)]);
    SaveAfterTouch(Touched(old(st.accounts), targetId, now), managerId, now, currentUsersAccount);
    st.UpdateAccount(currentUsersAccount);
    lines := Reports.LogReport(targetUsersAccount.logs);
  }

  // ------------------------------------------------ propaganda and daily

  datatype PropagandaOutcome = InvalidUrl | AlreadyListed | NotListed | Added | Removed

  /** `/manager add-propaganda`: `isWebUrl` says whether `url` parses as an
      absolute http or https address. */
  method AddPropaganda(st: Store, guildId: Id, url: string, isWebUrl: bool) returns (outcome: PropagandaOutcome)
    requires st.Valid()
    modifies st
    ensures st.Valid() && st.accounts == old(st.accounts)
    ensures var s := LoadedSettings(old(st.guilds), guildId, st.defaultColor);
      if !isWebUrl then
        outcome == InvalidUrl && st.guilds == old(st.guilds)
      else if url in s.propaganda then
        outcome == AlreadyListed && st.guilds == old(st.guilds)[guildId := s]
      else
        && outcome == Added
        && st.guilds == old(st.guilds)[guildId := s.(propaganda := s.propaganda + [url])]
        && (Distinct(s.propaganda) ==> Distinct(st.guilds[guildId].propaganda))
  {
    if !isWebUrl {
      return InvalidUrl;
    }
    var settings := st.LoadSettings(guildId);
    if url in settings.propaganda {
      return AlreadyListed;
    }
    if Distinct(settings.propaganda) {
      DistinctAppend(settings.propaganda, url);
    }
    settings := settings.(propaganda := settings.propaganda + [url]);
    st.SaveSettings(settings);
    return Added;
  }

  /** `/manager remove-propaganda`: drops the first copy of `url`. */
  method RemovePropaganda(st: Store, guildId: Id, url: string) returns (outcome: PropagandaOutcome)
    requires st.Valid()
    modifies st
    ensures st.Valid() && st.accounts == old(st.accounts)
    ensures var s := LoadedSettings(old(st.guilds), guildId, st.defaultColor);
      if url !in s.propaganda then
        outcome == NotListed && st.guilds == old(st.guilds)[guildId := s]
      else
        && outcome == Removed
        && st.guilds == old(st.guilds)[guildId := s.(propaganda := RemoveFirst(s.propaganda, url))]
        && (Distinct(s.propaganda) ==>
              Distinct(st.guilds[guildId].propaganda) && url !in st.guilds[guildId].propaganda)
  {
    var settings := st.LoadSettings(guildId);
    if url !in settings.propaganda {
      return NotListed;
    }
    if Distinct(settings.propaganda) {
      RemoveFirstDistinct(settings.propaganda, url);
    }
    settings := settings.(propaganda := RemoveFirst(settings.propaganda, url));
    st.SaveSettings(settings);
    return Removed;
  }

  /** `/manager set-daily`: stores the payout amount; the reply calls the
      command enabled exactly when the amount is above 0. */
  method SetDaily(st: Store, guildId: Id, amount: int) returns (enabled: bool)
    requires st.Valid()
    modifies st
    ensures st.Valid() && st.accounts == old(st.accounts)
    ensures enabled <==> amount > 0
    ensures st.guilds == old(st.guilds)[guildId :=
      LoadedSettings(old(st.guilds), guildId, st.defaultColor).(dailyPayout := amount)]
  {
    var settings := st.LoadSettings(guildId);
    settings := settings.(dailyPayout := amount);
    st.SaveSettings(settings);
    enabled := amount > 0;
  }

  /** The reply and `/daily` disagree on negative amounts: the reply says
      the command is disabled, but `/daily` only stops at exactly 0 and a
      claim then lowers the balance by the amount. */
  lemma NegativeDailyStillPays(amount: int, a: Account, now: int)
    requires amount < 0
    ensures !(amount > 0) && Daily.Enabled(amount)
    ensures Daily.Claim(a, amount, now).balance < a.balance
  {
  }
}
