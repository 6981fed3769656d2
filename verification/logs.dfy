/** The account history commands: `/logs` and `/transactions` write a
    user's history to a text file, newest entry first and numbered from 1;
    `/join-date` and the "Join Date" user command tell when an account was
    first used. */
module Reports {
  import opened Seqs
  import opened Ledger

  /** One numbered line of a log file: `[index] [time] - details`. */
  datatype LogLine = LogLine(index: nat, time: int, details: Event)

  /** The two ids the detailed transaction listing shows. */
  datatype Involved = Involved(payer: Id, payee: Id)

  /** One numbered line of a transaction file; `involved` is present in the
      detailed listing only. */
  datatype TransactionLine = TransactionLine(index: nat, time: int, information: Event, involved: Option<Involved>)

  /** The log file's lines for `logs`: the newest entry first, numbered
      from 1. */
  method LogReport(logs: seq<Log>) returns (lines: seq<LogLine>)
    ensures |lines| == |logs|
    ensures forall i :: 0 <= i < |lines| ==>
      lines[i] == LogLine(i + 1, logs[|logs| - 1 - i].time, logs[|logs| - 1 - i].event)
  {
    var reversed := Reverse(logs);
    var count := 0;
    lines := [];
    while count < |reversed|
      invariant 0 <= count <= |reversed|
      invariant |lines| == count
      invariant forall i :: 0 <= i < count ==>
        lines[i] == LogLine(i + 1, logs[|logs| - 1 - i].time, logs[|logs| - 1 - i].event)
    {
      var log := reversed[count];
      count := count + 1;
      lines := lines + [LogLine(count, log.time, log.event)];
    }
  }

  /** The ids the detailed listing prints, as the source writes them: the
      payer's id in both places. */
  function DetailAsWritten(t: Transaction): Involved {
    Involved(t.payer, t.payer)
  }

  /** The ids the detailed listing is meant to print: the payer and the payee. */
  function Detail(t: Transaction): Involved {
    Involved(t.payer, t.payee)
  }

  /** Whenever the two parties differ, the listing as written names the
      wrong payee; it agrees with the intended one only when a user paid
      themselves. */
  lemma DetailAsWrittenWrongPayee(t: Transaction)
    ensures DetailAsWritten(t) == Detail(t) <==> t.payer == t.payee
  {
  }

  /** A payment of 5 from user 1 to user 2 is listed with payee 1. */
  lemma DetailAsWrittenExample()
    ensures var t := Transaction(PaidTo(2, 5), 5, 1, 2, 0);
      DetailAsWritten(t).payee == 1 && Detail(t).payee == 2
  {
  }

  /** The transaction file's lines for `txs`: the newest first, numbered
      from 1, with the ids `detail` picks out of each transaction when
      `viewDetails` is set. */
  method TransactionReport(txs: seq<Transaction>, viewDetails: bool, detail: Transaction -> Involved)
    returns (lines: seq<TransactionLine>)
    ensures |lines| == |txs|
    ensures forall i :: 0 <= i < |lines| ==>
      var t := txs[|txs| - 1 - i];
      lines[i] == TransactionLine(i + 1, t.time, t.info, if viewDetails then Some(detail(t)) else None)
  {
    var reversed := Reverse(txs);
    var count := 0;
    lines := [];
    while count < |reversed|
      invariant 0 <= count <= |reversed|
      invariant |lines| == count
      invariant forall i :: 0 <= i < count ==>
        var t := txs[|txs| - 1 - i];
        lines[i] == TransactionLine(i + 1, t.time, t.info, if viewDetails then Some(detail(t)) else None)
    {
      var log := reversed[count];
      count := count + 1;
      if viewDetails {
        lines := lines + [TransactionLine(count, log.time, log.info, Some(detail(log)))];
      } else {
        lines := lines + [TransactionLine(count, log.time, log.info, None)];
      }
    }
  }

  /** `/logs`: records the access in the user's own logs, saves, and lists
      the logs including that entry. */
  method ViewLogs(st: Store, userId: Id, now: int) returns (lines: seq<LogLine>)
    requires st.Valid()
    modifies st
    ensures st.Valid() && st.guilds == old(st.guilds)
    ensures var a := WithLog(Loaded(old(st.accounts), userId, now), AccessedLogs, now);
      && st.accounts == old(st.accounts)[userId := a]
      && |lines| == |a.logs|
      && lines[0] == LogLine(1, now, AccessedLogs)
      && forall i :: 0 <= i < |lines| ==>
           lines[i] == LogLine(i + 1, a.logs[|a.logs| - 1 - i].time, a.logs[|a.logs| - 1 - i].event)
  {
    var account := st.GetAccountFromId(userId, now);
    account := account.(logs := account.logs + [Log(AccessedLogs, now)]);
    SaveAfterTouch(old(st.accounts), userId, now, account);
    st.UpdateAccount(account);
    lines := LogReport(account.logs);
  }

  /** `/transactions` as written: the detailed lines name the payer twice. */
  method TransactionsAsWritten(st: Store, userId: Id, viewDetails: bool, now: int) returns (lines: seq<TransactionLine>)
    requires st.Valid()
    modifies st
    ensures st.Valid() && st.guilds == old(st.guilds)
    ensures st.accounts == Touched(old(st.accounts), userId, now)
    ensures var txs := Loaded(old(st.accounts), userId, now).transactions;
      && |lines| == |txs|
      && forall i :: 0 <= i < |lines| ==>
           var t := txs[|txs| - 1 - i];
           && lines[i] == TransactionLine(i + 1, t.time, t.info, if viewDetails then Some(DetailAsWritten(t)) else None)
           && (viewDetails ==> lines[i].involved.value.payee == t.payer)
  {
    var account := st.GetAccountFromId(userId, now);
    lines := TransactionReport(account.transactions, viewDetails, DetailAsWritten);
  }

  /** `/transactions`: lists the user's transactions, with the payer and the
      payee of each when details are asked for; only the loading of the
      record changes the store. */
  method Transactions(st: Store, userId: Id, viewDetails: bool, now: int) returns (lines: seq<TransactionLine>)
    requires st.Valid()
    modifies st
    ensures st.Valid() && st.guilds == old(st.guilds)
    ensures st.accounts == Touched(old(st.accounts), userId, now)
    ensures var txs := Loaded(old(st.accounts), userId, now).transactions;
      && |lines| == |txs|
      && forall i :: 0 <= i < |lines| ==>
           var t := txs[|txs| - 1 - i];
           && lines[i] == TransactionLine(i + 1, t.time, t.info, if viewDetails then Some(Detail(t)) else None)
           && (viewDetails ==> lines[i].involved.value == Involved(t.payer, t.payee))
  {
    var account := st.GetAccountFromId(userId, now);
    lines := TransactionReport(account.transactions, viewDetails, Detail);
  }

  /** An estimated join date: the time of the account's first log and the
      whole days since then, rounded up. */
  datatype JoinInfo = JoinInfo(joined: int, daysAgo: int)

  /** The join date of an account; None for an account without logs, where
      the bot fails. */
  function JoinDateOf(a: Account, now: int): (r: Option<JoinInfo>)
    ensures r.None? <==> a.logs == []
    ensures r.Some? ==> r.value.joined == a.logs[0].time
    ensures r.Some? ==> (r.value.daysAgo - 1) * DaySeconds < now - r.value.joined <= r.value.daysAgo * DaySeconds
  {
    if a.logs == [] then None else Some(JoinInfo(a.logs[0].time, DaysAgo(now, a.logs[0].time)))
  }

  /** A record created by the lookup itself, measured by a later reading of
      the clock within the same day, was joined at its creation, 1 day ago. */
  lemma NewAccountJoinDate(id: Id, created: int, measuredAt: int)
    requires created < measuredAt <= created + DaySeconds
    ensures JoinDateOf(NewAccount(id, created), measuredAt) == Some(JoinInfo(created, 1))
  {
  }

  /** Appending to the logs, as every command does, never moves the join date. */
  lemma JoinDateStable(a: Account, e: Event, t: int, now: int)
    requires a.logs != []
    ensures JoinDateOf(WithLog(a, e, t), now) == JoinDateOf(a, now)
  {
  }

  /** `/join-date [user]`: the join date of `target`, or of the invoking user
      when no target is given. The record is looked up (and created) at
      `now`; the elapsed time is measured by a second reading of the clock,
      `measuredAt`. */
  method JoinDate(st: Store, invokerId: Id, target: Option<Id>, now: int, measuredAt: int) returns (r: Option<JoinInfo>)
    requires st.Valid()
    modifies st
    ensures st.Valid() && st.guilds == old(st.guilds)
    ensures var id := if target.Some? then target.value else invokerId;
      && st.accounts == Touched(old(st.accounts), id, now)
      && r == JoinDateOf(Loaded(old(st.accounts), id, now), measuredAt)
  {
    var account: Account;
    if target.None? {
      account := st.GetAccountFromId(invokerId, now);
    } else {
      account := st.GetAccountFromId(target.value, now);
    }
    if account.logs == [] {
      return None;
    }
    r := Some(JoinInfo(account.logs[0].time, DaysAgo(measuredAt, account.logs[0].time)));
  }

  /** The "Join Date" user command: the same lookup as `/join-date`. */
  method AppGetJoinDate(st: Store, invokerId: Id, target: Option<Id>, now: int, measuredAt: int) returns (r: Option<JoinInfo>)
    requires st.Valid()
    modifies st
    ensures st.Valid() && st.guilds == old(st.guilds)
    ensures var id := if target.Some? then target.value else invokerId;
      && st.accounts == Touched(old(st.accounts), id, now)
      && r == JoinDateOf(Loaded(old(st.accounts), id, now), measuredAt)
  {
    r := JoinDate(st, invokerId, target, now, measuredAt);
  }
}
