/** The member-facing economy commands: `/pay` moves currency from the
    invoking user to another user, and `/baltop` ranks every public account
    by balance and shows the top ten. */
module Economy {
  import opened Seqs
  import opened Sorting
  import opened Ledger

  // ---------------------------------------------------------------- /pay

  datatype PayOutcome = Paid | Insufficient(needed: int)

  /** The payer's copy after the payment: debited, with the payment logged
      and recorded. */
  function Debited(a: Account, payeeId: Id, amount: int, now: int): Account {
    a.(balance := a.balance - amount,
       transactions := a.transactions + [Transaction(PaidTo(payeeId, amount), amount, a.id, payeeId, now)],
       logs := a.logs + [Log(PaidTo(payeeId, amount), now)])
  }

  /** The payee's copy after the payment: credited, with the receipt logged
      and recorded. */
  function Credited(a: Account, payerId: Id, amount: int, now: int): Account {
    a.(balance := a.balance + amount,
       transactions := a.transactions + [Transaction(ReceivedFrom(payerId, amount), amount, payerId, a.id, now)],
       logs := a.logs + [Log(ReceivedFrom(payerId, amount), now)])
  }

  /** The stored accounts after `/pay`. Both records are loaded (and created
      when missing) first; when the payer can afford the amount, the
      payee's copy is saved and then the payer's, so that when the two ids
      coincide the payer's copy is the one kept. */
  function AfterPay(m: map<Id, Account>, payerId: Id, payeeId: Id, amount: int, now: int): map<Id, Account> {
    var loaded := Touched(Touched(m, payerId, now), payeeId, now);
    var payer := Loaded(m, payerId, now);
    var payee := Loaded(Touched(m, payerId, now), payeeId, now);
    if payer.balance < amount then loaded
    else loaded[payeeId := Credited(payee, payerId, amount, now)][payerId := Debited(payer, payeeId, amount, now)]
  }

  /** `/pay`: the invoking user `payerId` pays `amount` to `payeeId`. */
  method Pay(st: Store, payerId: Id, payeeId: Id, amount: int, now: int) returns (outcome: PayOutcome)
    requires st.Valid()
    modifies st
    ensures st.Valid()
    ensures var balance := Loaded(old(st.accounts), payerId, now).balance;
      outcome == if balance < amount then Insufficient(amount - balance) else Paid
    ensures st.accounts == AfterPay(old(st.accounts), payerId, payeeId, amount, now)
    ensures st.guilds == old(st.guilds)
  {
    var payerAccount := st.GetAccountFromId(payerId, now);
    var payeeAccount := st.GetAccountFromId(payeeId, now);
    LoadedAfterTouch(old(st.accounts), payerId, payeeId, now);
    if payerAccount.balance < amount {
      return Insufficient(amount - payerAccount.balance);
    }
    ghost var payer, payee := payerAccount, payeeAccount;
    payerAccount := payerAccount.(balance := payerAccount.balance - amount);
    payerAccount := payerAccount.(transactions := payerAccount.transactions +
      [Transaction(PaidTo(payeeId, amount), amount, payerId, payeeId, now)]);
    payerAccount := payerAccount.(logs := payerAccount.logs + [Log(PaidTo(payeeId, amount), now)]);
    payeeAccount := payeeAccount.(balance := payeeAccount.balance + amount);
    payeeAccount := payeeAccount.(transactions := payeeAccount.transactions +
      [Transaction(ReceivedFrom(payerId, amount), amount, payerId, payeeId, now)]);
    payeeAccount := payeeAccount.(logs := payeeAccount.logs + [Log(ReceivedFrom(payerId, amount), now)]);
    assert payerAccount == Debited(payer, payeeId, amount, now);
    assert payeeAccount == Credited(payee, payerId, amount, now);
    st.UpdateAccount(payeeAccount);
    st.UpdateAccount(payerAccount);
    return Paid;
  }

  /** Between two different users a payment moves the amount and nothing
      else: the two balances keep their sum, the payer is never left
      negative by it, and every other record is left as loaded. */
  lemma PayConserves(m: map<Id, Account>, payerId: Id, payeeId: Id, amount: int, now: int)
    requires KeyedById(m) && payerId != payeeId
    requires Loaded(m, payerId, now).balance >= amount
    ensures var after := AfterPay(m, payerId, payeeId, amount, now);
      && payerId in after && payeeId in after
      && after[payerId].balance == Loaded(m, payerId, now).balance - amount >= 0
      && after[payeeId].balance == Loaded(m, payeeId, now).balance + amount
      && after[payerId].balance + after[payeeId].balance ==
           Loaded(m, payerId, now).balance + Loaded(m, payeeId, now).balance
      && after[payerId] == Debited(Loaded(m, payerId, now), payeeId, amount, now)
      && after[payeeId] == Credited(Loaded(m, payeeId, now), payerId, amount, now)
      && after[payerId].transactions == Loaded(m, payerId, now).transactions +
           [Transaction(PaidTo(payeeId, amount), amount, payerId, payeeId, now)]
      && after[payeeId].transactions == Loaded(m, payeeId, now).transactions +
           [Transaction(ReceivedFrom(payerId, amount), amount, payerId, payeeId, now)]
      && forall id | id in m && id != payerId && id != payeeId :: id in after && after[id] == m[id]
  {
    LoadedAfterTouch(m, payerId, payeeId, now);
  }

  /** A refused payment changes no balance; it only creates missing records. */
  lemma PayRefusedChangesNothing(m: map<Id, Account>, payerId: Id, payeeId: Id, amount: int, now: int)
    requires Loaded(m, payerId, now).balance < amount
    ensures var after := AfterPay(m, payerId, payeeId, amount, now);
      && (forall id | id in m :: id in after && after[id] == m[id])
      && payerId in after && after[payerId] == Loaded(m, payerId, now)
      && payeeId in after && after[payeeId] == Loaded(m, payeeId, now)
  {
    LoadedAfterTouch(m, payerId, payeeId, now);
  }

  /** Paying oneself is not refused, and because the payer's copy is saved
      over the payee's, the user loses the amount: the record kept is the
      debited one, and the receipt is in neither its transactions nor its
      logs. */
  lemma PaySelfLoses(m: map<Id, Account>, id: Id, amount: int, now: int)
    requires KeyedById(m)
    requires Loaded(m, id, now).balance >= amount
    ensures var after := AfterPay(m, id, id, amount, now);
      && id in after
      && after[id] == Debited(Loaded(m, id, now), id, amount, now)
      && after[id].balance == Loaded(m, id, now).balance - amount
      && after[id].transactions == Loaded(m, id, now).transactions +
           [Transaction(PaidTo(id, amount), amount, id, id, now)]
      && after[id].logs == Loaded(m, id, now).logs + [Log(PaidTo(id, amount), now)]
  {
  }

  // ------------------------------------------------------------- /baltop

  function BalanceOf(a: Account): int { a.balance }

  function IsPublic(a: Account): bool { !a.isPrivate }

  /** The public accounts, richest first; accounts with equal balances come
      in the reverse of the order they were read in (see RankingTies). */
  function Ranking(accounts: seq<Account>): seq<Account> {
    Filter(Reverse(SortBy(accounts, BalanceOf)), IsPublic)
  }

  const TopCount: nat := 10

  /** The first ten entries of a ranking. */
  function Top(ranking: seq<Account>): (r: seq<Account>)
    ensures |r| <= TopCount && r <= ranking
    ensures |ranking| <= TopCount ==> r == ranking
    ensures |ranking| > TopCount ==> |r| == TopCount
  {
    if |ranking| <= TopCount then ranking else ranking[..TopCount]
  }

  function InGuild(members: set<Id>): Account -> bool {
    (a: Account) => a.id in members
  }

  /** The first shown account whose owner is a member of the guild. */
  function FirstMember(shown: seq<Account>, members: set<Id>): Option<Account> {
    var k := FirstIndex(shown, InGuild(members));
    if k < |shown| then Some(shown[k]) else None
  }

  /** One line of the leaderboard. `inGuild` says whether the owner's name
      could be shown; `firstUsedDaysAgo` counts from the account's first log. */
  datatype BaltopEntry = BaltopEntry(
    position: nat, id: Id, inGuild: bool, balance: int, firstUsedDaysAgo: Option<int>)

  function EntryFor(position: nat, a: Account, members: set<Id>, now: int): BaltopEntry {
    BaltopEntry(position, a.id, a.id in members, a.balance,
      if a.logs == [] then None else Some(DaysAgo(now, a.logs[0].time)))
  }

  /** The numbered lines for the accounts shown, in order. */
  function Entries(shown: seq<Account>, members: set<Id>, now: int): seq<BaltopEntry> {
    seq(|shown|, i requires 0 <= i < |shown| => EntryFor(i + 1, shown[i], members, now))
  }

  lemma EntriesSnoc(shown: seq<Account>, a: Account, members: set<Id>, now: int)
    ensures Entries(shown + [a], members, now) ==
            Entries(shown, members, now) + [EntryFor(|shown| + 1, a, members, now)]
  {
    var l := Entries(shown + [a], members, now);
    var r := Entries(shown, members, now) + [EntryFor(|shown| + 1, a, members, now)];
    assert |l| == |r|;
    forall i | 0 <= i < |l| ensures l[i] == r[i] {
      if i < |shown| {
        assert (shown + [a])[i] == shown[i];
      }
    }
  }

  lemma FilterPrefixStep<T>(s: seq<T>, i: nat, p: T -> bool)
    requires i < |s|
    ensures Filter(s[..i + 1], p) == Filter(s[..i], p) + (if p(s[i]) then [s[i]] else [])
  {
    assert s[..i + 1] == s[..i] + [s[i]];
    FilterConcat(s[..i], [s[i]], p);
    assert [s[i]][1..] == [];
  }

  lemma TopSnoc(ranked: seq<Account>, a: Account)
    ensures |ranked| < TopCount ==> Top(ranked + [a]) == Top(ranked) + [a]
    ensures |ranked| >= TopCount ==> Top(ranked + [a]) == Top(ranked)
  {
    if |ranked| >= TopCount {
      assert (ranked + [a])[..TopCount] == ranked[..TopCount];
    }
  }

  lemma FirstMemberSnoc(shown: seq<Account>, a: Account, members: set<Id>)
    ensures FirstMember(shown + [a], members) ==
      if FirstMember(shown, members).Some? then FirstMember(shown, members)
      else if a.id in members then Some(a) else None
  {
    FirstIndexSnoc(shown, a, InGuild(members));
  }

  /** What showing one more public account does to the lines and the
      richest member. */
  lemma Advance(ranked: seq<Account>, a: Account, members: set<Id>, now: int)
    ensures |ranked| < TopCount ==>
      && Entries(Top(ranked + [a]), members, now) ==
           Entries(Top(ranked), members, now) + [EntryFor(|ranked| + 1, a, members, now)]
      && FirstMember(Top(ranked + [a]), members) ==
           if FirstMember(Top(ranked), members).None? && a.id in members then Some(a)
           else FirstMember(Top(ranked), members)
    ensures |ranked| >= TopCount ==>
      && Entries(Top(ranked + [a]), members, now) == Entries(Top(ranked), members, now)
      && FirstMember(Top(ranked + [a]), members) == FirstMember(Top(ranked), members)
  {
    TopSnoc(ranked, a);
    FirstMemberSnoc(Top(ranked), a, members);
    EntriesSnoc(Top(ranked), a, members, now);
  }

  /** The leaderboard loop of `/baltop` over the accounts in ranking order:
      private accounts are skipped, the first ten public ones are numbered
      from 1, and the first of those whose owner is in the guild is kept as
      the richest. */
  method Leaderboard(accountsInOrder: seq<Account>, members: set<Id>, now: int)
    returns (entries: seq<BaltopEntry>, richest: Option<Account>)
    ensures entries == Entries(Top(Filter(accountsInOrder, IsPublic)), members, now)
    ensures richest == FirstMember(Top(Filter(accountsInOrder, IsPublic)), members)
  {
    var indexCounter := 0;
    entries := [];
    richest := None;
    ghost var ranked: seq<Account> := [];
    for i := 0 to |accountsInOrder|
      invariant ranked == Filter(accountsInOrder[..i], IsPublic)
      invariant indexCounter == |ranked|
      invariant entries == Entries(Top(ranked), members, now)
      invariant richest == FirstMember(Top(ranked), members)
    {
      var account := accountsInOrder[i];
      FilterPrefixStep(accountsInOrder, i, IsPublic);
      if !account.isPrivate {
        Advance(ranked, account, members, now);
        indexCounter := indexCounter + 1;
        if indexCounter <= TopCount {
          if richest.None? && account.id in members {
            richest := Some(account);
          }
          entries := entries + [EntryFor(indexCounter, account, members, now)];
        }
        ranked := ranked + [account];
      }
    }
    assert accountsInOrder[..|accountsInOrder|] == accountsInOrder;
  }

  /** `/baltop` over the stored accounts, given in the order their files are
      read, for a guild whose members are `members`: the accounts ordered by
      balance and reversed, then the leaderboard loop. */
  method Baltop(accounts: seq<Account>, members: set<Id>, now: int)
    returns (entries: seq<BaltopEntry>, richest: Option<Account>)
    ensures entries == Entries(Top(Ranking(accounts)), members, now)
    ensures richest == FirstMember(Top(Ranking(accounts)), members)
  {
    var accountsInOrder := Reverse(SortBy(accounts, BalanceOf));
    entries, richest := Leaderboard(accountsInOrder, members, now);
  }

  /** The ranking holds exactly the public accounts. */
  lemma RankingMembers(accounts: seq<Account>, a: Account)
    ensures a in Ranking(accounts) <==> a in accounts && !a.isPrivate
  {
    var sorted := SortBy(accounts, BalanceOf);
    FilterMembers(Reverse(sorted), IsPublic, a);
    ReversePermutes(sorted);
    assert a in Reverse(sorted) <==> a in multiset(Reverse(sorted));
    assert a in accounts <==> a in multiset(accounts);
  }

  /** The ranking runs from the highest balance to the lowest. */
  lemma RankingDescending(accounts: seq<Account>)
    ensures SortedDescendingBy(Ranking(accounts), BalanceOf)
  {
    ReverseDescending(SortBy(accounts, BalanceOf), BalanceOf);
    FilterDescending(Reverse(SortBy(accounts, BalanceOf)), IsPublic, BalanceOf);
  }

  /** Among public accounts with the same balance, the one read later is
      ranked higher: the stable sort keeps them in reading order and the
      reversal turns that order around. */
  lemma RankingTies(accounts: seq<Account>, b: int)
    ensures Filter(Ranking(accounts), KeyIs(BalanceOf, b)) ==
            Reverse(Filter(Filter(accounts, KeyIs(BalanceOf, b)), IsPublic))
  {
    var k := KeyIs(BalanceOf, b);
    var sorted := SortBy(accounts, BalanceOf);
    FilterCommute(Reverse(sorted), IsPublic, k);
    FilterReverse(sorted, k);
    SortStable(accounts, BalanceOf, b);
    FilterReverse(Filter(accounts, k), IsPublic);
  }

  lemma NoMemberRanksHigher(ranking: seq<Account>, k: nat, members: set<Id>, y: Account)
    requires SortedDescendingBy(ranking, BalanceOf)
    requires k < |ranking| && y in ranking && y.id in members
    requires forall j :: 0 <= j < k ==> ranking[j].id !in members
    ensures y.balance <= ranking[k].balance
  {
    var j :| 0 <= j < |ranking| && ranking[j] == y;
    if k < j {
      assert BalanceOf(ranking[k]) >= BalanceOf(ranking[j]);
    }
  }

  /** The richest user named is a public account of a guild member, and no
      public account of a guild member holds more. */
  lemma RichestMember(accounts: seq<Account>, members: set<Id>)
    ensures var richest := FirstMember(Top(Ranking(accounts)), members);
      richest.Some? ==>
        && richest.value in accounts
        && !richest.value.isPrivate
        && richest.value.id in members
        && forall y | y in accounts && !y.isPrivate && y.id in members :: y.balance <= richest.value.balance
  {
    var ranking := Ranking(accounts);
    var top := Top(ranking);
    var k := FirstIndex(top, InGuild(members));
    if k < |top| {
      assert top[k] == ranking[k];
      RankingMembers(accounts, ranking[k]);
      RankingDescending(accounts);
      assert forall j :: 0 <= j < k ==> ranking[j].id !in members by {
        forall j | 0 <= j < k ensures ranking[j].id !in members {
          assert top[j] == ranking[j];
          assert !InGuild(members)(top[j]);
        }
      }
      forall y | y in accounts && !y.isPrivate && y.id in members
        ensures y.balance <= ranking[k].balance
      {
        RankingMembers(accounts, y);
        NoMemberRanksHigher(ranking, k, members, y);
      }
    }
  }
}
