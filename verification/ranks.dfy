/** Rank progression: `/rankup` buys the cheapest rank the user does not
    hold yet, subject to the guild's minimum-role gate and the user's
    balance; `/view-ranks` lists the ranks in the order rankup walks them. */
module Ranks {
  import opened Seqs
  import opened Sorting
  import opened Ledger
  import opened Permissions

  function CostOf(r: Rank): int { r.cost }

  /** The ranks in the order rankup walks them: by ascending cost, ranks of
      equal cost in list order. */
  function Ordered(ranks: seq<Rank>): seq<Rank> { SortBy(ranks, CostOf) }

  /** "The user does not hold this rank's role." */
  function Unowned(held: set<Id>): Rank -> bool {
    (r: Rank) => r.roleId !in held
  }

  lemma OrderedSameElements(ranks: seq<Rank>, r: Rank)
    ensures r in Ordered(ranks) <==> r in ranks
  {
    assert r in Ordered(ranks) <==> r in multiset(Ordered(ranks));
    assert r in ranks <==> r in multiset(ranks);
  }

  /** Every rank the user lacks sits at or after the first such rank in the
      ordered list, and so costs at least as much. */
  lemma UnownedNotCheaper(ranks: seq<Rank>, held: set<Id>, x: Rank)
    requires x in ranks && x.roleId !in held
    ensures var ordered := Ordered(ranks);
            var k := FirstIndex(ordered, Unowned(held));
            k < |ordered| && ordered[k].cost <= x.cost
  {
    var ordered := Ordered(ranks);
    OrderedSameElements(ranks, x);
    var j :| 0 <= j < |ordered| && ordered[j] == x;
    assert Unowned(held)(ordered[j]);
  }

  /** The rank rankup acts on is the cheapest rank whose role the user does
      not hold; when there is none the user holds every rank. */
  lemma CheapestUnowned(ranks: seq<Rank>, held: set<Id>)
    ensures var ordered := Ordered(ranks);
            var k := FirstIndex(ordered, Unowned(held));
            && (k == |ordered| <==> forall r | r in ranks :: r.roleId in held)
            && (k < |ordered| ==>
                  && ordered[k] in ranks
                  && ordered[k].roleId !in held
                  && forall r | r in ranks && r.roleId !in held :: ordered[k].cost <= r.cost)
  {
    var ordered := Ordered(ranks);
    var k := FirstIndex(ordered, Unowned(held));
    forall r | r in ranks && r.roleId !in held
      ensures k < |ordered| && ordered[k].cost <= r.cost
    {
      UnownedNotCheaper(ranks, held, r);
    }
    if k < |ordered| {
      OrderedSameElements(ranks, ordered[k]);
    }
  }

  /** The minimum-role gate: whether the user holds at least one of the
      guild's minimum roles. */
  method HoldsMinimumRole(minimumRoles: seq<Id>, held: set<Id>) returns (atLeastOne: bool)
    ensures atLeastOne <==> exists j :: 0 <= j < |minimumRoles| && minimumRoles[j] in held
  {
    atLeastOne := false;
    var m := 0;
    while m < |minimumRoles|
      invariant 0 <= m <= |minimumRoles|
      invariant atLeastOne <==> exists j :: 0 <= j < m && minimumRoles[j] in held
    {
      if minimumRoles[m] in held {
        atLeastOne := true;
      }
      m := m + 1;
    }
  }

  datatype RankupOutcome =
    | NoRanks
    | MaxRank
    | GateNotMet(required: seq<Id>)
    | Shortfall(rank: Rank, needed: int)
    | Purchased(rank: Rank)
    /** The rank was paid for and saved, but granting its role failed. */
    | GrantFailed(rank: Rank)

  /** Whether `r` is an outcome in which the rank was paid for. */
  predicate Paid(r: RankupOutcome) { r.Purchased? || r.GrantFailed? }

  /** What rankup decides for a user with `balance` who holds `held`, given
      the guild's ranks and minimum roles; RankupDecision states what it
      guarantees. */
  function Decide(ranks: seq<Rank>, minimumRoles: seq<Id>, balance: int, held: set<Id>, grantSucceeds: bool)
    : RankupOutcome
  {
    var ordered := Ordered(ranks);
    var k := FirstIndex(ordered, Unowned(held));
    if ranks == [] then NoRanks
    else if k == |ordered| then MaxRank
    else if minimumRoles != [] && !HoldsAny(minimumRoles, held) then GateNotMet(minimumRoles)
    else if balance >= ordered[k].cost then
      (if grantSucceeds then Purchased(ordered[k]) else GrantFailed(ordered[k]))
    else Shortfall(ordered[k], ordered[k].cost - balance)
  }

  /** Rankup offers the cheapest rank the user lacks, sells it only when the
      gate is met and the balance covers it, and says why otherwise. */
  lemma RankupDecision(ranks: seq<Rank>, minimumRoles: seq<Id>, balance: int, held: set<Id>, grantSucceeds: bool)
    ensures var r := Decide(ranks, minimumRoles, balance, held, grantSucceeds);
      && (r == NoRanks <==> ranks == [])
      && (r == MaxRank <==> ranks != [] && forall x | x in ranks :: x.roleId in held)
      && (r.GateNotMet? <==>
            && (exists x | x in ranks :: x.roleId !in held)
            && minimumRoles != []
            && !(exists j :: 0 <= j < |minimumRoles| && minimumRoles[j] in held))
      && (r.GateNotMet? ==> r.required == minimumRoles)
      && (Paid(r) || r.Shortfall? ==>
            && r.rank in ranks
            && r.rank.roleId !in held
            && (forall x | x in ranks && x.roleId !in held :: r.rank.cost <= x.cost)
            && (minimumRoles == [] || exists j :: 0 <= j < |minimumRoles| && minimumRoles[j] in held))
      && (Paid(r) ==> balance >= r.rank.cost && (r.Purchased? <==> grantSucceeds))
      && (r.Shortfall? ==> r.needed == r.rank.cost - balance > 0)
  {
    CheapestUnowned(ranks, held);
  }

  /** The account after paying for `rank`: the cost is debited and the
      purchase is logged and recorded as a payment to the bot. */
  function Bought(a: Account, rank: Rank, botId: Id, now: int): Account {
    a.(balance := a.balance - rank.cost,
       logs := a.logs + [Log(PurchasedRank(rank.roleId, rank.cost), now)],
       transactions := a.transactions +
         [Transaction(PurchasedRank(rank.roleId, rank.cost), rank.cost, a.id, botId, now)])
  }

  /** Debits the rank's price from the loaded account, logs and records the
      purchase, and saves the account. */
  method Purchase(st: Store, account: Account, rank: Rank, botId: Id, now: int)
    requires st.Valid()
    modifies st
    ensures st.Valid()
    ensures st.accounts == old(st.accounts)[account.id := Bought(account, rank, botId, now)]
    ensures st.guilds == old(st.guilds)
  {
    var a := account;
    a := a.(balance := a.balance - rank.cost);
    a := a.(logs := a.logs + [Log(PurchasedRank(rank.roleId, rank.cost), now)]);
    a := a.(transactions := a.transactions +
      [Transaction(PurchasedRank(rank.roleId, rank.cost), rank.cost, a.id, botId, now)]);
    st.UpdateAccount(a);
  }

  /** Decide, read off at the index where the walk over the ordered ranks
      stops. */
  lemma DecideAt(ranks: seq<Rank>, minimumRoles: seq<Id>, balance: int, held: set<Id>, grantSucceeds: bool, i: nat)
    requires ranks != [] && i == FirstIndex(Ordered(ranks), Unowned(held))
    ensures var r := Decide(ranks, minimumRoles, balance, held, grantSucceeds);
      var ordered := Ordered(ranks);
      && (i == |ordered| ==> r == MaxRank)
      && (i < |ordered| && minimumRoles != [] && !HoldsAny(minimumRoles, held) ==> r == GateNotMet(minimumRoles))
      && (i < |ordered| && (minimumRoles == [] || HoldsAny(minimumRoles, held)) ==>
            r == if balance < ordered[i].cost then Shortfall(ordered[i], ordered[i].cost - balance)
                 else if grantSucceeds then Purchased(ordered[i]) else GrantFailed(ordered[i]))
  {
  }

  /** The walk rankup performs over a guild's (non-empty) rank list: skip
      the ranks already held, stop at the first one that is not, apply the
      minimum-role gate and compare its price with the balance. */
  method ChooseRank(ranks: seq<Rank>, minimumRoles: seq<Id>, balance: int, held: set<Id>, grantSucceeds: bool)
    returns (r: RankupOutcome)
    requires ranks != []
    ensures r == Decide(ranks, minimumRoles, balance, held, grantSucceeds)
  {
    var ordered := Ordered(ranks);
    var i := 0;
    while i < |ordered| && ordered[i].roleId in held
      invariant 0 <= i <= FirstIndex(ordered, Unowned(held))
    {
      // already bought: go on to the next rank
      i := i + 1;
    }
    DecideAt(ranks, minimumRoles, balance, held, grantSucceeds, i);
    if i == |ordered| {
      return MaxRank;
    }
    var rank := ordered[i];
    if |minimumRoles| > 0 {
      var atLeastOne := HoldsMinimumRole(minimumRoles, held);
      if !atLeastOne {
        return GateNotMet(minimumRoles);
      }
    }
    if balance >= rank.cost {
      return if grantSucceeds then Purchased(rank) else GrantFailed(rank);
    }
    return Shortfall(rank, rank.cost - balance);
  }

  /** `/rankup` for `userId` in `guildId`. `held` is the set of role ids the
      user holds, `botId` the bot's own user id and `grantSucceeds` whether
      the platform accepts the role grant (which is asked only after the
      purchase has been saved). */
  method Rankup(st: Store, guildId: Id, userId: Id, held: set<Id>, botId: Id, grantSucceeds: bool, now: int)
    returns (r: RankupOutcome)
    requires st.Valid()
    modifies st
    ensures st.Valid()
    ensures st.guilds == old(st.guilds)[guildId := LoadedSettings(old(st.guilds), guildId, st.defaultColor)]
    ensures
      var settings := LoadedSettings(old(st.guilds), guildId, st.defaultColor);
      r == Decide(settings.ranks, settings.minimumRoles, Loaded(old(st.accounts), userId, now).balance, held, grantSucceeds)
    ensures r.NoRanks? ==> st.accounts == old(st.accounts)
    ensures Paid(r) ==>
      st.accounts == old(st.accounts)[userId := Bought(Loaded(old(st.accounts), userId, now), r.rank, botId, now)]
    ensures !Paid(r) && !r.NoRanks? ==> st.accounts == Touched(old(st.accounts), userId, now)
  {
    var settings := st.LoadSettings(guildId);
    if |settings.ranks| <= 0 {
      return NoRanks;
    }
    var account := st.GetAccountFromId(userId, now);
    r := ChooseRank(settings.ranks, settings.minimumRoles, account.balance, held, grantSucceeds);
    if Paid(r) {
      SaveAfterTouch(old(st.accounts), userId, now, Bought(account, r.rank, botId, now));
      Purchase(st, account, r.rank, botId, now);
    }
  }

  const NoDescription := "There is no description for this rank."

  /** One numbered entry of `/view-ranks`. */
  datatype RankLine = RankLine(position: nat, roleId: Id, cost: int, description: string)

  /** `/view-ranks`: None when the guild has no ranks, otherwise one line
      per rank, numbered from 1, cheapest first. */
  method ViewRanks(st: Store, guildId: Id) returns (lines: Option<seq<RankLine>>)
    requires st.Valid()
    modifies st
    ensures st.Valid() && st.accounts == old(st.accounts)
    ensures st.guilds == old(st.guilds)[guildId := LoadedSettings(old(st.guilds), guildId, st.defaultColor)]
    ensures
      var ranks := LoadedSettings(old(st.guilds), guildId, st.defaultColor).ranks;
      var ordered := Ordered(ranks);
      && (lines.None? <==> ranks == [])
      && (lines.Some? ==>
            && |lines.value| == |ranks|
            && forall i :: 0 <= i < |lines.value| ==>
                 && lines.value[i].position == i + 1
                 && lines.value[i].roleId == ordered[i].roleId
                 && lines.value[i].cost == ordered[i].cost
                 && lines.value[i].description ==
                      (if ordered[i].description.Some? then ordered[i].description.value else NoDescription))
    // the listing climbs in cost, in the order rankup offers the ranks
    ensures lines.Some? ==>
      forall i, j :: 0 <= i < j < |lines.value| ==> lines.value[i].cost <= lines.value[j].cost
  {
    var settings := st.LoadSettings(guildId);
    if |settings.ranks| <= 0 {
      return None;
    }
    var ordered := Ordered(settings.ranks);
    var result: seq<RankLine> := [];
    var indexCounter := 0;
    while indexCounter < |ordered|
      invariant 0 <= indexCounter <= |ordered|
      invariant |result| == indexCounter
      invariant forall i :: 0 <= i < indexCounter ==>
        result[i] == RankLine(i + 1, ordered[i].roleId, ordered[i].cost,
          if ordered[i].description.Some? then ordered[i].description.value else NoDescription)
    {
      var rank := ordered[indexCounter];
      indexCounter := indexCounter + 1;
      if rank.description.Some? {
        result := result + [RankLine(indexCounter, rank.roleId, rank.cost, rank.description.value)];
      } else {
        result := result + [RankLine(indexCounter, rank.roleId, rank.cost, NoDescription)];
      }
    }
    return Some(result);
  }
}
