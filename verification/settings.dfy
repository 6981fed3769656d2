/** The `/settings` command group, open to administrators: the embed colour,
    the manager roles and manager users, the ranks of the rankup system and
    the roles that gate it. Every successful change is saved and then
    recorded in the invoking administrator's logs. */
module SettingsCommands {
  import opened Seqs
  import opened Sorting
  import opened Ledger
  import Permissions
  import Ranks

  /** A guild role as the commands see it: its id, whether an integration
      (usually a bot) owns it, and whether it is the everyone role. */
  datatype Role = Role(id: Id, isManaged: bool, isEveryone: bool)

  datatype SettingsOutcome =
    | Changed
    /** Refused before loading: the role belongs to a bot (or is the everyone role). */
    | ManagedRole
    | AlreadyPresent
    | NotPresent
    /** A rank with the requested cost exists already; the first such rank. */
    | SameCost(existing: Rank)

  /** The lists the commands guard with a presence check before adding
      hold no repeats, and no two ranks share a role or a cost. */
  predicate RanksDistinct(ranks: seq<Rank>) {
    forall i, j :: 0 <= i < j < |ranks| ==> ranks[i].roleId != ranks[j].roleId && ranks[i].cost != ranks[j].cost
  }

  predicate WellFormed(s: Settings) {
    && Distinct(s.managerRoles)
    && Distinct(s.managerUsers)
    && Distinct(s.minimumRoles)
    && RanksDistinct(s.ranks)
  }

  /** A guild's first settings are well formed. */
  lemma DefaultWellFormed(guildId: Id, color: Rgb)
    ensures WellFormed(DefaultSettings(guildId, color))
  {
  }

  /** Loads the invoker's record, adds an entry for `e` and saves it. */
  method LogChange(st: Store, invokerId: Id, e: Event, now: int)
    requires st.Valid()
    modifies st
    ensures st.Valid() && st.guilds == old(st.guilds)
    ensures st.accounts == Logged(old(st.accounts), invokerId, e, now)
  {
    var account := st.GetAccountFromId(invokerId, now);
    account := account.(logs := account.logs + [Log(e, now)]);
    SaveAfterTouch(old(st.accounts), invokerId, now, account);
    st.UpdateAccount(account);
  }

  // ------------------------------------------------------------- colour

  /** The red, green and blue components each colour name stands for. */
  function ColorOf(c: ThemeColor): (rgb: Rgb)
    ensures 0 <= rgb.r <= 255 && 0 <= rgb.g <= 255 && 0 <= rgb.b <= 255
  {
    match c
    case Black => Rgb(0, 0, 0)
    case White => Rgb(255, 255, 255)
    case Red => Rgb(255, 0, 0)
    case Lime => Rgb(0, 255, 0)
    case Blue => Rgb(0, 0, 255)
    case Yellow => Rgb(255, 255, 0)
    case Aqua => Rgb(0, 255, 255)
    case Pink => Rgb(255, 0, 255)
    case Silver => Rgb(192, 192, 192)
    case Gray => Rgb(128, 128, 128)
    case Brown => Rgb(128, 0, 0)
    case Olive => Rgb(128, 128, 0)
    case Green => Rgb(0, 128, 0)
    case Purple => Rgb(128, 0, 128)
    case Teal => Rgb(0, 128, 128)
    case Navy => Rgb(0, 0, 128)
    case Gold => Rgb(255, 215, 0)
  }

  /** No two colour names give the same colour. */
  lemma ColorOfInjective(c: ThemeColor, d: ThemeColor)
    requires c != d
    ensures ColorOf(c) != ColorOf(d)
  {
  }

  /** `/settings color`. */
  method ChangeColor(st: Store, guildId: Id, invokerId: Id, color: ThemeColor, now: int)
    requires st.Valid()
    modifies st
    ensures st.Valid()
    ensures var s := LoadedSettings(old(st.guilds), guildId, st.defaultColor);
      st.guilds == old(st.guilds)[guildId := s.(colorTheme := ColorOf(color))]
    ensures st.accounts == Logged(old(st.accounts), invokerId, ColorChanged(color), now)
  {
    var settings := st.LoadSettings(guildId);
    settings := settings.(colorTheme := ColorOf(color));
    st.SaveSettings(settings);
    LogChange(st, invokerId, ColorChanged(color), now);
  }

  // ------------------------------------------------- manager roles and users

  /** `/settings add-manager`. */
  method AddManager(st: Store, guildId: Id, invokerId: Id, role: Role, now: int) returns (outcome: SettingsOutcome)
    requires st.Valid()
    modifies st
    ensures st.Valid()
    ensures var s := LoadedSettings(old(st.guilds), guildId, st.defaultColor);
      if role.isManaged then
        outcome == ManagedRole && st.guilds == old(st.guilds) && st.accounts == old(st.accounts)
      else if role.id in s.managerRoles then
        outcome == AlreadyPresent && st.guilds == old(st.guilds)[guildId := s] && st.accounts == old(st.accounts)
      else
        && outcome == Changed
        && st.guilds == old(st.guilds)[guildId := s.(managerRoles := s.managerRoles + [role.id])]
        && st.accounts == Logged(old(st.accounts), invokerId, ManagerRoleAdded(role.id), now)
        && (WellFormed(s) ==> WellFormed(st.guilds[guildId]))
  {
    if role.isManaged {
      return ManagedRole;
    }
    var settings := st.LoadSettings(guildId);
    if role.id in settings.managerRoles {
      return AlreadyPresent;
    }
    if WellFormed(settings) {
      DistinctAppend(settings.managerRoles, role.id);
    }
    settings := settings.(managerRoles := settings.managerRoles + [role.id]);
    st.SaveSettings(settings);
    LogChange(st, invokerId, ManagerRoleAdded(role.id), now);
    return Changed;
  }

  /** `/settings remove-manager`. */
  method RemoveManager(st: Store, guildId: Id, invokerId: Id, roleId: Id, now: int) returns (outcome: SettingsOutcome)
    requires st.Valid()
    modifies st
    ensures st.Valid()
    ensures var s := LoadedSettings(old(st.guilds), guildId, st.defaultColor);
      if roleId !in s.managerRoles then
        outcome == NotPresent && st.guilds == old(st.guilds)[guildId := s] && st.accounts == old(st.accounts)
      else
        && outcome == Changed
        && st.guilds == old(st.guilds)[guildId := s.(managerRoles := RemoveFirst(s.managerRoles, roleId))]
        && st.accounts == Logged(old(st.accounts), invokerId, ManagerRoleRemoved(roleId), now)
        && (WellFormed(s) ==> WellFormed(st.guilds[guildId]) && roleId !in st.guilds[guildId].managerRoles)
  {
    var settings := st.LoadSettings(guildId);
    if roleId !in settings.managerRoles {
      return NotPresent;
    }
    if WellFormed(settings) {
      RemoveFirstDistinct(settings.managerRoles, roleId);
    }
    settings := settings.(managerRoles := RemoveFirst(settings.managerRoles, roleId));
    st.SaveSettings(settings);
    LogChange(st, invokerId, ManagerRoleRemoved(roleId), now);
    return Changed;
  }

  /** `/settings add-manager-user`. */
  method AddManagerUser(st: Store, guildId: Id, invokerId: Id, userId: Id, now: int) returns (outcome: SettingsOutcome)
    requires st.Valid()
    modifies st
    ensures st.Valid()
    ensures var s := LoadedSettings(old(st.guilds), guildId, st.defaultColor);
      if userId in s.managerUsers then
        outcome == AlreadyPresent && st.guilds == old(st.guilds)[guildId := s] && st.accounts == old(st.accounts)
      else
        && outcome == Changed
        && st.guilds == old(st.guilds)[guildId := s.(managerUsers := s.managerUsers + [userId])]
        && st.accounts == Logged(old(st.accounts), invokerId, ManagerUserAdded(userId), now)
        && (WellFormed(s) ==> WellFormed(st.guilds[guildId]))
  {
    var settings := st.LoadSettings(guildId);
    if userId in settings.managerUsers {
      return AlreadyPresent;
    }
    if WellFormed(settings) {
      DistinctAppend(settings.managerUsers, userId);
    }
    settings := settings.(managerUsers := settings.managerUsers + [userId]);
    st.SaveSettings(settings);
    LogChange(st, invokerId, ManagerUserAdded(userId), now);
    return Changed;
  }

  /** `/settings remove-manager-user` as written: the presence test looks
      in the manager roles list, the removal in the manager users list.
      Only the settings half is shown; the saving and logging are those of
      RemoveManagerUser. */
  function RemoveManagerUserAsWritten(s: Settings, userId: Id): (Settings, SettingsOutcome) {
    if userId !in s.managerRoles then (s, NotPresent)
    else (s.(managerUsers := RemoveFirst(s.managerUsers, userId)), Changed)
  }

  /** As written, a manager user whose id is not also a manager role id
      (role and user ids never coincide on the platform) cannot be removed:
      the command answers that they are not listed, the settings stay as
      they are, and the user keeps passing the manager check. */
  lemma RemoveManagerUserAsWrittenKeepsAccess(
    s: Settings, userId: Id, userRoles: set<Id>, errorMessage: Option<string>)
    requires userId in s.managerUsers && userId !in s.managerRoles
    ensures RemoveManagerUserAsWritten(s, userId) == (s, NotPresent)
    ensures Permissions.CheckRequirements(true, userId, userRoles, RemoveManagerUserAsWritten(s, userId).0, errorMessage)
      == Permissions.Success
  {
  }

  /** `/settings remove-manager-user`, testing the list it removes from. */
  method RemoveManagerUser(st: Store, guildId: Id, invokerId: Id, userId: Id, now: int) returns (outcome: SettingsOutcome)
    requires st.Valid()
    modifies st
    ensures st.Valid()
    ensures var s := LoadedSettings(old(st.guilds), guildId, st.defaultColor);
      if userId !in s.managerUsers then
        outcome == NotPresent && st.guilds == old(st.guilds)[guildId := s] && st.accounts == old(st.accounts)
      else
        && outcome == Changed
        && st.guilds == old(st.guilds)[guildId := s.(managerUsers := RemoveFirst(s.managerUsers, userId))]
        && st.accounts == Logged(old(st.accounts), invokerId, ManagerUserRemoved(userId), now)
        && (WellFormed(s) ==> WellFormed(st.guilds[guildId]) && userId !in st.guilds[guildId].managerUsers)
  {
    var settings := st.LoadSettings(guildId);
    if userId !in settings.managerUsers {
      return NotPresent;
    }
    if WellFormed(settings) {
      RemoveFirstDistinct(settings.managerUsers, userId);
    }
    settings := settings.(managerUsers := RemoveFirst(settings.managerUsers, userId));
    st.SaveSettings(settings);
    LogChange(st, invokerId, ManagerUserRemoved(userId), now);
    return Changed;
  }

  /** Once removed from a repeat-free manager users list, a user passes
      the manager check exactly when they hold a manager role; once added,
      they pass it whatever roles they hold. */
  lemma ManagerUserAccess(s: Settings, userId: Id, userRoles: set<Id>, errorMessage: Option<string>)
    requires Distinct(s.managerUsers)
    ensures var removed := s.(managerUsers := RemoveFirst(s.managerUsers, userId));
      Permissions.CheckRequirements(true, userId, userRoles, removed, errorMessage) == Permissions.Success
      <==> exists i :: 0 <= i < |s.managerRoles| && s.managerRoles[i] in userRoles
    ensures var added := s.(managerUsers := s.managerUsers + [userId]);
      Permissions.CheckRequirements(true, userId, userRoles, added, errorMessage) == Permissions.Success
  {
    RemoveFirstDistinct(s.managerUsers, userId);
  }

  // ------------------------------------------------------------- ranks

  function HasRole(roleId: Id): Rank -> bool {
    (r: Rank) => r.roleId == roleId
  }

  function HasCost(cost: int): Rank -> bool {
    (r: Rank) => r.cost == cost
  }

  /** Appending a rank whose role and cost are both new keeps the ranks
      apart. */
  lemma AddRankDistinct(ranks: seq<Rank>, rank: Rank)
    requires RanksDistinct(ranks)
    requires FirstIndex(ranks, HasRole(rank.roleId)) == |ranks|
    requires FirstIndex(ranks, HasCost(rank.cost)) == |ranks|
    ensures RanksDistinct(ranks + [rank])
  {
    forall i, j | 0 <= i < j < |ranks| + 1
      ensures (ranks + [rank])[i].roleId != (ranks + [rank])[j].roleId
      ensures (ranks + [rank])[i].cost != (ranks + [rank])[j].cost
    {
      if j == |ranks| {
        assert !HasRole(rank.roleId)(ranks[i]) && !HasCost(rank.cost)(ranks[i]);
      }
    }
  }

  /** Removing the rank at `k`, the first with role `roleId`, keeps the
      ranks apart and leaves no rank with that role. */
  lemma RemoveRankDistinct(ranks: seq<Rank>, roleId: Id, k: nat)
    requires RanksDistinct(ranks)
    requires k == FirstIndex(ranks, HasRole(roleId)) && k < |ranks|
    ensures var rest := ranks[..k] + ranks[k + 1..];
      && RanksDistinct(rest)
      && forall i :: 0 <= i < |rest| ==> rest[i].roleId != roleId
  {
    var rest := ranks[..k] + ranks[k + 1..];
    forall i | 0 <= i < |rest|
      ensures rest[i] == if i < k then ranks[i] else ranks[i + 1]
    {
    }
    forall i | 0 <= i < |rest| ensures rest[i].roleId != roleId {
      if i < k {
        assert !HasRole(roleId)(ranks[i]);
      } else {
        assert ranks[k].roleId == roleId;
      }
    }
  }

  /** With no two ranks at the same cost, the order rankup and view-ranks
      use is strictly increasing in cost, so the next rank is always a
      single, well-defined one. */
  lemma OrderedStrictly(ranks: seq<Rank>)
    requires RanksDistinct(ranks)
    ensures var ordered := Ranks.Ordered(ranks);
      forall i, j :: 0 <= i < j < |ordered| ==> ordered[i].cost < ordered[j].cost
  {
    var ordered := Ranks.Ordered(ranks);
    assert Distinct(ranks) by {
      forall i, j | 0 <= i < j < |ranks| ensures ranks[i] != ranks[j] {
        assert ranks[i].roleId != ranks[j].roleId;
      }
    }
    PermutationDistinct(ranks, ordered);
    forall i, j | 0 <= i < j < |ordered| ensures ordered[i].cost < ordered[j].cost {
      assert Ranks.CostOf(ordered[i]) <= Ranks.CostOf(ordered[j]);
      assert ordered[i] in multiset(ranks) && ordered[j] in multiset(ranks);
      var p :| 0 <= p < |ranks| && ranks[p] == ordered[i];
      var q :| 0 <= q < |ranks| && ranks[q] == ordered[j];
      assert p != q;
    }
  }

  /** `/settings add-rank`. */
  method AddRank(st: Store, guildId: Id, invokerId: Id, role: Role, cost: int, description: Option<string>, now: int)
    returns (outcome: SettingsOutcome)
    requires st.Valid()
    modifies st
    ensures st.Valid()
    ensures var s := LoadedSettings(old(st.guilds), guildId, st.defaultColor);
      var sameCost := FirstIndex(s.ranks, HasCost(cost));
      if role.isManaged || role.isEveryone then
        outcome == ManagedRole && st.guilds == old(st.guilds) && st.accounts == old(st.accounts)
      else if exists i :: 0 <= i < |s.ranks| && s.ranks[i].roleId == role.id then
        outcome == AlreadyPresent && st.guilds == old(st.guilds)[guildId := s] && st.accounts == old(st.accounts)
      else if sameCost < |s.ranks| then
        && outcome == SameCost(s.ranks[sameCost]) && s.ranks[sameCost].cost == cost
        && st.guilds == old(st.guilds)[guildId := s] && st.accounts == old(st.accounts)
      else
        && outcome == Changed
        && st.guilds == old(st.guilds)[guildId := s.(ranks := s.ranks + [Rank(role.id, cost, description)])]
        && st.accounts == Logged(old(st.accounts), invokerId, RankAdded(role.id), now)
        && (WellFormed(s) ==> WellFormed(st.guilds[guildId]))
  {
    if role.isManaged || role.isEveryone {
      return ManagedRole;
    }
    var settings := st.LoadSettings(guildId);
    if FirstIndex(settings.ranks, HasRole(role.id)) < |settings.ranks| {
      return AlreadyPresent;
    }
    var sameCost := FirstIndex(settings.ranks, HasCost(cost));
    if sameCost < |settings.ranks| {
      return SameCost(settings.ranks[sameCost]);
    }
    var rank := Rank(role.id, cost, description);
    if WellFormed(settings) {
      AddRankDistinct(settings.ranks, rank);
    }
    settings := settings.(ranks := settings.ranks + [rank]);
    st.SaveSettings(settings);
    LogChange(st, invokerId, RankAdded(role.id), now);
    return Changed;
  }

  /** `/settings remove-rank`: removes the first rank granting `roleId`. */
  method RemoveRank(st: Store, guildId: Id, invokerId: Id, roleId: Id, now: int) returns (outcome: SettingsOutcome)
    requires st.Valid()
    modifies st
    ensures st.Valid()
    ensures var s := LoadedSettings(old(st.guilds), guildId, st.defaultColor);
      var k := FirstIndex(s.ranks, HasRole(roleId));
      if k == |s.ranks| then
        outcome == NotPresent && st.guilds == old(st.guilds)[guildId := s] && st.accounts == old(st.accounts)
      else
        && outcome == Changed
        && st.guilds == old(st.guilds)[guildId := s.(ranks := s.ranks[..k] + s.ranks[k + 1..])]
        && st.accounts == Logged(old(st.accounts), invokerId, RankRemoved(roleId), now)
        && (WellFormed(s) ==> WellFormed(st.guilds[guildId]))
  {
    var settings := st.LoadSettings(guildId);
    var k := FirstIndex(settings.ranks, HasRole(roleId));
    if k == |settings.ranks| {
      return NotPresent;
    }
    var ranks := settings.ranks;
    assert ranks[k] !in ranks[..k] by {
      forall j | 0 <= j < k ensures ranks[..k][j] != ranks[k] {
        assert !HasRole(roleId)(ranks[j]);
      }
    }
    RemoveFirstAt(ranks, ranks[k], k);
    if WellFormed(settings) {
      RemoveRankDistinct(ranks, roleId, k);
    }
    settings := settings.(ranks := RemoveFirst(ranks, ranks[k]));
    st.SaveSettings(settings);
    LogChange(st, invokerId, RankRemoved(roleId), now);
    return Changed;
  }

  // ---------------------------------------------------- minimum roles

  /** `/settings add-minimum-rankup-role`. */
  method AddMinimumRole(st: Store, guildId: Id, invokerId: Id, role: Role, now: int) returns (outcome: SettingsOutcome)
    requires st.Valid()
    modifies st
    ensures st.Valid()
    ensures var s := LoadedSettings(old(st.guilds), guildId, st.defaultColor);
      if role.isManaged then
        outcome == ManagedRole && st.guilds == old(st.guilds) && st.accounts == old(st.accounts)
      else if role.id in s.minimumRoles then
        outcome == AlreadyPresent && st.guilds == old(st.guilds)[guildId := s] && st.accounts == old(st.accounts)
      else
        && outcome == Changed
        && st.guilds == old(st.guilds)[guildId := s.(minimumRoles := s.minimumRoles + [role.id])]
        && st.accounts == Logged(old(st.accounts), invokerId, MinimumRoleAdded(role.id), now)
        && (WellFormed(s) ==> WellFormed(st.guilds[guildId]))
  {
    if role.isManaged {
      return ManagedRole;
    }
    var settings := st.LoadSettings(guildId);
    if role.id in settings.minimumRoles {
      return AlreadyPresent;
    }
    if WellFormed(settings) {
      DistinctAppend(settings.minimumRoles, role.id);
    }
    settings := settings.(minimumRoles := settings.minimumRoles + [role.id]);
    st.SaveSettings(settings);
    LogChange(st, invokerId, MinimumRoleAdded(role.id), now);
    return Changed;
  }

  /** `/settings remove-minimum-rankup-role`. */
  method RemoveMinimumRole(st: Store, guildId: Id, invokerId: Id, roleId: Id, now: int) returns (outcome: SettingsOutcome)
    requires st.Valid()
    modifies st
    ensures st.Valid()
    ensures var s := LoadedSettings(old(st.guilds), guildId, st.defaultColor);
      if roleId !in s.minimumRoles then
        outcome == NotPresent && st.guilds == old(st.guilds)[guildId := s] && st.accounts == old(st.accounts)
      else
        && outcome == Changed
        && st.guilds == old(st.guilds)[guildId := s.(minimumRoles := RemoveFirst(s.minimumRoles, roleId))]
        && st.accounts == Logged(old(st.accounts), invokerId, MinimumRoleRemoved(roleId), now)
        && (WellFormed(s) ==> WellFormed(st.guilds[guildId]) && roleId !in st.guilds[guildId].minimumRoles)
  {
    var settings := st.LoadSettings(guildId);
    if roleId !in settings.minimumRoles {
      return NotPresent;
    }
    if WellFormed(settings) {
      RemoveFirstDistinct(settings.minimumRoles, roleId);
    }
    settings := settings.(minimumRoles := RemoveFirst(settings.minimumRoles, roleId));
    st.SaveSettings(settings);
    LogChange(st, invokerId, MinimumRoleRemoved(roleId), now);
    return Changed;
  }

  /** Removing a rank right after adding it gives the ranks back. */
  lemma RankRoundTrip(ranks: seq<Rank>, rank: Rank)
    requires FirstIndex(ranks, HasRole(rank.roleId)) == |ranks|
    ensures FirstIndex(ranks + [rank], HasRole(rank.roleId)) == |ranks|
    ensures (ranks + [rank])[..|ranks|] + (ranks + [rank])[|ranks| + 1..] == ranks
  {
    FirstIndexSnoc(ranks, rank, HasRole(rank.roleId));
  }
}
