/** The bot's persistent records and the two stores that hold them.

    An account (one JSON file per user id) and a guild's settings (one YAML
    file per guild id) are plain records: every command loads a snapshot,
    changes its own copy and writes the whole record back. Two snapshots of
    the same id are independent copies, and the record written last is the
    one that survives. The `Store` class below holds what the files hold. */
module Ledger {
  import opened Seqs

  /** A platform identity: a user, a role, a guild or the bot itself. */
  type Id = nat

  /** The id recorded as payer of money that comes from nowhere (daily payouts). */
  const HouseId: Id := 0

  /** One day in seconds: the daily cooldown and the backdating of new accounts. */
  const DaySeconds: int := 86400

  /** Whole days elapsed since `t`, rounded up (a fraction of a day counts
      as a day), as the bot prints "first used ... days ago". */
  function DaysAgo(now: int, t: int): (d: int)
    ensures (d - 1) * DaySeconds < now - t <= d * DaySeconds
  {
    -((t - now) / DaySeconds)
  }

  /** The colour names the settings command offers. */
  datatype ThemeColor =
    | Black | White | Red | Lime | Blue | Yellow | Aqua | Pink | Silver
    | Gray | Brown | Olive | Green | Purple | Teal | Navy | Gold

  /** What a log or transaction entry records. The bot writes these as
      sentences naming users and formatted amounts; the model keeps the ids
      and amounts the sentences are built from. */
  datatype Event =
    | Created
    | PurchasedRank(roleId: Id, cost: int)
    | PaidTo(payee: Id, amount: int)
    | ReceivedFrom(payer: Id, amount: int)
    | ManagementPaid(payee: Id, amount: int)
    | ManagementReceived(manager: Id, amount: int)
    | ManagementRemoved(target: Id, amount: int)
    | RemovedByManagement(manager: Id, amount: int)
    | DailyPayout(amount: int)
    | SetToPrivate
    | SetToPublic
    | AccessedLogs
    | ViewedBalance(target: Id, wasPrivate: bool)
    | ViewedLogs(target: Id)
    | ColorChanged(color: ThemeColor)
    | ManagerRoleAdded(roleId: Id)
    | ManagerRoleRemoved(roleId: Id)
    | ManagerUserAdded(userId: Id)
    | ManagerUserRemoved(userId: Id)
    | RankAdded(roleId: Id)
    | RankRemoved(roleId: Id)
    | MinimumRoleAdded(roleId: Id)
    | MinimumRoleRemoved(roleId: Id)

  datatype Log = Log(event: Event, time: int)

  datatype Transaction = Transaction(info: Event, amount: int, payer: Id, payee: Id, time: int)

  /** An account record. Times are seconds; `lastDaily` is the time of the
      last daily payout. */
  datatype Account = Account(
    id: Id,
    balance: int,
    transactions: seq<Transaction>,
    isPrivate: bool,
    logs: seq<Log>,
    lastDaily: int)

  /** The record created on first access: empty, public, one "created" log,
      and a last payout one day back so that the first daily is due at once. */
  function NewAccount(id: Id, now: int): Account {
    Account(id, 0, [], false, [Log(Created, now)], now - DaySeconds)
  }

  function WithLog(a: Account, e: Event, now: int): Account {
    a.(logs := a.logs + [Log(e, now)])
  }

  /** The snapshot that loading `id` yields from the stored records `m`. */
  function Loaded(m: map<Id, Account>, id: Id, now: int): Account {
    if id in m then m[id] else NewAccount(id, now)
  }

  /** The stored records after loading `id`: a missing record is created and saved. */
  function Touched(m: map<Id, Account>, id: Id, now: int): map<Id, Account> {
    m[id := Loaded(m, id, now)]
  }

  /** The stored records after `id`'s record is loaded, given an entry for
      `e` and saved: what every settings change does to the invoker. */
  function Logged(m: map<Id, Account>, id: Id, e: Event, now: int): map<Id, Account> {
    m[id := WithLog(Loaded(m, id, now), e, now)]
  }

  /** Every record is filed under its own id. */
  ghost predicate KeyedById(m: map<Id, Account>) {
    forall id | id in m :: m[id].id == id
  }

  /** Loading one id never changes what loading another yields (including
      the same id, whose fresh record is created identically). */
  lemma LoadedAfterTouch(m: map<Id, Account>, a: Id, b: Id, now: int)
    ensures Loaded(Touched(m, a, now), b, now) == Loaded(m, b, now)
  {
  }

  /** Saving a record over one just loaded leaves what saving it alone would. */
  lemma SaveAfterTouch(m: map<Id, Account>, id: Id, now: int, a: Account)
    ensures Touched(m, id, now)[id := a] == m[id := a]
  {
  }

  datatype Rgb = Rgb(r: int, g: int, b: int)

  /** A rank: the role it grants, its price and an optional description. */
  datatype Rank = Rank(roleId: Id, cost: int, description: Option<string>)

  /** A guild's settings record. */
  datatype Settings = Settings(
    prefix: char,
    colorTheme: Rgb,
    guildId: Id,
    managerRoles: seq<Id>,
    managerUsers: seq<Id>,
    ranks: seq<Rank>,
    minimumRoles: seq<Id>,
    dailyPayout: int,
    propaganda: seq<string>)

  /** The settings created for a guild that has none yet: no managers, no
      ranks, no gate, daily payouts off, the configured colour. */
  function DefaultSettings(guildId: Id, color: Rgb): Settings {
    Settings('!', color, guildId, [], [], [], [], 0, [])
  }

  function LoadedSettings(m: map<Id, Settings>, guildId: Id, color: Rgb): Settings {
    if guildId in m then m[guildId] else DefaultSettings(guildId, color)
  }

  /** The account files and the guild settings files. */
  class Store {
    var accounts: map<Id, Account>
    var guilds: map<Id, Settings>
    /** The embed colour from the bot's configuration, used for new guilds. */
    const defaultColor: Rgb

    ghost predicate Valid()
      reads this
    {
      && KeyedById(accounts)
      && (forall g | g in guilds :: guilds[g].guildId == g)
    }

    constructor (color: Rgb)
      ensures Valid()
      ensures accounts == map[] && guilds == map[] && defaultColor == color
    {
      accounts := map[];
      guilds := map[];
      defaultColor := color;
    }

    /** Loads the record of `id`, creating and saving a new one when there is none. */
    method GetAccountFromId(id: Id, now: int) returns (a: Account)
      requires Valid()
      modifies this
      ensures Valid()
      ensures a == Loaded(old(accounts), id, now) && a.id == id
      ensures accounts == Touched(old(accounts), id, now) && guilds == old(guilds)
    {
      if id in accounts {
        a := accounts[id];
      } else {
        a := NewAccount(id, now);
      }
      accounts := accounts[id := a];
    }

    /** Overwrites the whole record filed under the account's id. */
    method UpdateAccount(a: Account)
      requires Valid()
      modifies this
      ensures Valid()
      ensures accounts == old(accounts)[a.id := a] && guilds == old(guilds)
    {
      accounts := accounts[a.id := a];
    }

    /** Loads a guild's settings, creating and saving defaults when there are none. */
    method LoadSettings(guildId: Id) returns (s: Settings)
      requires Valid()
      modifies this
      ensures Valid()
      ensures s == LoadedSettings(old(guilds), guildId, defaultColor) && s.guildId == guildId
      ensures guilds == old(guilds)[guildId := s] && accounts == old(accounts)
    {
      if guildId in guilds {
        s := guilds[guildId];
      } else {
        s := DefaultSettings(guildId, defaultColor);
      }
      guilds := guilds[guildId := s];
    }

    /** Overwrites the whole settings record of the guild it names. */
    method SaveSettings(s: Settings)
      requires Valid()
      modifies this
      ensures Valid()
      ensures guilds == old(guilds)[s.guildId := s] && accounts == old(accounts)
    {
      guilds := guilds[s.guildId := s];
    }
  }
}
