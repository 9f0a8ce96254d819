/**
 * The crab game of bot.py. CrabData holds two dictionaries, guilds_data
 * (spawn channel, enabled flag, frequency) and users_data (crabs caught,
 * crab coins, inventory, level, xp). The appearance loop posts a crab with
 * a CrabView button into every configured guild; the first press on the
 * button wins the crab. Slash commands buy items and read the records;
 * get_uptime formats the time since connecting.
 */
module CrabBot {
  import opened Options
  import opened Text
  import opened OrderedDict
  import Ranking
  import Tally
  import Progression
  import Shop

  /** xp needed per level: the bar of a level-n user holds n * 10. */
  const XpPerLevel: nat := 10

  const BoardSize: nat := 10

  /** The frequency /setup records, in minutes. The appearance loop never reads it. */
  const CrabFrequency: int := 10

  /** The shop, keyed by lower-case item name. */
  const Prices: map<string, nat> :=
    map["rare crab" := 50, "crab house" := 100, "golden net" := 200, "crab crown" := 500, "crystal crab" := 1000]

  // ---------------------------------------------------------------- users

  datatype CrabUser = CrabUser(crabsCaught: int, crabCoins: int, inventory: seq<string>, level: int, xp: int)

  const NewCrabUser: CrabUser := CrabUser(0, 0, [], 1, 0)

  /** What every operation keeps true of a user record. */
  ghost predicate WellFormed(u: CrabUser) {
    u.crabsCaught >= 0 && u.crabCoins >= 0 && Progression.InRange(u.level, u.xp, XpPerLevel)
  }

  ghost predicate AllWellFormed(users: Dict<CrabUser>) {
    forall id :: id in users.values ==> WellFormed(users.values[id])
  }

  lemma PutKeepsWellFormed(users: Dict<CrabUser>, id: string, u: CrabUser)
    requires Valid(users) && AllWellFormed(users) && WellFormed(u)
    ensures AllWellFormed(Put(users, id, u))
  {
  }

  /** The stored record, or the defaults a lazily created one starts from. */
  function CrabUserOf(users: Dict<CrabUser>, id: string): CrabUser {
    if id in users.values then users.values[id] else NewCrabUser
  }

  /** users_data after the `if user_id not in users_data` initialisation. */
  function WithCrabUser(users: Dict<CrabUser>, id: string): Dict<CrabUser>
    requires Valid(users)
  {
    if id in users.values then users else Put(users, id, NewCrabUser)
  }

  /**
   * Lazy creation: an unknown id gets {crabs_caught: 0, crab_coins: 0,
   * inventory: [], level: 1, xp: 0} appended at the end; a known id leaves
   * the dictionary as it was; no other record changes.
   */
  lemma CrabUserIsLazy(users: Dict<CrabUser>, id: string)
    requires Valid(users)
    ensures var after := WithCrabUser(users, id);
      && Valid(after)
      && id in after.values && after.values[id] == CrabUserOf(users, id)
      && (id !in users.values ==> after.values[id] == NewCrabUser && after.keys == users.keys + [id])
      && (id in users.values ==> after == users)
      && (forall other :: other in users.values ==> other in after.values && after.values[other] == users.values[other])
      && (AllWellFormed(users) ==> AllWellFormed(after))
  {
  }

  function CaughtOf(u: CrabUser): int {
    u.crabsCaught
  }

  /** The reward of one catch: c crab coins, x xp and one crab, then the level check at level * 10. */
  function CrabRewarded(u: CrabUser, coins: nat, xp: nat): CrabUser {
    var (level, x) := Progression.LevelUp(u.level, u.xp + xp, XpPerLevel);
    u.(crabCoins := u.crabCoins + coins, crabsCaught := u.crabsCaught + 1, level := level, xp := x)
  }

  /**
   * A catch adds exactly the drawn coins (5 to 15) and one crab, and the
   * drawn xp (1 to 3); reaching level * 10 gives one level and resets xp
   * to 0, otherwise level and xp stay as added. The inventory is
   * untouched and a well-formed record stays well-formed.
   */
  lemma CrabRewardRule(u: CrabUser, coins: nat, xp: nat)
    requires WellFormed(u) && 5 <= coins <= 15 && 1 <= xp <= 3
    ensures var r := CrabRewarded(u, coins, xp);
      && WellFormed(r)
      && r.crabCoins == u.crabCoins + coins && r.crabsCaught == u.crabsCaught + 1
      && r.inventory == u.inventory
      && (u.xp + xp >= u.level * XpPerLevel ==> r.level == u.level + 1 && r.xp == 0)
      && (u.xp + xp < u.level * XpPerLevel ==> r.level == u.level && r.xp == u.xp + xp)
  {
    Progression.GainKeepsInRange(u.level, u.xp, xp, XpPerLevel);
  }

  // ---------------------------------------------------------- catch button

  /** One press of a crab's button: who pressed it and the two reward draws. */
  datatype Press = Press(userId: string, coins: nat, xp: nat)

  predicate PressFits(p: Press) {
    5 <= p.coins <= 15 && 1 <= p.xp <= 3
  }

  datatype PressReply = AlreadyCaught | CaughtCrab(user: CrabUser, coins: nat, xp: nat)

  /** catch_crab on a view whose flag is caught: the new flag, the new users_data and the reply. */
  function Pressed(caught: bool, users: Dict<CrabUser>, p: Press): (bool, Dict<CrabUser>, PressReply)
    requires Valid(users)
  {
    if caught then (true, users, AlreadyCaught)
    else
      var u := CrabRewarded(CrabUserOf(users, p.userId), p.coins, p.xp);
      (true, Put(users, p.userId, u), CaughtCrab(u, p.coins, p.xp))
  }

  /**
   * A press on a caught crab is refused and reads and changes nothing. The
   * first press sets the flag, creates the presser's record if needed and
   * rewards it, adds exactly one to the crabs caught over all users, and
   * leaves every other record alone.
   */
  lemma PressRule(caught: bool, users: Dict<CrabUser>, p: Press)
    requires Valid(users) && AllWellFormed(users) && PressFits(p)
    ensures var (caught', users', reply) := Pressed(caught, users, p);
      && caught' && Valid(users') && AllWellFormed(users')
      && (caught ==> reply == AlreadyCaught && users' == users)
      && (!caught ==>
            && reply.CaughtCrab?
            && p.userId in users'.values
            && users'.values[p.userId] == CrabRewarded(CrabUserOf(users, p.userId), p.coins, p.xp)
            && (forall id :: id in users.values && id != p.userId ==> id in users'.values && users'.values[id] == users.values[id])
            && Total(users', CaughtOf) == Total(users, CaughtOf) + 1)
  {
    if !caught {
      var u := CrabRewarded(CrabUserOf(users, p.userId), p.coins, p.xp);
      CrabRewardRule(CrabUserOf(users, p.userId), p.coins, p.xp);
      PutKeepsWellFormed(users, p.userId, u);
      TotalAfterPut(users, p.userId, u, CaughtOf);
    }
  }

  /** The state after a run of presses on one view, with every reply. */
  function PressAll(caught: bool, users: Dict<CrabUser>, ps: seq<Press>): (r: (bool, Dict<CrabUser>, seq<PressReply>))
    requires Valid(users)
    ensures Valid(r.1) && |r.2| == |ps|
  {
    if ps == [] then (caught, users, [])
    else
      var (c, u, replies) := PressAll(caught, users, ps[..|ps| - 1]);
      var (c', u', reply) := Pressed(c, u, ps[|ps| - 1]);
      (c', u', replies + [reply])
  }

  /**
   * Single winner: however many presses a fresh crab receives, only the
   * first is rewarded, every later one is told the crab was already
   * caught, and the crabs caught over all users go up by exactly one.
   */
  lemma {:induction false} OneWinnerPerCrab(users: Dict<CrabUser>, ps: seq<Press>)
    requires Valid(users) && ps != []
    ensures var (caught, users', replies) := PressAll(false, users, ps);
      && caught
      && replies[0].CaughtCrab?
      && (forall i :: 1 <= i < |ps| ==> replies[i] == AlreadyCaught)
      && users' == Pressed(false, users, ps[0]).1
      && Total(users', CaughtOf) == Total(users, CaughtOf) + 1
  {
    var init := ps[..|ps| - 1];
    if |ps| == 1 {
      assert init == [];
      FirstPressCounts(users, ps[0]);
    } else {
      OneWinnerPerCrab(users, init);
      assert init[0] == ps[0];
      var (c, u, replies) := PressAll(false, users, init);
      assert PressAll(false, users, ps) == (true, u, replies + [AlreadyCaught]);
    }
  }

  /** The first press on a fresh crab is rewarded and adds one crab to the total. */
  lemma FirstPressCounts(users: Dict<CrabUser>, p: Press)
    requires Valid(users)
    ensures Pressed(false, users, p).2.CaughtCrab?
    ensures Total(Pressed(false, users, p).1, CaughtOf) == Total(users, CaughtOf) + 1
  {
    var u := CrabRewarded(CrabUserOf(users, p.userId), p.coins, p.xp);
    TotalAfterPut(users, p.userId, u, CaughtOf);
  }

  /** A crab posted by the appearance loop, with the button's state. */
  class CrabView {
    const crabId: string
    var caught: bool

    /** A new view: nobody has caught this crab yet. */
    constructor (crabId: string)
      ensures this.crabId == crabId && !caught
    {
      this.crabId := crabId;
      caught := false;
    }

    /** The button handler; coins and xp are the draws randint(5, 15) and randint(1, 3). */
    method CatchCrab(data: CrabData, userId: string, coins: nat, xp: nat) returns (reply: PressReply)
      requires data.Valid() && 5 <= coins <= 15 && 1 <= xp <= 3
      modifies this, data
      ensures data.Valid()
      ensures (caught, data.usersData, reply) == Pressed(old(caught), old(data.usersData), Press(userId, coins, xp))
      ensures data.guildsData == old(data.guildsData)
    {
      if caught {
        return AlreadyCaught;
      }
      caught := true;
      ghost var before := data.usersData;
      if userId !in data.usersData.values {
        data.usersData := Put(data.usersData, userId, NewCrabUser);
      }
      var u := data.usersData.values[userId];
      CrabRewardRule(u, coins, xp);
      u := u.(crabCoins := u.crabCoins + coins, xp := u.xp + xp, crabsCaught := u.crabsCaught + 1);
      if u.xp >= u.level * XpPerLevel {
        u := u.(level := u.level + 1, xp := 0);
      }
      assert u == CrabRewarded(CrabUserOf(before, userId), coins, xp);
      PutTwice(before, userId, NewCrabUser, u);
      PutKeepsWellFormed(before, userId, u);
      data.usersData := Put(data.usersData, userId, u);
      assert data.usersData == Put(before, userId, u);
      reply := CaughtCrab(u, coins, xp);
    }
  }

  // --------------------------------------------------------------- guilds

  datatype Guild = Guild(crabChannel: Option<int>, enabled: Option<bool>, crabFrequency: Option<int>)

  /** The empty dictionary /setup creates for a new guild. */
  const NewGuild: Guild := Guild(None, None, None)

  function GuildOf(guilds: Dict<Guild>, id: string): Guild {
    if id in guilds.values then guilds.values[id] else NewGuild
  }

  /** guilds_data after /setup in guildId with the given channel. */
  function Configured(guilds: Dict<Guild>, guildId: string, channelId: int): Dict<Guild>
    requires Valid(guilds)
  {
    Put(guilds, guildId, GuildOf(guilds, guildId).(crabChannel := Some(channelId), enabled := Some(true), crabFrequency := Some(CrabFrequency)))
  }

  /** The appearance loop skips a guild unless `enabled` is true and `crab_channel` is truthy (present and not 0). */
  predicate Eligible(g: Guild) {
    g.enabled == Some(true) && g.crabChannel.Some? && g.crabChannel.value != 0
  }

  predicate EligibleEntry(e: (string, Guild)) {
    Eligible(e.1)
  }

  /** The guilds the appearance loop posts to, in dictionary order. */
  function AppearanceGuilds(guilds: Dict<Guild>): seq<(string, Guild)>
    requires Valid(guilds)
  {
    Ranking.Filter(Entries(guilds), EligibleEntry)
  }

  /** The appearance loop visits a stored guild exactly when it is enabled with a channel set, and visits nothing else. */
  lemma AppearanceVisits(guilds: Dict<Guild>)
    requires Valid(guilds)
    ensures forall id :: id in guilds.values ==> ((id, guilds.values[id]) in AppearanceGuilds(guilds) <==> Eligible(guilds.values[id]))
    ensures forall i :: 0 <= i < |AppearanceGuilds(guilds)| ==>
      var e := AppearanceGuilds(guilds)[i];
      Eligible(e.1) && e.0 in guilds.values && guilds.values[e.0] == e.1
  {
    forall id | id in guilds.values && Eligible(guilds.values[id]) ensures (id, guilds.values[id]) in AppearanceGuilds(guilds) {
      InEntries(guilds, (id, guilds.values[id]));
    }
    forall i | 0 <= i < |AppearanceGuilds(guilds)| ensures AppearanceGuilds(guilds)[i].0 in guilds.values && guilds.values[AppearanceGuilds(guilds)[i].0] == AppearanceGuilds(guilds)[i].1 {
      InEntries(guilds, AppearanceGuilds(guilds)[i]);
    }
  }

  /**
   * /setup creates the guild's entry if absent (at the end), sets its
   * channel, enables it and records frequency 10, and leaves every other
   * guild alone; the appearance loop then posts to it (Discord channel ids
   * are never 0).
   */
  lemma SetupEnablesAppearances(guilds: Dict<Guild>, guildId: string, channelId: int)
    requires Valid(guilds) && channelId != 0
    ensures var after := Configured(guilds, guildId, channelId);
      && Valid(after)
      && after.values[guildId] == Guild(Some(channelId), Some(true), Some(CrabFrequency))
      && (guildId !in guilds.values ==> after.keys == guilds.keys + [guildId])
      && (guildId in guilds.values ==> after.keys == guilds.keys)
      && (forall id :: id in guilds.values && id != guildId ==> after.values[id] == guilds.values[id])
      && (guildId, after.values[guildId]) in AppearanceGuilds(after)
  {
    var after := Configured(guilds, guildId, channelId);
    InEntries(after, (guildId, after.values[guildId]));
    var entries := Entries(after);
    var i :| 0 <= i < |entries| && entries[i] == (guildId, after.values[guildId]);
  }

  // ------------------------------------------------------------ read views

  predicate HasCaught(e: (string, CrabUser)) {
    e.1.crabsCaught > 0
  }

  function EntryCaught(e: (string, CrabUser)): int {
    e.1.crabsCaught
  }

  /** The users with at least one crab, sorted by crabs caught (stable, descending), first 10. */
  function Leaderboard(users: Dict<CrabUser>): seq<(string, CrabUser)>
    requires Valid(users)
  {
    Ranking.Top(Ranking.Filter(Entries(users), HasCaught), EntryCaught, BoardSize)
  }

  /** Every entry of the leaderboard is a user with crabs, shown with their own record. */
  lemma BoardEntriesAreUsers(users: Dict<CrabUser>)
    requires Valid(users)
    ensures var board := Leaderboard(users);
      forall i :: 0 <= i < |board| ==>
        board[i].1.crabsCaught > 0 && board[i].0 in users.values && board[i].1 == users.values[board[i].0]
  {
    var candidates := Ranking.Filter(Entries(users), HasCaught);
    var board := Leaderboard(users);
    Ranking.TopDrawnFrom(candidates, EntryCaught, BoardSize);
    forall i | 0 <= i < |board|
      ensures board[i].1.crabsCaught > 0 && board[i].0 in users.values && board[i].1 == users.values[board[i].0]
    {
      var k :| 0 <= k < |candidates| && candidates[k] == board[i];
      InEntries(users, board[i]);
    }
  }

  /** A user with crabs is a leaderboard candidate. */
  lemma IsCandidate(users: Dict<CrabUser>, id: string)
    requires Valid(users) && id in users.values && users.values[id].crabsCaught > 0
    ensures (id, users.values[id]) in Ranking.Filter(Entries(users), HasCaught)
  {
    var entries := Entries(users);
    var e := (id, users.values[id]);
    InEntries(users, e);
    var k :| 0 <= k < |entries| && entries[k] == e;
    assert HasCaught(entries[k]);
  }

  /** A user with crabs missing from the leaderboard means the board is full. */
  lemma LeftOffMeansFull(users: Dict<CrabUser>, id: string)
    requires Valid(users) && id in users.values && users.values[id].crabsCaught > 0
    requires forall i :: 0 <= i < |Leaderboard(users)| ==> Leaderboard(users)[i].0 != id
    ensures |Leaderboard(users)| == BoardSize
  {
    var candidates := Ranking.Filter(Entries(users), HasCaught);
    Ranking.TopShape(candidates, EntryCaught, BoardSize);
    Ranking.ShortTopHoldsAll(candidates, EntryCaught, BoardSize);
    IsCandidate(users, id);
    assert (id, users.values[id]) !in Leaderboard(users);
  }

  /** A user with crabs missing from the leaderboard ranks no higher than anyone on it. */
  lemma LeftOffRanksLower(users: Dict<CrabUser>, id: string)
    requires Valid(users) && id in users.values && users.values[id].crabsCaught > 0
    requires forall i :: 0 <= i < |Leaderboard(users)| ==> Leaderboard(users)[i].0 != id
    ensures forall i :: 0 <= i < |Leaderboard(users)| ==> Leaderboard(users)[i].1.crabsCaught >= users.values[id].crabsCaught
  {
    var e := (id, users.values[id]);
    IsCandidate(users, id);
    assert e !in Leaderboard(users);
    Ranking.LeftOutRanksLower(Ranking.Filter(Entries(users), HasCaught), EntryCaught, BoardSize, e);
  }

  /**
   * The leaderboard lists at most 10 users, only users with crabs caught
   * above 0 and with their own records, in non-increasing order of crabs
   * caught; a user with crabs who is left off ranks no higher than anyone
   * listed, and with fewer than 10 listed nobody with crabs is left off.
   */
  lemma LeaderboardRule(users: Dict<CrabUser>)
    requires Valid(users)
    ensures var board := Leaderboard(users);
      && |board| <= BoardSize
      && (forall i, j :: 0 <= i < j < |board| ==> board[i].1.crabsCaught >= board[j].1.crabsCaught)
      && (forall i :: 0 <= i < |board| ==> board[i].1.crabsCaught > 0 && board[i].0 in users.values && board[i].1 == users.values[board[i].0])
      && (forall id :: id in users.values && users.values[id].crabsCaught > 0 && (forall i :: 0 <= i < |board| ==> board[i].0 != id) ==>
            && |board| == BoardSize
            && forall i :: 0 <= i < |board| ==> board[i].1.crabsCaught >= users.values[id].crabsCaught)
  {
    var board := Leaderboard(users);
    Ranking.TopShape(Ranking.Filter(Entries(users), HasCaught), EntryCaught, BoardSize);
    BoardEntriesAreUsers(users);
    forall id | id in users.values && users.values[id].crabsCaught > 0 && (forall i :: 0 <= i < |board| ==> board[i].0 != id)
      ensures |board| == BoardSize
      ensures forall i :: 0 <= i < |board| ==> board[i].1.crabsCaught >= users.values[id].crabsCaught
    {
      LeftOffMeansFull(users, id);
      LeftOffRanksLower(users, id);
    }
  }

  // ---------------------------------------------------------- command replies

  datatype BuyReply = NoCrabsYet | NoSuchItem | NeedCoins(price: nat, have: int) | Purchased(item: string, price: nat, remaining: int)

  datatype InventoryReply = EmptyInventory | ItemCounts(counts: Dict<nat>)

  /** What /profile shows besides names, colours and the random rank. */
  datatype ProfileView = ProfileView(level: int, xp: int, xpNeeded: int, crabsCaught: int, crabCoins: int, items: nat)

  function ProfileOf(u: CrabUser): ProfileView {
    ProfileView(u.level, u.xp, u.level * XpPerLevel, u.crabsCaught, u.crabCoins, |u.inventory|)
  }

  /** The two dictionaries of the bot. */
  class CrabData {
    var guildsData: Dict<Guild>
    var usersData: Dict<CrabUser>

    ghost predicate Valid()
      reads this
    {
      OrderedDict.Valid(guildsData) && OrderedDict.Valid(usersData) && AllWellFormed(usersData)
    }

    /** The state when no data files exist yet: load_data falls back to empty dictionaries. */
    constructor ()
      ensures Valid()
      ensures guildsData == Empty() && usersData == Empty()
    {
      guildsData, usersData := Empty(), Empty();
    }

    /** /setup; no permission is checked. */
    method Setup(guildId: string, channelId: int)
      requires Valid()
      modifies this
      ensures Valid()
      ensures guildsData == Configured(old(guildsData), guildId, channelId)
      ensures usersData == old(usersData)
    {
      ghost var before := guildsData;
      if guildId !in guildsData.values {
        guildsData := Put(guildsData, guildId, NewGuild);
      }
      var g := guildsData.values[guildId];
      g := g.(crabChannel := Some(channelId));
      g := g.(enabled := Some(true));
      g := g.(crabFrequency := Some(CrabFrequency));
      PutTwice(before, guildId, NewGuild, g);
      guildsData := Put(guildsData, guildId, g);
    }

    /** /profile for memberId (the caller when no member is given). */
    method Profile(memberId: string) returns (view: ProfileView)
      requires Valid()
      modifies this
      ensures Valid()
      ensures usersData == WithCrabUser(old(usersData), memberId)
      ensures view == ProfileOf(CrabUserOf(old(usersData), memberId))
      ensures 0 <= view.xp < view.xpNeeded
      ensures guildsData == old(guildsData)
    {
      CrabUserIsLazy(usersData, memberId);
      if memberId !in usersData.values {
        usersData := Put(usersData, memberId, NewCrabUser);
      }
      var u := usersData.values[memberId];
      view := ProfileView(u.level, u.xp, u.level * XpPerLevel, u.crabsCaught, u.crabCoins, |u.inventory|);
    }

    /** /buy: unlike the other commands it never creates a record. */
    method Buy(userId: string, item: string) returns (reply: BuyReply)
      requires Valid()
      modifies this
      ensures Valid()
      ensures guildsData == old(guildsData)
      ensures userId !in old(usersData).values ==> reply == NoCrabsYet && usersData == old(usersData)
      ensures userId in old(usersData).values ==>
        var u := old(usersData).values[userId];
        var (outcome, purse) := Shop.Purchase(Shop.Purse(u.crabCoins, u.inventory), item, Prices);
        && reply == (match outcome
                     case UnknownItem => NoSuchItem
                     case NotEnoughCoins(price) => NeedCoins(price, u.crabCoins)
                     case Bought(price) => Purchased(item, price, purse.coins))
        && usersData == if outcome.Bought? then Put(old(usersData), userId, u.(crabCoins := purse.coins, inventory := purse.inventory))
                        else old(usersData)
    {
      if userId !in usersData.values {
        return NoCrabsYet;
      }
      var u := usersData.values[userId];
      Shop.PurchaseRule(Shop.Purse(u.crabCoins, u.inventory), item, Prices);
      var itemLower := Lower(item);
      if itemLower !in Prices {
        return NoSuchItem;
      }
      var price := Prices[itemLower];
      if u.crabCoins < price {
        return NeedCoins(price, u.crabCoins);
      }
      u := u.(crabCoins := u.crabCoins - price);
      u := u.(inventory := u.inventory + [item]);
      usersData := Put(usersData, userId, u);
      reply := Purchased(item, price, u.crabCoins);
    }

    /** /inventory; reads the records without creating one. */
    method Inventory(userId: string) returns (reply: InventoryReply)
      requires Valid()
      ensures userId !in usersData.values || usersData.values[userId].inventory == [] <==> reply == EmptyInventory
      ensures reply.ItemCounts? ==>
        var items := usersData.values[userId].inventory;
        && OrderedDict.Valid(reply.counts)
        && reply.counts.keys == Tally.Dedup(items)
        && (forall x :: x in reply.counts.values ==> reply.counts.values[x] == multiset(items)[x] >= 1)
        && Total(reply.counts, Tally.AsInt) == |items|
    {
      if userId !in usersData.values || |usersData.values[userId].inventory| == 0 {
        return EmptyInventory;
      }
      var counts := Tally.CountItems(usersData.values[userId].inventory);
      reply := ItemCounts(counts);
    }
  }

  // ---------------------------------------------------------------- uptime

  datatype Duration = Duration(days: nat, hours: nat, minutes: nat, seconds: nat)

  /** The divmod chain of get_uptime on the whole seconds elapsed. */
  function UptimeParts(total: nat): (d: Duration)
    ensures d.days * 86400 + d.hours * 3600 + d.minutes * 60 + d.seconds == total
    ensures d.hours < 24 && d.minutes < 60 && d.seconds < 60
  {
    var hours := total / 3600;
    var remainder := total % 3600;
    var minutes := remainder / 60;
    var seconds := remainder % 60;
    Duration(hours / 24, hours % 24, minutes, seconds)
  }

  /** The split is the only one with those bounds. */
  lemma UptimePartsUnique(total: nat, d: Duration)
    requires d.days * 86400 + d.hours * 3600 + d.minutes * 60 + d.seconds == total
    requires d.hours < 24 && d.minutes < 60 && d.seconds < 60
    ensures d == UptimeParts(total)
  {
    var a := d.minutes * 60 + d.seconds;
    var hd := d.days * 24 + d.hours;
    assert total == hd * 3600 + a;
    assert total / 3600 == hd && total % 3600 == a;
    assert hd / 24 == d.days && hd % 24 == d.hours;
    assert a / 60 == d.minutes && a % 60 == d.seconds;
  }

  /** A number followed by its unit letter. */
  function Field(n: nat, unit: char): string {
    NatToString(n) + [unit]
  }

  /** get_uptime's text: days only when there are some, hours only with days or hours. */
  function Uptime(total: nat): string {
    var d := UptimeParts(total);
    if d.days > 0 then Field(d.days, 'd') + " " + Field(d.hours, 'h') + " " + Field(d.minutes, 'm') + " " + Field(d.seconds, 's')
    else if d.hours > 0 then Field(d.hours, 'h') + " " + Field(d.minutes, 'm') + " " + Field(d.seconds, 's')
    else Field(d.minutes, 'm') + " " + Field(d.seconds, 's')
  }

  /** Fields separated by single spaces. */
  function JoinFields(fs: seq<(nat, char)>): string {
    if fs == [] then []
    else if |fs| == 1 then Field(fs[0].0, fs[0].1)
    else Field(fs[0].0, fs[0].1) + (" " + JoinFields(fs[1..]))
  }

  /** Reads space-separated fields back. */
  function ParseFields(s: string): Option<seq<(nat, char)>>
    decreases |s|
  {
    var k := DigitPrefixLength(s);
    if k == 0 || k == |s| then None
    else
      var field := (DigitsValue(s[..k]), s[k]);
      var rest := s[k + 1..];
      if rest == [] then Some([field])
      else if rest[0] != ' ' then None
      else match ParseFields(rest[1..])
        case None => None
        case Some(fs) => Some([field] + fs)
  }

  /** The seconds a list of fields stands for, when its units are d h m s, h m s or m s. */
  function FieldsValue(fs: seq<(nat, char)>): Option<nat> {
    if |fs| == 4 && fs[0].1 == 'd' && fs[1].1 == 'h' && fs[2].1 == 'm' && fs[3].1 == 's' then
      Some(fs[0].0 * 86400 + fs[1].0 * 3600 + fs[2].0 * 60 + fs[3].0)
    else if |fs| == 3 && fs[0].1 == 'h' && fs[1].1 == 'm' && fs[2].1 == 's' then
      Some(fs[0].0 * 3600 + fs[1].0 * 60 + fs[2].0)
    else if |fs| == 2 && fs[0].1 == 'm' && fs[1].1 == 's' then
      Some(fs[0].0 * 60 + fs[1].0)
    else None
  }

  /** Reads an uptime text back into seconds. */
  function DecodeUptime(s: string): Option<nat> {
    match ParseFields(s)
    case None => None
    case Some(fs) => FieldsValue(fs)
  }

  /** The fields get_uptime shows for total seconds. */
  function UptimeFields(total: nat): seq<(nat, char)> {
    var d := UptimeParts(total);
    if d.days > 0 then [(d.days, 'd'), (d.hours, 'h'), (d.minutes, 'm'), (d.seconds, 's')]
    else if d.hours > 0 then [(d.hours, 'h'), (d.minutes, 'm'), (d.seconds, 's')]
    else [(d.minutes, 'm'), (d.seconds, 's')]
  }

  lemma UptimeFieldsValue(total: nat)
    ensures FieldsValue(UptimeFields(total)) == Some(total)
  {
    var d := UptimeParts(total);
    if d.days > 0 {
      assert FieldsValue(UptimeFields(total)) == Some(d.days * 86400 + d.hours * 3600 + d.minutes * 60 + d.seconds);
    } else if d.hours > 0 {
      assert FieldsValue(UptimeFields(total)) == Some(d.hours * 3600 + d.minutes * 60 + d.seconds);
    } else {
      assert FieldsValue(UptimeFields(total)) == Some(d.minutes * 60 + d.seconds);
    }
  }

  /** How the parser splits a number and its unit letter off the front of a text. */
  lemma FieldSplits(n: nat, unit: char, tail: string)
    requires !IsDigit(unit)
    ensures var s := Field(n, unit) + tail;
      var k := DigitPrefixLength(s);
      && k == |NatToString(n)| && 0 < k < |s|
      && DigitsValue(s[..k]) == n && s[k] == unit && s[k + 1..] == tail
  {
    var digits := NatToString(n);
    var s := Field(n, unit) + tail;
    assert s == digits + ([unit] + tail);
    DigitPrefixOfDigits(digits, [unit] + tail);
    DigitsValueOfNatToString(n);
    assert s[..|digits|] == digits;
  }

  /** A single field parses to itself. */
  lemma ParseOneField(n: nat, unit: char)
    requires !IsDigit(unit)
    ensures ParseFields(Field(n, unit)) == Some([(n, unit)])
  {
    FieldSplits(n, unit, []);
    assert Field(n, unit) + [] == Field(n, unit);
  }

  /** A field, a space and more fields parse to the field followed by the rest's fields. */
  lemma ParseFieldThenMore(n: nat, unit: char, more: string, fs: seq<(nat, char)>)
    requires !IsDigit(unit) && ParseFields(more) == Some(fs)
    ensures ParseFields(Field(n, unit) + (" " + more)) == Some([(n, unit)] + fs)
  {
    FieldSplits(n, unit, " " + more);
    assert (" " + more)[1..] == more;
  }

  /** Joined fields with letter units parse back to themselves. */
  lemma {:induction false} ParseJoin(fs: seq<(nat, char)>)
    requires fs != []
    requires forall i :: 0 <= i < |fs| ==> !IsDigit(fs[i].1)
    ensures ParseFields(JoinFields(fs)) == Some(fs)
  {
    if |fs| == 1 {
      ParseOneField(fs[0].0, fs[0].1);
      assert [(fs[0].0, fs[0].1)] == fs;
    } else {
      ParseJoin(fs[1..]);
      ParseFieldThenMore(fs[0].0, fs[0].1, JoinFields(fs[1..]), fs[1..]);
      assert [(fs[0].0, fs[0].1)] + fs[1..] == fs;
    }
  }

  /** Two, three and four fields joined by spaces, written out. */
  lemma JoinSmall(a: (nat, char), b: (nat, char), c: (nat, char), e: (nat, char))
    ensures JoinFields([a, b]) == Field(a.0, a.1) + " " + Field(b.0, b.1)
    ensures JoinFields([a, b, c]) == Field(a.0, a.1) + " " + Field(b.0, b.1) + " " + Field(c.0, c.1)
    ensures JoinFields([a, b, c, e]) == Field(a.0, a.1) + " " + Field(b.0, b.1) + " " + Field(c.0, c.1) + " " + Field(e.0, e.1)
  {
    var fa, fb, fc, fe := Field(a.0, a.1), Field(b.0, b.1), Field(c.0, c.1), Field(e.0, e.1);
    assert [a, b][1..] == [b];
    assert [a, b, c][1..] == [b, c];
    assert [a, b, c, e][1..] == [b, c, e];
    assert [b, c][1..] == [c] && [b, c, e][1..] == [c, e] && [c, e][1..] == [e];
    assert JoinFields([c, e]) == fc + (" " + fe);
    assert JoinFields([b, c]) == fb + (" " + fc);
    assert JoinFields([b, c, e]) == fb + (" " + (fc + (" " + fe)));
    assert fa + (" " + fb) == fa + " " + fb;
    assert fa + (" " + (fb + (" " + fc))) == fa + " " + fb + " " + fc;
    assert fa + (" " + (fb + (" " + (fc + (" " + fe))))) == fa + " " + fb + " " + fc + " " + fe;
  }

  lemma UptimeIsJoin(total: nat)
    ensures Uptime(total) == JoinFields(UptimeFields(total))
  {
    var d := UptimeParts(total);
    JoinSmall((d.days, 'd'), (d.hours, 'h'), (d.minutes, 'm'), (d.seconds, 's'));
    JoinSmall((d.hours, 'h'), (d.minutes, 'm'), (d.seconds, 's'), (0, 's'));
    JoinSmall((d.minutes, 'm'), (d.seconds, 's'), (0, 's'), (0, 's'));
  }

  /** The text get_uptime shows can be read back into exactly the seconds elapsed. */
  lemma UptimeRoundTrip(total: nat)
    ensures DecodeUptime(Uptime(total)) == Some(total)
  {
    var fs := UptimeFields(total);
    UptimeIsJoin(total);
    ParseJoin(fs);
    UptimeFieldsValue(total);
  }

  /** Different uptimes are shown differently. */
  lemma UptimeInjective(t1: nat, t2: nat)
    requires Uptime(t1) == Uptime(t2)
    ensures t1 == t2
  {
    UptimeRoundTrip(t1);
    UptimeRoundTrip(t2);
  }

  lemma LetterNotInNumber(n: nat, c: char)
    requires !IsDigit(c)
    ensures c !in NatToString(n)
  {
    var s := NatToString(n);
    forall i | 0 <= i < |s| ensures s[i] != c {
      assert IsDigit(s[i]);
    }
  }

  /** The days part appears exactly from one day on, the hours part exactly from one hour on. */
  lemma UptimeShowsUnits(total: nat)
    ensures ('d' in Uptime(total)) <==> total >= 86400
    ensures ('h' in Uptime(total)) <==> total >= 3600
  {
    var d := UptimeParts(total);
    LetterNotInNumber(d.days, 'd');
    LetterNotInNumber(d.hours, 'd');
    LetterNotInNumber(d.minutes, 'd');
    LetterNotInNumber(d.seconds, 'd');
    LetterNotInNumber(d.hours, 'h');
    LetterNotInNumber(d.minutes, 'h');
    LetterNotInNumber(d.seconds, 'h');
    assert d.days > 0 <==> total >= 86400;
    assert d.days > 0 || d.hours > 0 <==> total >= 3600;
    if d.days > 0 {
      assert Field(d.days, 'd')[|NatToString(d.days)|] == 'd';
      assert 'h' in Field(d.hours, 'h');
    } else if d.hours > 0 {
      assert 'h' in Field(d.hours, 'h');
    }
  }
}
