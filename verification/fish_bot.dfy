/**
 * The fish game of index.js. Three insertion-ordered tables are kept in
 * memory: users (coins, xp, level, catch count, per-type collection,
 * inventory), servers (spawn channel, enabled flag, prefix) and the spawn
 * registry activeFish. A timer spawns fish into configured channels; the
 * first "fish" message in a channel claims the oldest uncaught fish there
 * and pays its reward; slash commands buy items and read the tables.
 */
module FishBot {
  import opened Options
  import opened Text
  import opened OrderedDict
  import Ranking
  import Tally
  import Progression
  import Shop

  const DefaultPrefix: string := "f!"

  /** xp needed per level: the bar of a level-n user holds n * 100. */
  const XpPerLevel: nat := 100

  /** Size of the leaderboard. */
  const BoardSize: nat := 10

  datatype FishType = FishType(name: string, rarity: string, value: nat)

  const FishTypes: seq<FishType> := [
    FishType("Red Fish", "common", 10),
    FishType("Blue Fish", "uncommon", 15),
    FishType("Golden Fish", "rare", 25),
    FishType("Ghost Fish", "epic", 40),
    FishType("Crown Fish", "legendary", 75)
  ]

  /** The shop, keyed by lower-case item name. */
  const Prices: map<string, nat> := map["golden rod" := 100, "fish tank" := 200, "fish crown" := 500]

  // ---------------------------------------------------------------- users

  datatype User = User(coins: int, xp: int, level: int, total: int,
                       fishCollection: map<string, nat>, inventory: seq<string>)

  const NewUser: User := User(100, 0, 1, 0, map[], [])

  /** What every operation keeps true of a user record. */
  ghost predicate WellFormed(u: User) {
    && u.coins >= 0
    && u.total >= 0
    && Progression.InRange(u.level, u.xp, XpPerLevel)
    && (forall name :: name in u.fishCollection ==> u.fishCollection[name] >= 1)
  }

  ghost predicate AllWellFormed(users: Dict<User>) {
    forall id :: id in users.values ==> WellFormed(users.values[id])
  }

  lemma PutKeepsWellFormed(users: Dict<User>, id: string, u: User)
    requires Valid(users) && AllWellFormed(users) && WellFormed(u)
    ensures AllWellFormed(Put(users, id, u))
  {
  }

  /** The record getUser returns: the stored one, or a fresh default. */
  function UserOf(users: Dict<User>, id: string): User {
    if id in users.values then users.values[id] else NewUser
  }

  /** The users table after getUser(id). */
  function WithUser(users: Dict<User>, id: string): Dict<User>
    requires Valid(users)
  {
    if id in users.values then users else Put(users, id, NewUser)
  }

  /**
   * getUser creates a record lazily: an unknown id gets the defaults
   * {coins: 100, xp: 0, level: 1, total: 0, empty collection and
   * inventory} appended at the end of the table; a known id leaves the
   * table as it was. Either way the table then holds UserOf(users, id), no
   * other record changes, and a second call changes nothing.
   */
  lemma GetUserIsLazy(users: Dict<User>, id: string)
    requires Valid(users)
    ensures var after := WithUser(users, id);
      && Valid(after)
      && id in after.values && after.values[id] == UserOf(users, id)
      && (id !in users.values ==> after.values[id] == NewUser && after.keys == users.keys + [id])
      && (id in users.values ==> after == users)
      && (forall other :: other in users.values ==> other in after.values && after.values[other] == users.values[other])
      && WithUser(after, id) == after
      && (AllWellFormed(users) ==> AllWellFormed(after))
  {
  }

  function TotalOf(u: User): int {
    u.total
  }

  // -------------------------------------------------------------- servers

  datatype Server = Server(channel: Option<string>, enabled: bool, prefix: string)

  const NewServer: Server := Server(None, false, DefaultPrefix)

  function ServerOf(servers: Dict<Server>, id: string): Server {
    if id in servers.values then servers.values[id] else NewServer
  }

  /** The servers table after getServer(id). */
  function WithServer(servers: Dict<Server>, id: string): (r: Dict<Server>)
    requires Valid(servers)
    ensures Valid(r) && id in r.values && r.values[id] == ServerOf(servers, id)
  {
    if id in servers.values then servers else Put(servers, id, NewServer)
  }

  /**
   * getServer creates a record only for an unknown id, with the defaults
   * and its key last; a known id leaves the table as it is, no other server
   * changes, and a second call changes nothing.
   */
  lemma GetServerIsLazy(servers: Dict<Server>, id: string)
    requires Valid(servers)
    ensures var after := WithServer(servers, id);
      && (id !in servers.values ==> after.values[id] == NewServer && after.keys == servers.keys + [id])
      && (id in servers.values ==> after == servers)
      && (forall other :: other in servers.values ==> other in after.values && after.values[other] == servers.values[other])
      && (forall other :: other in after.values ==> other in servers.values || other == id)
      && WithServer(after, id) == after
  {
  }

  /** The spawn loop skips a server unless `enabled` is set and `channel` is truthy (neither null nor ""). */
  predicate Eligible(s: Server) {
    s.enabled && s.channel.Some? && s.channel.value != ""
  }

  /** The servers the spawn loop considers, in table order. */
  function EligibleServers(servers: Dict<Server>): seq<Server>
    requires Valid(servers)
  {
    Ranking.Filter(Values(servers), Eligible)
  }

  /** The spawn loop visits a stored server exactly when it is enabled and has a channel, and visits nothing else. */
  lemma SpawnLoopVisits(servers: Dict<Server>)
    requires Valid(servers)
    ensures forall id :: id in servers.values ==> (servers.values[id] in EligibleServers(servers) <==> Eligible(servers.values[id]))
    ensures forall i :: 0 <= i < |EligibleServers(servers)| ==>
      Eligible(EligibleServers(servers)[i]) && exists id :: id in servers.values && servers.values[id] == EligibleServers(servers)[i]
  {
    var vs := Values(servers);
    forall id | id in servers.values && Eligible(servers.values[id]) ensures servers.values[id] in EligibleServers(servers) {
      var j :| 0 <= j < |servers.keys| && servers.keys[j] == id;
      assert vs[j] == servers.values[id];
    }
    forall i | 0 <= i < |EligibleServers(servers)| ensures exists id :: id in servers.values && servers.values[id] == EligibleServers(servers)[i] {
      var j :| 0 <= j < |vs| && vs[j] == EligibleServers(servers)[i];
      assert servers.keys[j] in servers.values;
    }
  }

  /** /setup by an administrator: the guild's server points at channelId and is enabled. */
  function Configured(servers: Dict<Server>, guildId: string, channelId: string): Dict<Server>
    requires Valid(servers)
  {
    Put(servers, guildId, ServerOf(servers, guildId).(channel := Some(channelId), enabled := true))
  }

  /**
   * After /setup the guild's server keeps its prefix, targets the chosen
   * channel, and takes part in the next spawn loop; the spawn loop keeps
   * exactly the servers it kept before plus this one.
   */
  lemma SetupMakesEligible(servers: Dict<Server>, guildId: string, channelId: string)
    requires Valid(servers) && channelId != ""
    ensures var after := Configured(servers, guildId, channelId);
      && guildId in after.values
      && after.values[guildId] == Server(Some(channelId), true, ServerOf(servers, guildId).prefix)
      && after.values[guildId] in EligibleServers(after)
      && (forall id :: id in servers.values && id != guildId ==> after.values[id] == servers.values[id])
      && (forall id :: id in servers.values && id != guildId && Eligible(servers.values[id]) ==> servers.values[id] in EligibleServers(after))
  {
    var after := Configured(servers, guildId, channelId);
    var vals := Values(after);
    assert guildId in after.values && Valid(after);
    assert guildId in after.keys;
    var i :| 0 <= i < |after.keys| && after.keys[i] == guildId;
    assert vals[i] == after.values[guildId];
    forall id | id in servers.values && id != guildId && Eligible(servers.values[id])
      ensures servers.values[id] in EligibleServers(after)
    {
      assert id in after.values;
      var j :| 0 <= j < |after.keys| && after.keys[j] == id;
      assert vals[j] == servers.values[id];
    }
  }

  // ------------------------------------------------------- spawn registry

  datatype Fish = Fish(id: string, guildId: string, channelId: string, fishType: FishType,
                       image: string, spawnTime: nat, caught: bool, caughtBy: Option<string>)

  /**
   * The random and clock inputs of one spawnFish call: the Date.now()
   * reading that names the spawn, the one stored as spawnTime, and the
   * indices drawn into FISH_TYPES and into the image list.
   */
  datatype SpawnDraw = SpawnDraw(idTime: nat, spawnTime: nat, typeRoll: nat, imageRoll: nat)

  predicate DrawFits(d: SpawnDraw, images: seq<string>) {
    d.typeRoll < |FishTypes| && (images != [] ==> d.imageRoll < |images|)
  }

  /** `${guildId}_${Date.now()}`. */
  function SpawnKey(guildId: string, time: nat): string {
    guildId + "_" + NatToString(time)
  }

  /** In a spawn key the guild id is followed by the first underscore. */
  lemma UnderscoreEndsGuild(guildId: string, time: nat)
    requires '_' !in guildId
    ensures var k := SpawnKey(guildId, time);
      && |guildId| < |k| && k[|guildId|] == '_'
      && forall i :: 0 <= i < |guildId| ==> k[i] != '_'
  {
  }

  /**
   * A spawn key gives back its guild and clock reading: guild ids are
   * Discord snowflakes (digits only), so the first underscore marks where
   * the guild ends and the digits after it spell the time.
   */
  lemma SpawnKeyInjective(g1: string, t1: nat, g2: string, t2: nat)
    requires '_' !in g1 && '_' !in g2
    requires SpawnKey(g1, t1) == SpawnKey(g2, t2)
    ensures g1 == g2 && t1 == t2
  {
    var k := SpawnKey(g1, t1);
    UnderscoreEndsGuild(g1, t1);
    UnderscoreEndsGuild(g2, t2);
    assert |g1| == |g2|;
    assert g1 == k[..|g1|] == g2;
    assert NatToString(t1) == k[|g1| + 1..] == NatToString(t2);
    NatToStringInjective(t1, t2);
  }

  /** spawnFish: with no images nothing happens; otherwise one uncaught fish is stored under its spawn key and returned. */
  function Spawn(fish: Dict<Fish>, guildId: string, channelId: string, images: seq<string>, d: SpawnDraw): (Dict<Fish>, Option<Fish>)
    requires Valid(fish) && DrawFits(d, images)
  {
    if images == [] then (fish, None)
    else
      var id := SpawnKey(guildId, d.idTime);
      var f := Fish(id, guildId, channelId, FishTypes[d.typeRoll], images[d.imageRoll], d.spawnTime, false, None);
      (Put(fish, id, f), Some(f))
  }

  /**
   * A spawn with no images returns nothing and changes nothing. Otherwise
   * it stores exactly one entry, under its spawn key, for the given
   * channel, of one of the five types and with caught false; every other
   * entry is left as it was, and a new key is listed last.
   */
  lemma SpawnAddsOne(fish: Dict<Fish>, guildId: string, channelId: string, images: seq<string>, d: SpawnDraw)
    requires Valid(fish) && DrawFits(d, images)
    ensures var (after, spawned) := Spawn(fish, guildId, channelId, images, d);
      && Valid(after)
      && (images == [] <==> spawned.None?)
      && (images == [] ==> after == fish)
      && (images != [] ==>
            var id := SpawnKey(guildId, d.idTime);
            && spawned.value.id == id
            && id in after.values && after.values[id] == spawned.value
            && !spawned.value.caught && spawned.value.caughtBy.None?
            && spawned.value.channelId == channelId && spawned.value.guildId == guildId
            && spawned.value.fishType in FishTypes && spawned.value.image in images
            && after.values == fish.values[id := spawned.value]
            && (id !in fish.values ==> after.keys == fish.keys + [id]))
  {
  }

  /** The expiry callback: delete the entry only if it is still there and uncaught. */
  function Expire(fish: Dict<Fish>, id: string): Dict<Fish>
    requires Valid(fish)
  {
    if id in fish.values && !fish.values[id].caught then Remove(fish, id) else fish
  }

  /**
   * Expiry removes an uncaught fish and nothing else; it never removes a
   * caught one, which stays in the registry with caught true; an absent id
   * is a no-op; and firing twice is the same as firing once.
   */
  lemma ExpiryRule(fish: Dict<Fish>, id: string)
    requires Valid(fish)
    ensures var after := Expire(fish, id);
      && Valid(after)
      && (id in fish.values && !fish.values[id].caught ==> after.values == fish.values - {id})
      && (id in fish.values && fish.values[id].caught ==> after == fish && after.values[id].caught)
      && (id !in fish.values ==> after == fish)
      && Expire(after, id) == after
  {
  }

  predicate Catchable(f: Fish, channelId: string) {
    f.channelId == channelId && !f.caught
  }

  /** `.find(f => f.channelId === channel && !f.caught)` over the entries listed by keys: the position of the first match. */
  function FirstCatchable(keys: seq<string>, fish: map<string, Fish>, channelId: string): (r: Option<nat>)
    requires forall k :: k in keys ==> k in fish
    ensures r.Some? ==> r.value < |keys| && Catchable(fish[keys[r.value]], channelId)
    ensures r.Some? ==> forall j :: 0 <= j < r.value ==> !Catchable(fish[keys[j]], channelId)
    ensures r.None? ==> forall j :: 0 <= j < |keys| ==> !Catchable(fish[keys[j]], channelId)
  {
    if keys == [] then None
    else if Catchable(fish[keys[0]], channelId) then Some(0)
    else match FirstCatchable(keys[1..], fish, channelId)
      case None => None
      case Some(i) => Some(i + 1)
  }

  /** The fish a "fish" message in channelId claims: the oldest uncaught one there. */
  function FindFish(fish: Dict<Fish>, channelId: string): Option<string>
    requires Valid(fish)
  {
    match FirstCatchable(fish.keys, fish.values, channelId)
    case None => None
    case Some(i) => Some(fish.keys[i])
  }

  /** The registry after a claim in channelId by sender. */
  function AfterCatch(fish: Dict<Fish>, channelId: string, sender: string): Dict<Fish>
    requires Valid(fish)
  {
    match FindFish(fish, channelId)
    case None => fish
    case Some(id) => Put(fish, id, fish.values[id].(caught := true, caughtBy := Some(sender)))
  }

  /**
   * A claim with no uncaught fish in the channel changes nothing. Otherwise
   * it marks the first uncaught fish there (in spawn order) caught by the
   * sender and changes no other entry. Either way no fish already caught is
   * selected, and each entry's caught flag can only go from false to true.
   */
  lemma ClaimRule(fish: Dict<Fish>, channelId: string, sender: string)
    requires Valid(fish)
    ensures var after := AfterCatch(fish, channelId, sender);
      && Valid(after) && after.keys == fish.keys
      && (FindFish(fish, channelId).None? <==> forall id :: id in fish.values ==> !Catchable(fish.values[id], channelId))
      && (FindFish(fish, channelId).None? ==> after == fish)
      && (FindFish(fish, channelId).Some? ==>
            var id := FindFish(fish, channelId).value;
            && id in fish.values && Catchable(fish.values[id], channelId)
            && (forall j :: 0 <= j < |fish.keys| && fish.keys[j] == id ==>
                  forall i :: 0 <= i < j ==> !Catchable(fish.values[fish.keys[i]], channelId))
            && after.values == fish.values[id := fish.values[id].(caught := true, caughtBy := Some(sender))])
      && (forall id :: id in fish.values && fish.values[id].caught ==> after.values[id] == fish.values[id])
  {
    match FirstCatchable(fish.keys, fish.values, channelId)
    case None =>
      forall id | id in fish.values ensures !Catchable(fish.values[id], channelId) {
        var j :| 0 <= j < |fish.keys| && fish.keys[j] == id;
      }
    case Some(i) =>
      var id := fish.keys[i];
      forall j | 0 <= j < |fish.keys| && fish.keys[j] == id
        ensures forall i' :: 0 <= i' < j ==> !Catchable(fish.values[fish.keys[i']], channelId)
      {
        assert j == i;
      }
  }

  /** Events that change the spawn registry. */
  datatype RegistryEvent =
    | SpawnEvent(guildId: string, channelId: string, images: seq<string>, draw: SpawnDraw)
    | ExpiryEvent(id: string)
    | CatchEvent(channelId: string, sender: string)

  predicate EventFits(e: RegistryEvent) {
    e.SpawnEvent? ==> DrawFits(e.draw, e.images)
  }

  function Step(fish: Dict<Fish>, e: RegistryEvent): (r: Dict<Fish>)
    requires Valid(fish) && EventFits(e)
    ensures Valid(r)
  {
    match e
    case SpawnEvent(g, c, images, d) => Spawn(fish, g, c, images, d).0
    case ExpiryEvent(id) => Expire(fish, id)
    case CatchEvent(c, sender) => AfterCatch(fish, c, sender)
  }

  function Replay(fish: Dict<Fish>, events: seq<RegistryEvent>): (r: Dict<Fish>)
    requires Valid(fish) && forall i :: 0 <= i < |events| ==> EventFits(events[i])
    ensures Valid(r)
  {
    if events == [] then fish
    else Step(Replay(fish, events[..|events| - 1]), events[|events| - 1])
  }

  lemma ReplayAppend(fish: Dict<Fish>, events: seq<RegistryEvent>, e: RegistryEvent)
    requires Valid(fish) && EventFits(e) && forall i :: 0 <= i < |events| ==> EventFits(events[i])
    ensures Replay(fish, events + [e]) == Step(Replay(fish, events), e)
  {
    assert (events + [e])[..|events|] == events;
  }

  /** No spawn among events is named id. */
  predicate NeverNames(events: seq<RegistryEvent>, id: string) {
    forall i :: 0 <= i < |events| && events[i].SpawnEvent? ==> SpawnKey(events[i].guildId, events[i].draw.idTime) != id
  }

  /**
   * Single winner: once a fish is caught, no later spawn, expiry or claim
   * removes it or changes its record, so its caughtBy is final, as long as
   * no later spawn reuses its id (see LaterSpawnsNeverReuse).
   */
  lemma {:induction false} WinnerIsFinal(fish: Dict<Fish>, events: seq<RegistryEvent>, id: string)
    requires Valid(fish) && forall i :: 0 <= i < |events| ==> EventFits(events[i])
    requires id in fish.values && fish.values[id].caught
    requires NeverNames(events, id)
    ensures id in Replay(fish, events).values && Replay(fish, events).values[id] == fish.values[id]
  {
    if events != [] {
      var init := events[..|events| - 1];
      WinnerIsFinal(fish, init, id);
      var mid := Replay(fish, init);
      match events[|events| - 1]
      case SpawnEvent(g, c, images, d) =>
      case ExpiryEvent(x) =>
      case CatchEvent(c, sender) => ClaimRule(mid, c, sender);
    }
  }

  /** Spawns made on a later clock reading, in any guild, never reuse the id of an earlier spawn. */
  lemma LaterSpawnsNeverReuse(events: seq<RegistryEvent>, guildId: string, time: nat)
    requires '_' !in guildId
    requires forall i :: 0 <= i < |events| && events[i].SpawnEvent? ==>
      '_' !in events[i].guildId && events[i].draw.idTime > time
    ensures NeverNames(events, SpawnKey(guildId, time))
  {
    forall i | 0 <= i < |events| && events[i].SpawnEvent?
      ensures SpawnKey(events[i].guildId, events[i].draw.idTime) != SpawnKey(guildId, time)
    {
      if SpawnKey(events[i].guildId, events[i].draw.idTime) == SpawnKey(guildId, time) {
        SpawnKeyInjective(events[i].guildId, events[i].draw.idTime, guildId, time);
        assert false;
      }
    }
  }

  /**
   * The inputs of one eligible server in a spawn-loop tick: the guild of
   * its channel when the client's channel cache has it, whether the
   * `Math.random() < 0.8` trial succeeded, and the spawn's own draws.
   */
  datatype TickDraw = TickDraw(channelGuild: Option<string>, hit: bool, spawn: SpawnDraw)

  /** The spawns one tick performs, eligible server by eligible server. */
  function TickEvents(eligible: seq<Server>, draws: seq<TickDraw>, images: seq<string>): (r: seq<RegistryEvent>)
    requires |draws| == |eligible|
    requires forall i :: 0 <= i < |eligible| ==> eligible[i].channel.Some?
    requires forall i :: 0 <= i < |draws| ==> DrawFits(draws[i].spawn, images)
    ensures forall i :: 0 <= i < |r| ==> r[i].SpawnEvent? && EventFits(r[i])
  {
    if draws == [] then []
    else
      var n := |draws| - 1;
      TickEvents(eligible[..n], draws[..n], images)
      + (if draws[n].channelGuild.Some? && draws[n].hit
         then [SpawnEvent(draws[n].channelGuild.value, eligible[n].channel.value, images, draws[n].spawn)]
         else [])
  }

  /** The events of the first i + 1 eligible servers are those of the first i and then the (i + 1)-th's spawn, if any. */
  lemma TickEventsStep(eligible: seq<Server>, draws: seq<TickDraw>, images: seq<string>, i: nat)
    requires |draws| == |eligible| && i < |eligible|
    requires forall j :: 0 <= j < |eligible| ==> eligible[j].channel.Some?
    requires forall j :: 0 <= j < |draws| ==> DrawFits(draws[j].spawn, images)
    ensures TickEvents(eligible[..i + 1], draws[..i + 1], images)
         == TickEvents(eligible[..i], draws[..i], images)
            + (if draws[i].channelGuild.Some? && draws[i].hit
               then [SpawnEvent(draws[i].channelGuild.value, eligible[i].channel.value, images, draws[i].spawn)]
               else [])
  {
    assert eligible[..i + 1][..i] == eligible[..i] && draws[..i + 1][..i] == draws[..i];
  }

  predicate Resolves(d: TickDraw) {
    d.channelGuild.Some? && d.hit
  }

  /** The positions of the eligible servers whose channel resolved and whose trial hit, in increasing order. */
  function HitPositions(draws: seq<TickDraw>): (js: seq<nat>)
    ensures forall i, k :: 0 <= i < k < |js| ==> js[i] < js[k]
    ensures forall i :: 0 <= i < |js| ==> js[i] < |draws| && Resolves(draws[js[i]])
    ensures forall j :: 0 <= j < |draws| && Resolves(draws[j]) ==> j in js
  {
    if draws == [] then []
    else
      var n := |draws| - 1;
      var init := HitPositions(draws[..n]);
      assert forall j :: 0 <= j < n ==> draws[..n][j] == draws[j];
      init + (if Resolves(draws[n]) then [n] else [])
  }

  /**
   * A tick spawns once for each server whose channel resolved and whose
   * trial hit and for no other, in table order: the i-th spawn is that of
   * the i-th such server, in its guild and its configured channel, with its
   * own draws.
   */
  lemma {:induction false} TickFollowsHits(eligible: seq<Server>, draws: seq<TickDraw>, images: seq<string>)
    requires |draws| == |eligible|
    requires forall i :: 0 <= i < |eligible| ==> eligible[i].channel.Some?
    requires forall i :: 0 <= i < |draws| ==> DrawFits(draws[i].spawn, images)
    ensures var r := TickEvents(eligible, draws, images);
      var js := HitPositions(draws);
      && |r| == |js|
      && forall i :: 0 <= i < |r| ==>
           r[i] == SpawnEvent(draws[js[i]].channelGuild.value, eligible[js[i]].channel.value, images, draws[js[i]].spawn)
  {
    if draws != [] {
      var n := |draws| - 1;
      TickFollowsHits(eligible[..n], draws[..n], images);
      var init := HitPositions(draws[..n]);
      assert forall i :: 0 <= i < |init| ==> draws[..n][init[i]] == draws[init[i]] && eligible[..n][init[i]] == eligible[init[i]];
    }
  }

  // ---------------------------------------------------------------- catch

  /**
   * The reward for a fish of type t. roll is the draw
   * Math.floor(Math.random() * 10), so the xp gain is roll + 5.
   */
  function Rewarded(u: User, t: FishType, roll: nat): User {
    var (level, xp) := Progression.LevelUp(u.level, u.xp + roll + 5, XpPerLevel);
    var count := if t.name in u.fishCollection then u.fishCollection[t.name] else 0;
    u.(coins := u.coins + t.value, total := u.total + 1, xp := xp, level := level,
       fishCollection := u.fishCollection[t.name := count + 1])
  }

  /**
   * A catch pays the fish's value, counts one more fish in total and in the
   * collection entry of its type (created at 1), and adds roll + 5 xp; when
   * that reaches level * 100 the level rises by exactly one and xp restarts
   * at 0, the surplus discarded. The inventory is untouched, and a
   * well-formed record (in particular xp < level * 100) stays well-formed.
   */
  lemma RewardRule(u: User, t: FishType, roll: nat)
    requires WellFormed(u) && roll < 10
    ensures var r := Rewarded(u, t, roll);
      && WellFormed(r)
      && r.coins == u.coins + t.value && r.total == u.total + 1 && r.inventory == u.inventory
      && (u.xp + roll + 5 >= u.level * XpPerLevel ==> r.level == u.level + 1 && r.xp == 0)
      && (u.xp + roll + 5 < u.level * XpPerLevel ==> r.level == u.level && r.xp == u.xp + roll + 5)
      && t.name in r.fishCollection
      && r.fishCollection[t.name] == (if t.name in u.fishCollection then u.fishCollection[t.name] else 0) + 1
      && (forall name :: name in u.fishCollection && name != t.name ==> name in r.fishCollection && r.fishCollection[name] == u.fishCollection[name])
  {
    Progression.GainKeepsInRange(u.level, u.xp, roll + 5, XpPerLevel);
  }

  /** A chat message as the catch handler sees it. */
  datatype Message = Message(authorId: string, authorIsBot: bool, inGuild: bool, channelId: string, content: string)

  /** Only a human's message in a server whose lower-cased, trimmed text is "fish" triggers a catch. */
  predicate IsCatchCommand(m: Message) {
    !m.authorIsBot && m.inGuild && Trim(Lower(m.content)) == "fish"
  }

  datatype CatchReply = Ignored | NoFishHere | Caught(fish: Fish, user: User)

  /** The messageCreate handler: the new users table, the new registry and the reply. */
  function Catch(users: Dict<User>, fish: Dict<Fish>, m: Message, roll: nat): (Dict<User>, Dict<Fish>, CatchReply)
    requires Valid(users) && Valid(fish)
  {
    if !IsCatchCommand(m) then (users, fish, Ignored)
    else match FindFish(fish, m.channelId)
      case None => (users, fish, NoFishHere)
      case Some(id) =>
        var u := Rewarded(UserOf(users, m.authorId), fish.values[id].fishType, roll);
        (Put(users, m.authorId, u), AfterCatch(fish, m.channelId, m.authorId),
         Caught(fish.values[id].(caught := true, caughtBy := Some(m.authorId)), u))
  }

  function Uncaught(f: Fish): int {
    if f.caught then 0 else 1
  }

  /**
   * Every point added to the /stats fish total is paid for by exactly one
   * fish going from uncaught to caught: a message either changes nothing
   * or adds 1 to the summed `total` of all users and removes 1 from the
   * number of uncaught fish, and only a catch command does so.
   */
  lemma CatchConservesFish(users: Dict<User>, fish: Dict<Fish>, m: Message, roll: nat)
    requires Valid(users) && Valid(fish)
    ensures var (users', fish', reply) := Catch(users, fish, m, roll);
      && Valid(users') && Valid(fish')
      && Total(users', TotalOf) - Total(users, TotalOf) == Total(fish, Uncaught) - Total(fish', Uncaught)
      && Total(users', TotalOf) - Total(users, TotalOf) == (if reply.Caught? then 1 else 0)
      && (reply.Caught? ==> IsCatchCommand(m))
      && (!reply.Caught? ==> users' == users && fish' == fish)
  {
    if IsCatchCommand(m) && FindFish(fish, m.channelId).Some? {
      var id := FindFish(fish, m.channelId).value;
      ClaimRule(fish, m.channelId, m.authorId);
      var u := Rewarded(UserOf(users, m.authorId), fish.values[id].fishType, roll);
      TotalAfterPut(users, m.authorId, u, TotalOf);
      TotalAfterPut(fish, id, fish.values[id].(caught := true, caughtBy := Some(m.authorId)), Uncaught);
    }
  }

  /** The state after a run of messages, each with its own xp roll. */
  function CatchAll(users: Dict<User>, fish: Dict<Fish>, ms: seq<Message>, rolls: seq<nat>): (r: (Dict<User>, Dict<Fish>))
    requires Valid(users) && Valid(fish) && |rolls| == |ms|
    ensures Valid(r.0) && Valid(r.1)
  {
    if ms == [] then (users, fish)
    else
      var n := |ms| - 1;
      var (u, f) := CatchAll(users, fish, ms[..n], rolls[..n]);
      CatchConservesFish(u, f, ms[n], rolls[n]);
      var (u', f', _) := Catch(u, f, ms[n], rolls[n]);
      (u', f')
  }

  /**
   * Over any run of messages, from any senders in any channels, the fish
   * total grows by exactly the number of fish that became caught, so never
   * by more than the number of uncaught fish at the start: each fish has
   * at most one winner.
   */
  lemma {:induction false} CatchesNeverOverpay(users: Dict<User>, fish: Dict<Fish>, ms: seq<Message>, rolls: seq<nat>)
    requires Valid(users) && Valid(fish) && |rolls| == |ms|
    ensures var (users', fish') := CatchAll(users, fish, ms, rolls);
      && Total(users', TotalOf) - Total(users, TotalOf) == Total(fish, Uncaught) - Total(fish', Uncaught)
      && Total(users', TotalOf) - Total(users, TotalOf) <= Total(fish, Uncaught)
  {
    var (users', fish') := CatchAll(users, fish, ms, rolls);
    if ms != [] {
      var n := |ms| - 1;
      CatchesNeverOverpay(users, fish, ms[..n], rolls[..n]);
      var (u, f) := CatchAll(users, fish, ms[..n], rolls[..n]);
      CatchConservesFish(u, f, ms[n], rolls[n]);
    }
    SumByNonNegative(fish'.keys, fish'.values, Uncaught);
  }

  // ----------------------------------------------------------- read views

  function EntryTotal(e: (string, User)): int {
    e.1.total
  }

  /** `Object.entries(users).sort((a, b) => b[1].total - a[1].total).slice(0, 10)`. */
  function Leaderboard(users: Dict<User>): seq<(string, User)>
    requires Valid(users)
  {
    Ranking.Top(Entries(users), EntryTotal, BoardSize)
  }

  /** Every leaderboard entry is a user shown with their own record. */
  lemma BoardEntriesAreUsers(users: Dict<User>)
    requires Valid(users)
    ensures var board := Leaderboard(users);
      forall i :: 0 <= i < |board| ==> board[i].0 in users.values && board[i].1 == users.values[board[i].0]
  {
    var board := Leaderboard(users);
    Ranking.TopIsBest(Entries(users), EntryTotal, BoardSize);
    forall i | 0 <= i < |board| ensures board[i].0 in users.values && board[i].1 == users.values[board[i].0] {
      assert board[i] in multiset(Entries(users));
      InEntries(users, board[i]);
    }
  }

  /** A user missing from the leaderboard has a total no larger than anyone on it. */
  lemma LeftOffRanksLower(users: Dict<User>, id: string)
    requires Valid(users) && id in users.values
    requires forall i :: 0 <= i < |Leaderboard(users)| ==> Leaderboard(users)[i].0 != id
    ensures forall i :: 0 <= i < |Leaderboard(users)| ==> Leaderboard(users)[i].1.total >= users.values[id].total
  {
    var e := (id, users.values[id]);
    InEntries(users, e);
    assert e !in Leaderboard(users);
    Ranking.LeftOutRanksLower(Entries(users), EntryTotal, BoardSize, e);
  }

  /**
   * The leaderboard holds min(10, number of users) entries, each a user
   * with its own record, in non-increasing order of total, and no user left
   * off it has a larger total than anyone on it.
   */
  lemma LeaderboardIsTopTen(users: Dict<User>)
    requires Valid(users)
    ensures var board := Leaderboard(users);
      && |board| == (if |users.keys| < BoardSize then |users.keys| else BoardSize)
      && (forall i, j :: 0 <= i < j < |board| ==> board[i].1.total >= board[j].1.total)
      && (forall i :: 0 <= i < |board| ==> board[i].0 in users.values && board[i].1 == users.values[board[i].0])
      && (forall id :: id in users.values && (forall i :: 0 <= i < |board| ==> board[i].0 != id) ==>
            forall i :: 0 <= i < |board| ==> board[i].1.total >= users.values[id].total)
  {
    var board := Leaderboard(users);
    Ranking.TopShape(Entries(users), EntryTotal, BoardSize);
    BoardEntriesAreUsers(users);
    forall id | id in users.values && (forall i :: 0 <= i < |board| ==> board[i].0 != id)
      ensures forall i :: 0 <= i < |board| ==> board[i].1.total >= users.values[id].total
    {
      LeftOffRanksLower(users, id);
    }
  }

  /** /stats: the summed fish total and the number of users. */
  function Stats(users: Dict<User>): (int, nat)
    requires Valid(users)
  {
    (Total(users, TotalOf), |users.keys|)
  }

  // ------------------------------------------------------- command replies

  datatype Reply =
    | Failed                          // `i.guild` is null outside a server, so `i.guild.id` throws
    | ItemNotFound
    | NotEnoughCoins
    | Purchased(item: string, price: nat)
    | InventoryEmpty
    | InventoryCounts(counts: Dict<nat>)
    | Board(entries: seq<(string, User)>)
    | AdminOnly
    | ChannelSet(channelId: string)
    | StatsView(totalFish: int, userCount: nat)

  /** The reply /buy gives for a purchase outcome. */
  function BuyReply(item: string, outcome: Shop.Outcome): Reply {
    match outcome
    case UnknownItem => ItemNotFound
    case NotEnoughCoins(_) => NotEnoughCoins
    case Bought(price) => Purchased(item, price)
  }

  // ---------------------------------------------- the /buy lookup as written

  /**
   * What `prices[key]` yields on the object literal of the /buy branch: an
   * own price, a member every object inherits from Object.prototype, or
   * undefined.
   */
  datatype JsLookup = OwnPrice(price: nat) | InheritedMember | Undefined

  /** The Object.prototype members whose names are already lower case, the only ones a lower-cased item name can reach. */
  const LowerCaseInherited: set<string> := {"constructor", "__proto__"}

  function LookupAsWritten(key: string): JsLookup {
    if key in Prices then OwnPrice(Prices[key])
    else if key in LowerCaseInherited then InheritedMember
    else Undefined
  }

  /** A coin balance as JavaScript holds it: a number, or NaN once a non-number was subtracted from it. */
  datatype JsNumber = Finite(n: int) | NaN

  /** `coins < found`: a comparison with NaN, or with an object that converts to NaN, is false. */
  predicate JsLess(coins: JsNumber, found: JsLookup) {
    coins.Finite? && found.OwnPrice? && coins.n < found.price
  }

  /** `coins -= found`. */
  function JsMinus(coins: JsNumber, found: JsLookup): JsNumber {
    if coins.Finite? && found.OwnPrice? then Finite(coins.n - found.price) else NaN
  }

  /** The /buy branch as written: the new balance, the new inventory, and whether it replied with a purchase. */
  function BuyAsWritten(coins: JsNumber, inventory: seq<string>, item: string): (JsNumber, seq<string>, bool) {
    var found := LookupAsWritten(Lower(item));
    if found.Undefined? || found == OwnPrice(0) then (coins, inventory, false)
    else if JsLess(coins, found) then (coins, inventory, false)
    else (JsMinus(coins, found), inventory + [item], true)
  }

  /**
   * An item whose lower-case name is an inherited member passes both
   * guards whatever the balance: it is appended to the inventory and the
   * balance becomes NaN.
   */
  lemma InheritedNamesAreSold(coins: JsNumber, inventory: seq<string>, item: string)
    requires Lower(item) in LowerCaseInherited
    ensures BuyAsWritten(coins, inventory, item) == (NaN, inventory + [item], true)
  {
  }

  /** "constructor" is such a name: with 100 coins it is sold and the balance is lost. */
  lemma ConstructorIsSold()
    ensures BuyAsWritten(Finite(100), [], "constructor") == (NaN, ["constructor"], true)
  {
    LowerKeepsLowerCase("constructor");
    InheritedNamesAreSold(Finite(100), [], "constructor");
    assert [] + ["constructor"] == ["constructor"];
  }

  /** With a NaN balance no purchase is ever refused for its price and the balance stays NaN: every shop item is free. */
  lemma NaNBalanceBuysEverything(inventory: seq<string>, item: string)
    requires Lower(item) in Prices
    ensures BuyAsWritten(NaN, inventory, item) == (NaN, inventory + [item], true)
  {
  }

  /** On any other item name and a numeric balance the code as written agrees with Shop.Purchase. */
  lemma AsWrittenAgreesElsewhere(coins: int, inventory: seq<string>, item: string)
    requires Lower(item) !in LowerCaseInherited
    ensures var (balance, items, sold) := BuyAsWritten(Finite(coins), inventory, item);
      var (outcome, purse) := Shop.Purchase(Shop.Purse(coins, inventory), item, Prices);
      && sold == outcome.Bought?
      && balance == Finite(purse.coins)
      && items == purse.inventory
  {
  }

  // ------------------------------------------------------------ the game

  /** The bot's in-memory state: the users, servers and activeFish objects. */
  class FishGame {
    var users: Dict<User>
    var servers: Dict<Server>
    var activeFish: Dict<Fish>

    ghost predicate Valid()
      reads this
    {
      && OrderedDict.Valid(users) && OrderedDict.Valid(servers) && OrderedDict.Valid(activeFish)
      && AllWellFormed(users)
    }

    /** The state when no data files exist yet: loadData falls back to empty objects. */
    constructor ()
      ensures Valid()
      ensures users == Empty() && servers == Empty() && activeFish == Empty()
    {
      users, servers, activeFish := Empty(), Empty(), Empty();
    }

    method GetUser(id: string) returns (u: User)
      requires Valid()
      modifies this
      ensures Valid()
      ensures u == UserOf(old(users), id) && users == WithUser(old(users), id)
      ensures servers == old(servers) && activeFish == old(activeFish)
    {
      if id !in users.values {
        users := Put(users, id, NewUser);
      }
      u := users.values[id];
    }

    method GetServer(id: string) returns (s: Server)
      requires Valid()
      modifies this
      ensures Valid()
      ensures s == ServerOf(old(servers), id) && servers == WithServer(old(servers), id)
      ensures users == old(users) && activeFish == old(activeFish)
    {
      if id !in servers.values {
        servers := Put(servers, id, NewServer);
      }
      s := servers.values[id];
    }

    method SpawnFish(guildId: string, channelId: string, images: seq<string>, d: SpawnDraw) returns (spawned: Option<Fish>)
      requires Valid() && DrawFits(d, images)
      modifies this
      ensures Valid()
      ensures (activeFish, spawned) == Spawn(old(activeFish), guildId, channelId, images, d)
      ensures users == old(users) && servers == old(servers)
    {
      if |images| == 0 {
        return None;
      }
      var id := SpawnKey(guildId, d.idTime);
      var fishType := FishTypes[d.typeRoll];
      var image := images[d.imageRoll];
      activeFish := Put(activeFish, id, Fish(id, guildId, channelId, fishType, image, d.spawnTime, false, None));
      spawned := Some(activeFish.values[id]);
    }

    /** The callback spawnFish schedules 300000 ms after a spawn. */
    method ExpireFish(id: string)
      requires Valid()
      modifies this
      ensures Valid()
      ensures activeFish == Expire(old(activeFish), id)
      ensures users == old(users) && servers == old(servers)
    {
      if id in activeFish.values && !activeFish.values[id].caught {
        activeFish := Remove(activeFish, id);
      }
    }

    /** The messageCreate handler; roll is the xp draw Math.floor(Math.random() * 10). */
    method HandleMessage(m: Message, roll: nat) returns (reply: CatchReply)
      requires Valid() && roll < 10
      modifies this
      ensures Valid()
      ensures (users, activeFish, reply) == Catch(old(users), old(activeFish), m, roll)
      ensures servers == old(servers)
    {
      if m.authorIsBot || !m.inGuild {
        return Ignored;
      }
      var content := Trim(Lower(m.content));
      if content != "fish" {
        return Ignored;
      }
      var found := FindFish(activeFish, m.channelId);
      if found.None? {
        return NoFishHere;
      }
      var id := found.value;
      var f := activeFish.values[id].(caught := true, caughtBy := Some(m.authorId));
      activeFish := Put(activeFish, id, f);

      ghost var before := users;
      var u := GetUser(m.authorId);
      RewardRule(u, f.fishType, roll);
      u := Rewarded(u, f.fishType, roll);
      PutTwice(before, m.authorId, NewUser, u);
      PutKeepsWellFormed(before, m.authorId, u);
      users := Put(users, m.authorId, u);
      assert users == Put(before, m.authorId, u);
      reply := Caught(f, u);
    }

    /**
     * One run of the spawn loop: each eligible server, in table order,
     * spawns when its channel resolves and its trial succeeds.
     */
    method SpawnTick(images: seq<string>, draws: seq<TickDraw>)
      requires Valid()
      requires |draws| == |EligibleServers(servers)|
      requires forall i :: 0 <= i < |draws| ==> DrawFits(draws[i].spawn, images)
      modifies this
      ensures Valid()
      ensures activeFish == Replay(old(activeFish), TickEvents(EligibleServers(old(servers)), draws, images))
      ensures users == old(users) && servers == old(servers)
    {
      var eligible := EligibleServers(servers);
      for i := 0 to |eligible|
        invariant Valid()
        invariant users == old(users) && servers == old(servers)
        invariant activeFish == Replay(old(activeFish), TickEvents(eligible[..i], draws[..i], images))
      {
        ghost var done := TickEvents(eligible[..i], draws[..i], images);
        TickEventsStep(eligible, draws, images, i);
        var d := draws[i];
        if d.channelGuild.Some? && d.hit {
          var e := SpawnEvent(d.channelGuild.value, eligible[i].channel.value, images, d.spawn);
          ReplayAppend(old(activeFish), done, e);
          var _ := SpawnFish(d.channelGuild.value, eligible[i].channel.value, images, d.spawn);
        } else {
          assert done + [] == done;
        }
      }
      assert eligible[..|eligible|] == eligible && draws[..|draws|] == draws;
    }

    /**
     * What every slash command does first (getUser, then getServer). A
     * command outside a server (guildId None) fails after the user record
     * was created.
     */
    method OpenInteraction(userId: string, guildId: Option<string>) returns (u: User, ok: bool)
      requires Valid()
      modifies this
      ensures Valid()
      ensures u == UserOf(old(users), userId) && WellFormed(u)
      ensures users == WithUser(old(users), userId) && activeFish == old(activeFish)
      ensures ok == guildId.Some?
      ensures servers == if ok then WithServer(old(servers), guildId.value) else old(servers)
    {
      GetUserIsLazy(users, userId);
      u := GetUser(userId);
      if guildId.None? {
        return u, false;
      }
      var _ := GetServer(guildId.value);
      ok := true;
    }

    method Buy(userId: string, guildId: Option<string>, item: string) returns (reply: Reply)
      requires Valid()
      modifies this
      ensures Valid()
      ensures activeFish == old(activeFish)
      ensures guildId.None? ==> reply == Failed && users == WithUser(old(users), userId) && servers == old(servers)
      ensures guildId.Some? ==>
        var u := UserOf(old(users), userId);
        var (outcome, purse) := Shop.Purchase(Shop.Purse(u.coins, u.inventory), item, Prices);
        && servers == WithServer(old(servers), guildId.value)
        && reply == BuyReply(item, outcome)
        && users == if outcome.Bought? then Put(WithUser(old(users), userId), userId, u.(coins := purse.coins, inventory := purse.inventory))
                    else WithUser(old(users), userId)
    {
      var u, ok := OpenInteraction(userId, guildId);
      if !ok {
        return Failed;
      }
      Shop.PurchaseRule(Shop.Purse(u.coins, u.inventory), item, Prices);
      var key := Lower(item);
      if key !in Prices {
        return ItemNotFound;
      }
      var price := Prices[key];
      if u.coins < price {
        return NotEnoughCoins;
      }
      u := u.(coins := u.coins - price, inventory := u.inventory + [item]);
      PutKeepsWellFormed(users, userId, u);
      users := Put(users, userId, u);
      reply := Purchased(item, price);
    }

    method Inventory(userId: string, guildId: Option<string>) returns (reply: Reply)
      requires Valid()
      modifies this
      ensures Valid()
      ensures users == WithUser(old(users), userId) && activeFish == old(activeFish)
      ensures guildId.None? ==> reply == Failed
      ensures guildId.Some? ==>
        var items := UserOf(old(users), userId).inventory;
        && (items == [] <==> reply == InventoryEmpty)
        && (items != [] ==>
              && reply.InventoryCounts?
              && OrderedDict.Valid(reply.counts)
              && reply.counts.keys == Tally.Dedup(items)
              && (forall x :: x in reply.counts.values ==> reply.counts.values[x] == multiset(items)[x])
              && Total(reply.counts, Tally.AsInt) == |items|)
    {
      var u, ok := OpenInteraction(userId, guildId);
      if !ok {
        return Failed;
      }
      if |u.inventory| == 0 {
        return InventoryEmpty;
      }
      var counts := Tally.CountItems(u.inventory);
      reply := InventoryCounts(counts);
    }

    method ShowLeaderboard(userId: string, guildId: Option<string>) returns (reply: Reply)
      requires Valid()
      modifies this
      ensures Valid()
      ensures users == WithUser(old(users), userId) && activeFish == old(activeFish)
      ensures reply == if guildId.None? then Failed else Board(Leaderboard(users))
    {
      var _, ok := OpenInteraction(userId, guildId);
      if !ok {
        return Failed;
      }
      reply := Board(Leaderboard(users));
    }

    method Setup(userId: string, guildId: Option<string>, isAdmin: bool, channelId: string) returns (reply: Reply)
      requires Valid()
      modifies this
      ensures Valid()
      ensures users == WithUser(old(users), userId) && activeFish == old(activeFish)
      ensures guildId.None? ==> reply == Failed && servers == old(servers)
      ensures guildId.Some? && !isAdmin ==> reply == AdminOnly && servers == WithServer(old(servers), guildId.value)
      ensures guildId.Some? && isAdmin ==>
        reply == ChannelSet(channelId) && servers == Configured(WithServer(old(servers), guildId.value), guildId.value, channelId)
    {
      var _, ok := OpenInteraction(userId, guildId);
      if !ok {
        return Failed;
      }
      if !isAdmin {
        return AdminOnly;
      }
      var server := servers.values[guildId.value];
      server := server.(channel := Some(channelId), enabled := true);
      servers := Put(servers, guildId.value, server);
      reply := ChannelSet(channelId);
    }

    method ShowStats(userId: string, guildId: Option<string>) returns (reply: Reply)
      requires Valid()
      modifies this
      ensures Valid()
      ensures users == WithUser(old(users), userId) && activeFish == old(activeFish)
      ensures reply == if guildId.None? then Failed else StatsView(Stats(users).0, Stats(users).1)
    {
      var _, ok := OpenInteraction(userId, guildId);
      if !ok {
        return Failed;
      }
      reply := StatsView(Total(users, TotalOf), |users.keys|);
    }
  }
}
