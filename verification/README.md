# Fish bot and crab bot: a verified model of the game core

The repository holds two chat bots that run the same catching game.
`index.js` is the fish bot. It keeps three in-memory tables: `users`,
`servers` and `activeFish`. A timer spawns fish into the channels that
servers configured. The first member to type `fish` in that channel
catches the oldest uncaught fish there and is paid its value in coins, xp,
a total and a collection count. Slash commands show and change the same
tables: buy, inventory, leaderboard, setup and stats. `bot.py` is the crab
bot. A crab appears with a button, and the first press wins coins and xp.
It keeps `guilds_data` and `users_data`, and it has its own shop,
inventory, leaderboard, setup and profile commands plus an uptime text.

The model has these parts:

- `OrderedDict` is the insertion-ordered dictionary both languages use for
  their tables. JavaScript plain objects whose keys are Discord snowflakes
  behave this way, and so do Python dicts.
- `Ranking` holds the stable descending sort and the top-n cut behind both
  leaderboards.
- `Tally` holds the inventory counting loop.
- `Progression` holds the level-up rule.
- `Shop` holds the purchase rule.
- `FishBot` models `index.js` and `CrabBot` models `bot.py`.

The tables a handler mutates in place are fields of the classes
`FishBot.FishGame`, `CrabBot.CrabData` and `CrabBot.CrabView`. Each
method's contract ties the new state to a pure function of the old state.
The lemmas beside those functions state what the game promises: one winner
per spawn, lazy creation of records, level-up bounds, conservation of coins
and catches, leaderboard order, and an uptime text that can be read back.

Randomness, clock readings and channel lookups become parameters:

- `SpawnDraw` holds the two `Date.now()` readings of `spawnFish` and the
  fish and image rolls.
- `TickDraw` says whether the channel cache resolved the channel, to which
  guild, and whether the 0.8 trial hit.
- The xp `roll` of a fish catch ranges over 0..9.
- A `Press` carries the coins (5..15) and the xp (1..3) a crab catch draws.

## Model

| member | source | states |
|---|---|---|
| Progression.LevelUp | index.js:144 | defined by its body (bot.py:139-143 is the same rule); its properties are in Progression.GainKeepsInRange |
| Shop.Purchase | bot.py:543-555 | defined by its body (index.js:208-211 is the same rule); its properties are in Shop.PurchaseRule and Shop.PurchasesConserveCoins |
| FishBot.WithUser | index.js:74-80 | defined by its body; its properties are in FishBot.GetUserIsLazy |
| FishBot.Spawn | index.js:91-108 | defined by its body; its properties are in FishBot.SpawnAddsOne |
| FishBot.Expire | index.js:102-107 | defined by its body; its properties are in FishBot.ExpiryRule |
| FishBot.AfterCatch | index.js:133-137 | defined by its body; its properties are in FishBot.ClaimRule |
| FishBot.TickEvents | index.js:268-273 | defined by its body; its properties are in FishBot.TickFollowsHits |
| FishBot.Rewarded | index.js:140-146 | defined by its body; its properties are in FishBot.RewardRule |
| FishBot.IsCatchCommand | index.js:128-131 | defined by its body; FishBot.CatchConservesFish shows that only such a message changes anything |
| FishBot.Catch | index.js:127-147 | defined by its body; its properties are in FishBot.CatchConservesFish and FishBot.CatchesNeverOverpay |
| FishBot.Leaderboard | index.js:225 | defined by its body; its properties are in FishBot.LeaderboardIsTopTen |
| FishBot.Stats | index.js:241-247 | defined by its body; OrderedDict.TotalAfterPut and FishBot.CatchConservesFish relate its total to the catches |
| FishBot.BuyAsWritten | index.js:206-213 | defined by its body; its properties are in FishBot.InheritedNamesAreSold, FishBot.NaNBalanceBuysEverything and FishBot.AsWrittenAgreesElsewhere |
| CrabBot.WithCrabUser | bot.py:120-128 | defined by its body; its properties are in CrabBot.CrabUserIsLazy |
| CrabBot.CrabRewarded | bot.py:131-143 | defined by its body; its properties are in CrabBot.CrabRewardRule |
| CrabBot.Pressed | bot.py:111-146 | defined by its body; its properties are in CrabBot.PressRule and CrabBot.OneWinnerPerCrab |
| CrabBot.Configured | bot.py:449-454 | defined by its body; its properties are in CrabBot.SetupEnablesAppearances |
| CrabBot.AppearanceGuilds | bot.py:637-644 | defined by its body; its properties are in CrabBot.AppearanceVisits |
| CrabBot.Leaderboard | bot.py:592-596 | defined by its body; its properties are in CrabBot.LeaderboardRule |
| CrabBot.Uptime | bot.py:627-632 | defined by its body; its properties are in CrabBot.UptimeRoundTrip, CrabBot.UptimeInjective and CrabBot.UptimeShowsUnits |
| OrderedDict.PutTwice | index.js:141-146 | a second write to the same key replaces the first and leaves the key where the first write put it |
| OrderedDict.TotalAfterPut | index.js:241 | a summed field changes by exactly the new value minus the value it replaced |
| OrderedDict.InEntries | index.js:225 | the entries listed are exactly the stored (key, value) pairs |
| Ranking.SortDesc | index.js:225 | the result is ordered by descending key and is a permutation of the input |
| Ranking.TopIsBest | bot.py:592-596 | a top-n list has min(size, n) entries, is best first, is drawn from the candidates, and no left-out candidate outranks a kept one |
| Ranking.ShortTopHoldsAll | bot.py:592-596 | a top-n list with fewer than n entries holds every candidate |
| Ranking.Filter | bot.py:593 | every element kept satisfies the test and every element of the input that satisfies it is kept; the result is a sub-multiset of the input |
| Ranking.FilterAppend | bot.py:593 | filtering a concatenation is the concatenation of the filtered parts, so the kept elements keep the input's order |
| Tally.CountItems | bot.py:580-582 | the keys are the distinct items by first occurrence, each count is the item's number of occurrences (at least 1), and the counts add up to the inventory length |
| Progression.GainKeepsInRange | index.js:143-144 | after any gain and one level check the xp bar stays below level * perLevel; the level rises by one, with xp reset to 0, exactly when the threshold was reached |
| Shop.PurchaseRule | bot.py:543-555 | a purchase goes through iff the lower-cased item is known and affordable; a refusal changes nothing; a sale takes exactly the price, never overdraws and appends the item as typed |
| Shop.PurchasesConserveCoins | index.js:208-211 | over any run of purchases the inventory only grows at its end, coins left plus prices of appended items equal the starting coins, every appended item is a shop item, and a non-negative balance stays non-negative |
| FishBot.GetUserIsLazy | index.js:74-80 | getUser returns the stored record or a fresh one (100 coins, level 1); it creates the record only when missing, appends its key last, changes no other record, is idempotent and keeps every record well formed |
| FishBot.WithServer | index.js:82-88 | getServer leaves a record for the id, equal to the stored one or to the default (no channel, disabled, prefix f!) |
| FishBot.GetServerIsLazy | index.js:82-88 | getServer creates a default record only for an unknown id, with its key last; a known id leaves the table unchanged, no other server changes or appears, and a second call changes nothing |
| FishBot.SetupMakesEligible | index.js:232-238 | after /setup the guild has the channel set and is enabled with its prefix kept, the spawn loop now visits it, and every other server keeps its record and its eligibility |
| FishBot.SpawnLoopVisits | index.js:268-269 | the spawn loop visits a stored server exactly when it is enabled and has a channel, and visits only stored servers |
| FishBot.SpawnKeyInjective | index.js:95 | two spawn ids are equal only for the same guild and the same clock reading, when guild ids hold no underscore (snowflakes are digits) |
| FishBot.SpawnAddsOne | index.js:91-108 | with no images nothing is spawned and the registry is unchanged; otherwise one uncaught fish of a listed type, with a listed image, is stored under guild_time and every other entry is kept |
| FishBot.ExpiryRule | index.js:102-107 | expiry deletes the fish only when it is still uncaught; a caught or missing fish leaves the registry unchanged; expiring twice is the same as once |
| FishBot.FirstCatchable | index.js:133 | the position found is that of the first uncaught fish in the channel, and no position is found only when there is none |
| FishBot.ClaimRule | index.js:133-137 | a catch marks exactly the first uncaught fish of the channel, in registry order, as caught by the sender; with none, nothing changes; caught fish are never touched and the key order is kept |
| FishBot.WinnerIsFinal | index.js:103-137 | once a fish is caught, no later spawn, expiry or claim removes it or changes its catcher, as long as no later spawn reuses its id |
| FishBot.LaterSpawnsNeverReuse | index.js:95 | spawns at later clock readings never reuse an earlier spawn's id |
| FishBot.HitPositions | index.js:270-271 | the positions of the eligible servers whose channel resolved and whose trial hit: strictly increasing, each such a position, and none of them missing |
| FishBot.TickFollowsHits | index.js:268-273 | a tick spawns once per server whose channel resolved and whose trial hit and for no other; the i-th spawn is the i-th such server's, in its guild and configured channel with its own draws, so spawns follow table order |
| FishBot.RewardRule | index.js:140-146 | a catch pays the fish's value, adds one to the total and to the collection count of its type, and adds 5..14 xp; reaching level * 100 gives exactly one level and resets xp to 0; a well-formed record stays well formed |
| FishBot.CatchConservesFish | index.js:127-147 | a message changes the summed user totals by exactly the drop in uncaught fish, 1 on a catch and 0 otherwise; only a catch command changes anything |
| FishBot.CatchesNeverOverpay | index.js:127-147 | over any run of messages the summed totals grow by exactly the number of fish that became caught, never more than were uncaught at the start |
| FishBot.BoardEntriesAreUsers | index.js:225 | every leaderboard entry is a stored user with its stored record |
| FishBot.LeaderboardIsTopTen | index.js:225 | the board has min(users, 10) entries, sorted by total descending, each a stored user, and any user left out has no more fish than every user shown |
| FishBot.InheritedNamesAreSold | index.js:206-213 | as written, an item whose lower-case name is an inherited object member passes both guards: it is appended and the balance becomes NaN |
| FishBot.ConstructorIsSold | index.js:206-213 | as written, "constructor" bought with 100 coins is sold and leaves a NaN balance |
| FishBot.NaNBalanceBuysEverything | index.js:209-211 | as written, a NaN balance buys every shop item and stays NaN |
| FishBot.AsWrittenAgreesElsewhere | index.js:206-213 | for every other item and numeric balance the code as written agrees with Shop.Purchase |
| FishBot.FishGame.constructor | index.js:38-40 | the game starts with three empty tables |
| FishBot.FishGame.GetUser | index.js:74-80 | the method's result and the new users table are those of the getUser specification; nothing else changes |
| FishBot.FishGame.GetServer | index.js:82-88 | the method's result and the new servers table are those of the getServer specification; nothing else changes |
| FishBot.FishGame.SpawnFish | index.js:91-108 | the registry and the returned fish are those of the spawn specification |
| FishBot.FishGame.ExpireFish | index.js:102-107 | the registry becomes that of the expiry specification |
| FishBot.FishGame.HandleMessage | index.js:127-147 | the users, the registry and the reply are those of the catch specification, and every user record stays well formed |
| FishBot.FishGame.SpawnTick | index.js:267-276 | the registry becomes the replay of the spawns the tick draws over the eligible servers, in table order |
| FishBot.FishGame.OpenInteraction | index.js:165-168 | every command first runs getUser and then getServer; outside a guild the handler fails after getUser |
| FishBot.FishGame.Buy | index.js:205-213 | the reply and the user's coins and inventory follow Shop.Purchase on the fish shop's prices; a refused purchase changes nothing but getUser/getServer |
| FishBot.FishGame.Inventory | index.js:214-221 | an empty inventory is reported as such; otherwise the counts are the item tally in first-occurrence order |
| FishBot.FishGame.ShowLeaderboard | index.js:224-231 | the reply lists the leaderboard of the users table |
| FishBot.FishGame.Setup | index.js:232-239 | a non-admin is refused after getServer has run; an admin's guild gets the channel and is enabled |
| FishBot.FishGame.ShowStats | index.js:240-247 | the reply holds the summed totals of all users and the number of users |
| CrabBot.CrabUserIsLazy | bot.py:120-128 | a missing user gets the default record (level 1, nothing caught) appended last; an existing one and all others are left as they are |
| CrabBot.CrabRewardRule | bot.py:131-146 | a catch adds the drawn 5..15 coins, one crab and 1..3 xp; reaching level * 10 gives one level and resets xp to 0; the inventory is untouched and a well-formed record stays well formed |
| CrabBot.PressRule | bot.py:111-146 | a press on a caught crab is refused and changes nothing; the first press sets the flag, rewards the presser, leaves everyone else alone and adds exactly one crab to the summed catches |
| CrabBot.OneWinnerPerCrab | bot.py:111-116 | of any run of presses on one crab only the first is rewarded, every later one gets the already-caught reply, and the summed catches rise by exactly one |
| CrabBot.CrabView.constructor | bot.py:105-108 | a new view is uncaught |
| CrabBot.CrabView.CatchCrab | bot.py:111-146 | the flag, the users table and the reply are those of the press specification |
| CrabBot.SetupEnablesAppearances | bot.py:446-454 | after /setup the guild holds the channel, enabled and frequency 10, its key is appended only if new, other guilds are untouched and the appearance loop visits it |
| CrabBot.AppearanceVisits | bot.py:637-644 | the appearance loop visits a stored guild exactly when it is enabled and has a channel set, and visits only stored guilds with their stored settings |
| CrabBot.LeaderboardRule | bot.py:590-596 | the board has at most 10 entries, all with at least one crab, sorted by crabs caught descending, each a stored user; a catcher left out means the board is full and everyone on it has at least as many crabs |
| CrabBot.CrabData.constructor | bot.py:66-69 | the two tables start empty |
| CrabBot.CrabData.Setup | bot.py:446-456 | guilds_data becomes the setup specification's result and users_data is untouched |
| CrabBot.CrabData.Profile | bot.py:474-503 | the shown view is that of the user's record, created lazily; because every method keeps all records well formed, the xp shown is always below the xp needed for the next level |
| CrabBot.CrabData.Buy | bot.py:527-566 | an unknown user is told to catch crabs first and no record is created; otherwise the reply and the new coins and inventory follow Shop.Purchase on the crab shop's prices |
| CrabBot.CrabData.Inventory | bot.py:568-585 | a missing user or an empty inventory gives the empty reply; otherwise the counts are the item tally in first-occurrence order |
| CrabBot.UptimeParts | bot.py:620-625 | the seconds split into days, hours < 24, minutes < 60 and seconds < 60 that add back up to the total |
| CrabBot.UptimePartsUnique | bot.py:620-625 | that split is the only one with those bounds |
| CrabBot.UptimeRoundTrip | bot.py:627-632 | the uptime text reads back to the number of seconds it was made from |
| CrabBot.UptimeInjective | bot.py:627-632 | different uptimes give different texts |
| CrabBot.UptimeShowsUnits | bot.py:627-632 | the text shows days exactly from one day on and shows hours exactly from one hour on |

## Left out

- Persistence is not modelled: file loads and saves, JSON encoding, and the `saveData`/`save_*` calls after each change. The tables are the in-memory state only.
- Message and embed rendering is not modelled: titles, colours, emoji, `item.title()` and images.
- `sendFish`, Discord API calls and `fetch_user` are left out. The crab leaderboard's fallback name "User id" is display only.
- The fish leaderboard skips users whose fetch fails. That only changes what is displayed; the model lists the ranked entries themselves.
- Timers are left out. Each tick of the spawn loop and each expiry callback is an operation the caller invokes, and the 5-minute expiry delay and the 3- and 10-minute periods are not represented.
- `Math.random`, `random.randint`, `random.random` and `Date.now()` are left out. Their results are parameters with the ranges the code draws from.
- The crab appearance loop is modelled only as the list of guilds it visits (`CrabBot.AppearanceVisits`). Its 0.7 trial and the float timestamp in the crab id only decide whether a message with a fresh view is posted.
- The fish bot's help, profile, shop and test commands are modelled only through the getUser/getServer prelude they share (`FishBot.FishGame.OpenInteraction`). Their replies are left out: /profile only displays the caller's record, /test only compares the caller with the owner id, and help and shop are fixed text.
- `bot.py`'s ping, avatar, shutdown, about, stats, invite, help, catch and legacy prefix commands are left out. Their replies only display the records or bot state (the /stats totals and top catcher among them), or act on the platform: /avatar downloads an image and changes the bot's avatar, and /shutdown stops the process.
- The random rank that `/profile` shows is left out of `ProfileView`.
- `CrabBot.Uptime` takes the whole number of seconds elapsed. The wall clock is a parameter, and a negative delta (clock moved back) is not modelled.
- Lower-casing covers ASCII letters only. Unicode case mapping in `toLowerCase`/`str.lower` is not modelled.
- `FishBot.FishGame.Inventory` ignores one JavaScript quirk: an item named "constructor" or "__proto__" would itself hit an inherited member of the `counts` object. The model counts it like any other item.
- A slash command outside a guild makes `index.js` throw at `i.guild.id`. The model returns a `Failed` reply, after getUser has run, and changes nothing else.

Behaviour of the code worth knowing, which the model follows:

- In `bot.py`, `/setup` has no administrator check.
- In `index.js`, the administrator check of `/setup` runs after `getUser` and `getServer` have already created records.
- `crab_frequency` is written by `/setup` and never read. Appearances depend only on the fixed loop period and the 0.7 trial.

## Findings

| source | as written | input that shows it | evidently intended | confidence | as-written member | corrected member |
|---|---|---|---|---|---|---|
| index.js:206-213 | `prices[item.toLowerCase()]` on an object literal also finds the members every object inherits. "constructor" and "__proto__" are truthy, and `coins < member` is false. So the purchase goes through, `coins -= member` makes the balance NaN, and the item is appended. After that no price guard refuses a purchase until the next restart, when the saved `null` balance is read back. | `/buy constructor` with 100 coins, then `/buy fish crown` | only the three listed items can be bought, and coins stay a number | high (not executed) | FishBot.ConstructorIsSold | Shop.PurchaseRule |
