# March Madness auction — a Dafny model of its core

The system runs a live auction of the teams of the NCAA tournament. A Python
server keeps a table of games. Each game has a creator, player records with a
balance and the teams they bought, the teams still to be auctioned, the team on
the block, the current bid, a countdown and a log of bids. A React front end
shows the auction page with its bid form, a spectator page that colours players
by their best team score, and the tournament bracket of each region.

The model covers, file by file:

- `backend/app/types/types.py`: the constants and records (`AuctionTypes`).
- `backend/app/game_tracker.py`: the game tracker. `AuctionSpec` states each
  operation as a function of the table of games. `Tracker.GameTracker` is the
  class the server mutates; each of its methods is proved to produce the table
  the function describes. `AuctionFacts` defines a well-formedness invariant of
  the table, proves every operation preserves it, and proves each operation's
  effects as lemmas. A Python exception (`KeyError`, `IndexError` from
  `random.choice` on an empty list, `ValueError`) becomes a `Failure`, and the
  table keeps whatever the operation had changed before raising.
- `backend/app/bid.py`: the older per-game player table (`LegacyTracker`).
- `frontend/src/Bid.tsx`: the bid form (`BidForm`).
- `frontend/src/bid.tsx`: the standalone bid page (`LegacyBid`).
- `frontend/src/GamePage.tsx`: the socket handler, the `HH:MM:SS` countdown text
  and the participant colours (`GamePage`).
- `frontend/src/ViewPage.tsx`: the spectator page's socket handler (`ViewPage`).
- `frontend/src/Utils.tsx`: the 16-team region bracket builder, written
  imperatively over `Match` objects (`RegionBracket`).
- `frontend/src/Bracket.tsx`: grouping of teams, results and matches by key
  (`Grouping`, `BracketView`).

JavaScript's `parseInt`, `Number.prototype.toString` and `String.prototype.padStart`
are modelled on strings in `Text`. JavaScript's `%` is the truncating `GamePage.JsRem`.
`random.choice` becomes an index `pick` supplied by the caller. `list.remove` is
`AuctionSpec.RemoveFirst`. Sockets, HTTP requests and their outcomes become
method parameters (`ok`, the parsed message).

The invariant `AuctionFacts.GameValid` holds of every game in the table
(`AuctionFacts.TrackerValid`):

- the creator is one of the players;
- each player record is filed under its own name and carries the game's id;
- the teams held are the remaining teams plus the team on the block
  (`AuctionFacts.Held`), and they form a sub-multiset of the master list;
- every logged bid is for this game;
- the current bid is the last logged bid, or the initial bid when the log is empty;
- the countdown never exceeds its start value of 10.

A page's state after a sequence of socket messages is the fold of its one-message
handler: `GamePage.ReceiveAll` folds `GamePage.Receive`, and `LegacyBid.HeardAll`
folds `LegacyBid.Heard`. The lemmas about whole sequences are stated over these folds.

The auction page's handler takes the first of `participants`, `bid` and
`countdown` present in a message and changes only that field. The team shown
never changes from `"Texas"`, and no message resets the bid.

The record declarations in `types.py` and the tracker disagree: the records lack
fields that `game_tracker.py` reads and writes, namely a player's `name` and a
game's `players`, `teams` and single `currentTeam`. The model's records carry the
fields the tracker uses.

## Model

| member | source | states |
|---|---|---|
| AuctionTypes.NewPlayer | backend/app/types/types.py:30-33 | a new player record has the given name and game, a balance of `INITIAL_BALANCE` = 100 and no teams |
| AuctionTypes.NewGame | backend/app/types/types.py:22-28 | a new game has no participants, no log and no team on the block, the current bid `INITIAL_BID` = 0 and the countdown `INITIAL_COUNTDOWN` = 10 |
| AuctionSpec.RemoveFirst | backend/app/game_tracker.py:45 | `list.remove` drops exactly one occurrence: one element shorter, multiset minus the removed value |
| AuctionSpec.RemoveFirstKeepsOrder | backend/app/game_tracker.py:45 | removal drops the first occurrence and keeps the rest in order |
| AuctionSpec.PurchaseLabel | backend/app/game_tracker.py:64 | the bought-team label starts with the team, then `" : $"`, and ends in `".00"` |
| AuctionSpec.Charged | backend/app/game_tracker.py:33-35 | only the named player changes: balance lowered by the amount, team appended; other players and game fields are kept |
| AuctionSpec.Drawn | backend/app/game_tracker.py:44-45 | drawing removes exactly the chosen team from the remaining list and changes nothing else |
| AuctionSpec.WithBid | backend/app/game_tracker.py:54-57 | a bid is appended to the log, becomes the current bid, and restarts the countdown at 10; nothing else changes |
| AuctionSpec.NextLot | backend/app/game_tracker.py:73-77 | the next lot puts the drawn team on the block, removes it from the remaining list, and resets bid, countdown and log |
| AuctionSpec.GetRandomTeam | backend/app/game_tracker.py:43-46 | a failed draw leaves the table as it was; a successful one keeps the set of games |
| AuctionSpec.AddGame | backend/app/game_tracker.py:21-28 | the game is stored whether or not the first draw fails; no other game id appears |
| AuctionSpec.AddPlayer | backend/app/game_tracker.py:30-31 | adding a player never adds or removes a game |
| AuctionSpec.UpdatePlayer | backend/app/game_tracker.py:33-35 | on a missing game or player nothing changes; the set of games is kept |
| AuctionSpec.PlaceBid | backend/app/game_tracker.py:54-57 | placing a bid never adds or removes a game |
| AuctionSpec.GetCurrentTeam | backend/app/game_tracker.py:81-86 | `KeyError` for an unknown game, `ValueError` exactly when no team is on the block, otherwise the team on the block |
| AuctionSpec.DecrementCountdown | backend/app/game_tracker.py:94-95 | the countdown step never adds or removes a game |
| AuctionSpec.SettleLot | backend/app/game_tracker.py:62-71 | settling keeps the game's remaining teams; a failure changes nothing |
| AuctionSpec.FinalizeBid | backend/app/game_tracker.py:59-79 | finalizing never adds or removes a game |
| AuctionFacts.Held | backend/app/game_tracker.py:26-28 | a game holds its remaining teams plus one more when a team is on the block |
| AuctionFacts.StoreKeepsValid | backend/app/game_tracker.py:23 | storing a well-formed game keeps the table well formed |
| AuctionFacts.FirstLotValid | backend/app/game_tracker.py:21-28 | a new game with its first team drawn is well formed: creator is a player, the teams it holds are within the master list, bid 0, countdown 10 |
| AuctionFacts.FreshRecordKeepsValid | backend/app/game_tracker.py:31 | a fresh record filed under its own name and game keeps the game well formed |
| AuctionFacts.ChargedKeepsValid | backend/app/game_tracker.py:33-35 | charging a player keeps the game well formed |
| AuctionFacts.DrawnKeepsValid | backend/app/game_tracker.py:44-45 | drawing a team keeps the game well formed |
| AuctionFacts.WithBidKeepsValid | backend/app/game_tracker.py:54-57 | logging a bid of this game keeps the current bid equal to the last logged bid |
| AuctionFacts.TickKeepsValid | backend/app/game_tracker.py:94-95 | lowering the countdown keeps it at most 10 |
| AuctionFacts.NextLotKeepsValid | backend/app/game_tracker.py:73-77 | the drawn team moves from the list to the block, so the held teams stay within the master list |
| AuctionFacts.AddGamePreservesValid | backend/app/game_tracker.py:21-28 | `add_game` keeps every game well formed, also when its draw fails |
| AuctionFacts.AddGameFacts | backend/app/game_tracker.py:21-28 | a successful `add_game` stores the creator as the only player, draws the team at `pick` and puts it on the block, and leaves other games unchanged |
| AuctionFacts.AddGameDrawnTeamNotRemaining | backend/app/game_tracker.py:26-28 | with a master list of distinct teams, the team on the block is not among the remaining ones |
| AuctionFacts.AddGameEmptyMaster | backend/app/game_tracker.py:23-28 | on an empty master list `add_game` raises `IndexError` after storing the game |
| AuctionFacts.AddPlayerPreservesValid | backend/app/game_tracker.py:30-31 | `add_player` keeps every game well formed |
| AuctionFacts.AddPlayerResets | backend/app/game_tracker.py:30-31 | `add_player` stores a fresh record even over an existing player's |
| AuctionFacts.UpdatePlayerPreservesValid | backend/app/game_tracker.py:33-35 | `update_player` keeps every game well formed |
| AuctionFacts.UpdatePlayerCharges | backend/app/game_tracker.py:33-35 | `update_player` succeeds exactly for a known player of a known game; it lowers the balance by exactly the amount, with no floor, appends the team, and changes nothing else |
| AuctionFacts.GetRandomTeamPreservesValid | backend/app/game_tracker.py:43-46 | `get_random_team` keeps every game well formed |
| AuctionFacts.GetRandomTeamFacts | backend/app/game_tracker.py:43-46 | the draw fails exactly on an unknown game (`KeyError`) or an empty list (`IndexError`); otherwise it returns a remaining team and removes one occurrence of it |
| AuctionFacts.PlaceBidPreservesValid | backend/app/game_tracker.py:54-57 | `place_bid` keeps every game well formed |
| AuctionFacts.PlaceBidFacts | backend/app/game_tracker.py:54-57 | `place_bid` logs the bid, makes it current and restarts the countdown, without comparing it to the current bid |
| AuctionFacts.DecrementPreservesValid | backend/app/game_tracker.py:94-95 | `decrement_countdown` keeps every game well formed |
| AuctionFacts.DecrementFacts | backend/app/game_tracker.py:94-95 | the countdown falls by exactly one, with no floor at zero |
| AuctionFacts.SettlePreservesValid | backend/app/game_tracker.py:62-71 | settling the lot keeps every game well formed |
| AuctionFacts.FinalizeUnsettled | backend/app/game_tracker.py:62-71 | when settling fails, `finalize_bid` stops there |
| AuctionFacts.FinalizeNoTeams | backend/app/game_tracker.py:73-74 | with no team left, `finalize_bid` raises `IndexError` after settling |
| AuctionFacts.FinalizeStores | backend/app/game_tracker.py:73-77 | a successful `finalize_bid` leaves the settled table with the game moved to its next lot |
| AuctionFacts.FinalizePreservesValid | backend/app/game_tracker.py:59-79 | `finalize_bid` keeps every game well formed |
| AuctionFacts.FinalizeWithBids | backend/app/game_tracker.py:62-64 | with bids, the last logged bid wins: its player is charged its amount and credited the label; the next team is drawn and bid, countdown and log are reset |
| AuctionFacts.FinalizeWithoutBids | backend/app/game_tracker.py:65-71 | without bids, the returned bid names no player, bids -1 on the team on the block, and charges no one |
| AuctionFacts.FinalizeFailures | backend/app/game_tracker.py:59-86 | `finalize_bid` fails on an unknown game, an unknown winner, no team on the block with no bids, and an empty list after settling |
| AuctionFacts.FinalizeShrinksRemaining | backend/app/game_tracker.py:73-74 | a successful `finalize_bid` moves exactly one remaining team to the block |
| Tracker.InsertBySeed | backend/app/game_tracker.py:18 | inserting into a seed-sorted list keeps it sorted and adds exactly the new team |
| Tracker.SortBySeed | backend/app/game_tracker.py:18 | sorting by seed gives a seed-ordered permutation of the teams |
| Tracker.GameTracker.constructor | backend/app/game_tracker.py:15-18 | a new tracker has no games and a seed-sorted permutation of the tournament's teams |
| Tracker.GameTracker.AddGame | backend/app/game_tracker.py:21-28 | the table after `add_game` is `AuctionSpec.AddGame` of the old one, and stays well formed |
| Tracker.GameTracker.AddPlayer | backend/app/game_tracker.py:30-31 | the table after `add_player` is `AuctionSpec.AddPlayer` of the old one, and stays well formed |
| Tracker.GameTracker.UpdatePlayer | backend/app/game_tracker.py:33-35 | the table after `update_player` is `AuctionSpec.UpdatePlayer` of the old one, and stays well formed |
| Tracker.GameTracker.GetPlayerInfo | backend/app/game_tracker.py:37-38 | `KeyError` unless game and player exist; the record returned is filed under its own name and game |
| Tracker.GameTracker.GetAllPlayers | backend/app/game_tracker.py:40-41 | `KeyError` for an unknown game; the players returned include the creator |
| Tracker.GameTracker.GetRandomTeam | backend/app/game_tracker.py:43-46 | the table and the result are those of `AuctionSpec.GetRandomTeam`, and the table stays well formed |
| Tracker.GameTracker.GetRemainingTeams | backend/app/game_tracker.py:48-49 | `KeyError` for an unknown game; the remaining teams are within the master list |
| Tracker.GameTracker.GetAllTeams | backend/app/game_tracker.py:51-52 | the master list, in seed order |
| Tracker.GameTracker.PlaceBid | backend/app/game_tracker.py:54-57 | the table after `place_bid` is `AuctionSpec.PlaceBid` of the old one, and stays well formed |
| Tracker.GameTracker.FinalizeBid | backend/app/game_tracker.py:59-79 | the table and the winner are those of `AuctionSpec.FinalizeBid`, and the table stays well formed |
| Tracker.GameTracker.GetCurrentTeam | backend/app/game_tracker.py:81-86 | `KeyError` for an unknown game, `ValueError` exactly when no team is on the block, else that team |
| Tracker.GameTracker.GetCurrentBid | backend/app/game_tracker.py:88-89 | `KeyError` for an unknown game; the current bid is the last logged bid, or 0 with no bids |
| Tracker.GameTracker.GetCurrentCountdown | backend/app/game_tracker.py:91-92 | `KeyError` for an unknown game; the countdown is at most 10 |
| Tracker.GameTracker.DecrementCountdown | backend/app/game_tracker.py:94-95 | the table after `decrement_countdown` is `AuctionSpec.DecrementCountdown` of the old one, and stays well formed |
| LegacyTracker.LegacyPlayer | backend/app/bid.py:11 | a record made by this tracker is a new player with no name: balance 100 and no teams |
| LegacyTracker.LegacyGameTracker.constructor | backend/app/bid.py:4-5 | the tracker starts with no games |
| LegacyTracker.LegacyGameTracker.AddGame | backend/app/bid.py:7-8 | the game is created, or emptied of its players if it exists |
| LegacyTracker.LegacyGameTracker.AddPlayer | backend/app/bid.py:10-11 | `KeyError` exactly for an unknown game, else a fresh record under the id, overwriting any earlier one |
| LegacyTracker.LegacyGameTracker.UpdatePlayer | backend/app/bid.py:13-15 | `KeyError` unless game and player exist; else the balance falls by exactly the amount, the team is appended, and every other record is kept |
| LegacyTracker.LegacyGameTracker.GetPlayerInfo | backend/app/bid.py:17-18 | `KeyError` unless game and player exist; the record returned belongs to that game |
| LegacyTracker.LegacyGameTracker.GetAll | backend/app/bid.py:20-21 | `KeyError` for an unknown game; the whole player table, whatever the id passed |
| BidForm.Validate | frontend/src/Bid.tsx:37-52 | checked in order: not a number, not above the highest bid, above the balance; a bid is accepted exactly when it parses and highest < bid <= balance |
| BidForm.RejectionMessage | frontend/src/Bid.tsx:39-51 | each failed check shows its own message |
| BidForm.ResetBidAccepted | frontend/src/Bid.tsx:24-26 | the value the input is reset to, highest bid + 1, passes every check when the player can afford it |
| BidForm.EqualBidRejected | frontend/src/Bid.tsx:44-47 | a bid equal to the highest bid is too low |
| BidForm.WholeBalanceAccepted | frontend/src/Bid.tsx:49-52 | a bid of the whole balance passes; one more exceeds the balance |
| BidForm.BidInput.constructor | frontend/src/Bid.tsx:18-26 | at mount the input holds highest bid + 1 and nothing is being submitted |
| BidForm.BidInput.Rerender | frontend/src/Bid.tsx:24-26 | the input is reset to highest bid + 1 when, and only when, the highest bid changed |
| BidForm.BidInput.Edit | frontend/src/Bid.tsx:29-31 | typing replaces the input text and nothing else |
| BidForm.BidInput.Submit | frontend/src/Bid.tsx:33-61 | ignored while submitting; otherwise the first failed check is reported, or the request with the parsed amount is sent and the form marked submitting |
| BidForm.BidInput.Settle | frontend/src/Bid.tsx:64-72 | the form always stops submitting; a failure shows the failure alert |
| LegacyBid.Check | frontend/src/bid.tsx:18-22 | a bid passes exactly when it parses and beats the highest bid |
| LegacyBid.Heard | frontend/src/bid.tsx:38-43 | a numeric message becomes the highest bid; anything else leaves it |
| LegacyBid.NoNumberNoChange | frontend/src/bid.tsx:38-43 | without numeric messages the highest bid never changes |
| LegacyBid.LastNumberWins | frontend/src/bid.tsx:38-43 | the highest bid is the last numeric message, even when it is lower than an earlier one |
| LegacyBid.ResetInputAccepted | frontend/src/bid.tsx:12-14 | the value the input is reset to always passes the check |
| LegacyBid.BidPage.constructor | frontend/src/bid.tsx:7-14 | at mount the highest bid is 0 and the input reads "1" |
| LegacyBid.BidPage.Edit | frontend/src/bid.tsx:54 | typing replaces the input text and nothing else |
| LegacyBid.BidPage.Submit | frontend/src/bid.tsx:16-34 | a rejected bid shows one alert and posts nothing; an accepted one posts the number |
| LegacyBid.BidPage.OnMessage | frontend/src/bid.tsx:12-43 | the highest bid is `Heard` of the message; the input is reset exactly when the highest bid changed |
| GamePage.Receive | frontend/src/GamePage.tsx:27-43 | `"gameStarted"` is ignored; otherwise only the first present key of participants, bid, countdown replaces its field |
| GamePage.TeamNeverChanges | frontend/src/GamePage.tsx:18-43 | no run of messages changes the team, which stays "Texas" |
| GamePage.AtMostOneField | frontend/src/GamePage.tsx:34-42 | a message changes at most one field |
| GamePage.UnknownKeysIgnored | frontend/src/GamePage.tsx:31-43 | messages without any of the three keys leave the page as it was |
| GamePage.GamePageState.constructor | frontend/src/GamePage.tsx:15-18 | at mount: bid 0, countdown 10, no participants, team "Texas" |
| GamePage.GamePageState.OnMessage | frontend/src/GamePage.tsx:27-43 | the state after the handler is `Receive` of the old state and the message |
| GamePage.JsRem | frontend/src/GamePage.tsx:50-51 | `%` is exactly Dafny's remainder on a non-negative dividend; on a negative one it takes the dividend's sign: 0 when `b` divides it, else Dafny's remainder less `b` |
| GamePage.HMSParts | frontend/src/GamePage.tsx:49-51 | for non-negative seconds, minutes and seconds are below 60 and the three parts recompose the input |
| GamePage.TwoDigits | frontend/src/GamePage.tsx:53-55 | a part below 100 is padded to exactly two digits that read back as the part |
| GamePage.SecondsToHMS | frontend/src/GamePage.tsx:48-58 | for non-negative seconds the text ends in `:MM:SS`, two characters per field after the hours; `GamePage.HMSRoundTrip` proves it reads back as the seconds |
| GamePage.HMSRoundTrip | frontend/src/GamePage.tsx:48-58 | under 100 hours the text is `HH:MM:SS`, and reading the fields back gives the seconds |
| GamePage.Hue | frontend/src/GamePage.tsx:91 | the hue is in [0, 360) and is 30 times the index modulo 12 |
| GamePage.HueCycle | frontend/src/GamePage.tsx:91 | two icons share a colour exactly when their indices agree modulo 12 (the same formula appears at `frontend/src/ViewPage.tsx:89`) |
| ViewPage.LocalMax | frontend/src/ViewPage.tsx:34-45 | a player's running best score is never negative |
| ViewPage.LocalMaxIsMax | frontend/src/ViewPage.tsx:34-45 | the best score bounds every team's points and is 0 or one team's points |
| ViewPage.MapSeq | frontend/src/ViewPage.tsx:33-56 | copying the entries gives a table of the same length |
| ViewPage.MapSeqAt | frontend/src/ViewPage.tsx:33-56 | row `k` of the copy is built from entry `k` |
| ViewPage.RowsOfEntries | frontend/src/ViewPage.tsx:36-56 | each row holds its key with the player's fields copied, `parseInt` applied to balance and points |
| ViewPage.MaxPointsAsWritten | frontend/src/ViewPage.tsx:58-60 | as written, `maxPoints` never falls below the value the handler captured |
| ViewPage.AsWrittenSetsAPlayersScore | frontend/src/ViewPage.tsx:58-60 | as written, a raised `maxPoints` is some player's best score, not necessarily the largest |
| ViewPage.HighestPoints | frontend/src/ViewPage.tsx:58-60 | the corrected `maxPoints` is at least the captured value |
| ViewPage.HighestPointsIsMax | frontend/src/ViewPage.tsx:58-60 | the corrected `maxPoints` bounds every player's best score and is the old value or one of them |
| ViewPage.AsWrittenAtMostHighest | frontend/src/ViewPage.tsx:58-60 | the value the handler leaves never exceeds the highest score |
| ViewPage.LastSetterWins | frontend/src/ViewPage.tsx:58-60 | scores 30 then 20: as written the page ends with 20, the maximum is 30 |
| ViewPage.ViewPageState.constructor | frontend/src/ViewPage.tsx:14-17 | at mount: an empty table and `maxPoints` 0 |
| ViewPage.ViewPageState.OnMessage | frontend/src/ViewPage.tsx:24-65 | `"gameStarted"` and messages without `players` change nothing; otherwise the table is replaced by the copied entries and `maxPoints` is left as the handler as written leaves it: the last player's best score above the value it captured |
| ViewPage.ReadPlayers | frontend/src/ViewPage.tsx:32-62 | the loop builds the copied table and compares each player's best score with the captured `maxPoints`, so the last setter wins |
| ViewPage.ReadPlayer | frontend/src/ViewPage.tsx:34-56 | one player is copied with `parseInt` on balance and points, along with their best score |
| ViewPage.CopyTeams | frontend/src/ViewPage.tsx:41-55 | the teams are copied unchanged along with their best score |
| Text.IntToString | frontend/src/Bid.tsx:25 | `toString` of an integer: a minus sign exactly for a negative number, then decimal digits whose value is its magnitude |
| Text.NatToString | frontend/src/GamePage.tsx:53-55 | decimal text is non-empty digits, one for n < 10 and two for n < 100 |
| Text.NatToStringValue | frontend/src/GamePage.tsx:53-55 | decimal text reads back as the number |
| Text.ParseInt | frontend/src/Bid.tsx:37 | `parseInt(s, 10)`: a non-empty string of digits gives its value, and blank text gives NaN; `Text.ParseIntOfIntToString` proves it inverts `toString` |
| Text.TrimStart | frontend/src/Bid.tsx:37 | `parseInt` skips leading white space: the result is a suffix that starts with no space |
| Text.LeadingDigits | frontend/src/Bid.tsx:37 | `parseInt` reads the longest run of leading digits |
| Text.ParseIntOfIntToString | frontend/src/Bid.tsx:25-37 | `parseInt` of an integer's text gives the integer back |
| Text.PadStart | frontend/src/GamePage.tsx:53-55 | padding keeps the text as a suffix and fills the front up to the width |
| Text.ZeroPadValue | frontend/src/GamePage.tsx:53-55 | zero padding keeps the digits' value |
| Grouping.FirstAppearances | frontend/src/Bracket.tsx:200-206 | the `Map` keys are the keys seen, each once |
| Grouping.GroupBy | frontend/src/Bracket.tsx:200-206 | the `forEach` fill of the `Map` gives the entries of `Grouped` |
| Grouping.GroupedPlacesEveryItem | frontend/src/Bracket.tsx:200-206 | every item is in the entry of its own key |
| Grouping.GroupedEntriesHoldTheirKey | frontend/src/Bracket.tsx:200-206 | an entry holds only items of its key |
| Grouping.GroupedEntriesNonEmpty | frontend/src/Bracket.tsx:202-205 | no entry is empty |
| Grouping.GroupedAppendRun | frontend/src/Bracket.tsx:131-137 | a run of a new key adds one entry with exactly those items and keeps the earlier ones |
| Grouping.Get | frontend/src/Bracket.tsx:247 | `map.get` is none exactly when no entry has the key, and otherwise that entry's list |
| BracketView.Regions | frontend/src/Bracket.tsx:200-206 | each team is keyed by its region |
| BracketView.GroupTeamsByRegion | frontend/src/Bracket.tsx:199-206 | the teams are grouped by region in order of first appearance |
| BracketView.TeamsInOwnRegion | frontend/src/Bracket.tsx:199-206 | every team lands in its region's group |
| BracketView.RegionGroupsHoldTheirRegion | frontend/src/Bracket.tsx:199-206 | a region's group holds only that region's teams |
| BracketView.SameRegionResults | frontend/src/Bracket.tsx:212 | the kept results are exactly those within one region |
| BracketView.GroupResultsByRegion | frontend/src/Bracket.tsx:208-219 | no results give an empty map; a result with fewer than two participants fails; otherwise same-region results are grouped by region |
| BracketView.ResultGroupsHoldTheirRegion | frontend/src/Bracket.tsx:212-216 | a grouped result has both participants in the region it is filed under |
| BracketView.CrossRegionResultDropped | frontend/src/Bracket.tsx:212 | a result between two regions is filed nowhere |
| BracketView.RegionResults | frontend/src/Bracket.tsx:247 | a region gets no results when nothing was grouped, else `map.get` of its name |
| BracketView.Reverse | frontend/src/Bracket.tsx:247 | odd-indexed regions are drawn reversed |
| BracketView.Reversed | frontend/src/Bracket.tsx:141 | `reverse` puts element `i` at `n - 1 - i` |
| BracketView.RegionRounds | frontend/src/Bracket.tsx:123-141 | a region is drawn as its four rounds in order, or in reverse order |
| BracketView.RoundsOfRegion | frontend/src/Bracket.tsx:131-140 | grouping a built region by round label gives rounds 1 to 4 |
| BracketView.Highlight | frontend/src/Bracket.tsx:154-165 | `toHighlight` holds only with a selected team and both participants present; `BracketView.SelectedTeamHighlightsItsMatch` proves a selected team highlights exactly its round-one match |
| BracketView.UndecidedNotHighlighted | frontend/src/Bracket.tsx:154-157 | a match without two participants is never highlighted |
| BracketView.SelectedTeamHighlightsItsMatch | frontend/src/Bracket.tsx:154-165 | with distinct names, a selected non-bundle team highlights exactly its round-one match |
| RegionBracket.Match.constructor | frontend/src/Utils.tsx:33-38 | a new match holds the given id, link, label and participants, and no winner |
| RegionBracket.Snapshot | frontend/src/Utils.tsx:15-21 | the values of the match objects, one per object |
| RegionBracket.RegionBracketSpec | frontend/src/Utils.tsx:23-87 | the reference region has 15 matches |
| RegionBracket.BuiltDistinct | frontend/src/Utils.tsx:33-39 | the built matches are distinct objects |
| RegionBracket.BuiltComplete | frontend/src/Utils.tsx:23-87 | a complete build holds exactly the reference region |
| RegionBracket.RegionBuilder.constructor | frontend/src/Utils.tsx:24-26 | the counter starts at 1 with no matches |
| RegionBracket.RegionBuilder.CreateMatch | frontend/src/Utils.tsx:28-45 | a new match gets the next id and is appended to both lists |
| RegionBracket.LinkStep | frontend/src/Utils.tsx:62-71 | creating a later-round match links exactly its two feeders to it |
| RegionBracket.AddRoundOneMatch | frontend/src/Utils.tsx:48-54 | a round-one match pairs `teams[i]` with `teams[15 - i]` and keeps the region built |
| RegionBracket.AddNextRoundMatch | frontend/src/Utils.tsx:62-74 | a later-round match is created and both feeders now point to it |
| RegionBracket.AddRound | frontend/src/Utils.tsx:60-79 | one pass creates the whole next round and records it under its number |
| RegionBracket.AddFirstRound | frontend/src/Utils.tsx:47-54 | eight round-one matches, recorded under round 1 |
| RegionBracket.AddLaterRounds | frontend/src/Utils.tsx:56-79 | the `while` loop adds rounds 2 to 4, 15 matches in all, keeps the round-one objects, allocates the rest, and leaves the final as the only match of the last round |
| RegionBracket.CloseFinal | frontend/src/Utils.tsx:81-84 | the final has no next match, and the region equals the reference region |
| RegionBracket.GenerateRegionBracketData | frontend/src/Utils.tsx:23-87 | 15 distinct, newly allocated match objects holding exactly the reference region |
| RegionBracket.IntegrateMatchResults | frontend/src/Utils.tsx:90-93 | the bracket comes back unchanged |
| RegionBracket.IntegrateIdempotent | frontend/src/Utils.tsx:90-93 | integrating twice is integrating once |
| RegionBracket.RegionIds | frontend/src/Utils.tsx:24-34 | ids run 1 to 15 in creation order |
| RegionBracket.RoundOneSlot | frontend/src/Utils.tsx:48-50 | each input position belongs to exactly one round-one match |
| RegionBracket.RoundOnePairing | frontend/src/Utils.tsx:48-50 | round-one match `k` pairs `teams[2k]` with `teams[15 - 2k]`, and each team is in its slot's match |
| RegionBracket.RoundName | frontend/src/Utils.tsx:36 | the label is "Round " followed by digits that read back as the round number |
| RegionBracket.RoundNameValues | frontend/src/Utils.tsx:36 | the labels are "Round 1" to "Round 4" |
| RegionBracket.RoundNamesDistinct | frontend/src/Utils.tsx:36 | different rounds have different labels |
| RegionBracket.RegionRoundsShape | frontend/src/Utils.tsx:47-79 | 8, 4, 2 and 1 matches per round; only round one has participants |
| RegionBracket.Feeders | frontend/src/Utils.tsx:69-71 | each later match is fed by exactly two matches of the round before |
| RegionBracket.NextIsLater | frontend/src/Utils.tsx:69-84 | only the final has no next match; every link points to a later match |
| RegionBracket.HopsToFinal | frontend/src/Utils.tsx:56-84 | following links from any match reaches the final after one hop per remaining round |

## Left out

- `backend/app/api.py`, `backend/app/bracket.py`, `backend/app/models/database.py` and the pages not named above are not part of this model. The fetch of the teams and match results in the tracker's constructor is replaced by a parameter holding the teams.
- `match_results` in the tracker is not modelled: nothing in the tracker reads it.
- Money and the countdown are whole numbers. `BidModel.bid` and `GameInfo.currentBid` are `float` in the source, so the `.2f` formatting of a fractional bid is not covered.
- The pydantic validation of the records is not modelled.
- `random.choice` is an index supplied by the caller; the distribution of the draw is not modelled.
- The 300 ms debounce of the bid input is not modelled; an edit is taken as applied.
- React batching and re-render timing are not modelled; each handler runs to completion on the state it sees.
- The HTTP requests are left out. Their outcome is the `ok` parameter of `BidForm.BidInput.Settle`; the standalone page only logs a failure.
- JSON parsing of socket messages is not modelled: each handler takes the already parsed message.
- `parseInt` of a player's `points` sees whatever the server sends. The server's player record has no `points` field, so that is typically the text "undefined", which gives `None` (NaN).
- `calculateBackgroundColor` in `frontend/src/ViewPage.tsx` is not modelled: it divides floating-point numbers.
- All rendering (layout, colours as CSS strings, logos) is left out. The hue arithmetic is kept.
- GamePage.HMSRoundTrip: stated for fewer than 100 hours, where each field has two digits. Negative seconds follow JavaScript's `%` and `Math.floor` as written (`GamePage.HMSParts`), but nothing is proved about their text.
- RegionBracket.GenerateRegionBracketData: requires exactly 16 teams, the only size the pairing `teams[15 - i]` is written for.
- RegionBracket.Match: only `nextMatchId` is a mutable field; the builder never writes the others after creation.

## Findings

| source | as written | input that shows it | evidently intended | confidence | as-written member | corrected member |
|---|---|---|---|---|---|---|
| frontend/src/ViewPage.tsx:58-60 | each player whose best team score exceeds the `maxPoints` captured by the handler calls `setMaxPoints`, so the last such player wins | `maxPoints` 0; player A with a team of 30 points, then player B with a team of 20 | `maxPoints` becomes 30, the highest score; as written it becomes 20 | not executed | ViewPage.MaxPointsAsWritten (shown by ViewPage.LastSetterWins) | ViewPage.HighestPoints (with ViewPage.HighestPointsIsMax and ViewPage.AsWrittenAtMostHighest) |
