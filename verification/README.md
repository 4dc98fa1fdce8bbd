# nflstatsui data-shaping core, in Dafny

nflstatsui is a small React front end for an NFL statistics backend. It has
three pages: a teams list, a team page with its roster, and a player page with
career stats, season stats and a game log. Most of the app is rendering and
fetch plumbing. This project models the parts that decide *what* is shown, and
proves what they promise:

- **Teams list** (`TeamsPage`): the search box keeps the teams whose name or
  abbreviation contains the search text, ignoring ASCII case.
- **Team page** (`TeamDetailPage`): the table from position groups to
  position codes; the roster filter, which ANDs a position group with a
  case-insensitive name search; the roster table's cells (experience shown
  as `R` for a rookie and as a dash when missing); the single
  "No players found" row.
- **Stat cards** (`StatCards`): `formatLabel`, which turns `passingYards`
  into `Passing Yards` and the first `Pct` into `%`; when a category's card
  is left out; what each value cell shows.
- **Game log** (`GameLog`): which of the five column groups appear, and how
  the header and every body row then agree column for column.
- **Player page state** (`PlayerPage.Page`): a class holding the page's
  `useState` fields (`profile`, `loading`, `error`, `tab`,
  `selectedSeason`, `seasonStats`, `gameLog`, `seasonLoading`). Its
  methods are the effects and the clicks that change those fields. Each
  request is one step: it is sent and its reply is applied. The reply
  arrives as a parameter.
- **API client** (`Api`): the five request paths under `/nfl`, and the
  decision `fetchJSON` takes on a response. `Route` reads a path back into
  the endpoint it names. The `Route...` lemmas prove that, for arguments
  that contain no `/`, each path builder names exactly the endpoint and
  arguments it was given. The builders interpolate their arguments
  unencoded, so an argument holding a `/` adds path segments.

Shared modules:
- `Wrappers` holds `Option` and `Result`.
- `Seqs` holds an order-preserving `Filter` with its subsequence, commutation
  and monotonicity lemmas, and the `Any` of `Array.prototype.some`.
- `Text` holds ASCII `toLowerCase`, `includes`, `indexOf`, `replace` with a
  string pattern, and the decimal rendering of integers.

Four behaviours of the code a reader may not expect, which the model keeps:
- A key that starts with a capital letter gets a space in front of it
  (`/([A-Z])/g` matches every capital, not only internal ones). `/^./` then
  upper-cases that space, so the label keeps a leading space.
- Only the first `Pct` of a label becomes `%`.
- A card is shown as soon as one entry other than `__typename` is neither
  null nor exactly 0. Non-integer values count too.
- The second effect fetches nothing while no season is selected or the
  career tab is open. Changing the tab or the season to the value it already
  has does not fetch again.

## Model

| member | source | states |
|---|---|---|
| TeamsPage.FilterTeams | src/pages/TeamsPage.jsx:21-24 | a team is kept iff its lower-cased name or abbreviation contains the lower-cased search; the result is a subsequence of the teams, and each kept team appears as often as in the input |
| TeamsPage.EmptySearchKeepsAll | src/pages/TeamsPage.jsx:21-24 | an empty search returns every team, in order |
| TeamsPage.SearchIgnoresCase | src/pages/TeamsPage.jsx:22-23 | searches equal up to ASCII case give identical results |
| TeamsPage.LongerSearchNarrows | src/pages/TeamsPage.jsx:22-23 | extending the search yields a subsequence of the previous result |
| TeamsPage.PackersByAbbreviation | src/pages/TeamsPage.jsx:21-24 | "gb" and "GB" both keep {Packers, GB} |
| TeamsPage.PackersNotJets | src/pages/TeamsPage.jsx:21-24 | "jets" keeps nothing of {Packers, GB} |
| TeamDetailPage.PositionCodes | src/pages/TeamDetailPage.jsx:5-16 | the codes of each group; the result is `null` exactly for All |
| TeamDetailPage.GroupsDisjoint | src/pages/TeamDetailPage.jsx:7-15 | no position code is listed under two different groups |
| TeamDetailPage.ByPosition | src/pages/TeamDetailPage.jsx:37-40 | keeps exactly the players whose position is in the group's codes (everyone for All), as a subsequence keeping each one's multiplicity |
| TeamDetailPage.BySearch | src/pages/TeamDetailPage.jsx:41-44 | keeps exactly the players whose lower-cased name contains the lower-cased search (everyone for ""), as a subsequence keeping each one's multiplicity |
| TeamDetailPage.FilterRoster | src/pages/TeamDetailPage.jsx:34-46 | `[]` for a missing team or roster; otherwise a player is kept iff both the position and the name test hold, as a subsequence of the roster keeping each one's multiplicity |
| TeamDetailPage.FiltersCommute | src/pages/TeamDetailPage.jsx:37-44 | the position filter and the name filter can be applied in either order |
| TeamDetailPage.NeutralFilters | src/pages/TeamDetailPage.jsx:35-45 | All with an empty search returns the roster unchanged |
| TeamDetailPage.FilterComposes | src/pages/TeamDetailPage.jsx:36-45 | filtering by group alone and then by search alone equals the combined filter |
| TeamDetailPage.ExperienceCell | src/pages/TeamDetailPage.jsx:125 | the dash iff experience is missing, `R` iff it is 0, otherwise a number cell holding the experience value itself |
| TeamDetailPage.ExperienceCellInjective | src/pages/TeamDetailPage.jsx:125 | distinct experience values never show the same cell |
| TeamDetailPage.OrDash | src/pages/TeamDetailPage.jsx:126-127 | college and status show the dash when missing or empty, their text otherwise |
| TeamDetailPage.PlayerCells | src/pages/TeamDetailPage.jsx:110-128 | a player row has one cell per header column, with the experience, college and status rules in columns 7-9 |
| TeamDetailPage.RosterBody | src/pages/TeamDetailPage.jsx:109-132 | an empty roster gives exactly one "No players found" row spanning 9 columns; otherwise one row per player, in order, holding exactly that player's `PlayerCells`; every row is 9 columns wide |
| StatCards.SpaceBeforeUpper | src/pages/PlayerPage.jsx:25 | `/([A-Z])/g` replaced by `' $1'` never shortens the key; its full characterisation is `SpaceBeforeUpperSpec` |
| StatCards.SpaceBeforeUpperSpec | src/pages/PlayerPage.jsx:25 | the first replace adds one space per upper-case letter, puts a space right before each of them, and removing those spaces gives the key back |
| StatCards.SpaceBeforeUpperAppend | src/pages/PlayerPage.jsx:25 | the first replace works character by character, so it distributes over concatenation |
| StatCards.CapitalizeFirst | src/pages/PlayerPage.jsx:26 | `/^./` upper-cases the first character unless it is a line terminator, keeps every other character and the length |
| StatCards.UpperKeyKeepsLeadingSpace | src/pages/PlayerPage.jsx:24-26 | a key starting with a capital gives a label starting with a space |
| StatCards.LowerKeyCapitalized | src/pages/PlayerPage.jsx:24-27 | a key starting with a lower-case letter, and not with "pct", gives a label starting with that letter upper-cased |
| StatCards.FormatLabel | src/pages/PlayerPage.jsx:23-28 | the three replaces in order; no contract of its own: it is characterised by `SpaceBeforeUpperSpec`, `CapitalizeFirst`, `ReplaceFirst` and the lemmas below |
| StatCards.FormatPassingYards | src/pages/PlayerPage.jsx:23-28 | `formatLabel("passingYards")` is "Passing Yards" |
| StatCards.FormatFieldGoalPct | src/pages/PlayerPage.jsx:23-28 | `formatLabel("fieldGoalPct")` is "Field Goal %" |
| StatCards.OnlyFirstPctReplaced | src/pages/PlayerPage.jsx:27 | only the first "Pct" becomes "%": `formatLabel("xPctYPct")` is "X % Y Pct" |
| StatCards.VisibleEntries | src/pages/PlayerPage.jsx:7 | exactly the entries not named `__typename`, each as often as in the input, in their original order |
| StatCards.CellValue | src/pages/PlayerPage.jsx:16 | the placeholder iff the value is null or undefined; an integer shows unchanged |
| StatCards.StatsCard | src/pages/PlayerPage.jsx:5-19 | no card iff stats are missing or every non-`__typename` value is null or 0; otherwise the title, and one row per visible entry, in order, with its label and cell |
| StatCards.OneValueShowsCard | src/pages/PlayerPage.jsx:8 | one visible non-null, non-zero value makes the card render |
| StatCards.TypenameNeverShown | src/pages/PlayerPage.jsx:7-13 | no row of a shown card comes from a `__typename` entry |
| GameLog.Lookup | src/pages/PlayerPage.jsx:33-37 | `cat?.key` is undefined when the category or the key is missing, and otherwise a value stored under the key |
| GameLog.FindFirst | src/pages/PlayerPage.jsx:33-37 | a key that is present is found: the lookup yields the value of its first entry |
| GameLog.LookupFirst | src/pages/PlayerPage.jsx:33-37 | `cat?.key` on a present category yields the value stored under the key (its first entry) |
| GameLog.ColumnFlags | src/pages/PlayerPage.jsx:33-37 | each column-group flag is set iff some game qualifies for it (attempts, attempts, receptions, tackles or sacks, fumbles or fumbles recovered > 0) |
| GameLog.AddingGameKeepsFlags | src/pages/PlayerPage.jsx:33-37 | appending a game sets a flag iff it was set or the new game qualifies; no flag is cleared |
| GameLog.ReorderingKeepsFlags | src/pages/PlayerPage.jsx:33-37 | two logs with the same games in any order have the same flags |
| GameLog.MissingCategoryNeverShown | src/pages/PlayerPage.jsx:33-37 | a category missing from every game never sets its flag |
| GameLog.SectionMarkerUnique | src/pages/PlayerPage.jsx:44-52 | each group's first header names that group only and is not a base header |
| GameLog.SectionCells | src/pages/PlayerPage.jsx:62-101 | a game contributes as many cells to a group as the group has headers |
| GameLog.Enabled | src/pages/PlayerPage.jsx:48-52 | the groups shown are exactly those whose flag is set |
| GameLog.EnabledWidth | src/pages/PlayerPage.jsx:48-52 | the shown groups add 5·passing + 3·rushing + 3·receiving + 7·defensive + 2·fumbles columns |
| GameLog.WidthsAgree | src/pages/PlayerPage.jsx:48-101 | for any list of groups, header cells and body cells have the same count |
| GameLog.SectionAligned | src/pages/PlayerPage.jsx:48-101 | at each group's offset, the header holds that group's headers and the row holds that group's cells |
| GameLog.HeaderWidth | src/pages/PlayerPage.jsx:44-52 | the header has 4 + 5·passing + 3·rushing + 3·receiving + 7·defensive + 2·fumbles columns |
| GameLog.HeaderMarker | src/pages/PlayerPage.jsx:48-52 | a group's first header appears iff its flag is set |
| GameLog.RowShape | src/pages/PlayerPage.jsx:56-101 | each body row is as wide as the header and starts with week, date, opponent and W/L |
| GameLog.GameLogTable | src/pages/PlayerPage.jsx:30-108 | the placeholder iff the log is missing or empty; otherwise the header width formula, a marker present iff its flag is set, one row per game, each row as wide as the header and starting with that game's base cells |
| GameLog.ColumnsAligned | src/pages/PlayerPage.jsx:48-101 | in every row, the columns under a shown group's headers hold that group's cells for the row's game |
| GameLog.PasserOnlyLog | src/pages/PlayerPage.jsx:33-52 | one game with 10 passing attempts and no other data shows Wk, Date, Opp, Result and the five passing columns only |
| Api.Render | src/api.js:14 | a truthy value renders non-empty; an integer renders without `/`, `?` or spaces |
| Api.TeamsPath | src/api.js:9-11 | the path starts with `/nfl/` and has no query string |
| Api.TeamPath | src/api.js:13-15 | starts with `/nfl/`; a `?` appears only if the id brings one |
| Api.PlayerProfilePath | src/api.js:17-19 | starts with `/nfl/`; a `?` appears only if the id brings one |
| Api.PlayerSeasonStatsPath | src/api.js:21-23 | starts with `/nfl/`; a `?` appears only if the id or the season brings one |
| Api.PlayerGameLogPath | src/api.js:25-30 | starts with `/nfl/`; a `?` appears only if the id or a truthy season brings one |
| Api.RouteTeams | src/api.js:9-11 | `getTeams` requests `/nfl/teams` |
| Api.RouteTeam | src/api.js:13-15 | `getTeam(id)` requests the team endpoint for exactly that id |
| Api.RoutePlayerProfile | src/api.js:17-19 | `getPlayerProfile(id)` requests `/nfl/players/{id}/stats` |
| Api.RoutePlayerSeasonStats | src/api.js:21-23 | `getPlayerSeasonStats(id, s)` requests `/nfl/players/{id}/stats/{s}` |
| Api.RoutePlayerGameLog | src/api.js:25-29 | the game-log path carries the season segment iff the season is truthy |
| Api.StatusLineRoundTrip | src/api.js:5 | "<status> <statusText>" reads back into the same status and text |
| Api.FetchOutcome | src/api.js:3-7 | success iff the response is ok, with the body; otherwise an error whose message is the status's decimal rendering, one space, and the status text, which parses back to that status and text |
| PlayerPage.Outcome | src/api.js:3-7 | a request succeeds iff a response arrived and was ok, with its body; a response that is not ok fails with "<status> <statusText>"; a rejected `fetch` fails with exactly its own message |
| PlayerPage.SeasonArg | src/pages/PlayerPage.jsx:136 | the season reaching `api.js` is truthy iff one is selected and it is not 0 |
| PlayerPage.SecondaryRequest | src/pages/PlayerPage.jsx:136-141 | a request is sent iff the season is truthy and the tab is not career; it is for season stats iff the tab is the season tab |
| PlayerPage.SecondaryRequestRoutes | src/pages/PlayerPage.jsx:139-140 | the request names the selected season's stats, or the selected season's game log, of the page's player |
| PlayerPage.StatsAfter | src/pages/PlayerPage.jsx:143-147 | season stats change only on a successful non-null reply to a season-stats request, and always do on one |
| PlayerPage.LogAfter | src/pages/PlayerPage.jsx:143-147 | the game log changes only on a successful non-null reply to a game-log request, and always does on one |
| PlayerPage.GameLogRequestKeepsStats | src/pages/PlayerPage.jsx:139-145 | a game-log request never writes the season stats |
| PlayerPage.StatsRequestKeepsLog | src/pages/PlayerPage.jsx:139-145 | a season-stats request never writes the game log |
| PlayerPage.FailureWritesNothing | src/pages/PlayerPage.jsx:142-148 | a failed season-stats reply leaves the season stats unchanged, and a failed game-log reply leaves the game log unchanged, whatever the request |
| PlayerPage.NullReplyWritesNothing | src/pages/PlayerPage.jsx:143-146 | a reply whose body is `null` leaves the field it would have written unchanged: the season stats for a stats reply, the game log for a log reply |
| PlayerPage.DefaultSeason | src/pages/PlayerPage.jsx:127-129 | the first available season when the list is non-empty, otherwise the current selection; a new selection is always an offered season |
| PlayerPage.NewestSeasonSelected | src/pages/PlayerPage.jsx:127-129 | seasons [2023, 2022, 2021] select 2023 |
| PlayerPage.Page.constructor | src/pages/PlayerPage.jsx:111-120 | the initial state: loading, career tab, nothing selected or fetched |
| PlayerPage.Page.SeasonEffect | src/pages/PlayerPage.jsx:135-149 | sends `SecondaryRequest`; with no request nothing changes; otherwise only the matching reply is applied and `seasonLoading` ends false; tab, season and profile are untouched |
| PlayerPage.Page.LoadProfile | src/pages/PlayerPage.jsx:122-133 | on success stores the profile and selects the default season; on failure stores the error message; loading ends; no season request follows on the career tab; the invariant is kept |
| PlayerPage.Page.SelectTab | src/pages/PlayerPage.jsx:182-184 | sets the tab; the second effect runs iff the tab changed; the invariant is kept |
| PlayerPage.Page.SelectSeason | src/pages/PlayerPage.jsx:187-196 | sets an offered season; the second effect runs iff the season changed; the invariant is kept |
| PlayerPage.GameLogThenSeason | src/pages/PlayerPage.jsx:122-149 | after the profile, the game-log tab and then the season tab, both the 2023 game log and the 2023 stats are held |
| Text.ToLower | src/pages/TeamsPage.jsx:22-23 | `toLowerCase` maps every character through the ASCII lower-case map and keeps the length |
| Text.Contains | src/pages/TeamsPage.jsx:22-23 | `includes` holds iff the needle occurs at some index |
| Text.ContainsPrefix | src/pages/TeamsPage.jsx:22-23 | a text that contains `n + e` contains `n` |
| Text.ReplaceFirst | src/pages/PlayerPage.jsx:27 | a string-pattern `replace` substitutes the leftmost occurrence only, and changes nothing when there is none |
| Text.IntToString | src/api.js:22 | an integer in a template literal starts with a minus sign iff it is negative, then the decimal digits of its magnitude (read back by `ParseNat`) with no leading zero |
| Text.NatToString | src/api.js:22 | the decimal digits of a natural number: read back by `ParseNat`, one digit iff below 10, no leading zero |
| Seqs.Any | src/pages/PlayerPage.jsx:33-37 | `some` holds iff some element satisfies the test |
| Seqs.Filter | src/pages/TeamsPage.jsx:21-24 | `filter` keeps exactly the elements that pass, each as many times as it occurs, in their order |

## Left out

- `fetch`, `res.json()`, promises and `async`: a request and its reply are
  one step, with the reply passed in (`PlayerPage.Reply`). A body that fails
  to parse as JSON is not modelled.
- The stale-response race: requests never interleave in the model, so a
  late reply for an older season or tab cannot be expressed.
- Interleaving of the two player-page effects: `LoadProfile` runs while the
  page shows its spinner, so no tab or season can change before it ends.
- `toFixed(1)`: a non-integer value keeps only its sign (`NonInteger`),
  which is all the `> 0` tests need. Numbers in paths are integers.
- Text.IntToString: JavaScript numbers are doubles; an integer of magnitude
  10^21 or more is written in exponent form (`1e+21`), and integers above
  2^53 are not exact. Neither is modelled: the model renders every integer
  in plain decimal. Seasons and HTTP statuses are far below these bounds.
- `Number(e.target.value)`: `SelectSeason` receives the season as an integer.
- Unicode case mapping: `toLowerCase` and `toUpperCase` are modelled on
  ASCII letters only.
- StatCards.CellValue: the null placeholder in src/pages/PlayerPage.jsx:16
  is a mis-encoded em dash. The model names it `Placeholder` rather than
  asserting a particular string.
- StatCards.FormatLabel: has no single closed-form contract. Its result is
  characterised through `SpaceBeforeUpperSpec`, `CapitalizeFirst`,
  `ReplaceFirst`, the two first-character lemmas and three worked examples.
- Api.Render: only says what a path needs (non-empty when truthy, no `/`,
  `?` or space in an integer). The digits' value is proved once, in
  `Text.NatToString`. It renders `Num(n)` through `Text.IntToString`, so the
  exponent-form limit above applies to it too.
- `useMemo`: performance only.
- JSX markup, CSS, images, the profile header and badges, `Link` and
  `window.location` navigation.
- Loading spinners, error banners, and which panel each tab shows.
- The teams and team fetch effects: only their filtering is modelled.
  Routing in src/App.jsx is not part of this model.
- A JSON `null` profile body: `data.availableSeasons` would throw and the
  error path would store a `TypeError` message. A profile is always an
  object here.
- A change of `playerId` on a mounted page: `playerId` is a constant of
  `Page`, and the profile effect runs once.
- GameLog.Lookup: a category is a list of entries, and a lookup takes the
  first entry with the key (`GameLog.FindFirst`). Keys of a JavaScript object are unique, so this
  choice never matters.
- Stat values other than numbers and `null` (strings, booleans, nested
  objects) are not modelled.
