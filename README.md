# NBA schedule and game grid: a verified model in Dafny

This project models the logic of a small NBA dashboard. The dashboard is a React front end over a Flask back end. Three pieces of it are modelled:

- **The game grid** (`src/components/Games.tsx`). Each card without a score shows a countdown ("Starts in: 1h 1m", or "Game is starting soon!"). The grid shows a window of six games. Previous/Next controls move that window by one row of three. The component shows, in this order of precedence, a loading message, an error, "No games scheduled for today." or the grid.
- **The schedule calendar** (`src/components/GameCalendar.tsx`). Each game's label gives it a type: preseason, playoff, cup or regular. The games of each schedule date are grouped into `{count, type}` records. The records are indexed by calendar day, and days are highlighted by the types they hold. The selected date is saved in browser storage under `selectedDate` and restored when the component mounts.
- **The stats endpoint** (`app.py`). `reshape_data` zips a header row with each data row into a dictionary. `get_game_stats` answers with the player and team records, or with an error message and status 500.

Modules, one file each:

- `common.dfy` (`Common`): `Option`, a Python `Result`, the settled outcome of a browser `fetch`, and JavaScript truthiness of a nullable string.
- `text.dfy` (`Text`): ASCII lower/upper casing, substring containment, and decimal rendering of a natural number, with its parser.
- `games.dfy` (`Games`): the countdown, the window, navigation, the screen choice, and the `GamesBoard` class holding the component's state.
- `game_calendar.dfy` (`GameCalendar`): classification, the grouping reducer (as a method over a sequence accumulator, specified by a fold), the day index (as a method, specified by a fold), the highlight predicates, date selection and persistence, and the `Calendar` class holding the component's state and the storage it writes.
- `app.py` is modelled in `app.dfy` (`App`): `dict(zip(...))`, `reshape_data` and `get_game_stats`.

Inputs from the outside world become parameters:

- The countdown takes the number of seconds between the game's start and now as an `int`, in place of `differenceInSeconds(parseISO(gameEt), new Date())`.
- A JavaScript `Date` is `Date(day, iso)`: the results of its `toDateString()` and `toISOString()`.
- A `gameDates` entry carries its day key already rendered.
- Browser storage is a `map<string, string>`. Parsing a stored string back into a date is a function parameter.
- A `fetch` settles to `Response(ok, payload)` or `Rejected(message)`.
- The box-score call settles to `Ok(BoxScore)` or `Err(message)`.
- The `onDateSelect` callback is a log of the dates it was called with.

Two behaviours of the code are worth knowing before reading the model:

- **Type precedence.** The code tests "preseason" first, then "playoffs" (plural only), then "cup" (`GameCalendar.tsx:36-38`). So "Preseason Cup" is preseason, and a "Playoff" label is regular.
- **Windows overlap.** The window steps by `COLUMNS_DISPLAYED` (3) but shows `GAMES_PER_PAGE` (6) games, so consecutive windows share three games (`Games.tsx:119-121`). For 14 games the windows hold 6, 6, 6, 5 and 2 games (`Games.FourteenGames`).

## Model

| member | source | states |
|---|---|---|
| `Text.Lower` | src/components/GameCalendar.tsx:36-38 | `toLowerCase` keeps the length and lower-cases character by character |
| `Text.LowerOfUpper` | src/components/GameCalendar.tsx:36-38 | lower-casing an upper-cased string gives the lower-cased original |
| `Text.LowerIdempotent` | src/components/GameCalendar.tsx:36-38 | lower-casing twice is lower-casing once |
| `Text.Contains` | src/components/GameCalendar.tsx:36-38 | `includes`: a contained string is no longer than the text, and the empty string is contained in every text |
| `Text.NatToString` | src/components/Games.tsx:102 | `${n}` for a natural number is a non-empty string of digits with no leading zero |
| `Text.ParseNatToString` | src/components/Games.tsx:102 | the rendered digits read back as the number they render |
| `Text.NatToStringInjective` | src/components/Games.tsx:102 | different numbers render as different text |
| `Games.RenderHoursMinutes` | src/components/Games.tsx:102 | the text starts with a digit and ends with "m", so it is never the sentinel |
| `Games.RenderHoursMinutesInjective` | src/components/Games.tsx:102 | different (hours, minutes) pairs never render as the same text |
| `Games.SplitSeconds` | src/components/Games.tsx:100-101 | for s > 0: minutes < 60 and h*3600 + m*60 <= s < h*3600 + m*60 + 60 (never rounded up) |
| `Games.Countdown` | src/components/Games.tsx:96-98 | the text is "Game is starting soon!" exactly when the seconds are <= 0, zero included |
| `Games.CountdownIsFloor` | src/components/Games.tsx:100-102 | any h, m with m < 60 that bracket s from below are what is shown, as "{h}h {m}m" |
| `Games.CountdownExamples` | src/components/Games.tsx:96-102 | 3661 s gives "1h 1m", 59 s gives "0h 0m", 0 and negative seconds give the sentinel |
| `Games.TotalMinutes` | src/components/Games.tsx:100-101 | h*60 + m equals the whole minutes remaining, s div 60 |
| `Games.CountdownMonotone` | src/components/Games.tsx:94-102 | as now moves towards the start, the shown (h, m) never increases |
| `Games.Window` | src/components/Games.tsx:119-121 | the window holds at most 6 games: games[3i ..], up to 6 of them, clamped to the list; empty past the end |
| `Games.WindowsOverlap` | src/components/Games.tsx:119-121 | games 3..5 of window i are games 0..2 of window i+1 |
| `Games.WindowNonEmpty` | src/components/Games.tsx:119-121 | a window is non-empty exactly when 3i < the number of games |
| `Games.NextIndex` | src/components/Games.tsx:105-110 | Next moves by one or not at all, and from a window that starts on a game it never moves past the last game |
| `Games.PreviousIndex` | src/components/Games.tsx:112-117 | Previous never increases the index, and stays put exactly at index 0 |
| `Games.Navigate` | src/components/Games.tsx:105-117 | after n presses the index is within n of where it started |
| `Games.NextSteps` | src/components/Games.tsx:105-110 | Next adds exactly 1 when (i+1)*3 < the number of games, and otherwise leaves i unchanged |
| `Games.PreviousSteps` | src/components/Games.tsx:112-117 | Previous subtracts 1 when i > 0 and leaves 0 as it is, so i is never negative |
| `Games.NavigationStaysOnGames` | src/components/Games.tsx:105-117 | from an index with 3i < n, every sequence of presses keeps 3i < n |
| `Games.ShownWindowNeverEmpty` | src/components/Games.tsx:105-121 | starting at index 0 over a non-empty list, no sequence of presses leads to an empty window |
| `Games.FourteenGames` | src/components/Games.tsx:105-121 | with 14 games: windows of 6, 6, 6, 5 and 2, four Nexts reach index 4, and Next there and Previous at 0 do nothing |
| `Games.ScreenOf` | src/components/Games.tsx:79-121 | an error screen shows the stored, non-empty message; a grid shows the current window of a non-empty list, and a button is enabled exactly when pressing it moves |
| `Games.ScreenPrecedence` | src/components/Games.tsx:79-89 | loading, then a non-empty error (shown as stored), then the empty list, then the grid |
| `Games.GamesBoard.constructor` | src/components/Games.tsx:27-31 | the component starts loading, with no games, no error and index 0 |
| `Games.GamesBoard.ApplyTodayGames` | src/components/Games.tsx:38-56 | a rejection stores its message; a non-OK response stores "Failed to fetch NBA games"; an OK body stores `full_json`, or [] when it is missing; loading ends; the invariant is kept |
| `Games.GamesBoard.HandleNext` | src/components/Games.tsx:105-110 | the index becomes `NextIndex(i, n)`, and the window starts on a game or the index is 0 |
| `Games.GamesBoard.HandlePrevious` | src/components/Games.tsx:112-117 | the index becomes `PreviousIndex(i)`, and the window starts on a game or the index is 0 |
| `Games.GamesBoard.GridNeverEmpty` | src/components/Games.tsx:79-121 | `CurrentScreen`, the render choice over the component state: in any reachable state, a grid that is shown shows at least one game |
| `GameCalendar.Classify` | src/components/GameCalendar.tsx:33-39 | a game that is not regular has a non-empty label whose lower-cased text holds that type's keyword |
| `GameCalendar.ClassifyPrecedence` | src/components/GameCalendar.tsx:33-41 | "preseason" (ignoring case) gives preseason whatever else the label says; otherwise "playoffs" gives playoff; otherwise "cup" gives cup; otherwise regular |
| `GameCalendar.ClassifyIgnoresCase` | src/components/GameCalendar.tsx:36-38 | under the model's ASCII casing, upper- or lower-casing a label does not change its type |
| `GameCalendar.ClassifyMissingOrEmpty` | src/components/GameCalendar.tsx:34-35 | a missing or empty label is regular |
| `GameCalendar.ClassifyPreseasonFirst` | src/components/GameCalendar.tsx:36 | "Preseason" and "Preseason Cup" are preseason |
| `GameCalendar.ClassifyPlayoffs` | src/components/GameCalendar.tsx:37 | "NBA PLAYOFFS" is a playoff game |
| `GameCalendar.ClassifyCup` | src/components/GameCalendar.tsx:38 | "Emirates NBA Cup" is a cup game |
| `GameCalendar.ClassifySingularPlayoff` | src/components/GameCalendar.tsx:37 | "Playoff" (singular) is regular: only the plural is looked for |
| `GameCalendar.Tallies` | src/components/GameCalendar.tsx:33-41 | each game becomes `{count: 1, type}`, in order |
| `GameCalendar.FindType` | src/components/GameCalendar.tsx:44 | `acc.find` gives the first position holding the type, or -1 when no record has it |
| `GameCalendar.GroupStep` | src/components/GameCalendar.tsx:44-50 | one reducer step keeps every record's type in place, changes only the record of the entry's type, adds at most one record, and leaves a record of that type |
| `GameCalendar.GroupAll` | src/components/GameCalendar.tsx:43-51 | the reduce from `[]` gives no more records than entries, and none exactly for no entries |
| `GameCalendar.GroupByType` | src/components/GameCalendar.tsx:43-51 | the in-place reducer computes the fold `GroupAll` of its input |
| `GameCalendar.GroupKinds` | src/components/GameCalendar.tsx:43-51 | the grouped types are the input's distinct types, in order of first appearance (`Dedup`) |
| `GameCalendar.DedupFirstAppearanceOrder` | src/components/GameCalendar.tsx:43-51 | of two grouped types, the earlier one first appears earlier in the input |
| `GameCalendar.GroupCounts` | src/components/GameCalendar.tsx:43-51 | each record's count is the summed counts of the input entries of its type |
| `GameCalendar.GroupSum` | src/components/GameCalendar.tsx:43-51 | the records' counts add up to the input's total count |
| `GameCalendar.GroupCountsPositive` | src/components/GameCalendar.tsx:40-51 | with input counts >= 1, every record's count is >= 1 |
| `GameCalendar.DayGroups` | src/components/GameCalendar.tsx:33-51 | the `groupedByType` list of a date has no more records than games, and is empty exactly when the date has no games |
| `GameCalendar.DayGroupsSummary` | src/components/GameCalendar.tsx:33-53 | a date's list has distinct types ordered by first appearance, counts >= 1 summing to the number of games, and lists a type exactly when some game's label has it |
| `GameCalendar.IndexAll` | src/components/GameCalendar.tsx:31-54 | after the forEach, the last date entry's day holds that entry's grouped list |
| `GameCalendar.IndexOf` | src/components/GameCalendar.tsx:28-57 | a schedule without `gameDates` gives an empty index; otherwise the index has a key exactly for the days of the entries |
| `GameCalendar.BuildIndex` | src/components/GameCalendar.tsx:28-57 | the forEach computes the fold `IndexOf`; missing `gameDates` gives an empty index |
| `GameCalendar.IndexKeys` | src/components/GameCalendar.tsx:30-54 | the index has a key exactly for the day of each date entry |
| `GameCalendar.IndexLastWins` | src/components/GameCalendar.tsx:53 | when two entries share a day, the later entry's list is the one stored |
| `GameCalendar.DayCountsSum` | src/components/GameCalendar.tsx:28-57 | a day's stored counts add up to the number of games of its last entry |
| `GameCalendar.ModifiersOf` | src/components/GameCalendar.tsx:91-102 | a day marked regular has no other mark, and a day not in the index has no mark |
| `GameCalendar.ModifierRules` | src/components/GameCalendar.tsx:91-102 | over `HasType`, the `?.some(...)` test: regular holds exactly when regular is present and no preseason, playoff or cup; every day with games gets some mark; an unindexed day gets none |
| `GameCalendar.ModifiersFollowLabels` | src/components/GameCalendar.tsx:92-99 | `HasType` (the `games[day]?.some(game => game.type === t)` test) holds for a day exactly when a game of its last entry has a label of type t |
| `GameCalendar.DayMarksFollowLabels` | src/components/GameCalendar.tsx:91-102 | a day is marked playoff, preseason or cup exactly when a game of its last entry has that type, and regular exactly when some game is regular and none is preseason, playoff or cup |
| `GameCalendar.Persist` | src/components/GameCalendar.tsx:76-80 | "selectedDate" is set to the ISO text, or removed for null; no other key changes |
| `GameCalendar.Restore` | src/components/GameCalendar.tsx:13-16 | the initial selection is the parsed stored text when the key holds a non-empty string, and null otherwise |
| `GameCalendar.SelectDate` | src/components/GameCalendar.tsx:70-81 | afterwards the selected day is the chosen date's day, and the callback has been called with it once or not at all |
| `GameCalendar.SelectSameDayIsNoOp` | src/components/GameCalendar.tsx:71 | a date with the current day string, or null when none is selected, changes nothing: no state, no callback, no storage write |
| `GameCalendar.SelectNewDay` | src/components/GameCalendar.tsx:72-80 | another day becomes the selection, is passed to the callback once, and sets or removes only "selectedDate" |
| `GameCalendar.SelectTwice` | src/components/GameCalendar.tsx:70-81 | selecting the same date twice in a row is the same as selecting it once |
| `GameCalendar.RestoreAfterSelect` | src/components/GameCalendar.tsx:13-16 | after a change of day, a remount restores the chosen date (given that parsing its ISO text gives it back) |
| `GameCalendar.Calendar.constructor` | src/components/GameCalendar.tsx:10-16 | an empty index, loading, no error, and the selection restored from storage |
| `GameCalendar.Calendar.ApplySchedule` | src/components/GameCalendar.tsx:19-67 | an OK body replaces the index with `IndexOf`; a non-OK response or a rejection sets the error and keeps the index; loading ends; the selection is untouched |
| `GameCalendar.Calendar.HandleDateSelect` | src/components/GameCalendar.tsx:70-81 | the selection, storage and callback log become `SelectDate` of the old ones; the index, loading flag and error are unchanged |
| `GameCalendar.Calendar.ScreenOrder` | src/components/GameCalendar.tsx:104-105 | `CurrentScreen`, the render choice over the component state: loading first, then a non-empty error (shown as stored), then the calendar |
| `App.ZipDict` | app.py:46 | every key of a record is one of the headers |
| `App.ZipKeys` | app.py:46 | a record's keys are headers[j] for j < min(len(headers), len(row)) |
| `App.ZipLastWins` | app.py:46 | a header's value comes from the last column with that header |
| `App.ZipFullRow` | app.py:46 | with distinct headers and a row at least as long, the keys are exactly the headers, each mapped to its column |
| `App.ZipTruncates` | app.py:46 | the zip depends only on the first min(len(headers), len(row)) columns |
| `App.ZipExamples` | app.py:46 | a duplicate header keeps the later value; a short row or short header list is truncated |
| `App.ReshapeData` | app.py:45-46 | one record per data row, in row order, each the zip of the headers with that row |
| `App.ReshapeTable` | app.py:49-50 | a table reshapes exactly when it has both keys; a missing "headers" raises `'headers'`, otherwise a missing "data" raises `'data'` |
| `App.GetGameStats` | app.py:35-59 | a failed box-score call answers with its message; any other failure is the `KeyError` of 'headers' or 'data' |
| `App.GameStatsOutcome` | app.py:49-59 | both lists (status 200) exactly when the box score was fetched and both tables have both keys, each list reshaped from its own table; otherwise only the error (status 500): the box-score call's message, else the player table's `KeyError` ('headers' before 'data'), else the team table's |
| `App.PlayerStatsIgnoreTeamTable` | app.py:49-50 | the player records depend only on the player table |

## Left out

- Network transport is not modelled: the `fetch` calls, the Flask routes and CORS, and `nba_api` (`ScoreBoard`, `BoxScoreAdvancedV3`). Their results are inputs.
- `get_today_games` (app.py:12-32) is not modelled. It is a loop over upstream data with time-zone conversion and `strftime`.
- Date and time libraries are not modelled: `parseISO`, `differenceInSeconds`, `toDateString`, `toISOString`, `new Date(text)`. They are replaced by integer seconds, day strings and a parse parameter. `toISOString` throwing on an invalid date is not modelled.
- The `localStorage` API is a map. Storage failures are not modelled.
- `handleCardClick` (Games.tsx:58-77) is not modelled. It is asynchronous, and a late response can set `gameStatsLoaded` for a newer selection; that is a concurrency question. So the grid is modelled without the stats panel that replaces it.
- Usability classification, the concurrent per-game stats fan-out, its latch and the stats cache are not modelled: no modelled file implements them.
- Exceptions thrown while the schedule is processed are not modelled. An example is a date entry without `games`. The payload type cannot express such an entry.
- Exceptions thrown while the today-games body is read are not modelled. A JSON body of `null` makes `data.full_json` (Games.tsx:47) throw a `TypeError`, whose message the catch stores as the error. `TodayGames` cannot express such a body.
- Each fetch completion is one state transition. The moment when `loading` is still true after the fetch starts is not a separate state. This is because each component's effect runs once, on mount: `GamesBoard.ApplyTodayGames` requires `loading`, and `Calendar.ApplySchedule`'s first steps set `loading` and clear `error`.
- Logging is not modelled: the `console.error` calls (Games.tsx:52, GameCalendar.tsx:59) and the `console.log` calls (Games.tsx:106, 113) have no effect on the state.
- Rendering, animation and decorative components are not modelled. Neither are the thin fetch-and-render components (GameStats, GameList, GameCard, Whip, WRC, TodaysGamesApi, GameDatePicker).
- Integer width is not modelled. JavaScript numbers are doubles and are modelled as unbounded integers. This is exact for every count and second value the dashboard handles.
- Text.Lower: lower-cases ASCII letters only. JavaScript's `toLowerCase` also folds other Unicode letters and can change the length (U+0130). For classification this is exact: the only non-ASCII characters that lower-case to ASCII letters are U+0130 (to "i" and a combining dot) and U+212A (to "k"), and none of "preseason", "playoffs" and "cup" holds an i or a k.
- Text.Upper: upper-cases ASCII letters only. JavaScript's `toUpperCase` maps some non-ASCII letters to ASCII ones: "ſ" (U+017F) becomes "S" and "ﬀ" (U+FB00) becomes "FF". So `GameCalendar.ClassifyIgnoresCase` holds for the model's casing only: "Preſeason" is regular, but its JavaScript upper-casing is preseason.
