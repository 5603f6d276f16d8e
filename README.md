# Typing battle: a Dafny model

This project models the two cores of a small typing-race web application.

1. **The battle server.** `app.py` keeps a table of teams, keyed by team code,
   in the global dictionary `active_teams`. Each team record holds the admin's
   id, the ordered list of players, a status (`waiting`, `countdown`, `active`,
   `finished`), the race paragraph, the countdown value and an
   insertion-ordered table of results. Each route (`create_team`, `join_team`,
   `start_competition`, `get_team_status`, `start_battle`,
   `submit_competition_result`, `reset_team`) does one of two things. It
   answers with an error and leaves the table alone, or it updates one team
   and answers with a success.
2. **Scoring and the browser-side state.** This covers the single-player
   `calculate_results` route and the browser's live accuracy and words per
   minute. It also covers the figures a battle submits, the `mm:ss` clock and
   the character-by-character feedback. Finally it covers the per-viewer
   latches of the battle page (`countdownStarted`, `adminNotified`, the
   countdown interval). Polls, ticks and key presses set and clear these
   latches.

Layout, one module per file:

- `options.dfy`: `Options.Option`.
- `scoring.dfy`: `Scoring`. The matching-character count, accuracy, errors,
  words per minute and the completion rule, for the server and the browser.
  Counts are `nat`. Ratios are exact `real`s.
- `timer.dfy`: `Timer`. Decimal formatting, `padStart`, the clock text and a
  parser that reads it back.
- `highlight.dfy`: `Highlight`. The feedback loop, written as a method with a
  loop.
- `teams.dfy`: `Teams`. The team record and the response shapes. It also has
  what each route does to a team once the code has been found, written as
  functions from the old team to the new team and the answer.
- `registry.dfy`: `Server`. The class `Registry` owns `teams: map<string,
  Team>` and has one method per route. Each method does the lookup and
  writes the team back in place. Its `ensures` ties the new table to the
  `Teams` function. A scripted two-player race (`TwoPlayerRace`) is proved
  from those contracts alone.
- `single_player.dfy`: `SinglePlayer`. The class `TypingTest`.
- `battle_client.dfy`: `BattleClient`. The class `BattleMode` and its latches.

Things the model takes as parameters:

- the team code (`uuid4()[:8].upper()`);
- the paragraph (`random.choice`);
- the creation time (`datetime.now()`);
- the player id (`Math.random()`);
- clock readings (`Date.now()`);
- the contents of the input box;
- the server's answers as seen by the browser.

A timer firing is an explicit method call. For example, `CountdownTick` is
one firing of the countdown interval.

The model follows the code as written, including where it is loose:

- `create_team` overwrites a team already stored under the same code.
- A duplicate `join_team` is an error, not a no-op.
- `start_competition` does not look at the current status. It needs only
  the admin and at least two players.
- A second `start_battle` is an error, not a silent success.
- `submit_competition_result` checks neither the status nor membership. A
  third id can therefore submit. The table then holds three entries and the
  answer asks for `-1` more results.
- The winner is decided on `score = wpm * accuracy / 100`, not on words per
  minute alone. The first-stored player wins only with a strictly greater
  score, so a tie goes to the second. In the scripted race, 60 wpm at 98%
  beats 45 wpm at 100% with a winning score of 58.8, not 60.
- `errors = max(0, total - correct)`. Characters typed past the end of the
  original are not counted, and the clamp at zero never applies
  (`Scoring.ErrorsCountMisses`).
- The paragraph is chosen when the team is created, and again on reset. It
  is not left unset until the countdown.
- On a well-formed team, a successful `join_team` always answers
  `is_admin = false` with two players (`Teams.JoinFillsTeam`, `Server.Registry.JoinTeam`).
- In `handleKeydown`, Backspace and Delete can only be suppressed while the
  test is still active. The input that completes the test also deactivates
  it, so the guard never fires after completion (`CompletedTestIgnoresKeys`).

## Model

| member | source | states |
|---|---|---|
| Scoring.MatchesUpTo | app.py:50-51 | the position-aligned matching count over the first n characters is at most n |
| Scoring.CorrectCount | app.py:49-56 | the matching count is at most the typed length and at most the original's length |
| Scoring.CorrectCountIsMatchSet | app.py:49-56 | `correct_chars` is exactly the number of positions below both lengths where the characters agree; the recount used when the typed text is longer gives the same number; it is at most both lengths |
| Scoring.Accuracy | app.py:58 | accuracy lies in [0, 100] and is 100 exactly when the original is nonempty and every one of its characters is matched |
| Scoring.AccuracyRange | app.py:58 | accuracy lies in [0, 100]; it is 100 iff the original is nonempty and the typed text starts with the whole original; it is 0 for an empty original |
| Scoring.PerfectAccuracy | app.py:58 | typing a nonempty original exactly scores 100 |
| Scoring.Errors | app.py:66 | errors are the original's length minus the matching count, between 0 and the original's length |
| Scoring.ErrorsCountMisses | app.py:66 | errors equal the original's length minus the matching positions, never negative and at most the original's length; characters typed past the end add nothing |
| Scoring.Wpm | app.py:61-63 | the rate is non-negative; for positive minutes, rate × minutes × 5 equals the characters typed; 0 when the time is not positive or nothing was typed |
| Scoring.WpmFromSeconds | app.py:61-63 | over a positive time in seconds, rate × seconds equals 12 × the characters typed |
| Scoring.WpmMonotonic | static/script.js:84-88 | more characters in the same time never give a lower rate |
| Scoring.CalculateResults | app.py:39-75 | the response counts all original characters and exactly the matching ones; errors are their difference; the accuracy is the matching share of the original as a percentage, in [0, 100]; wpm × time = 12 × typed length for positive time, else 0 |
| Scoring.ClientAccuracy | static/script.js:96-105 | the browser's accuracy lies in [0, 100] and equals the server's accuracy for every input, including the empty-paragraph and empty-input cases |
| Scoring.BattleAccuracy | static/script.js:621-626 | the battle accuracy is undefined (`NaN`) exactly for an empty paragraph and otherwise equals the live accuracy |
| Scoring.CompletionIsByLength | static/script.js:113 | completion (also static/script.js:595) looks at the length only: 100% accuracy implies completion, and a complete text of wrong characters completes with 0% |
| Scoring.SuppressesKey | static/script.js:118-126 | a key is suppressed iff the test is active, the text is complete and the key is Backspace or Delete |
| Timer.NatToString | static/script.js:79 | decimal text of a non-negative number: at least one digit, all digits, one digit exactly below 10 |
| Timer.PadStart | static/script.js:79 | the result has length max(len, width) and every position before the input holds the pad character |
| Timer.PadStartEndsWith | static/script.js:79 | the padded result ends with the input unchanged |
| Timer.ParseNatToString | static/script.js:79 | reading back the decimal text of n gives n |
| Timer.PaddedReadsBack | static/script.js:79 | a string of digits padded with '0' is still all digits and reads back as the same number |
| Timer.FieldReadsBack | static/script.js:79 | a clock field is at least 2 digits, exactly 2 below 100, and reads back as its number |
| Timer.SplitDisplay | static/script.js:79 | a display `mm:ss` with a two-digit seconds field below 60 reads back as minutes × 60 + seconds |
| Timer.SecondsFieldBelowSixty | static/script.js:76 | the parser refuses a seconds field of 60 or more: "00:75" is not a display, and 75 seconds read back only from "01:15" |
| Timer.DisplayReadsBack | static/script.js:74-79 | for a second count below 60 the display of minutes and seconds has a minutes field of at least 2 digits and a seconds field of exactly 2, and reads back as minutes × 60 + seconds |
| Timer.ClockReadsBack | static/script.js:74-79 | the clock for t whole seconds has a minutes field of at least 2 digits and a seconds field of exactly 2, and reads back as t |
| Timer.Clock | static/script.js:74-79 | the clock text always has the separator three characters from the end and is exactly five characters below 100 minutes; its last two digits read back as the seconds left over (below 60) and the digits before the separator as the whole minutes |
| Timer.FormatTimer | static/script.js:73-79 | the display of an elapsed time is `mm:ss`-shaped, exactly five characters below 100 minutes; the seconds field reads back as the whole elapsed seconds modulo 60 and the minutes field as the whole elapsed minutes |
| Timer.TimerRoundTrip | static/script.js:73-79 | reading the `mm:ss` display back, with a seconds field below 60, gives floor(elapsed / 1000) seconds |
| Highlight.Highlight | static/script.js:935-957 | nothing is drawn iff the input is empty or the text is the placeholder; otherwise exactly one segment per original character, in order: correct iff typed there and equal, error iff typed there and different, current at the typed length, plain otherwise |
| Highlight.CountKind | static/script.js:942-954 | a count of segments of one class is at most the number of segments |
| Highlight.Text | static/script.js:945-952 | the text of the segments is their characters in order |
| Highlight.CorrectSegmentsAreScored | static/script.js:942-954 | the characters marked correct are exactly the ones the score counts, and the drawn text is the original unchanged |
| Highlight.CurrentMarkerOnce | static/script.js:949-950 | the current-position marker appears once while the text is incomplete and never once it is complete |
| Teams.Keys | app.py:230 | the key list has one key per entry, in stored order |
| Teams.Lookup | app.py:231-232 | a lookup fails exactly for an id that is not a key |
| Teams.Put | app.py:218 | storing a result keeps an existing key in place or appends a new one last |
| Teams.Score | app.py:222 | for a non-negative rate and an accuracy in [0, 100] the score lies between 0 and the rate; at 100% it is the rate |
| Teams.PutLookup | app.py:218 | after storing, the id maps to the new result and every other id to what it mapped to before |
| Teams.PutKeepsDistinct | app.py:218 | storing a result never makes two entries share an id |
| Teams.LookupPair | app.py:230-232 | in a two-entry table with different keys each key finds its own entry |
| Teams.NewTeam | app.py:84-92 | a new team has just the creator as player and admin, status waiting, no results, countdown 5, the given paragraph, and is well formed |
| Teams.Join | app.py:109-126 | full team, then present id, are errors that change nothing; otherwise the id is appended last, the count is old + 1 ≤ 2, `is_admin` holds iff the id is the admin; well-formedness is kept |
| Teams.JoinFillsTeam | app.py:118-125 | on a well-formed team a successful join answers with two players and `is_admin` false |
| Teams.StartCompetition | app.py:139-155 | a non-admin caller, then fewer than 2 players, are errors; otherwise, from any status, status becomes countdown with countdown 5, the paragraph is returned and nothing else changes |
| Teams.StartBattle | app.py:186-200 | a non-admin caller, then a status other than countdown, are errors; otherwise only the status changes, to active |
| Teams.StartBattleOnce | app.py:191-195 | after a successful `start_battle` any further call is an error |
| Teams.Decide | app.py:230-236 | the winning score is the max and the losing score the min of the two stored scores, and the winner is one of the two keys |
| Teams.DecideIsFair | app.py:230-236 | the first-stored player wins iff its score is strictly greater (a tie goes to the second); the winner's stored score is the winning score and the other's the losing score |
| Teams.Submit | app.py:215-246 | the result is stored under the id with score wpm × accuracy / 100; two entries set status finished and report exactly the winner and the two scores `Decide` gives for the stored table; otherwise `waiting_for = 2 - len(results)` and only the results change; well-formedness is kept |
| Teams.ResubmitOverwrites | app.py:218 | a second submission under the same id keeps one entry with the latest figures and adds no key |
| Teams.ThirdSubmitterNeverFinishes | app.py:226-246 | a third id submitting to a two-entry table gets `waiting_for = -1` and the status does not change |
| Teams.Reset | app.py:259-269 | the reset succeeds iff the caller is the admin; a non-admin caller gets an error and nothing changes; otherwise status waiting, countdown 5, no results, the new paragraph, with players, admin and creation time kept |
| Teams.StatusNamesDistinct | app.py:87 | the four status names are pairwise different, so the string the browser compares against identifies the status |
| Teams.MessagesDistinct | app.py:107-261 | the error messages are pairwise different, so the message identifies the error |
| Server.Upper | app.py:103 | upper-casing keeps the length, maps each lower-case ASCII letter to its capital (code point − 32), leaves no lower-case letter and changes nothing else |
| Server.UpperIdempotent | app.py:81 | upper-casing an upper-cased code changes nothing, so an upper-cased code is found again |
| Server.Registry.constructor | app.py:25 | the table starts empty |
| Server.Registry.CreateTeam | app.py:78-98 | for an upper-cased code the new team is stored under it, overwriting any old one, and is found again under its upper-cased form; the table stays well formed |
| Server.Registry.JoinTeam | app.py:100-126 | an unknown upper-cased code is an error with no change; otherwise the answer is the team-level join's and only a success writes the team back; since every stored team is well formed, a success always answers the upper-cased code, `is_admin = false` and two players |
| Server.Registry.StartCompetition | app.py:128-155 | an unknown code is an error with no change; otherwise only a started countdown writes the team back |
| Server.Registry.GetTeamStatus | app.py:157-173 | an error exactly for an unknown code; otherwise the stored team's fields; nothing is modified |
| Server.Registry.StartBattle | app.py:175-200 | an unknown code is an error with no change; otherwise only a started battle writes the team back |
| Server.Registry.SubmitCompetitionResult | app.py:202-246 | an unknown code is an error with no change; every known code takes the result and the team is written back |
| Server.Registry.ResetTeam | app.py:248-269 | an unknown code is an error with no change; otherwise only an admin reset writes the team back |
| Server.FormTeam | app.py:78-126 | creator plus a join with a lower-case code give a two-player lobby; a third join is refused as full |
| Server.StartRace | app.py:128-200 | the admin starts the countdown and confirms it; a second confirmation is refused; the team is then racing |
| Server.FinishRace | app.py:202-246 | the first result waits for one more; the second finishes the race with A winning 58.8 to 45; admin and players are kept |
| Server.StartOver | app.py:248-269 | the non-admin's reset is refused; the admin's keeps both players and clears the race |
| SinglePlayer.TypingTest.constructor | static/script.js:2-12 | a new test has no paragraph and is not running |
| SinglePlayer.TypingTest.StartTest | static/script.js:43-54 | the test runs on the given paragraph from the given start time |
| SinglePlayer.TypingTest.RealTimeStats | static/script.js:82-94 | the live rate is the shared words-per-minute rule over elapsed / 60000 minutes and the live accuracy is the shared accuracy, in [0, 100] |
| SinglePlayer.TypingTest.HandleTyping | static/script.js:107-148 | a request is posted iff the test was active and the input is complete; it holds the paragraph, the input and the seconds taken, and the test stops |
| SinglePlayer.TypingTest.HandleKeydown | static/script.js:118-127 | Backspace or Delete is suppressed iff the test is active and the input is complete |
| SinglePlayer.TypingTest.ResetTest | static/script.js:173-175 | the test stops |
| BattleClient.BattleMode.constructor | static/script.js:202-212 | a new viewer has no team, is not admin, and has every latch cleared |
| BattleClient.BattleMode.PollsStatus | static/script.js:775-779 | the one-second timer polls exactly while the viewer is in a team and no battle runs (used in the contracts of the handlers that start and stop it) |
| BattleClient.BattleMode.TeamCreated | static/script.js:326-333 | the creator's viewer records the code and becomes admin, the Start Battle button is disabled, and polling runs unless a battle does |
| BattleClient.BattleMode.TeamJoined | static/script.js:365-373 | a successful join records the code and the admin flag, and polling runs unless a battle does; the start button is disabled iff not admin or fewer than 2 players; an error leaves the button untouched |
| BattleClient.BattleMode.PollTeamStatus | static/script.js:805-856 | an error answer changes nothing and leaves the start button untouched; otherwise the start button is disabled iff not admin or fewer than 2 players; `adminNotified` ends equal to "admin with 2 players" and one notification is raised on its rising edge; a countdown poll shows the countdown iff the latch was clear and sets it; an active poll clears it and schedules the battle |
| BattleClient.BattleMode.CompetitionStarted | static/script.js:424-428 | a started countdown takes the paragraph and starts the local countdown unless one is already running |
| BattleClient.BattleMode.StartCountdown | static/script.js:447-460 | a call while the interval is set is ignored; otherwise the count starts at 5 |
| BattleClient.BattleMode.CountdownTick | static/script.js:460-478 | each tick decrements; the interval is cleared and the battle scheduled exactly at ≤ 0, and only an admin tells the server |
| BattleClient.BattleMode.BeginBattle | static/script.js:499-504 | the battle runs from the given start time and status polling stops |
| BattleClient.BattleMode.HandleBattleTyping | static/script.js:589-645 | a submission is made iff the battle was active and the input is complete; it carries the shared wpm rule and the battle accuracy, and the battle stops |
| BattleClient.BattleMode.HandleBattleKeydown | static/script.js:600-609 | Backspace or Delete is suppressed iff the battle is active and the input is complete |
| BattleClient.BattleMode.ResetBattleState | static/script.js:717-735 | the battle stops, the paragraph is cleared, the interval cleared and the countdown latch re-armed; polling resumes iff the viewer is still in a team |
| BattleClient.BattleMode.StartNewBattle | static/script.js:681-715 | only the admin's confirmed reset clears the local battle state and enables the Start Battle button; otherwise the button is untouched |
| BattleClient.BattleMode.LeaveTeam | static/script.js:750-753 | the viewer has no team, is not admin, no battle runs and polling stops |
| BattleClient.BattleFiguresMatchLiveStats | static/script.js:621-629 | the submitted rate equals the live rate for the same elapsed time, and the submitted accuracy equals the live accuracy for a nonempty paragraph |

## Left out

- Flask routing, `request.json` parsing, `jsonify` and the `index` and `get_paragraph` routes (app.py:28-37, app.py:271-272). Requests and responses are datatypes.
- JSON defaults for missing fields (`data.get('wpm', 0)` and the like) and a missing `player_id` (`None`). Every field is a parameter of the method.
- Generating the team code with `uuid4`, choosing a paragraph with `random.choice`, the creation time from `datetime.now()`, and the random player id. All of these are parameters.
- `round(x, 2)` on the server and `Math.round` in the browser. Ratios are exact reals, and floating-point behaviour is not modelled. The `NaN` of an empty battle paragraph is `None`. What the server does with such a submission (JSON `null`) is not modelled.
- All DOM work: element lookup, classes, styles, messages, notifications, the clipboard, the anti-copy listeners, `switchMode`, `showTeamLobby`, `showBattleInterface`, `showCountdownInterface`, `displayResults`, `showBattleResults`, `backToLobby`. The HTML markup of the feedback is left out too; a segment carries only its class and its character.
- `fetch`, `async`/`await` and the scheduling done by `setInterval`/`setTimeout`, including the two status-polling timers. A poll answer, a timer tick and a scheduled `beginBattle` are explicit inputs or effects. `PollsStatus` states when the one-second timer polls.
- Concurrency between request threads. The source has no locking, so the routes are modelled as sequential calls.
- `trim()` and `toUpperCase()` of the code typed into the join box, and its empty-code alert (static/script.js:346-351). `TeamJoined` takes the code as it is after both calls. The browser's upper-casing is what lets `start_competition`, `get_team_status`, `start_battle`, `submit_competition_result` and `reset_team` find the team, since they look the code up without upper-casing it. The server's own upper-casing in `join_team` is modelled (`Server.Upper`).
- The unused `active_competitions` dictionary.
- Server.Upper: only ASCII letters are upper-cased. Python's `str.upper` also maps other Unicode letters.
- Scoring.ClientAccuracy: strings are sequences of characters. The difference between `Array.from` (code points) and `.length` / indexing (UTF-16 units) for characters outside the Basic Multilingual Plane is not modelled.
- Timer.TimerRoundTrip: the elapsed milliseconds are taken as non-negative. A clock set back, which gives negative elapsed times and a negative `%`, is not modelled.
