# sublimeLinePlanning: a Dafny model of the game-tracking pages

sublimeLinePlanning is a React front end for an ultimate-frisbee team. The team keeps a roster,
groups players into lines, records games point by point and reads statistics from what was
recorded. This project models, in Dafny, the state changes and calculations of seven files of
that front end. Every database call is replaced by a parameter that carries its outcome.

- **Tally recorder** (`TallyRecorder`, src/components/TallyGameEventRecorder.tsx). It keeps six
  counters and an event log, moved through by a two-step modal. Undo pops the log. There is
  also the player picker (filter, keyboard highlight). A class `Recorder` holds the component
  state. Its invariant is that every counter equals the number of logged events of its type and
  team.
- **Analytics dashboard** (`AnalyticsDashboard`, src/pages/AnalyticsDashboard.tsx). It covers:
  - the last-5/previous-5 game windows and win/loss;
  - completion and turnover percentages with JavaScript's `Math.round`;
  - per-player spotlight counters in roster insertion order, and the MVP;
  - improvement and concern trends;
  - the thrower→receiver chemistry matrix;
  - the best pair and the quick-insight strings.
- **Game statistics** (`GameStats`, src/pages/Stats.tsx). It covers the goals, assists and
  turnovers aggregation of one game, the thrower→receiver connection counts sorted by count, and
  the top-5 leaderboards.
- **Live game** (`LiveGame`, src/pages/LiveGame.tsx). It covers the lineup of at most 7 players,
  the thrower/receiver tap cycle, undo, and the validation and state update of recording a goal
  or turnover. A class `LiveGamePage` holds the state.
- **Team builder** (`CreateTallyGame`, src/pages/CreateTallyGame.tsx). It moves players between
  the available list, team A and team B. A class `TeamBuilder` holds the state.
- **Line editor** (`LineManagement`, src/pages/LineManagement.tsx). It covers:
  - the player-id toggle of the create and edit forms;
  - name validation and the error fallbacks;
  - starting and cancelling an edit;
  - the "name #jersey" list text.

  A class `LineEditor` holds the state.
- **Roster** (`TeamRoster`, src/pages/TeamRoster.tsx). It covers the bulk `name, jersey` text
  parser, the `parseInt(x) || null` jersey coercion, and appending inserted players. A class
  `RosterPage` holds the state.

Shared modules:

- `Common`: Option, Result, Min, Max.
- `Seqs`: JavaScript's `filter`, `slice`, a stable descending `sort` and counting.
- `Strings`: `trim`, `toLowerCase`, `includes`, `split`, `join`, and decimal `parseInt` and
  number rendering.
- `Records`: the database rows of src/types/game.ts and src/types/event.ts, and the roster
  player. src/types/player.ts is not part of this model. The player's fields (`id`, `name`,
  `jersey_number`) are taken from their uses.

JavaScript behaviour the model spells out:

- `Math.round(100 * a / b)` is the exact value `(200a + b) div 2b`.
- `Object.entries`/`Object.values` follow insertion order. That order is `KeyOrder`: the
  first-occurrence order of the roster ids.
- `sort` is stable. So "the first element after a descending sort" is the first maximum.
- Reading a field of an `undefined` map entry throws. That becomes a `Failure` result.
- `null`, `undefined`, `""` and `0` are falsy where the source relies on it.

## Model

| member | source | states |
|---|---|---|
| TallyRecorder.Tallies.Incr | src/components/TallyGameEventRecorder.tsx:108-110 | the chosen counter goes up by one and the other five are unchanged |
| TallyRecorder.Tallies.Decr | src/components/TallyGameEventRecorder.tsx:160-169 | the chosen counter becomes `max(0, c - 1)` and the other five are unchanged |
| TallyRecorder.ReplayCounts | src/components/TallyGameEventRecorder.tsx:101-169 | the counters replayed from a log equal, for every type and team, the number of log events of that type credited to that team |
| TallyRecorder.DecrUndoesIncr | src/components/TallyGameEventRecorder.tsx:155-170 | decrementing the counter just incremented restores all six counters |
| TallyRecorder.UndoRestoresReplay | src/components/TallyGameEventRecorder.tsx:155-170 | after any append, the last event's counter is at least 1, and undoing it gives exactly the counters of the shorter log |
| TallyRecorder.AutocompleteOptions | src/components/TallyGameEventRecorder.tsx:173-178 | the synthetic `None` entry comes first; a present player follows it exactly when it matches the input; nothing else is listed |
| TallyRecorder.OptionsAreSubstringMatches | src/components/TallyGameEventRecorder.tsx:174-176 | a player is offered exactly when its lowercased name contains the lowercased input as a substring |
| TallyRecorder.OptionsIdempotent | src/components/TallyGameEventRecorder.tsx:173-178 | filtering the offered players again with the same input offers the same list |
| TallyRecorder.OptionsKeepRosterOrder | src/components/TallyGameEventRecorder.tsx:174-177 | the options for a roster split in two are the options of the first part followed by the matches of the second, in roster order |
| TallyRecorder.HighlightDown | src/components/TallyGameEventRecorder.tsx:352 | ArrowDown moves the highlight one down, clamped at the last option, and stays in range |
| TallyRecorder.HighlightUp | src/components/TallyGameEventRecorder.tsx:353 | ArrowUp moves the highlight one up, clamped at 0, and stays in range |
| TallyRecorder.EnterSelection | src/components/TallyGameEventRecorder.tsx:354 | Enter selects the highlighted option, or nothing when the index is out of range |
| TallyRecorder.Recorder.constructor | src/components/TallyGameEventRecorder.tsx:34-45 | zero counters, empty log, no modal, empty picker text; the invariant holds |
| TallyRecorder.Recorder.Options | src/components/TallyGameEventRecorder.tsx:217 | the picker shows the options for the current text |
| TallyRecorder.Recorder.OpenModal | src/components/TallyGameEventRecorder.tsx:82-86 | the modal is at step 0 of the flow with nothing carried and the text cleared; log and counters unchanged |
| TallyRecorder.Recorder.CloseModal | src/components/TallyGameEventRecorder.tsx:87 | the modal is gone; log and counters unchanged |
| TallyRecorder.Recorder.SetInput | src/components/TallyGameEventRecorder.tsx:220 | only the picker text changes |
| TallyRecorder.Recorder.SelectAssister | src/components/TallyGameEventRecorder.tsx:91-93 | an open modal moves to step 1 carrying the assister (which may be `None`); nothing is logged or counted |
| TallyRecorder.Recorder.SelectScorer | src/components/TallyGameEventRecorder.tsx:94-112 | without a scorer nothing changes; otherwise exactly one score event for the scorer's team is appended, only that team's score goes up, and the modal closes; the invariant is kept |
| TallyRecorder.Recorder.SelectDefender | src/components/TallyGameEventRecorder.tsx:116-129 | one defend event for the player's team, only that team's defends counter goes up, and the modal closes |
| TallyRecorder.Recorder.SelectTurnoverPlayer | src/components/TallyGameEventRecorder.tsx:133-134 | an open modal moves to step 1 carrying the player; nothing is logged or counted |
| TallyRecorder.Recorder.SelectTurnoverType | src/components/TallyGameEventRecorder.tsx:135-151 | without a carried player nothing changes; otherwise one turnover event with the chosen type is appended and only that team's turnover counter goes up |
| TallyRecorder.Recorder.Undo | src/components/TallyGameEventRecorder.tsx:155-170 | an empty log is left unchanged; otherwise the last event is dropped and exactly its counter goes down, clamped at 0; the invariant is kept |
| AnalyticsDashboard.GetPlayerName | src/pages/AnalyticsDashboard.tsx:9-12 | the name of the first roster player with the id, or `Unknown` when there is none or the id is null |
| AnalyticsDashboard.Last5Games | src/pages/AnalyticsDashboard.tsx:64 | the first `min(5, n)` games |
| AnalyticsDashboard.Prev5Games | src/pages/AnalyticsDashboard.tsx:95 | games 5 to 9, or none when there are at most 5 |
| AnalyticsDashboard.GameIds | src/pages/AnalyticsDashboard.tsx:65 | the ids of the window's games, in order |
| AnalyticsDashboard.EventsOf | src/pages/AnalyticsDashboard.tsx:66 | an event is kept exactly when some game of the window has its game id |
| AnalyticsDashboard.WinLoss | src/pages/AnalyticsDashboard.tsx:69-78 | wins count the decided games of the window won; losses count the decided games not won (ties included); together they are the decided games, at most 5 |
| AnalyticsDashboard.RoundPercent | src/pages/AnalyticsDashboard.tsx:86-87 | the result is within half a unit of `100a/b` and rounded up at .5, which is what `Math.round` does |
| AnalyticsDashboard.PercentInRange | src/pages/AnalyticsDashboard.tsx:86-87 | a share of the whole rounds to between 0 and 100 |
| AnalyticsDashboard.PercentsOfParts | src/pages/AnalyticsDashboard.tsx:86-87 | the two rounded shares of a split total add up to 100 or 101 |
| AnalyticsDashboard.CompletionStats | src/pages/AnalyticsDashboard.tsx:81-92 | the completion and turnover counts of the window; the percentages are 0 without throws and otherwise lie in [0, 100] and add up to 100 or 101 |
| AnalyticsDashboard.ChangePercent | src/pages/AnalyticsDashboard.tsx:146-147 | 0 without a previous count; otherwise the rounded relative change, never below -100, positive only on a rise and negative only on a fall |
| AnalyticsDashboard.ChangeBounds | src/pages/AnalyticsDashboard.tsx:146 | the rounded relative change is at least -100 and has the sign of the difference |
| AnalyticsDashboard.CountEvent | src/pages/AnalyticsDashboard.tsx:122-125 | the keys stay the same and each player's counters are credited for the event (completion or turnover to the thrower, goal to the receiver, assist to the thrower) |
| AnalyticsDashboard.ZeroStats | src/pages/AnalyticsDashboard.tsx:112-120 | one zero entry per roster id, in first-occurrence order |
| AnalyticsDashboard.SpotlightStep | src/pages/AnalyticsDashboard.tsx:121-126 | the counters after one more event are the previous ones credited with that event |
| AnalyticsDashboard.PlayerStats | src/pages/AnalyticsDashboard.tsx:109-128 | keys in roster first-occurrence order, each entry the player's credits over all events |
| AnalyticsDashboard.Mvp | src/pages/AnalyticsDashboard.tsx:237 | none exactly when there are no players; otherwise the entry, first in insertion order, whose goals + assists + completions is the largest |
| AnalyticsDashboard.MostCompletions | src/pages/AnalyticsDashboard.tsx:188-191 | none exactly when there are no players; otherwise the entry, first in insertion order, with the most completions |
| AnalyticsDashboard.PlayerTrends | src/pages/AnalyticsDashboard.tsx:131-151 | one entry per roster id, named after the last roster player with that id; each change is `ChangePercent` of that id's last-3 and previous-3 counts, i.e. `round(100·(last − prev)/prev)`, 0 without previous throws, never below -100, and with the sign of the difference |
| AnalyticsDashboard.Improvement | src/pages/AnalyticsDashboard.tsx:247-248 | shown only with a positive change, on the first entry whose change is the largest; none exactly when every change is at most 0 |
| AnalyticsDashboard.Concern | src/pages/AnalyticsDashboard.tsx:257-258 | shown only with a negative change, on the first entry whose change is the smallest; none exactly when every change is at least 0 |
| AnalyticsDashboard.ZeroMatrix | src/pages/AnalyticsDashboard.tsx:156-162 | a row for every roster id, each with a zero cell for every roster id |
| AnalyticsDashboard.ZeroRowOf | src/pages/AnalyticsDashboard.tsx:159-161 | a zero cell for every given id and no other cell |
| AnalyticsDashboard.AddCompletion | src/pages/AnalyticsDashboard.tsx:163-167 | a completion with a truthy thrower and receiver from an unknown thrower throws; otherwise the matrix keeps its shape and exactly the thrower→receiver cell goes up |
| AnalyticsDashboard.ChemistryMatrix | src/pages/AnalyticsDashboard.tsx:154-169 | succeeds exactly when every counted completion's thrower is on the roster (else fails naming such a thrower), and then every cell is the number of completions from that thrower to that receiver |
| AnalyticsDashboard.BestPairUnique | src/pages/AnalyticsDashboard.tsx:176-183 | the best pair and its value are determined by the roster and the matrix |
| AnalyticsDashboard.BestPair | src/pages/AnalyticsDashboard.tsx:176-183 | the pair of distinct ids (first in scan order) with the strictly highest positive cell, or none when every cell between distinct ids is 0 |
| AnalyticsDashboard.QuickInsights | src/pages/AnalyticsDashboard.tsx:173-193 | the pairing insight exactly when a best pair with truthy ids exists, followed by the completions insight exactly when there is a player |
| AnalyticsDashboard.LiveGameRowsUncounted | src/pages/AnalyticsDashboard.tsx:82-83 | rows written by the live-game page (`Goal`/`Turnover`) contribute no throws, no spotlight credit, no chemistry and no trend |
| GameStats.StatsStep | src/pages/Stats.tsx:89-106 | one more event adds exactly its goal, assist or turnover credit to each player's counters |
| GameStats.LinkOrder | src/pages/Stats.tsx:97-100 | the connection keys in first-occurrence order, without repeats, exactly the pairs with at least one goal |
| GameStats.ZeroStats | src/pages/Stats.tsx:85-87 | one zero entry per roster id, in first-occurrence order |
| GameStats.CountEvent | src/pages/Stats.tsx:89-106 | fails exactly when a credited id has no entry (the page throws) and names that id; otherwise the keys stay and each entry gains its credit |
| GameStats.CountLink | src/pages/Stats.tsx:97-100 | a goal with both ids adds one to its pair, appending the pair when new; other events change nothing |
| GameStats.Aggregate | src/pages/Stats.tsx:75-121 | no events give empty stats and connections; otherwise fails exactly when some credited id is not on the roster, and on success gives roster-ordered per-player totals and per-pair goal counts in first-occurrence order |
| GameStats.NameOrUnknown | src/pages/Stats.tsx:113-114 | the found name when non-empty; `Unknown` when no player has the id and when the found name is empty; never empty |
| GameStats.ConnectionKey | src/pages/Stats.tsx:98 | the thrower, then `->`, then the receiver |
| GameStats.SplitKey | src/pages/Stats.tsx:112 | the text before the first `->`, and the text after it up to the next `->` or the end of the key, no `->` starting inside either; no receiver exactly when the key has no `->`, and then the thrower is the whole key |
| GameStats.ConnectionRows | src/pages/Stats.tsx:111-116 | one row per pair, in order, with the two names and the pair's count |
| GameStats.SortedConnections | src/pages/Stats.tsx:110-117 | the rows sorted by count, highest first, as a permutation of the unsorted rows, with non-empty names |
| GameStats.Entries | src/pages/Stats.tsx:124-128 | one entry per player key, with the name and the chosen counter |
| GameStats.TopPlayers | src/pages/Stats.tsx:123-132 | at most 5 entries, all positive, sorted descending, taken from the positive entries; every positive entry left out is at most each one kept |
| GameStats.FirstArrow | src/pages/Stats.tsx:112 | the position of the first `->`, or none when there is none |
| GameStats.FirstArrowOfKey | src/pages/Stats.tsx:98-112 | when the thrower has no `->`, the first `->` of the key comes right after it, with the thrower before and the receiver after |
| GameStats.SplitKeyRoundTrip | src/pages/Stats.tsx:98-112 | for ids without `->`, splitting the key gives back the thrower and receiver |
| GameStats.ConnectionKeyInjective | src/pages/Stats.tsx:98 | for ids without `->`, different pairs give different keys |
| GameStats.ArrowInIdCollides | src/pages/Stats.tsx:98-112 | for any ids `a`, `b` without `->` and any `c`, the pairs (`a->b`, `c`) and (`a`, `b->c`) give one key, which splits back as (`a`, `b`) |
| GameStats.ConnectionKeyCollision | src/pages/Stats.tsx:98-112 | the pairs (`a->b`, `c`) and (`a`, `b->c`) give one key, which splits back as (`a`, `b`) |
| LiveGame.LiveGamePage.constructor | src/pages/LiveGame.tsx:11-19 | empty lineup, no selection, point 1, no error |
| LiveGame.LiveGamePage.TogglePlayerInLineup | src/pages/LiveGame.tsx:55-70 | a present player is removed along with any thrower or receiver selection of that id; an absent player is appended only while fewer than 7 are in; the lineup stays distinct and at most 7 |
| LiveGame.LiveGamePage.HandlePlayerTap | src/pages/LiveGame.tsx:74-89 | the first tap picks the thrower; a different player then becomes the receiver; tapping the receiver passes the disc to them; anything else changes nothing |
| LiveGame.LiveGamePage.Undo | src/pages/LiveGame.tsx:127-130 | clears the receiver if set, otherwise the thrower |
| LiveGame.LiveGamePage.RecordEvent | src/pages/LiveGame.tsx:91-125 | the two validation errors send nothing; otherwise one row is sent (no receiver for a turnover), and success moves to the next point and clears the selection while a database error keeps the state |
| LiveGame.TapTapGoal | src/pages/LiveGame.tsx:74-111 | tapping two players and recording a goal on a new page sends the goal row of point 1 from the first to the second |
| CreateTallyGame.MoveLocates | src/pages/CreateTallyGame.tsx:36-50 | after a move the player's id is in the destination list and in no other |
| CreateTallyGame.MoveKeepsOthers | src/pages/CreateTallyGame.tsx:38-48 | every other player stays in the same list, in the same relative order |
| CreateTallyGame.MoveKeepsPartition | src/pages/CreateTallyGame.tsx:36-50 | a move the page offers keeps every id in exactly one list, once, and loses or adds no id |
| CreateTallyGame.MoveThereAndBack | src/pages/CreateTallyGame.tsx:36-50 | moving an available player to a team and back leaves both teams as they were and puts the player at the end of the available list |
| CreateTallyGame.TeamBuilder.constructor | src/pages/CreateTallyGame.tsx:7-9 | the fetched players are available and both teams are empty |
| CreateTallyGame.TeamBuilder.MovePlayer | src/pages/CreateTallyGame.tsx:36-50 | `handleMovePlayer`: the player is appended to the destination and every player with its id leaves the other two lists (`Move`, whose properties the three lemmas above state) |
| LineManagement.Toggle | src/pages/LineManagement.tsx:57-64 | a present id is removed everywhere; an absent id is appended at the end |
| LineManagement.ToggleMembers | src/pages/LineManagement.tsx:60-62 | toggling flips the membership of that id and of no other |
| LineManagement.ToggleTwice | src/pages/LineManagement.tsx:60-62 | toggling an absent id twice restores the list |
| LineManagement.ToggleNoDuplicates | src/pages/LineManagement.tsx:60-62 | toggling never introduces a duplicate |
| LineManagement.BlankIsTrimEmpty | src/pages/LineManagement.tsx:70 | a name counts as blank, all white space, exactly when its trim is empty |
| LineManagement.WithField | src/pages/LineManagement.tsx:54-56 | only the named input's field changes |
| LineManagement.PlayerNamesEmpty | src/pages/LineManagement.tsx:151-152 | the names text is empty exactly when no roster player is selected |
| LineManagement.PlayerNamesOne | src/pages/LineManagement.tsx:151-152 | with one selected player the text is `name #jersey` alone (`null` for a missing jersey) |
| LineManagement.PlayerNames | src/pages/LineManagement.tsx:151-152 | the label of every roster player whose id is selected occurs in the text |
| LineManagement.PlayerNamesNil | src/pages/LineManagement.tsx:151-152 | an empty roster gives an empty text |
| LineManagement.PlayerNamesSnoc | src/pages/LineManagement.tsx:151-152 | one more roster player adds nothing when unselected, and otherwise its label, after `", "` unless the text was empty |
| LineManagement.PlayerNamesIsNamesText | src/pages/LineManagement.tsx:151-152 | the text is exactly the selected players' `name #jersey` labels, in roster order, separated by `", "`, as the player-by-player `NamesText` builds it |
| LineManagement.LineNames | src/pages/LineManagement.tsx:263 | a line stored without ids makes the list fail as soon as the roster has a player, shows nothing on an empty roster; with ids it shows their names text |
| LineManagement.ErrorText | src/pages/LineManagement.tsx:81 | the error's message when it has one, otherwise the fallback |
| LineManagement.LineEditor.constructor | src/pages/LineManagement.tsx:19-23 | both forms empty, not editing, no error |
| LineManagement.LineEditor.ChangeNewLine | src/pages/LineManagement.tsx:54-56 | only the create form's field changes |
| LineManagement.LineEditor.ToggleNewLinePlayer | src/pages/LineManagement.tsx:57-64 | only the create form's ids change, by the toggle |
| LineManagement.LineEditor.CreateLine | src/pages/LineManagement.tsx:65-85 | a blank trimmed name sends nothing and shows `Line name is required`; otherwise the form is sent, success clears it, and a database error shows its message or `Failed to create line` |
| LineManagement.LineEditor.StartEditLine | src/pages/LineManagement.tsx:88-95 | editing that line, with its name, description and ids (missing ids read as empty) |
| LineManagement.LineEditor.ChangeEditLine | src/pages/LineManagement.tsx:96-98 | only the edit form's field changes |
| LineManagement.LineEditor.ToggleEditLinePlayer | src/pages/LineManagement.tsx:99-106 | only the edit form's ids change, by the toggle |
| LineManagement.LineEditor.UpdateLine | src/pages/LineManagement.tsx:107-128 | without an editing id nothing changes; a blank name is refused; otherwise the id and form are sent, success ends editing and clears the form, and a database error shows its message or `Failed to update line` |
| LineManagement.LineEditor.CancelEdit | src/pages/LineManagement.tsx:129-132 | not editing and the edit form cleared; nothing else changes |
| TeamRoster.Jersey | src/pages/TeamRoster.tsx:73 | a jersey exactly when the field parses to a non-zero integer, and then it is that integer |
| TeamRoster.LinesOf | src/pages/TeamRoster.tsx:94 | one line more than there are newlines in the trimmed text, none containing a newline |
| TeamRoster.RowOf | src/pages/TeamRoster.tsx:96-101 | the row is for the team; its name has no comma and no white space at either end; its jersey is never 0; a line with no comma is a trimmed name and no jersey |
| TeamRoster.BulkRows | src/pages/TeamRoster.tsx:94-102 | one row per line of the trimmed text, in order |
| TeamRoster.NameOnly | src/pages/TeamRoster.tsx:96-100 | a line without a comma is a trimmed name with no jersey |
| TeamRoster.ExtraFieldsIgnored | src/pages/TeamRoster.tsx:96 | fields after the second change nothing |
| TeamRoster.RowRoundTrip | src/pages/TeamRoster.tsx:96-100 | `name, n` reads back as that name with jersey `n`, or no jersey for 0 |
| TeamRoster.TwoFieldRow | src/pages/TeamRoster.tsx:96-100 | `a,b` gives the trimmed `a` as the name and the jersey of the trimmed `b` |
| TeamRoster.JerseyOfInt | src/pages/TeamRoster.tsx:100 | the jersey of `${n}` is `n`, except that 0 is null |
| TeamRoster.BulkOfLines | src/pages/TeamRoster.tsx:94-102 | text joined from newline-free lines, with nothing to trim, gives one row per line |
| TeamRoster.RosterPage.constructor | src/pages/TeamRoster.tsx:11-15 | the fetched players, empty forms, no error |
| TeamRoster.RosterPage.ChangeInput | src/pages/TeamRoster.tsx:57-60 | only the named input changes |
| TeamRoster.RosterPage.ChangeBulkText | src/pages/TeamRoster.tsx:178 | only the bulk text changes |
| TeamRoster.RosterPage.AddPlayer | src/pages/TeamRoster.tsx:62-86 | without a team id nothing happens; otherwise the row is sent with the jersey coerced, and success appends the returned player and clears the form while a failure shows its message |
| TeamRoster.RosterPage.BulkAddPlayers | src/pages/TeamRoster.tsx:88-117 | without a team id or with blank text nothing happens; otherwise one row per line is sent, and success appends the returned players in order and clears the text while a failure shows its message |
| Records.FindName | src/pages/Stats.tsx:113 | none exactly when no roster player has the id |
| Records.FindNameFirst | src/pages/Stats.tsx:113 | when some player has the id, the name of the first such player |
| Records.Dict.Put | src/pages/AnalyticsDashboard.tsx:113 | the key joins the end of the insertion order only if it is new; the value under it is replaced; distinct keys stay distinct |
| Records.Dict.Top | src/pages/AnalyticsDashboard.tsx:237 | the head of the stable descending sort of the values: the first entry in insertion order with the greatest key |
| Records.KeyOrder | src/pages/AnalyticsDashboard.tsx:112-120 | exactly the roster ids, without repeats (their first-occurrence order is `Records.KeyOrderStep`) |
| Records.KeyOrderStep | src/pages/AnalyticsDashboard.tsx:112-120 | each roster player in turn adds its id at the end of the keys if it is new and leaves them as they are otherwise |
| Records.WithoutId | src/pages/LiveGame.tsx:62 | the players without the id, every other one kept |
| Records.WithoutIdKeepsOthers | src/pages/CreateTallyGame.tsx:39-40 | removing an id keeps a distinct list distinct |
| Records.WithoutIdSet | src/pages/CreateTallyGame.tsx:39-40 | removing an id removes exactly that id from the set of ids |
| Records.AddThenRemove | src/pages/LiveGame.tsx:62-65 | appending a new player and removing its id restores the list |
| Seqs.Filter | src/pages/AnalyticsDashboard.tsx:66 | every element that passes the test is kept, and only such elements of the input (their order is `Seqs.FilterAppend`) |
| Seqs.Map | src/pages/AnalyticsDashboard.tsx:65 | `f` of every element, in order, same length |
| Seqs.FilterAppend | src/pages/AnalyticsDashboard.tsx:66 | filtering a concatenation filters each part |
| Seqs.FilterIdempotent | src/pages/AnalyticsDashboard.tsx:66 | filtering twice with the same test is filtering once |
| Seqs.Slice | src/pages/AnalyticsDashboard.tsx:64 | `slice(lo, hi)`, clamped to the length |
| Seqs.SortDesc | src/pages/Stats.tsx:117 | sorted descending by the key, a permutation of the input |
| Seqs.SortDescHead | src/pages/AnalyticsDashboard.tsx:188 | the first element after the stable sort is the first maximum |
| Seqs.CountIsFilterLength | src/pages/AnalyticsDashboard.tsx:82 | the counting fold equals the length of the filtered list |
| Seqs.CountDisjoint | src/pages/AnalyticsDashboard.tsx:72-74 | counts of two exclusive tests add up to the count of either |
| Seqs.FirstMaxIndex | src/pages/AnalyticsDashboard.tsx:237 | an index of a maximum with every earlier key strictly smaller |
| Strings.Trim | src/pages/LineManagement.tsx:70 | neither starts nor ends with white space |
| Strings.TrimSlice | src/pages/LineManagement.tsx:70 | the trim is a piece of the text with only white space around it, empty exactly when the text is all white space |
| Strings.TrimKeepsOut | src/pages/TeamRoster.tsx:96 | a character absent from the text is absent from its trim |
| Strings.ToLower | src/components/TallyGameEventRecorder.tsx:175 | same length, each character lowercased |
| Strings.ContainsIff | src/components/TallyGameEventRecorder.tsx:175 | `includes` holds exactly when the needle occurs at some position |
| Strings.Split | src/pages/TeamRoster.tsx:94 | one more piece than separators, none containing the separator |
| Strings.JoinHasPart | src/pages/LineManagement.tsx:152 | every part of a join occurs in the joined text |
| Strings.JoinSplit | src/pages/TeamRoster.tsx:94 | joining the pieces of a split with the separator restores the text |
| Strings.SplitJoin | src/pages/TeamRoster.tsx:94 | splitting a join of separator-free pieces restores the pieces |
| Strings.ParseInt | src/pages/TeamRoster.tsx:100 | a number exactly when, after leading white space and an optional sign, a digit follows |
| Strings.ParseIntLeading | src/pages/TeamRoster.tsx:100 | `parseInt` reads back `${n}` followed by any non-digit text |
| Strings.ParseIntRoundTrip | src/pages/TeamRoster.tsx:100 | `parseInt(${n}) == n` |
| Strings.IntToString | src/pages/LineManagement.tsx:152 | non-empty decimal text: digits, with a leading minus only for negatives |

## Left out

- Database calls, routing parameters, `alert`, `console`, loading and submitting flags, and
  rendering. Each call's outcome is a parameter (`dbError`, `outcome`). Re-fetching lists
  after a write is not modelled.
- The recorder's `localStorage` persistence and restore, the `onUpdateTallies` callback,
  `Date.now()` timestamps, the modal animation, and the turnover-type button highlight.
- `AutocompleteInput`'s mouse handlers and its reset of the highlight on typing. They only set
  the highlight index.
- Floating point. `Math.round` of a quotient is modelled exactly. Rounding error of binary
  floats right at a .5 boundary is not.
- `toLowerCase` follows Unicode. The model lowercases ASCII and Latin-1 letters only.
- `parseInt` also accepts hexadecimal `0x` prefixes and loses precision on very long digit runs
  (`Number`). The model reads decimal digits into an unbounded integer.
- Object key order for integer-like keys. JavaScript lists such keys first, in numeric order. The
  model assumes insertion order, as for any other string (roster ids are UUIDs).
- JavaScript's `in` and property reads also find prototype keys such as `constructor`. The model
  looks at own keys only, so an off-roster id equal to a prototype key is a crash in
  GameStats.Known and GameStats.CountEvent. On the page, `stats[id].goals++` on such a key reads
  the inherited member and writes `NaN` without throwing.
- AnalyticsDashboard.ChemistryMatrix: a completion to an unknown receiver makes a `NaN` cell
  under a key no roster column reads. The model leaves that cell out and treats only an unknown
  thrower as the page's crash.
- The thrown error and its rendering on the error page, on the pages where a crash ends the
  view. It is a `Failure` result instead.
- CreateTallyGame.MoveKeepsPartition: stated only for the moves the page's buttons offer (A/B
  from the available list, X from a team). Other calls still satisfy MoveLocates and
  MoveKeepsOthers.
- The "lines" branch of team creation and line deletion (`handleDeleteLine`). The first is a
  placeholder; the second is a confirm dialog plus a database call.
- TeamRoster.RosterPage.AddPlayer and TeamRoster.RosterPage.BulkAddPlayers: `error.message` of a
  failed insert is taken as a string; an `undefined` message is not distinguished.

## Findings

| source | as written | input that shows it | evidently intended | confidence | as-written member | corrected member |
|---|---|---|---|---|---|---|
| src/pages/Stats.tsx:98-112 | a connection key is `${thrower}->${receiver}`, split back with `split('->')` | a goal from id `a->b` to `c` and one from `a` to `b->c` share the key `a->b->c`; both are counted on one row, shown as `a` to `b` | each thrower→receiver pair counted and named separately | low (ids are UUIDs in practice); not executed | GameStats.ConnectionKeyCollision, generalised by GameStats.ArrowInIdCollides (on GameStats.ConnectionKey and GameStats.SplitKey) | GameStats.Aggregate, which counts by (thrower, receiver) pairs; GameStats.SplitKeyRoundTrip and GameStats.ConnectionKeyInjective show the two agree when no id contains `->` |

Also noted: the live-game page records `Goal` and `Turnover`, while the analytics dashboard
counts only the lowercase `completion`, `turnover` and `goal`. AnalyticsDashboard.LiveGameRowsUncounted
shows that rows from the live-game page contribute nothing to the dashboard. Nothing in the two
files says which spelling other writers use, so this is not listed as a finding.
