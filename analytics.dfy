/** The analytics dashboard's computations (src/pages/AnalyticsDashboard.tsx) over the games
    of a team (most recent first), its roster and the throw events of those games. */
module AnalyticsDashboard {
  import opened Common
  import opened Seqs
  import opened Records

  /** `getPlayerName(players, id)`: the name of the first player with that id, else
      `'Unknown'`; a `null` id never matches. */
  function GetPlayerName(players: seq<Player>, id: Option<string>): (r: string)
    ensures id.Some? && id.value in Ids(players) ==>
      exists i :: 0 <= i < |players| && players[i].id == id.value && r == players[i].name
                  && forall j :: 0 <= j < i ==> players[j].id != id.value
    ensures !(id.Some? && id.value in Ids(players)) ==> r == "Unknown"
  {
    if id.None? then "Unknown"
    else
      match FindName(players, id.value)
      case Some(name) => FindNameFirst(players, id.value); name
      case None => "Unknown"
  }

  // ---------------------------------------------------------------------------------------
  // Game windows and the events that belong to them
  // ---------------------------------------------------------------------------------------

  /** `games.slice(0, 5)`: the five most recent games, or all of them if fewer. */
  function Last5Games(games: seq<Game>): (r: seq<Game>)
    ensures |r| == Min(5, |games|) && r == games[..|r|]
  {
    Slice(games, 0, 5)
  }

  /** `games.slice(5, 10)`: the five games before those, as far as there are any. */
  function Prev5Games(games: seq<Game>): (r: seq<Game>)
    ensures |games| <= 5 ==> r == []
    ensures |games| > 5 ==> r == games[5..Min(10, |games|)]
  {
    Slice(games, 5, 10)
  }

  function GameIdOf(g: Game): string { g.id }

  /** `games.map(g => g.id)`. */
  function GameIds(games: seq<Game>): (r: seq<string>)
    ensures |r| == |games|
    ensures forall i :: 0 <= i < |games| ==> r[i] == games[i].id
  {
    Map(games, GameIdOf)
  }

  function InGames(ids: seq<string>): Event -> bool {
    (e: Event) => e.gameId in ids
  }

  /** `events.filter(e => ids.includes(e.game_id))` for the ids of `window`: exactly the
      events of a game in the window, in their original order. */
  function EventsOf(events: seq<Event>, window: seq<Game>): (r: seq<Event>)
    ensures forall e :: e in r <==> e in events && exists g :: g in window && g.id == e.gameId
  {
    var ids := GameIds(window);
    var r := Filter(events, InGames(ids));
    assert forall e: Event :: e.gameId in ids <==> exists g :: g in window && g.id == e.gameId by {
      forall e: Event ensures e.gameId in ids <==> exists g :: g in window && g.id == e.gameId {
        if e.gameId in ids {
          var i :| 0 <= i < |ids| && ids[i] == e.gameId;
          assert window[i] in window;
        }
      }
    }
    r
  }

  // ---------------------------------------------------------------------------------------
  // Win/loss over the last five games
  // ---------------------------------------------------------------------------------------

  /** Both final scores are recorded. */
  predicate IsDecided(g: Game) {
    g.finalScoreUs.Some? && g.finalScoreThem.Some?
  }

  predicate IsWin(g: Game) {
    IsDecided(g) && g.finalScoreUs.value > g.finalScoreThem.value
  }

  /** A decided game that is not a win; a tie counts as a loss. */
  predicate IsLoss(g: Game) {
    IsDecided(g) && g.finalScoreUs.value <= g.finalScoreThem.value
  }

  /** `winLoss`: games of the last five with both scores recorded are wins when we scored
      strictly more and losses otherwise; at most five games are counted. */
  method WinLoss(games: seq<Game>) returns (wins: nat, losses: nat)
    ensures wins == Count(Last5Games(games), IsWin)
    ensures losses == Count(Last5Games(games), IsLoss)
    ensures wins + losses == Count(Last5Games(games), IsDecided)
    ensures wins + losses <= 5
  {
    var last5 := Last5Games(games);
    wins, losses := 0, 0;
    var i := 0;
    while i < |last5|
      invariant 0 <= i <= |last5|
      invariant wins == Count(last5[..i], IsWin)
      invariant losses == Count(last5[..i], IsLoss)
    {
      var g := last5[i];
      assert last5[..i + 1][..i] == last5[..i];
      if g.finalScoreUs.Some? && g.finalScoreThem.Some? {
        if g.finalScoreUs.value > g.finalScoreThem.value {
          wins := wins + 1;
        } else {
          losses := losses + 1;
        }
      }
      i := i + 1;
    }
    assert last5[..|last5|] == last5;
    CountDisjoint(last5, IsWin, IsLoss, IsDecided);
  }

  // ---------------------------------------------------------------------------------------
  // Completion percentage and turnover rate
  // ---------------------------------------------------------------------------------------

  predicate IsCompletion(e: Event) { e.result == "completion" }

  predicate IsTurnover(e: Event) { e.result == "turnover" }

  predicate IsGoal(e: Event) { e.result == "goal" }

  /** `Math.round(100 * a / b)` for `b > 0` in exact arithmetic: the integer nearest to
      `100a/b`, halves rounded up. */
  function RoundPercent(a: int, b: int): (r: int)
    requires b > 0
    ensures 2 * b * r - b <= 200 * a < 2 * b * r + b
  {
    (200 * a + b) / (2 * b)
  }

  /** A positive multiple of a positive number is at least that number. */
  lemma {:induction false} MulAtLeast(b: int, d: int)
    requires b > 0 && d >= 1
    ensures b * d >= b
    decreases d
  {
    if d > 1 {
      MulAtLeast(b, d - 1);
      assert b * d == b * (d - 1) + b;
    }
  }

  lemma MulMono(b: int, x: int, y: int)
    requires b > 0 && x <= y
    ensures b * x <= b * y
  {
    if x < y {
      MulAtLeast(b, y - x);
      assert b * (y - x) == b * y - b * x;
    }
  }

  /** A share of a positive total is a percentage between 0 and 100. */
  lemma PercentInRange(a: int, b: int)
    requires 0 <= a <= b && b > 0
    ensures 0 <= RoundPercent(a, b) <= 100
  {
    var r := RoundPercent(a, b);
    if r > 100 {
      MulMono(b, 101, r);
    }
    if r < 0 {
      MulMono(b, r, -1);
    }
  }

  /** The rounded shares of two parts of a total add up to 100 or, when both round up
      from one half, to 101. */
  lemma PercentsOfParts(a: int, c: int)
    requires a >= 0 && c >= 0 && a + c > 0
    ensures 100 <= RoundPercent(a, a + c) + RoundPercent(c, a + c) <= 101
  {
    var b := a + c;
    var p, q := RoundPercent(a, b), RoundPercent(c, b);
    assert 2 * b * p == 2 * (b * p) && 2 * b * q == 2 * (b * q);
    assert b * (p + q) == b * p + b * q;
    assert b * (p + q) - b <= 100 * b < b * (p + q) + b;
    if p + q > 101 {
      MulMono(b, 102, p + q);
    }
    if p + q < 100 {
      MulMono(b, p + q, 99);
    }
  }

  datatype ThrowStats = ThrowStats(completionPct: int, turnoverRate: int,
                                   completions: nat, turnovers: nat, totalThrows: nat)

  /** `completionStats` (and `prevCompletionStats`) over the events of a window: the
      completions and turnovers among them, and each as a rounded percentage of all throws,
      both 0 when there are none. */
  function CompletionStats(windowEvents: seq<Event>): (r: ThrowStats)
    ensures r.completions == Count(windowEvents, IsCompletion)
    ensures r.turnovers == Count(windowEvents, IsTurnover)
    ensures r.totalThrows == r.completions + r.turnovers
    ensures r.totalThrows == 0 ==> r.completionPct == 0 && r.turnoverRate == 0
    ensures r.totalThrows > 0 ==>
      && 2 * r.totalThrows * r.completionPct - r.totalThrows <= 200 * r.completions
      && 200 * r.completions < 2 * r.totalThrows * r.completionPct + r.totalThrows
      && 2 * r.totalThrows * r.turnoverRate - r.totalThrows <= 200 * r.turnovers
      && 200 * r.turnovers < 2 * r.totalThrows * r.turnoverRate + r.totalThrows
    ensures 0 <= r.completionPct <= 100 && 0 <= r.turnoverRate <= 100
    ensures r.totalThrows > 0 ==> 100 <= r.completionPct + r.turnoverRate <= 101
  {
    var completions := |Filter(windowEvents, IsCompletion)|;
    var turnovers := |Filter(windowEvents, IsTurnover)|;
    CountIsFilterLength(windowEvents, IsCompletion);
    CountIsFilterLength(windowEvents, IsTurnover);
    var total := completions + turnovers;
    if total > 0 then
      PercentInRange(completions, total);
      PercentInRange(turnovers, total);
      PercentsOfParts(completions, turnovers);
      ThrowStats(RoundPercent(completions, total), RoundPercent(turnovers, total),
                 completions, turnovers, total)
    else
      ThrowStats(0, 0, completions, turnovers, total)
  }

  /** The figures for the last five games. */
  function LastWindowStats(games: seq<Game>, events: seq<Event>): ThrowStats {
    CompletionStats(EventsOf(events, Last5Games(games)))
  }

  /** The figures for the five games before those. */
  function PrevWindowStats(games: seq<Game>, events: seq<Event>): ThrowStats {
    CompletionStats(EventsOf(events, Prev5Games(games)))
  }

  /** `Math.round((last - prev) / prev * 100)` when `prev > 0`, else 0: the rounded
      relative change in percent. It is never below -100, and a positive (negative) change
      means the count went up (down). */
  function ChangePercent(last: nat, prev: nat): (r: int)
    ensures prev == 0 ==> r == 0
    ensures prev > 0 ==> 2 * prev * r - prev <= 200 * (last - prev) < 2 * prev * r + prev
    ensures r >= -100
    ensures r > 0 ==> last > prev
    ensures r < 0 ==> last < prev
  {
    if prev > 0 then
      ChangeBounds(last, prev);
      RoundPercent(last - prev, prev)
    else 0
  }

  lemma ChangeBounds(last: nat, prev: nat)
    requires prev > 0
    ensures var r := RoundPercent(last - prev, prev);
      r >= -100 && (r > 0 ==> last > prev) && (r < 0 ==> last < prev)
  {
    var r := RoundPercent(last - prev, prev);
    assert 2 * prev * r == 2 * (prev * r);
    if r < -100 {
      MulMono(prev, r, -101);
    }
    if r > 0 {
      MulMono(prev, 1, r);
    }
    if r < 0 {
      MulMono(prev, r, -1);
    }
  }

  // ---------------------------------------------------------------------------------------
  // Player spotlight
  // ---------------------------------------------------------------------------------------

  datatype Spotlight = Spotlight(name: string, completions: nat, turnovers: nat,
                                 goals: nat, assists: nat)

  datatype Stat = Completions | Turnovers | Goals | Assists

  /** Whether event `e` adds one to `stat` of player `id` in `playerStats`: completions and
      turnovers go to a truthy thrower, a goal to its truthy receiver (goals) and to its
      truthy thrower (assists). */
  predicate Credited(e: Event, stat: Stat, id: string) {
    match stat
    case Completions => e.result == "completion" && Truthy(e.throwerId) && e.throwerId == id
    case Turnovers => e.result == "turnover" && Truthy(e.throwerId) && e.throwerId == id
    case Goals => e.result == "goal" && TruthyId(e.receiverId) && e.receiverId.value == id
    case Assists => e.result == "goal" && Truthy(e.throwerId) && e.throwerId == id
  }

  /** How many of `events` credit `stat` to player `id`. */
  function Credits(events: seq<Event>, stat: Stat, id: string): nat {
    if events == [] then 0
    else
      Credits(events[..|events| - 1], stat, id)
      + (if Credited(events[|events| - 1], stat, id) then 1 else 0)
  }

  /** The four counters of one player after one more event. */
  function Credit(s: Spotlight, e: Event, id: string): Spotlight {
    Spotlight(s.name,
              s.completions + (if Credited(e, Completions, id) then 1 else 0),
              s.turnovers + (if Credited(e, Turnovers, id) then 1 else 0),
              s.goals + (if Credited(e, Goals, id) then 1 else 0),
              s.assists + (if Credited(e, Assists, id) then 1 else 0))
  }

  /** The spotlight entry a player id ends with: the last name given to it and its credits. */
  function SpotlightOf(players: seq<Player>, events: seq<Event>, id: string): Spotlight {
    Spotlight(LastName(players, id), Credits(events, Completions, id), Credits(events, Turnovers, id),
              Credits(events, Goals, id), Credits(events, Assists, id))
  }

  /** The body of `events.forEach` in `playerStats` for one event: each of the four checks
      bumps the entry of the player it names, provided that player has an entry. */
  method CountEvent(stats: map<string, Spotlight>, e: Event) returns (r: map<string, Spotlight>)
    ensures r.Keys == stats.Keys
    ensures forall k :: k in stats ==> r[k] == Credit(stats[k], e, k)
  {
    r := stats;
    if e.result == "completion" && e.throwerId != "" && e.throwerId in r {
      r := r[e.throwerId := r[e.throwerId].(completions := r[e.throwerId].completions + 1)];
    }
    if e.result == "turnover" && e.throwerId != "" && e.throwerId in r {
      r := r[e.throwerId := r[e.throwerId].(turnovers := r[e.throwerId].turnovers + 1)];
    }
    if e.result == "goal" && e.receiverId.Some? && e.receiverId.value != "" && e.receiverId.value in r {
      var id := e.receiverId.value;
      r := r[id := r[id].(goals := r[id].goals + 1)];
    }
    if e.result == "goal" && e.throwerId != "" && e.throwerId in r {
      r := r[e.throwerId := r[e.throwerId].(assists := r[e.throwerId].assists + 1)];
    }
  }

  /** The first `players.forEach` of `playerStats`: a zeroed entry per roster id, keyed in
      first-occurrence order and named after the last player with that id. */
  method ZeroStats(players: seq<Player>) returns (stats: Dict<Spotlight>)
    ensures stats.Valid()
    ensures stats.keys == KeyOrder(players)
    ensures forall id :: id in stats.values ==> stats.values[id] == SpotlightOf(players, [], id)
  {
    stats := Dict([], map[]);
    var i := 0;
    while i < |players|
      invariant 0 <= i <= |players|
      invariant stats.Valid()
      invariant stats.keys == KeyOrder(players[..i])
      invariant forall k :: k in stats.values ==> stats.values[k] == Spotlight(LastName(players[..i], k), 0, 0, 0, 0)
    {
      var p := players[i];
      KeyOrderStep(players, i);
      ghost var before := stats.values;
      stats := stats.Put(p.id, Spotlight(p.name, 0, 0, 0, 0));
      forall k | k in stats.values
        ensures stats.values[k] == Spotlight(LastName(players[..i + 1], k), 0, 0, 0, 0)
      {
        LastNameStep(players, i, k);
        if k != p.id { assert stats.values[k] == before[k]; }
      }
      i := i + 1;
    }
    assert players[..|players|] == players;
  }

  /** One more event adds its credits to the entry of every player. */
  lemma SpotlightStep(players: seq<Player>, events: seq<Event>, e: Event, id: string)
    ensures SpotlightOf(players, events + [e], id) == Credit(SpotlightOf(players, events, id), e, id)
  {
    assert (events + [e])[..|events + [e]| - 1] == events;
  }

  /** `playerStats`: one entry per roster id, in first-occurrence order, holding the last
      name given to that id and the events that credit it; events naming anybody else are
      ignored. */
  method PlayerStats(players: seq<Player>, events: seq<Event>) returns (stats: Dict<Spotlight>)
    ensures stats.Valid()
    ensures stats.keys == KeyOrder(players)
    ensures forall id :: id in stats.values ==> stats.values[id] == SpotlightOf(players, events, id)
  {
    stats := ZeroStats(players);
    var values := stats.values;
    var i := 0;
    while i < |events|
      invariant 0 <= i <= |events|
      invariant values.Keys == stats.values.Keys
      invariant forall k :: k in values ==> values[k] == SpotlightOf(players, events[..i], k)
    {
      assert events[..i + 1] == events[..i] + [events[i]];
      forall k | k in values
        ensures SpotlightOf(players, events[..i + 1], k) == Credit(values[k], events[i], k)
      {
        SpotlightStep(players, events[..i], events[i], k);
      }
      values := CountEvent(values, events[i]);
      i := i + 1;
    }
    assert events[..|events|] == events;
    stats := stats.(values := values);
  }

  /** The sum the MVP card ranks players by. */
  function Impact(s: Spotlight): int {
    s.goals + s.assists + s.completions
  }

  /** The MVP card: the first entry with the greatest goals + assists + completions, and
      none when no player has an entry. */
  function Mvp(stats: Dict<Spotlight>): (r: Option<Spotlight>)
    requires stats.Valid()
    ensures r.None? <==> stats.keys == []
    ensures r.Some? ==> exists i :: stats.FirstMaxAt(Impact, i) && r.value == stats.values[stats.keys[i]]
  {
    if stats.keys == [] then None else Some(stats.Top(Impact))
  }

  /** `The player with most completions` of the quick insights, by the same rule. */
  function CompletionsOf(s: Spotlight): int {
    s.completions
  }

  function MostCompletions(stats: Dict<Spotlight>): (r: Option<Spotlight>)
    requires stats.Valid()
    ensures r.None? <==> stats.keys == []
    ensures r.Some? ==> exists i :: stats.FirstMaxAt(CompletionsOf, i) && r.value == stats.values[stats.keys[i]]
  {
    if stats.keys == [] then None else Some(stats.Top(CompletionsOf))
  }

  // ---------------------------------------------------------------------------------------
  // Trends over the last three games against the three before
  // ---------------------------------------------------------------------------------------

  datatype Trend = Trend(name: string, completionChange: int, turnoverChange: int)

  /** `events.filter(e => e.thrower_id === id && e.result === result).length`; unlike the
      spotlight, an empty thrower id is not excluded here. */
  function ThrowerResults(events: seq<Event>, id: string, result: string): nat {
    if events == [] then 0
    else
      ThrowerResults(events[..|events| - 1], id, result)
      + (if events[|events| - 1].throwerId == id && events[|events| - 1].result == result then 1 else 0)
  }

  function TrendOf(name: string, last3: seq<Event>, prev3: seq<Event>, id: string): Trend {
    Trend(name,
          ChangePercent(ThrowerResults(last3, id, "completion"), ThrowerResults(prev3, id, "completion")),
          ChangePercent(ThrowerResults(last3, id, "turnover"), ThrowerResults(prev3, id, "turnover")))
  }

  /** `playerTrends`: per roster id, keyed as `playerStats` is, the change of its completions
      and turnovers from the games `3..6` to the games `0..3`. A change is never below -100%,
      it is 0 without earlier completions (turnovers), and it is positive only when more were
      thrown in the last three games and negative only when fewer were. */
  function PlayerTrends(players: seq<Player>, games: seq<Game>, events: seq<Event>): (r: Dict<Trend>)
    ensures r.Valid()
    ensures r.keys == KeyOrder(players)
    ensures forall id :: id in r.values ==>
      var t := r.values[id];
      var last3 := EventsOf(events, Slice(games, 0, 3));
      var prev3 := EventsOf(events, Slice(games, 3, 6));
      var lc, pc := ThrowerResults(last3, id, "completion"), ThrowerResults(prev3, id, "completion");
      var lt, pt := ThrowerResults(last3, id, "turnover"), ThrowerResults(prev3, id, "turnover");
      && t.name == LastName(players, id)
      && t.completionChange == ChangePercent(lc, pc) && t.turnoverChange == ChangePercent(lt, pt)
      && t.completionChange >= -100 && t.turnoverChange >= -100
      && (pc == 0 ==> t.completionChange == 0) && (pt == 0 ==> t.turnoverChange == 0)
      && (t.completionChange > 0 ==> lc > pc) && (t.completionChange < 0 ==> lc < pc)
      && (t.turnoverChange > 0 ==> lt > pt) && (t.turnoverChange < 0 ==> lt < pt)
  {
    var last3 := EventsOf(events, Slice(games, 0, 3));
    var prev3 := EventsOf(events, Slice(games, 3, 6));
    var keys := KeyOrder(players);
    Dict(keys, map id | id in keys :: TrendOf(LastName(players, id), last3, prev3, id))
  }

  function ChangeOf(t: Trend): int {
    t.completionChange
  }

  /** The improvement card: the first trend with the largest completion change, shown only
      when that change is positive. */
  function Improvement(trends: Dict<Trend>): (r: Option<Trend>)
    requires trends.Valid()
    ensures r.Some? ==> r.value.completionChange > 0
    ensures r.Some? ==> exists i :: trends.FirstMaxAt(ChangeOf, i) && r.value == trends.values[trends.keys[i]]
    ensures r.None? <==> forall j :: 0 <= j < |trends.keys| ==> trends.values[trends.keys[j]].completionChange <= 0
  {
    if trends.keys == [] then None
    else
      var top := trends.Top(ChangeOf);
      assert top.completionChange <= 0 ==>
        forall j :: 0 <= j < |trends.keys| ==> trends.values[trends.keys[j]].completionChange <= 0 by {
        var i :| trends.FirstMaxAt(ChangeOf, i) && top == trends.values[trends.keys[i]];
      }
      if top.completionChange > 0 then Some(top) else None
  }

  /** The ascending sort of the concern card, as a descending sort on the negated change. */
  function NegChangeOf(t: Trend): int {
    -t.completionChange
  }

  /** The concern card: the first trend with the smallest completion change (the largest
      negated change), shown only when that change is negative. */
  function Concern(trends: Dict<Trend>): (r: Option<Trend>)
    requires trends.Valid()
    ensures r.Some? ==> r.value.completionChange < 0
    ensures r.Some? ==> exists i :: trends.FirstMaxAt(NegChangeOf, i) && r.value == trends.values[trends.keys[i]]
    ensures r.None? <==> forall j :: 0 <= j < |trends.keys| ==> trends.values[trends.keys[j]].completionChange >= 0
  {
    if trends.keys == [] then None
    else
      var top := trends.Top(NegChangeOf);
      assert top.completionChange >= 0 ==>
        forall j :: 0 <= j < |trends.keys| ==> trends.values[trends.keys[j]].completionChange >= 0 by {
        var i :| trends.FirstMaxAt(NegChangeOf, i) && top == trends.values[trends.keys[i]];
      }
      if top.completionChange < 0 then Some(top) else None
  }

  // ---------------------------------------------------------------------------------------
  // Chemistry heat map
  // ---------------------------------------------------------------------------------------

  /** `thrower id -> receiver id -> completions`. */
  type Matrix = map<string, map<string, nat>>

  /** An event the heat map counts: a completion with a truthy thrower and receiver. */
  predicate PairCompletion(e: Event) {
    e.result == "completion" && Truthy(e.throwerId) && TruthyId(e.receiverId)
  }

  /** How many of `events` are completions from `a` to `b`. */
  function PairCount(events: seq<Event>, a: string, b: string): nat {
    if events == [] then 0
    else
      var e := events[|events| - 1];
      PairCount(events[..|events| - 1], a, b)
      + (if PairCompletion(e) && e.throwerId == a && e.receiverId.value == b then 1 else 0)
  }

  /** Every counted completion is thrown by a roster player. */
  predicate KnownThrowers(events: seq<Event>, ids: set<string>) {
    forall i :: 0 <= i < |events| && PairCompletion(events[i]) ==> events[i].throwerId in ids
  }

  /** A row whose columns are exactly the roster ids, all zero. */
  ghost predicate ZeroRow(row: map<string, nat>, ids: seq<string>) {
    (forall b :: b in row <==> b in ids) && (forall b :: b in row ==> row[b] == 0)
  }

  /** The first `players.forEach` of `chemistryMatrix`: a zero for every ordered pair of
      roster ids. */
  method ZeroMatrix(players: seq<Player>) returns (m: Matrix)
    ensures forall a :: a in m <==> a in Ids(players)
    ensures forall a :: a in m ==> ZeroRow(m[a], Ids(players))
  {
    var ids := Ids(players);
    m := map[];
    var i := 0;
    while i < |ids|
      invariant 0 <= i <= |ids|
      invariant forall a :: a in m <==> a in ids[..i]
      invariant forall a :: a in m ==> ZeroRow(m[a], ids)
    {
      assert ids[..i + 1] == ids[..i] + [ids[i]];
      var row := ZeroRowOf(ids);
      m := m[ids[i] := row];
      i := i + 1;
    }
    assert ids[..|ids|] == ids;
  }

  /** The inner `players.forEach`: `matrix[p1.id][p2.id] = 0` for every roster id `p2.id`, the
      ids given in roster order. */
  method ZeroRowOf(ids: seq<string>) returns (row: map<string, nat>)
    ensures ZeroRow(row, ids)
  {
    row := map[];
    var j := 0;
    while j < |ids|
      invariant 0 <= j <= |ids|
      invariant forall b :: b in row <==> b in ids[..j]
      invariant forall b :: b in row ==> row[b] == 0
    {
      assert ids[..j + 1] == ids[..j] + [ids[j]];
      row := row[ids[j] := 0];
      j := j + 1;
    }
    assert ids[..|ids|] == ids;
  }

  /** The rows and the columns of `m` are exactly the ids `ids`. */
  ghost predicate Square(m: Matrix, ids: set<string>) {
    && (forall a :: a in m <==> a in ids)
    && (forall a, b :: a in m ==> (b in m[a] <==> b in ids))
  }

  /** `matrix[t][c]++` on an existing cell. */
  function Bumped(m: Matrix, t: string, c: string): Matrix
    requires t in m && c in m[t]
  {
    m[t := m[t][c := m[t][c] + 1]]
  }

  /** Adding one to an existing cell keeps the shape of the matrix... */
  lemma BumpShape(m: Matrix, ids: set<string>, t: string, c: string)
    requires Square(m, ids) && t in m && c in m[t]
    ensures Square(Bumped(m, t, c), ids)
  {
  }

  /** ... and adds one to that cell and to no other. */
  lemma BumpCells(m: Matrix, t: string, c: string)
    requires t in m && c in m[t]
    ensures forall a: string, b: string :: a in m && b in m[a] ==>
      Bumped(m, t, c)[a][b] == m[a][b] + (if a == t && b == c then 1 else 0)
  {
  }

  /** The body of `events.forEach` in `chemistryMatrix` for one event: a counted completion
      fails when its thrower has no row, and otherwise adds one to its cell. */
  method AddCompletion(m: Matrix, ghost ids: set<string>, e: Event) returns (r: Result<Matrix, string>)
    requires Square(m, ids)
    ensures r.Failure? <==> PairCompletion(e) && e.throwerId !in ids
    ensures r.Failure? ==> r.error == e.throwerId
    ensures r.Success? ==> Square(r.value, ids)
    ensures r.Success? ==> forall a, b :: a in ids && b in ids ==>
      r.value[a][b] == m[a][b] + (if PairCompletion(e) && e.throwerId == a && e.receiverId.value == b then 1 else 0)
  {
    if e.result == "completion" && e.throwerId != "" && e.receiverId.Some? && e.receiverId.value != "" {
      if e.throwerId !in m {
        return Failure(e.throwerId);
      }
      var row := m[e.throwerId];
      var receiver := e.receiverId.value;
      if receiver in row {
        BumpShape(m, ids, e.throwerId, receiver);
        BumpCells(m, e.throwerId, receiver);
        return Success(Bumped(m, e.throwerId, receiver));
      }
      assert receiver !in ids;
    }
    return Success(m);
  }

  lemma PairCountStep(events: seq<Event>, i: nat, a: string, b: string)
    requires i < |events|
    ensures PairCount(events[..i + 1], a, b) == PairCount(events[..i], a, b)
      + (if PairCompletion(events[i]) && events[i].throwerId == a && events[i].receiverId.value == b then 1 else 0)
  {
    assert events[..i + 1][..i] == events[..i];
  }

  lemma KnownThrowersStep(events: seq<Event>, i: nat, ids: set<string>)
    requires i < |events| && KnownThrowers(events[..i], ids)
    requires PairCompletion(events[i]) ==> events[i].throwerId in ids
    ensures KnownThrowers(events[..i + 1], ids)
  {
    forall k | 0 <= k < i + 1 && PairCompletion(events[k])
      ensures events[..i + 1][k].throwerId in ids
    {
      if k < i { assert events[..i][k] == events[k]; }
    }
  }

  /** Every cell between ids of `ids` holds the completions of `events` between them. */
  ghost predicate Counts(m: Matrix, ids: set<string>, events: seq<Event>) {
    forall a, b :: a in ids && b in ids ==> a in m && b in m[a] && m[a][b] == PairCount(events, a, b)
  }

  lemma CountsStep(m: Matrix, m': Matrix, ids: set<string>, events: seq<Event>, i: nat)
    requires i < |events| && Counts(m, ids, events[..i]) && Square(m', ids)
    requires forall a, b :: a in ids && b in ids ==>
      m'[a][b] == m[a][b] + (if PairCompletion(events[i]) && events[i].throwerId == a && events[i].receiverId.value == b then 1 else 0)
    ensures Counts(m', ids, events[..i + 1])
  {
    forall a, b | a in ids && b in ids
      ensures m'[a][b] == PairCount(events[..i + 1], a, b)
    {
      PairCountStep(events, i, a, b);
    }
  }

  /** `chemistryMatrix`: the completions between every ordered pair of roster ids. A counted
      completion by a thrower without a row fails (`matrix[e.thrower_id]` is `undefined`
      there and indexing it throws), naming the first such thrower. */
  method ChemistryMatrix(players: seq<Player>, events: seq<Event>) returns (r: Result<Matrix, string>)
    ensures r.Success? <==> KnownThrowers(events, IdSet(players))
    ensures r.Failure? ==> exists i :: (0 <= i < |events| && PairCompletion(events[i])
      && events[i].throwerId == r.error && r.error !in Ids(players))
    ensures r.Success? ==> Square(r.value, IdSet(players))
    ensures r.Success? ==> forall a: string, b: string :: a in r.value && b in r.value[a] ==>
      r.value[a][b] == PairCount(events, a, b)
  {
    ghost var ids := IdSet(players);
    var m: Matrix := ZeroMatrix(players);
    assert Square(m, ids);
    assert Counts(m, ids, events[..0]);
    var i := 0;
    while i < |events|
      invariant 0 <= i <= |events|
      invariant KnownThrowers(events[..i], ids)
      invariant Square(m, ids)
      invariant Counts(m, ids, events[..i])
    {
      var step := AddCompletion(m, ids, events[i]);
      if step.Failure? {
        assert PairCompletion(events[i]) && events[i].throwerId !in ids;
        assert !KnownThrowers(events, ids);
        return step;
      }
      CountsStep(m, step.value, ids, events, i);
      KnownThrowersStep(events, i, ids);
      m := step.value;
      i := i + 1;
    }
    assert events[..|events|] == events;
    return Success(m);
  }

  /** A missing row or cell reads as 0. */
  function Cell(m: Matrix, a: string, b: string): nat {
    if a in m && b in m[a] then m[a][b] else 0
  }

  // ---------------------------------------------------------------------------------------
  // Quick insights
  // ---------------------------------------------------------------------------------------

  /** `(i, j)` comes before `(k, l)` in the order of the nested `forEach`. */
  predicate Before(i: int, j: int, k: int, l: int) {
    i < k || (i == k && j < l)
  }

  /** The pairs of positions of distinct roster ids. */
  predicate Distinct(players: seq<Player>, i: int, j: int) {
    0 <= i < |players| && 0 <= j < |players| && players[i].id != players[j].id
  }

  /** `bestPair` after the nested loops have visited every pair before `(k, l)`: `value` is
      the greatest cell among them, `best` the first pair that holds it, and no pair while
      every cell seen is 0. */
  ghost predicate BestSoFar(players: seq<Player>, m: Matrix, best: Option<(nat, nat)>, value: nat, k: nat, l: nat) {
    && (forall i, j :: Distinct(players, i, j) && Before(i, j, k, l) ==> Cell(m, players[i].id, players[j].id) <= value)
    && (best.None? <==> value == 0)
    && (best.Some? ==>
          && Distinct(players, best.value.0, best.value.1)
          && Before(best.value.0, best.value.1, k, l)
          && Cell(m, players[best.value.0].id, players[best.value.1].id) == value
          && forall i, j :: Distinct(players, i, j) && Before(i, j, best.value.0, best.value.1) ==>
               Cell(m, players[i].id, players[j].id) < value)
  }

  /** The pair of the quick insights: the first pair of distinct roster ids whose cell is
      the greatest, when that cell is positive. */
  ghost predicate IsBestPair(players: seq<Player>, m: Matrix, best: Option<(nat, nat)>, value: nat) {
    BestSoFar(players, m, best, value, |players|, 0)
  }

  /** The best pair is determined by the players and the matrix. */
  lemma BestPairUnique(players: seq<Player>, m: Matrix, b1: Option<(nat, nat)>, v1: nat, b2: Option<(nat, nat)>, v2: nat)
    requires IsBestPair(players, m, b1, v1) && IsBestPair(players, m, b2, v2)
    ensures b1 == b2 && v1 == v2
  {
    if b1.Some? && b2.Some? {
      var i1, j1, i2, j2 := b1.value.0, b1.value.1, b2.value.0, b2.value.1;
      assert Cell(m, players[i2].id, players[j2].id) <= v1;
      assert Cell(m, players[i1].id, players[j1].id) <= v2;
      if Before(i1, j1, i2, j2) {
        assert false;
      } else if Before(i2, j2, i1, j1) {
        assert false;
      }
    }
  }

  /** Visiting a pair whose cell is not greater leaves the best pair as it is. */
  lemma KeepBest(players: seq<Player>, m: Matrix, best: Option<(nat, nat)>, value: nat, i: nat, j: nat)
    requires BestSoFar(players, m, best, value, i, j)
    requires !(Distinct(players, i, j) && Cell(m, players[i].id, players[j].id) > value)
    ensures BestSoFar(players, m, best, value, i, j + 1)
  {
  }

  /** Visiting a pair whose cell is greater makes it the best pair. */
  lemma NewBest(players: seq<Player>, m: Matrix, best: Option<(nat, nat)>, value: nat, i: nat, j: nat)
    requires BestSoFar(players, m, best, value, i, j)
    requires Distinct(players, i, j) && Cell(m, players[i].id, players[j].id) > value
    ensures BestSoFar(players, m, Some((i, j)), Cell(m, players[i].id, players[j].id), i, j + 1)
  {
  }

  /** Having visited a whole row is having visited everything before the next one. */
  lemma NextRow(players: seq<Player>, m: Matrix, best: Option<(nat, nat)>, value: nat, i: nat)
    requires BestSoFar(players, m, best, value, i, |players|)
    ensures BestSoFar(players, m, best, value, i + 1, 0)
  {
    assert forall p, q :: Distinct(players, p, q) && Before(p, q, i + 1, 0) ==> Before(p, q, i, |players|);
  }

  /** The nested loops of `quickInsights` that look for the best pair: a pair replaces the
      best one only when its cell is strictly greater. */
  method BestPair(players: seq<Player>, m: Matrix) returns (best: Option<(nat, nat)>, value: nat)
    ensures IsBestPair(players, m, best, value)
  {
    best, value := None, 0;
    var i := 0;
    while i < |players|
      invariant 0 <= i <= |players|
      invariant BestSoFar(players, m, best, value, i, 0)
    {
      var j := 0;
      while j < |players|
        invariant 0 <= j <= |players|
        invariant BestSoFar(players, m, best, value, i, j)
      {
        var a, b := players[i].id, players[j].id;
        if a != b && a in m && b in m[a] && m[a][b] > value {
          NewBest(players, m, best, value, i, j);
          best, value := Some((i, j)), m[a][b];
        } else {
          KeepBest(players, m, best, value, i, j);
        }
        j := j + 1;
      }
      NextRow(players, m, best, value, i);
      i := i + 1;
    }
  }

  function PairInsight(thrower: string, receiver: string): string {
    "Consider pairing " + thrower + " with " + receiver + " more often."
  }

  function CompletionsInsight(name: string): string {
    name + " is excelling at completions."
  }

  /** The pairing suggestion, made only when both ids of the best pair are truthy. */
  function PairInsights(players: seq<Player>, best: Option<(nat, nat)>): seq<string> {
    if best.Some? && best.value.0 < |players| && best.value.1 < |players|
       && Truthy(players[best.value.0].id) && Truthy(players[best.value.1].id)
    then [PairInsight(GetPlayerName(players, Some(players[best.value.0].id)),
                      GetPlayerName(players, Some(players[best.value.1].id)))]
    else []
  }

  /** The praise for the first player with the most completions, when there is a player. */
  function CompletionsInsights(stats: Dict<Spotlight>): seq<string>
    requires stats.Valid()
  {
    match MostCompletions(stats)
    case Some(top) => [CompletionsInsight(top.name)]
    case None => []
  }

  /** `quickInsights`: the pairing suggestion for the best pair, then the praise for the
      player with the most completions. */
  method QuickInsights(players: seq<Player>, m: Matrix, stats: Dict<Spotlight>)
    returns (insights: seq<string>, ghost best: Option<(nat, nat)>, ghost value: nat)
    requires stats.Valid()
    ensures IsBestPair(players, m, best, value)
    ensures insights == PairInsights(players, best) + CompletionsInsights(stats)
  {
    var pair, cell := BestPair(players, m);
    best, value := pair, cell;
    assert pair.Some? ==> Distinct(players, pair.value.0, pair.value.1);
    insights := [];
    if pair.Some? && players[pair.value.0].id != "" && players[pair.value.1].id != "" {
      var a, b := players[pair.value.0].id, players[pair.value.1].id;
      insights := insights + [PairInsight(GetPlayerName(players, Some(a)), GetPlayerName(players, Some(b)))];
    }
    assert insights == PairInsights(players, pair);
    var top := MostCompletions(stats);
    if top.Some? {
      insights := insights + [CompletionsInsight(top.value.name)];
    }
    assert CompletionsInsights(stats) == if top.Some? then [CompletionsInsight(top.value.name)] else [];
  }

  // ---------------------------------------------------------------------------------------
  // Rows written by the live game page
  // ---------------------------------------------------------------------------------------

  /** The live game page writes `result` as `'Goal'` or `'Turnover'`, while the dashboard
      compares with `'completion'`, `'turnover'` and `'goal'`: such rows count toward no
      figure of the dashboard. */
  predicate LiveGameRow(e: Event) {
    e.result == "Goal" || e.result == "Turnover"
  }

  lemma {:induction false} LiveGameRowsUncounted(events: seq<Event>, stat: Stat, a: string, b: string)
    requires forall i :: 0 <= i < |events| ==> LiveGameRow(events[i])
    ensures CompletionStats(events).totalThrows == 0
    ensures Credits(events, stat, a) == 0
    ensures PairCount(events, a, b) == 0
    ensures ThrowerResults(events, a, "completion") == 0 && ThrowerResults(events, a, "turnover") == 0
  {
    if events != [] {
      var init := events[..|events| - 1];
      LiveGameRowsUncounted(init, stat, a, b);
      assert Count(events, IsCompletion) == Count(init, IsCompletion);
      assert Count(events, IsTurnover) == Count(init, IsTurnover);
    }
  }
}
