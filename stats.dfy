/** The per-game statistics page (src/pages/Stats.tsx): goals, assists and turnovers per
    roster player, thrower-to-receiver connections and the top-five leaderboards, computed
    from the events of one game as the live game page records them (`'Goal'`, `'Turnover'`). */
module GameStats {
  import opened Common
  import opened Seqs
  import opened Records

  datatype PlayerStats = PlayerStats(goals: nat, assists: nat, turnovers: nat)

  /** `keyof PlayerStats`. */
  datatype Stat = Goals | Assists | Turnovers

  function StatOf(s: PlayerStats, stat: Stat): nat {
    match stat
    case Goals => s.goals
    case Assists => s.assists
    case Turnovers => s.turnovers
  }

  /** Whether event `e` adds one to `stat` of player `id`: a goal to its truthy receiver
      (goals) and its truthy thrower (assists), a turnover to its truthy thrower. */
  predicate Credited(e: Event, stat: Stat, id: string) {
    match stat
    case Goals => e.result == "Goal" && TruthyId(e.receiverId) && e.receiverId.value == id
    case Assists => e.result == "Goal" && Truthy(e.throwerId) && e.throwerId == id
    case Turnovers => e.result == "Turnover" && Truthy(e.throwerId) && e.throwerId == id
  }

  function Tally(events: seq<Event>, stat: Stat, id: string): nat {
    if events == [] then 0
    else
      Tally(events[..|events| - 1], stat, id)
      + (if Credited(events[|events| - 1], stat, id) then 1 else 0)
  }

  /** The counters of player `id` over `events`. */
  function StatsOf(events: seq<Event>, id: string): PlayerStats {
    PlayerStats(Tally(events, Goals, id), Tally(events, Assists, id), Tally(events, Turnovers, id))
  }

  lemma StatsStep(events: seq<Event>, e: Event, id: string)
    ensures StatsOf(events + [e], id) == PlayerStats(
      StatsOf(events, id).goals + (if Credited(e, Goals, id) then 1 else 0),
      StatsOf(events, id).assists + (if Credited(e, Assists, id) then 1 else 0),
      StatsOf(events, id).turnovers + (if Credited(e, Turnovers, id) then 1 else 0))
  {
    assert (events + [e])[..|events + [e]| - 1] == events;
  }

  /** Every id the event makes the page index `stats` with has an entry there. Others make
      `stats[id]` `undefined`, and the `++` on it throws. */
  predicate Known(e: Event, ids: set<string>) {
    && (e.result == "Goal" ==>
          (TruthyId(e.receiverId) ==> e.receiverId.value in ids) && (Truthy(e.throwerId) ==> e.throwerId in ids))
    && (e.result == "Turnover" ==> (Truthy(e.throwerId) ==> e.throwerId in ids))
  }

  predicate AllKnown(events: seq<Event>, ids: set<string>) {
    forall i :: 0 <= i < |events| ==> Known(events[i], ids)
  }

  /** An event that counts as a connection: a goal with a truthy thrower and receiver. */
  predicate Linked(e: Event) {
    e.result == "Goal" && Truthy(e.throwerId) && TruthyId(e.receiverId)
  }

  /** The thrower and the receiver of a linked event. */
  type Pair = (string, string)

  /** How many of `events` are goals thrown by `p.0` to `p.1`. */
  function Links(events: seq<Event>, p: Pair): nat {
    if events == [] then 0
    else
      var e := events[|events| - 1];
      Links(events[..|events| - 1], p) + (if Linked(e) && (e.throwerId, e.receiverId.value) == p then 1 else 0)
  }

  /** The pairs of linked events, each once and in order of first occurrence. */
  function LinkOrder(events: seq<Event>): (r: seq<Pair>)
    ensures forall i, j :: 0 <= i < j < |r| ==> r[i] != r[j]
    ensures forall p :: p in r <==> Links(events, p) > 0
  {
    if events == [] then []
    else
      var e := events[|events| - 1];
      var init := LinkOrder(events[..|events| - 1]);
      if Linked(e) && (e.throwerId, e.receiverId.value) !in init then init + [(e.throwerId, e.receiverId.value)]
      else init
  }

  // ---------------------------------------------------------------------------------------
  // The aggregation effect
  // ---------------------------------------------------------------------------------------

  /** What the effect stores: `playerStats` and the connection counts, pair by pair in the
      order the pairs first occur. */
  datatype Summary = Summary(stats: Dict<PlayerStats>, pairs: seq<Pair>, links: map<Pair, nat>)

  /** `players.forEach(p => stats[p.id] = {goals: 0, assists: 0, turnovers: 0})`. */
  method ZeroStats(players: seq<Player>) returns (stats: Dict<PlayerStats>)
    ensures stats.Valid()
    ensures stats.keys == KeyOrder(players)
    ensures forall id :: id in stats.values ==> stats.values[id] == PlayerStats(0, 0, 0)
  {
    stats := Dict([], map[]);
    var i := 0;
    while i < |players|
      invariant 0 <= i <= |players|
      invariant stats.Valid()
      invariant stats.keys == KeyOrder(players[..i])
      invariant forall k :: k in stats.values ==> stats.values[k] == PlayerStats(0, 0, 0)
    {
      KeyOrderStep(players, i);
      stats := stats.Put(players[i].id, PlayerStats(0, 0, 0));
      i := i + 1;
    }
    assert players[..|players|] == players;
  }

  /** The player counters of one event: the receiver's goal, the thrower's assist or the
      thrower's turnover; the first id without an entry fails. */
  method CountEvent(values: map<string, PlayerStats>, e: Event) returns (r: Result<map<string, PlayerStats>, string>)
    ensures r.Failure? <==> !Known(e, values.Keys)
    ensures r.Failure? ==> r.error !in values
    ensures r.Success? ==> r.value.Keys == values.Keys
    ensures r.Success? ==> forall k :: k in values ==> r.value[k] == PlayerStats(
      values[k].goals + (if Credited(e, Goals, k) then 1 else 0),
      values[k].assists + (if Credited(e, Assists, k) then 1 else 0),
      values[k].turnovers + (if Credited(e, Turnovers, k) then 1 else 0))
  {
    var m := values;
    if e.result == "Goal" {
      if e.receiverId.Some? && e.receiverId.value != "" {
        var id := e.receiverId.value;
        if id !in m {
          return Failure(id);
        }
        m := m[id := m[id].(goals := m[id].goals + 1)];
      }
      if e.throwerId != "" {
        if e.throwerId !in m {
          return Failure(e.throwerId);
        }
        m := m[e.throwerId := m[e.throwerId].(assists := m[e.throwerId].assists + 1)];
      }
    } else if e.result == "Turnover" {
      if e.throwerId != "" {
        if e.throwerId !in m {
          return Failure(e.throwerId);
        }
        m := m[e.throwerId := m[e.throwerId].(turnovers := m[e.throwerId].turnovers + 1)];
      }
    }
    return Success(m);
  }

  /** `connectionMap[key] = (connectionMap[key] || 0) + 1` for a linked event, keyed by its
      pair: a new pair is appended to the order with count 1. */
  method CountLink(pairs: seq<Pair>, links: map<Pair, nat>, e: Event) returns (pairs': seq<Pair>, links': map<Pair, nat>)
    requires forall p :: p in links <==> p in pairs
    ensures forall p :: p in links' <==> p in pairs'
    ensures Linked(e) && (e.throwerId, e.receiverId.value) !in pairs ==> pairs' == pairs + [(e.throwerId, e.receiverId.value)]
    ensures !(Linked(e) && (e.throwerId, e.receiverId.value) !in pairs) ==> pairs' == pairs
    ensures forall p :: p in links' ==>
      links'[p] == (if p in links then links[p] else 0) + (if Linked(e) && (e.throwerId, e.receiverId.value) == p then 1 else 0)
  {
    pairs', links' := pairs, links;
    if e.result == "Goal" && e.throwerId != "" && e.receiverId.Some? && e.receiverId.value != "" {
      var key := (e.throwerId, e.receiverId.value);
      if key !in links {
        pairs' := pairs + [key];
        links' := links[key := 1];
      } else {
        links' := links[key := links[key] + 1];
      }
    }
  }

  /** The player counters hold the tallies of `events`. */
  ghost predicate StatsAt(values: map<string, PlayerStats>, events: seq<Event>) {
    forall k :: k in values ==> values[k] == StatsOf(events, k)
  }

  /** The connection counts hold the pairs of `events` and their goals. */
  ghost predicate LinksAt(pairs: seq<Pair>, links: map<Pair, nat>, events: seq<Event>) {
    && pairs == LinkOrder(events)
    && (forall p :: p in links <==> p in pairs)
    && (forall p :: p in links ==> links[p] == Links(events, p))
  }

  lemma StatsAtStep(values: map<string, PlayerStats>, next: map<string, PlayerStats>, events: seq<Event>, e: Event)
    requires StatsAt(values, events) && next.Keys == values.Keys
    requires forall k :: k in values ==> next[k] == PlayerStats(
      values[k].goals + (if Credited(e, Goals, k) then 1 else 0),
      values[k].assists + (if Credited(e, Assists, k) then 1 else 0),
      values[k].turnovers + (if Credited(e, Turnovers, k) then 1 else 0))
    ensures StatsAt(next, events + [e])
  {
    forall k | k in next
      ensures next[k] == StatsOf(events + [e], k)
    {
      StatsStep(events, e, k);
    }
  }

  lemma LinksAtStep(pairs: seq<Pair>, links: map<Pair, nat>, pairs': seq<Pair>, links': map<Pair, nat>,
                    events: seq<Event>, e: Event)
    requires LinksAt(pairs, links, events)
    requires forall p :: p in links' <==> p in pairs'
    requires Linked(e) && (e.throwerId, e.receiverId.value) !in pairs ==> pairs' == pairs + [(e.throwerId, e.receiverId.value)]
    requires !(Linked(e) && (e.throwerId, e.receiverId.value) !in pairs) ==> pairs' == pairs
    requires forall p :: p in links' ==>
      links'[p] == (if p in links then links[p] else 0) + (if Linked(e) && (e.throwerId, e.receiverId.value) == p then 1 else 0)
    ensures LinksAt(pairs', links', events + [e])
  {
    assert (events + [e])[..|events + [e]| - 1] == events;
    forall p | p in links'
      ensures links'[p] == Links(events + [e], p)
    {
      assert Links(events, p) > 0 ==> p in links;
    }
  }

  lemma KnownStep(events: seq<Event>, e: Event, ids: set<string>)
    requires AllKnown(events, ids) && Known(e, ids)
    ensures AllKnown(events + [e], ids)
  {
    forall j | 0 <= j < |events| + 1
      ensures Known((events + [e])[j], ids)
    {
      if j < |events| { assert (events + [e])[j] == events[j]; }
    }
  }

  /** The aggregation effect of lines 75-121. Without events, stats and connections are
      empty. Otherwise every roster id gets the goals, assists and turnovers its events
      credit it with, every pair of a goal its number of goals, in first-occurrence order;
      an event naming an id without an entry fails with that id. */
  method Aggregate(players: seq<Player>, events: seq<Event>) returns (r: Result<Summary, string>)
    ensures events == [] ==> r == Success(Summary(Dict([], map[]), [], map[]))
    ensures r.Failure? <==> events != [] && !AllKnown(events, IdSet(players))
    ensures r.Failure? ==> r.error !in IdSet(players)
    ensures r.Success? && events != [] ==>
      && r.value.stats.Valid()
      && r.value.stats.keys == KeyOrder(players)
      && StatsAt(r.value.stats.values, events)
    ensures r.Success? ==> LinksAt(r.value.pairs, r.value.links, events)
  {
    if |events| == 0 {
      return Success(Summary(Dict([], map[]), [], map[]));
    }
    var stats := ZeroStats(players);
    ghost var ids := IdSet(players);
    assert stats.values.Keys == ids;
    var values := stats.values;
    var pairs: seq<Pair> := [];
    var links: map<Pair, nat> := map[];
    var i := 0;
    while i < |events|
      invariant 0 <= i <= |events|
      invariant values.Keys == ids
      invariant AllKnown(events[..i], ids)
      invariant StatsAt(values, events[..i])
      invariant LinksAt(pairs, links, events[..i])
    {
      var e := events[i];
      assert events[..i + 1] == events[..i] + [e];
      var step := CountEvent(values, e);
      if step.Failure? {
        assert !Known(events[i], ids);
        return Failure(step.error);
      }
      StatsAtStep(values, step.value, events[..i], e);
      KnownStep(events[..i], e, ids);
      values := step.value;
      var pairs', links' := CountLink(pairs, links, e);
      LinksAtStep(pairs, links, pairs', links', events[..i], e);
      pairs, links := pairs', links';
      i := i + 1;
    }
    assert events[..|events|] == events;
    return Success(Summary(Dict(stats.keys, values), pairs, links));
  }

  // ---------------------------------------------------------------------------------------
  // Names, connections and leaderboards
  // ---------------------------------------------------------------------------------------

  /** `players.find(p => p.id === id)?.name || 'Unknown'`: the first matching player's name,
      or `'Unknown'` when there is none or that name is empty. */
  function NameOrUnknown(players: seq<Player>, id: string): (r: string)
    ensures r != ""
    ensures FindName(players, id).Some? && FindName(players, id).value != "" ==> r == FindName(players, id).value
    ensures FindName(players, id).None? ==> r == "Unknown"
    ensures FindName(players, id) == Some("") ==> r == "Unknown"
  {
    match FindName(players, id)
    case Some(name) => if name != "" then name else "Unknown"
    case None => "Unknown"
  }

  datatype Connection = Connection(thrower: string, receiver: string, count: nat)

  function CountOfConnection(c: Connection): int {
    c.count
  }

  /** A connection row per counted pair, in the order the pairs first occur. */
  function ConnectionRows(players: seq<Player>, pairs: seq<Pair>, links: map<Pair, nat>): (r: seq<Connection>)
    requires forall p :: p in pairs ==> p in links
    ensures |r| == |pairs|
    ensures forall i :: 0 <= i < |pairs| ==>
      r[i] == Connection(NameOrUnknown(players, pairs[i].0), NameOrUnknown(players, pairs[i].1), links[pairs[i]])
  {
    if pairs == [] then []
    else
      [Connection(NameOrUnknown(players, pairs[0].0), NameOrUnknown(players, pairs[0].1), links[pairs[0]])]
      + ConnectionRows(players, pairs[1..], links)
  }

  /** `sortedConnections`: the connection rows, most goals first, and a permutation of them. */
  function SortedConnections(players: seq<Player>, summary: Summary): (r: seq<Connection>)
    requires forall p :: p in summary.pairs ==> p in summary.links
    ensures SortedDesc(r, CountOfConnection)
    ensures multiset(r) == multiset(ConnectionRows(players, summary.pairs, summary.links))
    ensures forall i :: 0 <= i < |r| ==> r[i].thrower != "" && r[i].receiver != ""
  {
    var rows := ConnectionRows(players, summary.pairs, summary.links);
    var r := SortDesc(rows, CountOfConnection);
    forall i | 0 <= i < |r|
      ensures r[i].thrower != "" && r[i].receiver != ""
    {
      assert r[i] in multiset(rows);
      var j :| 0 <= j < |rows| && rows[j] == r[i];
    }
    r
  }

  datatype Ranked = Ranked(name: string, stat: nat)

  function RankedOf(r: Ranked): int {
    r.stat
  }

  /** The entries of `playerStats` as leaderboard rows for `stat`, in key order. */
  function Entries(players: seq<Player>, stats: Dict<PlayerStats>, stat: Stat): (r: seq<Ranked>)
    requires stats.Valid()
    ensures |r| == |stats.keys|
    ensures forall i :: 0 <= i < |r| ==>
      r[i] == Ranked(NameOrUnknown(players, stats.keys[i]), StatOf(stats.values[stats.keys[i]], stat))
  {
    seq(|stats.keys|, i requires 0 <= i < |stats.keys| =>
      Ranked(NameOrUnknown(players, stats.keys[i]), StatOf(stats.values[stats.keys[i]], stat)))
  }

  /** `.filter(p => p.stat > 0)`. */
  predicate Scored(r: Ranked) {
    r.stat > 0
  }

  /** `getTopPlayers(stat)`: the entries with a positive `stat`, most first, cut to five. */
  function TopPlayers(players: seq<Player>, stats: Dict<PlayerStats>, stat: Stat): (r: seq<Ranked>)
    requires stats.Valid()
    ensures |r| == Min(5, Count(Entries(players, stats, stat), Scored))
    ensures forall i :: 0 <= i < |r| ==> r[i].stat > 0
    ensures forall i, j :: 0 <= i < j < |r| ==> r[i].stat >= r[j].stat
    ensures multiset(r) <= multiset(Filter(Entries(players, stats, stat), Scored))
    ensures forall x :: x in multiset(Filter(Entries(players, stats, stat), Scored)) - multiset(r) ==>
      forall k :: 0 <= k < |r| ==> x.stat <= r[k].stat
  {
    var entries := Entries(players, stats, stat);
    var scored := Filter(entries, Scored);
    var sorted := SortDesc(scored, RankedOf);
    var n := Min(5, |sorted|);
    var r := Slice(sorted, 0, 5);
    assert r == sorted[..n];
    CountIsFilterLength(entries, Scored);
    TopOfSorted(sorted, RankedOf, n);
    PositiveSorted(scored, sorted);
    r
  }

  lemma PositiveSorted(scored: seq<Ranked>, sorted: seq<Ranked>)
    requires forall i :: 0 <= i < |scored| ==> Scored(scored[i])
    requires multiset(sorted) == multiset(scored)
    ensures forall i :: 0 <= i < |sorted| ==> sorted[i].stat > 0
  {
    forall i | 0 <= i < |sorted|
      ensures sorted[i].stat > 0
    {
      assert sorted[i] in multiset(scored);
      var j :| 0 <= j < |scored| && scored[j] == sorted[i];
    }
  }

  /** A prefix of a descending sort is heaviest: what it leaves out weighs no more than any
      element it keeps. */
  lemma TopOfSorted<T>(sorted: seq<T>, key: T -> int, n: nat)
    requires n <= |sorted| && SortedDesc(sorted, key)
    ensures multiset(sorted[..n]) <= multiset(sorted)
    ensures forall x :: x in multiset(sorted) - multiset(sorted[..n]) ==>
      forall k :: 0 <= k < n ==> key(x) <= key(sorted[k])
  {
    assert sorted == sorted[..n] + sorted[n..];
    assert multiset(sorted) == multiset(sorted[..n]) + multiset(sorted[n..]);
    forall x | x in multiset(sorted) - multiset(sorted[..n])
      ensures forall k :: 0 <= k < n ==> key(x) <= key(sorted[k])
    {
      assert x in multiset(sorted[n..]);
      var j :| 0 <= j < |sorted[n..]| && sorted[n..][j] == x;
      assert sorted[n + j] == x;
    }
  }

  // ---------------------------------------------------------------------------------------
  // The connection key as written
  // ---------------------------------------------------------------------------------------

  /** The page keys `connectionMap` by `` `${thrower}->${receiver}` `` and splits the key
      on `'->'` again to find the two ids. */
  function ConnectionKey(thrower: string, receiver: string): (r: string)
    ensures |r| == |thrower| + |receiver| + 2
    ensures r[..|thrower|] == thrower && ArrowAt(r, |thrower|) && r[|thrower| + 2..] == receiver
  {
    thrower + "->" + receiver
  }

  predicate ArrowAt(s: string, j: int) {
    0 <= j && j + 1 < |s| && s[j] == '-' && s[j + 1] == '>'
  }

  predicate NoArrow(s: string) {
    forall j :: 0 <= j < |s| ==> !ArrowAt(s, j)
  }

  /** The position of the first `'->'` in `s`. */
  function FirstArrow(s: string): (r: Option<nat>)
    ensures r.None? <==> NoArrow(s)
    ensures r.Some? ==> ArrowAt(s, r.value) && forall j :: 0 <= j < r.value ==> !ArrowAt(s, j)
  {
    if |s| < 2 then None
    else if s[0] == '-' && s[1] == '>' then
      assert ArrowAt(s, 0);
      Some(0)
    else
      match FirstArrow(s[1..])
      case Some(k) =>
        assert forall j :: 1 <= j <= k ==> (ArrowAt(s, j) <==> ArrowAt(s[1..], j - 1));
        assert ArrowAt(s, k + 1);
        Some(k + 1)
      case None =>
        assert forall j :: 1 <= j < |s| ==> (ArrowAt(s, j) <==> ArrowAt(s[1..], j - 1));
        None
  }

  /** `const [t, r] = key.split('->')`: the text before the first `'->'` and the text
      between it and the next one (`None` for `undefined` when there is no `'->'`). */
  function SplitKey(key: string): (r: (string, Option<string>))
    ensures r.1.None? <==> NoArrow(key)
    ensures r.1.None? ==> r.0 == key
    ensures |r.0| <= |key| && key[..|r.0|] == r.0
    ensures r.1.Some? ==> ArrowAt(key, |r.0|) && |r.0| + 2 + |r.1.value| <= |key|
                          && key[|r.0| + 2..|r.0| + 2 + |r.1.value|] == r.1.value
    ensures NoArrow(r.0) && (r.1.Some? ==> NoArrow(r.1.value))
    ensures forall j :: 0 <= j < |r.0| ==> !ArrowAt(key, j)
    ensures r.1.Some? ==> forall j :: |r.0| + 2 <= j < |r.0| + 2 + |r.1.value| ==> !ArrowAt(key, j)
    ensures r.1.Some? ==> |r.0| + 2 + |r.1.value| == |key| || ArrowAt(key, |r.0| + 2 + |r.1.value|)
  {
    match FirstArrow(key)
    case None => (key, None)
    case Some(i) =>
      var rest := key[i + 2..];
      NoArrowBefore(key, i);
      match FirstArrow(rest)
      case None =>
        NoArrowAfter(key, i + 2);
        (key[..i], Some(rest))
      case Some(j) =>
        NoArrowBefore(rest, j);
        ArrowsAfter(key, i + 2, j);
        (key[..i], Some(rest[..j]))
  }

  /** A suffix free of `'->'` gives no `'->'` starting inside it in the whole text. */
  lemma NoArrowAfter(s: string, k: nat)
    requires k <= |s| && NoArrow(s[k..])
    ensures forall j :: k <= j < |s| ==> !ArrowAt(s, j)
  {
    forall j | k <= j < |s|
      ensures !ArrowAt(s, j)
    {
      assert !ArrowAt(s[k..], j - k);
    }
  }

  /** The first `'->'` of a suffix, at `j`, is the first `'->'` of the whole text from `k` on,
      and the text before it is `s[k..k + j]`. */
  lemma ArrowsAfter(s: string, k: nat, j: nat)
    requires k <= |s| && ArrowAt(s[k..], j) && forall m :: 0 <= m < j ==> !ArrowAt(s[k..], m)
    ensures ArrowAt(s, k + j) && s[k..][..j] == s[k..k + j]
    ensures forall m :: k <= m < k + j ==> !ArrowAt(s, m)
  {
    forall m | k <= m < k + j
      ensures !ArrowAt(s, m)
    {
      assert !ArrowAt(s[k..], m - k);
    }
  }

  /** The text before the first `'->'` holds none. */
  lemma NoArrowBefore(s: string, i: nat)
    requires i <= |s| && forall j :: 0 <= j < i ==> !ArrowAt(s, j)
    ensures NoArrow(s[..i])
  {
    forall j | 0 <= j < i
      ensures !ArrowAt(s[..i], j)
    {
      assert !ArrowAt(s, j);
    }
  }

  /** A key whose thrower is free of `'->'` has its first `'->'` right after the thrower. */
  lemma FirstArrowOfKey(thrower: string, receiver: string)
    requires NoArrow(thrower)
    ensures FirstArrow(ConnectionKey(thrower, receiver)) == Some(|thrower|)
    ensures ConnectionKey(thrower, receiver)[..|thrower|] == thrower
    ensures ConnectionKey(thrower, receiver)[|thrower| + 2..] == receiver
  {
    var key := ConnectionKey(thrower, receiver);
    var n := |thrower|;
    assert ArrowAt(key, n);
    forall j | 0 <= j < n
      ensures !ArrowAt(key, j)
    {
      if j + 1 < n {
        assert !ArrowAt(thrower, j);
      } else {
        assert key[j + 1] == '-';
      }
    }
    assert key[n + 2..] == receiver;
    assert key[..n] == thrower;
  }

  /** With ids free of `'->'`, splitting the key gives back the two ids, so keys identify
      pairs. */
  lemma SplitKeyRoundTrip(thrower: string, receiver: string)
    requires NoArrow(thrower) && NoArrow(receiver)
    ensures SplitKey(ConnectionKey(thrower, receiver)) == (thrower, Some(receiver))
  {
    FirstArrowOfKey(thrower, receiver);
  }

  lemma ConnectionKeyInjective(t1: string, r1: string, t2: string, r2: string)
    requires NoArrow(t1) && NoArrow(r1) && NoArrow(t2) && NoArrow(r2)
    requires ConnectionKey(t1, r1) == ConnectionKey(t2, r2)
    ensures t1 == t2 && r1 == r2
  {
    SplitKeyRoundTrip(t1, r1);
    SplitKeyRoundTrip(t2, r2);
  }

  /** Ids that contain `'->'` break both: the pairs (`a->b`, `c`) and (`a`, `b->c`) share one
      key, so their goals are counted together, and the key splits into the third pair
      (`a`, `b`). */
  lemma ArrowInIdCollides(a: string, b: string, c: string)
    requires NoArrow(a) && NoArrow(b)
    ensures ConnectionKey(a + "->" + b, c) == ConnectionKey(a, b + "->" + c)
    ensures SplitKey(ConnectionKey(a + "->" + b, c)) == (a, Some(b))
  {
    var key := ConnectionKey(a, ConnectionKey(b, c));
    assert ConnectionKey(a + "->" + b, c) == key;
    assert ConnectionKey(a, b + "->" + c) == key;
    FirstArrowOfKey(a, ConnectionKey(b, c));
    FirstArrowOfKey(b, c);
  }

  /** The smallest instance: ids `a->b`, `c`, `a` and `b->c`. */
  lemma ConnectionKeyCollision()
    ensures ConnectionKey("a->b", "c") == ConnectionKey("a", "b->c")
    ensures SplitKey(ConnectionKey("a->b", "c")) == ("a", Some("b"))
  {
    assert "a" + "->" + "b" == "a->b" && "b" + "->" + "c" == "b->c";
    ArrowInIdCollides("a", "b", "c");
  }
}
