/** The database rows the analytics pages read: games (src/types/game.ts), throw events
    (src/types/event.ts) and roster players. Fields no computation looks at (dates, creation
    times, the event timestamp) are not carried. */
module Records {
  import opened Common
  import opened Seqs

  datatype Game = Game(id: string, opponent: string,
                       finalScoreUs: Option<int>, finalScoreThem: Option<int>)

  /** One recorded throw outcome; `result` is free text written by whoever inserted the row. */
  datatype Event = Event(id: string, gameId: string, throwerId: string,
                         receiverId: Option<string>, result: string, pointNumber: Option<int>)

  /** A roster player: `jerseyNumber` is `None` for a database `null`. */
  datatype Player = Player(id: string, name: string, jerseyNumber: Option<int>)

  /** JavaScript truthiness of an id: the empty string is falsy. */
  predicate Truthy(s: string) { s != "" }

  /** Truthiness of a nullable id: `null` and the empty string are falsy. */
  predicate TruthyId(o: Option<string>) { o.Some? && o.value != "" }

  function IdOf(p: Player): string { p.id }

  /** `players.map(p => p.id)`. */
  function Ids(players: seq<Player>): (r: seq<string>)
    ensures |r| == |players|
    ensures forall i :: 0 <= i < |players| ==> r[i] == players[i].id
  {
    Map(players, IdOf)
  }

  /** The ids of a roster, as a set. */
  function IdSet(players: seq<Player>): (r: set<string>)
    ensures forall k :: k in r <==> k in Ids(players)
  {
    set i | 0 <= i < |players| :: players[i].id
  }

  /** `players.find(p => p.id === id)?.name`: the name of the first player with that id. */
  function FindName(players: seq<Player>, id: string): (r: Option<string>)
    ensures r.None? <==> id !in Ids(players)
  {
    if players == [] then None
    else if players[0].id == id then Some(players[0].name)
    else
      assert Ids(players) == [players[0].id] + Ids(players[1..]);
      FindName(players[1..], id)
  }

  /** When the id occurs, `find` returns the name of its first occurrence. */
  lemma {:induction false} FindNameFirst(players: seq<Player>, id: string)
    requires id in Ids(players)
    ensures exists i :: FirstWithId(players, id, i) && FindName(players, id) == Some(players[i].name)
  {
    if players[0].id == id {
      assert FirstWithId(players, id, 0);
    } else {
      var tail := players[1..];
      assert Ids(players) == [players[0].id] + Ids(tail);
      FindNameFirst(tail, id);
      var i :| FirstWithId(tail, id, i) && FindName(tail, id) == Some(tail[i].name);
      FirstWithIdCons(players, id, i);
    }
  }

  /** Position `i` holds the first player with id `id`. */
  ghost predicate FirstWithId(players: seq<Player>, id: string, i: int) {
    0 <= i < |players| && players[i].id == id && forall j :: 0 <= j < i ==> players[j].id != id
  }

  lemma FirstWithIdCons(players: seq<Player>, id: string, i: int)
    requires players != [] && players[0].id != id && FirstWithId(players[1..], id, i)
    ensures FirstWithId(players, id, i + 1)
  {
    forall j | 0 <= j < i + 1 ensures players[j].id != id {
      if j > 0 { assert players[j] == players[1..][j - 1]; }
    }
  }

  /** A JavaScript object used as a dictionary: its string keys in insertion order (the
      order `Object.values` and `Object.entries` list them in) and the value of each. */
  datatype Dict<V> = Dict(keys: seq<string>, values: map<string, V>)
  {
    ghost predicate Valid() {
      && (forall i, j :: 0 <= i < j < |keys| ==> keys[i] != keys[j])
      && (forall k :: k in values <==> k in keys)
    }

    /** `Object.values(this)`. */
    function Values(): (r: seq<V>)
      requires forall k :: k in keys ==> k in values
      ensures |r| == |keys|
      ensures forall i :: 0 <= i < |keys| ==> r[i] == values[keys[i]]
    {
      seq(|keys|, i requires 0 <= i < |keys| => values[keys[i]])
    }

    /** The `i`-th entry in insertion order has the greatest `key`, and every entry before
        it a smaller one: the entry a stable descending sort puts first. */
    ghost predicate FirstMaxAt(key: V -> int, i: int)
      requires forall k :: k in keys ==> k in values
    {
      && 0 <= i < |keys|
      && (forall j :: 0 <= j < |keys| ==> key(values[keys[j]]) <= key(values[keys[i]]))
      && (forall j :: 0 <= j < i ==> key(values[keys[j]]) < key(values[keys[i]]))
    }

    /** `Object.values(this).sort((a, b) => key(b) - key(a))[0]` on an object with entries. */
    function Top(key: V -> int): (r: V)
      requires forall k :: k in keys ==> k in values
      requires keys != []
      ensures exists i :: FirstMaxAt(key, i) && r == values[keys[i]]
    {
      var all := Values();
      SortDescHead(all, key);
      var i := FirstMaxIndex(all, key);
      assert FirstMaxAt(key, i) by {
        forall j | 0 <= j < |keys| ensures key(values[keys[j]]) <= key(values[keys[i]]) {
          assert all[j] == values[keys[j]];
        }
        forall j | 0 <= j < i ensures key(values[keys[j]]) < key(values[keys[i]]) {
          assert all[j] == values[keys[j]];
        }
      }
      SortDesc(all, key)[0]
    }

    /** `obj[k] = v`: a new key goes to the end of the insertion order, an existing one keeps
        its place; only the value under `k` changes. */
    function Put(k: string, v: V): (r: Dict<V>)
      ensures Valid() ==> r.Valid()
      ensures r.values == values[k := v]
      ensures k in keys ==> r.keys == keys
      ensures k !in keys ==> r.keys == keys + [k]
    {
      var r := Dict(if k in keys then keys else keys + [k], values[k := v]);
      assert Valid() ==> r.Valid() by {
        if Valid() && k !in keys {
          forall i, j | 0 <= i < j < |r.keys| ensures r.keys[i] != r.keys[j] {
            if j == |keys| { assert r.keys[i] == keys[i]; }
          }
        }
      }
      r
    }
  }

  /** The keys that `players.forEach(p => obj[p.id] = ...)` leaves in an empty object, in
      insertion order: each id once, where it first occurs. */
  function KeyOrder(players: seq<Player>): (r: seq<string>)
    ensures forall i, j :: 0 <= i < j < |r| ==> r[i] != r[j]
    ensures forall k :: k in r <==> k in Ids(players)
  {
    if players == [] then []
    else
      var init := players[..|players| - 1];
      var id := players[|players| - 1].id;
      var keys := KeyOrder(init);
      IdsOfSnoc(init, players[|players| - 1]);
      assert players == init + [players[|players| - 1]];
      if id in keys then keys else keys + [id]
  }

  lemma IdsOfSnoc(init: seq<Player>, p: Player)
    ensures Ids(init + [p]) == Ids(init) + [p.id]
  {
    assert |Ids(init + [p])| == |Ids(init) + [p.id]|;
    forall i | 0 <= i < |Ids(init + [p])|
      ensures Ids(init + [p])[i] == (Ids(init) + [p.id])[i]
    {
      if i < |init| { assert (init + [p])[i] == init[i]; }
    }
  }

  /** One more player: its id joins the key order unless it is already there. */
  lemma KeyOrderStep(players: seq<Player>, i: nat)
    requires i < |players|
    ensures KeyOrder(players[..i + 1]) == if players[i].id in KeyOrder(players[..i])
                                          then KeyOrder(players[..i])
                                          else KeyOrder(players[..i]) + [players[i].id]
  {
    assert players[..i + 1][..i] == players[..i];
  }

  /** The name the last of the players with id `id` gave: what `obj[p.id] = {name: p.name, ...}`
      leaves when the same id occurs more than once. */
  function LastName(players: seq<Player>, id: string): string {
    if players == [] then ""
    else if players[|players| - 1].id == id then players[|players| - 1].name
    else LastName(players[..|players| - 1], id)
  }

  /** One more player: it overwrites the name stored under its id. */
  lemma LastNameStep(players: seq<Player>, i: nat, id: string)
    requires i < |players|
    ensures LastName(players[..i + 1], id) == if players[i].id == id then players[i].name
                                              else LastName(players[..i], id)
  {
    assert players[..i + 1][..i] == players[..i];
  }

  // ---------------------------------------------------------------------------------------
  // Lists of players keyed by id
  // ---------------------------------------------------------------------------------------

  predicate DistinctIds(lineup: seq<Player>) {
    forall i, j :: 0 <= i < j < |lineup| ==> lineup[i].id != lineup[j].id
  }

  function NotId(id: string): Player -> bool {
    (p: Player) => p.id != id
  }

  /** `lineup.filter(p => p.id !== id)`. */
  function WithoutId(lineup: seq<Player>, id: string): (r: seq<Player>)
    ensures id !in Ids(r)
    ensures forall p :: p in r <==> p in lineup && p.id != id
  {
    var r := Filter(lineup, NotId(id));
    assert forall k :: 0 <= k < |r| ==> r[k].id != id;
    r
  }

  lemma DistinctTail(lineup: seq<Player>)
    requires lineup != [] && DistinctIds(lineup)
    ensures DistinctIds(lineup[1..])
    ensures forall k :: 0 <= k < |lineup[1..]| ==> lineup[1..][k].id != lineup[0].id
  {
    forall i, j | 0 <= i < j < |lineup[1..]|
      ensures lineup[1..][i].id != lineup[1..][j].id
    {
      assert lineup[1..][i] == lineup[i + 1] && lineup[1..][j] == lineup[j + 1];
    }
  }

  lemma DistinctCons(p: Player, tail: seq<Player>)
    requires DistinctIds(tail)
    requires forall k :: 0 <= k < |tail| ==> tail[k].id != p.id
    ensures DistinctIds([p] + tail)
  {
    var s := [p] + tail;
    assert s[0] == p;
    assert forall k :: 0 <= k < |tail| ==> s[k + 1] == tail[k];
    forall i, j | 0 <= i < j < |s|
      ensures s[i].id != s[j].id
    {
      assert s[j] == tail[j - 1];
      if i > 0 {
        assert s[i] == tail[i - 1];
      }
    }
  }

  /** Appending a player whose id is new keeps the ids distinct. */
  lemma DistinctSnoc(lineup: seq<Player>, player: Player)
    requires DistinctIds(lineup) && player.id !in IdSet(lineup)
    ensures DistinctIds(lineup + [player])
  {
    forall i | 0 <= i < |lineup| ensures lineup[i].id != player.id {
      assert Ids(lineup)[i] == lineup[i].id;
    }
  }

  /** Removing an id adds no duplicate and does not lengthen the lineup. */
  lemma {:induction false} WithoutIdKeepsOthers(lineup: seq<Player>, id: string)
    requires DistinctIds(lineup)
    ensures DistinctIds(WithoutId(lineup, id))
    ensures |WithoutId(lineup, id)| <= |lineup|
  {
    if lineup != [] {
      var rest := lineup[1..];
      DistinctTail(lineup);
      WithoutIdKeepsOthers(rest, id);
      var tail := WithoutId(rest, id);
      assert Filter(lineup, NotId(id)) == (if NotId(id)(lineup[0]) then [lineup[0]] else []) + Filter(rest, NotId(id));
      if lineup[0].id != id {
        forall k | 0 <= k < |tail| ensures tail[k].id != lineup[0].id {
          assert tail[k] in rest;
        }
        DistinctCons(lineup[0], tail);
      }
    }
  }

  /** Adding a player whose id is absent and then toggling it away restores the lineup. */
  lemma AddThenRemove(lineup: seq<Player>, player: Player)
    requires player.id !in Ids(lineup)
    ensures WithoutId(lineup + [player], player.id) == lineup
  {
    FilterAppend(lineup, [player], NotId(player.id));
    assert Filter([player], NotId(player.id)) == [] + Filter([player][1..], NotId(player.id));
    forall k | 0 <= k < |lineup| ensures NotId(player.id)(lineup[k]) {
      assert Ids(lineup)[k] == lineup[k].id;
    }
    FilterAll(lineup, NotId(player.id));
  }

  /** Removing an id takes exactly that id out of the set of ids. */
  lemma WithoutIdSet(lineup: seq<Player>, id: string)
    ensures IdSet(WithoutId(lineup, id)) == IdSet(lineup) - {id}
  {
    var r := WithoutId(lineup, id);
    forall k | k in IdSet(lineup) - {id}
      ensures k in IdSet(r)
    {
      var i :| 0 <= i < |lineup| && lineup[i].id == k;
      var p := lineup[i];
      assert p in r;
      var j :| 0 <= j < |r| && r[j] == p;
      assert r[j].id in IdSet(r);
    }
    forall k | k in IdSet(r)
      ensures k in IdSet(lineup) - {id}
    {
      var j :| 0 <= j < |r| && r[j].id == k;
      var p := r[j];
      assert p in lineup;
      var i :| 0 <= i < |lineup| && lineup[i] == p;
      assert lineup[i].id in IdSet(lineup);
    }
  }

  /** Appending a player adds nobody else. */
  lemma AppendKeepsOrder(lineup: seq<Player>, player: Player)
    ensures Filter(lineup + [player], NotId(player.id)) == Filter(lineup, NotId(player.id))
  {
    FilterAppend(lineup, [player], NotId(player.id));
    assert Filter([player], NotId(player.id)) == [] + Filter([player][1..], NotId(player.id));
  }

  lemma IdSetOfSnoc(lineup: seq<Player>, player: Player)
    ensures IdSet(lineup + [player]) == IdSet(lineup) + {player.id}
  {
    IdsOfSnoc(lineup, player);
  }
}
