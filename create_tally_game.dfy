/** Building the two teams of a tally game from scratch (src/pages/CreateTallyGame.tsx):
    each player sits in the available list, in team A or in team B, and `handleMovePlayer`
    moves one between them. */
module CreateTallyGame {
  import opened Seqs
  import opened Records

  datatype Destination = TeamA | TeamB | Available

  /** The three lists the page keeps in its state. */
  datatype Teams = Teams(available: seq<Player>, teamA: seq<Player>, teamB: seq<Player>)
  {
    /** Every id sits in exactly one list, once. */
    ghost predicate Partitioned() {
      && DistinctIds(available) && DistinctIds(teamA) && DistinctIds(teamB)
      && IdSet(available) !! IdSet(teamA) && IdSet(available) !! IdSet(teamB) && IdSet(teamA) !! IdSet(teamB)
    }

    /** All the ids the three lists hold. */
    function AllIds(): set<string> {
      IdSet(available) + IdSet(teamA) + IdSet(teamB)
    }

    /** The list behind a destination. */
    function ListOf(to: Destination): seq<Player> {
      match to
      case TeamA => teamA
      case TeamB => teamB
      case Available => available
    }

    /** The moves the page offers for `player`: the available list's `A` and `B` buttons,
        and a team's `X` button. */
    predicate Offered(player: Player, to: Destination) {
      match to
      case TeamA => player.id in IdSet(available)
      case TeamB => player.id in IdSet(available)
      case Available => player.id in IdSet(teamA) || player.id in IdSet(teamB)
    }
  }

  /** `handleMovePlayer(player, to)`: `player` is appended to the destination and every
      player with its id leaves the other two lists. */
  function Move(t: Teams, player: Player, to: Destination): Teams {
    match to
    case TeamA => Teams(WithoutId(t.available, player.id), t.teamA + [player], WithoutId(t.teamB, player.id))
    case TeamB => Teams(WithoutId(t.available, player.id), WithoutId(t.teamA, player.id), t.teamB + [player])
    case Available => Teams(t.available + [player], WithoutId(t.teamA, player.id), WithoutId(t.teamB, player.id))
  }

  /** After the move the player's id is in the destination and in no other list. */
  lemma MoveLocates(t: Teams, player: Player, to: Destination, d: Destination)
    ensures player.id in IdSet(Move(t, player, to).ListOf(d)) <==> d == to
  {
    if d == to {
      IdSetOfSnoc(t.ListOf(to), player);
    } else {
      WithoutIdSet(t.ListOf(d), player.id);
    }
  }

  /** Everybody but the moved player stays in the same list, in the same order. */
  lemma MoveKeepsOthers(t: Teams, player: Player, to: Destination, d: Destination)
    ensures Filter(Move(t, player, to).ListOf(d), NotId(player.id)) == Filter(t.ListOf(d), NotId(player.id))
  {
    if d == to {
      AppendKeepsOrder(t.ListOf(to), player);
    } else {
      FilterIdempotent(t.ListOf(d), NotId(player.id));
    }
  }

  /** Appending `player` to `dest` and taking its id out of `y` and `z`, when the id was in
      one of those two, keeps three distinct, disjoint lists distinct and disjoint and holding
      the same ids. */
  lemma MoveBetween(dest: seq<Player>, y: seq<Player>, z: seq<Player>, player: Player)
    requires DistinctIds(dest) && DistinctIds(y) && DistinctIds(z)
    requires IdSet(dest) !! IdSet(y) && IdSet(dest) !! IdSet(z) && IdSet(y) !! IdSet(z)
    requires player.id in IdSet(y) + IdSet(z)
    ensures DistinctIds(dest + [player]) && DistinctIds(WithoutId(y, player.id)) && DistinctIds(WithoutId(z, player.id))
    ensures IdSet(dest + [player]) !! IdSet(WithoutId(y, player.id))
    ensures IdSet(dest + [player]) !! IdSet(WithoutId(z, player.id))
    ensures IdSet(WithoutId(y, player.id)) !! IdSet(WithoutId(z, player.id))
    ensures IdSet(dest + [player]) + IdSet(WithoutId(y, player.id)) + IdSet(WithoutId(z, player.id))
         == IdSet(dest) + IdSet(y) + IdSet(z)
  {
    var id := player.id;
    WithoutIdSet(y, id);
    WithoutIdSet(z, id);
    IdSetOfSnoc(dest, player);
    ShiftId(IdSet(dest), IdSet(y), IdSet(z), id);
    DistinctSnoc(dest, player);
    WithoutIdKeepsOthers(y, id);
    WithoutIdKeepsOthers(z, id);
  }

  /** The set algebra of a move: an id taken out of one of two sets and added to a third. */
  lemma ShiftId(d: set<string>, y: set<string>, z: set<string>, id: string)
    requires d !! y && d !! z && y !! z && id in y + z
    ensures id !in d
    ensures (d + {id}) !! (y - {id}) && (d + {id}) !! (z - {id}) && (y - {id}) !! (z - {id})
    ensures (d + {id}) + (y - {id}) + (z - {id}) == d + y + z
  {
  }

  /** A move the page offers keeps each id in exactly one list, and loses or adds no id. */
  lemma MoveKeepsPartition(t: Teams, player: Player, to: Destination)
    requires t.Partitioned() && t.Offered(player, to)
    ensures Move(t, player, to).Partitioned()
    ensures Move(t, player, to).AllIds() == t.AllIds()
  {
    match to
    case TeamA => MoveBetween(t.teamA, t.available, t.teamB, player);
    case TeamB => MoveBetween(t.teamB, t.available, t.teamA, player);
    case Available => MoveBetween(t.available, t.teamA, t.teamB, player);
  }

  /** Moving a player to a team and back to the available list returns it to the end of
      that list; the teams are as before. */
  lemma MoveThereAndBack(t: Teams, player: Player, to: Destination)
    requires t.Partitioned() && to != Available && t.Offered(player, to)
    ensures Move(Move(t, player, to), player, Available).teamA == t.teamA
    ensures Move(Move(t, player, to), player, Available).teamB == t.teamB
    ensures Move(Move(t, player, to), player, Available).available
         == WithoutId(t.available, player.id) + [player]
  {
    var other := if to == TeamA then TeamB else TeamA;
    assert player.id !in IdSet(t.ListOf(other));
    WithoutIdAbsent(t.ListOf(other), player.id);
    WithoutIdAbsent(WithoutId(t.ListOf(other), player.id), player.id);
    AddThenRemove(t.ListOf(to), player);
  }

  /** Removing an id nobody has changes nothing. */
  lemma {:induction false} WithoutIdAbsent(lineup: seq<Player>, id: string)
    requires id !in IdSet(lineup)
    ensures WithoutId(lineup, id) == lineup
  {
    FilterAll(lineup, NotId(id));
  }

  /** The page's state. */
  class TeamBuilder {
    var players: seq<Player>
    var teamA: seq<Player>
    var teamB: seq<Player>

    function State(): Teams
      reads this
    {
      Teams(players, teamA, teamB)
    }

    /** The fetched roster (`data || []`), with both teams empty. */
    constructor (roster: seq<Player>)
      ensures State() == Teams(roster, [], [])
      ensures DistinctIds(roster) ==> State().Partitioned()
    {
      players, teamA, teamB := roster, [], [];
    }

    /** `handleMovePlayer`, on the page's state. */
    method MovePlayer(player: Player, to: Destination)
      modifies this
      ensures State() == Move(old(State()), player, to)
    {
      var r := Move(State(), player, to);
      players, teamA, teamB := r.available, r.teamA, r.teamB;
    }
  }
}
