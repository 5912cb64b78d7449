/** The live game page (src/pages/LiveGame.tsx): a lineup of at most seven players, the
    thrower/receiver tap machine and the recording of a goal or a turnover. */
module LiveGame {
  import opened Common
  import opened Seqs
  import opened Records

  /** The page caps the lineup at seven players. */
  const MaxLineup: nat := 7

  datatype Outcome = Goal | Turnover

  /** The `result` text the page writes. */
  function OutcomeText(o: Outcome): string {
    match o
    case Goal => "Goal"
    case Turnover => "Turnover"
  }

  /** The row the page inserts into `events`. */
  datatype EventRow = EventRow(gameId: string, throwerId: string, receiverId: Option<string>,
                               result: string, pointNumber: nat)

  /** The page's state. */
  class LiveGamePage {
    var lineup: seq<Player>
    var thrower: Option<Player>
    var receiver: Option<Player>
    var pointNumber: nat
    var error: Option<string>

    /** The lineup is capped and holds each id once; the receiver is never the thrower. */
    ghost predicate Valid()
      reads this
    {
      && |lineup| <= MaxLineup
      && DistinctIds(lineup)
      && (thrower.Some? && receiver.Some? ==> thrower.value.id != receiver.value.id)
      && pointNumber >= 1
    }

    constructor ()
      ensures Valid()
      ensures lineup == [] && thrower == None && receiver == None && pointNumber == 1 && error == None
    {
      lineup := [];
      thrower := None;
      receiver := None;
      pointNumber := 1;
      error := None;
    }

    /** `isPlayerInLineup(player)`. */
    predicate InLineup(player: Player)
      reads this
    {
      player.id in Ids(lineup)
    }

    /** `togglePlayerInLineup(player)`: a player already in the lineup is removed, with the
        thrower or receiver selection it held; an absent one is appended while there is
        room for it, and otherwise nothing changes. */
    method TogglePlayerInLineup(player: Player)
      requires Valid()
      modifies this
      ensures Valid()
      ensures player.id in Ids(old(lineup)) ==>
        && lineup == WithoutId(old(lineup), player.id)
        && thrower == (if old(thrower).Some? && old(thrower).value.id == player.id then None else old(thrower))
        && receiver == (if old(receiver).Some? && old(receiver).value.id == player.id then None else old(receiver))
      ensures player.id !in Ids(old(lineup)) ==>
        && lineup == (if |old(lineup)| < MaxLineup then old(lineup) + [player] else old(lineup))
        && thrower == old(thrower) && receiver == old(receiver)
      ensures pointNumber == old(pointNumber) && error == old(error)
    {
      var current := lineup;
      if player.id in Ids(current) {
        var t := if thrower.Some? && thrower.value.id == player.id then None else thrower;
        var r := if receiver.Some? && receiver.value.id == player.id then None else receiver;
        WithoutIdKeepsOthers(current, player.id);
        lineup, thrower, receiver := WithoutId(current, player.id), t, r;
      } else if |current| < MaxLineup {
        DistinctSnoc(current, player);
        lineup := current + [player];
      }
    }

    /** `handlePlayerTap(player)`: the first tap picks the thrower and clears the receiver, a
        tap on another player picks the receiver, a tap on the receiver completes the pass
        and makes the receiver the thrower; any other tap does nothing. */
    method HandlePlayerTap(player: Player)
      requires Valid()
      modifies this
      ensures Valid()
      ensures old(thrower).None? ==> thrower == Some(player) && receiver == None
      ensures old(thrower).Some? && old(receiver).None? && player.id != old(thrower).value.id ==>
        thrower == old(thrower) && receiver == Some(player)
      ensures old(thrower).Some? && old(receiver).Some? && player.id == old(receiver).value.id ==>
        thrower == old(receiver) && receiver == None
      ensures old(thrower).Some? && (old(receiver).None? ==> player.id == old(thrower).value.id)
              && (old(receiver).Some? ==> player.id != old(receiver).value.id) ==>
        thrower == old(thrower) && receiver == old(receiver)
      ensures lineup == old(lineup) && pointNumber == old(pointNumber) && error == old(error)
    {
      if thrower.None? {
        thrower := Some(player);
        receiver := None;
      } else if receiver.None? && player.id != thrower.value.id {
        receiver := Some(player);
      } else if receiver.Some? && player.id == receiver.value.id {
        thrower := receiver;
        receiver := None;
      }
    }

    /** `handleUndo()`: clears the receiver when there is one, and the thrower otherwise. */
    method Undo()
      requires Valid()
      modifies this
      ensures Valid()
      ensures old(receiver).Some? ==> receiver == None && thrower == old(thrower)
      ensures old(receiver).None? ==> receiver == None && thrower == None
      ensures lineup == old(lineup) && pointNumber == old(pointNumber) && error == old(error)
    {
      if receiver.Some? {
        receiver := None;
      } else if thrower.Some? {
        thrower := None;
      }
    }

    /** `recordEvent(result)`. Without a game id or a thrower, and for a goal without a
        receiver, it only sets the error message and inserts nothing. Otherwise it inserts
        `row` (a turnover with no receiver) and, when the database reports no error
        (`dbError`), moves to the next point with no selection; a database error only
        replaces the error message. */
    method RecordEvent(result: Outcome, gameId: Option<string>, dbError: Option<string>) returns (row: Option<EventRow>)
      requires Valid()
      modifies this
      ensures Valid()
      ensures !TruthyId(gameId) || old(thrower).None? ==>
        && row == None && error == Some("A thrower must be selected.")
        && thrower == old(thrower) && receiver == old(receiver) && pointNumber == old(pointNumber)
      ensures TruthyId(gameId) && old(thrower).Some? && result == Goal && old(receiver).None? ==>
        && row == None && error == Some("Please select a receiver for the goal.")
        && thrower == old(thrower) && receiver == old(receiver) && pointNumber == old(pointNumber)
      ensures TruthyId(gameId) && old(thrower).Some? && (result == Goal ==> old(receiver).Some?) ==>
        && row == Some(EventRow(gameId.value, old(thrower).value.id,
                                if result == Turnover then None else Some(old(receiver).value.id),
                                OutcomeText(result), old(pointNumber)))
        && error == dbError
        && (dbError.None? ==> pointNumber == old(pointNumber) + 1 && thrower == None && receiver == None)
        && (dbError.Some? ==> pointNumber == old(pointNumber) && thrower == old(thrower) && receiver == old(receiver))
      ensures lineup == old(lineup)
    {
      if gameId.None? || gameId.value == "" || thrower.None? {
        error := Some("A thrower must be selected.");
        return None;
      }
      if result == Goal && receiver.None? {
        error := Some("Please select a receiver for the goal.");
        return None;
      }
      error := None;
      var receiverId := if result == Turnover then None else Some(receiver.value.id);
      row := Some(EventRow(gameId.value, thrower.value.id, receiverId, OutcomeText(result), pointNumber));
      if dbError.Some? {
        error := dbError;
        return;
      }
      pointNumber := pointNumber + 1;
      thrower := None;
      receiver := None;
    }
  }

  /** A goal by the thrower picked first to the receiver picked second is recorded for the
      current point; the next point starts with no selection. */
  method TapTapGoal(a: Player, b: Player, gameId: string) returns (row: Option<EventRow>)
    requires a.id != b.id && gameId != ""
    ensures row == Some(EventRow(gameId, a.id, Some(b.id), "Goal", 1))
  {
    var page := new LiveGamePage();
    page.TogglePlayerInLineup(a);
    page.TogglePlayerInLineup(b);
    page.HandlePlayerTap(a);
    page.HandlePlayerTap(b);
    row := page.RecordEvent(Goal, Some(gameId), None);
    assert page.pointNumber == 2 && page.thrower == None;
  }
}
