/** The tally event recorder of a live tally game (src/components/TallyGameEventRecorder.tsx):
    six per-team counters, an append-only event log with undo, the modal that walks the user
    through each kind of event, and the player picker. */
module TallyRecorder {
  import opened Common
  import opened Seqs
  import Strings

  datatype Team = A | B

  datatype EventType = Score | Defend | Turnover

  datatype TurnoverType = Throwing | Catching | Skip

  /** A player present at this game, tagged with the side it plays on. */
  datatype Player = Player(id: string, name: string, team: Team)

  /** A log entry. The team is always that of the scorer, defender or turnover player;
      the creation timestamp is not modelled. */
  datatype TallyEvent =
    | ScoreEvent(team: Team, assister: Option<Player>, scorer: Player)
    | DefendEvent(team: Team, defender: Player)
    | TurnoverEvent(team: Team, turnoverPlayer: Player, turnoverType: TurnoverType)
  {
    function Type(): EventType {
      match this
      case ScoreEvent(_, _, _) => Score
      case DefendEvent(_, _) => Defend
      case TurnoverEvent(_, _, _) => Turnover
    }
  }

  /** What the modal carries from its first step to its second. */
  datatype ModalData =
    | NoData
    | AssisterData(assister: Option<Player>)
    | PlayerData(player: Option<Player>)

  datatype Modal = Modal(kind: EventType, step: nat, data: ModalData)

  /** The six counters, indexed by event type and team. */
  datatype Tallies = Tallies(scoreA: nat, scoreB: nat, defendsA: nat, defendsB: nat,
                             turnoversA: nat, turnoversB: nat)
  {
    function Get(k: EventType, t: Team): nat {
      match (k, t)
      case (Score, A) => scoreA
      case (Score, B) => scoreB
      case (Defend, A) => defendsA
      case (Defend, B) => defendsB
      case (Turnover, A) => turnoversA
      case (Turnover, B) => turnoversB
    }

    /** The counter for `k` and `t` goes up by one; the other five are unchanged. */
    function Incr(k: EventType, t: Team): (r: Tallies)
      ensures r.Get(k, t) == Get(k, t) + 1
      ensures forall k', t' :: (k', t') != (k, t) ==> r.Get(k', t') == Get(k', t')
    {
      match (k, t)
      case (Score, A) => this.(scoreA := scoreA + 1)
      case (Score, B) => this.(scoreB := scoreB + 1)
      case (Defend, A) => this.(defendsA := defendsA + 1)
      case (Defend, B) => this.(defendsB := defendsB + 1)
      case (Turnover, A) => this.(turnoversA := turnoversA + 1)
      case (Turnover, B) => this.(turnoversB := turnoversB + 1)
    }

    /** The counter for `k` and `t` goes down by one, but not below zero
        (`Math.max(0, x - 1)`); the other five are unchanged. */
    function Decr(k: EventType, t: Team): (r: Tallies)
      ensures r.Get(k, t) == Max(0, Get(k, t) - 1)
      ensures forall k', t' :: (k', t') != (k, t) ==> r.Get(k', t') == Get(k', t')
    {
      match (k, t)
      case (Score, A) => this.(scoreA := Max(0, scoreA - 1))
      case (Score, B) => this.(scoreB := Max(0, scoreB - 1))
      case (Defend, A) => this.(defendsA := Max(0, defendsA - 1))
      case (Defend, B) => this.(defendsB := Max(0, defendsB - 1))
      case (Turnover, A) => this.(turnoversA := Max(0, turnoversA - 1))
      case (Turnover, B) => this.(turnoversB := Max(0, turnoversB - 1))
    }
  }

  const NoTallies := Tallies(0, 0, 0, 0, 0, 0)

  /** The counters obtained by replaying `log` from empty, one increment per event. */
  function Replay(log: seq<TallyEvent>): Tallies {
    if log == [] then NoTallies
    else
      var last := log[|log| - 1];
      Replay(log[..|log| - 1]).Incr(last.Type(), last.team)
  }

  /** The number of events in `log` of type `k` credited to team `t`. */
  function CountOf(log: seq<TallyEvent>, k: EventType, t: Team): nat {
    if log == [] then 0
    else (if log[0].Type() == k && log[0].team == t then 1 else 0) + CountOf(log[1..], k, t)
  }

  lemma {:induction false} CountOfAppend(log: seq<TallyEvent>, e: TallyEvent, k: EventType, t: Team)
    ensures CountOf(log + [e], k, t) == CountOf(log, k, t) + (if e.Type() == k && e.team == t then 1 else 0)
  {
    if log == [] {
      assert [] + [e] == [e];
    } else {
      assert (log + [e])[1..] == log[1..] + [e];
      CountOfAppend(log[1..], e, k, t);
    }
  }

  /** The replayed counters are exactly the per-type, per-team event counts of the log. */
  lemma {:induction false} ReplayCounts(log: seq<TallyEvent>, k: EventType, t: Team)
    ensures Replay(log).Get(k, t) == CountOf(log, k, t)
  {
    if log != [] {
      var init, last := log[..|log| - 1], log[|log| - 1];
      assert log == init + [last];
      ReplayCounts(init, k, t);
      CountOfAppend(init, last, k, t);
    }
  }

  /** Undoing an increment restores the counters it was applied to. */
  lemma DecrUndoesIncr(c: Tallies, k: EventType, t: Team)
    ensures c.Incr(k, t).Decr(k, t) == c
  {
  }

  /** Replaying a log whose last event is removed by undo gives the counters of the log
      before that event was appended; the clamp at zero never takes effect. */
  lemma UndoRestoresReplay(log: seq<TallyEvent>, e: TallyEvent)
    ensures Replay(log + [e]).Get(e.Type(), e.team) >= 1
    ensures Replay(log + [e]).Decr(e.Type(), e.team) == Replay(log)
  {
    assert (log + [e])[..|log|] == log;
    DecrUndoesIncr(Replay(log), e.Type(), e.team);
  }

  /** The synthetic first option of the picker. It is tagged with team A, so picking it as
      scorer, defender or turnover player credits team A. */
  const NonePlayer := Player("0", "None", A)

  /** The case-insensitive substring test of the picker. */
  predicate NameMatches(p: Player, input: string) {
    Strings.Contains(Strings.ToLower(p.name), Strings.ToLower(input))
  }

  function MatchesInput(input: string): Player -> bool {
    p => NameMatches(p, input)
  }

  /** `getAutocompleteOptions(input)`: `None` first, then the present players whose name
      matches, in roster order. */
  function AutocompleteOptions(present: seq<Player>, input: string): (r: seq<Player>)
    ensures |r| >= 1 && r[0] == NonePlayer
    ensures |r| <= |present| + 1
    ensures forall p :: p in present ==> (p in r[1..] <==> NameMatches(p, input))
    ensures forall p :: p in r[1..] ==> p in present
  {
    var filtered := Filter(present, MatchesInput(input));
    assert ([NonePlayer] + filtered)[1..] == filtered;
    [NonePlayer] + filtered
  }

  /** A player shows up after `None` exactly when its lowercased name holds the lowercased
      input at some position. */
  lemma OptionsAreSubstringMatches(present: seq<Player>, input: string, p: Player)
    requires p in present
    ensures p in AutocompleteOptions(present, input)[1..] <==>
            Strings.IsSubstring(Strings.ToLower(input), Strings.ToLower(p.name))
  {
    var name, query := Strings.ToLower(p.name), Strings.ToLower(input);
    var opts := AutocompleteOptions(present, input);
    assert p in opts[1..] <==> NameMatches(p, input);
    assert NameMatches(p, input) == Strings.Contains(name, query);
    Strings.ContainsIff(name, query);
  }

  /** Filtering the filtered list with the same input changes nothing. */
  lemma OptionsIdempotent(present: seq<Player>, input: string)
    ensures AutocompleteOptions(AutocompleteOptions(present, input)[1..], input)
            == AutocompleteOptions(present, input)
  {
    var keep := MatchesInput(input);
    var opts := AutocompleteOptions(present, input);
    assert opts == [NonePlayer] + Filter(present, keep);
    assert opts[1..] == Filter(present, keep);
    FilterIdempotent(present, keep);
  }

  /** The options for a roster split in two are the options for each part, in order. */
  lemma OptionsKeepRosterOrder(present: seq<Player>, more: seq<Player>, input: string)
    ensures AutocompleteOptions(present + more, input)
            == AutocompleteOptions(present, input) + AutocompleteOptions(more, input)[1..]
  {
    var keep := MatchesInput(input);
    FilterAppend(present, more, keep);
    assert AutocompleteOptions(more, input)[1..] == Filter(more, keep);
  }

  /** ArrowDown: `Math.min(h + 1, len - 1)`. */
  function HighlightDown(h: int, len: int): (r: int)
    ensures len >= 1 && 0 <= h < len ==> 0 <= r < len
    ensures h + 1 < len ==> r == h + 1
    ensures h + 1 >= len ==> r == len - 1
  {
    Min(h + 1, len - 1)
  }

  /** ArrowUp: `Math.max(h - 1, 0)`. */
  function HighlightUp(h: int, len: int): (r: int)
    ensures len >= 1 && 0 <= h < len ==> 0 <= r < len
    ensures h > 0 ==> r == h - 1
    ensures h <= 0 ==> r == 0
  {
    Max(h - 1, 0)
  }

  /** Enter: `options[highlight]`, which is `undefined` (here `None`) out of range. */
  function EnterSelection(options: seq<Player>, h: int): (r: Option<Player>)
    ensures r.Some? <==> 0 <= h < |options|
    ensures r.Some? ==> r.value == options[h]
  {
    if 0 <= h < |options| then Some(options[h]) else None
  }

  /** The recorder's component state. The counters and the log are kept separately, as in
      the source; `Valid` is the claim that the counters are the replay of the log. */
  class Recorder {
    const presentPlayers: seq<Player>
    var scoreA: nat
    var scoreB: nat
    var defendsA: nat
    var defendsB: nat
    var turnoversA: nat
    var turnoversB: nat
    var eventLog: seq<TallyEvent>
    var modal: Option<Modal>
    /** The picker's text field. */
    var input: string

    function Counters(): Tallies
      reads this
    {
      Tallies(scoreA, scoreB, defendsA, defendsB, turnoversA, turnoversB)
    }

    ghost predicate Valid()
      reads this
    {
      Counters() == Replay(eventLog)
    }

    constructor (present: seq<Player>)
      ensures Valid()
      ensures presentPlayers == present && eventLog == [] && Counters() == NoTallies
      ensures modal == None && input == ""
    {
      presentPlayers := present;
      scoreA, scoreB, defendsA, defendsB, turnoversA, turnoversB := 0, 0, 0, 0, 0, 0;
      eventLog := [];
      modal := None;
      input := "";
    }

    /** The options the picker shows for the current text. */
    function Options(): (r: seq<Player>)
      reads this
      ensures r == AutocompleteOptions(presentPlayers, input)
    {
      AutocompleteOptions(presentPlayers, input)
    }

    /** `openModal(t)`: first step of flow `t`, nothing carried, text field cleared. */
    method OpenModal(t: EventType)
      requires Valid()
      modifies this
      ensures Valid()
      ensures modal == Some(Modal(t, 0, NoData)) && input == ""
      ensures eventLog == old(eventLog) && Counters() == old(Counters())
    {
      modal := Some(Modal(t, 0, NoData));
      input := "";
    }

    /** `closeModal()`. */
    method CloseModal()
      requires Valid()
      modifies this
      ensures Valid()
      ensures modal == None && input == old(input)
      ensures eventLog == old(eventLog) && Counters() == old(Counters())
    {
      modal := None;
    }

    /** Typing into the picker. */
    method SetInput(text: string)
      requires Valid()
      modifies this
      ensures Valid()
      ensures input == text && modal == old(modal)
      ensures eventLog == old(eventLog) && Counters() == old(Counters())
    {
      input := text;
    }

    /** `handleScoreStep(0, value)`: the chosen assister (possibly the `None` entry) is
        carried to step 1 of an open modal; nothing is logged or counted. */
    method SelectAssister(value: Option<Player>)
      requires Valid()
      modifies this
      ensures Valid()
      ensures modal == (if old(modal).None? then None
                        else Some(old(modal).value.(step := 1, data := AssisterData(value))))
      ensures input == ""
      ensures eventLog == old(eventLog) && Counters() == old(Counters())
    {
      if modal.Some? {
        modal := Some(modal.value.(step := 1, data := AssisterData(value)));
      }
      input := "";
    }

    /** `modal?.data.assister || null`. */
    function CarriedAssister(): Option<Player>
      reads this
    {
      match modal
      case Some(Modal(_, _, AssisterData(Some(p)))) => Some(p)
      case _ => None
    }

    /** `handleScoreStep(1, value)`: without a scorer nothing happens; otherwise one score
        event for the scorer's team is logged, only that team's score goes up, and the
        modal closes. */
    method SelectScorer(value: Option<Player>)
      requires Valid()
      modifies this
      ensures Valid()
      ensures value.None? ==> eventLog == old(eventLog) && Counters() == old(Counters())
                              && modal == old(modal)
      ensures value.Some? ==>
        && eventLog == old(eventLog) + [ScoreEvent(value.value.team, old(CarriedAssister()), value.value)]
        && Counters() == old(Counters()).Incr(Score, value.value.team)
        && modal == None
      ensures input == old(input)
    {
      var assister := CarriedAssister();
      if value.None? {
        return;
      }
      var scorer := value.value;
      var team := scorer.team;
      var event := ScoreEvent(team, assister, scorer);
      assert (eventLog + [event])[..|eventLog|] == eventLog;
      assert Replay(eventLog + [event]) == Replay(eventLog).Incr(Score, team);
      eventLog := eventLog + [event];
      SetCounters(Counters().Incr(Score, team));
      modal := None;
    }

    /** `handleDefend(player)`: one defend event for the player's team, only that team's
        defends go up, and the modal closes; no player, no change. */
    method SelectDefender(player: Option<Player>)
      requires Valid()
      modifies this
      ensures Valid()
      ensures player.None? ==> eventLog == old(eventLog) && Counters() == old(Counters())
                               && modal == old(modal)
      ensures player.Some? ==>
        && eventLog == old(eventLog) + [DefendEvent(player.value.team, player.value)]
        && Counters() == old(Counters()).Incr(Defend, player.value.team)
        && modal == None
      ensures input == old(input)
    {
      if player.None? {
        return;
      }
      var team := player.value.team;
      var event := DefendEvent(team, player.value);
      assert (eventLog + [event])[..|eventLog|] == eventLog;
      assert Replay(eventLog + [event]) == Replay(eventLog).Incr(Defend, team);
      eventLog := eventLog + [event];
      SetCounters(Counters().Incr(Defend, team));
      modal := None;
    }

    /** `handleTurnoverStep(0, value)`: the chosen player is carried to step 1 of an open
        modal; unlike the score flow, the text field is left as it is. */
    method SelectTurnoverPlayer(value: Option<Player>)
      requires Valid()
      modifies this
      ensures Valid()
      ensures modal == (if old(modal).None? then None
                        else Some(old(modal).value.(step := 1, data := PlayerData(value))))
      ensures input == old(input)
      ensures eventLog == old(eventLog) && Counters() == old(Counters())
    {
      if modal.Some? {
        modal := Some(modal.value.(step := 1, data := PlayerData(value)));
      }
    }

    /** `modal?.data.player`. */
    function CarriedPlayer(): Option<Player>
      reads this
    {
      match modal
      case Some(Modal(_, _, PlayerData(p))) => p
      case _ => None
    }

    /** `handleTurnoverStep(1, type)`: with a carried player, one turnover event of the
        chosen type for that player's team is logged, only that team's turnovers go up,
        and the modal closes; with none, nothing happens. */
    method SelectTurnoverType(kind: TurnoverType)
      requires Valid()
      modifies this
      ensures Valid()
      ensures old(CarriedPlayer()).None? ==>
        eventLog == old(eventLog) && Counters() == old(Counters()) && modal == old(modal)
      ensures old(CarriedPlayer()).Some? ==>
        var p := old(CarriedPlayer()).value;
        && eventLog == old(eventLog) + [TurnoverEvent(p.team, p, kind)]
        && Counters() == old(Counters()).Incr(Turnover, p.team)
        && modal == None
      ensures input == old(input)
    {
      var player := CarriedPlayer();
      if player.None? {
        return;
      }
      var p := player.value;
      var team := p.team;
      var event := TurnoverEvent(team, p, kind);
      assert (eventLog + [event])[..|eventLog|] == eventLog;
      assert Replay(eventLog + [event]) == Replay(eventLog).Incr(Turnover, team);
      eventLog := eventLog + [event];
      SetCounters(Counters().Incr(Turnover, team));
      modal := None;
    }

    /** `handleUndo()`: a no-op on an empty log; otherwise the last event is removed and
        exactly the counter it had raised goes down by one. */
    method Undo()
      requires Valid()
      modifies this
      ensures Valid()
      ensures old(eventLog) == [] ==> eventLog == [] && Counters() == old(Counters())
      ensures old(eventLog) != [] ==>
        var last := old(eventLog)[|old(eventLog)| - 1];
        && eventLog == old(eventLog)[..|old(eventLog)| - 1]
        && Counters() == old(Counters()).Decr(last.Type(), last.team)
        && Counters().Get(last.Type(), last.team) + 1 == old(Counters()).Get(last.Type(), last.team)
      ensures modal == old(modal) && input == old(input)
    {
      if |eventLog| == 0 {
        return;
      }
      var last := eventLog[|eventLog| - 1];
      var before := eventLog[..|eventLog| - 1];
      assert eventLog == before + [last];
      UndoRestoresReplay(before, last);
      DecrUndoesIncr(Replay(before), last.Type(), last.team);
      eventLog := before;
      SetCounters(Counters().Decr(last.Type(), last.team));
    }

    /** The six `setX` calls of one handler: every counter takes its value from `c`. */
    method SetCounters(c: Tallies)
      modifies this
      ensures Counters() == c
      ensures eventLog == old(eventLog) && modal == old(modal) && input == old(input)
    {
      scoreA, scoreB, defendsA, defendsB, turnoversA, turnoversB :=
        c.scoreA, c.scoreB, c.defendsA, c.defendsB, c.turnoversA, c.turnoversB;
    }
  }

  /** The example of a score by Bob for team A with Alice assisting, then undone. */
  method ScoreThenUndo(alice: Player, bob: Player)
    requires bob.team == A
  {
    var r := new Recorder([alice, bob]);
    r.OpenModal(Score);
    r.SelectAssister(Some(alice));
    r.SelectScorer(Some(bob));
    assert r.eventLog == [ScoreEvent(A, Some(alice), bob)];
    assert r.scoreA == 1 && r.scoreB == 0;
    r.Undo();
    assert r.eventLog == [] && r.scoreA == 0;
  }
}
