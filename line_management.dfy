/** Creating and editing the lines of a team (src/pages/LineManagement.tsx): a line is a
    named list of player ids, edited through a form whose check boxes toggle ids. */
module LineManagement {
  import opened Common
  import opened Seqs
  import opened Strings
  import opened Records

  function NotEqual(id: string): string -> bool {
    (x: string) => x != id
  }

  /** The player-id toggle of both forms: an id that is present is removed everywhere,
      an absent one is appended at the end. */
  function Toggle(ids: seq<string>, id: string): (r: seq<string>)
    ensures id in ids ==> id !in r
    ensures id !in ids ==> r == ids + [id]
  {
    if id in ids then Filter(ids, NotEqual(id)) else ids + [id]
  }

  /** Toggling flips the membership of `id` and of nothing else. */
  lemma ToggleMembers(ids: seq<string>, id: string, x: string)
    ensures x in Toggle(ids, id) <==> (x in ids) != (x == id)
  {
    if id in ids && x in ids && x != id {
      var k :| 0 <= k < |ids| && ids[k] == x;
      assert NotEqual(id)(ids[k]);
    }
  }

  /** Toggling an absent id twice gives back the original list. */
  lemma ToggleTwice(ids: seq<string>, id: string)
    requires id !in ids
    ensures Toggle(Toggle(ids, id), id) == ids
  {
    FilterAppend(ids, [id], NotEqual(id));
    FilterAll(ids, NotEqual(id));
    assert Filter([id], NotEqual(id)) == [];
  }

  predicate NoDuplicates(ids: seq<string>) {
    forall i, j :: 0 <= i < j < |ids| ==> ids[i] != ids[j]
  }

  /** Filtering keeps a list free of duplicates. */
  lemma {:induction false} FilterNoDuplicates(ids: seq<string>, keep: string -> bool)
    requires NoDuplicates(ids)
    ensures NoDuplicates(Filter(ids, keep))
  {
    if ids != [] {
      var tail := ids[1..];
      assert NoDuplicates(tail) by {
        forall i, j | 0 <= i < j < |tail| ensures tail[i] != tail[j] {
          assert tail[i] == ids[i + 1] && tail[j] == ids[j + 1];
        }
      }
      FilterNoDuplicates(tail, keep);
      var rest := Filter(tail, keep);
      if keep(ids[0]) {
        assert ids[0] !in rest;
        var r := [ids[0]] + rest;
        assert Filter(ids, keep) == r;
        forall i, j | 0 <= i < j < |r| ensures r[i] != r[j] {
          if i > 0 { assert r[i] == rest[i - 1] && r[j] == rest[j - 1]; }
          else { assert r[j] == rest[j - 1]; }
        }
      } else {
        assert Filter(ids, keep) == rest;
      }
    }
  }

  /** Toggling never introduces a duplicate. */
  lemma ToggleNoDuplicates(ids: seq<string>, id: string)
    requires NoDuplicates(ids)
    ensures NoDuplicates(Toggle(ids, id))
  {
    if id in ids {
      FilterNoDuplicates(ids, NotEqual(id));
    }
  }

  /** The form of a line being created or edited. */
  datatype LineForm = LineForm(name: string, description: string, playerIds: seq<string>)

  const EmptyForm := LineForm("", "", [])

  /** A stored line; `player_ids` may be missing. */
  datatype Line = Line(id: string, name: string, description: string, playerIds: Option<seq<string>>)

  /** The two text inputs of a form, by their `name` attribute. */
  datatype Field = Name | Description

  function WithField(form: LineForm, field: Field, value: string): (r: LineForm)
    ensures r.playerIds == form.playerIds
    ensures field == Name ==> r.name == value && r.description == form.description
    ensures field == Description ==> r.description == value && r.name == form.name
  {
    match field
    case Name => form.(name := value)
    case Description => form.(description := value)
  }

  /** `!name.trim()`: nothing but white space, which is exactly when the trim is empty
      (`BlankIsTrimEmpty`). */
  predicate Blank(name: string) { AllWhitespace(name) }

  lemma BlankIsTrimEmpty(name: string)
    ensures Blank(name) <==> Trim(name) == ""
  {
    TrimSlice(name);
  }

  const NameRequired := "Line name is required"
  const CreateFailed := "Failed to create line"
  const UpdateFailed := "Failed to update line"

  /** `err.message || fallback`: the message when it is non-empty, else the fallback. */
  function ErrorText(message: string, fallback: string): (r: string)
    ensures r == message || r == fallback
    ensures message != "" ==> r == message
    ensures r != "" <==> message != "" || fallback != ""
  {
    if message != "" then message else fallback
  }

  /** `players.filter(p => ids.includes(p.id))`. */
  function InIds(ids: seq<string>): Player -> bool {
    (p: Player) => p.id in ids
  }

  /** The `${jersey_number}` text of a player; a missing number prints as `null`. */
  function JerseyText(n: Option<int>): (r: string)
    ensures r != []
  {
    match n
    case Some(k) => IntToString(k)
    case None => "null"
  }

  /** `${p.name} #${p.jersey_number}`. */
  function Label(p: Player): (r: string)
    ensures r != []
  {
    p.name + " #" + JerseyText(p.jerseyNumber)
  }

  function Labels(players: seq<Player>): (r: seq<string>)
    ensures |r| == |players|
    ensures forall i :: 0 <= i < |r| ==> r[i] == Label(players[i])
  {
    seq(|players|, i requires 0 <= i < |players| => Label(players[i]))
  }

  /** `getPlayerNames(ids)`: the labels of the roster players whose id is in `ids`, in roster
      order, joined with `", "`; the label of every selected player occurs in it. */
  function PlayerNames(players: seq<Player>, ids: seq<string>): (r: string)
    ensures forall i :: 0 <= i < |players| && players[i].id in ids ==> IsSubstring(Label(players[i]), r)
  {
    var chosen := Filter(players, InIds(ids));
    var labels := Labels(chosen);
    assert forall i :: 0 <= i < |players| && players[i].id in ids ==> IsSubstring(Label(players[i]), Join(labels, ", ")) by {
      forall i | 0 <= i < |players| && players[i].id in ids
        ensures IsSubstring(Label(players[i]), Join(labels, ", "))
      {
        assert InIds(ids)(players[i]);
        var k :| 0 <= k < |chosen| && chosen[k] == players[i];
        JoinHasPart(labels, ", ", k);
      }
    }
    Join(labels, ", ")
  }

  /** What `ids.includes` throws on a line stored without `player_ids`. */
  const NullIds := "Cannot read properties of null (reading 'includes')"

  /** `getPlayerNames(line.player_ids)` in the list of lines. A line stored without ids makes
      the first roster player's test throw, which ends the view; with no roster players
      nothing is tested and the text is empty. */
  function LineNames(players: seq<Player>, line: Line): (r: Result<string, string>)
    ensures r.Failure? <==> line.playerIds.None? && players != []
    ensures line.playerIds.Some? ==> r == Success(PlayerNames(players, line.playerIds.value))
    ensures line.playerIds.None? && players == [] ==> r == Success("")
  {
    match line.playerIds
    case Some(ids) => Success(PlayerNames(players, ids))
    case None => if players == [] then Success("") else Failure(NullIds)
  }

  /** A join starts with its first part. */
  lemma {:induction false} JoinStartsWith(parts: seq<string>, sep: string)
    requires parts != []
    ensures parts[0] <= Join(parts, sep)
  {
  }

  /** The names text is empty exactly when no roster player is selected. */
  lemma PlayerNamesEmpty(players: seq<Player>, ids: seq<string>)
    ensures PlayerNames(players, ids) == "" <==> forall i :: 0 <= i < |players| ==> players[i].id !in ids
  {
    var chosen := Filter(players, InIds(ids));
    if chosen != [] {
      JoinStartsWith(Labels(chosen), ", ");
      assert Labels(chosen)[0] != [];
      assert chosen[0] in players && chosen[0].id in ids;
    }
  }

  /** With exactly one roster player selected, the text is that player's label alone: no
      separator is added. */
  lemma PlayerNamesOne(players: seq<Player>, ids: seq<string>, k: int)
    requires 0 <= k < |players| && players[k].id in ids
    requires forall i :: 0 <= i < |players| && i != k ==> players[i].id !in ids
    ensures PlayerNames(players, ids) == Label(players[k])
  {
    OnlyOne(players, InIds(ids), k);
  }

  /** The names text built one roster player at a time: a selected player's label is added
      after a `", "` unless nothing precedes it; an unselected player adds nothing. */
  function NamesText(players: seq<Player>, ids: seq<string>): string {
    if players == [] then ""
    else
      var prev := NamesText(players[..|players| - 1], ids);
      var p := players[|players| - 1];
      if p.id !in ids then prev
      else if prev == "" then Label(p)
      else prev + ", " + Label(p)
  }

  /** An empty roster gives an empty names text. */
  lemma PlayerNamesNil(ids: seq<string>)
    ensures PlayerNames([], ids) == ""
  {
    assert Filter([], InIds(ids)) == [];
  }

  /** One more roster player changes the names text as `NamesText` says. */
  lemma PlayerNamesSnoc(players: seq<Player>, p: Player, ids: seq<string>)
    ensures p.id !in ids ==> PlayerNames(players + [p], ids) == PlayerNames(players, ids)
    ensures p.id in ids ==>
      var before := PlayerNames(players, ids);
      PlayerNames(players + [p], ids) == if before == "" then Label(p) else before + ", " + Label(p)
  {
    var keep := InIds(ids);
    var chosen := Filter(players, keep);
    var labels := Labels(chosen);
    FilterAppend(players, [p], keep);
    assert Filter([p], keep) == if keep(p) then [p] else [] by {
      assert [p][1..] == [];
    }
    if p.id in ids {
      assert Filter(players + [p], keep) == chosen + [p];
      assert Labels(chosen + [p]) == labels + [Label(p)];
      JoinSnoc(labels, Label(p), ", ");
      assert Join(labels, ", ") == "" <==> labels == [] by {
        if labels != [] {
          JoinStartsWith(labels, ", ");
          assert labels[0] != [];
        }
      }
    } else {
      assert Filter(players + [p], keep) == chosen;
    }
  }

  /** `getPlayerNames` is exactly the text built player by player: the selected players'
      labels, in roster order, separated by `", "`, and nothing else. */
  lemma {:induction false} PlayerNamesIsNamesText(players: seq<Player>, ids: seq<string>)
    ensures PlayerNames(players, ids) == NamesText(players, ids)
  {
    if players == [] {
      PlayerNamesNil(ids);
    } else {
      var init, last := players[..|players| - 1], players[|players| - 1];
      assert init + [last] == players;
      PlayerNamesIsNamesText(init, ids);
      PlayerNamesSnoc(init, last, ids);
      var before := NamesText(init, ids);
      assert NamesText(players, ids)
        == if last.id !in ids then before else if before == "" then Label(last) else before + ", " + Label(last);
    }
  }

  /** Filtering a list in which only the element at `k` is kept leaves that element alone. */
  lemma {:induction false} OnlyOne(players: seq<Player>, keep: Player -> bool, k: int)
    requires 0 <= k < |players| && keep(players[k])
    requires forall i :: 0 <= i < |players| && i != k ==> !keep(players[i])
    ensures Filter(players, keep) == [players[k]]
  {
    if k == 0 {
      FilterNone(players[1..], keep);
    } else {
      OnlyOne(players[1..], keep, k - 1);
    }
  }

  /** Filtering a list in which nothing is kept leaves nothing. */
  lemma {:induction false} FilterNone(players: seq<Player>, keep: Player -> bool)
    requires forall i :: 0 <= i < |players| ==> !keep(players[i])
    ensures Filter(players, keep) == []
  {
    if players != [] {
      FilterNone(players[1..], keep);
    }
  }

  /** The page's form state. */
  class LineEditor {
    var newLine: LineForm
    var editLine: LineForm
    var editingLineId: Option<string>
    var error: Option<string>

    constructor ()
      ensures newLine == EmptyForm && editLine == EmptyForm
      ensures editingLineId == None && error == None
    {
      newLine, editLine, editingLineId, error := EmptyForm, EmptyForm, None, None;
    }

    /** `handleNewLineChange`. */
    method ChangeNewLine(field: Field, value: string)
      modifies this
      ensures newLine == WithField(old(newLine), field, value)
      ensures editLine == old(editLine) && editingLineId == old(editingLineId) && error == old(error)
    {
      newLine := WithField(newLine, field, value);
    }

    /** `handleNewLinePlayerToggle`. */
    method ToggleNewLinePlayer(id: string)
      modifies this
      ensures newLine == old(newLine).(playerIds := Toggle(old(newLine.playerIds), id))
      ensures editLine == old(editLine) && editingLineId == old(editingLineId) && error == old(error)
    {
      newLine := newLine.(playerIds := Toggle(newLine.playerIds, id));
    }

    /** `handleCreateLine`: a blank name is refused before anything is sent; otherwise the
        form is sent, and `dbError` is the insert's outcome. On success the form is
        cleared; on failure it stays for another try and the error is shown. */
    method CreateLine(dbError: Option<string>) returns (sent: Option<LineForm>)
      modifies this
      ensures Blank(old(newLine.name)) ==> sent == None && newLine == old(newLine) && error == Some(NameRequired)
      ensures !Blank(old(newLine.name)) ==> sent == Some(old(newLine))
      ensures !Blank(old(newLine.name)) && dbError.None? ==> newLine == EmptyForm && error == None
      ensures !Blank(old(newLine.name)) && dbError.Some? ==>
                newLine == old(newLine) && error == Some(ErrorText(dbError.value, CreateFailed))
      ensures editLine == old(editLine) && editingLineId == old(editingLineId)
    {
      var blank := Blank(newLine.name);
      error := None;
      if blank {
        error := Some(NameRequired);
        return None;
      }
      sent := Some(newLine);
      if dbError.Some? {
        error := Some(ErrorText(dbError.value, CreateFailed));
        return;
      }
      newLine := EmptyForm;
    }

    /** `startEditLine`: the edit form is filled from the line, a missing id list read as
        empty. */
    method StartEditLine(line: Line)
      modifies this
      ensures editingLineId == Some(line.id)
      ensures editLine == LineForm(line.name, line.description, if line.playerIds.Some? then line.playerIds.value else [])
      ensures newLine == old(newLine) && error == old(error)
    {
      editingLineId := Some(line.id);
      var ids := if line.playerIds.Some? then line.playerIds.value else [];
      editLine := LineForm(line.name, line.description, ids);
    }

    /** `handleEditLineChange`. */
    method ChangeEditLine(field: Field, value: string)
      modifies this
      ensures editLine == WithField(old(editLine), field, value)
      ensures newLine == old(newLine) && editingLineId == old(editingLineId) && error == old(error)
    {
      editLine := WithField(editLine, field, value);
    }

    /** `handleEditLinePlayerToggle`. */
    method ToggleEditLinePlayer(id: string)
      modifies this
      ensures editLine == old(editLine).(playerIds := Toggle(old(editLine.playerIds), id))
      ensures newLine == old(newLine) && editingLineId == old(editingLineId) && error == old(error)
    {
      editLine := editLine.(playerIds := Toggle(editLine.playerIds, id));
    }

    /** `handleUpdateLine`: without a line being edited nothing happens at all. A blank name
        is refused; otherwise the line's id and the form are sent, and `dbError` is the
        update's outcome. On success editing ends and the form is cleared. */
    method UpdateLine(dbError: Option<string>) returns (sent: Option<(string, LineForm)>)
      modifies this
      ensures !TruthyId(old(editingLineId)) ==>
                sent == None && editLine == old(editLine) && editingLineId == old(editingLineId) && error == old(error)
      ensures TruthyId(old(editingLineId)) && Blank(old(editLine.name)) ==>
                sent == None && editLine == old(editLine) && editingLineId == old(editingLineId)
                && error == Some(NameRequired)
      ensures TruthyId(old(editingLineId)) && !Blank(old(editLine.name)) ==>
                sent == Some((old(editingLineId).value, old(editLine)))
      ensures TruthyId(old(editingLineId)) && !Blank(old(editLine.name)) && dbError.None? ==>
                editingLineId == None && editLine == EmptyForm && error == None
      ensures TruthyId(old(editingLineId)) && !Blank(old(editLine.name)) && dbError.Some? ==>
                editLine == old(editLine) && editingLineId == old(editingLineId)
                && error == Some(ErrorText(dbError.value, UpdateFailed))
      ensures newLine == old(newLine)
    {
      if !TruthyId(editingLineId) {
        return None;
      }
      var blank := Blank(editLine.name);
      error := None;
      if blank {
        error := Some(NameRequired);
        return None;
      }
      sent := Some((editingLineId.value, editLine));
      if dbError.Some? {
        error := Some(ErrorText(dbError.value, UpdateFailed));
        return;
      }
      editingLineId := None;
      editLine := EmptyForm;
    }

    /** `cancelEdit`. */
    method CancelEdit()
      modifies this
      ensures editingLineId == None && editLine == EmptyForm
      ensures newLine == old(newLine) && error == old(error)
    {
      editingLineId := None;
      editLine := EmptyForm;
    }
  }
}
