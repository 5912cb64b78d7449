/** Adding players to a team's roster (src/pages/TeamRoster.tsx): one at a time from a
    name and jersey form, or in bulk from text with one `name, jersey` line per player. */
module TeamRoster {
  import opened Common
  import opened Strings
  import opened Records

  /** A row sent to the `players` table. */
  datatype NewPlayer = NewPlayer(teamId: string, name: string, jerseyNumber: Option<int>)

  /** `parseInt(field) || null`, where a missing field is `undefined`: no number, and also the
      number 0 since it is falsy, give `null`. */
  function Jersey(field: Option<string>): (r: Option<int>)
    ensures r.Some? <==> field.Some? && ParseInt(field.value).Some? && ParseInt(field.value).value != 0
    ensures r.Some? ==> r == ParseInt(field.value)
  {
    if field.None? then None
    else
      match ParseInt(field.value)
      case None => None
      case Some(n) => if n == 0 then None else Some(n)
  }

  /** One line of bulk text: `const [name, jersey_number] = line.split(',').map(s => s.trim())`. */
  function RowOf(teamId: string, line: string): (r: NewPlayer)
    ensures r.teamId == teamId
    ensures ',' !in r.name
    ensures r.name != [] ==> !IsWhitespace(r.name[0]) && !IsWhitespace(r.name[|r.name| - 1])
    ensures r.jerseyNumber != Some(0)
    ensures CountChar(line, ',') == 0 ==> r.name == Trim(line) && r.jerseyNumber.None?
  {
    var fields := Split(line, ',');
    var jersey := if |fields| > 1 then Some(Trim(fields[1])) else None;
    TrimKeepsOut(fields[0], ',');
    JoinSplit(line, ',');
    NewPlayer(teamId, Trim(fields[0]), Jersey(jersey))
  }

  /** `bulkText.trim().split('\n')`. */
  function LinesOf(text: string): (r: seq<string>)
    ensures |r| == CountChar(Trim(text), '\n') + 1
    ensures forall i :: 0 <= i < |r| ==> '\n' !in r[i]
  {
    Split(Trim(text), '\n')
  }

  /** The rows of a bulk insert: one per line of the trimmed text, in order. */
  function BulkRows(teamId: string, text: string): (r: seq<NewPlayer>)
    ensures |r| == CountChar(Trim(text), '\n') + 1
    ensures forall i :: 0 <= i < |r| ==> r[i] == RowOf(teamId, LinesOf(text)[i])
  {
    var lines := LinesOf(text);
    seq(|lines|, i requires 0 <= i < |lines| => RowOf(teamId, lines[i]))
  }

  /** A line without a comma gives the trimmed line as the name and no jersey. */
  lemma NameOnly(teamId: string, line: string)
    requires ',' !in line
    ensures RowOf(teamId, line) == NewPlayer(teamId, Trim(line), None)
  {
    SplitWithout(line, ',');
  }

  /** Fields after the second are ignored. */
  lemma ExtraFieldsIgnored(teamId: string, name: string, jersey: string, rest: string)
    requires ',' !in name && ',' !in jersey
    ensures RowOf(teamId, name + "," + jersey + "," + rest) == RowOf(teamId, name + "," + jersey)
  {
    SplitAt(name, ',', jersey + "," + rest);
    assert name + "," + jersey + "," + rest == name + [','] + (jersey + [','] + rest);
    SplitAt(jersey, ',', rest);
    SplitAt(name, ',', jersey);
    assert name + "," + jersey == name + [','] + jersey;
    SplitWithout(jersey, ',');
  }

  /** A line written as `name, n` reads back as that name, with `n` as the jersey unless
      `n` is 0, which becomes `null`. */
  lemma RowRoundTrip(teamId: string, name: string, n: int)
    requires ',' !in name && Trim(name) == name
    ensures RowOf(teamId, name + ", " + IntToString(n))
         == NewPlayer(teamId, name, if n == 0 then None else Some(n))
  {
    var digits := IntToString(n);
    var b := " " + digits;
    TrimmedNumber(n);
    TwoFieldRow(teamId, name, b);
    CommaSpace(name, digits);
    JerseyOfInt(n);
  }

  lemma CommaSpace(a: string, b: string)
    ensures a + ", " + b == a + "," + (" " + b)
  {
  }

  /** A line with exactly one comma gives the two trimmed fields as name and jersey. */
  lemma TwoFieldRow(teamId: string, a: string, b: string)
    requires ',' !in a && ',' !in b
    ensures RowOf(teamId, a + "," + b) == NewPlayer(teamId, Trim(a), Jersey(Some(Trim(b))))
  {
    TwoFields(a, b);
  }

  /** `a,b` with no comma in either splits into exactly those two fields. */
  lemma TwoFields(a: string, b: string)
    requires ',' !in a && ',' !in b
    ensures Split(a + "," + b, ',') == [a, b]
  {
    SplitAt(a, ',', b);
    assert a + "," + b == a + [','] + b;
    SplitWithout(b, ',');
  }

  /** The trimmed second field of `name, n` is the decimal text of `n`. */
  lemma TrimmedNumber(n: int)
    ensures ',' !in " " + IntToString(n)
    ensures Trim(" " + IntToString(n)) == IntToString(n)
  {
    var digits := IntToString(n);
    NoCommaInNumber(n);
    assert " " + digits == [' '] + digits;
    TrimLeadingBlank(digits);
    TrimUnchanged(digits);
  }

  lemma NoCommaInNumber(n: int)
    ensures ',' !in IntToString(n)
  {
  }

  /** The jersey of the decimal text of `n` is `n`, except that 0 is `null`. */
  lemma JerseyOfInt(n: int)
    ensures Jersey(Some(IntToString(n))) == if n == 0 then None else Some(n)
  {
    ParseIntRoundTrip(n);
  }

  /** Bulk text made of lines joined by `'\n'`, with nothing to trim at either end, gives one
      row per line, in order. */
  lemma BulkOfLines(teamId: string, lines: seq<string>)
    requires lines != []
    requires forall i :: 0 <= i < |lines| ==> '\n' !in lines[i]
    requires Trim(Join(lines, "\n")) == Join(lines, "\n")
    ensures |BulkRows(teamId, Join(lines, "\n"))| == |lines|
    ensures forall i :: 0 <= i < |lines| ==> BulkRows(teamId, Join(lines, "\n"))[i] == RowOf(teamId, lines[i])
  {
    SplitJoin(lines, '\n');
  }

  /** The two inputs of the single-player form, by their `name` attribute. */
  datatype Field = Name | JerseyNumber

  /** The page's state. */
  class RosterPage {
    var players: seq<Player>
    var newName: string
    var newJersey: string
    var bulkText: string
    var error: Option<string>

    /** The players fetched for the team (`playersData || []`), with empty forms. */
    constructor (fetched: seq<Player>)
      ensures players == fetched && newName == "" && newJersey == "" && bulkText == "" && error == None
    {
      players, newName, newJersey, bulkText, error := fetched, "", "", "", None;
    }

    /** `handleInputChange`. */
    method ChangeInput(field: Field, value: string)
      modifies this
      ensures field == Name ==> newName == value && newJersey == old(newJersey)
      ensures field == JerseyNumber ==> newJersey == value && newName == old(newName)
      ensures players == old(players) && bulkText == old(bulkText) && error == old(error)
    {
      match field
      case Name => newName := value;
      case JerseyNumber => newJersey := value;
    }

    /** The bulk text area's `onChange`. */
    method ChangeBulkText(value: string)
      modifies this
      ensures bulkText == value
      ensures players == old(players) && newName == old(newName) && newJersey == old(newJersey) && error == old(error)
    {
      bulkText := value;
    }

    /** `handleAddPlayer`: without a team id nothing happens. Otherwise the row is sent with
        the name as typed and the jersey coerced; `outcome` is the inserted row or the
        database's message. On success the row is appended and the form cleared. */
    method AddPlayer(teamId: Option<string>, outcome: Result<Player, string>) returns (sent: Option<NewPlayer>)
      modifies this
      ensures !TruthyId(teamId) ==>
                sent == None && players == old(players) && newName == old(newName)
                && newJersey == old(newJersey) && error == old(error)
      ensures TruthyId(teamId) ==> sent == Some(NewPlayer(teamId.value, old(newName), Jersey(Some(old(newJersey)))))
      ensures TruthyId(teamId) && outcome.Success? ==>
                players == old(players) + [outcome.value] && newName == "" && newJersey == "" && error == None
      ensures TruthyId(teamId) && outcome.Failure? ==>
                players == old(players) && newName == old(newName) && newJersey == old(newJersey)
                && error == Some(outcome.error)
      ensures bulkText == old(bulkText)
    {
      if !TruthyId(teamId) {
        return None;
      }
      error := None;
      sent := Some(NewPlayer(teamId.value, newName, Jersey(Some(newJersey))));
      match outcome
      case Success(row) =>
        players := players + [row];
        newName, newJersey := "", "";
      case Failure(message) =>
        error := Some(message);
    }

    /** `handleBulkAddPlayers`: without a team id, or with text that is blank once trimmed,
        nothing happens. Otherwise one row per line is sent; `outcome` is the inserted rows
        or the database's message. On success they are appended after the existing players
        in the order returned and the text is cleared. */
    method BulkAddPlayers(teamId: Option<string>, outcome: Result<seq<Player>, string>)
      returns (sent: Option<seq<NewPlayer>>)
      modifies this
      ensures !TruthyId(teamId) || Trim(old(bulkText)) == "" ==>
                sent == None && players == old(players) && bulkText == old(bulkText) && error == old(error)
      ensures TruthyId(teamId) && Trim(old(bulkText)) != "" ==> sent == Some(BulkRows(teamId.value, old(bulkText)))
      ensures TruthyId(teamId) && Trim(old(bulkText)) != "" && outcome.Success? ==>
                players == old(players) + outcome.value && bulkText == "" && error == None
      ensures TruthyId(teamId) && Trim(old(bulkText)) != "" && outcome.Failure? ==>
                players == old(players) && bulkText == old(bulkText) && error == Some(outcome.error)
      ensures newName == old(newName) && newJersey == old(newJersey)
    {
      var text := bulkText;
      if !TruthyId(teamId) || Trim(text) == "" {
        return None;
      }
      var rows := BulkRows(teamId.value, text);
      error := None;
      sent := Some(rows);
      match outcome
      case Success(inserted) =>
        players := players + inserted;
        bulkText := "";
      case Failure(message) =>
        error := Some(message);
    }
  }
}
