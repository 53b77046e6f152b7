/** The card-deck definitions: each row of a CSV file becomes one card-face
    configuration. Reading the file (read_csv) is outside the model: its
    rows arrive as sequences of (column name, cell) pairs in column order,
    and whether a cell is truthy is a parameter. */
module DeckConfig {

  /** A cell as read_csv hands it over. */
  type Cell = string

  /** One row of the definitions file, as itertuples gives it: the column
      names with their cells, in column order. */
  type Row = seq<(string, Cell)>

  /** The fields a CardFaceConfig is constructed with, each stored as given. */
  datatype CardFaceConfig = CardFaceConfig(
    value: Cell,
    cost: seq<Cell>,
    sect: Cell,
    name: Cell,
    frontImage: Cell,
    backImage: Cell)

  /** Why loading stops: the file is missing (the failed assertion), or a
      row lacks a column the loader reads by attribute. */
  datatype LoadError = FileNotFound(path: string) | MissingField(field: string)

  datatype Result<T> = Success(value: T) | Failure(error: LoadError)

  predicate StartsWith(s: string, prefix: string)
  {
    |prefix| <= |s| && s[..|prefix|] == prefix
  }

  predicate HasField(row: Row, field: string)
  {
    exists i :: 0 <= i < |row| && row[i].0 == field
  }

  /** getattr(row, field): the cell of the named column, or the attribute
      error when the row has no such column. */
  function Field(row: Row, field: string): (r: Result<Cell>)
    ensures r.Success? <==> HasField(row, field)
    ensures r.Success? ==> (field, r.value) in row
    ensures r.Failure? ==> r.error == MissingField(field)
  {
    if row == [] then Failure(MissingField(field))
    else if row[0].0 == field then Success(row[0].1)
    else
      var r := Field(row[1..], field);
      assert HasField(row[1..], field) ==> HasField(row, field) by {
        if HasField(row[1..], field) {
          var i :| 0 <= i < |row[1..]| && row[1..][i].0 == field;
          assert row[i + 1].0 == field;
        }
      }
      assert HasField(row, field) ==> HasField(row[1..], field) by {
        if HasField(row, field) {
          var i :| 0 <= i < |row| && row[i].0 == field;
          assert i != 0;
          assert row[1..][i - 1].0 == field;
        }
      }
      r
  }

  /** A column that contributes to the cost: its name starts with "cost"
      and its cell is truthy. */
  predicate IsCostCell(column: (string, Cell), truthy: Cell -> bool)
  {
    StartsWith(column.0, "cost") && truthy(column.1)
  }

  /** The cost_array comprehension: the cells of the cost columns that are
      truthy, in column order. */
  function CostArray(row: Row, truthy: Cell -> bool): (r: seq<Cell>)
    ensures |r| <= |row|
    ensures forall k :: 0 <= k < |r| ==> truthy(r[k])
  {
    if row == [] then []
    else
      var last := row[|row| - 1];
      CostArray(row[..|row| - 1], truthy) + (if IsCostCell(last, truthy) then [last.1] else [])
  }

  lemma {:induction false} CostArrayAppend(a: Row, b: Row, truthy: Cell -> bool)
    ensures CostArray(a + b, truthy) == CostArray(a, truthy) + CostArray(b, truthy)
  {
    if b == [] {
      assert a + b == a;
    } else {
      var b' := b[..|b| - 1];
      CostArrayAppend(a, b', truthy);
      assert (a + b)[..|a + b| - 1] == a + b';
    }
  }

  /** Every column contributes its cell to the cost exactly when it is a
      truthy cost column, and in its own place: the columns before it
      contribute first and the columns after it last. */
  lemma CostArrayColumn(before: Row, column: (string, Cell), after: Row, truthy: Cell -> bool)
    ensures CostArray(before + [column] + after, truthy)
         == CostArray(before, truthy)
            + (if IsCostCell(column, truthy) then [column.1] else [])
            + CostArray(after, truthy)
  {
    CostArrayAppend(before + [column], after, truthy);
    CostArrayAppend(before, [column], truthy);
    assert [column][..0] == [];
  }

  /** The columns read by attribute, in the order the constructor call
      evaluates them. */
  const ConfigFields: seq<string> := ["name", "value", "sect", "front", "back"]

  /** The CardFaceConfig built from one row, or the attribute error of the
      first of its named columns the row lacks. */
  function ConfigOf(row: Row, truthy: Cell -> bool): (r: Result<CardFaceConfig>)
    ensures r.Success? <==> forall k :: 0 <= k < |ConfigFields| ==> HasField(row, ConfigFields[k])
    ensures r.Success? ==>
      && r.value.cost == CostArray(row, truthy)
      && ("name", r.value.name) in row
      && ("value", r.value.value) in row
      && ("sect", r.value.sect) in row
      && ("front", r.value.frontImage) in row
      && ("back", r.value.backImage) in row
    ensures r.Failure? ==>
      exists k :: (0 <= k < |ConfigFields| && r.error == MissingField(ConfigFields[k])
        && !HasField(row, ConfigFields[k])
        && forall j :: 0 <= j < k ==> HasField(row, ConfigFields[j]))
  {
    var costArray := CostArray(row, truthy);
    var name := Field(row, "name");
    var value := Field(row, "value");
    var sect := Field(row, "sect");
    var front := Field(row, "front");
    var back := Field(row, "back");
    assert ConfigFields[0] == "name" && ConfigFields[1] == "value" && ConfigFields[2] == "sect"
      && ConfigFields[3] == "front" && ConfigFields[4] == "back";
    if name.Failure? then Failure(name.error)
    else if value.Failure? then Failure(value.error)
    else if sect.Failure? then Failure(sect.error)
    else if front.Failure? then Failure(front.error)
    else if back.Failure? then Failure(back.error)
    else Success(CardFaceConfig(value.value, costArray, sect.value, name.value, front.value, back.value))
  }

  class CardDeckConfig {
    var cardDeck: seq<CardFaceConfig>
    /** The rows the deck was loaded from, and the truthiness they were read with. */
    ghost var sourceRows: seq<Row>
    ghost var truthy: Cell -> bool

    /** One card per row, in row order, each built from its own row. */
    ghost predicate Valid()
      reads this
    {
      && |cardDeck| == |sourceRows|
      && forall i :: 0 <= i < |sourceRows| ==> ConfigOf(sourceRows[i], truthy) == Success(cardDeck[i])
    }

    constructor FromRows(deck: seq<CardFaceConfig>, ghost rows: seq<Row>, ghost truthy: Cell -> bool)
      requires |deck| == |rows|
      requires forall i :: 0 <= i < |rows| ==> ConfigOf(rows[i], truthy) == Success(deck[i])
      ensures Valid()
      ensures cardDeck == deck && sourceRows == rows && this.truthy == truthy
    {
      cardDeck := deck;
      sourceRows := rows;
      this.truthy := truthy;
    }

    /** CardDeckConfig(card_deck_defs): load the file, or fail as the
        loader does. */
    static method Create(path: string, fileExists: bool, rows: seq<Row>, truthy: Cell -> bool)
      returns (r: Result<CardDeckConfig>)
      ensures r.Success? <==> fileExists && forall i :: 0 <= i < |rows| ==> ConfigOf(rows[i], truthy).Success?
      ensures !fileExists ==> r == Failure(FileNotFound(path))
      ensures r.Success? ==> fresh(r.value) && r.value.Valid() && r.value.sourceRows == rows
      ensures r.Success? ==> r.value.truthy == truthy && r.value.NumCards() == |rows|
      ensures r.Success? ==>
        forall i :: 0 <= i < |rows| ==> ConfigOf(rows[i], truthy) == Success(r.value.cardDeck[i])
      ensures fileExists && r.Failure? ==>
        exists i :: (0 <= i < |rows| && ConfigOf(rows[i], truthy) == Failure(r.error)
          && forall j :: 0 <= j < i ==> ConfigOf(rows[j], truthy).Success?)
    {
      var loaded := LoadCardDeckDefs(path, fileExists, rows, truthy);
      if loaded.Failure? {
        return Failure(loaded.error);
      }
      var deck := new CardDeckConfig.FromRows(loaded.value, rows, truthy);
      r := Success(deck);
    }

    /** load_card_deck_defs: the file must exist; then one configuration
        per row is appended, in row order, and the first row that lacks a
        named column stops the load with that column's error. */
    static method LoadCardDeckDefs(path: string, fileExists: bool, rows: seq<Row>, truthy: Cell -> bool)
      returns (r: Result<seq<CardFaceConfig>>)
      ensures !fileExists ==> r == Failure(FileNotFound(path))
      ensures r.Success? <==> fileExists && forall i :: 0 <= i < |rows| ==> ConfigOf(rows[i], truthy).Success?
      ensures r.Success? ==> |r.value| == |rows|
      ensures r.Success? ==>
        forall i :: 0 <= i < |rows| ==> ConfigOf(rows[i], truthy) == Success(r.value[i])
      ensures fileExists && r.Failure? ==>
        exists i :: (0 <= i < |rows| && ConfigOf(rows[i], truthy) == Failure(r.error)
          && forall j :: 0 <= j < i ==> ConfigOf(rows[j], truthy).Success?)
    {
      if !fileExists {
        return Failure(FileNotFound(path));
      }
      var cardDeckList: seq<CardFaceConfig> := [];
      for k := 0 to |rows|
        invariant |cardDeckList| == k
        invariant forall i :: 0 <= i < k ==> ConfigOf(rows[i], truthy) == Success(cardDeckList[i])
      {
        var cfc := ConfigOf(rows[k], truthy);
        if cfc.Failure? {
          return Failure(cfc.error);
        }
        cardDeckList := cardDeckList + [cfc.value];
      }
      r := Success(cardDeckList);
    }

    /** num_cards: one card per row of the definitions file. */
    function NumCards(): (n: nat)
      reads this
      requires Valid()
      ensures n == |sourceRows|
    {
      |cardDeck|
    }
  }
}
