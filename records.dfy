/**
  The append-only CSV file of approved translations: created with a header
  row on the first successful save, extended one row per later save, and
  read back as the sequence of its data rows (empty when the file is absent).
 */
module Records {
  import opened Wrappers

  /** One approved translation, one field per CSV column. */
  datatype Row = Row(
    sourceLanguage: string,
    targetLanguage: string,
    originalText: string,
    translatedText: string,
    model: string)

  /** The header the file is created with, in column order. */
  const Columns: seq<string> :=
    ["Source Language", "Target Language", "Original Text", "Translated Text", "Model"]

  /*
    `Field`, `Cells` and `FromCells` model the column layout of the record the
    approval builds. The file below stores `Row` values directly, so `Saved`
    and `Loaded` do not go through them.
   */

  /** The field of `row` stored under the column named `column`; "" for an unknown name. */
  function Field(row: Row, column: string): string
  {
    match column
    case "Source Language" => row.sourceLanguage
    case "Target Language" => row.targetLanguage
    case "Original Text" => row.originalText
    case "Translated Text" => row.translatedText
    case "Model" => row.model
    case _ => ""
  }

  /** The fields of a row in the order of `Columns`: each cell is the field its header names. */
  function Cells(row: Row): (c: seq<string>)
    ensures |c| == |Columns|
    ensures forall i :: 0 <= i < |Columns| ==> c[i] == Field(row, Columns[i])
    ensures FromCells(c) == Some(row)
  {
    [row.sourceLanguage, row.targetLanguage, row.originalText, row.translatedText, row.model]
  }

  /** Reads one data record of the file back as a row; a record of the wrong width is no row. */
  function FromCells(c: seq<string>): Option<Row>
  {
    if |c| != |Columns| then None
    else Some(Row(c[0], c[1], c[2], c[3], c[4]))
  }

  /** The file as the application sees it: whether it exists, its header, its data rows. */
  datatype Table = Table(present: bool, header: seq<string>, rows: seq<Row>)

  /** An absent file holds nothing; a present one carries the header. */
  predicate WellFormed(t: Table)
  {
    if t.present then t.header == Columns else t.header == [] && t.rows == []
  }

  /** What loading the file returns: its data rows, or nothing when it is absent. */
  function Loaded(t: Table): (rs: seq<Row>)
    ensures !t.present ==> rs == []
    ensures WellFormed(t) ==> rs == t.rows
  {
    if t.present then t.rows else []
  }

  /**
    The file after one save of `row`; `ok` is whether the write succeeded.
    A failed write leaves the file as it was.
   */
  function Saved(t: Table, row: Row, ok: bool): (u: Table)
    ensures !ok ==> u == t
    ensures ok ==> u.present && Loaded(u) == Loaded(t) + [row]
    ensures ok && !t.present ==> u.header == Columns && u.rows == [row]
    ensures ok && t.present ==> u.header == t.header
    ensures WellFormed(t) ==> WellFormed(u)
  {
    if !ok then t
    else if !t.present then Table(true, Columns, [row])
    else t.(rows := t.rows + [row])
  }

  /** The rows of the attempts whose write succeeded, in order. */
  function Successful(attempts: seq<(Row, bool)>): seq<Row>
  {
    if attempts == [] then []
    else (if attempts[0].1 then [attempts[0].0] else []) + Successful(attempts[1..])
  }

  /** The file after a series of save attempts, first to last. */
  function SavedAll(t: Table, attempts: seq<(Row, bool)>): Table
    decreases |attempts|
  {
    if attempts == [] then t
    else SavedAll(Saved(t, attempts[0].0, attempts[0].1), attempts[1..])
  }

  /**
    The file is append-only: after any series of saves, loading it yields the
    rows it held before followed by exactly the rows whose save succeeded.
   */
  lemma {:induction false} SavedAllAppendOnly(t: Table, attempts: seq<(Row, bool)>)
    requires WellFormed(t)
    ensures WellFormed(SavedAll(t, attempts))
    ensures Loaded(SavedAll(t, attempts)) == Loaded(t) + Successful(attempts)
    decreases |attempts|
  {
    if attempts != [] {
      var (row, ok) := attempts[0];
      var t' := Saved(t, row, ok);
      SavedAllAppendOnly(t', attempts[1..]);
      assert Loaded(t') == Loaded(t) + (if ok then [row] else []);
    }
  }

  /** The CSV file on disk, changed in place by `Save`. */
  class CsvFile {
    var present: bool
    var header: seq<string>
    var rows: seq<Row>

    function View(): Table
      reads this
    {
      Table(present, header, rows)
    }

    ghost predicate Valid()
      reads this
    {
      WellFormed(View())
    }

    /** The file as found on disk when the application starts. */
    constructor (onDisk: Table)
      requires WellFormed(onDisk)
      ensures Valid() && View() == onDisk
    {
      present, header, rows := onDisk.present, onDisk.header, onDisk.rows;
    }

    /**
      Writes `row`, with the header first when the file does not exist yet.
      `ok` is whether the write succeeds; the result is what the save reports.
     */
    method Save(row: Row, ok: bool) returns (saved: bool)
      requires Valid()
      modifies this
      ensures Valid()
      ensures saved == ok
      ensures View() == Saved(old(View()), row, ok)
    {
      if ok {
        if !present {
          present := true;
          header := Columns;
          rows := [row];
        } else {
          rows := rows + [row];
        }
      }
      saved := ok;
    }

    /** Reads the data rows back; an absent file reads as an empty table. */
    method Load() returns (rs: seq<Row>)
      requires Valid()
      ensures rs == Loaded(View())
      ensures !present ==> rs == []
    {
      if present {
        rs := rows;
      } else {
        rs := [];
      }
    }
  }
}
