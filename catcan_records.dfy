/**
 * Turning the downloaded CSV text into cat-can records (src/App.tsx:103-147 and
 * src/types.ts). The first line is a header and is skipped; a row with fewer than
 * fourteen fields is skipped; an empty cell becomes "-"; the moisture content in
 * millilitres is derived from the weight and the moisture percentage.
 */
module CatCanRecords {
  import opened Wrappers
  import opened JsRuntime
  import opened Text
  import opened Seqs
  import opened CsvLine

  /** One product (src/types.ts). Every field is display text. */
  datatype CatCan = CatCan(
    made: string,
    brand: string,
    name: string,
    flaver: string,
    weightG: string,
    kcal: string,
    protein: string,
    fat: string,
    fiber: string,
    ash: string,
    /** Moisture as a percentage. */
    moisture: string,
    /** Moisture in millilitres, derived; "-" when it cannot be derived. */
    moistureContent: string,
    ca: string,
    p: string,
    /** Taurine concentration (mg/kg). */
    taurine: string,
    /** Taurine amount; the loader copies the concentration column. */
    taurineContent: string)

  /** The number of CSV columns a data row must have. */
  const ColumnCount: nat := 14

  /**
   * The record's fields in CSV column order: brand, name, flavour, weight, kcal,
   * protein, fat, fibre, ash, moisture, Ca, P, taurine, origin.
   */
  function Columns(c: CatCan): (r: seq<string>)
    ensures |r| == ColumnCount
  {
    [c.brand, c.name, c.flaver, c.weightG, c.kcal, c.protein, c.fat, c.fiber,
     c.ash, c.moisture, c.ca, c.p, c.taurine, c.made]
  }

  /** `value || "-"`: an empty cell is shown as "-". */
  function OrDash(s: string): (r: string)
    ensures r != []
    ensures r == "-" <==> s == [] || s == "-"
  {
    if s == [] then "-" else s
  }

  /** Both the weight and the moisture percentage are positive numbers. */
  predicate HasMoistureInputs(js: Js, weight: string, moisture: string) {
    NumberOrZero(js, weight) > 0.0 && NumberOrZero(js, moisture) > 0.0
  }

  /** `moisture% * weight / 100`, one decimal, or "-" (src/App.tsx:119-126). */
  function MoistureContent(js: Js, weight: string, moisture: string): string {
    if HasMoistureInputs(js, weight, moisture)
    then js.toFixed(NumberOrZero(js, moisture) * NumberOrZero(js, weight) / 100.0, 1)
    else "-"
  }

  /** The record built from the fields of one data row (src/App.tsx:119-145). */
  function RecordOf(js: Js, values: seq<string>): CatCan
    requires |values| >= ColumnCount
  {
    CatCan(
      made := OrDash(values[13]),
      brand := OrDash(values[0]),
      name := OrDash(values[1]),
      flaver := OrDash(values[2]),
      weightG := OrDash(values[3]),
      kcal := OrDash(values[4]),
      protein := OrDash(values[5]),
      fat := OrDash(values[6]),
      fiber := OrDash(values[7]),
      ash := OrDash(values[8]),
      moisture := OrDash(values[9]),
      moistureContent := MoistureContent(js, values[3], values[9]),
      ca := OrDash(values[10]),
      p := OrDash(values[11]),
      taurine := OrDash(values[12]),
      taurineContent := OrDash(values[12]))
  }

  /**
   * Each CSV column lands in its own field, an empty cell as "-"; the taurine amount
   * repeats the concentration; the moisture content is derived only from a positive
   * weight and a positive moisture percentage.
   */
  lemma RecordColumns(js: Js, values: seq<string>)
    requires |values| >= ColumnCount
    ensures forall k :: 0 <= k < ColumnCount ==> Columns(RecordOf(js, values))[k] == OrDash(values[k])
  {
  }

  /** No cell of a record is empty. */
  lemma RecordHasNoEmptyCell(js: Js, values: seq<string>)
    requires |values| >= ColumnCount
    ensures forall k :: 0 <= k < ColumnCount ==> Columns(RecordOf(js, values))[k] != []
  {
  }

  /** The derived fields: taurine amount and moisture content. */
  lemma RecordDerivedFields(js: Js, values: seq<string>)
    requires |values| >= ColumnCount
    ensures RecordOf(js, values).taurineContent == RecordOf(js, values).taurine
    ensures !HasMoistureInputs(js, values[3], values[9]) ==> RecordOf(js, values).moistureContent == "-"
    ensures HasMoistureInputs(js, values[3], values[9]) ==>
              RecordOf(js, values).moistureContent == js.toFixed(NumberOrZero(js, values[9]) * NumberOrZero(js, values[3]) / 100.0, 1)
  {
  }

  /** A row without empty cells is read back unchanged: the columns round-trip. */
  lemma {:induction false} FullRowRoundTrip(js: Js, values: seq<string>)
    requires |values| >= ColumnCount
    requires forall k :: 0 <= k < ColumnCount ==> values[k] != []
    ensures Columns(RecordOf(js, values)) == values[..ColumnCount]
  {
    var c := Columns(RecordOf(js, values));
    RecordColumns(js, values);
    forall k | 0 <= k < ColumnCount
      ensures c[k] == values[..ColumnCount][k]
    {
      assert c[k] == OrDash(values[k]);
    }
  }

  /** The fields of every line, each parsed on its own. */
  function ParsedRows(lines: seq<string>): (r: seq<seq<string>>)
    ensures |r| == |lines|
    ensures forall i :: 0 <= i < |lines| ==> r[i] == ParsedFields(lines[i])
  {
    seq(|lines|, i requires 0 <= i < |lines| => ParsedFields(lines[i]))
  }

  lemma ParsedRowsAppend(lines: seq<string>, line: string)
    ensures ParsedRows(lines + [line]) == ParsedRows(lines) + [ParsedFields(line)]
  {
    var a := ParsedRows(lines + [line]);
    var b := ParsedRows(lines) + [ParsedFields(line)];
    assert |a| == |b|;
    forall i | 0 <= i < |a| ensures a[i] == b[i] {
      if i < |lines| {
        assert (lines + [line])[i] == lines[i];
        assert a[i] == ParsedFields(lines[i]) == b[i];
      } else {
        assert (lines + [line])[i] == line;
        assert a[i] == ParsedFields(line) == b[i];
      }
    }
  }

  /** The row has every column a record needs. */
  predicate HasAllColumns(fields: seq<string>) {
    |fields| >= ColumnCount
  }

  /** The records of the parsed data rows `rows`, in order, short rows skipped. */
  function RowsOf(js: Js, rows: seq<seq<string>>): (r: seq<CatCan>)
    ensures |r| <= |rows|
  {
    if rows == [] then []
    else (if HasAllColumns(rows[0]) then [RecordOf(js, rows[0])] else []) + RowsOf(js, rows[1..])
  }

  lemma {:induction false} RowsOfAppend(js: Js, rows: seq<seq<string>>, fields: seq<string>)
    ensures RowsOf(js, rows + [fields]) == RowsOf(js, rows) + RowsOf(js, [fields])
  {
    if rows == [] {
      assert rows + [fields] == [fields];
    } else {
      assert (rows + [fields])[1..] == rows[1..] + [fields];
      RowsOfAppend(js, rows[1..], fields);
    }
  }

  /**
   * The records are, one for one and in order, the rows that have all fourteen
   * columns: filter the rows, then build a record from each.
   */
  lemma {:induction false} RowsOfIsFilterThenBuild(js: Js, rows: seq<seq<string>>)
    ensures |RowsOf(js, rows)| == |Filter(rows, HasAllColumns)|
    ensures forall i :: 0 <= i < |RowsOf(js, rows)| ==>
              HasAllColumns(Filter(rows, HasAllColumns)[i]) &&
              RowsOf(js, rows)[i] == RecordOf(js, Filter(rows, HasAllColumns)[i])
  {
    if rows != [] {
      RowsOfIsFilterThenBuild(js, rows[1..]);
      var f := Filter(rows[1..], HasAllColumns);
      var t := RowsOf(js, rows[1..]);
      if HasAllColumns(rows[0]) {
        assert Filter(rows, HasAllColumns) == [rows[0]] + f;
        assert RowsOf(js, rows) == [RecordOf(js, rows[0])] + t;
        forall i | 0 < i < |RowsOf(js, rows)|
          ensures HasAllColumns(Filter(rows, HasAllColumns)[i]) &&
                  RowsOf(js, rows)[i] == RecordOf(js, Filter(rows, HasAllColumns)[i])
        {
          assert RowsOf(js, rows)[i] == t[i - 1];
          assert Filter(rows, HasAllColumns)[i] == f[i - 1];
        }
      } else {
        assert Filter(rows, HasAllColumns) == f;
        assert RowsOf(js, rows) == t;
      }
    }
  }

  /** The text's lines: `text.trim().split("\n")`. */
  function Lines(text: string): (r: seq<string>)
    ensures |r| >= 1
  {
    Split(Trim(text), '\n')
  }

  /**
   * What loading `text` yields: `None` when there is no data row (the state is left
   * alone), otherwise the records of every line after the header.
   */
  function LoadedRecords(js: Js, text: string): Option<seq<CatCan>> {
    var lines := Lines(text);
    if |lines| <= 1 then None else Some(RowsOf(js, ParsedRows(lines[1..])))
  }

  /** Text that is only white space has no data rows. */
  lemma {:induction false} BlankTextLoadsNothing(js: Js, text: string)
    requires AllSpace(text)
    ensures LoadedRecords(js, text) == None
  {
    assert Trim(text) == [];
  }

  /** Appending a row appends its record, if it has one. */
  lemma RowsOfSnoc(js: Js, rows: seq<seq<string>>, fields: seq<string>)
    ensures RowsOf(js, rows + [fields]) ==
            RowsOf(js, rows) + (if HasAllColumns(fields) then [RecordOf(js, fields)] else [])
  {
    RowsOfAppend(js, rows, fields);
    assert [fields][1..] == [];
  }

  lemma ParsedRowsStep(lines: seq<string>, i: int)
    requires 1 <= i < |lines|
    ensures ParsedRows(lines[1..i + 1]) == ParsedRows(lines[1..i]) + [ParsedFields(lines[i])]
  {
    assert lines[1..i + 1] == lines[1..i] + [lines[i]];
    ParsedRowsAppend(lines[1..i], lines[i]);
  }

  lemma RowsStep(js: Js, lines: seq<string>, i: int, values: seq<string>)
    requires 1 <= i < |lines| && values == ParsedFields(lines[i])
    ensures RowsOf(js, ParsedRows(lines[1..i + 1])) ==
            RowsOf(js, ParsedRows(lines[1..i])) + (if HasAllColumns(values) then [RecordOf(js, values)] else [])
  {
    ParsedRowsStep(lines, i);
    RowsOfSnoc(js, ParsedRows(lines[1..i]), values);
  }

  /** The loop of src/App.tsx:110-147 over the lines after the header. */
  method BuildCatCans(js: Js, lines: seq<string>) returns (data: seq<CatCan>)
    requires |lines| > 1
    ensures data == RowsOf(js, ParsedRows(lines[1..]))
  {
    data := [];
    for i := 1 to |lines|
      invariant data == RowsOf(js, ParsedRows(lines[1..i]))
    {
      var values := ParseCsvLine(lines[i]);
      RowsStep(js, lines, i, values);
      if |values| < ColumnCount {
        continue;
      }
      data := data + [RecordOf(js, values)];
    }
    assert lines[1..|lines|] == lines[1..];
  }
}
