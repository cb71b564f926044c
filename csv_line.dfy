/**
 * `parseCSVLine` (src/App.tsx): one left-to-right scan with an "inside quotes" flag.
 * A double quote toggles the flag and is dropped; a comma outside quotes ends a field;
 * every field is trimmed. There is no escaping: every quote toggles.
 */
module CsvLine {
  import opened Text

  /** The untrimmed fields of `s`, scanned from the state `inQuotes`. */
  function RawFields(s: string, inQuotes: bool): (r: seq<string>)
    ensures |r| >= 1
  {
    if s == [] then [""]
    else if s[0] == '"' then RawFields(s[1..], !inQuotes)
    else if s[0] == ',' && !inQuotes then [""] + RawFields(s[1..], inQuotes)
    else
      var t := RawFields(s[1..], inQuotes);
      [[s[0]] + t[0]] + t[1..]
  }

  /** Each field trimmed, in order. */
  function TrimAll(fields: seq<string>): (r: seq<string>)
    ensures |r| == |fields|
  {
    if fields == [] then [] else TrimAll(fields[..|fields| - 1]) + [Trim(fields[|fields| - 1])]
  }

  lemma {:induction false} TrimAllAt(fields: seq<string>, i: int)
    requires 0 <= i < |fields|
    ensures TrimAll(fields)[i] == Trim(fields[i])
  {
    if i < |fields| - 1 { TrimAllAt(fields[..|fields| - 1], i); }
  }

  lemma TrimAllAppend(fields: seq<string>, last: string)
    ensures TrimAll(fields + [last]) == TrimAll(fields) + [Trim(last)]
  {
    assert (fields + [last])[..|fields|] == fields;
  }

  /** What `parseCSVLine(line)` returns. */
  function ParsedFields(line: string): seq<string> {
    TrimAll(RawFields(line, false))
  }

  /** The number of commas met while the quote flag is off. */
  function UnquotedCommas(s: string, inQuotes: bool): nat {
    if s == [] then 0
    else if s[0] == '"' then UnquotedCommas(s[1..], !inQuotes)
    else if s[0] == ',' && !inQuotes then 1 + UnquotedCommas(s[1..], inQuotes)
    else UnquotedCommas(s[1..], inQuotes)
  }

  /** Glue the field being scanned onto the first field of what remains. */
  function ContinueWith(current: string, rest: seq<string>): seq<string>
    requires |rest| >= 1
  {
    [current + rest[0]] + rest[1..]
  }

  lemma ContinueEmpty(r: seq<string>)
    requires |r| >= 1
    ensures ContinueWith("", r) == r
  {
    assert "" + r[0] == r[0];
    assert [r[0]] + r[1..] == r;
  }

  lemma ContinueLast(current: string, inQuotes: bool)
    ensures ContinueWith(current, RawFields([], inQuotes)) == [current]
  {
    assert current + "" == current;
  }

  /** Scanning a quote only flips the flag. */
  lemma ScanQuote(current: string, rest: string, inQuotes: bool)
    ensures ContinueWith(current, RawFields(['"'] + rest, inQuotes)) == ContinueWith(current, RawFields(rest, !inQuotes))
  {
    var s := ['"'] + rest;
    assert s[0] == '"' && s[1..] == rest;
  }

  /** Scanning a comma outside quotes closes the current field. */
  lemma ScanComma(current: string, rest: string)
    ensures ContinueWith(current, RawFields([','] + rest, false)) == [current] + RawFields(rest, false)
  {
    var s := [','] + rest;
    assert s[0] == ',' && s[1..] == rest;
    var r := RawFields(rest, false);
    assert RawFields(s, false) == [""] + r;
    assert ([""] + r)[0] == "" && ([""] + r)[1..] == r;
    assert current + "" == current;
  }

  /** Scanning any other character appends it to the current field. */
  lemma ScanOther(current: string, c: char, rest: string, inQuotes: bool)
    requires c != '"' && !(c == ',' && !inQuotes)
    ensures ContinueWith(current, RawFields([c] + rest, inQuotes)) == ContinueWith(current + [c], RawFields(rest, inQuotes))
  {
    var s := [c] + rest;
    assert s[0] == c && s[1..] == rest;
    var t := RawFields(rest, inQuotes);
    assert RawFields(s, inQuotes) == [[c] + t[0]] + t[1..];
    assert current + ([c] + t[0]) == (current + [c]) + t[0];
  }

  /** The scan state after `i` characters: `done` closed fields, `current` open. */
  ghost predicate ScanInv(line: string, i: int, done: seq<string>, current: string, inQuotes: bool) {
    0 <= i <= |line| && RawFields(line, false) == done + ContinueWith(current, RawFields(line[i..], inQuotes))
  }

  lemma StepQuote(line: string, i: int, done: seq<string>, current: string, inQuotes: bool)
    requires ScanInv(line, i, done, current, inQuotes) && i < |line| && line[i] == '"'
    ensures ScanInv(line, i + 1, done, current, !inQuotes)
  {
    assert line[i..] == ['"'] + line[i + 1..];
    ScanQuote(current, line[i + 1..], inQuotes);
  }

  lemma StepComma(line: string, i: int, done: seq<string>, current: string)
    requires ScanInv(line, i, done, current, false) && i < |line| && line[i] == ','
    ensures ScanInv(line, i + 1, done + [current], "", false)
  {
    assert line[i..] == [','] + line[i + 1..];
    ScanComma(current, line[i + 1..]);
    ContinueEmpty(RawFields(line[i + 1..], false));
  }

  lemma StepOther(line: string, i: int, done: seq<string>, current: string, inQuotes: bool)
    requires ScanInv(line, i, done, current, inQuotes) && i < |line|
    requires line[i] != '"' && !(line[i] == ',' && !inQuotes)
    ensures ScanInv(line, i + 1, done, current + [line[i]], inQuotes)
  {
    assert line[i..] == [line[i]] + line[i + 1..];
    ScanOther(current, line[i], line[i + 1..], inQuotes);
  }

  lemma StepEnd(line: string, done: seq<string>, current: string, inQuotes: bool)
    requires ScanInv(line, |line|, done, current, inQuotes)
    ensures RawFields(line, false) == done + [current]
  {
    assert line[|line|..] == [];
    ContinueLast(current, inQuotes);
  }

  /** The scan of src/App.tsx:36-56, proved equal to `ParsedFields`. */
  method ParseCsvLine(line: string) returns (result: seq<string>)
    ensures result == ParsedFields(line)
    ensures |result| == 1 + UnquotedCommas(line, false)
    ensures forall i :: 0 <= i < |result| ==> '"' !in result[i] && IsTrimmed(result[i])
  {
    result := [];
    var current := "";
    var inQuotes := false;
    ghost var done: seq<string> := [];
    ContinueEmpty(RawFields(line, false));
    assert line[0..] == line;
    for i := 0 to |line|
      invariant result == TrimAll(done)
      invariant ScanInv(line, i, done, current, inQuotes)
    {
      var ch := line[i];
      if ch == '"' {
        StepQuote(line, i, done, current, inQuotes);
        inQuotes := !inQuotes;
      } else if ch == ',' && !inQuotes {
        StepComma(line, i, done, current);
        TrimAllAppend(done, current);
        result := result + [Trim(current)];
        done := done + [current];
        current := "";
      } else {
        StepOther(line, i, done, current, inQuotes);
        current := current + [ch];
      }
    }
    StepEnd(line, done, current, inQuotes);
    TrimAllAppend(done, current);
    result := result + [Trim(current)];
    done := done + [current];
    ParsedFieldsShape(line);
  }

  /** One field per comma outside quotes, plus one. */
  lemma {:induction false} FieldCount(s: string, inQuotes: bool)
    ensures |RawFields(s, inQuotes)| == 1 + UnquotedCommas(s, inQuotes)
  {
    if s != [] { FieldCount(s[1..], if s[0] == '"' then !inQuotes else inQuotes); }
  }

  /** Quotes are never kept. */
  lemma {:induction false} FieldsHaveNoQuote(s: string, inQuotes: bool)
    ensures forall i :: 0 <= i < |RawFields(s, inQuotes)| ==> '"' !in RawFields(s, inQuotes)[i]
  {
    if s != [] {
      FieldsHaveNoQuote(s[1..], if s[0] == '"' then !inQuotes else inQuotes);
    }
  }

  /** Every parsed field is trimmed and free of quotes; there is at least one field. */
  lemma ParsedFieldsShape(line: string)
    ensures |ParsedFields(line)| == 1 + UnquotedCommas(line, false)
    ensures forall i :: 0 <= i < |ParsedFields(line)| ==> '"' !in ParsedFields(line)[i] && IsTrimmed(ParsedFields(line)[i])
  {
    FieldCount(line, false);
    FieldsHaveNoQuote(line, false);
    var raw := RawFields(line, false);
    forall i | 0 <= i < |ParsedFields(line)|
      ensures '"' !in ParsedFields(line)[i] && IsTrimmed(ParsedFields(line)[i])
    {
      TrimAllAt(raw, i);
    }
  }

  /** Without quotes, the scan splits at every comma. */
  lemma {:induction false} QuoteFreeIsSplit(s: string)
    requires '"' !in s
    ensures RawFields(s, false) == Split(s, ',')
  {
    if s != [] { QuoteFreeIsSplit(s[1..]); }
  }

  /** Without quotes, every comma is met outside quotes. */
  lemma {:induction false} QuoteFreeCommas(s: string)
    requires '"' !in s
    ensures UnquotedCommas(s, false) == multiset(s)[',']
  {
    if s != [] {
      QuoteFreeCommas(s[1..]);
      assert s == [s[0]] + s[1..];
    }
  }

  /**
   * For a line without quotes, `parseCSVLine` is split on commas, then trim, and there
   * is one field more than the line has commas.
   */
  lemma QuoteFreeLine(line: string)
    requires '"' !in line
    ensures ParsedFields(line) == TrimAll(Split(line, ','))
    ensures |ParsedFields(line)| == 1 + multiset(line)[',']
  {
    QuoteFreeIsSplit(line);
    ParsedFieldsShape(line);
    QuoteFreeCommas(line);
  }

  lemma RawFieldsOther(c: char, rest: string, inQuotes: bool)
    requires c != '"' && !(c == ',' && !inQuotes)
    ensures RawFields([c] + rest, inQuotes) == ContinueWith([c], RawFields(rest, inQuotes))
  {
    var s := [c] + rest;
    assert s[0] == c && s[1..] == rest;
  }

  lemma ContinueTwice(a: string, b: string, r: seq<string>)
    requires |r| >= 1
    ensures ContinueWith(a, ContinueWith(b, r)) == ContinueWith(a + b, r)
  {
    assert a + (b + r[0]) == (a + b) + r[0];
  }

  /** Inside quotes everything but a quote, commas included, stays in the open field. */
  lemma {:induction false} InsideQuotes(q: string, rest: string)
    requires '"' !in q
    ensures RawFields(q + rest, true) == ContinueWith(q, RawFields(rest, true))
  {
    if q == [] {
      assert q + rest == rest;
      ContinueEmpty(RawFields(rest, true));
    } else {
      assert q + rest == [q[0]] + (q[1..] + rest);
      RawFieldsOther(q[0], q[1..] + rest, true);
      InsideQuotes(q[1..], rest);
      ContinueTwice([q[0]], q[1..], RawFields(rest, true));
      assert [q[0]] + q[1..] == q;
    }
  }

  /** A field wrapped in quotes is read whole: its commas do not split it. */
  lemma QuotedField(q: string, rest: string)
    requires '"' !in q
    ensures RawFields(['"'] + q + ['"'] + rest, false) == ContinueWith(q, RawFields(rest, false))
  {
    var s := ['"'] + q + ['"'] + rest;
    assert s[0] == '"' && s[1..] == q + (['"'] + rest);
    InsideQuotes(q, ['"'] + rest);
    var t := ['"'] + rest;
    assert t[0] == '"' && t[1..] == rest;
    assert RawFields(t, true) == RawFields(rest, false);
  }

  /** An empty line is one empty field. */
  lemma EmptyLine()
    ensures ParsedFields("") == [""]
  {
    assert IsTrimmed("");
    assert TrimAll([""]) == TrimAll([]) + [Trim("")];
  }
}
