/**
 Validation of CSV records against an ordered table of regular expressions
 (lab_3/main.py): the header row is dropped, every remaining row is checked
 field by field, and the 0-based positions of the rows that fail are collected.
 */
module CsvValidator {

  /** `matches(pattern, field)` stands for `re.match(pattern, field)` returning a
      match object: the regular expression matches some prefix of `field`,
      starting at offset 0. The regular-expression language itself is not
      modelled; every result below holds for every matcher. */
  type Matcher = (string, string) -> bool

  /** One entry of the pattern dictionary: a column name and its regular expression.
      A dictionary is a sequence of these in key (insertion) order. */
  datatype Column = Column(name: string, regex: string)

  type Row = seq<string>

  function Min(a: int, b: int): int
  {
    if a <= b then a else b
  }

  /** `zip(pattern.keys(), row)`, with each key already looked up in the
      dictionary: it pairs position i of both and stops at the shorter one. */
  function Zip(columns: seq<Column>, row: Row): (pairs: seq<(string, string)>)
    ensures |pairs| == Min(|columns|, |row|)
    ensures forall i :: 0 <= i < |pairs| ==> pairs[i] == (columns[i].regex, row[i])
  {
    if columns == [] || row == [] then []
    else [(columns[0].regex, row[0])] + Zip(columns[1..], row[1..])
  }

  /** `all(re.match(p, d) for p, d in pairs)`; `AllMatchIff` states what it means. */
  function AllMatch(matches: Matcher, pairs: seq<(string, string)>): bool
  {
    if pairs == [] then true
    else matches(pairs[0].0, pairs[0].1) && AllMatch(matches, pairs[1..])
  }

  /** `all` holds exactly when every pair's pattern matches its field. */
  lemma {:induction false} AllMatchIff(matches: Matcher, pairs: seq<(string, string)>)
    ensures AllMatch(matches, pairs) <==>
            forall i :: 0 <= i < |pairs| ==> matches(pairs[i].0, pairs[i].1)
  {
    if pairs != [] {
      AllMatchIff(matches, pairs[1..]);
      assert forall i :: 1 <= i < |pairs| ==> pairs[i] == pairs[1..][i - 1];
    }
  }

  /** Reference reading of a valid row: the field at every position that both
      the row and the pattern table have matches that position's pattern. */
  ghost predicate EveryPairedFieldMatches(matches: Matcher, columns: seq<Column>, row: Row)
  {
    forall i :: 0 <= i < Min(|columns|, |row|) ==> matches(columns[i].regex, row[i])
  }

  /** `is_valid(pattern, row)`: a row with no fields, or checked against no
      patterns, is valid; otherwise a valid row's first field matches the
      first pattern. `IsValidIff` gives the whole characterisation. */
  function IsValid(matches: Matcher, columns: seq<Column>, row: Row): (valid: bool)
    ensures Min(|columns|, |row|) == 0 ==> valid
    ensures valid && Min(|columns|, |row|) > 0 ==> matches(columns[0].regex, row[0])
  {
    AllMatch(matches, Zip(columns, row))
  }

  /** A row is valid exactly when every field at a position below
      min(len(row), len(patterns)) matches the pattern at that position. */
  lemma IsValidIff(matches: Matcher, columns: seq<Column>, row: Row)
    ensures IsValid(matches, columns, row) <==> EveryPairedFieldMatches(matches, columns, row)
  {
    AllMatchIff(matches, Zip(columns, row));
  }

  /** Because of `zip`, a row is judged only on the positions both sides share:
      extra fields and missing trailing fields are never checked, and a row
      with no fields (or a table with no patterns) is valid. */
  lemma ZipTruncation(matches: Matcher, columns: seq<Column>, row: Row)
    ensures IsValid(matches, columns, row) ==
            IsValid(matches, columns[..Min(|columns|, |row|)], row[..Min(|columns|, |row|)])
    ensures IsValid(matches, columns, []) && IsValid(matches, [], row)
  {
    var n := Min(|columns|, |row|);
    IsValidIff(matches, columns, row);
    IsValidIff(matches, columns[..n], row[..n]);
    assert EveryPairedFieldMatches(matches, columns, row) <==>
           EveryPairedFieldMatches(matches, columns[..n], row[..n]);
  }

  /** Truncating a valid row keeps it valid: a row cut short is accepted as
      long as the fields it still has match. */
  lemma TruncatedRowStaysValid(matches: Matcher, columns: seq<Column>, row: Row, k: nat)
    requires IsValid(matches, columns, row)
    requires k <= |row|
    ensures IsValid(matches, columns, row[..k])
  {
    IsValidIff(matches, columns, row);
    IsValidIff(matches, columns, row[..k]);
  }

  /** `[i for i, row in enumerate(data, start) if not is_valid(pattern, row)]` */
  function InvalidFrom(matches: Matcher, columns: seq<Column>, data: seq<Row>, start: nat): (indices: seq<nat>)
    ensures |indices| <= |data|
    ensures forall k :: 0 <= k < |indices| ==> start <= indices[k] < start + |data|
    ensures forall k, l :: 0 <= k < l < |indices| ==> indices[k] < indices[l]
    decreases |data|
  {
    if data == [] then []
    else
      (if IsValid(matches, columns, data[0]) then [] else [start])
      + InvalidFrom(matches, columns, data[1..], start + 1)
  }

  /** `find_invalid_indices(pattern, data)`: the result is strictly increasing
      (so free of duplicates), every element is a position of `data`, and no
      rows give no indices. */
  function FindInvalidIndices(matches: Matcher, columns: seq<Column>, data: seq<Row>): (indices: seq<nat>)
    ensures |indices| <= |data|
    ensures forall k :: 0 <= k < |indices| ==> indices[k] < |data|
    ensures forall k, l :: 0 <= k < l < |indices| ==> indices[k] < indices[l]
    ensures data == [] ==> indices == []
  {
    InvalidFrom(matches, columns, data, 0)
  }

  lemma {:induction false} InvalidFromMembership(matches: Matcher, columns: seq<Column>, data: seq<Row>, start: nat, i: nat)
    ensures i in InvalidFrom(matches, columns, data, start) <==>
            start <= i < start + |data| && !IsValid(matches, columns, data[i - start])
    decreases |data|
  {
    if data != [] {
      var head := if IsValid(matches, columns, data[0]) then [] else [start];
      var tail := InvalidFrom(matches, columns, data[1..], start + 1);
      assert InvalidFrom(matches, columns, data, start) == head + tail;
      InvalidFromMembership(matches, columns, data[1..], start + 1, i);
      if start < i < start + |data| {
        assert data[1..][i - (start + 1)] == data[i - start];
        assert i !in head;
      }
    }
  }

  /** Soundness and completeness: `i` is reported exactly when it is a
      position of `data` whose row is invalid. */
  lemma FindInvalidIndicesExact(matches: Matcher, columns: seq<Column>, data: seq<Row>)
    ensures forall i: nat :: i in FindInvalidIndices(matches, columns, data) <==>
                             i < |data| && !IsValid(matches, columns, data[i])
  {
    forall i: nat
      ensures i in FindInvalidIndices(matches, columns, data) <==>
              i < |data| && !IsValid(matches, columns, data[i])
    {
      InvalidFromMembership(matches, columns, data, 0, i);
    }
  }

  lemma {:induction false} InvalidFromAppend(matches: Matcher, columns: seq<Column>, data: seq<Row>, row: Row, start: nat)
    ensures InvalidFrom(matches, columns, data + [row], start) ==
            InvalidFrom(matches, columns, data, start)
            + (if IsValid(matches, columns, row) then [] else [start + |data|])
    decreases |data|
  {
    if data == [] {
      assert data + [row] == [row];
      assert InvalidFrom(matches, columns, [row][1..], start + 1) == [];
    } else {
      var rest := data[1..];
      assert (data + [row])[0] == data[0];
      assert (data + [row])[1..] == rest + [row];
      InvalidFromAppend(matches, columns, rest, row, start + 1);
      var head := if IsValid(matches, columns, data[0]) then [] else [start];
      var last := if IsValid(matches, columns, row) then [] else [start + |data|];
      calc {
        InvalidFrom(matches, columns, data + [row], start);
        head + InvalidFrom(matches, columns, rest + [row], start + 1);
        head + (InvalidFrom(matches, columns, rest, start + 1) + last);
        (head + InvalidFrom(matches, columns, rest, start + 1)) + last;
        InvalidFrom(matches, columns, data, start) + last;
      }
    }
  }

  /** Growing the file by one row extends the result by that row's position
      when the row is invalid and leaves it as it was otherwise. */
  lemma FindInvalidIndicesAppend(matches: Matcher, columns: seq<Column>, data: seq<Row>, row: Row)
    ensures FindInvalidIndices(matches, columns, data + [row]) ==
            FindInvalidIndices(matches, columns, data)
            + (if IsValid(matches, columns, row) then [] else [|data|])
  {
    InvalidFromAppend(matches, columns, data, row, 0);
  }

  /** The `[1:]` slice of `csv_to_list`: the parsed rows without the header. */
  function DropHeader(rows: seq<Row>): (data: seq<Row>)
    ensures |data| == if rows == [] then 0 else |rows| - 1
    ensures forall i :: 0 <= i < |data| ==> data[i] == rows[i + 1]
    ensures rows != [] ==> [rows[0]] + data == rows
  {
    if rows == [] then [] else rows[1..]
  }

  /** Lines 50-52 of `main` without the I/O: the indices reported for a parsed
      file (header included). */
  function InvalidRowsOfFile(matches: Matcher, columns: seq<Column>, parsed: seq<Row>): (indices: seq<nat>)
    ensures forall k :: 0 <= k < |indices| ==> indices[k] + 1 < |parsed|
    ensures forall k, l :: 0 <= k < l < |indices| ==> indices[k] < indices[l]
    ensures |parsed| <= 1 ==> indices == []
  {
    FindInvalidIndices(matches, columns, DropHeader(parsed))
  }

  /** Index `i` is reported for a parsed file exactly when the file has a row
      `i + 1` (counting the header as row 0) and that row is invalid; a file
      holding only a header, or nothing, gives no indices. */
  lemma InvalidRowsOfFileExact(matches: Matcher, columns: seq<Column>, parsed: seq<Row>)
    ensures forall i: nat :: i in InvalidRowsOfFile(matches, columns, parsed) <==>
                             i + 1 < |parsed| && !IsValid(matches, columns, parsed[i + 1])
    ensures |parsed| <= 1 ==> InvalidRowsOfFile(matches, columns, parsed) == []
  {
    FindInvalidIndicesExact(matches, columns, DropHeader(parsed));
  }
}
