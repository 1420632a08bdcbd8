/**
 * The CSV attendee importer. The CSV parser itself is outside the model: its
 * outcome (reported problems, header fields and rows of column-to-text maps,
 * or a failure message) arrives as a `ParseOutcome`. What is modelled is the
 * file-type guard, the column check, the per-row validation chain with its
 * error list, the result record and the import guard.
 */
module BulkImport {
  import opened Options
  import opened JsStrings
  import opened JsNumbers
  import opened Seqs

  /** One parsed CSV row: header name to cell text; a short row lacks keys. */
  type Row = map<string, string>

  const RequiredColumns: seq<string> := ["Full Name", "Email", "Phone Number", "Ticket Count", "Ticket Type"]

  datatype Code =
    | MissingColumns
    | MissingValue
    | InvalidEmail
    | InvalidTicketCount
    | InvalidTicketType
    | ParseError
      /** A code the CSV parser reported, passed through unchanged. */
    | Reported(name: string)

  /** An entry of the `errors` list; `row` is absent for whole-file errors. */
  datatype ImportError = ImportError(row: Option<int>, message: string, code: Code)

  datatype TicketType = TicketType(name: string)

  datatype ParsedData = ParsedData(validRows: seq<Row>, totalRows: nat)

  /** A problem the CSV parser reports about the file. */
  datatype ParserIssue = ParserIssue(row: Option<int>, message: string, code: string)

  /** What the parser hands back: its `complete` callback or its `error` callback. */
  datatype ParseOutcome =
    | Completed(issues: seq<ParserIssue>, fields: seq<string>, data: seq<Row>)
    | Failed(message: string)

  datatype SelectedFile = SelectedFile(name: string, mimeType: string)

  /** Why one row was refused. */
  datatype Problem = Problem(code: Code, message: string)

  /** `!row[col] || row[col].trim() === ''`: the cell is absent, empty or white space. */
  predicate Missing(row: Row, col: string) {
    col !in row || IsBlank(row[col])
  }

  /** The columns the header lacks, in the order of `RequiredColumns`. */
  function MissingColumnsOf(fields: seq<string>): (r: seq<string>)
    ensures forall c :: c in r <==> c in RequiredColumns && c !in fields
    ensures Subseq(r, RequiredColumns)
  {
    FilterSubseq(RequiredColumns, c => c !in fields);
    Filter(RequiredColumns, c => c !in fields)
  }

  /** The first of `cols` whose cell is missing in `row`. */
  function FirstMissing(row: Row, cols: seq<string>): (r: Option<string>)
    ensures r.None? <==> forall j | 0 <= j < |cols| :: !Missing(row, cols[j])
    ensures r.Some? ==> r.value in cols && Missing(row, r.value)
  {
    if cols == [] then None
    else if Missing(row, cols[0]) then Some(cols[0])
    else FirstMissing(row, cols[1..])
  }

  /** The column at `k` is the one reported when it is the first missing one. */
  lemma {:induction false} FirstMissingAt(row: Row, cols: seq<string>, k: nat)
    requires k < |cols| && Missing(row, cols[k])
    requires forall j | 0 <= j < k :: !Missing(row, cols[j])
    ensures FirstMissing(row, cols) == Some(cols[k])
  {
    if k > 0 {
      FirstMissingAt(row, cols[1..], k - 1);
    }
  }

  /** `parseInt(count)` is a number greater than 0. */
  predicate TicketCountAccepted(count: string) {
    var n := ParseInt(count);
    n.Some? && n.value > 0
  }

  /** Some known ticket type has this name, compared after `toLowerCase` on both sides. */
  predicate TicketTypeKnown(name: string, types: seq<TicketType>) {
    exists i | 0 <= i < |types| :: ToLower(types[i].name) == ToLower(name)
  }

  /** `row[col]` once the column check has passed; an absent cell reads as empty text. */
  function Cell(row: Row, col: string): string {
    if col in row then row[col] else ""
  }

  /**
   * The validation chain for one row, stopping at the first failure: a
   * missing cell (the first such column in `RequiredColumns` order), then the
   * checks on the filled cells.
   */
  function RowProblem(row: Row, types: seq<TicketType>): Option<Problem> {
    match FirstMissing(row, RequiredColumns)
    case Some(col) => Some(Problem(MissingValue, "Missing value for " + col))
    case None => CellProblem(row, types)
  }

  /** The checks on a row whose cells are all filled: email shape, then ticket count, then ticket type. */
  function CellProblem(row: Row, types: seq<TicketType>): Option<Problem> {
    if !IsEmail(Cell(row, "Email")) then
      Some(Problem(InvalidEmail, "Invalid email format: " + Cell(row, "Email")))
    else if !TicketCountAccepted(Cell(row, "Ticket Count")) then
      Some(Problem(InvalidTicketCount, "Invalid ticket count: " + Cell(row, "Ticket Count")))
    else if !TicketTypeKnown(Cell(row, "Ticket Type"), types) then
      Some(Problem(InvalidTicketType, "Invalid ticket type: " + Cell(row, "Ticket Type")))
    else None
  }

  /**
   * The code of a refused row is that of the first failing check: a missing
   * cell in any required column, else an email the pattern
   * `^[^\s@]+@[^\s@]+\.[^\s@]+$` rejects, else a ticket count that is not a
   * positive `parseInt`, else an unknown ticket type; a row passing all four
   * is accepted.
   */
  lemma RowProblemChain(row: Row, types: seq<TicketType>)
    ensures RowProblem(row, types).Some? && RowProblem(row, types).value.code == MissingValue
        <==> exists j | 0 <= j < |RequiredColumns| :: Missing(row, RequiredColumns[j])
    ensures RowProblem(row, types).Some? && RowProblem(row, types).value.code == InvalidEmail
        <==> FirstMissing(row, RequiredColumns).None? && !EmailMatches(Cell(row, "Email"))
    ensures RowProblem(row, types).Some? && RowProblem(row, types).value.code == InvalidTicketCount
        <==> FirstMissing(row, RequiredColumns).None? && EmailMatches(Cell(row, "Email"))
             && !TicketCountAccepted(Cell(row, "Ticket Count"))
    ensures RowProblem(row, types).Some? && RowProblem(row, types).value.code == InvalidTicketType
        <==> FirstMissing(row, RequiredColumns).None? && EmailMatches(Cell(row, "Email"))
             && TicketCountAccepted(Cell(row, "Ticket Count")) && !TicketTypeKnown(Cell(row, "Ticket Type"), types)
    ensures RowProblem(row, types).None?
        <==> FirstMissing(row, RequiredColumns).None? && EmailMatches(Cell(row, "Email"))
             && TicketCountAccepted(Cell(row, "Ticket Count")) && TicketTypeKnown(Cell(row, "Ticket Type"), types)
  {
    IsEmailIffMatches(Cell(row, "Email"));
  }

  /** The filter's callback with its loop over the required columns. */
  method CheckRow(row: Row, types: seq<TicketType>) returns (problem: Option<Problem>)
    ensures problem == RowProblem(row, types)
  {
    for k := 0 to |RequiredColumns|
      invariant forall j | 0 <= j < k :: !Missing(row, RequiredColumns[j])
    {
      var col := RequiredColumns[k];
      if col !in row || row[col] == [] || IsBlank(row[col]) {
        FirstMissingAt(row, RequiredColumns, k);
        return Some(Problem(MissingValue, "Missing value for " + col));
      }
    }
    return CellProblem(row, types);
  }

  /** A row check: why a row is refused, or `None` when it is kept. */
  type Check = Row -> Option<Problem>

  /** The filter's callback with the known ticket types fixed. */
  function Checker(types: seq<TicketType>): Check {
    row => RowProblem(row, types)
  }

  /** The rows that pass the chain, in input order. */
  function ValidRowsOf(data: seq<Row>, check: Check): seq<Row> {
    Filter(data, row => check(row).None?)
  }

  /** The error a row at 1-based position `number` contributes: one if refused, none if accepted. */
  function RowErrors(row: Row, number: nat, check: Check): seq<ImportError> {
    match check(row)
    case None => []
    case Some(p) => [ImportError(Some(number), p.message, p.code)]
  }

  /** The errors of all rows, in row order. */
  function ErrorsOf(data: seq<Row>, check: Check): seq<ImportError> {
    if data == [] then []
    else ErrorsOf(data[..|data| - 1], check) + RowErrors(data[|data| - 1], |data|, check)
  }

  /** One more row extends the kept rows and the errors by that row's outcome. */
  lemma ValidateStep(data: seq<Row>, check: Check, index: nat)
    requires index < |data|
    ensures ValidRowsOf(data[..index + 1], check)
         == ValidRowsOf(data[..index], check) + (if check(data[index]).None? then [data[index]] else [])
    ensures ErrorsOf(data[..index + 1], check) == ErrorsOf(data[..index], check) + RowErrors(data[index], index + 1, check)
  {
    var row := data[index];
    assert data[..index + 1] == data[..index] + [row];
    FilterAppend(data[..index], [row], r => check(r).None?);
    FilterSingleton(row, r => check(r).None?);
    ErrorsOfSnoc(data[..index + 1], check);
  }

  lemma ErrorsOfSnoc(data: seq<Row>, check: Check)
    requires data != []
    ensures ErrorsOf(data, check) == ErrorsOf(data[..|data| - 1], check) + RowErrors(data[|data| - 1], |data|, check)
  {
  }

  /**
   * The row filter: each row is kept or yields exactly one error pushed onto
   * `validationErrors`, numbered from 1.
   */
  method ValidateRows(data: seq<Row>, types: seq<TicketType>) returns (valid: seq<Row>, errors: seq<ImportError>)
    ensures valid == ValidRowsOf(data, Checker(types))
    ensures errors == ErrorsOf(data, Checker(types))
  {
    valid, errors := [], [];
    var index := 0;
    while index < |data|
      invariant 0 <= index <= |data|
      invariant valid == ValidRowsOf(data[..index], Checker(types))
      invariant errors == ErrorsOf(data[..index], Checker(types))
    {
      var row := data[index];
      ValidateStep(data, Checker(types), index);
      var problem := CheckRow(row, types);
      match problem {
        case Some(p) =>
          errors := errors + [ImportError(Some(index + 1), p.message, p.code)];
        case None =>
          valid := valid + [row];
      }
      index := index + 1;
    }
    assert data[..index] == data;
  }

  /** Every row is either kept or reported, never both and never neither. */
  lemma {:induction false} RowsAccountedFor(data: seq<Row>, check: Check)
    ensures |ValidRowsOf(data, check)| + |ErrorsOf(data, check)| == |data|
  {
    if data != [] {
      var init, last := data[..|data| - 1], data[|data| - 1];
      RowsAccountedFor(init, check);
      FilterAppend(init, [last], row => check(row).None?);
      assert init + [last] == data;
    }
  }

  /**
   * Each error names a row by its 1-based position, that row was refused with
   * that code, and errors appear in increasing row order.
   */
  lemma {:induction false} ErrorsDescribeRows(data: seq<Row>, check: Check)
    ensures forall k | 0 <= k < |ErrorsOf(data, check)| ::
      var e := ErrorsOf(data, check)[k];
      e.row.Some? && 1 <= e.row.value <= |data|
      && check(data[e.row.value - 1]) == Some(Problem(e.code, e.message))
    ensures forall k, m | 0 <= k < m < |ErrorsOf(data, check)| ::
      ErrorsOf(data, check)[k].row.value < ErrorsOf(data, check)[m].row.value
  {
    if data != [] {
      var init, last := data[..|data| - 1], data[|data| - 1];
      ErrorsDescribeRows(init, check);
      ErrorsOfSnoc(data, check);
      var all, before, added := ErrorsOf(data, check), ErrorsOf(init, check), RowErrors(last, |data|, check);
      assert all == before + added;
      forall k | 0 <= k < |all|
        ensures all[k].row.Some? && 1 <= all[k].row.value <= |data|
        ensures check(data[all[k].row.value - 1]) == Some(Problem(all[k].code, all[k].message))
        ensures k >= |before| ==> all[k].row.value == |data|
      {
        if k < |before| {
          assert all[k] == before[k];
          assert init[before[k].row.value - 1] == data[before[k].row.value - 1];
        } else {
          assert all[k] == added[k - |before|];
        }
      }
    }
  }

  /** Every refused row has its error in the list. */
  lemma {:induction false} RefusedRowsReported(data: seq<Row>, check: Check, i: nat)
    requires i < |data| && check(data[i]).Some?
    ensures exists k | 0 <= k < |ErrorsOf(data, check)| :: ErrorsOf(data, check)[k].row == Some(i + 1)
  {
    var init := data[..|data| - 1];
    if i == |data| - 1 {
      assert ErrorsOf(data, check)[|ErrorsOf(init, check)|].row == Some(i + 1);
    } else {
      assert init[i] == data[i];
      RefusedRowsReported(init, check, i);
      var k :| 0 <= k < |ErrorsOf(init, check)| && ErrorsOf(init, check)[k].row == Some(i + 1);
      assert ErrorsOf(data, check)[k] == ErrorsOf(init, check)[k];
    }
  }

  /** The kept rows appear in the data, and exactly the accepted ones do. */
  lemma ValidRowsAreAccepted(data: seq<Row>, check: Check)
    ensures forall row :: row in ValidRowsOf(data, check) <==> row in data && check(row).None?
  {
  }

  /** A count of plain decimal digits is accepted exactly when one of its digits is not `0`: "0" and "000" are refused. */
  lemma TicketCountOfDigits(count: string)
    requires count != [] && AllDigits(count, 10)
    ensures TicketCountAccepted(count) <==> exists i | 0 <= i < |count| :: count[i] != '0'
  {
    ParseIntOfDigits(count);
    ValuePositiveIff(count, 10);
  }

  /** A count that starts with a minus sign is always refused. */
  lemma TicketCountNegativeRefused(s: string)
    ensures !TicketCountAccepted("-" + s)
  {
    ParseIntNegativeSign(s);
  }

  /** A count with no decimal digit, such as "abc", parses to `NaN` and is refused. */
  lemma TicketCountWordRefused(count: string)
    requires NoDecimalDigit(count)
    ensures !TicketCountAccepted(count)
  {
    ParseIntOfWord(count);
  }

  /** A `0x`-prefixed count is read in hexadecimal: "0x5" and "0xA" are accepted, "0x0" is not. */
  lemma TicketCountHex(ds: string)
    requires ds != [] && AllDigits(ds, 16)
    ensures TicketCountAccepted("0x" + ds) <==> exists i | 0 <= i < |ds| :: ds[i] != '0'
  {
    ParseIntHex(ds);
    ValuePositiveIff(ds, 16);
  }

  /** The type match ignores letter case on both sides. */
  lemma TicketTypeCaseInsensitive(name: string, types: seq<TicketType>)
    ensures TicketTypeKnown(ToLower(name), types) <==> TicketTypeKnown(name, types)
  {
    ToLowerIdempotent(name);
  }

  /** The whole-file errors and the result record of the parser's `complete` callback. */
  datatype Completion = Completion(errors: seq<ImportError>, parsed: Option<ParsedData>)

  /**
   * What the `complete` callback settles on: parser problems become the error
   * list, else a header lacking required columns gives one error naming them
   * all, else the row filter runs and produces the result record.
   */
  function CompletionOf(issues: seq<ParserIssue>, fields: seq<string>, data: seq<Row>, types: seq<TicketType>): Completion {
    if issues != [] then
      Completion(seq(|issues|, k requires 0 <= k < |issues| =>
        ImportError(issues[k].row, issues[k].message, Reported(issues[k].code))), None)
    else if MissingColumnsOf(fields) != [] then
      Completion([ImportError(None, "Missing required columns: " + Join(MissingColumnsOf(fields), ", "), MissingColumns)], None)
    else Completion(ErrorsOf(data, Checker(types)), Some(ParsedData(ValidRowsOf(data, Checker(types)), |data|)))
  }

  /**
   * A result record appears exactly when the parser reported nothing and the
   * header has every required column; then each data row is counted once,
   * either kept or in the error list. Otherwise the errors describe the file:
   * one per parser problem, or a single missing-columns error.
   */
  lemma CompletionAccounting(issues: seq<ParserIssue>, fields: seq<string>, data: seq<Row>, types: seq<TicketType>)
    ensures var c := CompletionOf(issues, fields, data, types);
      (c.parsed.Some? <==> issues == [] && forall j | 0 <= j < |RequiredColumns| :: RequiredColumns[j] in fields)
      && (c.parsed.Some? ==> |c.parsed.value.validRows| + |c.errors| == c.parsed.value.totalRows == |data|)
      && (issues != [] ==> |c.errors| == |issues| && forall e | e in c.errors :: e.code.Reported?)
      && (issues == [] && c.parsed.None? ==> |c.errors| == 1 && c.errors[0].code == MissingColumns)
      && (issues == [] && c.parsed.None? ==>
            c.errors[0].message == "Missing required columns: " + Join(MissingColumnsOf(fields), ", "))
  {
    var missing := MissingColumnsOf(fields);
    if issues == [] && missing == [] {
      RowsAccountedFor(data, Checker(types));
    }
    if exists j | 0 <= j < |RequiredColumns| :: RequiredColumns[j] !in fields {
      var j :| 0 <= j < |RequiredColumns| && RequiredColumns[j] !in fields;
      assert RequiredColumns[j] in missing;
    }
  }

  /** The parser's `complete` callback: parser problems, then the column check, then the row filter. */
  method Complete(issues: seq<ParserIssue>, fields: seq<string>, data: seq<Row>, types: seq<TicketType>)
    returns (c: Completion)
    ensures c == CompletionOf(issues, fields, data, types)
  {
    if issues != [] {
      var errors := seq(|issues|, k requires 0 <= k < |issues| =>
        ImportError(issues[k].row, issues[k].message, Reported(issues[k].code)));
      return Completion(errors, None);
    }
    var missing := MissingColumnsOf(fields);
    if missing != [] {
      return Completion([ImportError(None, "Missing required columns: " + Join(missing, ", "), MissingColumns)], None);
    }
    var valid, errors := ValidateRows(data, types);
    return Completion(errors, Some(ParsedData(valid, |data|)));
  }

  /** The importer's state: the chosen file, the parse result and the error list. */
  class Importer {
    var file: Option<SelectedFile>
    var parsedData: Option<ParsedData>
    var errors: seq<ImportError>
    /** The known ticket types, a property of the component. */
    const ticketTypes: seq<TicketType>

    constructor(ticketTypes: seq<TicketType>)
      ensures file == None && parsedData == None && errors == [] && this.ticketTypes == ticketTypes
    {
      this.ticketTypes := ticketTypes;
      file, parsedData, errors := None, None, [];
    }

    /**
     * A file was chosen. Nothing happens without a file or when its type is
     * not exactly `text/csv`; otherwise the file is kept, the errors are
     * cleared and the parser's outcome is applied. A failed or problematic
     * parse leaves the earlier `parsedData` in place.
     */
    method HandleFileChange(selected: Option<SelectedFile>, outcome: ParseOutcome)
      modifies this
      ensures selected.None? || selected.value.mimeType != "text/csv" ==>
        file == old(file) && parsedData == old(parsedData) && errors == old(errors)
      ensures selected.Some? && selected.value.mimeType == "text/csv" ==> file == selected
      ensures selected.Some? && selected.value.mimeType == "text/csv" && outcome.Failed? ==>
        parsedData == old(parsedData)
        && errors == [ImportError(None, "Error parsing CSV: " + outcome.message, ParseError)]
      ensures selected.Some? && selected.value.mimeType == "text/csv" && outcome.Completed? ==>
        var c := CompletionOf(outcome.issues, outcome.fields, outcome.data, ticketTypes);
        errors == c.errors && parsedData == (if c.parsed.Some? then c.parsed else old(parsedData))
    {
      if selected.None? {
        return;
      }
      if selected.value.mimeType != "text/csv" {
        return;
      }
      file := selected;
      errors := [];
      match outcome {
        case Failed(message) =>
          errors := [ImportError(None, "Error parsing CSV: " + message, ParseError)];
        case Completed(issues, fields, data) =>
          var c := Complete(issues, fields, data, ticketTypes);
          errors := c.errors;
          if c.parsed.Some? {
            parsedData := c.parsed;
          }
      }
    }

    /**
     * The import button: refused without a parse result or with no valid rows;
     * otherwise the valid rows are handed to the `onImportComplete` callback.
     * When the callback returns, the form is reset; when it throws
     * (`callbackThrows`), the catch block runs instead and the file, the
     * parse result and the errors stay as they were.
     */
    method HandleImport(callbackThrows: bool) returns (imported: Option<seq<Row>>)
      modifies this
      ensures old(parsedData).None? || old(parsedData).value.validRows == [] ==>
        imported == None && file == old(file) && parsedData == old(parsedData) && errors == old(errors)
      ensures old(parsedData).Some? && old(parsedData).value.validRows != [] ==>
        imported == Some(old(parsedData).value.validRows)
      ensures old(parsedData).Some? && old(parsedData).value.validRows != [] && !callbackThrows ==>
        file == None && parsedData == None && errors == []
      ensures callbackThrows ==> file == old(file) && parsedData == old(parsedData) && errors == old(errors)
    {
      if parsedData.None? || parsedData.value.validRows == [] {
        return None;
      }
      imported := Some(parsedData.value.validRows);
      if !callbackThrows {
        file, parsedData, errors := None, None, [];
      }
    }
  }
}
