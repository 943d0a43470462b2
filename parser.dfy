/** `parse_swift_data` (app/core/parser.py): the batch feed parser. The file system and
    `pandas.read_csv` are inputs: whether the path is a file, and what reading it gave. */
module Parser {
  import opened Common
  import opened Text
  import opened Validators
  import opened Store

  /** One cell of the table `read_csv` produced; `Missing` is a NaN cell. */
  datatype Cell = Missing | Value(s: string)

  /** The data frame: the header row and the data rows (a short row reads as NaN cells). */
  datatype Table = Table(header: seq<string>, rows: seq<seq<Cell>>)

  /** What `pd.read_csv` did with the file. */
  datatype ReadOutcome = Read(table: Table) | ParserError | EmptyDataError

  datatype ParseInput = ParseInput(path: PyValue, isFile: bool, read: ReadOutcome)

  /** The exceptions the parser raises, one variant per class. */
  datatype ParseError =
    | InvalidStringInput
    | FileNotFound
    | InvalidFileExtension
    | CsvParserError
    | CsvEmptyData
    | MissingColumn(column: string)
    | InvalidSwiftCode
    | DuplicateSwiftCode

  datatype ParseResult = Ok(records: seq<Record>) | Err(error: ParseError)

  const SwiftCodeColumn: string := "SWIFT CODE"
  const CountryIso2Column: string := "COUNTRY ISO2 CODE"
  const CountryNameColumn: string := "COUNTRY NAME"
  const NameColumn: string := "NAME"
  const AddressColumn: string := "ADDRESS"

  /** The required columns, in the order they are checked. */
  const NeededColumns: seq<string> :=
    [SwiftCodeColumn, CountryIso2Column, CountryNameColumn, NameColumn, AddressColumn]

  /** The path passes `not file_path or not isinstance(file_path, str) or not file_path.strip()`:
      a string with a character that is not whitespace. */
  predicate IsPathString(path: PyValue) {
    path.PyStr? && exists i :: 0 <= i < |path.s| && !IsSpace(path.s[i])
  }

  /** The path test is the stripping test of the source: a string that does not strip to
      the empty string. */
  lemma PathStringIsStripped(path: PyValue)
    ensures IsPathString(path) <==> path.PyStr? && Strip(path.s) != []
  {
    if path.PyStr? {
      StripEmptyIff(path.s);
    }
  }

  /** `file_path.lower().endswith('.csv')` */
  predicate HasCsvExtension(path: string) {
    |path| >= 4 && Lower(path[|path| - 4..]) == ".csv"
  }

  /** The first required column absent from `header`, in the order of `columns`. */
  function FirstMissing(columns: seq<string>, header: seq<string>): Option<string> {
    if columns == [] then None
    else if columns[0] !in header then Some(columns[0])
    else FirstMissing(columns[1..], header)
  }

  predicate HasColumns(header: seq<string>) {
    && SwiftCodeColumn in header && CountryIso2Column in header && CountryNameColumn in header
    && NameColumn in header && AddressColumn in header
  }

  /** The position of the first header cell named `name` (pandas renames later duplicates). */
  function IndexOf(header: seq<string>, name: string): (k: nat)
    requires name in header
    ensures k < |header| && header[k] == name
    ensures forall j :: 0 <= j < k ==> header[j] != name
  {
    if header[0] == name then 0 else 1 + IndexOf(header[1..], name)
  }

  function CellAt(row: seq<Cell>, k: nat): Cell {
    if k < |row| then row[k] else Missing
  }

  /** `df[name]` */
  function Column(t: Table, name: string): (col: seq<Cell>)
    requires name in t.header
    ensures |col| == |t.rows|
  {
    var k := IndexOf(t.header, name);
    seq(|t.rows|, i requires 0 <= i < |t.rows| => CellAt(t.rows[i], k))
  }

  /** The Python value a cell holds: a `str`, or NaN (a `float`). */
  function CellValue(c: Cell): PyValue {
    match c
    case Missing => PyFloat
    case Value(s) => PyStr(s)
  }

  /** `fillna('').astype(str)` */
  function CellText(c: Cell): string {
    match c
    case Missing => ""
    case Value(s) => s
  }

  /** `.str.upper().str.strip()` after `fillna('')`; `NormalizeCellIsFillnaUpperStrip` shows the
      case split agrees with that order of operations. */
  function NormalizeCell(c: Cell): string {
    match c
    case Missing => ""
    case Value(s) => UpperStrip(s)
  }

  /** `df['SWIFT CODE'].apply(is_valid_swift_code)` holds on every row. */
  predicate AllCodesValid(codes: seq<Cell>) {
    forall i :: 0 <= i < |codes| ==> IsValidSwiftCode(CellValue(codes[i]))
  }

  /** `df['SWIFT CODE'].duplicated().any()` */
  predicate HasDuplicate(codes: seq<Cell>) {
    exists i, j :: 0 <= i < j < |codes| && codes[i] == codes[j]
  }

  /** The output rows: the code as read, the four text columns normalised and the
      headquarters flag derived from the code. */
  function BuildRecords(t: Table): seq<Record>
    requires HasColumns(t.header)
  {
    var codes := Column(t, SwiftCodeColumn);
    var iso := Column(t, CountryIso2Column);
    var country := Column(t, CountryNameColumn);
    var name := Column(t, NameColumn);
    var address := Column(t, AddressColumn);
    seq(|t.rows|, i requires 0 <= i < |t.rows| =>
      Record(CellText(codes[i]), NormalizeCell(address[i]), NormalizeCell(name[i]),
             NormalizeCell(iso[i]), NormalizeCell(country[i]), IsHeadquarterCode(CellText(codes[i]))))
  }

  /** Everything after `read_csv`: columns, validity, duplicates, then normalisation. */
  function ParseTable(t: Table): ParseResult {
    var missing := FirstMissing(NeededColumns, t.header);
    if missing.Some? then Err(MissingColumn(missing.value))
    else
      assert HasColumns(t.header) by { NoneMissingHasColumns(t.header); }
      var codes := Column(t, SwiftCodeColumn);
      if !AllCodesValid(codes) then Err(InvalidSwiftCode)
      else if HasDuplicate(codes) then Err(DuplicateSwiftCode)
      else Ok(BuildRecords(t))
  }

  /** The whole parser: the first failing check decides the error. */
  function Parse(input: ParseInput): ParseResult {
    if !IsPathString(input.path) then Err(InvalidStringInput)
    else if !input.isFile then Err(FileNotFound)
    else if !HasCsvExtension(input.path.s) then Err(InvalidFileExtension)
    else match input.read
      case ParserError => Err(CsvParserError)
      case EmptyDataError => Err(CsvEmptyData)
      case Read(t) => ParseTable(t)
  }

  /** The reported column is the first of `columns` that `header` lacks; none is reported
      exactly when all are present. */
  lemma {:induction false} FirstMissingIsFirstAbsent(columns: seq<string>, header: seq<string>, c: string)
    ensures FirstMissing(columns, header).None? <==> forall k :: 0 <= k < |columns| ==> columns[k] in header
    ensures FirstMissing(columns, header) == Some(c) <==>
      exists k :: 0 <= k < |columns| && columns[k] == c && c !in header &&
        forall j :: 0 <= j < k ==> columns[j] in header
  {
    if columns != [] {
      FirstMissingIsFirstAbsent(columns[1..], header, c);
      if columns[0] in header {
        if FirstMissing(columns, header) == Some(c) {
          var k :| 0 <= k < |columns[1..]| && columns[1..][k] == c && c !in header &&
            forall j :: 0 <= j < k ==> columns[1..][j] in header;
          assert columns[k + 1] == c;
          forall j | 0 <= j < k + 1 ensures columns[j] in header {
            if j > 0 { assert columns[j] == columns[1..][j - 1]; }
          }
        }
        if exists k :: 0 <= k < |columns| && columns[k] == c && c !in header &&
             forall j :: 0 <= j < k ==> columns[j] in header {
          var k :| 0 <= k < |columns| && columns[k] == c && c !in header &&
            forall j :: 0 <= j < k ==> columns[j] in header;
          assert k > 0;
          assert columns[1..][k - 1] == c;
          forall j | 0 <= j < k - 1 ensures columns[1..][j] in header {
            assert columns[1..][j] == columns[j + 1];
          }
        }
        if forall k :: 1 <= k < |columns| ==> columns[k] in header {
          forall k | 0 <= k < |columns[1..]| ensures columns[1..][k] in header {
            assert columns[1..][k] == columns[k + 1];
          }
        }
      } else {
        assert columns[0] == columns[0] && columns[0] !in header;
      }
    }
  }

  /** No required column is missing exactly when all five are in the header. */
  lemma NoneMissingHasColumns(header: seq<string>)
    ensures FirstMissing(NeededColumns, header).None? <==> HasColumns(header)
  {
    FirstMissingIsFirstAbsent(NeededColumns, header, "");
    if HasColumns(header) {
      forall k | 0 <= k < |NeededColumns| ensures NeededColumns[k] in header {
      }
    }
    if FirstMissing(NeededColumns, header).None? {
      assert NeededColumns[0] in header && NeededColumns[1] in header && NeededColumns[2] in header;
      assert NeededColumns[3] in header && NeededColumns[4] in header;
    }
  }

  /** The `for column_name in needed_columns` loop. */
  method FindMissingColumn(header: seq<string>) returns (missing: Option<string>)
    ensures missing == FirstMissing(NeededColumns, header)
  {
    var i := 0;
    while i < |NeededColumns|
      invariant 0 <= i <= |NeededColumns|
      invariant FirstMissing(NeededColumns, header) == FirstMissing(NeededColumns[i..], header)
    {
      if NeededColumns[i] !in header {
        return Some(NeededColumns[i]);
      }
      assert NeededColumns[i..][1..] == NeededColumns[i + 1..];
      i := i + 1;
    }
    return None;
  }

  /** `df[column].str.upper().str.strip()`: one text column, normalised cell by cell. */
  method NormalizeColumn(col: seq<Cell>) returns (out: seq<string>)
    ensures |out| == |col|
    ensures forall i :: 0 <= i < |col| ==> out[i] == NormalizeCell(col[i])
  {
    out := [];
    var i := 0;
    while i < |col|
      invariant 0 <= i <= |col| && |out| == i
      invariant forall j :: 0 <= j < i ==> out[j] == NormalizeCell(col[j])
    {
      out := out + [NormalizeCell(col[i])];
      i := i + 1;
    }
  }

  /** `to_dict(orient="records")` over the selected columns. */
  method ToRecords(codes: seq<Cell>, address: seq<string>, bankName: seq<string>,
                   iso: seq<string>, country: seq<string>, hq: seq<bool>)
    returns (records: seq<Record>)
    requires |address| == |bankName| == |iso| == |country| == |hq| == |codes|
    ensures |records| == |codes|
    ensures forall i :: 0 <= i < |codes| ==>
      records[i] == Record(CellText(codes[i]), address[i], bankName[i], iso[i], country[i], hq[i])
  {
    records := [];
    var i := 0;
    while i < |codes|
      invariant 0 <= i <= |codes| && |records| == i
      invariant forall j :: 0 <= j < i ==>
        records[j] == Record(CellText(codes[j]), address[j], bankName[j], iso[j], country[j], hq[j])
    {
      records := records + [Record(CellText(codes[i]), address[i], bankName[i], iso[i], country[i], hq[i])];
      i := i + 1;
    }
  }

  /** The normalisation steps applied to a table that passed every check. */
  method NormalizeTable(t: Table) returns (records: seq<Record>)
    requires HasColumns(t.header)
    ensures records == BuildRecords(t)
  {
    var codes := Column(t, SwiftCodeColumn);
    var country := NormalizeColumn(Column(t, CountryNameColumn));
    var iso := NormalizeColumn(Column(t, CountryIso2Column));
    var address := NormalizeColumn(Column(t, AddressColumn));
    var bankName := NormalizeColumn(Column(t, NameColumn));
    var hq := seq(|codes|, i requires 0 <= i < |codes| => IsHeadquarterCode(CellText(codes[i])));
    records := ToRecords(codes, address, bankName, iso, country, hq);
  }

  method ParseSwiftData(input: ParseInput) returns (r: ParseResult)
    ensures r == Parse(input)
  {
    if !IsPathString(input.path) {
      return Err(InvalidStringInput);
    }
    if !input.isFile {
      return Err(FileNotFound);
    }
    if !HasCsvExtension(input.path.s) {
      return Err(InvalidFileExtension);
    }
    match input.read {
      case ParserError => return Err(CsvParserError);
      case EmptyDataError => return Err(CsvEmptyData);
      case Read(t) =>
        assert Parse(input) == ParseTable(t);
        r := ParseFrame(t);
    }
  }

  /** The checks and the normalisation on the data frame `read_csv` returned. */
  method ParseFrame(t: Table) returns (r: ParseResult)
    ensures r == ParseTable(t)
  {
    var missing := FindMissingColumn(t.header);
    if missing.Some? {
      return Err(MissingColumn(missing.value));
    }
    NoneMissingHasColumns(t.header);
    var codes := Column(t, SwiftCodeColumn);
    if !AllCodesValid(codes) {
      return Err(InvalidSwiftCode);
    }
    if HasDuplicate(codes) {
      return Err(DuplicateSwiftCode);
    }
    var records := NormalizeTable(t);
    r := Ok(records);
    assert ParseTable(t) == r;
  }

  /** The input gets as far as a data frame: a usable path string naming a `.csv` file that
      `read_csv` could read. */
  predicate ReachesTable(input: ParseInput) {
    IsPathString(input.path) && input.isFile && HasCsvExtension(input.path.s) && input.read.Read?
  }

  /** A data frame fails only for a missing column, an invalid code or a duplicate code. */
  lemma ParseTableErrors(t: Table)
    ensures ParseTable(t).Err? ==>
      ParseTable(t).error.MissingColumn? || ParseTable(t).error == InvalidSwiftCode ||
      ParseTable(t).error == DuplicateSwiftCode
  {
  }

  /** The file-level failures, in the order they are checked: each is reported exactly when
      every earlier check passed and this one fails. */
  lemma ParseFailureOrder(input: ParseInput)
    ensures Parse(input) == Err(InvalidStringInput) <==> !IsPathString(input.path)
    ensures Parse(input) == Err(FileNotFound) <==> IsPathString(input.path) && !input.isFile
    ensures Parse(input) == Err(InvalidFileExtension) <==>
      IsPathString(input.path) && input.isFile && !HasCsvExtension(input.path.s)
    ensures Parse(input) == Err(CsvParserError) <==>
      IsPathString(input.path) && input.isFile && HasCsvExtension(input.path.s) && input.read.ParserError?
    ensures Parse(input) == Err(CsvEmptyData) <==>
      IsPathString(input.path) && input.isFile && HasCsvExtension(input.path.s) && input.read.EmptyDataError?
    ensures ReachesTable(input) ==> Parse(input) == ParseTable(input.read.table)
  {
    if input.read.Read? {
      ParseTableErrors(input.read.table);
    }
  }

  /** `None`, non-strings and strings that strip to nothing are not paths. */
  lemma BlankPathRejected(input: ParseInput)
    requires !input.path.PyStr? || Strip(input.path.s) == []
    ensures Parse(input) == Err(InvalidStringInput)
  {
    PathStringIsStripped(input.path);
  }

  /** The table-level failures, in the order they are checked, and when the parse succeeds. */
  lemma TableFailureOrder(t: Table)
    ensures (ParseTable(t).Err? && ParseTable(t).error.MissingColumn?) <==> !HasColumns(t.header)
    ensures ParseTable(t) == Err(InvalidSwiftCode) <==>
      HasColumns(t.header) && !AllCodesValid(Column(t, SwiftCodeColumn))
    ensures ParseTable(t) == Err(DuplicateSwiftCode) <==>
      HasColumns(t.header) && AllCodesValid(Column(t, SwiftCodeColumn)) && HasDuplicate(Column(t, SwiftCodeColumn))
    ensures ParseTable(t).Ok? <==>
      HasColumns(t.header) && AllCodesValid(Column(t, SwiftCodeColumn)) && !HasDuplicate(Column(t, SwiftCodeColumn))
  {
    NoneMissingHasColumns(t.header);
  }

  /** The reported column is the first absent one in the declared order, whatever else is
      missing. */
  lemma MissingColumnIsFirstDeclared(t: Table, c: string)
    ensures ParseTable(t) == Err(MissingColumn(c)) <==>
      exists k :: 0 <= k < |NeededColumns| && NeededColumns[k] == c && c !in t.header &&
        forall j :: 0 <= j < k ==> NeededColumns[j] in t.header
  {
    FirstMissingIsFirstAbsent(NeededColumns, t.header, c);
  }

  /** A feed whose only missing column is the address reports exactly that column. */
  lemma AddressMissingReported(t: Table)
    requires SwiftCodeColumn in t.header && CountryIso2Column in t.header
    requires CountryNameColumn in t.header && NameColumn in t.header
    requires AddressColumn !in t.header
    ensures ParseTable(t) == Err(MissingColumn("ADDRESS"))
  {
    MissingColumnIsFirstDeclared(t, "ADDRESS");
    assert NeededColumns[4] == "ADDRESS";
  }

  /** One invalid code rejects the whole feed and no record is returned, even when codes
      also repeat (validity is checked before duplicates). */
  lemma InvalidCodeRejectsFeed(t: Table, i: nat)
    requires HasColumns(t.header) && i < |t.rows|
    requires !IsValidSwiftCode(CellValue(Column(t, SwiftCodeColumn)[i]))
    ensures ParseTable(t) == Err(InvalidSwiftCode)
  {
    NoneMissingHasColumns(t.header);
  }

  /** An absent code cell (NaN) is an invalid code. */
  lemma AbsentCodeIsInvalid()
    ensures !IsValidSwiftCode(CellValue(Missing))
  {
  }

  /** Any exact repeat of a code among valid codes rejects the feed. */
  lemma RepeatedCodeRejected(t: Table, i: nat, j: nat)
    requires HasColumns(t.header) && AllCodesValid(Column(t, SwiftCodeColumn))
    requires i < j < |t.rows| && Column(t, SwiftCodeColumn)[i] == Column(t, SwiftCodeColumn)[j]
    ensures ParseTable(t) == Err(DuplicateSwiftCode)
  {
    NoneMissingHasColumns(t.header);
  }

  /** Record `i` of the output, field by field. */
  lemma BuiltRecordAt(t: Table, i: nat)
    requires HasColumns(t.header) && i < |t.rows|
    ensures |BuildRecords(t)| == |t.rows|
    ensures BuildRecords(t)[i] == Record(
      CellText(Column(t, SwiftCodeColumn)[i]),
      NormalizeCell(Column(t, AddressColumn)[i]),
      NormalizeCell(Column(t, NameColumn)[i]),
      NormalizeCell(Column(t, CountryIso2Column)[i]),
      NormalizeCell(Column(t, CountryNameColumn)[i]),
      IsHeadquarterCode(CellText(Column(t, SwiftCodeColumn)[i])))
  {
  }

  /** A successful parse returns one record per row, in row order, with the code unchanged
      and the four text fields normalised from their cells (absent cells give ""). */
  lemma SuccessfulParseKeepsRows(t: Table, recs: seq<Record>)
    requires ParseTable(t) == Ok(recs)
    ensures HasColumns(t.header) && |recs| == |t.rows|
    ensures forall i :: 0 <= i < |recs| ==> Column(t, SwiftCodeColumn)[i] == Value(recs[i].swiftCode)
    ensures forall i :: 0 <= i < |recs| ==>
      && recs[i].address == NormalizeCell(Column(t, AddressColumn)[i])
      && recs[i].bankName == NormalizeCell(Column(t, NameColumn)[i])
      && recs[i].countryIso2 == NormalizeCell(Column(t, CountryIso2Column)[i])
      && recs[i].countryName == NormalizeCell(Column(t, CountryNameColumn)[i])
  {
    TableFailureOrder(t);
    assert recs == BuildRecords(t);
    forall i | 0 <= i < |recs|
      ensures Column(t, SwiftCodeColumn)[i] == Value(recs[i].swiftCode)
      ensures recs[i].address == NormalizeCell(Column(t, AddressColumn)[i])
      ensures recs[i].bankName == NormalizeCell(Column(t, NameColumn)[i])
      ensures recs[i].countryIso2 == NormalizeCell(Column(t, CountryIso2Column)[i])
      ensures recs[i].countryName == NormalizeCell(Column(t, CountryNameColumn)[i])
    {
      BuiltRecordAt(t, i);
      assert IsValidSwiftCode(CellValue(Column(t, SwiftCodeColumn)[i]));
    }
  }

  /** Normalising a cell is `fillna('')`, then `str.upper`, then `str.strip`. */
  lemma NormalizeCellIsFillnaUpperStrip(c: Cell)
    ensures NormalizeCell(c) == UpperStrip(CellText(c))
  {
  }

  lemma NormalizedCellIsUpperTrimmed(c: Cell)
    ensures IsUpperCased(NormalizeCell(c)) && IsTrimmed(NormalizeCell(c))
  {
    UpperStripNormalises(CellText(c));
  }

  /** Every text field of a parsed record is upper-cased and trimmed. */
  lemma SuccessfulParseNormalises(t: Table, recs: seq<Record>)
    requires ParseTable(t) == Ok(recs)
    ensures forall i :: 0 <= i < |recs| ==>
      && IsUpperCased(recs[i].address) && IsTrimmed(recs[i].address)
      && IsUpperCased(recs[i].bankName) && IsTrimmed(recs[i].bankName)
      && IsUpperCased(recs[i].countryIso2) && IsTrimmed(recs[i].countryIso2)
      && IsUpperCased(recs[i].countryName) && IsTrimmed(recs[i].countryName)
  {
    SuccessfulParseKeepsRows(t, recs);
    forall i | 0 <= i < |recs|
      ensures IsUpperCased(recs[i].address) && IsTrimmed(recs[i].address)
      ensures IsUpperCased(recs[i].bankName) && IsTrimmed(recs[i].bankName)
      ensures IsUpperCased(recs[i].countryIso2) && IsTrimmed(recs[i].countryIso2)
      ensures IsUpperCased(recs[i].countryName) && IsTrimmed(recs[i].countryName)
    {
      NormalizedCellIsUpperTrimmed(Column(t, AddressColumn)[i]);
      NormalizedCellIsUpperTrimmed(Column(t, NameColumn)[i]);
      NormalizedCellIsUpperTrimmed(Column(t, CountryIso2Column)[i]);
      NormalizedCellIsUpperTrimmed(Column(t, CountryNameColumn)[i]);
    }
  }

  /** The headquarters flag of a parsed record holds exactly for 11-character codes ending
      in "XXX"; it is never read from the feed. */
  lemma SuccessfulParseClassifies(t: Table, recs: seq<Record>)
    requires ParseTable(t) == Ok(recs)
    ensures forall i :: 0 <= i < |recs| ==>
      (recs[i].isHeadquarter <==> |recs[i].swiftCode| == 11 && recs[i].swiftCode[8..] == "XXX")
  {
    TableFailureOrder(t);
    forall i | 0 <= i < |recs|
      ensures recs[i].isHeadquarter <==> |recs[i].swiftCode| == 11 && recs[i].swiftCode[8..] == "XXX"
    {
      BuiltRecordAt(t, i);
    }
  }

  /** The parsed records have unique, valid codes: they satisfy the table's invariant and
      can be loaded as they are. */
  lemma SuccessfulParseFitsTable(t: Table, recs: seq<Record>)
    requires ParseTable(t) == Ok(recs)
    ensures TableInvariant(recs)
  {
    SuccessfulParseKeepsRows(t, recs);
    TableFailureOrder(t);
    var codes := Column(t, SwiftCodeColumn);
    forall i, j | 0 <= i < j < |recs| ensures recs[i].swiftCode != recs[j].swiftCode {
      assert codes[i] != codes[j];
    }
    forall i | 0 <= i < |recs| ensures IsValidSwiftCode(PyStr(recs[i].swiftCode)) {
      assert IsValidSwiftCode(CellValue(codes[i]));
    }
  }

  /** An absent text cell becomes the empty string. */
  lemma AbsentFieldBecomesEmpty()
    ensures UpperStrip(CellText(Missing)) == "" && NormalizeCell(Missing) == ""
  {
  }

  /** A header with no data rows parses to no records. */
  lemma HeaderOnlyFeed(t: Table)
    requires HasColumns(t.header) && t.rows == []
    ensures ParseTable(t) == Ok([])
  {
    TableFailureOrder(t);
  }

  /** The classification examples: the length rule dominates the suffix. */
  lemma HeadquarterExamples()
    ensures IsHeadquarterCode("AAISALTRXXX")
    ensures !IsHeadquarterCode("ABIEBGS1123")
    ensures !IsHeadquarterCode("ABIEBXXX")
  {
  }

  /** Two rows with distinct valid codes are both kept, in their order, with their codes. */
  lemma TwoDistinctCodesKept(t: Table, c1: string, c2: string)
    requires HasColumns(t.header) && Column(t, SwiftCodeColumn) == [Value(c1), Value(c2)]
    requires HasSwiftShape(c1) && HasSwiftShape(c2) && c1 != c2
    ensures ParseTable(t).Ok? && |ParseTable(t).records| == 2
    ensures ParseTable(t).records[0].swiftCode == c1 && ParseTable(t).records[1].swiftCode == c2
  {
    var codes := Column(t, SwiftCodeColumn);
    assert AllCodesValid(codes) by {
      forall i | 0 <= i < |codes| ensures IsValidSwiftCode(CellValue(codes[i])) {
        assert codes[i] == Value(c1) || codes[i] == Value(c2);
      }
    }
    TableFailureOrder(t);
    SuccessfulParseKeepsRows(t, ParseTable(t).records);
  }

  /** The declared header holds every required column, the code column first. */
  lemma DeclaredHeaderFacts()
    ensures HasColumns(NeededColumns) && IndexOf(NeededColumns, SwiftCodeColumn) == 0
  {
  }

  lemma SharedBaseCodes()
    ensures HasSwiftShape("ABIEBGS1123") && HasSwiftShape("ABIEBGS1122")
    ensures "ABIEBGS1123" != "ABIEBGS1122"
  {
    assert "ABIEBGS1123"[10] != "ABIEBGS1122"[10];
  }

  /** Codes sharing their first 8 characters are distinct codes, not duplicates: whatever
      the other cells hold, both rows are kept. */
  lemma SharedBaseIsNotDuplicate(rest1: seq<Cell>, rest2: seq<Cell>)
    ensures
      var t := Table(NeededColumns, [[Value("ABIEBGS1123")] + rest1, [Value("ABIEBGS1122")] + rest2]);
      ParseTable(t).Ok? && |ParseTable(t).records| == 2 &&
      ParseTable(t).records[0].swiftCode == "ABIEBGS1123" &&
      ParseTable(t).records[1].swiftCode == "ABIEBGS1122"
  {
    var t := Table(NeededColumns, [[Value("ABIEBGS1123")] + rest1, [Value("ABIEBGS1122")] + rest2]);
    DeclaredHeaderFacts();
    SharedBaseCodes();
    assert Column(t, SwiftCodeColumn) == [Value("ABIEBGS1123"), Value("ABIEBGS1122")];
    TwoDistinctCodesKept(t, "ABIEBGS1123", "ABIEBGS1122");
  }


}
