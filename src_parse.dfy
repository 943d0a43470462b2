/** src/parse.py: the older copy of the identifier validator and the batch feed parser. Its
    whole-column checks are written here as the row loops pandas runs, and the result is
    proved equal, on every input, to the parser of app/core/parser.py. */
module SrcParse {
  import opened Common
  import opened Text
  import opened Validators
  import opened Store
  import opened Parser

  /** `is_valid_swift_code` as written: the same `isinstance` test and the same `re.match`
      pattern as app/utils/validators.py, so the two agree on every value. */
  function IsValidSwiftCodeAsWritten(v: PyValue): (ok: bool)
    ensures ok == Validators.IsValidSwiftCodeAsWritten(v)
    ensures ok <==>
      v.PyStr? && (HasSwiftShape(v.s) ||
      (|v.s| > 0 && v.s[|v.s| - 1] == '\n' && HasSwiftShape(v.s[..|v.s| - 1])))
  {
    match v
    case PyStr(s) => RegexMatch(s)
    case _ => false
  }

  /** The validator as intended (the whole string must match), which agrees with the
      corrected validator of app/utils/validators.py on every value. */
  function IsValidSwiftCode(v: PyValue): (ok: bool)
    ensures ok == Validators.IsValidSwiftCode(v)
    ensures ok <==> v.PyStr? && HasSwiftShape(v.s)
  {
    match v
    case PyStr(s) => FullMatch(s)
    case _ => false
  }

  /** `df[~df['SWIFT CODE'].apply(is_valid_swift_code)]` is not empty. */
  method AnyInvalidCode(codes: seq<Cell>) returns (invalid: bool)
    ensures invalid <==> !AllCodesValid(codes)
    ensures invalid <==> exists i :: 0 <= i < |codes| && !IsValidSwiftCode(CellValue(codes[i]))
  {
    var i := 0;
    while i < |codes|
      invariant 0 <= i <= |codes|
      invariant forall k :: 0 <= k < i ==> Validators.IsValidSwiftCode(CellValue(codes[k]))
    {
      if !IsValidSwiftCode(CellValue(codes[i])) {
        return true;
      }
      i := i + 1;
    }
    return false;
  }

  /** `df['SWIFT CODE'].duplicated().any()`: some row repeats the code of an earlier row. */
  method AnyDuplicateCode(codes: seq<Cell>) returns (duplicate: bool)
    ensures duplicate <==> HasDuplicate(codes)
  {
    var i := 0;
    while i < |codes|
      invariant 0 <= i <= |codes|
      invariant forall a, b :: 0 <= a < b < i ==> codes[a] != codes[b]
    {
      var j := 0;
      while j < i
        invariant 0 <= j <= i
        invariant forall a :: 0 <= a < j ==> codes[a] != codes[i]
      {
        if codes[j] == codes[i] {
          return true;
        }
        j := j + 1;
      }
      i := i + 1;
    }
    return false;
  }

  /** `parse_swift_data` of src/parse.py: the same first-failure-wins chain, the same
      normalisation, and so the same result as app/core/parser.py. */
  method ParseSwiftData(input: ParseInput) returns (r: ParseResult)
    ensures r == Parse(input)
    ensures r.Ok? ==> TableInvariant(r.records)
  {
    if !IsPathString(input.path) {
      return Err(InvalidStringInput);
    }
    if !input.isFile {
      return Err(FileNotFound);
    }
    if !HasCsvExtension(input.path.s) {
      return Err(InvalidFileExtension);
    }
    match input.read {
      case ParserError => return Err(CsvParserError);
      case EmptyDataError => return Err(CsvEmptyData);
      case Read(t) =>
        assert Parse(input) == ParseTable(t);
        r := ParseFrame(t);
    }
  }

  /** The checks and the normalisation on the data frame `read_csv` returned. */
  method ParseFrame(t: Table) returns (r: ParseResult)
    ensures r == ParseTable(t)
    ensures r.Ok? ==> TableInvariant(r.records)
  {
    var missing := FindMissingColumn(t.header);
    if missing.Some? {
      return Err(MissingColumn(missing.value));
    }
    NoneMissingHasColumns(t.header);
    var codes := Column(t, SwiftCodeColumn);
    var invalid := AnyInvalidCode(codes);
    if invalid {
      return Err(InvalidSwiftCode);
    }
    var duplicate := AnyDuplicateCode(codes);
    if duplicate {
      return Err(DuplicateSwiftCode);
    }
    var records := NormalizeTable(t);
    r := Ok(records);
    SuccessfulParseFitsTable(t, records);
  }
}
