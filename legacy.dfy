/** The older API of src/main.py over the same table: its branch query, lookup by code,
    lookup by country, create (with its own validation chain, answering 400) and delete. */
module Legacy {
  import opened Common
  import opened Text
  import opened Validators
  import opened Store
  import opened Responses
  import CreateScheme
  import SrcParse
  import Router

  /** The condition of `find_all_branches(code)`: the code starts with the base of `code`
      and is not the base followed by "XXX". It does not exclude `code` itself. */
  predicate IsLegacyBranch(code: string, candidate: string) {
    StartsWith(candidate, Base(code)) && candidate != Base(code) + "XXX"
  }

  function LegacyBranchFilter(code: string): Record -> bool {
    (r: Record) => IsLegacyBranch(code, r.swiftCode)
  }

  /** `find_all_branches` */
  method FindAllBranches(db: SwiftCodeTable, code: string) returns (result: seq<Record>)
    ensures result == Filter(db.rows, LegacyBranchFilter(code))
    ensures forall r :: r in result <==>
      r in db.rows && StartsWith(r.swiftCode, Base(code)) && r.swiftCode != Base(code) + "XXX"
  {
    result := db.Select(LegacyBranchFilter(code));
  }

  /** An 11-character code ending in "XXX" is its own base followed by "XXX". */
  lemma HeadquarterCodeIsBasePlusXxx(code: string)
    requires IsHeadquarterCode(code)
    ensures code == Base(code) + "XXX"
  {
    assert code == code[..8] + code[8..];
  }

  /** For a headquarters code ending in "XXX", the branch query never returns the
      headquarters itself. */
  lemma XxxHeadquarterNotOwnBranch(rows: seq<Record>, code: string)
    requires IsHeadquarterCode(code)
    ensures forall r :: r in Filter(rows, LegacyBranchFilter(code)) ==> r.swiftCode != code
  {
    HeadquarterCodeIsBasePlusXxx(code);
  }

  /** For such a code the older query and the router's query select the same rows. */
  lemma AgreesWithRouterOnXxxCodes(rows: seq<Record>, code: string)
    requires IsHeadquarterCode(code)
    ensures Filter(rows, LegacyBranchFilter(code)) == Filter(rows, Router.RouterBranchFilter(code))
  {
    HeadquarterCodeIsBasePlusXxx(code);
    FilterCongruent(rows, LegacyBranchFilter(code), Router.RouterBranchFilter(code));
  }

  /** A record flagged as headquarters whose code does not end in "XXX" is listed among its
      own branches, which the router's query excludes. */
  lemma NonXxxHeadquarterListsItself(rows: seq<Record>, h: Record)
    requires h in rows && !IsHeadquarterCode(h.swiftCode)
    ensures h in Filter(rows, LegacyBranchFilter(h.swiftCode))
    ensures h !in Filter(rows, Router.RouterBranchFilter(h.swiftCode))
  {
    var code := h.swiftCode;
    if |code| == 11 {
      assert (Base(code) + "XXX")[8..] == "XXX";
    } else {
      assert |Base(code) + "XXX"| != |code|;
    }
  }

  /** `get_swift_code_by_id` */
  function LookupById(rows: seq<Record>, code: string): CodeLookup {
    match Lookup(rows, code)
    case None => CodeNotFound
    case Some(h) =>
      CodeFound(h, if h.isHeadquarter then Some(Views(Filter(rows, LegacyBranchFilter(h.swiftCode)))) else None)
  }

  method GetSwiftCodeById(db: SwiftCodeTable, code: string) returns (r: CodeLookup)
    ensures r == LookupById(db.rows, code)
  {
    var found := db.QueryFirst(code);
    if found.None? {
      return CodeNotFound;
    }
    var h := found.value;
    if h.isHeadquarter {
      var rows := FindAllBranches(db, h.swiftCode);
      var branches := ToViews(rows);
      return CodeFound(h, Some(branches));
    }
    return CodeFound(h, None);
  }

  /** An absent code is "No data found."; a headquarters gets exactly the rows of
      `find_all_branches` of its code, and a record not flagged gets no list. On a table
      whose headquarters all have codes ending in "XXX", the answer is the router's. */
  lemma LookupByIdCases(rows: seq<Record>, code: string)
    ensures LookupById(rows, code) == CodeNotFound <==> !HasCode(rows, code)
    ensures LookupById(rows, code).CodeFound? ==>
      && LookupById(rows, code).details in rows
      && LookupById(rows, code).details.swiftCode == code
      && (LookupById(rows, code).branches.Some? <==> LookupById(rows, code).details.isHeadquarter)
    ensures (forall r :: r in rows && r.isHeadquarter ==> IsHeadquarterCode(r.swiftCode)) ==>
      LookupById(rows, code) == Router.LookupById(rows, code)
  {
    match Lookup(rows, code)
    case None =>
    case Some(h) =>
      if h.isHeadquarter && (forall r :: r in rows && r.isHeadquarter ==> IsHeadquarterCode(r.swiftCode)) {
        AgreesWithRouterOnXxxCodes(rows, h.swiftCode);
      }
  }

  /** The other bank of the integration fixtures is flagged as headquarters with a code that
      does not end in "XXX": this lookup lists it as its own branch. */
  lemma FixtureOtherBankListsItself(other: Record)
    requires other.swiftCode == "ZZYYCAWW123" && other.isHeadquarter
    ensures LookupById([other], "ZZYYCAWW123") == CodeFound(other, Some([View(other)]))
    ensures Router.LookupById([other], "ZZYYCAWW123") == CodeFound(other, Some([]))
  {
    assert other.swiftCode[8] == '1';
    assert !IsHeadquarterCode(other.swiftCode);
    NonXxxHeadquarterListsItself([other], other);
    assert LegacyBranchFilter(other.swiftCode)(other);
    assert [other][1..] == [];
    assert Filter([other], LegacyBranchFilter(other.swiftCode)) == [other];
    assert Views([other]) == [View(other)];
  }

  /** `get_swift_codes_by_country_iso2_code`: the query is used as sent. `result is None`
      never holds for a list, so an empty result reaches `country_name[0]` on `None`, a
      server error. */
  function ByCountry(rows: seq<Record>, iso: string): CountryLookup {
    var matches := Filter(rows, Router.IsoIs(iso));
    if matches == [] then CountryInternalError
    else CountryFound(iso, matches[0].countryName, Views(matches))
  }

  method GetSwiftCodesByCountry(db: SwiftCodeTable, iso: string) returns (r: CountryLookup)
    ensures r == ByCountry(db.rows, iso)
  {
    var matches := db.Select(Router.IsoIs(iso));
    if matches == [] {
      return CountryInternalError;
    }
    var countryName := matches[0].countryName;
    var views := ToViews(matches);
    return CountryFound(iso, countryName, views);
  }

  /** The older lookup never answers "No data found": it fails exactly when no row has the
      code as sent, and otherwise gives the router's answer for that code. */
  lemma ByCountryCases(rows: seq<Record>, iso: string)
    ensures !ByCountry(rows, iso).CountryNotFound?
    ensures ByCountry(rows, iso) == CountryInternalError <==> forall r :: r in rows ==> r.countryIso2 != iso
    ensures ByCountry(rows, iso).CountryFound? ==> ByCountry(rows, iso) == Router.CountryResult(rows, iso)
  {
    Router.CountryNotFoundIff(rows, iso);
  }

  /** The errors src/main.py answers with 400, in the order they are checked. */
  datatype LegacyError =
    | InvalidSwiftCodeFormat
    | CountryCodeLength
    | CountryCodeMismatch
    | BankNameTooShort
    | HeadquarterRequired

  datatype CreateOutcome = BadRequest(error: LegacyError) | Conflict | Created

  /** The request after the four in-place reassignments. */
  function Trimmed(req: CreateScheme.CreateRequest): CreateScheme.CreateRequest {
    req.(address := Strip(req.address), bankName := Strip(req.bankName),
         countryIso2 := Upper(Strip(req.countryIso2)), countryName := Strip(req.countryName))
  }

  /** The first failing check of the create chain, if any. */
  function CreateCheck(req: CreateScheme.CreateRequest): Option<LegacyError> {
    if !SrcParse.IsValidSwiftCode(PyStr(req.swiftCode)) then Some(InvalidSwiftCodeFormat)
    else TrimmedCheck(Trimmed(req))
  }

  /** The checks after the reassignments, on a request whose code is valid. */
  function TrimmedCheck(t: CreateScheme.CreateRequest): Option<LegacyError>
    requires |t.swiftCode| >= 6
  {
    if |t.countryIso2| != 2 then Some(CountryCodeLength)
    else if t.countryIso2 != t.swiftCode[4..6] then Some(CountryCodeMismatch)
    else if |t.bankName| < 3 then Some(BankNameTooShort)
    else if |t.swiftCode| == 11 && t.swiftCode[8..] == "XXX" && !t.isHeadquarter then Some(HeadquarterRequired)
    else None
  }

  function RecordOf(t: CreateScheme.CreateRequest): Record {
    Record(t.swiftCode, t.address, t.bankName, t.countryIso2, t.countryName, t.isHeadquarter)
  }

  /** `create_swift_code_record`: the checks, then the existing code, then the insert. */
  function CreateSpec(rows: seq<Record>, req: CreateScheme.CreateRequest): (CreateOutcome, seq<Record>) {
    match CreateCheck(req)
    case Some(e) => (BadRequest(e), rows)
    case None =>
      if HasCode(rows, req.swiftCode) then (Conflict, rows)
      else (Created, rows + [RecordOf(Trimmed(req))])
  }

  method CreateSwiftCodeRecord(db: SwiftCodeTable, req: CreateScheme.CreateRequest) returns (r: CreateOutcome)
    requires db.Valid()
    modifies db
    ensures db.Valid()
    ensures (r, db.rows) == CreateSpec(old(db.rows), req)
  {
    if !SrcParse.IsValidSwiftCode(PyStr(req.swiftCode)) {
      return BadRequest(InvalidSwiftCodeFormat);
    }
    var rec := req;
    rec := rec.(address := Strip(rec.address));
    rec := rec.(bankName := Strip(rec.bankName));
    rec := rec.(countryIso2 := Upper(Strip(rec.countryIso2)));
    rec := rec.(countryName := Strip(rec.countryName));
    assert rec == Trimmed(req);
    if |rec.countryIso2| != 2 {
      return BadRequest(CountryCodeLength);
    }
    if rec.countryIso2 != rec.swiftCode[4..6] {
      return BadRequest(CountryCodeMismatch);
    }
    if |rec.bankName| < 3 {
      return BadRequest(BankNameTooShort);
    }
    if |rec.swiftCode| == 11 && rec.swiftCode[8..] == "XXX" {
      if !rec.isHeadquarter {
        return BadRequest(HeadquarterRequired);
      }
    }
    var existing := db.QueryFirst(rec.swiftCode);
    if existing.Some? {
      return Conflict;
    }
    db.Insert(RecordOf(rec));
    return Created;
  }

  /** The checks after the reassignments, in order: each fails exactly when the earlier
      ones passed and its own condition fails. */
  lemma TrimmedCheckOrder(t: CreateScheme.CreateRequest)
    requires |t.swiftCode| >= 6
    ensures TrimmedCheck(t) != Some(InvalidSwiftCodeFormat)
    ensures TrimmedCheck(t) == Some(CountryCodeLength) <==> |t.countryIso2| != 2
    ensures TrimmedCheck(t) == Some(CountryCodeMismatch) <==>
      |t.countryIso2| == 2 && t.countryIso2 != t.swiftCode[4..6]
    ensures TrimmedCheck(t) == Some(BankNameTooShort) <==>
      |t.countryIso2| == 2 && t.countryIso2 == t.swiftCode[4..6] && |t.bankName| < 3
    ensures TrimmedCheck(t) == Some(HeadquarterRequired) <==>
      && |t.countryIso2| == 2 && t.countryIso2 == t.swiftCode[4..6] && |t.bankName| >= 3
      && IsHeadquarterCode(t.swiftCode) && !t.isHeadquarter
    ensures TrimmedCheck(t).None? <==>
      && |t.countryIso2| == 2 && t.countryIso2 == t.swiftCode[4..6] && |t.bankName| >= 3
      && !(IsHeadquarterCode(t.swiftCode) && !t.isHeadquarter)
  {
  }

  /** The format is checked first, on the code as sent; the country code is checked after
      trimming and upper-casing, for its length and then against positions 5-6 of the code. */
  lemma CreateCheckOrderFirst(req: CreateScheme.CreateRequest)
    ensures CreateCheck(req) == Some(InvalidSwiftCodeFormat) <==> !IsValidSwiftCode(PyStr(req.swiftCode))
    ensures CreateCheck(req) == Some(CountryCodeLength) <==>
      IsValidSwiftCode(PyStr(req.swiftCode)) && |Upper(Strip(req.countryIso2))| != 2
    ensures CreateCheck(req) == Some(CountryCodeMismatch) <==>
      IsValidSwiftCode(PyStr(req.swiftCode)) && |Upper(Strip(req.countryIso2))| == 2 &&
      Upper(Strip(req.countryIso2)) != req.swiftCode[4..6]
  {
    if IsValidSwiftCode(PyStr(req.swiftCode)) {
      var t := Trimmed(req);
      TrimmedCheckOrder(t);
      assert CreateCheck(req) == TrimmedCheck(t);
      assert t.countryIso2 == Upper(Strip(req.countryIso2)) && t.swiftCode == req.swiftCode;
    } else {
      assert CreateCheck(req) == Some(InvalidSwiftCodeFormat);
    }
  }

  /** Only then the trimmed bank name must have three characters, and an 11-character code
      ending in "XXX" must be flagged as headquarters. */
  lemma CreateCheckOrderLast(req: CreateScheme.CreateRequest)
    requires IsValidSwiftCode(PyStr(req.swiftCode)) && |Upper(Strip(req.countryIso2))| == 2
    requires Upper(Strip(req.countryIso2)) == req.swiftCode[4..6]
    ensures CreateCheck(req) == Some(BankNameTooShort) <==> |Strip(req.bankName)| < 3
    ensures CreateCheck(req) == Some(HeadquarterRequired) <==>
      |Strip(req.bankName)| >= 3 && IsHeadquarterCode(req.swiftCode) && !req.isHeadquarter
    ensures CreateCheck(req).None? <==>
      |Strip(req.bankName)| >= 3 && !(IsHeadquarterCode(req.swiftCode) && !req.isHeadquarter)
  {
    TrimmedCheckOrder(Trimmed(req));
  }

  /** A request failing a check, or naming an existing code, leaves the table as it was; a
      passing one appends exactly one record, and the table invariant is kept. */
  lemma CreateSpecEffect(rows: seq<Record>, req: CreateScheme.CreateRequest)
    requires TableInvariant(rows)
    ensures TableInvariant(CreateSpec(rows, req).1)
    ensures CreateSpec(rows, req).0 != Created ==> CreateSpec(rows, req).1 == rows
    ensures CreateSpec(rows, req).0 == Conflict <==> CreateCheck(req).None? && HasCode(rows, req.swiftCode)
    ensures CreateSpec(rows, req).0 == Created ==>
      && !HasCode(rows, req.swiftCode)
      && CreateSpec(rows, req).1 == rows + [RecordOf(Trimmed(req))]
      && Lookup(CreateSpec(rows, req).1, req.swiftCode) == Some(RecordOf(Trimmed(req)))
  {
    if CreateCheck(req).None? && !HasCode(rows, req.swiftCode) {
      assert IsValidSwiftCode(PyStr(req.swiftCode));
      var rec := RecordOf(Trimmed(req));
      assert rec.swiftCode == req.swiftCode;
      AppendKeepsInvariant(rows, rec);
      LookupAfterAppend(rows, rec);
    }
  }

  /** A request that passes every check is stored with its fields trimmed, its country
      code upper-cased, and with every checked condition holding of the stored record. */
  lemma CreatedRecordFields(req: CreateScheme.CreateRequest)
    requires CreateCheck(req).None?
    ensures var rec := RecordOf(Trimmed(req));
      && rec.swiftCode == req.swiftCode && rec.isHeadquarter == req.isHeadquarter
      && rec.address == Strip(req.address) && rec.bankName == Strip(req.bankName)
      && rec.countryName == Strip(req.countryName) && rec.countryIso2 == Upper(Strip(req.countryIso2))
      && IsValidSwiftCode(PyStr(rec.swiftCode))
      && |rec.swiftCode| >= 8 && rec.countryIso2 == rec.swiftCode[4..6] && |rec.bankName| >= 3
      && (IsHeadquarterCode(rec.swiftCode) ==> rec.isHeadquarter)
  {
    assert SrcParse.IsValidSwiftCode(PyStr(req.swiftCode));
    var t := Trimmed(req);
    assert CreateCheck(req) == TrimmedCheck(t);
    assert TrimmedCheck(t).None?;
    TrimmedCheckOrder(t);
    assert RecordOf(t).countryIso2 == t.countryIso2 && RecordOf(t).swiftCode == t.swiftCode;
  }

  /** The older create trims the bank name and demands three characters of it; request
      validation in the router does neither. */
  lemma BankNameRuleDiffers(address: string, countryName: string)
    ensures CreateCheck(CreateScheme.CreateRequest(address, "AB", "US", countryName, false, "AAAAUSCC123"))
      == Some(BankNameTooShort)
    ensures CreateScheme.Validate(CreateScheme.CreateRequest(address, "AB", "US", countryName, false, "AAAAUSCC123"))
      .Accepted?
  {
    var req := CreateScheme.CreateRequest(address, "AB", "US", countryName, false, "AAAAUSCC123");
    ShortBankNameFacts();
    CreateCheckOrderLast(req);
    CreateScheme.ValidateIsEffective(req);
    CreateScheme.AcceptedIff(req);
  }

  lemma ShortBankNameFacts()
    ensures IsValidSwiftCode(PyStr("AAAAUSCC123")) && !IsHeadquarterCode("AAAAUSCC123")
    ensures "AAAAUSCC123"[4..6] == "US"
    ensures Upper(Strip("US")) == "US" && Strip("AB") == "AB"
  {
    assert HasSwiftShape("AAAAUSCC123");
    UpperLettersAreClean("US");
    UpperLettersAreClean("AB");
  }



  /** `delete_swift_code`: `DELETE ... WHERE swift_code = code` after the lookup. */
  method DeleteSwiftCode(db: SwiftCodeTable, code: string) returns (r: DeleteOutcome)
    requires db.Valid()
    modifies db
    ensures db.Valid()
    ensures (r, db.rows) == DeleteSpec(old(db.rows), code)
  {
    var existing := db.QueryFirst(code);
    if existing.None? {
      return DeleteNotFound;
    }
    db.DeleteCode(code);
    return Deleted;
  }

  /** After a delete the code cannot be looked up any more. */
  lemma DeleteThenLookup(rows: seq<Record>, code: string)
    requires TableInvariant(rows)
    ensures DeleteSpec(rows, code).0 == DeleteNotFound <==> LookupById(rows, code) == CodeNotFound
    ensures LookupById(DeleteSpec(rows, code).1, code) == CodeNotFound
  {
    DeleteSpecEffect(rows, code);
  }
}
