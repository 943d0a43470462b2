/** The endpoints of app/api/endpoints/swift_codes.py over the `swift_codes` table: lookup by
    code (with the branches of a headquarters), lookup by country, create and delete. The
    session is the table object; SQL `LIKE` patterns, which here never contain wildcards of
    their own (stored codes are letters and digits), are exact prefix and equality tests. */
module Router {
  import opened Common
  import opened Text
  import opened Validators
  import opened Store
  import opened Responses
  import opened CreateScheme

  /** The branch filter of a headquarters with code `hq`: the code starts with the base of
      `hq`, is not `hq` itself, and is not the base followed by "XXX". */
  predicate IsRouterBranch(hq: string, code: string) {
    StartsWith(code, Base(hq)) && code != hq && code != Base(hq) + "XXX"
  }

  function RouterBranchFilter(hq: string): Record -> bool {
    (r: Record) => IsRouterBranch(hq, r.swiftCode)
  }

  /** `get_swift_code_by_id` */
  function LookupById(rows: seq<Record>, code: string): CodeLookup {
    match Lookup(rows, code)
    case None => CodeNotFound
    case Some(h) =>
      CodeFound(h, if h.isHeadquarter then Some(Views(Filter(rows, RouterBranchFilter(h.swiftCode)))) else None)
  }

  method GetSwiftCodeById(db: SwiftCodeTable, code: string) returns (r: CodeLookup)
    ensures r == LookupById(db.rows, code)
  {
    var found := db.QueryFirst(code);
    if found.None? {
      return CodeNotFound;
    }
    var h := found.value;
    if h.isHeadquarter {
      var rows := db.Select(RouterBranchFilter(h.swiftCode));
      var branches := ToViews(rows);
      return CodeFound(h, Some(branches));
    }
    return CodeFound(h, None);
  }

  /** An absent code yields "No data found."; a present one yields its own record, with a
      branch list exactly when it is flagged as headquarters. */
  lemma LookupByIdCases(rows: seq<Record>, code: string)
    ensures LookupById(rows, code) == CodeNotFound <==> !HasCode(rows, code)
    ensures LookupById(rows, code).CodeFound? ==>
      && LookupById(rows, code).details in rows
      && LookupById(rows, code).details.swiftCode == code
      && (LookupById(rows, code).branches.Some? <==> LookupById(rows, code).details.isHeadquarter)
  {
  }

  /** The branch list of a headquarters is sound and complete: every listed entry is a stored
      row that shares the first 8 characters, differs from the headquarters code and from
      base+"XXX"; and every stored row with those properties is listed. */
  lemma BranchesSoundAndComplete(rows: seq<Record>, code: string, h: Record, branches: seq<CodeView>)
    requires LookupById(rows, code) == CodeFound(h, Some(branches))
    ensures h.isHeadquarter && h.swiftCode == code
    ensures forall i :: 0 <= i < |branches| ==>
      && StartsWith(branches[i].swiftCode, Base(code))
      && branches[i].swiftCode != code
      && branches[i].swiftCode != Base(code) + "XXX"
      && exists r :: r in rows && View(r) == branches[i]
    ensures forall r :: r in rows && IsRouterBranch(code, r.swiftCode) ==> View(r) in branches
  {
    var listed := Filter(rows, RouterBranchFilter(code));
    assert branches == Views(listed);
    forall i | 0 <= i < |branches|
      ensures StartsWith(branches[i].swiftCode, Base(code))
      ensures branches[i].swiftCode != code && branches[i].swiftCode != Base(code) + "XXX"
      ensures exists r :: r in rows && View(r) == branches[i]
    {
      assert listed[i] in listed;
      assert View(listed[i]) == branches[i];
    }
    forall r | r in rows && IsRouterBranch(code, r.swiftCode) ensures View(r) in branches {
      assert r in listed;
      var k :| 0 <= k < |listed| && listed[k] == r;
      assert branches[k] == View(r);
    }
  }

  /** A lookup of a record that is not flagged as headquarters carries no branch list. */
  lemma NonHeadquarterHasNoBranches(rows: seq<Record>, code: string)
    requires LookupById(rows, code).CodeFound? && !LookupById(rows, code).details.isHeadquarter
    ensures LookupById(rows, code).branches == None
  {
  }

  /** How the branch filter of "AAAAUSCCXXX" classifies the fixture codes. */
  lemma FixtureCodes()
    ensures !IsRouterBranch("AAAAUSCCXXX", "AAAAUSCCXXX")
    ensures IsRouterBranch("AAAAUSCCXXX", "AAAAUSCC123") && IsRouterBranch("AAAAUSCCXXX", "AAAAUSCC321")
    ensures !IsRouterBranch("AAAAUSCCXXX", "ZZYYCAWW123")
  {
    assert Base("AAAAUSCCXXX") == "AAAAUSCC";
    assert "AAAAUSCC123"[..8] == "AAAAUSCC" && "AAAAUSCC123"[8] != 'X';
    assert "AAAAUSCC321"[..8] == "AAAAUSCC" && "AAAAUSCC321"[8] != 'X';
    assert "ZZYYCAWW123"[0] != 'A';
  }

  /** A filter that keeps the middle two of four rows returns exactly those two. */
  lemma FilterKeepsMiddle(a: Record, b: Record, c: Record, d: Record, f: Record -> bool)
    requires !f(a) && f(b) && f(c) && !f(d)
    ensures Filter([a, b, c, d], f) == [b, c]
  {
    assert [d][1..] == [];
    assert Filter([d], f) == [];
    assert [c, d][1..] == [d];
    assert Filter([c, d], f) == [c];
    assert [b, c, d][1..] == [c, d];
    assert Filter([b, c, d], f) == [b, c];
    assert [a, b, c, d][1..] == [b, c, d];
  }

  /** The headquarters of the integration fixtures is listed with its two branches, in
      table order; the other bank's code is not among them. */
  lemma FixtureBranches(hq: Record, b1: Record, b2: Record, other: Record)
    requires hq.swiftCode == "AAAAUSCCXXX" && hq.isHeadquarter
    requires b1.swiftCode == "AAAAUSCC123" && b2.swiftCode == "AAAAUSCC321"
    requires other.swiftCode == "ZZYYCAWW123"
    ensures LookupById([hq, b1, b2, other], "AAAAUSCCXXX") == CodeFound(hq, Some([View(b1), View(b2)]))
  {
    var rows := [hq, b1, b2, other];
    var f := RouterBranchFilter(hq.swiftCode);
    assert rows[0] == hq;
    assert Lookup(rows, hq.swiftCode) == Some(hq);
    FixtureCodes();
    FilterKeepsMiddle(hq, b1, b2, other, f);
    assert Views([b1, b2]) == [View(b1), View(b2)];
  }


  /** `countryISO2code.strip().upper()` */
  function NormalCountryQuery(query: string): string {
    Upper(Strip(query))
  }

  function IsoIs(iso: string): Record -> bool {
    (r: Record) => r.countryIso2 == iso
  }

  /** The answer for an already normalised country code: the rows with that code, and the
      country name of the first of them. */
  function CountryResult(rows: seq<Record>, iso: string): CountryLookup {
    var matches := Filter(rows, IsoIs(iso));
    if matches == [] then CountryNotFound
    else CountryFound(iso, matches[0].countryName, Views(matches))
  }

  /** `get_swift_codes_by_country_iso2_code` */
  function ByCountry(rows: seq<Record>, query: string): CountryLookup {
    CountryResult(rows, NormalCountryQuery(query))
  }

  method GetSwiftCodesByCountry(db: SwiftCodeTable, query: string) returns (r: CountryLookup)
    ensures r == ByCountry(db.rows, query)
  {
    var iso := Upper(Strip(query));
    var matches := db.Select(IsoIs(iso));
    if matches == [] {
      return CountryNotFound;
    }
    var countryName := matches[0].countryName;
    var views := ToViews(matches);
    return CountryFound(iso, countryName, views);
  }

  /** The country lookup answers "No data found" exactly when no row has the country code;
      it never fails otherwise. */
  lemma CountryNotFoundIff(rows: seq<Record>, iso: string)
    ensures CountryResult(rows, iso) == CountryNotFound <==> forall r :: r in rows ==> r.countryIso2 != iso
    ensures !CountryResult(rows, iso).CountryInternalError?
  {
    var matches := Filter(rows, IsoIs(iso));
    if matches == [] {
      forall r | r in rows ensures r.countryIso2 != iso {
        assert r !in matches;
      }
    } else {
      assert matches[0] in matches;
    }
  }

  /** A found country lists exactly the rows with the country code, in table order, and
      takes the country name from the first of them. */
  lemma CountryFoundContents(rows: seq<Record>, iso: string)
    requires CountryResult(rows, iso).CountryFound?
    ensures var found := CountryResult(rows, iso);
      && found.countryIso2 == iso
      && found.swiftCodes == Views(Filter(rows, IsoIs(iso)))
      && (forall i :: 0 <= i < |found.swiftCodes| ==> found.swiftCodes[i].countryIso2 == iso)
      && (forall r :: r in rows && r.countryIso2 == iso ==> View(r) in found.swiftCodes)
    ensures exists k ::
      && 0 <= k < |rows| && rows[k].countryIso2 == iso
      && CountryResult(rows, iso).countryName == rows[k].countryName
      && forall j :: 0 <= j < k ==> rows[j].countryIso2 != iso
  {
    var matches := Filter(rows, IsoIs(iso));
    var views := Views(matches);
    forall i | 0 <= i < |views| ensures views[i].countryIso2 == iso {
      assert matches[i] in matches;
    }
    forall r | r in rows && r.countryIso2 == iso ensures View(r) in views {
      assert r in matches;
      var k :| 0 <= k < |matches| && matches[k] == r;
      assert views[k] == View(r);
    }
    FilterFirst(rows, IsoIs(iso));
  }

  /** The query is trimmed and upper-cased before the lookup. */
  lemma ByCountryNormalises(rows: seq<Record>, query: string)
    ensures ByCountry(rows, query).CountryFound? ==>
      ByCountry(rows, query).countryIso2 == Upper(Strip(query))
    ensures ByCountry(rows, query) == CountryNotFound <==>
      forall r :: r in rows ==> r.countryIso2 != Upper(Strip(query))
    ensures !ByCountry(rows, query).CountryInternalError?
  {
    CountryNotFoundIff(rows, NormalCountryQuery(query));
    if ByCountry(rows, query).CountryFound? {
      CountryFoundContents(rows, NormalCountryQuery(query));
    }
  }

  /** The outcome of a create request: the 422 of failed request validation with its errors,
      "SWIFT code already exists" (409), or created. */
  datatype CreateOutcome = Unprocessable(errors: seq<CreateError>) | Conflict | Created

  /** The row the create endpoint stores for a validated request. */
  function NewRecord(m: CreateRequest): Record {
    Record(m.swiftCode, m.address, m.bankName, m.countryIso2, m.countryName, m.isHeadquarter)
  }

  /** `create_swift_code_record`, with FastAPI's validation of the body in front of it: the
      outcome and the rows afterwards. */
  function CreateSpec(rows: seq<Record>, req: CreateRequest): (CreateOutcome, seq<Record>) {
    match Validate(req)
    case Rejected(errors) => (Unprocessable(errors), rows)
    case Accepted(m) =>
      if HasCode(rows, m.swiftCode) then (Conflict, rows) else (Created, rows + [NewRecord(m)])
  }

  method CreateSwiftCodeRecord(db: SwiftCodeTable, req: CreateRequest) returns (r: CreateOutcome)
    requires db.Valid()
    modifies db
    ensures db.Valid()
    ensures (r, db.rows) == CreateSpec(old(db.rows), req)
  {
    var v := Validate(req);
    if v.Rejected? {
      return Unprocessable(v.errors);
    }
    var m := v.request;
    ValidateIsEffective(req);
    AcceptedFields(req);
    var existing := db.QueryFirst(m.swiftCode);
    if existing.Some? {
      return Conflict;
    }
    db.Insert(NewRecord(m));
    return Created;
  }

  /** A rejected request and an existing code leave the table as it was; a created record
      is appended with exactly the validated fields, can be looked up by its code afterwards,
      and the table invariant is kept. */
  lemma CreateSpecEffect(rows: seq<Record>, req: CreateRequest)
    requires TableInvariant(rows)
    ensures TableInvariant(CreateSpec(rows, req).1)
    ensures CreateSpec(rows, req).0.Unprocessable? <==> Validate(req).Rejected?
    ensures CreateSpec(rows, req).0 == Conflict <==> Validate(req).Accepted? && HasCode(rows, req.swiftCode)
    ensures CreateSpec(rows, req).0 != Created ==> CreateSpec(rows, req).1 == rows
    ensures CreateSpec(rows, req).0 == Created ==>
      && !HasCode(rows, req.swiftCode)
      && CreateSpec(rows, req).1 == rows + [NewRecord(Validate(req).request)]
      && LookupById(CreateSpec(rows, req).1, req.swiftCode).CodeFound?
      && LookupById(CreateSpec(rows, req).1, req.swiftCode).details == NewRecord(Validate(req).request)
  {
    match Validate(req)
    case Rejected(_) =>
    case Accepted(m) =>
      ValidateIsEffective(req);
      AcceptedFields(req);
      if !HasCode(rows, m.swiftCode) {
        AppendKeepsInvariant(rows, NewRecord(m));
        LookupAfterAppend(rows, NewRecord(m));
      }
  }

  /** The created record keeps the bank name as sent and the normalised country code. */
  lemma CreatedRecordFields(rows: seq<Record>, req: CreateRequest)
    requires CreateSpec(rows, req).0 == Created
    ensures var rec := NewRecord(Validate(req).request);
      && rec.swiftCode == req.swiftCode && rec.bankName == req.bankName
      && rec.address == Strip(req.address) && rec.countryName == Strip(req.countryName)
      && rec.countryIso2 == Upper(Strip(req.countryIso2)) && rec.isHeadquarter == req.isHeadquarter
      && |rec.swiftCode| >= 8 && rec.countryIso2 == rec.swiftCode[4..6]
  {
    ValidateIsEffective(req);
    AcceptedFields(req);
  }

  /** `delete_swift_code` */
  method DeleteSwiftCode(db: SwiftCodeTable, code: string) returns (r: DeleteOutcome)
    requires db.Valid()
    modifies db
    ensures db.Valid()
    ensures (r, db.rows) == DeleteSpec(old(db.rows), code)
  {
    var existing := db.QueryFirst(code);
    if existing.None? {
      return DeleteNotFound;
    }
    db.DeleteCode(code);
    return Deleted;
  }

  /** Delete reports "not found" exactly when a lookup would, and after a delete the code
      cannot be looked up any more. */
  lemma DeleteThenLookup(rows: seq<Record>, code: string)
    requires TableInvariant(rows)
    ensures DeleteSpec(rows, code).0 == DeleteNotFound <==> LookupById(rows, code) == CodeNotFound
    ensures LookupById(DeleteSpec(rows, code).1, code) == CodeNotFound
  {
    DeleteSpecEffect(rows, code);
  }
}
