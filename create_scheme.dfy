/** `SwiftCodeCreate` (app/schemes/SwiftCodeCreate.py): the request body of the create
    endpoint and its pydantic validators. Pydantic runs the field validators in the order the
    fields are declared, handing each the fields validated so far (`info.data`); it collects
    the errors of every field, and runs the `after` model validator only when no field
    failed. */
module CreateScheme {
  import opened Common
  import opened Text
  import opened Validators
  import opened Store

  /** The declared fields, in declaration order. */
  datatype CreateRequest = CreateRequest(
    address: string,
    bankName: string,
    countryIso2: string,
    countryName: string,
    isHeadquarter: bool,
    swiftCode: string)

  /** The `ValueError`s the validators raise. */
  datatype CreateError =
    | CountryCodeLength      // "Country ISO2 code must be exactly 2 characters"
    | CountryCodeMismatch    // "Country ISO2 code must match the country code in the SWIFT code"
    | HeadquarterRequired    // "SWIFT codes ending with 'XXX' must be marked as headquarters"
    | InvalidSwiftCodeFormat // "Invalid SWIFT code format"

  /** What one field validator did: the (normalised) value, or the error it raised. */
  datatype FieldResult<T> = Valid(value: T) | Invalid(error: CreateError)

  datatype Validation = Accepted(request: CreateRequest) | Rejected(errors: seq<CreateError>)

  /** `info.data`: the fields validated so far, by name. */
  type FieldData = map<string, PyValue>

  /** `info.data.get('swiftCode')`, kept only when it is a (truthy) string. */
  function PriorSwiftCode(data: FieldData): Option<string> {
    if "swiftCode" in data && data["swiftCode"].PyStr? && data["swiftCode"].s != "" then
      Some(data["swiftCode"].s)
    else None
  }

  /** Python `s[lo:hi]` for 0 <= lo <= hi: the bounds are clamped to the string. */
  function Slice(s: string, lo: nat, hi: nat): (r: string)
    requires lo <= hi
    ensures hi <= |s| ==> r == s[lo..hi]
    ensures |r| <= hi - lo
  {
    var h := if hi <= |s| then hi else |s|;
    var l := if lo <= h then lo else h;
    s[l..h]
  }

  /** `strip_strings`, for `address` and `countryName`: `v.strip() if v else v`. */
  function StripStrings(v: string): (r: string)
    ensures r == Strip(v)
  {
    if v != "" then Strip(v) else v
  }

  /** `validate_country_code`: trimmed and upper-cased, exactly two characters, and equal to
      positions 5-6 of an already validated code when there is one. */
  function ValidateCountryCode(v: string, data: FieldData): (r: FieldResult<string>)
    ensures r.Valid? ==> r.value == Upper(Strip(v)) && |r.value| == 2
    ensures r == Invalid(CountryCodeLength) <==> |Upper(Strip(v))| != 2
    ensures PriorSwiftCode(data).None? ==> (r.Valid? <==> |Upper(Strip(v))| == 2)
  {
    var w := Upper(Strip(v));
    if |w| != 2 then Invalid(CountryCodeLength)
    else
      var prior := PriorSwiftCode(data);
      if prior.Some? && w != Slice(prior.value, 4, 6) then Invalid(CountryCodeMismatch)
      else Valid(w)
  }

  /** `validate_headquarter`: an already validated 11-character code ending in "XXX"
      demands the flag. */
  function ValidateHeadquarter(v: bool, data: FieldData): (r: FieldResult<bool>)
    ensures r.Valid? ==> r.value == v
    ensures PriorSwiftCode(data).None? ==> r == Valid(v)
  {
    var prior := PriorSwiftCode(data);
    if prior.Some? && |prior.value| == 11 && prior.value[8..] == "XXX" && !v then
      Invalid(HeadquarterRequired)
    else Valid(v)
  }

  /** `validate_swift_code` */
  function ValidateSwiftCode(v: string): (r: FieldResult<string>)
    ensures r.Valid? <==> IsValidSwiftCode(PyStr(v))
    ensures r.Valid? ==> r.value == v && (|v| == 8 || |v| == 11)
    ensures r.Invalid? ==> r.error == InvalidSwiftCodeFormat
  {
    if !IsValidSwiftCode(PyStr(v)) then Invalid(InvalidSwiftCodeFormat) else Valid(v)
  }

  /** `validate_fields_together`, the `after` model validator on the validated model. */
  function ValidateFieldsTogether(m: CreateRequest): (r: Option<CreateError>)
    ensures r.None? ==>
      (m.swiftCode != "" && m.countryIso2 != "" ==> m.countryIso2 == Slice(m.swiftCode, 4, 6))
    ensures r.None? ==> !(|m.swiftCode| == 11 && m.swiftCode[8..] == "XXX" && !m.isHeadquarter)
  {
    if m.swiftCode != "" && m.countryIso2 != "" && m.countryIso2 != Slice(m.swiftCode, 4, 6) then
      Some(CountryCodeMismatch)
    else if m.swiftCode != "" && |m.swiftCode| == 11 && m.swiftCode[8..] == "XXX" && !m.isHeadquarter then
      Some(HeadquarterRequired)
    else None
  }

  /** The errors of the fields that failed, in declaration order. */
  function FieldErrors(iso: FieldResult<string>, hq: FieldResult<bool>, code: FieldResult<string>)
    : (errors: seq<CreateError>)
    ensures errors == [] <==> iso.Valid? && hq.Valid? && code.Valid?
  {
    (if iso.Invalid? then [iso.error] else []) +
    (if hq.Invalid? then [hq.error] else []) +
    (if code.Invalid? then [code.error] else [])
  }

  /** `info.data` when `countryISO2` is validated: the two fields declared before it. */
  function DataBeforeCountryCode(req: CreateRequest): FieldData {
    map["address" := PyStr(StripStrings(req.address)), "bankName" := PyStr(req.bankName)]
  }

  /** `info.data` when `isHeadquarter` is validated: the fields declared before it that passed. */
  function DataBeforeHeadquarter(req: CreateRequest, iso: FieldResult<string>): FieldData {
    var data := DataBeforeCountryCode(req);
    var data := if iso.Valid? then data["countryISO2" := PyStr(iso.value)] else data;
    data["countryName" := PyStr(StripStrings(req.countryName))]
  }

  /** What pydantic does once every field validator has run: report the field errors, or
      build the model and run the `after` validator on it. */
  function Collect(req: CreateRequest, iso: FieldResult<string>, hq: FieldResult<bool>,
                   code: FieldResult<string>): Validation
  {
    var errors := FieldErrors(iso, hq, code);
    if errors != [] then Rejected(errors)
    else
      var m := CreateRequest(StripStrings(req.address), req.bankName, iso.value,
                             StripStrings(req.countryName), hq.value, code.value);
      match ValidateFieldsTogether(m)
      case Some(e) => Rejected([e])
      case None => Accepted(m)
  }

  /** `SwiftCodeCreate(**body)`: the fields in declaration order, each validator seeing the
      fields validated before it. */
  function Validate(req: CreateRequest): Validation {
    var iso := ValidateCountryCode(req.countryIso2, DataBeforeCountryCode(req));
    var hq := ValidateHeadquarter(req.isHeadquarter, DataBeforeHeadquarter(req, iso));
    var code := ValidateSwiftCode(req.swiftCode);
    Collect(req, iso, hq, code)
  }

  /** The country code as the request leaves validation. */
  function NormalIso(req: CreateRequest): string {
    Upper(Strip(req.countryIso2))
  }

  /** The rule the validators enforce in effect: the field errors of the country code and
      the code, in declaration order; only when both pass, the country-code match and then the
      headquarters flag. */
  function EffectiveValidation(req: CreateRequest): Validation {
    var fieldErrors :=
      (if |NormalIso(req)| != 2 then [CountryCodeLength] else []) +
      (if !IsValidSwiftCode(PyStr(req.swiftCode)) then [InvalidSwiftCodeFormat] else []);
    if fieldErrors != [] then Rejected(fieldErrors)
    else if NormalIso(req) != req.swiftCode[4..6] then Rejected([CountryCodeMismatch])
    else if IsHeadquarterCode(req.swiftCode) && !req.isHeadquarter then Rejected([HeadquarterRequired])
    else Accepted(CreateRequest(Strip(req.address), req.bankName, NormalIso(req),
                                Strip(req.countryName), req.isHeadquarter, req.swiftCode))
  }

  /** Because `swiftCode` is declared last, `info.data` never holds it: the cross-field
      checks inside the field validators never run, and validation comes down to the
      effective rule. */
  lemma ValidateIsEffective(req: CreateRequest)
    ensures Validate(req) == EffectiveValidation(req)
  {
    var iso := ValidateCountryCode(req.countryIso2, DataBeforeCountryCode(req));
    SwiftCodeNotYetValidated(req, iso);
    CollectIsEffective(req, iso, ValidateSwiftCode(req.swiftCode));
  }

  lemma SwiftCodeNotYetValidated(req: CreateRequest, iso: FieldResult<string>)
    ensures PriorSwiftCode(DataBeforeCountryCode(req)).None?
    ensures PriorSwiftCode(DataBeforeHeadquarter(req, iso)).None?
  {
    assert "swiftCode" !in DataBeforeCountryCode(req);
    assert "swiftCode" !in DataBeforeHeadquarter(req, iso);
  }

  lemma CollectIsEffective(req: CreateRequest, iso: FieldResult<string>, code: FieldResult<string>)
    requires iso == if |NormalIso(req)| != 2 then Invalid(CountryCodeLength) else Valid(NormalIso(req))
    requires code == ValidateSwiftCode(req.swiftCode)
    ensures Collect(req, iso, Valid(req.isHeadquarter), code) == EffectiveValidation(req)
  {
    var hq: FieldResult<bool> := Valid(req.isHeadquarter);
    var errors := FieldErrors(iso, hq, code);
    var fieldErrors :=
      (if |NormalIso(req)| != 2 then [CountryCodeLength] else []) +
      (if !IsValidSwiftCode(PyStr(req.swiftCode)) then [InvalidSwiftCodeFormat] else []);
    assert errors == fieldErrors;
    if errors != [] {
      assert Collect(req, iso, hq, code) == Rejected(errors);
      assert EffectiveValidation(req) == Rejected(fieldErrors);
    } else {
      var m := CreateRequest(StripStrings(req.address), req.bankName, iso.value,
                             StripStrings(req.countryName), hq.value, code.value);
      assert m == CreateRequest(Strip(req.address), req.bankName, NormalIso(req),
                                Strip(req.countryName), req.isHeadquarter, req.swiftCode);
      assert Slice(req.swiftCode, 4, 6) == req.swiftCode[4..6];
      assert m.swiftCode != "" && m.countryIso2 != "";
      AfterValidatorOnValidFields(m);
    }
  }

  /** On fields that passed, the `after` validator compares the country code with positions
      5-6, then the flag with the "XXX" suffix. */
  lemma AfterValidatorOnValidFields(m: CreateRequest)
    requires |m.swiftCode| >= 6 && m.countryIso2 != ""
    ensures ValidateFieldsTogether(m) ==
      if m.countryIso2 != m.swiftCode[4..6] then Some(CountryCodeMismatch)
      else if IsHeadquarterCode(m.swiftCode) && !m.isHeadquarter then Some(HeadquarterRequired)
      else None
  {
    assert Slice(m.swiftCode, 4, 6) == m.swiftCode[4..6];
  }

  /** A request is accepted exactly when the code is valid, the normalised country code has
      two characters equal to positions 5-6 of the code, and an 11-character code ending in
      "XXX" is flagged as headquarters. */
  lemma AcceptedIff(req: CreateRequest)
    ensures EffectiveValidation(req).Accepted? <==>
      && IsValidSwiftCode(PyStr(req.swiftCode))
      && |NormalIso(req)| == 2
      && NormalIso(req) == req.swiftCode[4..6]
      && !(IsHeadquarterCode(req.swiftCode) && !req.isHeadquarter)
  {
  }

  /** What an accepted request carries: the code and flag as sent, the bank name untouched,
      address and country name trimmed, the country code normalised and equal to positions
      5-6 of the code. */
  lemma AcceptedFields(req: CreateRequest)
    requires EffectiveValidation(req).Accepted?
    ensures var m := EffectiveValidation(req).request;
      && m.swiftCode == req.swiftCode && m.isHeadquarter == req.isHeadquarter
      && m.bankName == req.bankName
      && m.address == Strip(req.address) && m.countryName == Strip(req.countryName)
      && m.countryIso2 == NormalIso(req) && m.countryIso2 == m.swiftCode[4..6]
      && (IsHeadquarterCode(m.swiftCode) ==> m.isHeadquarter)
      && IsValidSwiftCode(PyStr(m.swiftCode))
  {
  }

  /** Every outcome of validation, by which of the two field validators failed: the field
      errors are all reported, in declaration order (the country code before the code), and
      a cross-field error is only ever reported alone, once both fields passed. */
  lemma ValidationCases(req: CreateRequest)
    ensures |NormalIso(req)| != 2 && !IsValidSwiftCode(PyStr(req.swiftCode)) ==>
      EffectiveValidation(req) == Rejected([CountryCodeLength, InvalidSwiftCodeFormat])
    ensures |NormalIso(req)| != 2 && IsValidSwiftCode(PyStr(req.swiftCode)) ==>
      EffectiveValidation(req) == Rejected([CountryCodeLength])
    ensures |NormalIso(req)| == 2 && !IsValidSwiftCode(PyStr(req.swiftCode)) ==>
      EffectiveValidation(req) == Rejected([InvalidSwiftCodeFormat])
    ensures |NormalIso(req)| == 2 && IsValidSwiftCode(PyStr(req.swiftCode)) ==>
      EffectiveValidation(req).Accepted? || EffectiveValidation(req) == Rejected([CountryCodeMismatch]) ||
      EffectiveValidation(req) == Rejected([HeadquarterRequired])
  {
    var lenBad := |NormalIso(req)| != 2;
    var codeBad := !IsValidSwiftCode(PyStr(req.swiftCode));
    var fieldErrors :=
      (if lenBad then [CountryCodeLength] else []) + (if codeBad then [InvalidSwiftCodeFormat] else []);
    if lenBad && codeBad {
      assert fieldErrors == [CountryCodeLength, InvalidSwiftCodeFormat];
    } else if lenBad {
      assert fieldErrors == [CountryCodeLength];
    } else if codeBad {
      assert fieldErrors == [InvalidSwiftCodeFormat];
    } else {
      assert fieldErrors == [];
    }
  }

  /** When both fields pass, the cross-field checks decide, in order: positions 5-6 of the
      code against the country code, then the headquarters flag. */
  lemma CrossFieldErrorsInOrder(req: CreateRequest)
    requires IsValidSwiftCode(PyStr(req.swiftCode)) && |NormalIso(req)| == 2
    ensures NormalIso(req) != req.swiftCode[4..6] ==> EffectiveValidation(req) == Rejected([CountryCodeMismatch])
    ensures NormalIso(req) == req.swiftCode[4..6] && IsHeadquarterCode(req.swiftCode) && !req.isHeadquarter
      ==> EffectiveValidation(req) == Rejected([HeadquarterRequired])
  {
  }

  /** A normalised country code that is already upper-case and trimmed is kept as sent. */
  lemma NormalIsoOfClean(req: CreateRequest)
    requires IsTrimmed(req.countryIso2) && IsUpperCased(req.countryIso2)
    ensures NormalIso(req) == req.countryIso2
  {
    StripOfTrimmed(req.countryIso2);
    UpperOfUpperCased(req.countryIso2);
  }

  /** The flag is not checked the other way: a code that does not end in "XXX" may still be
      flagged as headquarters. */
  lemma HeadquarterFlagNotForbidden(address: string, bankName: string, countryName: string)
    ensures Validate(CreateRequest(address, bankName, "DE", countryName, true, "TESTDEBB123")).Accepted?
  {
    var req := CreateRequest(address, bankName, "DE", countryName, true, "TESTDEBB123");
    CleanCountryCodes();
    ExampleCodes();
    ValidateIsEffective(req);
    AcceptedIff(req);
  }

  /** A country code that differs from positions 5-6 of the code is the one error reported. */
  lemma MismatchExample(address: string, bankName: string, countryName: string)
    ensures Validate(CreateRequest(address, bankName, "US", countryName, false, "TESTFRBB123"))
      == Rejected([CountryCodeMismatch])
  {
    var req := CreateRequest(address, bankName, "US", countryName, false, "TESTFRBB123");
    CleanCountryCodes();
    ExampleCodes();
    ValidateIsEffective(req);
    CrossFieldErrorsInOrder(req);
  }

  /** An 11-character code ending in "XXX" that is not flagged is the one error reported. */
  lemma UnflaggedHeadquarterExample(address: string, bankName: string, countryName: string)
    ensures Validate(CreateRequest(address, bankName, "DE", countryName, false, "TESTDEBBXXX"))
      == Rejected([HeadquarterRequired])
  {
    var req := CreateRequest(address, bankName, "DE", countryName, false, "TESTDEBBXXX");
    CleanCountryCodes();
    ExampleCodes();
    ValidateIsEffective(req);
    CrossFieldErrorsInOrder(req);
  }

  /** A code of the wrong shape is the one error reported. */
  lemma InvalidFormatExample(address: string, bankName: string, countryName: string)
    ensures Validate(CreateRequest(address, bankName, "US", countryName, false, "INVALID"))
      == Rejected([InvalidSwiftCodeFormat])
  {
    var req := CreateRequest(address, bankName, "US", countryName, false, "INVALID");
    CleanCountryCodes();
    assert !HasSwiftShape(req.swiftCode);
    ValidateIsEffective(req);
    ValidationCases(req);
  }

  /** The country codes of the examples above are already normalised. */
  lemma CleanCountryCodes()
    ensures NormalIso(CreateRequest("", "", "DE", "", false, "")) == "DE"
    ensures NormalIso(CreateRequest("", "", "US", "", false, "")) == "US"
  {
    UpperLettersAreClean("DE");
    UpperLettersAreClean("US");
  }

  /** The codes of the examples above. */
  lemma ExampleCodes()
    ensures IsValidSwiftCode(PyStr("TESTDEBB123")) && IsValidSwiftCode(PyStr("TESTFRBB123"))
    ensures IsValidSwiftCode(PyStr("TESTDEBBXXX")) && IsHeadquarterCode("TESTDEBBXXX")
  {
    assert HasSwiftShape("TESTDEBB123");
    assert HasSwiftShape("TESTFRBB123");
    assert HasSwiftShape("TESTDEBBXXX");
  }
}
