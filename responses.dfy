/** The response shapes of the endpoints (app/schemes/SwiftCodeBranch.py,
    SwiftCodeWithBranches.py, SwiftCodesByCountryResponse.py, and the dictionaries src/main.py
    returns), and the loop that fills their lists. */
module Responses {
  import opened Common
  import opened Store

  /** A record as branch and country lists show it: without its country name. */
  datatype CodeView = CodeView(
    address: string,
    bankName: string,
    countryIso2: string,
    isHeadquarter: bool,
    swiftCode: string)

  function View(r: Record): CodeView {
    CodeView(r.address, r.bankName, r.countryIso2, r.isHeadquarter, r.swiftCode)
  }

  function Views(rs: seq<Record>): (vs: seq<CodeView>)
    ensures |vs| == |rs|
  {
    seq(|rs|, i requires 0 <= i < |rs| => View(rs[i]))
  }

  /** The answer to a lookup by code: "No data found." (404), or the record with, for a
      headquarters, the list of its branches. */
  datatype CodeLookup = CodeNotFound | CodeFound(details: Record, branches: Option<seq<CodeView>>)

  /** The answer to a lookup by country: "No data found" (404), the country with its codes, or
      the server error of an unguarded empty result. */
  datatype CountryLookup =
    | CountryNotFound
    | CountryFound(countryIso2: string, countryName: string, swiftCodes: seq<CodeView>)
    | CountryInternalError

  /** `for row in rows: lst.append({...})`: one view per row, in row order. */
  method ToViews(rs: seq<Record>) returns (vs: seq<CodeView>)
    ensures vs == Views(rs)
    ensures forall i :: 0 <= i < |rs| ==>
      vs[i].swiftCode == rs[i].swiftCode && vs[i].address == rs[i].address &&
      vs[i].bankName == rs[i].bankName && vs[i].countryIso2 == rs[i].countryIso2 &&
      vs[i].isHeadquarter == rs[i].isHeadquarter
  {
    vs := [];
    var i := 0;
    while i < |rs|
      invariant 0 <= i <= |rs|
      invariant vs == Views(rs[..i])
    {
      assert Views(rs[..i + 1]) == Views(rs[..i]) + [View(rs[i])];
      vs := vs + [View(rs[i])];
      i := i + 1;
    }
    assert rs[..i] == rs;
  }
}
