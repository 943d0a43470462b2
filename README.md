# swift-codes in Dafny

A model of the core of the swift-codes service. The service loads bank identifier codes
(SWIFT/BIC) from a CSV feed into a `swift_codes` table and serves them over HTTP. The model
covers these parts:

- **The identifier validator** (`Validators`, app/utils/validators.py). Its regular
  expression is written out as the matcher Python's `re.match` runs. It is proved equal to a
  plain shape predicate, up to the trailing-newline finding below.
- **The feed parser** (`Parser`, app/core/parser.py). `os.path.isfile` and
  `pandas.read_csv` are inputs: whether the path is a file, and what reading it gave. The
  data frame is a header plus rows of cells, where a cell is a string or NaN. The parser is a
  specification function plus a method with the source's loops. The proofs cover:
  - the order in which failures are reported;
  - how the feed is normalised;
  - that parsed records fit the table: the codes are unique and valid.
- **The duplicate parser** (`SrcParse`, src/parse.py). Its whole-column checks are written as
  loops, and its result is proved equal, on every input, to that of app/core/parser.py.
- **The create-request schema** (`CreateScheme`, app/schemes/SwiftCodeCreate.py). The
  pydantic field validators and the `after` model validator are modelled. `swiftCode` is
  declared last, so the cross-field checks inside the field validators never see it. The
  model proves what validation comes down to: `CreateScheme.EffectiveValidation`.
- **The table** (`Store`, app/models/swift_code.py). A class whose `rows` sequence the
  endpoints query, insert into and delete from. Its invariant is that codes are unique and
  valid.
- **The router endpoints** (`Router`, app/api/endpoints/swift_codes.py): lookup by code
  with the branch list of a headquarters, lookup by country, create and delete.
- **The older endpoints of src/main.py** (`Legacy`): `find_all_branches`, lookup by code,
  lookup by country with its crash path, create with its own check chain, and delete. The
  proofs show where the two APIs agree and where they differ.
- **The response shapes** (`Responses`): branch and country lists.

Each endpoint is a module-level method that takes the table object (`db: SwiftCodeTable`),
as the source's endpoints take a session. It is proved to return, and to leave, what a
specification function of the old rows says. The lemmas then state what the source promises
about that function.

## Model

| member | source | states |
|---|---|---|
| Validators.LettersAtIff | app/utils/validators.py:33 | the `[A-Z]{n}` step of the matcher succeeds exactly when the next n characters exist and are capital letters |
| Validators.AlnumsAtIff | app/utils/validators.py:33 | the `[A-Z0-9]{n}` step succeeds exactly when the next n characters exist and are capital letters or digits |
| Validators.FullMatchIsShape | app/utils/validators.py:33 | a whole-string match of the pattern holds exactly for 8 or 11 characters: 6 letters, then letters or digits |
| Validators.RegexMatchAcceptsTrailingNewline | app/utils/validators.py:33 | `re.match` with `$` accepts exactly the well-shaped strings, and those followed by one final newline |
| Validators.IsValidSwiftCodeAsWritten | app/utils/validators.py:30-35 | the validator as written: true exactly for a `str` of the right shape, optionally followed by one newline; false for non-strings |
| Validators.AsWrittenAcceptsNineCharacters | app/utils/validators.py:33 | the 9-character string "AAAABBCC\n" passes the validator as written |
| Validators.IsValidSwiftCode | app/utils/validators.py:30-35 | the corrected validator: true exactly for a `str` with the identifier shape |
| Validators.AcceptedCodeSegments | app/utils/validators.py:8-13 | an accepted code has 8 or 11 characters: 4 bank letters, 2 country letters, 2 location letters or digits, and an optional branch part of 3 letters or digits |
| Validators.CorrectedRejectsTrailingNewline | app/utils/validators.py:33 | the corrected validator rejects "AAAABBCC\n" and agrees with the as-written one on every string not ending in a newline |
| Validators.NonStringsRejected | app/utils/validators.py:30-31 | a value that is not a `str` is rejected by both validators |
| Validators.CaseSensitive | app/utils/validators.py:33 | lower-case letters are rejected; the same code in capitals is accepted |
| Validators.ValidatorRejections | app/utils/validators.py:33 | empty, hyphenated, short, long, digit-led and mixed bank or country codes are rejected |
| Validators.ValidatorAcceptances | app/utils/validators.py:33 | a headquarters code and a code with digits in the location and branch parts are accepted |
| Text.Strip | app/core/parser.py:42 | `str.strip()` leaves no whitespace at either end |
| Text.StripEmptyIff | app/core/parser.py:42 | a string strips to "" exactly when every character is whitespace |
| Text.StripIsInfix | app/core/parser.py:82-87 | `strip()` returns a contiguous part of its input |
| Text.StripKeepsUpperCased | app/core/parser.py:82-87 | stripping an upper-cased string leaves it upper-cased |
| Text.UpperStripNormalises | app/core/parser.py:82-87 | `.str.upper().str.strip()` gives an upper-cased, trimmed string, and applying it twice changes nothing |
| Common.Filter | app/api/endpoints/swift_codes.py:46-52 | a filtered query returns no more rows than the table, and exactly the rows meeting the condition |
| Common.FilterAppend | app/api/endpoints/swift_codes.py:46-52 | filtering distributes over concatenation, so table order is kept |
| Common.FilterFirst | app/api/endpoints/swift_codes.py:84 | the first row a query returns is the first row of the table meeting the condition |
| Store.Base | app/api/endpoints/swift_codes.py:45 | `code[:8]` is the prefix of length min(8, length) |
| Store.Lookup | app/api/endpoints/swift_codes.py:27-28 | `.filter(swift_code == c).first()` is absent exactly when no row has the code, otherwise a row of the table with that code |
| Store.WithoutCodeKeepsOthers | src/main.py:207-209 | after deleting by code, no row has the code, every other row is kept, and one row fewer remains when the code was present |
| Store.FilterKeepsInvariant | app/models/swift_code.py:15-16 | a selection of the rows keeps primary-key uniqueness and valid codes |
| Store.AppendKeepsInvariant | app/models/swift_code.py:15-16 | adding a row with a new, valid code keeps the table's invariant |
| Store.LookupAfterAppend | app/api/endpoints/swift_codes.py:120-130 | after the insert, a lookup of the new code finds the new row |
| Store.DeleteSpecEffect | app/api/endpoints/swift_codes.py:146-156 | delete reports not-found exactly when the code is absent, leaving the table unchanged; otherwise it removes exactly that row; the invariant is kept |
| Store.SwiftCodeTable.QueryFirst | app/api/endpoints/swift_codes.py:27-28 | the method's row is the table lookup of the code |
| Store.SwiftCodeTable.Select | app/api/endpoints/swift_codes.py:77-78 | the method returns the filtered rows in table order |
| Store.SwiftCodeTable.Insert | app/api/endpoints/swift_codes.py:129-130 | the row is appended and the invariant is kept |
| Store.SwiftCodeTable.DeleteCode | app/api/endpoints/swift_codes.py:153-154 | the new rows are the old rows without the code, and the invariant is kept |
| Responses.Views | app/api/endpoints/swift_codes.py:54-62 | one view per record |
| Responses.ToViews | app/api/endpoints/swift_codes.py:86-95 | the list-building loop yields, per row and in order, the row's address, bank name, country code, flag and code |
| Parser.PathStringIsStripped | app/core/parser.py:42-43 | a path passes exactly when it is a `str` that does not strip to "" |
| Parser.IndexOf | app/core/parser.py:70 | a column is read from the first header cell with that name |
| Parser.FirstMissingIsFirstAbsent | app/core/parser.py:66-68 | the reported column is the first absent one in declared order; none is reported exactly when all are present |
| Parser.NoneMissingHasColumns | app/core/parser.py:58-68 | no column is reported exactly when all five required columns are present |
| Parser.FindMissingColumn | app/core/parser.py:66-68 | the column loop returns the first missing required column |
| Parser.NormalizeColumn | app/core/parser.py:82-87 | a loop over one text column gives, for every cell in order, its normalised text (`NormalizeCell`); `Parser.NormalizedCellIsUpperTrimmed` shows each is upper-cased and trimmed, and `Parser.NormalizeCellIsFillnaUpperStrip` that it is fillna, upper, then strip |
| Parser.ToRecords | app/core/parser.py:92-103 | a loop pairing the columns row by row gives exactly one record per row, in row order, holding the code as read and row i of every other column; `Parser.SuccessfulParseKeepsRows` states this for a whole parse |
| Parser.NormalizeTable | app/core/parser.py:78-103 | the normalisation steps produce the specified records |
| Parser.ParseSwiftData | app/core/parser.py:42-105 | the parser's result is the specified result on every input, with the corrected validator in place of the as-written one (see "Left out") |
| Parser.ParseFrame | app/core/parser.py:58-105 | on the data frame, the checks and the normalisation give the specified result, with the corrected validator in place of the as-written one (see "Left out") |
| Parser.ParseTableErrors | app/core/parser.py:66-76 | a data frame can only fail for a missing column, an invalid code or a duplicate code |
| Parser.ParseFailureOrder | app/core/parser.py:42-56 | file-level errors are raised in order: bad path, not a file, not `.csv`, parser error, empty data; each exactly when the earlier checks passed |
| Parser.BlankPathRejected | app/core/parser.py:42-43 | `None`, non-strings and blank strings raise `InvalidStringInputError` |
| Parser.TableFailureOrder | app/core/parser.py:66-76 | a missing column wins over an invalid code, which wins over a duplicate; the parse succeeds exactly when none applies |
| Parser.MissingColumnIsFirstDeclared | app/core/parser.py:58-68 | `MissingColumnError(c)` is raised exactly when c is the first required column, in declared order, that the header lacks |
| Parser.AddressMissingReported | app/core/parser.py:66-68 | a feed lacking only ADDRESS reports ADDRESS |
| Parser.InvalidCodeRejectsFeed | app/core/parser.py:70-72 | one invalid code rejects the whole feed, even if codes also repeat |
| Parser.AbsentCodeIsInvalid | app/core/parser.py:70 | a NaN code cell is not a valid code |
| Parser.RepeatedCodeRejected | app/core/parser.py:74-76 | any exact repeat among valid codes raises `DuplicateSwiftCodeError` |
| Parser.BuiltRecordAt | app/core/parser.py:80-103 | output record i, field by field, built from row i |
| Parser.SuccessfulParseKeepsRows | app/core/parser.py:80-103 | success returns one record per row, in row order, with the code unchanged and the four text fields normalised from their cells |
| Parser.NormalizeCellIsFillnaUpperStrip | app/core/parser.py:80-87 | normalising a cell is `fillna('')`, then `str.upper`, then `str.strip` |
| Parser.NormalizedCellIsUpperTrimmed | app/core/parser.py:82-87 | a normalised cell is upper-cased and trimmed |
| Parser.SuccessfulParseNormalises | app/core/parser.py:82-87 | every text field of a parsed record is upper-cased and trimmed |
| Parser.SuccessfulParseClassifies | app/core/parser.py:89-90 | `is_headquarter` holds exactly for 11-character codes ending in "XXX" |
| Parser.SuccessfulParseFitsTable | app/core/parser.py:70-76 | parsed records have unique, valid codes, so they satisfy the table's invariant, with the corrected validator in place of the as-written one (see "Left out") |
| Parser.AbsentFieldBecomesEmpty | app/core/parser.py:80 | a NaN text cell becomes "", both through `fillna('')` and as normalised |
| Parser.HeaderOnlyFeed | app/core/parser.py:66-105 | a feed with the columns but no rows parses to no records |
| Parser.HeadquarterExamples | app/core/parser.py:89-90 | "AAISALTRXXX" is a headquarters; "ABIEBGS1123" and the 8-character "ABIEBXXX" are not |
| Parser.TwoDistinctCodesKept | app/core/parser.py:74-76 | two rows with distinct valid codes are both kept, in order |
| Parser.DeclaredHeaderFacts | app/core/parser.py:58-64 | the declared header has every required column, the code column first |
| Parser.SharedBaseCodes | app/core/parser.py:74-76 | "ABIEBGS1123" and "ABIEBGS1122" are valid and distinct |
| Parser.SharedBaseIsNotDuplicate | app/core/parser.py:74-76 | two codes sharing their first 8 characters are not duplicates: both rows are parsed |
| SrcParse.IsValidSwiftCodeAsWritten | src/parse.py:14-20 | the copied validator agrees with that of app/utils/validators.py on every value, including the trailing-newline case |
| SrcParse.IsValidSwiftCode | src/parse.py:14-20 | the corrected copy agrees with the corrected validator and accepts exactly strings of the identifier shape |
| SrcParse.AnyInvalidCode | src/parse.py:52-54 | the row loop reports an invalid code exactly when some row's code is invalid, with the corrected validator in place of the as-written one (see "Left out") |
| SrcParse.AnyDuplicateCode | src/parse.py:56-58 | the nested loop reports a duplicate exactly when two rows hold the same code |
| SrcParse.ParseSwiftData | src/parse.py:23-84 | the copy returns what app/core/parser.py returns, on every input; successful output fits the table, with the corrected validator in place of the as-written one (see "Left out") |
| SrcParse.ParseFrame | src/parse.py:40-84 | on the data frame, the copy's checks and normalisation give the same result as app/core/parser.py, with the corrected validator in place of the as-written one (see "Left out") |
| CreateScheme.Slice | app/schemes/SwiftCodeCreate.py:26 | Python `s[lo:hi]` when `hi` is within the string; never longer than `hi-lo` |
| CreateScheme.StripStrings | app/schemes/SwiftCodeCreate.py:56-58 | `v.strip() if v else v` is `strip()` |
| CreateScheme.ValidateCountryCode | app/schemes/SwiftCodeCreate.py:34-45 | accepts only a 2-character normalised code, returned normalised; the length error is raised exactly for other lengths; with no prior code, accepted exactly at length 2 |
| CreateScheme.ValidateHeadquarter | app/schemes/SwiftCodeCreate.py:47-54 | the flag is returned unchanged; with no prior code it is always accepted |
| CreateScheme.ValidateSwiftCode | app/schemes/SwiftCodeCreate.py:17-21 | accepts exactly valid codes, which have 8 or 11 characters; otherwise raises the format error, with the corrected validator in place of the as-written one (see "Left out") |
| CreateScheme.ValidateFieldsTogether | app/schemes/SwiftCodeCreate.py:23-32 | passing means the country code equals `swiftCode[4:6]` when both are set, and an "XXX" 11-character code is flagged |
| CreateScheme.FieldErrors | app/schemes/SwiftCodeCreate.py:17-58 | no field error is reported exactly when every field validator passed |
| CreateScheme.ValidateIsEffective | app/schemes/SwiftCodeCreate.py:34-54 | because `swiftCode` is declared last, the full validation equals the effective rule |
| CreateScheme.SwiftCodeNotYetValidated | app/schemes/SwiftCodeCreate.py:40 | `info.data` holds no `swiftCode` when `countryISO2` or `isHeadquarter` is validated |
| CreateScheme.CollectIsEffective | app/schemes/SwiftCodeCreate.py:23-32 | with those field results, collecting the errors and running the model validator gives the effective rule |
| CreateScheme.AfterValidatorOnValidFields | app/schemes/SwiftCodeCreate.py:23-32 | on validated fields, the model validator checks the country code first, then the flag |
| CreateScheme.AcceptedIff | app/schemes/SwiftCodeCreate.py:17-45 | accepted exactly when the code is valid, the normalised country code has 2 characters equal to positions 5-6, and an "XXX" code is flagged |
| CreateScheme.AcceptedFields | app/schemes/SwiftCodeCreate.py:34-58 | an accepted request keeps its code, flag and bank name, and has stripped address and country name and the normalised country code; the country code matches the code, and an "XXX" code is flagged |
| CreateScheme.ValidationCases | app/schemes/SwiftCodeCreate.py:17-45 | field errors are all reported, country code before code; a cross-field error comes only when both fields passed, and then alone |
| CreateScheme.CrossFieldErrorsInOrder | app/schemes/SwiftCodeCreate.py:25-30 | with both fields valid, a mismatch is the one error, and otherwise an unflagged "XXX" code is |
| CreateScheme.NormalIsoOfClean | app/schemes/SwiftCodeCreate.py:36 | a trimmed upper-case country code is kept as sent |
| CreateScheme.HeadquarterFlagNotForbidden | app/schemes/SwiftCodeCreate.py:29 | a non-"XXX" code flagged as headquarters is accepted |
| CreateScheme.MismatchExample | app/schemes/SwiftCodeCreate.py:25-27 | "US" with "TESTFRBB123" is rejected with only the mismatch error |
| CreateScheme.UnflaggedHeadquarterExample | app/schemes/SwiftCodeCreate.py:29-30 | an unflagged "TESTDEBBXXX" is rejected with only the headquarters error |
| CreateScheme.InvalidFormatExample | app/schemes/SwiftCodeCreate.py:17-21 | "INVALID" is rejected with only the format error |
| CreateScheme.CleanCountryCodes | app/schemes/SwiftCodeCreate.py:36 | "DE" and "US" are kept as sent |
| CreateScheme.ExampleCodes | app/schemes/SwiftCodeCreate.py:19 | the example codes are valid, and "TESTDEBBXXX" is a headquarters code |
| Router.GetSwiftCodeById | app/api/endpoints/swift_codes.py:20-66 | the endpoint answers what `Router.LookupById` specifies on the current rows |
| Router.LookupByIdCases | app/api/endpoints/swift_codes.py:27-43 | 404 exactly when the code is absent; otherwise the row with that code, with a branch list exactly when it is flagged |
| Router.BranchesSoundAndComplete | app/api/endpoints/swift_codes.py:43-62 | every listed branch shares the base, is neither the code nor base+"XXX", and comes from a row; every such row is listed |
| Router.NonHeadquarterHasNoBranches | app/api/endpoints/swift_codes.py:65-66 | an unflagged row is returned without a branch list |
| Router.FixtureCodes | app/api/endpoints/swift_codes.py:45-50 | for "AAAAUSCCXXX", the two "AAAAUSCC" branches pass the filter; the headquarters and the other bank do not |
| Router.FilterKeepsMiddle | app/api/endpoints/swift_codes.py:46-52 | a filter keeping the middle two of four rows returns them in order |
| Router.FixtureBranches | app/api/endpoints/swift_codes.py:43-64 | the fixture headquarters is returned with exactly its two branches, in table order |
| Router.GetSwiftCodesByCountry | app/api/endpoints/swift_codes.py:69-103 | the endpoint answers what `Router.ByCountry` specifies on the current rows |
| Router.CountryNotFoundIff | app/api/endpoints/swift_codes.py:80-82 | 404 exactly when no row has the country code; never a server error |
| Router.CountryFoundContents | app/api/endpoints/swift_codes.py:77-101 | the answer echoes the code and lists exactly the matching rows, in order; the country name comes from the first matching row |
| Router.ByCountryNormalises | app/api/endpoints/swift_codes.py:75-82 | the query is stripped and upper-cased before matching, and the answer carries that form |
| Router.CreateSwiftCodeRecord | app/api/endpoints/swift_codes.py:106-130 | the outcome and the new rows are those `Router.CreateSpec` specifies; the invariant is kept, with the corrected validator in place of the as-written one (see "Left out") |
| Router.CreateSpecEffect | app/api/endpoints/swift_codes.py:106-130 | 422 exactly when validation fails; 409 exactly when a valid request's code exists; on failure the table is unchanged; on success the validated record is appended and found by code |
| Router.CreatedRecordFields | app/api/endpoints/swift_codes.py:120-127 | the stored record carries the code and flag as sent, the bank name, stripped address and country name, and the normalised country code equal to positions 5-6 |
| Router.DeleteSwiftCode | app/api/endpoints/swift_codes.py:139-156 | the outcome and the new rows are those `Store.DeleteSpec` specifies; the invariant is kept |
| Router.DeleteThenLookup | app/api/endpoints/swift_codes.py:146-153 | delete reports not-found exactly when lookup does; after a delete the code is not found |
| Legacy.FindAllBranches | src/main.py:53-66 | returns, in table order, exactly the rows that start with the base and are not base+"XXX" |
| Legacy.HeadquarterCodeIsBasePlusXxx | src/main.py:54-59 | an 11-character "XXX" code is its base followed by "XXX" |
| Legacy.XxxHeadquarterNotOwnBranch | src/main.py:56-61 | for an "XXX" headquarters, the branch query never returns the headquarters itself |
| Legacy.AgreesWithRouterOnXxxCodes | src/main.py:53-66 | for an "XXX" code, the legacy branch query returns the same rows as the router's |
| Legacy.NonXxxHeadquarterListsItself | src/main.py:53-66 | a flagged row whose code does not end in "XXX" appears in its own branch list, unlike in the router's |
| Legacy.GetSwiftCodeById | src/main.py:83-109 | the endpoint answers what `Legacy.LookupById` specifies on the current rows |
| Legacy.LookupByIdCases | src/main.py:83-109 | 404 exactly when the code is absent; otherwise its row, with branches exactly when flagged; equal to the router when every flagged row has an "XXX" code |
| Legacy.FixtureOtherBankListsItself | src/main.py:102-107 | the flagged "ZZYYCAWW123" lists itself as a branch in the legacy API and has no branches in the router |
| Legacy.GetSwiftCodesByCountry | src/main.py:112-136 | the endpoint answers what `Legacy.ByCountry` specifies on the current rows |
| Legacy.ByCountryCases | src/main.py:112-136 | never 404, since `fetchall` is never `None`; the server error exactly when no row matches; otherwise as the router on the same code |
| Legacy.CreateSwiftCodeRecord | src/main.py:139-192 | the outcome and the new rows are those `Legacy.CreateSpec` specifies; the invariant is kept |
| Legacy.TrimmedCheckOrder | src/main.py:150-165 | after trimming, each 400 error is raised exactly when the earlier checks passed and this one fails: length, mismatch, bank name, headquarters flag |
| Legacy.CreateCheckOrderFirst | src/main.py:141-156 | the format error comes first and exactly for invalid codes, then the length error, then the mismatch |
| Legacy.CreateCheckOrderLast | src/main.py:158-165 | past the mismatch, a short stripped bank name, then an unflagged "XXX" code, are the errors |
| Legacy.CreateSpecEffect | src/main.py:139-192 | on failure the table is unchanged; 409 exactly when the checks pass and the code exists; on success the trimmed record is appended and found by code |
| Legacy.CreatedRecordFields | src/main.py:145-186 | the stored record has stripped fields, a valid code, a normalised country code equal to positions 5-6, a bank name of at least 3 characters, and the flag on an "XXX" code |
| Legacy.BankNameRuleDiffers | src/main.py:158-160 | a 2-character bank name is refused by the legacy API but accepted by the router's schema |
| Legacy.ShortBankNameFacts | src/main.py:141-160 | the facts of that request: a valid non-headquarters code whose positions 5-6 are "US" |
| Legacy.DeleteSwiftCode | src/main.py:195-216 | the outcome and the new rows are those `Store.DeleteSpec` specifies; the invariant is kept |
| Legacy.DeleteThenLookup | src/main.py:197-211 | delete reports not-found exactly when lookup does; after a delete the code is not found |

## Left out

- The file system, `pandas.read_csv` and its error classes are inputs (`ParseInput`): whether the path is a file, and whether reading gave a table, a `ParserError` or an `EmptyDataError`. Any other error `read_csv` raises (a `UnicodeDecodeError` on a file that is not UTF-8, say) is not caught at app/core/parser.py:52-56, propagates to the caller and is not modelled.
- pandas type inference is not modelled. A cell is either a string or NaN (`Missing`). Which cells pandas turns into NaN is left open: empty cells, and by its default `na_values` also "NA", "N/A", "NULL", "null", "NaN", "nan", "None", "#N/A" and similar. So a country code "NA" (Namibia) may reach the parser as NaN and leave it as "". A numeric column that pandas would read as numbers is not modelled.
- `df.columns.str.strip()` (app/core/parser.py:78) runs after the column checks and is not modelled. The model reads each column from the first header cell with its exact name. A header where two names become equal after stripping ("NAME" and " NAME") makes `df['NAME']` a data frame, and `.str` then raises `AttributeError`. The model returns `Ok` for such a feed.
- `str.upper()` and `str.lower()` are ASCII-only, and `str.strip()` uses a fixed whitespace set. Unicode case mapping is not modelled.
- Database sessions, commits, rollbacks and the 500 answers for database exceptions are left out. The table is a sequence, and updates always succeed.
- The order in which SQL returns rows is modelled as table order. Rows without `ORDER BY` have no guaranteed order, but the branch and country lists follow it.
- SQL `LIKE` patterns are prefix and equality tests. Stored codes are letters and digits, so they contain no `%` or `_`. Collation effects such as case-insensitive comparison are not modelled.
- Column widths (`String(11)`, `String(2)`, `String(255)`) are not modelled.
- Store.SwiftCodeTable.Insert requires a valid code that is not in the table. This is the table invariant that every writer in the model establishes first. The database itself only enforces the primary key.
- Legacy.CreateSwiftCodeRecord checks codes with the corrected validator of the finding below, not with the trailing-newline one.
- Parser.ParseSwiftData: checks codes with the corrected validator, not the as-written one that app/core/parser.py:70 calls. So a feed whose code cell is "AAAABBCC\n" gives `InvalidSwiftCode` here, while the source returns a record with that code. Every other feed gives the same result.
- Parser.ParseFrame: the same corrected-validator substitution at app/core/parser.py:70, with the same consequence for codes ending in one "\n".
- Parser.ParseTable: the specification these two methods are proved against, so the same substitution applies (`Parser.AllCodesValid`).
- Parser.SuccessfulParseFitsTable: the "valid codes" half of the table invariant holds because of the corrected validator. Under the as-written validator, the source can produce the record "AAAABBCC\n", which has no valid code.
- SrcParse.AnyInvalidCode: scans with the corrected validator, while src/parse.py:52 applies its own as-written copy (src/parse.py:14-20). It differs only on codes ending in one "\n".
- SrcParse.ParseSwiftData: the same substitution at src/parse.py:52. It still equals `Parser.Parse` on every input, because both sides use the corrected validator.
- SrcParse.ParseFrame: the same substitution at src/parse.py:52.
- CreateScheme.ValidateSwiftCode: checks with the corrected validator, while app/schemes/SwiftCodeCreate.py:19 calls the as-written one. So a body with swiftCode "TESTDEBB\n" is rejected here but accepted by the source. `CreateScheme.Validate`, `CreateScheme.EffectiveValidation` and the lemmas about them inherit this.
- Router.CreateSwiftCodeRecord: through `CreateScheme.Validate`, refuses "TESTDEBB\n", which the source stores with 201. The same holds for `Router.CreateSpec` and `Router.CreateSpecEffect`.
- Store.TableInvariant: its "every code is valid" half is stated for the corrected validator. It holds because every writer in the model validates with it. Under the source's as-written validator, a stored code may end in one "\n".
- HTTP status codes and messages are variants of result datatypes, such as `CodeNotFound` and `Unprocessable`. FastAPI routing, JSON encoding and the response models' serialisation are not modelled.
- pydantic type coercion (a number sent as `swiftCode`, say) is not modelled. A request's fields already have their declared types.
- The loader scripts (scripts/load_data.py, app/db/load_data.py), configuration, engine setup and the `__main__` blocks are left out. They only wire the parts modelled here to I/O.

## Findings

| source | as written | input that shows it | evidently intended | confidence | as-written member | corrected member |
|---|---|---|---|---|---|---|
| app/utils/validators.py:33 (the same pattern at src/parse.py:18) | `re.match(r'^...$', code)`: Python's `$` also matches just before a final newline | "AAAABBCC\n", 9 characters, is accepted | only strings of exactly 8 or 11 characters of the identifier shape are accepted, as the docstring at app/utils/validators.py:8-13 says | not executed | Validators.IsValidSwiftCodeAsWritten, Validators.AsWrittenAcceptsNineCharacters | Validators.IsValidSwiftCode, Validators.CorrectedRejectsTrailingNewline |
