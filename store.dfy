/** The `swift_codes` table (app/models/swift_code.py) that both API variants query and update,
    and the record shape the parser produces for it. */
module Store {
  import opened Common
  import opened Validators

  /** One row: `swift_code` (the primary key), `address`, `bank_name`, `country_ISO2`,
      `country_name`, `is_headquarter`. */
  datatype Record = Record(
    swiftCode: string,
    address: string,
    bankName: string,
    countryIso2: string,
    countryName: string,
    isHeadquarter: bool)

  /** The headquarters rule on an identifier: exactly 11 characters ending in "XXX". */
  predicate IsHeadquarterCode(code: string) {
    |code| == 11 && code[8..] == "XXX"
  }

  /** Python `code[:8]`: the identifier's base, shared by a headquarters and its branches. */
  function Base(code: string): (b: string)
    ensures |b| == if |code| < 8 then |code| else 8
    ensures code[..|b|] == b
  {
    if |code| < 8 then code else code[..8]
  }

  predicate StartsWith(s: string, prefix: string) {
    |prefix| <= |s| && s[..|prefix|] == prefix
  }

  /** The primary-key constraint: no two rows share a code. */
  predicate UniqueCodes(rows: seq<Record>) {
    forall i, j :: 0 <= i < j < |rows| ==> rows[i].swiftCode != rows[j].swiftCode
  }

  /** What the table holds at every moment: unique codes, each a valid identifier (rows
      reach the table only through the parser or the validated create endpoints). */
  predicate TableInvariant(rows: seq<Record>) {
    && UniqueCodes(rows)
    && forall i :: 0 <= i < |rows| ==> IsValidSwiftCode(PyStr(rows[i].swiftCode))
  }

  predicate HasCode(rows: seq<Record>, code: string) {
    exists i :: 0 <= i < |rows| && rows[i].swiftCode == code
  }

  /** `filter(swift_code == code).first()` */
  function Lookup(rows: seq<Record>, code: string): (r: Option<Record>)
    ensures r.None? <==> !HasCode(rows, code)
    ensures r.Some? ==> r.value in rows && r.value.swiftCode == code
  {
    if rows == [] then None
    else if rows[0].swiftCode == code then Some(rows[0])
    else
      var r := Lookup(rows[1..], code);
      assert HasCode(rows, code) ==> rows[0].swiftCode == code || HasCode(rows[1..], code) by {
        if HasCode(rows, code) {
          var i :| 0 <= i < |rows| && rows[i].swiftCode == code;
          if i > 0 { assert rows[1..][i - 1].swiftCode == code; }
        }
      }
      r
  }

  function CodeIsNot(code: string): Record -> bool {
    (r: Record) => r.swiftCode != code
  }

  /** The rows left after deleting every row with `code`. */
  function WithoutCode(rows: seq<Record>, code: string): seq<Record> {
    Filter(rows, CodeIsNot(code))
  }

  /** Deleting a code keeps every other row, in order, and leaves the code absent. */
  lemma {:induction false} WithoutCodeKeepsOthers(rows: seq<Record>, code: string)
    ensures !HasCode(WithoutCode(rows, code), code)
    ensures forall r :: r in WithoutCode(rows, code) <==> r in rows && r.swiftCode != code
    ensures HasCode(rows, code) && UniqueCodes(rows) ==> |WithoutCode(rows, code)| == |rows| - 1
  {
    var w := WithoutCode(rows, code);
    if HasCode(w, code) {
      var i :| 0 <= i < |w| && w[i].swiftCode == code;
      assert w[i] in w;
    }
    if rows != [] {
      WithoutCodeKeepsOthers(rows[1..], code);
      if HasCode(rows, code) && UniqueCodes(rows) {
        if rows[0].swiftCode == code {
          assert !HasCode(rows[1..], code);
          assert WithoutCode(rows[1..], code) == rows[1..] by {
            NoMatchFilterIdentity(rows[1..], code);
          }
        } else {
          var i :| 0 <= i < |rows| && rows[i].swiftCode == code;
          assert rows[1..][i - 1].swiftCode == code;
        }
      }
    }
  }

  lemma {:induction false} NoMatchFilterIdentity(rows: seq<Record>, code: string)
    requires !HasCode(rows, code)
    ensures WithoutCode(rows, code) == rows
  {
    if rows != [] {
      assert rows[0].swiftCode != code;
      assert !HasCode(rows[1..], code);
      NoMatchFilterIdentity(rows[1..], code);
    }
  }

  /** Removing rows keeps the table invariant. */
  lemma FilterKeepsInvariant(rows: seq<Record>, p: Record -> bool)
    requires TableInvariant(rows)
    ensures TableInvariant(Filter(rows, p))
  {
    FilterKeepsUnique(rows, p);
    var f := Filter(rows, p);
    forall k | 0 <= k < |f| ensures IsValidSwiftCode(PyStr(f[k].swiftCode)) {
      assert f[k] in rows;
      var j :| 0 <= j < |rows| && rows[j] == f[k];
    }
  }

  lemma {:induction false} FilterKeepsUnique(rows: seq<Record>, p: Record -> bool)
    requires UniqueCodes(rows)
    ensures UniqueCodes(Filter(rows, p))
  {
    if rows != [] {
      var tail := rows[1..];
      assert UniqueCodes(tail) by {
        forall a, b | 0 <= a < b < |tail| ensures tail[a].swiftCode != tail[b].swiftCode {
          assert tail[a] == rows[a + 1] && tail[b] == rows[b + 1];
        }
      }
      FilterKeepsUnique(tail, p);
      var rest := Filter(tail, p);
      var head: seq<Record> := if p(rows[0]) then [rows[0]] else [];
      assert Filter(rows, p) == head + rest;
      forall k | 0 <= k < |rest| ensures rest[k].swiftCode != rows[0].swiftCode {
        assert rest[k] in tail;
        var j :| 0 <= j < |tail| && tail[j] == rest[k];
        assert tail[j] == rows[j + 1];
      }
      UniqueAfterHead(head, rest, rows[0]);
    }
  }

  lemma UniqueAfterHead(head: seq<Record>, rest: seq<Record>, first: Record)
    requires head == [] || head == [first]
    requires UniqueCodes(rest)
    requires forall k :: 0 <= k < |rest| ==> rest[k].swiftCode != first.swiftCode
    ensures UniqueCodes(head + rest)
  {
    var all := head + rest;
    forall a, b | 0 <= a < b < |all| ensures all[a].swiftCode != all[b].swiftCode {
      if head == [] {
        assert all[a] == rest[a] && all[b] == rest[b];
      } else if a == 0 {
        assert all[a] == first && all[b] == rest[b - 1];
      } else {
        assert all[a] == rest[a - 1] && all[b] == rest[b - 1];
      }
    }
  }

  /** Appending a row with a new, valid code keeps the table invariant. */
  lemma AppendKeepsInvariant(rows: seq<Record>, r: Record)
    requires TableInvariant(rows)
    requires !HasCode(rows, r.swiftCode) && IsValidSwiftCode(PyStr(r.swiftCode))
    ensures TableInvariant(rows + [r])
  {
    var s := rows + [r];
    forall i, j | 0 <= i < j < |s| ensures s[i].swiftCode != s[j].swiftCode {
      if j == |rows| {
        assert rows[i].swiftCode != r.swiftCode;
      }
    }
  }

  /** After a row with a new code is appended, looking that code up finds the new row. */
  lemma LookupAfterAppend(rows: seq<Record>, r: Record)
    requires TableInvariant(rows + [r]) && !HasCode(rows, r.swiftCode)
    ensures Lookup(rows + [r], r.swiftCode) == Some(r)
  {
    var s := rows + [r];
    assert s[|rows|].swiftCode == r.swiftCode;
    var found := Lookup(s, r.swiftCode);
    var i :| 0 <= i < |s| && s[i] == found.value;
    if i < |rows| {
      assert rows[i].swiftCode == r.swiftCode;
    }
  }

  /** The outcome of a delete request: "SWIFT code not found" (404), or deleted. */
  datatype DeleteOutcome = DeleteNotFound | Deleted

  /** Both variants of the delete endpoint: look the code up first, and remove its row only
      when it is present. */
  function DeleteSpec(rows: seq<Record>, code: string): (DeleteOutcome, seq<Record>) {
    if !HasCode(rows, code) then (DeleteNotFound, rows) else (Deleted, WithoutCode(rows, code))
  }

  /** An absent code is reported and changes nothing; a present one is removed, and only it:
      one row fewer, every other row kept, the table invariant preserved. */
  lemma DeleteSpecEffect(rows: seq<Record>, code: string)
    requires TableInvariant(rows)
    ensures DeleteSpec(rows, code).0 == DeleteNotFound <==> !HasCode(rows, code)
    ensures DeleteSpec(rows, code).0 == DeleteNotFound ==> DeleteSpec(rows, code).1 == rows
    ensures DeleteSpec(rows, code).0 == Deleted ==>
      && !HasCode(DeleteSpec(rows, code).1, code)
      && |DeleteSpec(rows, code).1| == |rows| - 1
      && forall r :: r in DeleteSpec(rows, code).1 <==> r in rows && r.swiftCode != code
    ensures TableInvariant(DeleteSpec(rows, code).1)
  {
    WithoutCodeKeepsOthers(rows, code);
    FilterKeepsInvariant(rows, CodeIsNot(code));
  }

  /** The table, as the endpoints see it through a database session. */
  class SwiftCodeTable {
    var rows: seq<Record>

    ghost predicate Valid()
      reads this
    {
      TableInvariant(rows)
    }

    constructor ()
      ensures Valid() && rows == []
    {
      rows := [];
    }

    /** `query(...).filter(swift_code == code).first()` */
    method QueryFirst(code: string) returns (found: Option<Record>)
      ensures found.None? <==> !HasCode(rows, code)
      ensures found.Some? ==> found.value in rows && found.value.swiftCode == code
      ensures found == Lookup(rows, code)
    {
      var i := 0;
      while i < |rows|
        invariant 0 <= i <= |rows|
        invariant Lookup(rows, code) == Lookup(rows[i..], code)
      {
        if rows[i].swiftCode == code {
          return Some(rows[i]);
        }
        assert rows[i..][1..] == rows[i + 1..];
        i := i + 1;
      }
      return None;
    }

    /** `query(...).filter(p).all()`: the matching rows in table order. */
    method Select(p: Record -> bool) returns (result: seq<Record>)
      ensures result == Filter(rows, p)
    {
      result := [];
      var i := 0;
      while i < |rows|
        invariant 0 <= i <= |rows|
        invariant result == Filter(rows[..i], p)
      {
        assert rows[..i + 1] == rows[..i] + [rows[i]];
        FilterAppend(rows[..i], [rows[i]], p);
        if p(rows[i]) {
          result := result + [rows[i]];
        }
        i := i + 1;
      }
      assert rows[..i] == rows;
    }

    /** `db.add(record); db.commit()` */
    method Insert(r: Record)
      requires Valid()
      requires !HasCode(rows, r.swiftCode) && IsValidSwiftCode(PyStr(r.swiftCode))
      modifies this
      ensures Valid()
      ensures rows == old(rows) + [r]
    {
      AppendKeepsInvariant(rows, r);
      rows := rows + [r];
    }

    /** `DELETE ... WHERE swift_code = code; commit` */
    method DeleteCode(code: string)
      requires Valid()
      modifies this
      ensures Valid()
      ensures rows == WithoutCode(old(rows), code)
    {
      FilterKeepsInvariant(rows, CodeIsNot(code));
      rows := WithoutCode(rows, code);
    }
  }
}
