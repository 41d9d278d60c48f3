/** The company index (`extractCompanies`): the distinct company names of
    the loaded rows, in ascending string order. */
module CompanyIndex {
  import opened Text
  import opened Series

  predicate StrictlyAscending(s: seq<string>)
  {
    forall i, j :: 0 <= i < j < |s| ==> Less(s[i], s[j])
  }

  /** The names occurring in the data: `new Set(stockData.map(row => row.company))`. */
  function CompanyNames(data: seq<Row>): set<string>
  {
    set row | row in data :: row.company
  }

  /** The names of two row lists placed one after the other are the names
      of either. */
  lemma CompanyNamesConcat(a: seq<Row>, b: seq<Row>)
    ensures CompanyNames(a + b) == CompanyNames(a) + CompanyNames(b)
  {
    forall y | y in CompanyNames(a + b) ensures y in CompanyNames(a) + CompanyNames(b) {
      var row :| row in a + b && row.company == y;
    }
    forall y | y in CompanyNames(a) + CompanyNames(b) ensures y in CompanyNames(a + b) {
      if y in CompanyNames(a) {
        var row :| row in a && row.company == y;
        assert row in a + b;
      } else {
        var row :| row in b && row.company == y;
        assert row in a + b;
      }
    }
  }

  /** Insert a name into an ascending, duplicate-free list unless it is already there. */
  function InsertName(s: seq<string>, name: string): (r: seq<string>)
    requires StrictlyAscending(s)
    ensures StrictlyAscending(r)
    ensures forall y :: y in r <==> y in s || y == name
  {
    if s == [] then [name]
    else if name == s[0] then s
    else if Less(name, s[0]) then
      assert StrictlyAscending([name] + s) by {
        forall j | 0 < j < |s| {
          LessTransitive(name, s[0], s[j]);
        }
      }
      [name] + s
    else
      LessTotal(name, s[0]);
      var rest := InsertName(s[1..], name);
      assert s == [s[0]] + s[1..];
      assert StrictlyAscending([s[0]] + rest) by {
        forall j | 0 <= j < |rest| ensures Less(s[0], rest[j]) {
          assert rest[j] in rest;
        }
      }
      [s[0]] + rest
  }

  /** `Array.from(companySet).sort()`, built by inserting the names of the rows one by one. */
  function ExtractCompanies(data: seq<Row>): (r: seq<string>)
    ensures StrictlyAscending(r)
    ensures forall y :: y in r <==> y in CompanyNames(data)
  {
    if data == [] then []
    else
      var prefix := data[..|data| - 1];
      assert data == prefix + [data[|data| - 1]];
      CompanyNamesConcat(prefix, [data[|data| - 1]]);
      assert CompanyNames([data[|data| - 1]]) == {data[|data| - 1].company};
      InsertName(ExtractCompanies(prefix), data[|data| - 1].company)
  }

  /** A strictly ascending list is determined by its members. */
  lemma {:induction false} AscendingDetermined(a: seq<string>, b: seq<string>)
    requires StrictlyAscending(a) && StrictlyAscending(b)
    requires forall y :: y in a <==> y in b
    ensures a == b
    decreases |a| + |b|, if a == [] then 1 else 0
  {
    if a != [] {
      assert a[0] in b;
      assert b != [];
      if a[0] != b[0] {
        var k :| 0 <= k < |b| && b[k] == a[0];
        assert b[0] in b;
        var m :| 0 <= m < |a| && a[m] == b[0];
        LessAsymmetric(b[0], a[0]);
        assert false;
      }
      assert a == [a[0]] + a[1..] && b == [b[0]] + b[1..];
      forall y ensures y in a[1..] <==> y in b[1..] {
        if y in a[1..] {
          var i :| 0 <= i < |a[1..]| && a[1..][i] == y;
          assert Less(a[0], a[i + 1]);
          LessIrreflexive(y);
          assert y in b && y != b[0];
        }
        if y in b[1..] {
          var i :| 0 <= i < |b[1..]| && b[1..][i] == y;
          assert Less(b[0], b[i + 1]);
          LessIrreflexive(y);
          assert y in a && y != a[0];
        }
      }
      AscendingDetermined(a[1..], b[1..]);
    } else if b != [] {
      AscendingDetermined(b, a);
    }
  }

  /** The company index is the one ascending, duplicate-free list of the
      company names: whatever order the rows come in, sorting the set of
      names gives exactly this list. */
  lemma CompanyIndexIsSortedNameSet(data: seq<Row>, s: seq<string>)
    requires StrictlyAscending(s)
    requires forall y :: y in s <==> y in CompanyNames(data)
    ensures s == ExtractCompanies(data)
  {
    AscendingDetermined(s, ExtractCompanies(data));
  }

  /** No name occurs twice in the index. */
  lemma CompanyIndexNoDuplicates(data: seq<Row>)
    ensures forall i, j :: 0 <= i < j < |ExtractCompanies(data)| ==> ExtractCompanies(data)[i] != ExtractCompanies(data)[j]
  {
    var s := ExtractCompanies(data);
    forall i, j | 0 <= i < j < |s| ensures s[i] != s[j] {
      if s[i] == s[j] {
        LessIrreflexive(s[i]);
      }
    }
  }
}
