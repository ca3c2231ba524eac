/** Query-parameter normalisation: the JSON:API `filter` and `sort`
    parameters (JSON:API 1.0, "Fetching Data", sections "Filtering" and
    "Sorting") rewritten in place into Waterline criteria. */
module QueryParams {
  import opened Wrappers
  import opened Json
  import opened Sails

  /** Waterline's sort directions. */
  const Ascending: Value := Num(1)
  const Descending: Value := Num(0)

  /** The number of commas in `s`. */
  function Commas(s: string): nat {
    if |s| == 0 then 0 else (if s[0] == ',' then 1 else 0) + Commas(s[1..])
  }

  /** `s.split(',')`: the text between commas, left to right; the empty
      string is one empty segment. */
  function Split(s: string): (parts: seq<string>)
    ensures |parts| == Commas(s) + 1
    ensures forall i :: 0 <= i < |parts| ==> ',' !in parts[i]
  {
    if |s| == 0 then [""]
    else
      var rest := Split(s[1..]);
      if s[0] == ',' then [""] + rest
      else
        assert ',' !in [s[0]] + rest[0];
        [[s[0]] + rest[0]] + rest[1..]
  }

  /** `parts.join(',')`. */
  function Join(parts: seq<string>): string
    requires |parts| > 0
  {
    if |parts| == 1 then parts[0] else parts[0] + "," + Join(parts[1..])
  }

  lemma {:induction false} JoinSplit(s: string)
    ensures Join(Split(s)) == s
  {
    if |s| > 0 {
      JoinSplit(s[1..]);
      var rest := Split(s[1..]);
      if s[0] == ',' {
        assert ([""] + rest)[1..] == rest;
        assert s == "," + s[1..];
      } else {
        var parts := [[s[0]] + rest[0]] + rest[1..];
        if |rest| > 1 {
          assert parts[1..] == rest[1..];
          assert Join(rest) == rest[0] + "," + Join(rest[1..]);
        }
        assert s == [s[0]] + s[1..];
      }
    }
  }

  /** Splitting a comma-free word followed by more text extends the first
      segment. */
  lemma {:induction false} SplitWordPrefix(w: string, s: string)
    requires ',' !in w
    ensures Split(w + s) == [w + Split(s)[0]] + Split(s)[1..]
  {
    if |w| > 0 {
      SplitWordPrefix(w[1..], s);
      assert (w + s)[1..] == w[1..] + s;
      assert (w + s)[0] == w[0];
      assert [w[0]] + (w[1..] + Split(s)[0]) == w + Split(s)[0];
    } else {
      var parts := Split(s);
      assert w + s == s && w + parts[0] == parts[0];
      assert parts == [parts[0]] + parts[1..];
    }
  }

  lemma {:induction false} SplitJoin(parts: seq<string>)
    requires |parts| > 0
    requires forall i :: 0 <= i < |parts| ==> ',' !in parts[i]
    ensures Split(Join(parts)) == parts
  {
    if |parts| == 1 {
      SplitWordPrefix(parts[0], "");
      assert Split("") == [""];
      assert parts[0] + "" == parts[0];
    } else {
      SplitJoin(parts[1..]);
      var tail := "," + Join(parts[1..]);
      assert Join(parts) == parts[0] + tail;
      SplitWordPrefix(parts[0], tail);
      assert tail[1..] == Join(parts[1..]);
      assert Split(tail) == [""] + parts[1..];
      assert Split(tail)[0] == "" && Split(tail)[1..] == parts[1..];
      assert parts[0] + "" == parts[0];
      assert parts == [parts[0]] + parts[1..];
    }
  }

  /** One sort field: a leading `-` (only the first character is looked
      at) is dropped and means descending; anything else is the field name
      itself, ascending. The field is recovered from the entry. */
  function SortEntry(field: string): (entry: (string, Value))
    ensures entry.1 == Ascending || entry.1 == Descending
    ensures entry.1 == Descending <==> |field| > 0 && field[0] == '-'
    ensures field == (if entry.1 == Descending then "-" else "") + entry.0
  {
    if |field| > 0 && field[0] == '-' then (field[1..], Descending) else (field, Ascending)
  }

  /** The sort object built from the fields, one property assignment per
      field, left to right. */
  function SortMap(fields: seq<string>): Props {
    if |fields| == 0 then []
    else
      var n := |fields| - 1;
      var e := SortEntry(fields[n]);
      Put(SortMap(fields[..n]), e.0, e.1)
  }

  /** The sort object has distinct keys, no more keys than there are
      fields, and only the values 1 and 0. */
  lemma {:induction false} SortMapShape(fields: seq<string>)
    ensures DistinctKeys(SortMap(fields))
    ensures |SortMap(fields)| <= |fields|
    ensures forall x :: x in Values(SortMap(fields)) ==> x == Ascending || x == Descending
  {
    if |fields| > 0 {
      var n := |fields| - 1;
      var e := SortEntry(fields[n]);
      SortMapShape(fields[..n]);
      PutKeys(SortMap(fields[..n]), e.0, e.1);
      PutValues(SortMap(fields[..n]), e.0, e.1);
    }
  }

  /** Every field yields a key, and every key comes from a field. */
  lemma {:induction false} SortMapKeys(fields: seq<string>)
    ensures forall k :: k in Keys(SortMap(fields)) <==> exists i :: 0 <= i < |fields| && SortEntry(fields[i]).0 == k
  {
    if |fields| > 0 {
      var n := |fields| - 1;
      var init := SortMap(fields[..n]);
      var e := SortEntry(fields[n]);
      SortMapKeys(fields[..n]);
      PutKeys(init, e.0, e.1);
      forall k
        ensures k in Keys(SortMap(fields)) <==> exists i :: 0 <= i < |fields| && SortEntry(fields[i]).0 == k
      {
        if k in Keys(init) {
          var i :| 0 <= i < n && SortEntry(fields[..n][i]).0 == k;
          assert fields[..n][i] == fields[i];
        }
        if exists i :: 0 <= i < |fields| && SortEntry(fields[i]).0 == k {
          var i :| 0 <= i < |fields| && SortEntry(fields[i]).0 == k;
          if i < n {
            assert fields[..n][i] == fields[i];
          }
        }
      }
    }
  }

  /** The field names the sort fields yield, one per field. */
  function SortNames(fields: seq<string>): seq<string> {
    seq(|fields|, i requires 0 <= i < |fields| => SortEntry(fields[i]).0)
  }

  /** The names in the order they first appear, later repeats dropped. */
  function FirstOccurrences(names: seq<string>): seq<string> {
    if |names| == 0 then []
    else
      var n := |names| - 1;
      FirstOccurrences(names[..n]) + (if names[n] in names[..n] then [] else [names[n]])
  }

  /** Without repeats nothing is dropped. */
  lemma {:induction false} FirstOccurrencesDistinct(names: seq<string>)
    requires NoDuplicates(names)
    ensures FirstOccurrences(names) == names
  {
    if |names| > 0 {
      var n := |names| - 1;
      FirstOccurrencesDistinct(names[..n]);
      assert names[n] !in names[..n] by {
        forall i | 0 <= i < n ensures names[..n][i] != names[n] {
          assert names[..n][i] == names[i];
        }
      }
      assert names == names[..n] + [names[n]];
    }
  }

  /** The sort object lists each name at the place of its first
      occurrence, so the first field given is the primary sort key. */
  lemma {:induction false} SortMapOrder(fields: seq<string>)
    ensures Keys(SortMap(fields)) == FirstOccurrences(SortNames(fields))
  {
    if |fields| > 0 {
      var n := |fields| - 1;
      var init := SortMap(fields[..n]);
      var e := SortEntry(fields[n]);
      var names := SortNames(fields);
      SortMapOrder(fields[..n]);
      assert SortNames(fields[..n]) == names[..n];
      SortMapKeys(fields[..n]);
      PutKeys(init, e.0, e.1);
      assert names[n] == e.0;
      if e.0 in names[..n] {
        var i :| 0 <= i < n && names[..n][i] == e.0;
        assert fields[..n][i] == fields[i];
      }
      if e.0 in Keys(init) {
        var i :| 0 <= i < n && SortEntry(fields[..n][i]).0 == e.0;
        assert names[..n][i] == e.0;
      }
    }
  }

  /** Distinct names keep the order of the fields. */
  lemma SortMapOrderDistinct(fields: seq<string>)
    requires NoDuplicates(SortNames(fields))
    ensures Keys(SortMap(fields)) == SortNames(fields)
  {
    SortMapOrder(fields);
    FirstOccurrencesDistinct(SortNames(fields));
  }

  /** A name given more than once keeps the direction of its last
      occurrence. */
  lemma {:induction false} SortMapLastWins(fields: seq<string>, i: nat)
    requires i < |fields|
    requires forall j :: i < j < |fields| ==> SortEntry(fields[j]).0 != SortEntry(fields[i]).0
    ensures Lookup(SortMap(fields), SortEntry(fields[i]).0) == Some(SortEntry(fields[i]).1)
  {
    var n := |fields| - 1;
    var k := SortEntry(fields[i]).0;
    var init := SortMap(fields[..n]);
    var e := SortEntry(fields[n]);
    PutLookup(init, e.0, e.1);
    if i < n {
      var prefix := fields[..n];
      assert prefix[i] == fields[i];
      forall j | i < j < n
        ensures SortEntry(prefix[j]).0 != k
      {
        assert prefix[j] == fields[j];
      }
      SortMapLastWins(prefix, i);
      assert e.0 != k;
    }
  }

  /** One more field is one more property assignment. */
  lemma SortMapSnoc(fields: seq<string>, field: string)
    ensures SortMap(fields + [field]) == Put(SortMap(fields), SortEntry(field).0, SortEntry(field).1)
  {
  }

  /** A two-field sort: `lastName,-firstName` sorts by last name
      ascending, then by first name descending. */
  lemma SortExampleTwoFields(sort: string)
    requires sort == "lastName,-firstName"
    ensures SortMap(Split(sort)) == [("lastName", Ascending), ("firstName", Descending)]
  {
    var fields := ["lastName", "-firstName"];
    SplitJoin(fields);
    assert Join(fields) == sort;
    SortMapTwoFields(fields);
  }

  lemma SortMapTwoFields(fields: seq<string>)
    requires fields == ["lastName", "-firstName"]
    ensures SortMap(fields) == [("lastName", Ascending), ("firstName", Descending)]
  {
    SortMapSnoc([], "lastName");
    SortMapSnoc(["lastName"], "-firstName");
    assert ["lastName"] + ["-firstName"] == fields;
    PutNewKey([("lastName", Ascending)], "firstName", Descending);
  }

  /** The example of section "Sorting" of JSON:API 1.0: `-created,title`
      sorts by creation descending, then by title ascending. */
  lemma SortExampleJsonApi(sort: string)
    requires sort == "-created,title"
    ensures SortMap(Split(sort)) == [("created", Descending), ("title", Ascending)]
  {
    var fields := ["-created", "title"];
    SplitJoin(fields);
    assert Join(fields) == sort;
    SortMapJsonApi(fields);
  }

  lemma SortMapJsonApi(fields: seq<string>)
    requires fields == ["-created", "title"]
    ensures SortMap(fields) == [("created", Descending), ("title", Ascending)]
  {
    SortMapSnoc([], "-created");
    SortMapSnoc(["-created"], "title");
    assert ["-created"] + ["title"] == fields;
    PutNewKey([("created", Descending)], "title", Ascending);
  }

  /** `a,-a`: the later occurrence overwrites the earlier one in place. */
  lemma SortExampleRepeated(sort: string)
    requires sort == "a,-a"
    ensures SortMap(Split(sort)) == [("a", Descending)]
  {
    var fields := ["a", "-a"];
    SplitJoin(fields);
    assert Join(fields) == sort;
    SortMapSnoc([], "a");
    SortMapSnoc(["a"], "-a");
    assert ["a"] + ["-a"] == fields;
  }

  /** Only the first character is inspected: `--a` sorts descending on the
      field `-a`, and a lone `-` descending on the empty name. */
  lemma SortExampleHyphens()
    ensures SortMap(Split("--a")) == [("-a", Descending)]
    ensures SortMap(Split("-")) == [("", Descending)]
  {
    SplitJoin(["--a"]);
    SplitJoin(["-"]);
    SortMapSnoc([], "--a");
    SortMapSnoc([], "-");
  }

  /** An empty segment becomes the empty field name, ascending. */
  lemma SortExampleEmptySegment(sort: string)
    requires sort == "a,,b"
    ensures SortMap(Split(sort)) == [("a", Ascending), ("", Ascending), ("b", Ascending)]
  {
    var fields := ["a", "", "b"];
    SplitJoin(fields);
    assert Join(fields) == sort;
    SortMapEmptySegment(fields);
  }

  lemma SortMapEmptySegment(fields: seq<string>)
    requires fields == ["a", "", "b"]
    ensures SortMap(fields) == [("a", Ascending), ("", Ascending), ("b", Ascending)]
  {
    SortMapSnoc([], "a");
    SortMapSnoc(["a"], "");
    assert ["a"] + [""] == ["a", ""];
    PutNewKey([("a", Ascending)], "", Ascending);
    SortMapSnoc(["a", ""], "b");
    assert ["a", ""] + ["b"] == fields;
    PutNewKey([("a", Ascending), ("", Ascending)], "b", Ascending);
  }

  /** The query after `normalizeFilter`: `filter` renamed to `where`. */
  function NormalizedFilter(q: map<string, Value>): (r: map<string, Value>)
    ensures "filter" in q ==> "filter" !in r && "where" in r && r["where"] == q["filter"]
    ensures "filter" !in q ==> r == q
    ensures forall k :: k != "filter" && k != "where" ==> (k in r <==> k in q) && (k in r ==> r[k] == q[k])
  {
    if "filter" in q then (q["where" := q["filter"]]) - {"filter"} else q
  }

  /** The query after `normalizeSort`; `None` when `sort` is not a string,
      where `.split` throws before anything is assigned. */
  function NormalizedSort(q: map<string, Value>): (r: Option<map<string, Value>>)
    ensures r.None? <==> "sort" in q && !q["sort"].Str?
    ensures "sort" !in q ==> r == Some(q)
    ensures r.Some? && "sort" in q ==>
      "sort" in r.value && r.value["sort"] == Obj(SortMap(Split(q["sort"].s)))
    ensures r.Some? ==> forall k :: k != "sort" ==> (k in r.value <==> k in q) && (k in r.value ==> r.value[k] == q[k])
  {
    if "sort" !in q then Some(q)
    else
      match q["sort"]
      case Str(s) => Some(q["sort" := Obj(SortMap(Split(s)))])
      case _ => None
  }

  /** The query after the exported function: filter first, then sort. */
  function NormalizedQuery(q: map<string, Value>): Option<map<string, Value>> {
    NormalizedSort(NormalizedFilter(q))
  }

  /** The two transforms touch disjoint keys: applying them in either order
      gives the same query, and every other key is left as it was. */
  lemma NormalizationsIndependent(q: map<string, Value>)
    ensures NormalizedQuery(q) ==
      (match NormalizedSort(q) case None => None case Some(q') => Some(NormalizedFilter(q')))
    ensures NormalizedQuery(q).Some? ==>
      forall k :: k !in {"filter", "where", "sort"} ==>
        (k in NormalizedQuery(q).value <==> k in q) && (k in q ==> NormalizedQuery(q).value[k] == q[k])
  {
    var f := NormalizedFilter(q);
    if "sort" in q {
      assert "sort" in f && f["sort"] == q["sort"];
    }
    if NormalizedSort(q).Some? {
      var s := NormalizedSort(q).value;
      assert NormalizedSort(f).value == NormalizedFilter(s);
    }
  }

  /** `normalizeFilter(req)`. */
  method NormalizeFilter(req: Request)
    modifies req
    ensures req.query == NormalizedFilter(old(req.query))
  {
    if "filter" in req.query {
      req.query := req.query["where" := req.query["filter"]];
      req.query := req.query - {"filter"};
    }
  }

  /** `normalizeSort(req)`: `ok` is false when it throws. */
  method NormalizeSort(req: Request) returns (ok: bool)
    modifies req
    ensures ok <==> NormalizedSort(old(req.query)).Some?
    ensures req.query == NormalizedSort(old(req.query)).GetOr(old(req.query))
  {
    ok := true;
    if "sort" in req.query {
      var sort := req.query["sort"];
      if !sort.Str? {
        ok := false;
        return;
      }
      var sortFields := Split(sort.s);
      // The fresh object assigned to `req.query.sort` before the loop is
      // filled by the loop; nothing reads the query in between, so the
      // object is built first and stored once.
      var sortMap: Props := [];
      var i := 0;
      while i < |sortFields|
        invariant 0 <= i <= |sortFields|
        invariant sortMap == SortMap(sortFields[..i])
      {
        assert sortFields[..i + 1][..i] == sortFields[..i];
        var sortField := sortFields[i];
        var fieldName := if |sortField| > 0 && sortField[0] == '-' then sortField[1..] else sortField;
        var direction := if |sortField| > 0 && sortField[0] == '-' then Descending else Ascending;
        sortMap := Put(sortMap, fieldName, direction);
        i := i + 1;
      }
      assert sortFields[..i] == sortFields;
      req.query := req.query["sort" := Obj(sortMap)];
    }
  }

  /** The exported function: both normalisations on `req.query`. `ok` is
      false when sorting throws, by which time `filter` has already been
      moved. */
  method NormalizeQuery(req: Request) returns (ok: bool)
    modifies req
    ensures ok <==> NormalizedQuery(old(req.query)).Some?
    ensures req.query == NormalizedQuery(old(req.query)).GetOr(NormalizedFilter(old(req.query)))
  {
    NormalizeFilter(req);
    ok := NormalizeSort(req);
  }
}
