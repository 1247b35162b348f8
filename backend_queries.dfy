/** The two read-only endpoints of the analysis server: `/history`
    (scan documents, optionally for one patient, newest first, at most
    100) and `/patients` (one row per mobile-number group, without the
    anonymous groups). The database's query engine is given by
    reference functions: a filter, a sort by timestamp and a limit. */
module Queries {
  import opened Common
  import opened Api
  import Analyze

  /** The number of documents `to_list(100)` returns at most. */
  const ListLimit: nat := 100

  // ---------------------------------------------------------------
  // /history

  /** The query document: `{"patient_id": id}` when a non-empty ID was
      supplied, otherwise `{}` (every scan). */
  function HistoryQuery(patientId: Option<string>): (q: map<string, string>)
    ensures q.Keys <= {"patient_id"}
    ensures "patient_id" in q <==> patientId.Some? && patientId.value != ""
    ensures "patient_id" in q ==> q["patient_id"] == patientId.value
  {
    if patientId.Some? && patientId.value != "" then map["patient_id" := patientId.value] else map[]
  }

  /** The text field of a scan document a history query names. */
  function FieldText(s: ScanRecord, key: string): Option<string>
  {
    if key == "patient_id" then Some(s.patientId) else None
  }

  /** A document matches an equality query when every named field
      holds the given text. */
  predicate Matches(q: map<string, string>, s: ScanRecord)
  {
    forall key | key in q :: FieldText(s, key) == Some(q[key])
  }

  /** The matching documents, in stored order. */
  function Select(store: seq<ScanRecord>, q: map<string, string>): (r: seq<ScanRecord>)
    ensures |r| <= |store|
    ensures forall x :: x in r ==> x in store && Matches(q, x)
    ensures forall k :: 0 <= k < |store| && Matches(q, store[k]) ==> store[k] in r
    ensures q == map[] ==> r == store
  {
    if |store| == 0 then []
    else
      var init := store[..|store| - 1];
      var rest := Select(init, q);
      var last := store[|store| - 1];
      assert store == init + [last];
      if Matches(q, last) then rest + [last] else rest
  }

  ghost predicate NewestFirst(s: seq<ScanRecord>)
  {
    forall i, j :: 0 <= i < j < |s| ==> s[i].timestamp >= s[j].timestamp
  }

  /** Inserts a document in front of the first one that is not newer. */
  function InsertByTime(x: ScanRecord, s: seq<ScanRecord>): (r: seq<ScanRecord>)
    requires NewestFirst(s)
    ensures NewestFirst(r)
    ensures multiset(r) == multiset(s) + multiset{x}
  {
    if |s| == 0 || x.timestamp >= s[0].timestamp then
      [x] + s
    else
      var rest := InsertByTime(x, s[1..]);
      assert s == [s[0]] + s[1..];
      NewerThanAll(s[0], x, s[1..], rest);
      [s[0]] + rest
  }

  /** Putting a document in front of a newest-first sequence keeps it
      newest first when the document is at least as new as everything
      the sequence was built from. */
  lemma NewerThanAll(top: ScanRecord, x: ScanRecord, s: seq<ScanRecord>, rest: seq<ScanRecord>)
    requires NewestFirst([top] + s)
    requires x.timestamp < top.timestamp
    requires multiset(rest) == multiset(s) + multiset{x}
    requires NewestFirst(rest)
    ensures NewestFirst([top] + rest)
  {
    forall j | 0 <= j < |rest| ensures rest[j].timestamp <= top.timestamp {
      var e := rest[j];
      assert e in multiset(rest);
      if e != x {
        assert e in multiset(s);
        assert e in s;
        var m :| 0 <= m < |s| && s[m] == e;
        var u := [top] + s;
        assert u[0] == top && u[m + 1] == e;
        assert u[0].timestamp >= u[m + 1].timestamp;
      }
    }
    var t := [top] + rest;
    forall i, j | 0 <= i < j < |t| ensures t[i].timestamp >= t[j].timestamp {
      if i == 0 {
        assert t[j] == rest[j - 1];
      } else {
        assert t[i] == rest[i - 1] && t[j] == rest[j - 1];
      }
    }
  }

  /** `.sort("timestamp", -1)`: the same documents, newest first. */
  function SortNewestFirst(s: seq<ScanRecord>): (r: seq<ScanRecord>)
    ensures NewestFirst(r)
    ensures multiset(r) == multiset(s)
  {
    if |s| == 0 then []
    else
      assert s == [s[0]] + s[1..];
      InsertByTime(s[0], SortNewestFirst(s[1..]))
  }

  /** `find(q).sort("timestamp", -1).to_list(100)`. */
  function HistoryFind(store: seq<ScanRecord>, q: map<string, string>): (r: seq<ScanRecord>)
    ensures |r| <= ListLimit
    ensures NewestFirst(r)
  {
    Take(SortNewestFirst(Select(store, q)), ListLimit)
  }

  /** The filter keeps each matching document as often as it is
      stored, and no other. */
  lemma {:induction false} SelectCounts(store: seq<ScanRecord>, q: map<string, string>)
    ensures forall x :: multiset(Select(store, q))[x] == if Matches(q, x) then multiset(store)[x] else 0
    decreases |store|
  {
    if |store| > 0 {
      var init := store[..|store| - 1];
      var last := store[|store| - 1];
      assert store == init + [last];
      assert multiset(store) == multiset(init) + multiset{last};
      SelectCounts(init, q);
    }
  }

  /** `/history` returns at most 100 scans: all the matches when there
      are no more, otherwise exactly 100. */
  lemma HistoryLength(store: seq<ScanRecord>, patientId: Option<string>)
    ensures var matching := Select(store, HistoryQuery(patientId));
      |HistoryFind(store, HistoryQuery(patientId))| ==
        if |matching| <= ListLimit then |matching| else ListLimit
  {
    var matching := Select(store, HistoryQuery(patientId));
    var sorted := SortNewestFirst(matching);
    assert |multiset(sorted)| == |multiset(matching)|;
  }

  /** Every scan `/history` returns is stored, and it is the given
      patient's when an ID is supplied. */
  lemma HistoryOnlyMatches(store: seq<ScanRecord>, patientId: Option<string>)
    ensures var r := HistoryFind(store, HistoryQuery(patientId));
      && (forall x :: x in r ==> x in store)
      && (patientId.Some? && patientId.value != "" ==> forall x :: x in r ==> x.patientId == patientId.value)
  {
    var q := HistoryQuery(patientId);
    var matching := Select(store, q);
    var sorted := SortNewestFirst(matching);
    var r := HistoryFind(store, q);
    forall x | x in r ensures x in store && Matches(q, x) {
      assert x in sorted;
      assert x in multiset(sorted);
      assert x in multiset(matching);
    }
    forall x | x in r && patientId.Some? && patientId.value != "" ensures x.patientId == patientId.value {
      assert Matches(q, x);
      assert "patient_id" in q;
      assert FieldText(x, "patient_id") == Some(q["patient_id"]);
    }
  }

  /** In a newest-first sequence nothing after position `k` is newer
      than anything before it. */
  lemma PrefixIsNewest(sorted: seq<ScanRecord>, k: nat)
    requires NewestFirst(sorted) && k <= |sorted|
    ensures forall x, y :: x in sorted[..k] && y in sorted[k..] ==> y.timestamp <= x.timestamp
  {
    forall x, y | x in sorted[..k] && y in sorted[k..] ensures y.timestamp <= x.timestamp {
      var i :| 0 <= i < k && sorted[..k][i] == x;
      var j :| 0 <= j < |sorted| - k && sorted[k..][j] == y;
      assert sorted[i] == x && sorted[k + j] == y;
    }
  }

  /** Cutting a newest-first sequence at `k` keeps part of it, and
      what is cut off is no newer than what is kept. */
  lemma CutKeepsNewest(sorted: seq<ScanRecord>, k: nat)
    requires NewestFirst(sorted) && k <= |sorted|
    ensures multiset(sorted[..k]) <= multiset(sorted)
    ensures forall x: ScanRecord, y: ScanRecord :: x in sorted[..k] && y in multiset(sorted) - multiset(sorted[..k]) ==>
              y.timestamp <= x.timestamp
  {
    var kept := sorted[..k];
    var rest := sorted[k..];
    assert sorted == kept + rest;
    assert multiset(sorted) - multiset(kept) == multiset(rest);
    PrefixIsNewest(sorted, k);
    forall x: ScanRecord, y: ScanRecord | x in kept && y in multiset(sorted) - multiset(kept)
      ensures y.timestamp <= x.timestamp
    {
      assert y in rest;
    }
  }

  /** The scans `/history` returns are matches, and every match it
      leaves out is no newer than every scan it returns. */
  lemma HistoryKeepsNewest(store: seq<ScanRecord>, q: map<string, string>)
    ensures var matching := Select(store, q);
      var r := HistoryFind(store, q);
      && multiset(r) <= multiset(matching)
      && (forall x: ScanRecord, y: ScanRecord :: x in r && y in multiset(matching) - multiset(r) ==> y.timestamp <= x.timestamp)
  {
    var sorted := SortNewestFirst(Select(store, q));
    var r := HistoryFind(store, q);
    assert r == sorted[..|r|];
    CutKeepsNewest(sorted, |r|);
  }

  /** With no more than 100 matches `/history` returns each matching
      scan as often as it is stored, and no other scan; asked for no
      patient, that is the whole collection. */
  lemma HistoryComplete(store: seq<ScanRecord>, patientId: Option<string>)
    requires |Select(store, HistoryQuery(patientId))| <= ListLimit
    ensures var q := HistoryQuery(patientId);
      var r := HistoryFind(store, q);
      && (forall x :: multiset(r)[x] == if Matches(q, x) then multiset(store)[x] else 0)
      && (patientId.None? ==> multiset(r) == multiset(store))
  {
    var q := HistoryQuery(patientId);
    SelectCounts(store, q);
  }

  /** `str(scan["_id"])`: the document with its ObjectId as text. */
  function WithTextId(s: ScanRecord): (t: ScanRecord)
    ensures t.id.IdText? && t == s.(id := t.id)
    ensures s.id.ObjectId? ==> t.id == IdText(s.id.hex)
    ensures s.id.IdText? ==> t == s
  {
    match s.id
    case ObjectId(hex) => s.(id := IdText(hex))
    case IdText(text) => s
  }

  /** `get_history`: runs the query, then rewrites every document's
      `_id` in place. */
  method GetHistory(store: seq<ScanRecord>, patientId: Option<string>) returns (scans: array<ScanRecord>)
    ensures scans.Length == |HistoryFind(store, HistoryQuery(patientId))| <= ListLimit
    ensures forall k :: 0 <= k < scans.Length ==>
              scans[k] == WithTextId(HistoryFind(store, HistoryQuery(patientId))[k])
  {
    var found := HistoryFind(store, HistoryQuery(patientId));
    scans := new ScanRecord[|found|](k requires 0 <= k < |found| => found[k]);
    var i := 0;
    while i < scans.Length
      invariant 0 <= i <= scans.Length
      invariant forall k :: 0 <= k < i ==> scans[k] == WithTextId(found[k])
      invariant forall k :: i <= k < scans.Length ==> scans[k] == found[k]
    {
      scans[i] := WithTextId(scans[i]);
      i := i + 1;
    }
  }

  // ---------------------------------------------------------------
  // /patients

  /** One group of the `$group` stage, keyed by mobile number. */
  datatype PatientGroup = PatientGroup(
    mobile: string,
    name: string,
    lastScan: int,
    latestDiagnosis: Option<string>,
    scanCount: nat,
    patientId: string)

  /** Groups that reach the page: a non-empty key other than "Unknown". */
  predicate Listed(g: PatientGroup)
  {
    g.mobile != "" && g.mobile != Analyze.UnknownMobile
  }

  /** The row of a group: its key is the mobile, its count the scan count. */
  function RowOf(g: PatientGroup): (row: PatientRow)
    ensures row.mobile == g.mobile && row.scanCount == g.scanCount
    ensures row.id == g.patientId && row.name == g.name && row.lastScan == g.lastScan
    ensures row.status == g.latestDiagnosis
  {
    PatientRow(g.patientId, g.name, g.mobile, g.lastScan, g.latestDiagnosis, g.scanCount)
  }

  /** The rows built from the listed groups, in group order. */
  function PatientRows(groups: seq<PatientGroup>): (rows: seq<PatientRow>)
    ensures |rows| <= |groups|
  {
    if |groups| == 0 then []
    else
      var last := groups[|groups| - 1];
      PatientRows(groups[..|groups| - 1]) + (if Listed(last) then [RowOf(last)] else [])
  }

  /** `get_patients`: the first 100 groups, filtered and reshaped. */
  method GetPatients(aggregated: seq<PatientGroup>) returns (results: seq<PatientRow>)
    ensures results == PatientRows(Take(aggregated, ListLimit))
  {
    var groups := Take(aggregated, ListLimit);
    results := [];
    var i := 0;
    while i < |groups|
      invariant 0 <= i <= |groups|
      invariant results == PatientRows(groups[..i])
    {
      var p := groups[i];
      assert groups[..i + 1][..i] == groups[..i];
      if Listed(p) {
        results := results + [RowOf(p)];
      }
      i := i + 1;
    }
    assert groups[..i] == groups;
  }

  /** Building rows commutes with splitting the groups: the order of the
      groups is the order of the rows. */
  lemma {:induction false} PatientRowsAppend(a: seq<PatientGroup>, b: seq<PatientGroup>)
    ensures PatientRows(a + b) == PatientRows(a) + PatientRows(b)
    decreases |b|
  {
    if |b| == 0 {
      assert a + b == a;
    } else {
      var b' := b[..|b| - 1];
      assert (a + b)[..|a + b| - 1] == a + b';
      assert (a + b)[|a + b| - 1] == b[|b| - 1];
      PatientRowsAppend(a, b');
    }
  }

  /** Every row comes from a listed group, keeps its key as the mobile
      and its count as the scan count; every listed group has a row. */
  lemma {:induction false} PatientRowsExact(groups: seq<PatientGroup>)
    ensures |PatientRows(groups)| <= |groups|
    ensures forall r :: r in PatientRows(groups) ==>
              r.mobile != "" && r.mobile != Analyze.UnknownMobile &&
              exists k :: 0 <= k < |groups| && Listed(groups[k]) && r == RowOf(groups[k])
    ensures forall k :: 0 <= k < |groups| && Listed(groups[k]) ==> RowOf(groups[k]) in PatientRows(groups)
    ensures forall k :: 0 <= k < |groups| && Listed(groups[k]) ==>
              RowOf(groups[k]).mobile == groups[k].mobile && RowOf(groups[k]).scanCount == groups[k].scanCount
    decreases |groups|
  {
    if |groups| > 0 {
      var init := groups[..|groups| - 1];
      PatientRowsExact(init);
      assert forall k :: 0 <= k < |init| ==> init[k] == groups[k];
    }
  }
}
