/**
  The in-memory evidence store and the retention pruner over it
  (pkg/evidence/storage/memory.go, pkg/evidence/retention/pruner.go).
 */
module Retention {
  import opened Options

  datatype Record = Record(
    id: string, time: int, userID: string, apiKey: string, provider: string, model: string,
    decision: string, cost: real, tokens: int, error: string)

  datatype Query = Query(
    startTime: Option<int>, endTime: Option<int>, userID: string, apiKey: string, provider: string, model: string,
    decision: string, minCost: Option<real>, maxCost: Option<real>, minTokens: Option<int>, maxTokens: Option<int>,
    status: string, limit: int, offset: nat)

  const EVERYTHING := Query(None, None, "", "", "", "", "", None, None, None, None, "", 0, 0)

  /** Records up to and including `t`. */
  function Until(t: int): Query { EVERYTHING.(endTime := Some(t)) }

  predicate MatchesQuery(r: Record, q: Query) {
    && (q.startTime.Some? ==> q.startTime.value <= r.time)
    && (q.endTime.Some? ==> r.time <= q.endTime.value)
    && (q.userID != "" ==> r.userID == q.userID)
    && (q.apiKey != "" ==> r.apiKey == q.apiKey)
    && (q.provider != "" ==> r.provider == q.provider)
    && (q.model != "" ==> r.model == q.model)
    && (q.decision != "" ==> r.decision == q.decision)
    && (q.minCost.Some? ==> q.minCost.value <= r.cost)
    && (q.maxCost.Some? ==> r.cost <= q.maxCost.value)
    && (q.minTokens.Some? ==> q.minTokens.value <= r.tokens)
    && (q.maxTokens.Some? ==> r.tokens <= q.maxTokens.value)
    && (q.status == "success" ==> r.error == "")
    && (q.status == "error" ==> r.error != "")
    && (q.status == "blocked" ==> r.decision == "block")
  }

  // ---------------------------------------------------------------- the store

  type Store = map<string, Record>

  ghost predicate Keyed(m: Store) {
    forall id :: id in m ==> m[id].id == id
  }

  ghost function Matching(m: Store, q: Query): set<string> {
    set id | id in m && MatchesQuery(m[id], q)
  }

  /** The matching records of `m`, each exactly once, in some order. */
  ghost predicate Lists(found: seq<Record>, m: Store, q: Query) {
    && (forall i :: 0 <= i < |found| ==> found[i].id in Matching(m, q) && m[found[i].id] == found[i])
    && (forall i, j :: 0 <= i < j < |found| ==> found[i].id != found[j].id)
    && (forall id :: id in Matching(m, q) ==> exists i :: 0 <= i < |found| && found[i].id == id)
  }

  function Page(found: seq<Record>, offset: nat, limit: int): seq<Record> {
    if offset > |found| then []
    else if limit <= 0 then found
    else found[offset..if offset + limit > |found| then |found| else offset + limit]
  }

  /** Page after page of a listing, from an offset on. */
  function AllPages(found: seq<Record>, offset: nat, limit: int): seq<Record>
    requires limit > 0
    decreases |found| - offset
  {
    if offset >= |found| then [] else Page(found, offset, limit) + AllPages(found, offset + limit, limit)
  }

  /** Consecutive pages split a listing: each holds at most the limit, none but the last holds less, and none is empty. */
  lemma {:induction false} PagesPartition(found: seq<Record>, offset: nat, limit: int)
    requires limit > 0 && offset <= |found|
    ensures AllPages(found, offset, limit) == found[offset..]
    ensures |Page(found, offset, limit)| == if |found| - offset < limit then |found| - offset else limit
    decreases |found| - offset
  {
    if offset < |found| {
      var next := offset + limit;
      if next <= |found| {
        PagesPartition(found, next, limit);
        assert found[offset..] == found[offset..next] + found[next..];
      } else {
        assert AllPages(found, next, limit) == [];
      }
    }
  }

  /** Without a limit an offset within the listing skips nothing. */
  lemma {:induction false} OffsetNeedsLimit(found: seq<Record>, offset: nat, limit: int)
    requires limit <= 0
    ensures Page(found, offset, limit) == if offset <= |found| then found else []
  {
  }

  /** A query without filters matches everything, and a time or cost filter adds its inclusive bound. */
  lemma {:induction false} AddBound(r: Record, q: Query, t: int, cost: real)
    ensures MatchesQuery(r, EVERYTHING)
    ensures MatchesQuery(r, q.(startTime := Some(t))) <==> MatchesQuery(r, q.(startTime := None)) && t <= r.time
    ensures MatchesQuery(r, q.(endTime := Some(t))) <==> MatchesQuery(r, q.(endTime := None)) && r.time <= t
    ensures MatchesQuery(r, q.(minCost := Some(cost))) <==> MatchesQuery(r, q.(minCost := None)) && cost <= r.cost
    ensures MatchesQuery(r, q.(maxCost := Some(cost))) <==> MatchesQuery(r, q.(maxCost := None)) && r.cost <= cost
  {
  }

  lemma {:induction false} AddTokenBound(r: Record, q: Query, tokens: int)
    ensures MatchesQuery(r, q.(minTokens := Some(tokens))) <==> MatchesQuery(r, q.(minTokens := None)) && tokens <= r.tokens
    ensures MatchesQuery(r, q.(maxTokens := Some(tokens))) <==> MatchesQuery(r, q.(maxTokens := None)) && r.tokens <= tokens
  {
  }

  /** A name filter adds an equation. */
  lemma {:induction false} AddName(r: Record, q: Query, name: string)
    requires name != ""
    ensures MatchesQuery(r, q.(userID := name)) <==> MatchesQuery(r, q.(userID := "")) && r.userID == name
    ensures MatchesQuery(r, q.(apiKey := name)) <==> MatchesQuery(r, q.(apiKey := "")) && r.apiKey == name
    ensures MatchesQuery(r, q.(provider := name)) <==> MatchesQuery(r, q.(provider := "")) && r.provider == name
  {
  }

  lemma {:induction false} AddModelOrDecision(r: Record, q: Query, name: string)
    requires name != ""
    ensures MatchesQuery(r, q.(model := name)) <==> MatchesQuery(r, q.(model := "")) && r.model == name
    ensures MatchesQuery(r, q.(decision := name)) <==> MatchesQuery(r, q.(decision := "")) && r.decision == name
  {
  }

  /** Of the statuses three mean something; any other adds nothing. */
  lemma {:induction false} AddStatus(r: Record, q: Query, status: string)
    ensures MatchesQuery(r, q.(status := status)) <==>
      MatchesQuery(r, q.(status := ""))
      && (if status == "success" then r.error == "" else if status == "error" then r.error != ""
          else status == "blocked" ==> r.decision == "block")
  {
  }

  class MemoryStorage {
    var records: Store

    constructor ()
      ensures records == map[]
    {
      records := map[];
    }

    method Put(record: Record)
      requires Keyed(records)
      modifies this
      ensures Keyed(records) && records == old(records)[record.id := record]
    {
      records := records[record.id := record];
    }

    /** Go ranges over the map in an arbitrary order. */
    method Find(q: Query) returns (results: seq<Record>)
      requires Keyed(records)
      ensures exists found :: Lists(found, records, q) && results == Page(found, q.offset, q.limit)
    {
      var found: seq<Record> := [];
      var rest := records.Keys;
      while rest != {}
        invariant rest <= records.Keys
        invariant forall i :: 0 <= i < |found| ==>
          found[i].id in Matching(records, q) && found[i].id !in rest && records[found[i].id] == found[i]
        invariant forall i, j :: 0 <= i < j < |found| ==> found[i].id != found[j].id
        invariant forall id :: id in Matching(records, q) && id !in rest ==> exists i :: 0 <= i < |found| && found[i].id == id
      {
        var id :| id in rest;
        rest := rest - {id};
        if MatchesQuery(records[id], q) {
          ghost var before := found;
          found := found + [records[id]];
          assert forall i :: 0 <= i < |before| ==> found[i] == before[i];
          assert found[|before|].id == id;
        }
      }
      assert Lists(found, records, q);
      results := Page(found, q.offset, q.limit);
    }

    method Count(q: Query) returns (n: nat)
      ensures n == |Matching(records, q)|
    {
      n := 0;
      var rest := records.Keys;
      assert Matching(records, q) - rest == {};
      while rest != {}
        invariant rest <= records.Keys && n == |Matching(records, q) - rest|
      {
        var id :| id in rest;
        OneLess(Matching(records, q), rest, id);
        rest := rest - {id};
        if MatchesQuery(records[id], q) {
          n := n + 1;
        }
      }
      assert Matching(records, q) - rest == Matching(records, q);
    }

    /** The keys of the matching records, in whatever order the map is ranged over. */
    method MatchingIDs(q: Query) returns (ids: seq<string>)
      ensures Distinct(ids) && (set id | id in ids) == Matching(records, q)
    {
      ids := [];
      var rest := records.Keys;
      while rest != {}
        invariant rest <= records.Keys && Distinct(ids)
        invariant forall id :: id in ids <==> id in Matching(records, q) && id !in rest
      {
        var id :| id in rest;
        rest := rest - {id};
        if MatchesQuery(records[id], q) {
          ids := ids + [id];
        }
      }
    }

    method Delete(q: Query) returns (deleted: nat)
      requires Keyed(records)
      modifies this
      ensures Keyed(records) && records == old(records) - Matching(old(records), q)
      ensures deleted == |Matching(old(records), q)|
    {
      var toDelete := MatchingIDs(q);
      DistinctCount(toDelete);
      deleted := 0;
      for i := 0 to |toDelete|
        invariant records == old(records) - (set id | id in toDelete[..i]) && deleted == i
      {
        records := records - {toDelete[i]};
        deleted := deleted + 1;
        assert toDelete[..i + 1] == toDelete[..i] + [toDelete[i]];
      }
      assert toDelete[..|toDelete|] == toDelete;
    }
  }

  ghost predicate Distinct(ids: seq<string>) {
    forall i, j :: 0 <= i < j < |ids| ==> ids[i] != ids[j]
  }

  lemma {:induction false} DistinctCount(ids: seq<string>)
    requires Distinct(ids)
    ensures |set id | id in ids| == |ids|
    decreases |ids|
  {
    if |ids| > 0 {
      var n := |ids| - 1;
      DistinctCount(ids[..n]);
      assert ids == ids[..n] + [ids[n]];
      assert (set id | id in ids) == (set id | id in ids[..n]) + {ids[n]};
    } else {
      assert (set id | id in ids) == {};
    }
  }

  lemma {:induction false} OneLess(s: set<string>, rest: set<string>, id: string)
    requires id in rest
    ensures |s - (rest - {id})| == |s - rest| + if id in s then 1 else 0
  {
    assert s - (rest - {id}) == (s - rest) + if id in s then {id} else {};
  }

  // ---------------------------------------------------------------- sorting

  ghost predicate ByTime(records: seq<Record>) {
    forall i, j :: 0 <= i < j < |records| ==> records[i].time <= records[j].time
  }

  /** The exchange sort: position i takes the oldest of what is left. */
  method SortRecordsByTime(records: array<Record>)
    modifies records
    ensures ByTime(records[..]) && multiset(records[..]) == multiset(old(records[..]))
  {
    var n := records.Length;
    var i := 0;
    while i < n - 1
      invariant 0 <= i <= n
      invariant ByTime(records[..i])
      invariant forall p, q :: 0 <= p < i <= q < n ==> records[p].time <= records[q].time
      invariant multiset(records[..]) == multiset(old(records[..]))
    {
      SelectOldest(records, i);
      i := i + 1;
    }
  }

  /** One pass of the outer loop. */
  method SelectOldest(records: array<Record>, i: nat)
    requires i < records.Length && ByTime(records[..i])
    requires forall p, q :: 0 <= p < i <= q < records.Length ==> records[p].time <= records[q].time
    modifies records
    ensures ByTime(records[..i + 1])
    ensures forall p, q :: 0 <= p < i + 1 <= q < records.Length ==> records[p].time <= records[q].time
    ensures multiset(records[..]) == multiset(old(records[..]))
  {
    for j := i + 1 to records.Length
      invariant forall p :: 0 <= p < i ==> records[p] == old(records[p])
      invariant forall p, q :: 0 <= p < i <= q < records.Length ==> records[p].time <= records[q].time
      invariant forall q :: i <= q < j ==> records[i].time <= records[q].time
      invariant multiset(records[..]) == multiset(old(records[..]))
    {
      if records[i].time > records[j].time {
        Exchange(records, i, j);
      }
    }
  }

  method Exchange(records: array<Record>, i: nat, j: nat)
    requires i < j < records.Length
    modifies records
    ensures records[i] == old(records[j]) && records[j] == old(records[i])
    ensures forall k :: 0 <= k < records.Length && k != i && k != j ==> records[k] == old(records[k])
    ensures multiset(records[..]) == multiset(old(records[..]))
  {
    records[i], records[j] := records[j], records[i];
  }

  // ---------------------------------------------------------------- what count pruning means

  ghost function IDs(records: seq<Record>): set<string> {
    set i | 0 <= i < |records| :: records[i].id
  }

  ghost predicate OwnIDs(records: seq<Record>) {
    forall i, j :: 0 <= i < j < |records| ==> records[i].id != records[j].id
  }

  lemma {:induction false} IDCount(records: seq<Record>)
    requires OwnIDs(records)
    ensures |IDs(records)| == |records|
    decreases |records|
  {
    if |records| > 0 {
      var n := |records| - 1;
      IDCount(records[..n]);
      assert IDs(records) == IDs(records[..n]) + {records[n].id};
    } else {
      assert IDs(records) == {};
    }
  }

  /** Every record of `m`, oldest first. */
  ghost predicate Chronicle(records: seq<Record>, m: Store) {
    && ByTime(records) && OwnIDs(records) && IDs(records) == m.Keys
    && forall i :: 0 <= i < |records| ==> records[i].id in m && m[records[i].id] == records[i]
  }

  /** The records up to and including time `t`. */
  ghost function Through(m: Store, t: int): set<string> {
    set id | id in m && m[id].time <= t
  }

  lemma {:induction false} UntilIsThrough(m: Store, t: int)
    ensures Matching(m, Until(t)) == Through(m, t)
  {
    forall id | id in m ensures MatchesQuery(m[id], Until(t)) <==> m[id].time <= t {}
  }

  /** What is left of `m` after deleting everything up to and including the k oldest records' last time. */
  ghost function Survivors(m: Store, records: seq<Record>, k: nat): Store
    requires 0 < k <= |records|
  {
    m - Through(m, records[k - 1].time)
  }

  lemma {:induction false} ChronicleSizes(m: Store, records: seq<Record>, k: nat)
    requires Chronicle(records, m) && 0 < k <= |records|
    ensures |IDs(records[..k])| == k && |m| == |records|
  {
    IDCount(records);
    IDCount(records[..k]);
  }

  lemma {:induction false} OldestGo(m: Store, records: seq<Record>, k: nat)
    requires Chronicle(records, m) && 0 < k <= |records|
    ensures IDs(records[..k]) <= Through(m, records[k - 1].time)
  {
    var cutoff := records[k - 1].time;
    assert forall i :: 0 <= i < k ==> records[i].time <= cutoff;
    forall id | id in IDs(records[..k]) ensures id in Through(m, cutoff) {
      var i :| 0 <= i < k && records[..k][i].id == id;
      assert m[records[i].id] == records[i];
    }
  }

  lemma {:induction false} SubsetSize(a: set<string>, b: set<string>)
    requires a <= b
    ensures |a| <= |b| && (|a| == |b| ==> a == b)
  {
    assert b == a + (b - a);
  }

  /** No record outside the first k has the time of the k-th. */
  ghost predicate NoTie(records: seq<Record>, k: nat)
    requires 0 < k <= |records|
  {
    k < |records| ==> records[k - 1].time < records[k].time
  }

  /**
    Deleting the k oldest through an inclusive cutoff leaves at most the rest; every
    survivor is strictly newer than every deleted record; what was archived is deleted; and
    exactly k records go, the archived ones, if and only if no tie crosses the cutoff.
   */
  lemma {:induction false} CountPruning(m: Store, records: seq<Record>, k: nat)
    requires Chronicle(records, m) && 0 < k <= |records|
    ensures var (after, deleted) := (Survivors(m, records, k), Through(m, records[k - 1].time));
      && |after| <= |m| - k
      && (forall a, d :: a in after && d in deleted ==> m[d].time < m[a].time)
      && IDs(records[..k]) <= deleted
      && (IDs(records[..k]) == deleted <==> NoTie(records, k))
      && (|deleted| == k <==> NoTie(records, k))
      && (|after| == |m| - k <==> NoTie(records, k))
  {
    var after, deleted := Survivors(m, records, k), Through(m, records[k - 1].time);
    ChronicleSizes(m, records, k);
    OldestGo(m, records, k);
    TieDeletesMore(m, records, k);
    PartsAddUp(m.Keys, deleted);
    assert after.Keys == m.Keys - deleted;
    SubsetSize(IDs(records[..k]), deleted);
  }

  lemma {:induction false} PartsAddUp(whole: set<string>, part: set<string>)
    requires part <= whole
    ensures |whole| == |whole - part| + |part|
  {
    assert whole == (whole - part) + part;
  }

  lemma {:induction false} TieDeletesMore(m: Store, records: seq<Record>, k: nat)
    requires Chronicle(records, m) && 0 < k <= |records|
    ensures IDs(records[..k]) == Through(m, records[k - 1].time) <==> NoTie(records, k)
  {
    var deleted := Through(m, records[k - 1].time);
    OldestGo(m, records, k);
    if NoTie(records, k) {
      assert forall i :: k <= i < |records| ==> records[k - 1].time < records[i].time;
      forall id | id in deleted ensures id in IDs(records[..k]) {
        assert id in IDs(records);
        var i :| 0 <= i < |records| && records[i].id == id;
        assert m[id] == records[i];
        assert records[..k][i] == records[i];
      }
    } else {
      assert records[k].id in deleted;
      forall i | 0 <= i < k ensures records[..k][i].id != records[k].id {}
    }
  }

  // ---------------------------------------------------------------- from a listing to the chronicle

  lemma {:induction false} OnceEach(records: seq<Record>, r: Record)
    requires OwnIDs(records)
    ensures multiset(records)[r] <= 1
    decreases |records|
  {
    if |records| > 0 {
      var n := |records| - 1;
      OnceEach(records[..n], r);
      assert records == records[..n] + [records[n]];
      if records[n] == r { assert r !in records[..n]; }
    }
  }

  lemma {:induction false} TwiceThere(records: seq<Record>, i: nat, j: nat)
    requires i < j < |records| && records[i] == records[j]
    ensures multiset(records)[records[i]] >= 2
  {
    var x := records[i];
    assert records == records[..i] + [x] + records[i + 1..j] + [x] + records[j + 1..];
  }

  /** Sorting a listing of the whole store gives its chronicle. */
  lemma {:induction false} SortedListing(m: Store, found: seq<Record>, sorted: seq<Record>)
    requires Keyed(m) && Lists(found, m, EVERYTHING) && multiset(found) == multiset(sorted) && ByTime(sorted)
    ensures Chronicle(sorted, m)
  {
    forall i | 0 <= i < |sorted| ensures sorted[i].id in m && m[sorted[i].id] == sorted[i] && sorted[i] in found {
      assert sorted[i] in multiset(sorted);
      assert sorted[i] in multiset(found);
    }
    forall i, j | 0 <= i < j < |sorted| ensures sorted[i].id != sorted[j].id {
      OnceEach(found, sorted[i]);
      if sorted[i] == sorted[j] { TwiceThere(sorted, i, j); }
    }
    forall id | id in m ensures id in IDs(sorted) {
      assert id in Matching(m, EVERYTHING);
      var i :| 0 <= i < |found| && found[i].id == id;
      assert found[i] in multiset(found);
      assert found[i] in multiset(sorted);
      var j :| 0 <= j < |sorted| && sorted[j] == found[i];
    }
  }

  /** How many records count pruning asks to delete. */
  function ToDelete(size: nat, maxRecords: int): nat
    requires size > maxRecords
  {
    if size - maxRecords > size then size else size - maxRecords
  }

  /**
    Count pruning by the k oldest of `m`, whose chronicle is `records`; `late` is what the
    store holds when the delete gets to it.
   */
  ghost predicate PrunedWith(m: Store, records: seq<Record>, k: nat, late: Store,
                             after: Store, deleted: nat, archived: seq<Record>) {
    && Chronicle(records, m) && 0 < k <= |records|
    && after == Survivors(late, records, k)
    && deleted == |Through(late, records[k - 1].time)|
    && archived == records[..k]
  }

  /** The outcome of count pruning a store that held `m` when it was queried. */
  ghost predicate CountPruned(m: Store, late: Store, maxRecords: int, after: Store, deleted: nat, archived: seq<Record>) {
    |m| > maxRecords
    && exists records :: PrunedWith(m, records, ToDelete(|m|, maxRecords), late, after, deleted, archived)
  }

  /** Nothing to do when the store is within the limit. */
  ghost predicate TrimmedTo(m: Store, late: Store, maxRecords: int, after: Store, deleted: nat, archived: seq<Record>) {
    if |m| == 0 || |m| <= maxRecords then after == m && deleted == 0 && archived == []
    else CountPruned(m, late, maxRecords, after, deleted, archived)
  }

  lemma {:induction false} DeletedUntil(m: Store, records: seq<Record>, k: nat, late: Store, after: Store, deleted: nat)
    requires Chronicle(records, m) && 0 < k <= |records|
    requires after == late - Matching(late, Until(records[k - 1].time))
    requires deleted == |Matching(late, Until(records[k - 1].time))|
    ensures PrunedWith(m, records, k, late, after, deleted, records[..k])
  {
    UntilIsThrough(late, records[k - 1].time);
  }

  // ---------------------------------------------------------------- what is lost

  /** The records deleted through a cutoff and not archived. */
  ghost function Lost(late: Store, cutoff: int, archived: seq<Record>): set<string> {
    set id | id in Through(late, cutoff) && late[id] !in archived
  }

  /** Written or changed since the store held `m`. */
  predicate IsNew(m: Store, late: Store, id: string) {
    id in late && (id in m ==> m[id] != late[id])
  }

  /**
    Count pruning loses exactly what others wrote at or before the cutoff between the query
    and the delete, and what lies beyond the k oldest on a tie; with no other writer,
    nothing if and only if no tie crosses the cutoff.
   */
  lemma {:induction false} LostByCount(m: Store, records: seq<Record>, k: nat, late: Store)
    requires Chronicle(records, m) && Keyed(late) && 0 < k <= |records|
    ensures var cutoff := records[k - 1].time;
      forall id :: id in Lost(late, cutoff, records[..k]) <==>
        id in Through(late, cutoff) && (IsNew(m, late, id) || id !in IDs(records[..k]))
    ensures late == m ==> (Lost(late, records[k - 1].time, records[..k]) == {} <==> NoTie(records, k))
  {
    var cutoff, archived := records[k - 1].time, records[..k];
    forall id | id in late ensures late[id] in archived <==> !IsNew(m, late, id) && id in IDs(archived) {
      if late[id] in archived {
        var i :| 0 <= i < k && archived[i] == late[id];
        assert m[records[i].id] == records[i] && archived[i].id == id;
      }
      if !IsNew(m, late, id) && id in IDs(archived) {
        var i :| 0 <= i < k && archived[i].id == id;
        assert m[records[i].id] == records[i] && archived[i] == late[id];
      }
    }
    if late == m {
      OldestGo(m, records, k);
      TieDeletesMore(m, records, k);
      assert forall id :: id in m ==> !IsNew(m, m, id);
      assert Lost(m, cutoff, archived) == Through(m, cutoff) - IDs(archived);
    }
  }

  /** Age pruning loses exactly what others wrote at or before the cutoff between the query and the delete. */
  lemma {:induction false} LostByAge(m: Store, cutoff: int, found: seq<Record>, late: Store)
    requires Keyed(m) && Keyed(late) && Lists(found, m, Until(cutoff))
    ensures forall id :: id in Lost(late, cutoff, found) <==> id in Through(late, cutoff) && IsNew(m, late, id)
  {
    UntilIsThrough(m, cutoff);
    forall id | id in Through(late, cutoff) ensures late[id] in found <==> !IsNew(m, late, id) {
      if late[id] in found {
        var i :| 0 <= i < |found| && found[i] == late[id];
        assert m[found[i].id] == found[i];
      }
      if !IsNew(m, late, id) {
        assert id in Matching(m, Until(cutoff));
        var i :| 0 <= i < |found| && found[i].id == id;
        assert m[found[i].id] == found[i];
      }
    }
  }

  // ---------------------------------------------------------------- the pruner itself

  class Pruner {
    const storage: MemoryStorage
    const retentionDays: int
    const maxRecords: int
    const archiveBeforeDelete: bool
    // Everything written to archive files.
    var archive: seq<Record>

    constructor (storage: MemoryStorage, retentionDays: int, maxRecords: int, archiveBeforeDelete: bool)
      ensures this.storage == storage && this.retentionDays == retentionDays && this.maxRecords == maxRecords
      ensures this.archiveBeforeDelete == archiveBeforeDelete && archive == []
    {
      this.storage, this.retentionDays, this.maxRecords := storage, retentionDays, maxRecords;
      this.archiveBeforeDelete, archive := archiveBeforeDelete, [];
    }

    /**
      Deletes what is not newer than the cutoff, archiving first, if asked to, what the
      store then holds of it.  `late` is what it holds when the delete gets to it.
     */
    method PruneByAge(cutoff: int, late: Store) returns (deleted: nat, ghost found: seq<Record>)
      requires Keyed(storage.records) && Keyed(late)
      modifies this`archive, storage
      ensures Keyed(storage.records) && storage.records == late - Through(late, cutoff)
      ensures deleted == |Through(late, cutoff)|
      ensures archive == old(archive) + found
      ensures if archiveBeforeDelete then Lists(found, old(storage.records), Until(cutoff)) else found == []
    {
      UntilIsThrough(late, cutoff);
      found := [];
      if archiveBeforeDelete {
        var records := storage.Find(Until(cutoff));
        archive := archive + records;
        found := records;
      }
      storage.records := late;
      deleted := storage.Delete(Until(cutoff));
    }

    /** All records, oldest first. */
    method Chronological() returns (records: array<Record>)
      requires Keyed(storage.records)
      ensures fresh(records) && Chronicle(records[..], storage.records) && records.Length == |storage.records|
    {
      var found := storage.Find(EVERYTHING);
      records := new Record[|found|](i requires 0 <= i < |found| => found[i]);
      assert records[..] == found;
      SortRecordsByTime(records);
      SortedListing(storage.records, found, records[..]);
      IDCount(records[..]);
    }

    /**
      Deletes the oldest records beyond the limit.  `meanwhile` is what the store holds when
      it is queried and `late` what it holds when the delete gets to it: the same as when
      it was counted, unless somebody else wrote to it.
     */
    method PruneByCount(meanwhile: Store, late: Store) returns (deleted: nat, ghost archived: seq<Record>)
      requires Keyed(storage.records) && Keyed(meanwhile) && Keyed(late)
      modifies this`archive, storage
      ensures Keyed(storage.records)
      ensures |old(storage.records)| <= maxRecords ==>
        storage.records == old(storage.records) && deleted == 0 && archived == []
      ensures |old(storage.records)| > maxRecords ==>
        TrimmedTo(meanwhile, late, maxRecords, storage.records, deleted, archived)
      ensures archive == old(archive) + if archiveBeforeDelete then archived else []
    {
      archived := [];
      var count := storage.Count(EVERYTHING);
      AllMatch(storage.records);
      if count <= maxRecords {
        return 0, [];
      }
      storage.records := meanwhile;
      deleted, archived := DeleteOldest(late);
    }

    /** The part of PruneByCount from the query on. */
    method DeleteOldest(late: Store) returns (deleted: nat, ghost archived: seq<Record>)
      requires Keyed(storage.records) && Keyed(late)
      modifies this`archive, storage
      ensures Keyed(storage.records)
      ensures TrimmedTo(old(storage.records), late, maxRecords, storage.records, deleted, archived)
      ensures archive == old(archive) + if archiveBeforeDelete then archived else []
    {
      archived := [];
      var all := Chronological();
      if all.Length == 0 {
        return 0, [];
      }
      var actualToDelete := all.Length - maxRecords;
      if actualToDelete <= 0 {
        return 0, [];
      }
      if actualToDelete > all.Length {
        actualToDelete := all.Length;
      }
      assert actualToDelete == ToDelete(|storage.records|, maxRecords);
      deleted, archived := DeleteThrough(all[..], actualToDelete, late);
    }

    /** Archives the k oldest if asked to, then deletes everything up to the time of the k-th. */
    method DeleteThrough(all: seq<Record>, k: nat, late: Store) returns (deleted: nat, ghost archived: seq<Record>)
      requires Keyed(storage.records) && Chronicle(all, storage.records) && 0 < k <= |all| && Keyed(late)
      modifies this`archive, storage
      ensures Keyed(storage.records)
      ensures PrunedWith(old(storage.records), all, k, late, storage.records, deleted, archived)
      ensures archive == old(archive) + if archiveBeforeDelete then archived else []
    {
      archived := all[..k];
      if archiveBeforeDelete {
        archive := archive + all[..k];
      }
      storage.records := late;
      deleted := storage.Delete(Until(all[k - 1].time));
      DeletedUntil(old(storage.records), all, k, late, storage.records, deleted);
    }

    /** The first phase, unless no retention period is set. */
    method AgePhase(cutoff: int, o: Observed) returns (deleted: nat, ghost found: seq<Record>)
      requires Keyed(storage.records) && Keyed(o.atAgeDelete)
      modifies this`archive, storage
      ensures Keyed(storage.records) && storage.records == Aged(retentionDays, cutoff, old(storage.records), o)
      ensures deleted == ByAge(retentionDays, cutoff, o) && archive == old(archive) + found
      ensures if archiveBeforeDelete && retentionDays > 0 then Lists(found, old(storage.records), Until(cutoff)) else found == []
    {
      deleted, found := 0, [];
      if retentionDays > 0 {
        deleted, found := PruneByAge(cutoff, o.atAgeDelete);
      }
    }

    /** The second phase, unless no limit is set. */
    method CountPhase(o: Observed) returns (deleted: nat, ghost archived: seq<Record>)
      requires Keyed(storage.records) && Keyed(o.atCount) && Keyed(o.atQuery) && Keyed(o.atDelete)
      modifies this`archive, storage
      ensures Keyed(storage.records)
      ensures Counted(maxRecords, old(storage.records), o, storage.records, deleted, archived)
      ensures archive == old(archive) + if archiveBeforeDelete then archived else []
    {
      deleted, archived := 0, [];
      if maxRecords > 0 {
        storage.records := o.atCount;
        deleted, archived := PruneByCount(o.atQuery, o.atDelete);
      }
    }

    /** Both phases; `o` is what the store holds at each of the calls on it after the first. */
    method Prune(cutoff: int, o: Observed)
      returns (totalDeleted: nat, ghost byCount: nat, ghost found: seq<Record>, ghost archived: seq<Record>)
      requires Keyed(storage.records)
      requires Keyed(o.atAgeDelete) && Keyed(o.atCount) && Keyed(o.atQuery) && Keyed(o.atDelete)
      modifies this`archive, storage
      ensures Keyed(storage.records)
      ensures Counted(maxRecords, Aged(retentionDays, cutoff, old(storage.records), o), o, storage.records, byCount, archived)
      ensures totalDeleted == ByAge(retentionDays, cutoff, o) + byCount
      ensures archive == old(archive) + found + if archiveBeforeDelete then archived else []
      ensures if archiveBeforeDelete && retentionDays > 0 then Lists(found, old(storage.records), Until(cutoff)) else found == []
    {
      totalDeleted, found := AgePhase(cutoff, o);
      var deleted;
      deleted, archived := CountPhase(o);
      totalDeleted, byCount := totalDeleted + deleted, deleted;
    }
  }

  /** What the store holds at the calls a pruner makes on it. */
  datatype Observed = Observed(atAgeDelete: Store, atCount: Store, atQuery: Store, atDelete: Store)

  /** The store after the first phase, and how many records that removed. */
  ghost function Aged(retentionDays: int, cutoff: int, before: Store, o: Observed): Store {
    if retentionDays > 0 then o.atAgeDelete - Through(o.atAgeDelete, cutoff) else before
  }

  ghost function ByAge(retentionDays: int, cutoff: int, o: Observed): nat {
    if retentionDays > 0 then |Through(o.atAgeDelete, cutoff)| else 0
  }

  /** The second phase. */
  ghost predicate Counted(maxRecords: int, aged: Store, o: Observed, after: Store, deleted: nat, archived: seq<Record>) {
    if maxRecords <= 0 then after == aged && deleted == 0 && archived == []
    else if |o.atCount| <= maxRecords then after == o.atCount && deleted == 0 && archived == []
    else TrimmedTo(o.atQuery, o.atDelete, maxRecords, after, deleted, archived)
  }

  /** Nobody else writes to the store during the run. */
  ghost predicate Alone(retentionDays: int, cutoff: int, before: Store, o: Observed) {
    o.atAgeDelete == before && o.atCount == o.atQuery == o.atDelete == Aged(retentionDays, cutoff, before, o)
  }

  /**
    Without other writers, what survives is unchanged, newer than the cutoff, no more than
    the limit, and newer than everything that was removed.
   */
  lemma {:induction false} PrunedAlone(retentionDays: int, maxRecords: int, cutoff: int, before: Store, o: Observed,
                                       after: Store, byCount: nat, archived: seq<Record>)
    requires Counted(maxRecords, Aged(retentionDays, cutoff, before, o), o, after, byCount, archived)
    requires Alone(retentionDays, cutoff, before, o)
    ensures NewestOf(before, after) && ByAge(retentionDays, cutoff, o) + byCount == |before| - |after|
    ensures retentionDays > 0 ==> forall id :: id in after ==> after[id].time > cutoff
    ensures maxRecords > 0 ==> |after| <= maxRecords
  {
    AgedAlone(retentionDays, cutoff, before, o);
    CountedAlone(before, Aged(retentionDays, cutoff, before, o), maxRecords, o, after, byCount, archived);
  }

  lemma {:induction false} CountedAlone(before: Store, aged: Store, maxRecords: int, o: Observed,
                                        after: Store, deleted: nat, archived: seq<Record>)
    requires NewestOf(before, aged) && o.atCount == o.atQuery == o.atDelete == aged
    requires Counted(maxRecords, aged, o, after, deleted, archived)
    ensures NewestOf(before, after) && deleted == |aged| - |after| && (maxRecords > 0 ==> |after| <= maxRecords)
    ensures forall id :: id in after ==> id in aged && after[id] == aged[id]
  {
    if maxRecords > 0 && |aged| > maxRecords {
      TrimmedAlone(before, aged, maxRecords, after, deleted, archived);
    }
  }

  lemma {:induction false} AgedAlone(retentionDays: int, cutoff: int, before: Store, o: Observed)
    requires o.atAgeDelete == before
    ensures var aged := Aged(retentionDays, cutoff, before, o);
      && NewestOf(before, aged) && ByAge(retentionDays, cutoff, o) == |before| - |aged|
      && (retentionDays > 0 ==> forall id :: id in aged ==> aged[id].time > cutoff)
  {
    if retentionDays > 0 { AgedIsNewest(before, cutoff); }
  }

  lemma {:induction false} TrimmedAlone(before: Store, aged: Store, maxRecords: nat, after: Store, deleted: nat, archived: seq<Record>)
    requires NewestOf(before, aged) && TrimmedTo(aged, aged, maxRecords, after, deleted, archived)
    ensures NewestOf(before, after) && deleted == |aged| - |after| && |after| <= maxRecords
    ensures forall id :: id in after ==> id in aged && after[id] == aged[id]
  {
    TrimmedMeans(aged, maxRecords, after, deleted, archived);
    NewestOfNewest(before, aged, after);
    forall id | id in after ensures id in aged && after[id] == aged[id] { assert Fate(aged, after, id); }
  }

  /** A record that survives is unchanged; one that does not is older than all that do. */
  ghost predicate Fate(m: Store, after: Store, id: string) {
    && (id in after ==> id in m && after[id] == m[id])
    && (id in m && id !in after ==> forall a :: a in after ==> m[id].time < after[a].time)
  }

  /** What survives is unchanged and newer than everything removed. */
  ghost predicate NewestOf(m: Store, after: Store) {
    forall id :: Fate(m, after, id)
  }

  lemma {:induction false} NewestOfNewest(m: Store, m': Store, after: Store)
    requires NewestOf(m, m') && NewestOf(m', after)
    ensures NewestOf(m, after)
  {
    forall id ensures Fate(m, after, id) {
      assert Fate(m, m', id) && Fate(m', after, id);
      forall a | a in after ensures a in m' && after[a] == m'[a] { assert Fate(m', after, a); }
    }
  }

  lemma {:induction false} AgedIsNewest(m: Store, cutoff: int)
    ensures var aged := m - Through(m, cutoff);
      NewestOf(m, aged) && |Through(m, cutoff)| == |m| - |aged| && forall id :: id in aged ==> aged[id].time > cutoff
  {
    PartsAddUp(m.Keys, Through(m, cutoff));
    assert (m - Through(m, cutoff)).Keys == m.Keys - Through(m, cutoff);
  }

  lemma {:induction false} AllMatch(m: Store)
    ensures Matching(m, EVERYTHING) == m.Keys
  {
  }

  lemma {:induction false} PrunedMeans(m: Store, records: seq<Record>, k: nat, after: Store, deleted: nat, archived: seq<Record>)
    requires PrunedWith(m, records, k, m, after, deleted, archived)
    ensures |after| <= |m| - k && deleted == |m| - |after|
    ensures NewestOf(m, after) && IDs(archived) <= m.Keys - after.Keys
  {
    CountPruning(m, records, k);
    PartsAddUp(m.Keys, Through(m, records[k - 1].time));
    assert after.Keys == m.Keys - Through(m, records[k - 1].time);
  }

  /** A store trimmed to a limit holds no more than that, and only records newer than all it lost. */
  lemma {:induction false} TrimmedMeans(m: Store, maxRecords: nat, after: Store, deleted: nat, archived: seq<Record>)
    requires TrimmedTo(m, m, maxRecords, after, deleted, archived)
    ensures |after| <= maxRecords && deleted == |m| - |after|
    ensures NewestOf(m, after) && IDs(archived) <= m.Keys - after.Keys
  {
    if |m| > maxRecords {
      var records :| PrunedWith(m, records, ToDelete(|m|, maxRecords), m, after, deleted, archived);
      PrunedMeans(m, records, ToDelete(|m|, maxRecords), after, deleted, archived);
    }
  }

  /** Nor does it lose more than it must: as many are archived as are too many, and whatever goes has fewer than that before it. */
  lemma {:induction false} TrimmedNoMore(m: Store, maxRecords: nat, after: Store, deleted: nat, archived: seq<Record>, d: string)
    requires TrimmedTo(m, m, maxRecords, after, deleted, archived) && |m| > maxRecords
    ensures |archived| == |m| - maxRecords
    ensures d in m && d !in after ==> |OlderThan(m, m[d].time)| < |m| - maxRecords
  {
    var records :| PrunedWith(m, records, ToDelete(|m|, maxRecords), m, after, deleted, archived);
    PrunedNoMore(m, records, ToDelete(|m|, maxRecords), after, deleted, archived, d);
  }

  lemma {:induction false} PrunedNoMore(m: Store, records: seq<Record>, k: nat, after: Store, deleted: nat,
                                        archived: seq<Record>, d: string)
    requires PrunedWith(m, records, k, m, after, deleted, archived)
    ensures |archived| == k && (d in m && d !in after ==> |OlderThan(m, m[d].time)| < k)
  {
    if d in m && d !in after {
      assert m[d].time <= records[k - 1].time;
      NoMoreThanNeeded(m, records, k, m[d].time);
    }
  }

  ghost function OlderThan(m: Store, t: int): set<string> {
    set id | id in m && m[id].time < t
  }

  /** Fewer than k records are older than any that goes, so none goes that the limit does not ask for, but for ties. */
  lemma {:induction false} NoMoreThanNeeded(m: Store, records: seq<Record>, k: nat, t: int)
    requires Chronicle(records, m) && 0 < k <= |records| && t <= records[k - 1].time
    ensures |OlderThan(m, t)| < k
  {
    IDCount(records[..k - 1]);
    forall id | id in OlderThan(m, t) ensures id in IDs(records[..k - 1]) {
      assert id in IDs(records);
      var i :| 0 <= i < |records| && records[i].id == id;
      assert m[records[i].id] == records[i];
      assert i < k - 1;
      assert records[..k - 1][i].id == id;
    }
    SubsetSize(OlderThan(m, t), IDs(records[..k - 1]));
  }

  /** With a tie across the cutoff more is deleted than was archived: here everything, one of two archived. */
  lemma {:induction false} TieLosesRecords(a: Record, b: Record)
    requires a.id != b.id && a.time == b.time
    ensures var m: Store := map[a.id := a, b.id := b];
      CountPruned(m, m, 1, map[], 2, [a])
  {
    var m: Store := map[a.id := a, b.id := b];
    var records := [a, b];
    assert m.Keys == {a.id, b.id};
    assert |m| == 2;
    assert IDs(records) == m.Keys by { assert records[0].id in IDs(records) && records[1].id in IDs(records); }
    assert Chronicle(records, m);
    assert Through(m, a.time) == m.Keys;
    assert Survivors(m, records, 1) == map[];
    assert ToDelete(|m|, 1) == 1;
    assert PrunedWith(m, records, ToDelete(|m|, 1), m, map[], 2, [a]) by { assert records[..1] == [a]; }
  }
}
