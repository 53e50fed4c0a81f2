/** What the manifest's greedy pass selects, and in which order it looks. */
module ManifestSelection {
  import opened Wrappers
  import opened Bytes
  import opened JobTable
  import opened JobTableLaws

  // ------------------------------------------------------------------ the order of the query

  lemma {:induction false} TextLeqTotal(a: string, b: string)
    ensures TextLeq(a, b) || TextLeq(b, a)
    ensures TextLeq(a, b) && TextLeq(b, a) ==> a == b
  {
    if a != [] && b != [] && a[0] == b[0] {
      TextLeqTotal(a[1..], b[1..]);
      assert a == [a[0]] + a[1..] && b == [b[0]] + b[1..];
    }
  }

  lemma {:induction false} TextLeqTransitive(a: string, b: string, c: string)
    requires TextLeq(a, b) && TextLeq(b, c)
    ensures TextLeq(a, c)
  {
    if a != [] && b != [] && c != [] && a[0] == b[0] == c[0] {
      TextLeqTransitive(a[1..], b[1..], c[1..]);
    }
  }

  lemma RowLeqTotal(a: JobRow, b: JobRow)
    ensures RowLeq(a, b) || RowLeq(b, a)
    ensures RowLeq(a, b) && RowLeq(b, a) ==> a.id == b.id
  {
    TextLeqTotal(a.id, b.id);
  }

  lemma RowLeqTransitive(a: JobRow, b: JobRow, c: JobRow)
    requires RowLeq(a, b) && RowLeq(b, c)
    ensures RowLeq(a, c)
  {
    if a.displayAt == b.displayAt == c.displayAt && a.createdAt == b.createdAt == c.createdAt {
      TextLeqTransitive(a.id, b.id, c.id);
    }
  }

  ghost predicate Ordered(rows: seq<JobRow>) {
    forall i, j :: 0 <= i < j < |rows| ==> RowLeq(rows[i], rows[j])
  }

  lemma {:induction false} InsertKeepsOrder(row: JobRow, rows: seq<JobRow>)
    requires Ordered(rows)
    ensures Ordered(InsertRow(row, rows))
  {
    if rows != [] {
      RowLeqTotal(row, rows[0]);
      if RowLeq(row, rows[0]) {
        forall j | 0 <= j < |rows|
          ensures RowLeq(row, rows[j])
        {
          if j > 0 { RowLeqTransitive(row, rows[0], rows[j]); }
        }
      } else {
        var rest := InsertRow(row, rows[1..]);
        InsertKeepsOrder(row, rows[1..]);
        forall j | 0 <= j < |rest|
          ensures RowLeq(rows[0], rest[j])
        {
          assert rest[j] in multiset(rest);
          if rest[j] != row {
            assert rest[j] in multiset(rows[1..]);
            assert rest[j] in rows[1..];
          }
        }
      }
    }
  }

  /** The query yields exactly the rows that match it, each as often as it occurs, in the stated order. */
  lemma {:induction false} QueryIsOrdered(rows: seq<JobRow>)
    ensures Ordered(OrderRows(rows)) && multiset(OrderRows(rows)) == multiset(rows)
  {
    if rows != [] {
      QueryIsOrdered(rows[..|rows| - 1]);
      InsertKeepsOrder(rows[|rows| - 1], OrderRows(rows[..|rows| - 1]));
    }
  }

  /** Every pending scheduled row that is overdue or within the next 24 hours is queried. */
  lemma {:induction false} CandidatesAreAll(s: Store, jobs: seq<JobRow>, now: int, i: nat)
    requires i < |jobs| && jobs[i].status == Pending && !jobs[i].immediate
    requires jobs[i].displayAt <= now + 24 * 60 * 60 && jobs[i].sha in s.assets
    ensures jobs[i] in CandidateRows(s, jobs, now)
  {
    var last := |jobs| - 1;
    if i < last {
      CandidatesAreAll(s, jobs[..last], now, i);
      assert jobs[..last][i] == jobs[i];
    }
  }

  // ------------------------------------------------------------------ the greedy pass

  /** The candidates the greedy pass takes, by position. */
  function Taken(first: seq<ManifestJob>, scheduled: seq<ManifestJob>, limit: nat): seq<nat> {
    if scheduled == [] then []
    else
      var last := |scheduled| - 1;
      Taken(first, scheduled[..last], limit)
      + if Fits(Take(first, scheduled[..last], limit), scheduled[last], limit) then [last] else []
  }

  ghost predicate Increasing(positions: seq<nat>, below: nat) {
    && (forall i :: 0 <= i < |positions| ==> positions[i] < below)
    && (forall i, j :: 0 <= i < j < |positions| ==> positions[i] < positions[j])
  }

  ghost predicate Picks(all: seq<ManifestJob>, positions: seq<nat>, picked: seq<ManifestJob>) {
    && |picked| == |positions|
    && forall i :: 0 <= i < |positions| ==> positions[i] < |all| && picked[i] == all[positions[i]]
  }

  lemma AppendedPick(all: seq<ManifestJob>, positions: seq<nat>, picked: seq<ManifestJob>)
    requires all != [] && Increasing(positions, |all| - 1) && Picks(all[..|all| - 1], positions, picked)
    ensures Increasing(positions + [|all| - 1], |all|)
    ensures Picks(all, positions + [|all| - 1], picked + [all[|all| - 1]])
    ensures Increasing(positions, |all|) && Picks(all, positions, picked)
  {
  }

  lemma {:induction false} SelectionIsSubsequence(first: seq<ManifestJob>, scheduled: seq<ManifestJob>, limit: nat)
    ensures Increasing(Taken(first, scheduled, limit), |scheduled|)
    ensures first <= Take(first, scheduled, limit)
    ensures Picks(scheduled, Taken(first, scheduled, limit), Take(first, scheduled, limit)[|first|..])
  {
    if scheduled != [] {
      var last := |scheduled| - 1;
      SelectionIsSubsequence(first, scheduled[..last], limit);
      var before := Take(first, scheduled[..last], limit);
      AppendedPick(scheduled, Taken(first, scheduled[..last], limit), before[|first|..]);
      assert (before + [scheduled[last]])[|first|..] == before[|first|..] + [scheduled[last]];
    }
  }

  lemma {:induction false} SelectionBounds(first: seq<ManifestJob>, scheduled: seq<ManifestJob>, limit: nat)
    requires |first| <= limit && AssetBytes(first) <= MAX_MANIFEST_ASSET_BYTES
    ensures |Take(first, scheduled, limit)| <= limit
    ensures AssetBytes(first) <= AssetBytes(Take(first, scheduled, limit)) <= MAX_MANIFEST_ASSET_BYTES
  {
    if scheduled != [] {
      var last := |scheduled| - 1;
      SelectionBounds(first, scheduled[..last], limit);
      var before := Take(first, scheduled[..last], limit);
      assert (before + [scheduled[last]])[..|before|] == before;
    }
  }

  lemma {:induction false} SelectionGrows(first: seq<ManifestJob>, scheduled: seq<ManifestJob>, limit: nat, k: nat)
    requires k <= |scheduled|
    ensures Take(first, scheduled[..k], limit) <= Take(first, scheduled, limit)
    ensures AssetBytes(Take(first, scheduled[..k], limit)) <= AssetBytes(Take(first, scheduled, limit))
    decreases |scheduled|
  {
    if k < |scheduled| {
      var last := |scheduled| - 1;
      assert scheduled[..last][..k] == scheduled[..k];
      SelectionGrows(first, scheduled[..last], limit, k);
      var before := Take(first, scheduled[..last], limit);
      assert (before + [scheduled[last]])[..|before|] == before;
    } else {
      assert scheduled[..k] == scheduled;
    }
  }

  lemma LastTaken(first: seq<ManifestJob>, scheduled: seq<ManifestJob>, limit: nat)
    requires scheduled != []
    ensures |scheduled| - 1 in Taken(first, scheduled, limit) <==>
            Fits(Take(first, scheduled[..|scheduled| - 1], limit), scheduled[|scheduled| - 1], limit)
  {
    var last := |scheduled| - 1;
    SelectionIsSubsequence(first, scheduled[..last], limit);
    assert last !in Taken(first, scheduled[..last], limit);
  }

  /** A candidate is taken exactly when it fits what was taken before it. */
  lemma {:induction false} TakenWhenItFits(first: seq<ManifestJob>, scheduled: seq<ManifestJob>, limit: nat, k: nat)
    requires k < |scheduled|
    ensures k in Taken(first, scheduled, limit) <==> Fits(Take(first, scheduled[..k], limit), scheduled[k], limit)
    decreases |scheduled|
  {
    var last := |scheduled| - 1;
    if k == last {
      LastTaken(first, scheduled, limit);
    } else {
      var front := scheduled[..last];
      TakenWhenItFits(first, front, limit, k);
      assert front[..k] == scheduled[..k] && front[k] == scheduled[k];
      assert k in Taken(first, scheduled, limit) <==> k in Taken(first, front, limit);
    }
  }

  lemma FirstFits(h: Digest, s: Store)
    requires StoreInv(h, s)
    ensures AssetBytes(First(s)) <= MAX_MANIFEST_ASSET_BYTES
  {
    var row := PendingImmediate(s, s.jobs);
    if row.Some? { assert AssetIntact(h, s.assets, s.files, row.value.sha); }
  }

  /**
   * The selection, for every table and every limit the builder accepts: the immediate job, then an
   * ordered subsequence of the scheduled candidates, within both bounds, and maximal: with room left
   * in the count, every omitted candidate would overflow the final byte total.
   */
  lemma GreedySelection(h: Digest, s: Store, now: int, limit: nat)
    requires StoreInv(h, s)
    requires 1 <= limit <= MAX_MANIFEST_JOBS
    ensures var rows := ManifestOf(s, now, limit).jobs;
            var positions := Taken(First(s), Scheduled(s, now), limit);
            && First(s) <= rows
            && Increasing(positions, |Scheduled(s, now)|)
            && Picks(Scheduled(s, now), positions, rows[|First(s)|..])
            && |rows| <= limit && AssetBytes(rows) <= MAX_MANIFEST_ASSET_BYTES
            && forall k :: 0 <= k < |Scheduled(s, now)| && k !in positions ==>
                 |rows| == limit || AssetBytes(rows) + Scheduled(s, now)[k].size > MAX_MANIFEST_ASSET_BYTES
  {
    var first, scheduled := First(s), Scheduled(s, now);
    FirstFits(h, s);
    SelectionIsSubsequence(first, scheduled, limit);
    SelectionBounds(first, scheduled, limit);
    forall k | 0 <= k < |scheduled| && k !in Taken(first, scheduled, limit)
      ensures |Take(first, scheduled, limit)| == limit
              || AssetBytes(Take(first, scheduled, limit)) + scheduled[k].size > MAX_MANIFEST_ASSET_BYTES
    {
      TakenWhenItFits(first, scheduled, limit, k);
      SelectionGrows(first, scheduled, limit, k);
    }
  }

  // ------------------------------------------------------------------ no job is listed twice

  ghost predicate UniqueManifestIds(jobs: seq<ManifestJob>) {
    forall i, j :: 0 <= i < j < |jobs| ==> jobs[i].id != jobs[j].id
  }

  lemma {:induction false} CandidatesUnique(s: Store, jobs: seq<JobRow>, now: int)
    requires UniqueIds(jobs)
    ensures UniqueIds(CandidateRows(s, jobs, now))
  {
    if jobs != [] {
      var front, last := jobs[..|jobs| - 1], jobs[|jobs| - 1];
      var rest := CandidateRows(s, front, now);
      CandidatesUnique(s, front, now);
      forall i | 0 <= i < |rest|
        ensures rest[i].id != last.id
      {
        var k :| 0 <= k < |front| && front[k] == rest[i];
        assert jobs[k] == front[k];
      }
    }
  }

  lemma {:induction false} InsertUnique(row: JobRow, rows: seq<JobRow>)
    requires UniqueIds(rows) && forall i :: 0 <= i < |rows| ==> rows[i].id != row.id
    ensures UniqueIds(InsertRow(row, rows))
  {
    if rows != [] && !RowLeq(row, rows[0]) {
      var rest := InsertRow(row, rows[1..]);
      InsertUnique(row, rows[1..]);
      forall i | 0 <= i < |rest|
        ensures rest[i].id != rows[0].id
      {
        assert rest[i] in multiset(rest);
        if rest[i] != row {
          assert rest[i] in rows[1..];
        }
      }
    }
  }

  lemma {:induction false} OrderUnique(rows: seq<JobRow>)
    requires UniqueIds(rows)
    ensures UniqueIds(OrderRows(rows))
  {
    if rows != [] {
      var front, last := rows[..|rows| - 1], rows[|rows| - 1];
      var ordered := OrderRows(front);
      OrderUnique(front);
      forall i | 0 <= i < |ordered|
        ensures ordered[i].id != last.id
      {
        assert ordered[i] in multiset(ordered);
        assert ordered[i] in front;
        var k :| 0 <= k < |front| && front[k] == ordered[i];
        assert rows[k] == front[k];
      }
      InsertUnique(last, ordered);
    }
  }

  lemma ScheduledUnique(s: Store, now: int)
    requires UniqueIds(s.jobs)
    ensures UniqueManifestIds(Scheduled(s, now))
  {
    CandidatesUnique(s, s.jobs, now);
    OrderUnique(CandidateRows(s, s.jobs, now));
    var ordered := OrderRows(CandidateRows(s, s.jobs, now));
    forall i, j | 0 <= i < j < |ordered|
      ensures Scheduled(s, now)[i].id != Scheduled(s, now)[j].id
    {
      assert ordered[i].id != ordered[j].id;
    }
  }

  /** The immediate job is none of the scheduled ones. */
  lemma ImmediateIsNotScheduled(s: Store, now: int, i: nat)
    requires UniqueIds(s.jobs) && First(s) != [] && i < |Scheduled(s, now)|
    ensures Scheduled(s, now)[i].id != First(s)[0].id
  {
    var first := PendingImmediate(s, s.jobs).value;
    var ordered := OrderRows(CandidateRows(s, s.jobs, now));
    assert ordered[i] in multiset(ordered);
    assert ordered[i] in CandidateRows(s, s.jobs, now);
    var j :| 0 <= j < |s.jobs| && s.jobs[j] == ordered[i];
    var k :| 0 <= k < |s.jobs| && s.jobs[k] == first;
    assert j != k;
    assert s.jobs[j].id != s.jobs[k].id;
  }

  /** What is drawn from distinct jobs behind another one is distinct. */
  lemma DrawnUnique(first: seq<ManifestJob>, scheduled: seq<ManifestJob>, positions: seq<nat>, rows: seq<ManifestJob>)
    requires UniqueManifestIds(scheduled) && Increasing(positions, |scheduled|)
    requires |first| <= 1 && first <= rows && Picks(scheduled, positions, rows[|first|..])
    requires first != [] ==> forall q :: 0 <= q < |scheduled| ==> scheduled[q].id != first[0].id
    ensures UniqueManifestIds(rows)
  {
    forall i, j | 0 <= i < j < |rows|
      ensures rows[i].id != rows[j].id
    {
      assert rows[j] == rows[|first|..][j - |first|] == scheduled[positions[j - |first|]];
      if i < |first| {
        assert rows[i] == first[0];
      } else {
        assert rows[i] == rows[|first|..][i - |first|] == scheduled[positions[i - |first|]];
      }
    }
  }

  /** A manifest lists no job twice. */
  lemma SelectionIsUnique(s: Store, now: int, limit: nat)
    requires UniqueIds(s.jobs)
    ensures UniqueManifestIds(ManifestOf(s, now, limit).jobs)
  {
    var first, scheduled := First(s), Scheduled(s, now);
    SelectionIsSubsequence(first, scheduled, limit);
    ScheduledUnique(s, now);
    forall q | 0 <= q < |scheduled| && first != []
      ensures scheduled[q].id != first[0].id
    {
      ImmediateIsNotScheduled(s, now, q);
    }
    DrawnUnique(first, scheduled, Taken(first, scheduled, limit), Take(first, scheduled, limit));
  }
}
