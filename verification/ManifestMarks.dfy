/** Taking a manifest from an answer, and what that does to the marks of the jobs already displayed. */
module ManifestMarks {
  import opened Wrappers
  import opened ManifestDoc

  /** The jobs not yet expired at the server's time. */
  function LiveJobs(jobs: seq<Job>, serverTime: int): (r: seq<Job>)
    ensures forall job :: job in r ==> job in jobs && !(job.expiresAt > 0 && job.expiresAt <= serverTime)
    ensures |r| <= |jobs|
  {
    if jobs == [] then []
    else
      var last := jobs[|jobs| - 1];
      LiveJobs(jobs[..|jobs| - 1], serverTime)
      + if last.expiresAt > 0 && last.expiresAt <= serverTime then [] else [last]
  }

  function LiveManifest(parsed: Manifest): Manifest {
    parsed.(jobs := LiveJobs(parsed.jobs, parsed.serverTime))
  }

  /** The manifest taken from an answer: as parsed with the earlier flags, less the expired jobs. */
  ghost predicate TookManifest(doc: Json, previous: seq<Job>, m: Manifest) {
    exists parsed :: Parses(doc, Some(previous), parsed) && m == LiveManifest(parsed)
  }

  ghost predicate Lists(jobs: seq<Job>, id: string) {
    exists i :: 0 <= i < |jobs| && jobs[i].id == id
  }

  /** The job is listed, and marked displayed wherever it is listed. */
  ghost predicate Marked(jobs: seq<Job>, id: string) {
    Lists(jobs, id) && forall i :: 0 <= i < |jobs| && jobs[i].id == id ==> jobs[i].displayed
  }

  /** Every job that is still listed keeps its mark. */
  ghost predicate KeepsMarks(before: seq<Job>, after: seq<Job>) {
    forall id :: Marked(before, id) && Lists(after, id) ==> Marked(after, id)
  }

  ghost predicate UniqueJobIds(jobs: seq<Job>) {
    forall i, j :: 0 <= i < j < |jobs| ==> jobs[i].id != jobs[j].id
  }

  /** Where ids are unique, a job is marked exactly when it is listed with its flag set. */
  lemma MarkedWhenUnique(jobs: seq<Job>, k: nat)
    requires UniqueJobIds(jobs) && k < |jobs|
    ensures Marked(jobs, jobs[k].id) <==> jobs[k].displayed
  {
  }

  lemma TwoOccurrences(jobs: seq<Job>, i: nat, j: nat)
    requires i < j < |jobs| && jobs[i] == jobs[j]
    ensures multiset(jobs)[jobs[i]] >= 2
  {
    var front, back := jobs[..j], jobs[j..];
    assert jobs == front + back;
    assert front[i] in multiset(front) && back[0] in multiset(back);
    assert multiset(jobs)[jobs[i]] == multiset(front)[jobs[i]] + multiset(back)[jobs[i]];
  }

  lemma {:induction false} OneOccurrence(jobs: seq<Job>, job: Job)
    requires UniqueJobIds(jobs)
    ensures multiset(jobs)[job] <= 1
  {
    if jobs != [] {
      var front, last := jobs[..|jobs| - 1], jobs[|jobs| - 1];
      assert jobs == front + [last];
      OneOccurrence(front, job);
      assert forall i :: 0 <= i < |front| ==> front[i] == jobs[i] && front[i].id != last.id;
      assert last !in front && multiset(front)[last] == 0;
    }
  }

  lemma UniquePermuted(a: seq<Job>, b: seq<Job>)
    requires multiset(a) == multiset(b) && UniqueJobIds(a)
    ensures UniqueJobIds(b)
  {
    forall i, j | 0 <= i < j < |b|
      ensures b[i].id != b[j].id
    {
      if b[i] == b[j] {
        TwoOccurrences(b, i, j);
        OneOccurrence(a, b[i]);
      } else {
        assert b[i] in multiset(a) && b[j] in multiset(a);
        var p :| 0 <= p < |a| && a[p] == b[i];
        var q :| 0 <= q < |a| && a[q] == b[j];
        assert p != q;
      }
    }
  }

  lemma MarkedFlag(jobs: seq<Job>, id: string)
    requires Marked(jobs, id)
    ensures FirstIsMarked(jobs, id)
  {
    MarkedFlagIs(jobs, id);
    FirstFlagIs(jobs, id);
  }

  lemma {:induction false} MarkedFlagIs(jobs: seq<Job>, id: string)
    requires Marked(jobs, id)
    ensures FirstFlag(jobs, id)
  {
    if jobs[0].id != id {
      var rest := jobs[1..];
      var i :| 0 <= i < |jobs| && jobs[i].id == id;
      assert rest[i - 1].id == id;
      assert forall k :: 0 <= k < |rest| ==> rest[k] == jobs[k + 1];
      MarkedFlagIs(rest, id);
    }
  }

  /** Marks depend only on which jobs are listed, not on their order. */
  lemma MarkedPermuted(a: seq<Job>, b: seq<Job>, id: string)
    requires multiset(a) == multiset(b)
    ensures Marked(a, id) ==> Marked(b, id)
  {
    if Marked(a, id) {
      var i :| 0 <= i < |a| && a[i].id == id;
      assert a[i] in multiset(b);
      assert a[i] in b;
      forall k | 0 <= k < |b| && b[k].id == id
        ensures b[k].displayed
      {
        assert b[k] in multiset(a);
        assert b[k] in a;
      }
    }
  }

  /**
   * A job taken from an answer is marked exactly when the first earlier entry with its id was: in particular a
   * job the device did not list before is taken unmarked, and will be shown.
   */
  lemma TakenFlag(doc: Json, previous: seq<Job>, m: Manifest, i: nat)
    requires TookManifest(doc, previous, m) && i < |m.jobs|
    ensures m.jobs[i].displayed <==> FirstIsMarked(previous, m.jobs[i].id)
    ensures !Lists(previous, m.jobs[i].id) ==> !m.jobs[i].displayed
  {
    var parsed :| Parses(doc, Some(previous), parsed) && m == LiveManifest(parsed);
    assert m.jobs[i] in m.jobs;
    assert m.jobs[i] in parsed.jobs;
    var k: nat :| k < |parsed.jobs| && parsed.jobs[k] == m.jobs[i];
    CarriedFlags(doc, previous, parsed, k);
  }

  /** Dropping the expired jobs drops nothing else. */
  lemma {:induction false} LiveStay(jobs: seq<Job>, serverTime: int, job: Job)
    requires job in jobs && !(job.expiresAt > 0 && job.expiresAt <= serverTime)
    ensures job in LiveJobs(jobs, serverTime)
  {
    var last := jobs[|jobs| - 1];
    assert jobs == jobs[..|jobs| - 1] + [last];
    if job != last { LiveStay(jobs[..|jobs| - 1], serverTime, job); }
  }

  /** Taking a manifest keeps the mark of every job that the device still lists afterwards. */
  lemma TakeKeepsMark(doc: Json, previous: seq<Job>, m: Manifest, id: string)
    requires TookManifest(doc, previous, m) && Marked(previous, id) && Lists(m.jobs, id)
    ensures Marked(m.jobs, id)
  {
    var parsed :| Parses(doc, Some(previous), parsed) && m == LiveManifest(parsed);
    MarkedFlag(previous, id);
    forall k | 0 <= k < |m.jobs| && m.jobs[k].id == id
      ensures m.jobs[k].displayed
    {
      assert m.jobs[k] in parsed.jobs;
      var i: nat :| i < |parsed.jobs| && parsed.jobs[i] == m.jobs[k];
      CarriedFlags(doc, previous, parsed, i);
    }
  }

  /** Where no job is expired at the server's time, the device keeps listing all that the answer lists. */
  lemma {:induction false} AllLive(jobs: seq<Job>, serverTime: int)
    requires forall i :: 0 <= i < |jobs| ==> !(jobs[i].expiresAt > 0 && jobs[i].expiresAt <= serverTime)
    ensures LiveJobs(jobs, serverTime) == jobs
  {
    if jobs != [] {
      AllLive(jobs[..|jobs| - 1], serverTime);
      assert jobs == jobs[..|jobs| - 1] + [jobs[|jobs| - 1]];
    }
  }
}
