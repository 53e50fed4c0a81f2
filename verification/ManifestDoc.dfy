/**
 * The manifest as a JSON document, and the device's reading and writing of it.
 *
 * Documents are JSON values, not text. Numbers are reals because the parser looks at the double
 * before truncating it, and that difference shows: a fractional asset size is accepted from the
 * network but not from the file the device then writes.
 */
module ManifestDoc {
  import opened Wrappers
  import opened Bytes
  import WakePolicy

  datatype Json =
    | Null
    | Bool(flag: bool)
    | Num(number: real)
    | Str(text: string)
    | Arr(items: seq<Json>)
    | Obj(fields: map<string, Json>)

  const MAX_ASSET_BYTES := 768 * 1024
  const MAX_JOBS := 16
  const MAX_CACHE_MANIFEST_BYTES := 4 * 1024 * 1024
  const ASSET_PREFIX := "/device/v1/assets/"
  const EXPECTED_NAMES := ["01-now", "02-work", "03-ideas"]

  datatype Job = Job(
    id: string, path: string, sha: string, size: nat, displayAt: int, expiresAt: int, displayed: bool)

  datatype Page = Page(index: nat, name: string, path: string, sha: string, size: nat)

  datatype Manifest = Manifest(serverTime: int, nextSyncAt: int, version: int, jobs: seq<Job>, pages: seq<Page>)

  const EMPTY_MANIFEST := Manifest(0, 0, 0, [], [])

  function Get(value: Json, name: string): Option<Json> {
    if value.Obj? && name in value.fields then Some(value.fields[name]) else None
  }

  predicate IsNum(value: Option<Json>) { value.Some? && value.value.Num? }

  predicate IsStr(value: Option<Json>) { value.Some? && value.value.Str? }

  /** A cast from double to an integer type: truncation toward zero. */
  function Truncate(r: real): int {
    if r >= 0.0 then r.Floor else -((-r).Floor)
  }

  function Whole(n: int): Json {
    Num(n as real)
  }

  lemma TruncateWhole(n: int)
    ensures Truncate(n as real) == n
  {
    if n < 0 { assert -(n as real) == (-n) as real; }
  }

  // ------------------------------------------------------------------ reading

  predicate ValidPath(path: string) {
    ASSET_PREFIX <= path && !HasDotDot(path) && Utf8Length(path) < 192
  }

  predicate ValidAssetFields(path: Option<Json>, sha: Option<Json>, size: Option<Json>) {
    && IsStr(path) && ValidPath(path.value.text)
    && IsStr(sha) && IsHexSha256(sha.value.text)
    && IsNum(size) && 0.0 < size.value.number <= MAX_ASSET_BYTES as real
  }

  /** The flag of the first job with this id, false when there is none. */
  function FirstFlag(jobs: seq<Job>, id: string): bool {
    jobs != [] && if jobs[0].id == id then jobs[0].displayed else FirstFlag(jobs[1..], id)
  }

  function ParseJob(item: Json, previous: Option<seq<Job>>): Option<Job> {
    var id, path := Get(item, "id"), Get(item, "asset_path");
    var sha, size := Get(item, "asset_sha256"), Get(item, "asset_size");
    var displayAt, expiresAt := Get(item, "display_at"), Get(item, "expires_at");
    if !IsStr(id) || id.value.text == "" || Utf8Length(id.value.text) >= 64 || !ValidAssetFields(path, sha, size)
       || !IsNum(displayAt) || (expiresAt.Some? && !IsNum(expiresAt)) then None
    else
      var display := Truncate(displayAt.value.number);
      var expires := if expiresAt.Some? then Truncate(expiresAt.value.number) else 0;
      if display <= 0 || (expires > 0 && expires <= display) then None
      else
        var displayed :=
          if previous.Some? then FirstFlag(previous.value, id.value.text)
          else Get(item, "displayed") == Some(Bool(true));
        Some(Job(id.value.text, path.value.text, LowerAscii(sha.value.text), Truncate(size.value.number),
                 display, expires, displayed))
  }

  function JobBytes(jobs: seq<Job>): nat {
    if jobs == [] then 0 else JobBytes(jobs[..|jobs| - 1]) + jobs[|jobs| - 1].size
  }

  function PageBytes(pages: seq<Page>): nat {
    if pages == [] then 0 else PageBytes(pages[..|pages| - 1]) + pages[|pages| - 1].size
  }

  function ParseJobs(items: seq<Json>, previous: Option<seq<Job>>): Option<seq<Job>> {
    if items == [] then Some([])
    else
      var last := |items| - 1;
      var front := ParseJobs(items[..last], previous);
      if front.None? then None
      else
        var job := ParseJob(items[last], previous);
        if job.None? || JobBytes(front.value) + job.value.size > MAX_CACHE_MANIFEST_BYTES then None
        else Some(front.value + [job.value])
  }

  function ParsePage(item: Json, expected: nat): Option<Page>
    requires expected < 3
  {
    var index, name := Get(item, "index"), Get(item, "name");
    var path, sha, size := Get(item, "asset_path"), Get(item, "asset_sha256"), Get(item, "asset_size");
    if !IsNum(index) || Truncate(index.value.number) != expected || name != Some(Str(EXPECTED_NAMES[expected]))
       || !ValidAssetFields(path, sha, size) then None
    else Some(Page(expected, EXPECTED_NAMES[expected], path.value.text, LowerAscii(sha.value.text),
                   Truncate(size.value.number)))
  }

  function ParsePages(items: seq<Json>, jobBytes: nat): (r: Option<seq<Page>>)
    requires |items| <= 3
    ensures r.Some? ==> |r.value| == |items|
  {
    if items == [] then Some([])
    else
      var last := |items| - 1;
      var front := ParsePages(items[..last], jobBytes);
      if front.None? then None
      else
        var page := ParsePage(items[last], last);
        if page.None? || jobBytes + PageBytes(front.value) + page.value.size > MAX_CACHE_MANIFEST_BYTES then None
        else Some(front.value + [page.value])
  }

  predicate ValidHeader(doc: Json) {
    && IsNum(Get(doc, "protocol_version")) && Truncate(Get(doc, "protocol_version").value.number) == 1
    && IsNum(Get(doc, "manifest_version"))
    && IsNum(Get(doc, "server_time")) && IsNum(Get(doc, "next_sync_at"))
    && Truncate(Get(doc, "server_time").value.number) >= WakePolicy.MIN_VALID_EPOCH
    && Truncate(Get(doc, "next_sync_at").value.number) > Truncate(Get(doc, "server_time").value.number)
  }

  /** The manifest a document stands for, jobs in document order; None when it is rejected. */
  function Validate(doc: Json, previous: Option<seq<Job>>): Option<Manifest> {
    var items, pages := Get(doc, "jobs"), Get(doc, "pulse_pages");
    if !ValidHeader(doc) || items.None? || !items.value.Arr? || |items.value.items| > MAX_JOBS then None
    else
      var jobs := ParseJobs(items.value.items, previous);
      if jobs.None? || (pages.Some? && (!pages.value.Arr? || |pages.value.items| != 3)) then None
      else
        var read := if pages.Some? then ParsePages(pages.value.items, JobBytes(jobs.value)) else Some([]);
        if read.None? then None
        else
          Some(Manifest(Truncate(Get(doc, "server_time").value.number), Truncate(Get(doc, "next_sync_at").value.number),
                        Truncate(Get(doc, "manifest_version").value.number), jobs.value, read.value))
  }

  ghost predicate SortedByDisplay(jobs: seq<Job>) {
    forall i, j :: 0 <= i < j < |jobs| ==> jobs[i].displayAt <= jobs[j].displayAt
  }

  /** Reading `doc` gives `m`: its jobs are some permutation sorted by display time. */
  ghost predicate Parses(doc: Json, previous: Option<seq<Job>>, m: Manifest) {
    var read := Validate(doc, previous);
    && read.Some?
    && m == read.value.(jobs := m.jobs)
    && multiset(m.jobs) == multiset(read.value.jobs)
    && SortedByDisplay(m.jobs)
  }

  method InsertByDisplay(sorted: seq<Job>, job: Job) returns (r: seq<Job>)
    requires SortedByDisplay(sorted)
    ensures SortedByDisplay(r) && multiset(r) == multiset(sorted) + multiset{job}
  {
    var at := |sorted|;
    while at > 0 && sorted[at - 1].displayAt > job.displayAt
      invariant 0 <= at <= |sorted|
      invariant forall k :: at <= k < |sorted| ==> sorted[k].displayAt > job.displayAt
    {
      at := at - 1;
    }
    InsertedSorted(sorted, at, job);
    InsertedContents(sorted, at, job);
    r := sorted[..at] + [job] + sorted[at..];
  }

  lemma InsertedSorted(sorted: seq<Job>, at: nat, job: Job)
    requires at <= |sorted| && SortedByDisplay(sorted)
    requires forall k :: at <= k < |sorted| ==> sorted[k].displayAt > job.displayAt
    requires at > 0 ==> sorted[at - 1].displayAt <= job.displayAt
    ensures SortedByDisplay(sorted[..at] + [job] + sorted[at..])
  {
    var r := sorted[..at] + [job] + sorted[at..];
    forall i, j | 0 <= i < j < |r|
      ensures r[i].displayAt <= r[j].displayAt
    {
      var a, b := if i <= at then i else i - 1, if j <= at then j else j - 1;
      assert i < at ==> r[i] == sorted[a] && (at > 0 ==> sorted[a].displayAt <= sorted[at - 1].displayAt);
      assert j > at ==> r[j] == sorted[b];
    }
  }

  lemma InsertedContents(sorted: seq<Job>, at: nat, job: Job)
    requires at <= |sorted|
    ensures multiset(sorted[..at] + [job] + sorted[at..]) == multiset(sorted) + multiset{job}
  {
    assert sorted == sorted[..at] + sorted[at..];
  }

  /** Any sort the C++ library may use; this one inserts each job in turn. */
  method StdSort(jobs: seq<Job>) returns (sorted: seq<Job>)
    ensures SortedByDisplay(sorted) && multiset(sorted) == multiset(jobs)
  {
    sorted := [];
    for i := 0 to |jobs|
      invariant SortedByDisplay(sorted) && multiset(sorted) == multiset(jobs[..i])
    {
      assert jobs[..i + 1] == jobs[..i] + [jobs[i]];
      sorted := InsertByDisplay(sorted, jobs[i]);
    }
    assert jobs[..|jobs|] == jobs;
  }

  lemma ParseJobsStep(items: seq<Json>, previous: Option<seq<Job>>, front: Option<seq<Job>>, job: Option<Job>)
    requires items != []
    requires ParseJobs(items[..|items| - 1], previous) == front && ParseJob(items[|items| - 1], previous) == job
    ensures ParseJobs(items, previous) ==
            if front.None? || job.None? || JobBytes(front.value) + job.value.size > MAX_CACHE_MANIFEST_BYTES then None
            else Some(front.value + [job.value])
  {
  }

  lemma ParsePagesStep(items: seq<Json>, jobBytes: nat, front: Option<seq<Page>>, page: Option<Page>)
    requires 0 < |items| <= 3
    requires ParsePages(items[..|items| - 1], jobBytes) == front && ParsePage(items[|items| - 1], |items| - 1) == page
    ensures ParsePages(items, jobBytes) ==
            if front.None? || page.None?
               || jobBytes + PageBytes(front.value) + page.value.size > MAX_CACHE_MANIFEST_BYTES
            then None
            else Some(front.value + [page.value])
  {
  }

  lemma JobBytesAppended(jobs: seq<Job>, job: Job)
    ensures JobBytes(jobs + [job]) == JobBytes(jobs) + job.size
  {
    assert (jobs + [job])[..|jobs|] == jobs;
  }

  lemma PageBytesAppended(pages: seq<Page>, page: Page)
    ensures PageBytes(pages + [page]) == PageBytes(pages) + page.size
  {
    assert (pages + [page])[..|pages|] == pages;
  }

  /** One turn of the loop over the jobs. */
  lemma NextJob(items: seq<Json>, previous: Option<seq<Job>>, next: nat, jobs: seq<Job>, job: Option<Job>)
    requires next < |items| && ParseJobs(items[..next], previous) == Some(jobs)
    requires ParseJob(items[next], previous) == job
    ensures if job.None? || JobBytes(jobs) + job.value.size > MAX_CACHE_MANIFEST_BYTES
            then ParseJobs(items, previous) == None
            else ParseJobs(items[..next + 1], previous) == Some(jobs + [job.value])
  {
    assert items[..next + 1][..next] == items[..next];
    ParseJobsStep(items[..next + 1], previous, Some(jobs), job);
    if ParseJobs(items[..next + 1], previous).None? { RejectedPrefix(items, previous, next + 1); }
  }

  /** One turn of the loop over the pages. */
  lemma NextPage(items: seq<Json>, jobBytes: nat, next: nat, pages: seq<Page>, page: Option<Page>)
    requires next < |items| <= 3 && ParsePages(items[..next], jobBytes) == Some(pages)
    requires ParsePage(items[next], next) == page
    ensures if page.None? || jobBytes + PageBytes(pages) + page.value.size > MAX_CACHE_MANIFEST_BYTES
            then ParsePages(items, jobBytes) == None
            else ParsePages(items[..next + 1], jobBytes) == Some(pages + [page.value])
  {
    var front := items[..next + 1];
    assert ParsePages(front, jobBytes) ==
      if page.None? || jobBytes + PageBytes(pages) + page.value.size > MAX_CACHE_MANIFEST_BYTES then None
      else Some(pages + [page.value]) by {
      assert front[..next] == items[..next];
      ParsePagesStep(front, jobBytes, Some(pages), page);
    }
    if ParsePages(front, jobBytes).None? { RejectedPages(items, jobBytes, next + 1); }
  }

  method ReadJobs(items: seq<Json>, previous: Option<seq<Job>>) returns (result: Option<seq<Job>>)
    ensures result == ParseJobs(items, previous)
  {
    var jobs: seq<Job> := [];
    var totalAssetBytes := 0;
    var next := 0;
    while next < |items|
      invariant 0 <= next <= |items|
      invariant ParseJobs(items[..next], previous) == Some(jobs)
      invariant totalAssetBytes == JobBytes(jobs)
    {
      var job := ParseJob(items[next], previous);
      NextJob(items, previous, next, jobs, job);
      if job.None? || totalAssetBytes + job.value.size > MAX_CACHE_MANIFEST_BYTES {
        return None;
      }
      JobBytesAppended(jobs, job.value);
      totalAssetBytes := totalAssetBytes + job.value.size;
      jobs := jobs + [job.value];
      next := next + 1;
    }
    assert items[..|items|] == items;
    return Some(jobs);
  }

  method ReadPages(items: seq<Json>, jobBytes: nat) returns (result: Option<seq<Page>>)
    requires |items| == 3
    ensures result == ParsePages(items, jobBytes)
  {
    var pages: seq<Page> := [];
    var totalAssetBytes := jobBytes;
    var expectedIndex := 0;
    while expectedIndex < 3
      invariant 0 <= expectedIndex <= 3
      invariant ParsePages(items[..expectedIndex], jobBytes) == Some(pages)
      invariant totalAssetBytes == jobBytes + PageBytes(pages)
    {
      var page := ParsePage(items[expectedIndex], expectedIndex);
      NextPage(items, jobBytes, expectedIndex, pages, page);
      if page.None? || totalAssetBytes + page.value.size > MAX_CACHE_MANIFEST_BYTES {
        return None;
      }
      PageBytesAppended(pages, page.value);
      totalAssetBytes := totalAssetBytes + page.value.size;
      pages := pages + [page.value];
      expectedIndex := expectedIndex + 1;
    }
    assert items[..3] == items;
    return Some(pages);
  }

  /** Reads a response body or a file; `None` stands for bytes that are not JSON. */
  method ParseManifest(body: Option<Json>, previous: Option<seq<Job>>) returns (result: Option<Manifest>)
    ensures result.Some? <==> body.Some? && Validate(body.value, previous).Some?
    ensures result.Some? ==> Parses(body.value, previous, result.value)
  {
    if body.None? { return None; }
    var root := body.value;
    var jobItems, pageItems := Get(root, "jobs"), Get(root, "pulse_pages");
    if !ValidHeader(root) || jobItems.None? || !jobItems.value.Arr? || |jobItems.value.items| > MAX_JOBS {
      return None;
    }
    var jobs := ReadJobs(jobItems.value.items, previous);
    if jobs.None? { return None; }
    var pages: Option<seq<Page>> := Some([]);
    if pageItems.Some? {
      if !pageItems.value.Arr? || |pageItems.value.items| != 3 { return None; }
      pages := ReadPages(pageItems.value.items, JobBytes(jobs.value));
      if pages.None? { return None; }
    }
    var sorted := StdSort(jobs.value);
    return Some(Manifest(Truncate(Get(root, "server_time").value.number),
                         Truncate(Get(root, "next_sync_at").value.number),
                         Truncate(Get(root, "manifest_version").value.number), sorted, pages.value));
  }

  lemma {:induction false} RejectedPrefix(items: seq<Json>, previous: Option<seq<Job>>, upTo: nat)
    requires upTo <= |items| && ParseJobs(items[..upTo], previous).None?
    ensures ParseJobs(items, previous).None?
    decreases |items|
  {
    if upTo < |items| {
      assert items[..|items| - 1][..upTo] == items[..upTo];
      RejectedPrefix(items[..|items| - 1], previous, upTo);
    } else {
      assert items[..upTo] == items;
    }
  }

  lemma {:induction false} RejectedPages(items: seq<Json>, jobBytes: nat, upTo: nat)
    requires upTo <= |items| <= 3 && ParsePages(items[..upTo], jobBytes).None?
    ensures ParsePages(items, jobBytes).None?
    decreases |items|
  {
    if upTo < |items| {
      assert items[..|items| - 1][..upTo] == items[..upTo];
      RejectedPages(items[..|items| - 1], jobBytes, upTo);
    } else {
      assert items[..upTo] == items;
    }
  }

  // ------------------------------------------------------------------ which documents are accepted

  /** An item of the job list that stands on its own. */
  predicate AcceptableItem(item: Json) {
    && IsStr(Get(item, "id")) && 1 <= Utf8Length(Get(item, "id").value.text) <= 63
    && ValidAssetFields(Get(item, "asset_path"), Get(item, "asset_sha256"), Get(item, "asset_size"))
    && IsNum(Get(item, "display_at")) && Truncate(Get(item, "display_at").value.number) > 0
    && match Get(item, "expires_at")
       case None => true
       case Some(Num(at)) => Truncate(at) <= 0 || Truncate(at) > Truncate(Get(item, "display_at").value.number)
       case Some(_) => false
  }

  predicate AcceptablePage(item: Json, index: nat)
    requires index < 3
  {
    && IsNum(Get(item, "index")) && Truncate(Get(item, "index").value.number) == index
    && Get(item, "name") == Some(Str(EXPECTED_NAMES[index]))
    && ValidAssetFields(Get(item, "asset_path"), Get(item, "asset_sha256"), Get(item, "asset_size"))
  }

  /** The announced size of an item's asset, in whole bytes. */
  function ItemSize(item: Json): nat {
    if IsNum(Get(item, "asset_size")) && Get(item, "asset_size").value.number >= 0.0
    then Truncate(Get(item, "asset_size").value.number) else 0
  }

  function ItemBytes(items: seq<Json>): nat {
    if items == [] then 0 else ItemBytes(items[..|items| - 1]) + ItemSize(items[|items| - 1])
  }

  function ItemsOf(list: Option<Json>): seq<Json> {
    if list.Some? && list.value.Arr? then list.value.items else []
  }

  predicate AllAcceptable(items: seq<Json>) {
    forall k :: 0 <= k < |items| ==> AcceptableItem(items[k])
  }

  predicate PagesAcceptable(items: seq<Json>)
    requires |items| <= 3
  {
    forall k :: 0 <= k < |items| ==> AcceptablePage(items[k], k)
  }

  /** What `parse_manifest` asks of a document, as one condition on its fields. */
  ghost predicate Acceptable(doc: Json) {
    var jobs, pages := Get(doc, "jobs"), Get(doc, "pulse_pages");
    && ValidHeader(doc)
    && jobs.Some? && jobs.value.Arr? && |ItemsOf(jobs)| <= 16
    && AllAcceptable(ItemsOf(jobs))
    && (pages.Some? ==> pages.value.Arr? && |ItemsOf(pages)| == 3 && PagesAcceptable(ItemsOf(pages)))
    && ItemBytes(ItemsOf(jobs)) + ItemBytes(ItemsOf(pages)) <= MAX_CACHE_MANIFEST_BYTES
  }

  /** The job an item stands for, but for its flag. */
  predicate ItemSays(item: Json, job: Job)
    requires AcceptableItem(item)
  {
    && job.id == Get(item, "id").value.text && job.path == Get(item, "asset_path").value.text
    && job.sha == LowerAscii(Get(item, "asset_sha256").value.text) && job.size == ItemSize(item)
    && job.displayAt == Truncate(Get(item, "display_at").value.number)
    && job.expiresAt == match Get(item, "expires_at") case Some(Num(at)) => Truncate(at) case _ => 0
  }

  lemma {:induction false} TextLength(s: string)
    ensures Utf8Length(s) >= |s|
  {
    if s != "" { TextLength(s[..|s| - 1]); }
  }

  lemma ItemAccepted(item: Json, previous: Option<seq<Job>>)
    ensures ParseJob(item, previous).Some? <==> AcceptableItem(item)
    ensures ParseJob(item, previous).Some? ==> ItemSays(item, ParseJob(item, previous).value)
  {
    if IsStr(Get(item, "id")) { TextLength(Get(item, "id").value.text); }
  }

  lemma AllAcceptableSplit(items: seq<Json>)
    requires items != []
    ensures AllAcceptable(items) <==> AllAcceptable(items[..|items| - 1]) && AcceptableItem(items[|items| - 1])
  {
  }

  lemma PagesAcceptableSplit(items: seq<Json>)
    requires 1 <= |items| <= 3
    ensures PagesAcceptable(items) <==>
            PagesAcceptable(items[..|items| - 1]) && AcceptablePage(items[|items| - 1], |items| - 1)
  {
  }

  lemma PageAccepted(item: Json, index: nat)
    requires index < 3
    ensures ParsePage(item, index).Some? <==> AcceptablePage(item, index)
    ensures ParsePage(item, index).Some? ==> ParsePage(item, index).value.size == ItemSize(item)
  {
  }

  /** A list of jobs is read exactly when each item may be and their sizes fit together. */
  ghost predicate ReadsList(items: seq<Json>, read: Option<seq<Job>>) {
    && (read.Some? <==> AllAcceptable(items) && ItemBytes(items) <= MAX_CACHE_MANIFEST_BYTES)
    && (read.Some? ==> JobBytes(read.value) == ItemBytes(items))
  }

  lemma {:induction false} ItemsAccepted(items: seq<Json>, previous: Option<seq<Job>>)
    ensures ReadsList(items, ParseJobs(items, previous))
  {
    if items != [] {
      var front, job := ParseJobs(items[..|items| - 1], previous), ParseJob(items[|items| - 1], previous);
      ItemsAccepted(items[..|items| - 1], previous);
      ItemAccepted(items[|items| - 1], previous);
      AllAcceptableSplit(items);
      ParseJobsStep(items, previous, front, job);
      if front.Some? && job.Some? { JobBytesAppended(front.value, job.value); }
    }
  }

  ghost predicate ReadsPages(items: seq<Json>, jobBytes: nat, read: Option<seq<Page>>)
    requires |items| <= 3
  {
    && (read.Some? <==> PagesAcceptable(items) && jobBytes + ItemBytes(items) <= MAX_CACHE_MANIFEST_BYTES)
    && (read.Some? ==> PageBytes(read.value) == ItemBytes(items))
  }

  lemma {:induction false} PagesAccepted(items: seq<Json>, jobBytes: nat)
    requires |items| <= 3 && jobBytes <= MAX_CACHE_MANIFEST_BYTES
    ensures ReadsPages(items, jobBytes, ParsePages(items, jobBytes))
  {
    if items != [] {
      var last := |items| - 1;
      var front, page := ParsePages(items[..last], jobBytes), ParsePage(items[last], last);
      PagesAccepted(items[..last], jobBytes);
      PageAccepted(items[last], last);
      PagesAcceptableSplit(items);
      ParsePagesStep(items, jobBytes, front, page);
      if front.Some? && page.Some? { PageBytesAppended(front.value, page.value); }
    }
  }

  /** The parser, with its running totals, accepts exactly the acceptable documents, whatever was held before. */
  lemma AcceptedIff(doc: Json, previous: Option<seq<Job>>)
    ensures Validate(doc, previous).Some? <==> Acceptable(doc)
  {
    var jobs, pages := Get(doc, "jobs"), Get(doc, "pulse_pages");
    ItemsAccepted(ItemsOf(jobs), previous);
    if ParseJobs(ItemsOf(jobs), previous).Some? && |ItemsOf(pages)| <= 3 {
      PagesAccepted(ItemsOf(pages), JobBytes(ParseJobs(ItemsOf(jobs), previous).value));
    }
  }

  /** Each job read is the one its item stands for, in the document's order. */
  lemma ReadAsSaid(doc: Json, previous: Option<seq<Job>>, k: nat)
    requires Validate(doc, previous).Some? && k < |ItemsOf(Get(doc, "jobs"))|
    ensures |Validate(doc, previous).value.jobs| == |ItemsOf(Get(doc, "jobs"))|
    ensures AcceptableItem(ItemsOf(Get(doc, "jobs"))[k])
    ensures ItemSays(ItemsOf(Get(doc, "jobs"))[k], Validate(doc, previous).value.jobs[k])
  {
    var items := ItemsOf(Get(doc, "jobs"));
    ParsedCount(items, previous);
    ParsedAt(items, previous, k);
    ItemAccepted(items[k], previous);
  }

  // ------------------------------------------------------------------ writing

  function JobItem(job: Job): Json {
    Obj(map["id" := Str(job.id), "asset_path" := Str(job.path), "asset_sha256" := Str(job.sha),
            "asset_size" := Whole(job.size), "display_at" := Whole(job.displayAt),
            "expires_at" := Whole(job.expiresAt), "displayed" := Bool(job.displayed)])
  }

  function PageItem(page: Page): Json {
    Obj(map["index" := Whole(page.index), "name" := Str(page.name), "asset_path" := Str(page.path),
            "asset_sha256" := Str(page.sha), "asset_size" := Whole(page.size)])
  }

  function JobItems(jobs: seq<Job>): (r: seq<Json>)
    ensures |r| == |jobs|
  {
    seq(|jobs|, i requires 0 <= i < |jobs| => JobItem(jobs[i]))
  }

  function PageItems(pages: seq<Page>): (r: seq<Json>)
    ensures |r| == |pages|
  {
    seq(|pages|, i requires 0 <= i < |pages| => PageItem(pages[i]))
  }

  /** The document `write_manifest` puts on the card. */
  function Serialize(m: Manifest): Json {
    var base := map["protocol_version" := Whole(1), "server_time" := Whole(m.serverTime),
                    "next_sync_at" := Whole(m.nextSyncAt), "manifest_version" := Whole(m.version),
                    "jobs" := Arr(JobItems(m.jobs))];
    Obj(if m.pages == [] then base else base["pulse_pages" := Arr(PageItems(m.pages))])
  }

  // ------------------------------------------------------------------ what a reading guarantees

  predicate WellFormedJob(job: Job) {
    && 0 < |job.id| && Utf8Length(job.id) < 64 && ValidPath(job.path)
    && IsHexSha256(job.sha) && LowerAscii(job.sha) == job.sha
    && job.size <= MAX_ASSET_BYTES
    && job.displayAt > 0 && !(job.expiresAt > 0 && job.expiresAt <= job.displayAt)
  }

  predicate WellFormedPage(page: Page, index: nat)
    requires index < 3
  {
    && page.index == index && page.name == EXPECTED_NAMES[index] && ValidPath(page.path)
    && IsHexSha256(page.sha) && LowerAscii(page.sha) == page.sha
    && page.size <= MAX_ASSET_BYTES
  }

  ghost predicate WellFormed(m: Manifest) {
    && WakePolicy.MIN_VALID_EPOCH <= m.serverTime < m.nextSyncAt
    && |m.jobs| <= MAX_JOBS
    && (forall job :: job in m.jobs ==> WellFormedJob(job))
    && (|m.pages| == 0 || |m.pages| == 3)
    && (forall i :: 0 <= i < |m.pages| ==> WellFormedPage(m.pages[i], i))
    && JobBytes(m.jobs) + PageBytes(m.pages) <= MAX_CACHE_MANIFEST_BYTES
  }

  /** No asset of the manifest is empty. */
  ghost predicate NoEmptyAsset(m: Manifest) {
    && (forall job :: job in m.jobs ==> job.size >= 1)
    && (forall page :: page in m.pages ==> page.size >= 1)
  }

  lemma ParsedJob(item: Json, previous: Option<seq<Job>>)
    requires ParseJob(item, previous).Some?
    ensures WellFormedJob(ParseJob(item, previous).value)
  {
    LowerIsIdempotent(Get(item, "asset_sha256").value.text);
  }

  lemma {:induction false} ParsedCount(items: seq<Json>, previous: Option<seq<Job>>)
    requires ParseJobs(items, previous).Some?
    ensures var jobs := ParseJobs(items, previous).value;
            |jobs| == |items| && JobBytes(jobs) <= MAX_CACHE_MANIFEST_BYTES
  {
    if items != [] {
      ParsedCount(items[..|items| - 1], previous);
      var jobs := ParseJobs(items, previous).value;
      assert jobs[..|items| - 1] == ParseJobs(items[..|items| - 1], previous).value;
    }
  }

  lemma {:induction false} ParsedAt(items: seq<Json>, previous: Option<seq<Job>>, i: nat)
    requires ParseJobs(items, previous).Some? && i < |items| == |ParseJobs(items, previous).value|
    ensures ParseJob(items[i], previous) == Some(ParseJobs(items, previous).value[i])
    decreases |items|
  {
    var front := items[..|items| - 1];
    ParsedCount(front, previous);
    if i < |front| {
      ParsedAt(front, previous, i);
      assert front[i] == items[i];
    }
  }

  lemma ParsedJobs(items: seq<Json>, previous: Option<seq<Job>>)
    requires ParseJobs(items, previous).Some?
    ensures var jobs := ParseJobs(items, previous).value;
            && |jobs| == |items| && JobBytes(jobs) <= MAX_CACHE_MANIFEST_BYTES
            && forall i :: 0 <= i < |jobs| ==> ParseJob(items[i], previous) == Some(jobs[i]) && WellFormedJob(jobs[i])
  {
    ParsedCount(items, previous);
    var jobs := ParseJobs(items, previous).value;
    forall i | 0 <= i < |jobs|
      ensures ParseJob(items[i], previous) == Some(jobs[i]) && WellFormedJob(jobs[i])
    {
      ParsedAt(items, previous, i);
      ParsedJob(items[i], previous);
    }
  }

  lemma ParsedPage(item: Json, expected: nat)
    requires expected < 3 && ParsePage(item, expected).Some?
    ensures WellFormedPage(ParsePage(item, expected).value, expected)
  {
    LowerIsIdempotent(Get(item, "asset_sha256").value.text);
  }

  lemma {:induction false} ParsedPages(items: seq<Json>, jobBytes: nat)
    requires |items| <= 3 && jobBytes <= MAX_CACHE_MANIFEST_BYTES && ParsePages(items, jobBytes).Some?
    ensures var pages := ParsePages(items, jobBytes).value;
            && jobBytes + PageBytes(pages) <= MAX_CACHE_MANIFEST_BYTES
            && forall i :: 0 <= i < |pages| ==> ParsePage(items[i], i) == Some(pages[i]) && WellFormedPage(pages[i], i)
  {
    if items != [] {
      var last := |items| - 1;
      ParsedPages(items[..last], jobBytes);
      ParsedPage(items[last], last);
      var front := ParsePages(items[..last], jobBytes).value;
      var pages := ParsePages(items, jobBytes).value;
      assert pages[..last] == front;
      forall i | 0 <= i < last
        ensures ParsePage(items[i], i) == Some(pages[i]) && WellFormedPage(pages[i], i)
      {
        assert items[..last][i] == items[i] && front[i] == pages[i];
      }
    }
  }

  lemma ValidatedIsWellFormed(doc: Json, previous: Option<seq<Job>>)
    requires Validate(doc, previous).Some?
    ensures WellFormed(Validate(doc, previous).value)
  {
    ParsedJobs(Get(doc, "jobs").value.items, previous);
    var jobs := ParseJobs(Get(doc, "jobs").value.items, previous).value;
    if Get(doc, "pulse_pages").Some? {
      ParsedPages(Get(doc, "pulse_pages").value.items, JobBytes(jobs));
    }
  }

  // ------------------------------------------------------------------ reading back what was written

  lemma ReadBackJob(job: Job)
    requires WellFormedJob(job)
    ensures ParseJob(JobItem(job), None) == if job.size >= 1 then Some(job) else None
  {
    TruncateWhole(job.size);
    TruncateWhole(job.displayAt);
    TruncateWhole(job.expiresAt);
  }

  lemma ReadBackPage(page: Page, index: nat)
    requires index < 3 && WellFormedPage(page, index)
    ensures ParsePage(PageItem(page), index) == if page.size >= 1 then Some(page) else None
  {
    TruncateWhole(page.size);
    TruncateWhole(page.index);
  }

  lemma ReadBackAppended(items: seq<Json>, job: Job, front: Option<seq<Job>>)
    requires WellFormedJob(job) && ParseJobs(items, None) == front
    ensures ParseJobs(items + [JobItem(job)], None) ==
            if front.None? || job.size < 1 || JobBytes(front.value) + job.size > MAX_CACHE_MANIFEST_BYTES then None
            else Some(front.value + [job])
  {
    assert (items + [JobItem(job)])[..|items|] == items;
    ReadBackJob(job);
  }

  predicate NoEmptyJob(jobs: seq<Job>) {
    forall job :: job in jobs ==> job.size >= 1
  }

  lemma JobItemsSplit(jobs: seq<Job>)
    requires jobs != []
    ensures JobItems(jobs) == JobItems(jobs[..|jobs| - 1]) + [JobItem(jobs[|jobs| - 1])]
    ensures jobs == jobs[..|jobs| - 1] + [jobs[|jobs| - 1]]
    ensures NoEmptyJob(jobs) <==> NoEmptyJob(jobs[..|jobs| - 1]) && jobs[|jobs| - 1].size >= 1
  {
    var front, last := jobs[..|jobs| - 1], jobs[|jobs| - 1];
    assert jobs == front + [last];
    assert forall job :: job in jobs <==> job in front || job == last;
  }

  lemma {:induction false} ReadBackJobs(jobs: seq<Job>)
    requires forall job :: job in jobs ==> WellFormedJob(job)
    requires JobBytes(jobs) <= MAX_CACHE_MANIFEST_BYTES
    ensures ParseJobs(JobItems(jobs), None) == if NoEmptyJob(jobs) then Some(jobs) else None
  {
    if jobs != [] {
      var front, last := jobs[..|jobs| - 1], jobs[|jobs| - 1];
      JobItemsSplit(jobs);
      ReadBackJobs(front);
      ReadBackAppended(JobItems(front), last, if NoEmptyJob(front) then Some(front) else None);
    }
  }

  lemma ReadBackPageAppended(items: seq<Json>, page: Page, jobBytes: nat, front: Option<seq<Page>>)
    requires |items| < 3 && WellFormedPage(page, |items|) && ParsePages(items, jobBytes) == front
    ensures ParsePages(items + [PageItem(page)], jobBytes) ==
            if front.None? || page.size < 1
               || jobBytes + PageBytes(front.value) + page.size > MAX_CACHE_MANIFEST_BYTES then None
            else Some(front.value + [page])
  {
    assert (items + [PageItem(page)])[..|items|] == items;
    ReadBackPage(page, |items|);
  }

  predicate NoEmptyPage(pages: seq<Page>) {
    forall page :: page in pages ==> page.size >= 1
  }

  lemma PageItemsSplit(pages: seq<Page>)
    requires pages != []
    ensures PageItems(pages) == PageItems(pages[..|pages| - 1]) + [PageItem(pages[|pages| - 1])]
    ensures pages == pages[..|pages| - 1] + [pages[|pages| - 1]]
    ensures NoEmptyPage(pages) <==> NoEmptyPage(pages[..|pages| - 1]) && pages[|pages| - 1].size >= 1
  {
    var front, last := pages[..|pages| - 1], pages[|pages| - 1];
    assert pages == front + [last];
    assert forall page :: page in pages <==> page in front || page == last;
  }

  lemma {:induction false} ReadBackPages(pages: seq<Page>, jobBytes: nat)
    requires |pages| <= 3 && forall i :: 0 <= i < |pages| ==> WellFormedPage(pages[i], i)
    requires jobBytes + PageBytes(pages) <= MAX_CACHE_MANIFEST_BYTES
    ensures ParsePages(PageItems(pages), jobBytes) == if NoEmptyPage(pages) then Some(pages) else None
  {
    if pages != [] {
      var front, last := pages[..|pages| - 1], pages[|pages| - 1];
      PageItemsSplit(pages);
      ReadBackPages(front, jobBytes);
      ReadBackPageAppended(PageItems(front), last, jobBytes, if NoEmptyPage(front) then Some(front) else None);
    }
  }

  lemma WrittenHeader(m: Manifest)
    requires WakePolicy.MIN_VALID_EPOCH <= m.serverTime < m.nextSyncAt
    ensures ValidHeader(Serialize(m))
    ensures Truncate(Get(Serialize(m), "server_time").value.number) == m.serverTime
    ensures Truncate(Get(Serialize(m), "next_sync_at").value.number) == m.nextSyncAt
    ensures Truncate(Get(Serialize(m), "manifest_version").value.number) == m.version
  {
    TruncateWhole(1);
    TruncateWhole(m.serverTime);
    TruncateWhole(m.nextSyncAt);
    TruncateWhole(m.version);
  }

  /**
   * Round trip. A manifest the device holds reads back from the file it writes with the same jobs,
   * flags and pages exactly when none of its assets is empty; otherwise the file is rejected.
   */
  lemma ReadBack(m: Manifest)
    requires WellFormed(m)
    ensures NoEmptyAsset(m) ==> Validate(Serialize(m), None) == Some(m)
    ensures !NoEmptyAsset(m) ==> Validate(Serialize(m), None) == None
  {
    var doc := Serialize(m);
    WrittenHeader(m);
    WrittenLists(m);
    ReadBackJobs(m.jobs);
    ReadBackPages(m.pages, JobBytes(m.jobs));
  }

  lemma WrittenLists(m: Manifest)
    ensures Get(Serialize(m), "jobs") == Some(Arr(JobItems(m.jobs)))
    ensures Get(Serialize(m), "pulse_pages") == if m.pages == [] then None else Some(Arr(PageItems(m.pages)))
  {
  }

  // ------------------------------------------------------------------ rearranging jobs

  lemma {:induction false} JobBytesConcat(a: seq<Job>, b: seq<Job>)
    ensures JobBytes(a + b) == JobBytes(a) + JobBytes(b)
  {
    if b == [] {
      assert a + b == a;
    } else {
      assert (a + b)[..|a + b| - 1] == a + b[..|b| - 1];
      JobBytesConcat(a, b[..|b| - 1]);
    }
  }

  lemma {:induction false} PermutedBytes(a: seq<Job>, b: seq<Job>)
    requires multiset(a) == multiset(b)
    ensures JobBytes(a) == JobBytes(b) && |a| == |b|
  {
    assert |multiset(a)| == |a| && |multiset(b)| == |b|;
    if a != [] {
      var last := |a| - 1;
      assert a == a[..last] + [a[last]];
      assert a[last] in multiset(b);
      var k :| 0 <= k < |b| && b[k] == a[last];
      assert b == b[..k] + [b[k]] + b[k + 1..];
      assert multiset(a) == multiset(a[..last]) + multiset{a[last]};
      assert multiset(b) == multiset(b[..k]) + multiset{b[k]} + multiset(b[k + 1..]);
      assert multiset(b[..k] + b[k + 1..]) == multiset(b[..k]) + multiset(b[k + 1..])
          == multiset(b) - multiset{a[last]};
      assert multiset(a[..last]) == multiset(a) - multiset{a[last]};
      assert multiset(a[..last]) == multiset(b[..k] + b[k + 1..]);
      PermutedBytes(a[..last], b[..k] + b[k + 1..]);
      JobBytesConcat(b[..k], b[k + 1..]);
      JobBytesConcat(b[..k] + [b[k]], b[k + 1..]);
      assert (b[..k] + [b[k]])[..k] == b[..k];
    }
  }

  lemma PermutedJobs(m: Manifest, jobs: seq<Job>)
    requires multiset(jobs) == multiset(m.jobs)
    ensures WellFormed(m) ==> WellFormed(m.(jobs := jobs))
    ensures NoEmptyAsset(m) ==> NoEmptyAsset(m.(jobs := jobs))
  {
    PermutedBytes(jobs, m.jobs);
    forall job | job in jobs
      ensures job in m.jobs
    {
      assert job in multiset(jobs);
    }
  }

  lemma ParsedManifest(doc: Json, previous: Option<seq<Job>>, m: Manifest)
    requires Parses(doc, previous, m)
    ensures WellFormed(m)
  {
    ValidatedIsWellFormed(doc, previous);
    PermutedJobs(Validate(doc, previous).value, m.jobs);
  }

  /** The device's own file gives back the manifest it was written from, up to the order of equal times. */
  lemma WrittenParses(m: Manifest, r: Manifest)
    requires WellFormed(m) && NoEmptyAsset(m)
    ensures Parses(Serialize(m), None, r) <==>
            r == m.(jobs := r.jobs) && multiset(r.jobs) == multiset(m.jobs) && SortedByDisplay(r.jobs)
  {
    ReadBack(m);
  }

  // ------------------------------------------------------------------ a manifest that does not read back

  function Zeros(): string {
    seq(64, _ => '0')
  }

  /** A job whose asset size is a half. */
  function HalfItem(): Json {
    Obj(map["id" := Str("a"), "asset_path" := Str(ASSET_PREFIX), "asset_sha256" := Str(Zeros()),
            "asset_size" := Num(0.5), "display_at" := Whole(1)])
  }

  function HalfDoc(): Json {
    Obj(map["protocol_version" := Whole(1), "server_time" := Whole(WakePolicy.MIN_VALID_EPOCH),
            "next_sync_at" := Whole(WakePolicy.MIN_VALID_EPOCH + 1), "manifest_version" := Whole(1),
            "jobs" := Arr([HalfItem()])])
  }

  function HalfJob(): Job {
    Job("a", ASSET_PREFIX, Zeros(), 0, 1, 0, false)
  }

  lemma HalfFields()
    ensures ValidPath(ASSET_PREFIX) && Utf8Length("a") == 1
    ensures IsHexSha256(Zeros()) && LowerAscii(Zeros()) == Zeros() && Truncate(0.5) == 0
  {
    AsciiLength("a");
    AsciiLength(ASSET_PREFIX);
  }

  /** The parser accepts the half and keeps nothing of it. */
  lemma HalfIsAccepted()
    ensures ParseJob(HalfItem(), Some([])) == Some(HalfJob())
  {
    HalfFields();
    TruncateWhole(1);
  }

  function HalfManifest(): Manifest {
    Manifest(WakePolicy.MIN_VALID_EPOCH, WakePolicy.MIN_VALID_EPOCH + 1, 1, [HalfJob()], [])
  }

  lemma HalfListIsAccepted()
    ensures ParseJobs([HalfItem()], Some([])) == Some([HalfJob()])
  {
    var none: seq<Json>, nothing: seq<Job> := [], [];
    assert ParseJob(HalfItem(), Some([])) == Some(HalfJob()) by { HalfIsAccepted(); }
    assert [HalfItem()][..0] == none && ParseJobs(none, Some([])) == Some(nothing);
    ParseJobsStep([HalfItem()], Some([]), Some(nothing), Some(HalfJob()));
    assert nothing + [HalfJob()] == [HalfJob()];
  }

  lemma HalfHeader()
    ensures ValidHeader(HalfDoc())
    ensures Truncate(Get(HalfDoc(), "server_time").value.number) == WakePolicy.MIN_VALID_EPOCH
    ensures Truncate(Get(HalfDoc(), "next_sync_at").value.number) == WakePolicy.MIN_VALID_EPOCH + 1
    ensures Truncate(Get(HalfDoc(), "manifest_version").value.number) == 1
    ensures Get(HalfDoc(), "jobs") == Some(Arr([HalfItem()])) && Get(HalfDoc(), "pulse_pages") == None
  {
    TruncateWhole(1);
    TruncateWhole(WakePolicy.MIN_VALID_EPOCH);
    TruncateWhole(WakePolicy.MIN_VALID_EPOCH + 1);
  }

  lemma HalfDocIsAccepted()
    ensures Validate(HalfDoc(), Some([])) == Some(HalfManifest())
  {
    HalfHeader();
    HalfListIsAccepted();
  }

  /** So this answer is accepted, and the file the device then writes is not. */
  lemma HalfDoesNotReadBack()
    ensures Validate(HalfDoc(), Some([])) == Some(HalfManifest())
    ensures Validate(Serialize(HalfManifest()), None) == None
  {
    HalfDocIsAccepted();
    ValidatedIsWellFormed(HalfDoc(), Some([]));
    assert HalfManifest().jobs[0].size == 0;
    ReadBack(HalfManifest());
  }

  // ------------------------------------------------------------------ the displayed flags

  lemma ParsedFlag(item: Json, previous: seq<Job>, job: Job)
    requires ParseJob(item, Some(previous)) == Some(job)
    ensures job.displayed == FirstFlag(previous, job.id)
  {
  }

  /** Some job with this id is marked, and none with it comes before that one. */
  ghost predicate FirstIsMarked(jobs: seq<Job>, id: string) {
    exists k :: 0 <= k < |jobs| && jobs[k].id == id && jobs[k].displayed && forall j :: 0 <= j < k ==> jobs[j].id != id
  }

  lemma {:induction false} FirstFlagIs(jobs: seq<Job>, id: string)
    ensures FirstFlag(jobs, id) <==> FirstIsMarked(jobs, id)
  {
    if jobs != [] && jobs[0].id != id {
      var rest := jobs[1..];
      FirstFlagIs(rest, id);
      if FirstIsMarked(jobs, id) {
        var k :| 0 <= k < |jobs| && jobs[k].id == id && jobs[k].displayed
                 && forall j :: 0 <= j < k ==> jobs[j].id != id;
        assert rest[k - 1] == jobs[k] && forall j :: 0 <= j < k - 1 ==> rest[j] == jobs[j + 1];
      }
      if FirstIsMarked(rest, id) {
        var k :| 0 <= k < |rest| && rest[k].id == id && rest[k].displayed
                 && forall j :: 0 <= j < k ==> rest[j].id != id;
        assert jobs[k + 1] == rest[k] && forall j :: 1 <= j < k + 1 ==> jobs[j] == rest[j - 1];
      }
    }
  }

  /**
   * A job of an accepted manifest is marked displayed exactly when the first entry with its id among the earlier
   * jobs was marked; a job that was not listed before is read unmarked.
   */
  lemma CarriedFlags(doc: Json, previous: seq<Job>, m: Manifest, i: nat)
    requires Parses(doc, Some(previous), m) && i < |m.jobs|
    ensures m.jobs[i].displayed <==> FirstIsMarked(previous, m.jobs[i].id)
    ensures (forall k :: 0 <= k < |previous| ==> previous[k].id != m.jobs[i].id) ==> !m.jobs[i].displayed
  {
    var items, read := Get(doc, "jobs").value.items, Validate(doc, Some(previous)).value.jobs;
    assert m.jobs[i] in multiset(m.jobs);
    assert m.jobs[i] in read;
    var k :| 0 <= k < |read| && read[k] == m.jobs[i];
    ParsedCount(items, Some(previous));
    ParsedAt(items, Some(previous), k);
    ParsedFlag(items[k], previous, read[k]);
    FirstFlagIs(previous, m.jobs[i].id);
  }
}
