/**
 * Publishing the Pulse pages: a source snapshot is stored, the view composed and rendered, and the bundle
 * activated in the gateway's job store, whose active pages the manifest serves.
 */
module PulseService {
  import opened Wrappers
  import opened Bytes
  import opened JobTable
  import opened JobTableLaws
  import opened PulseModels
  import opened PulseCompose
  import opened StoreAnswers
  import JobStore

  /** How a publication ends; the number is the activated generation's. */
  datatype Outcome =
    Refused | NotComposed | RenderFailed | NotActivated(error: StoreError) | Published(generation: nat)

  /** The renderer; none where it raises. */
  type Renderer = View -> Option<PulseBundle>

  /** The tables and the outcome of rendering and activating a view, if one was composed. */
  function PublishView(h: Digest, renderer: Renderer, view: Option<View>, s: Store, now: int): (Store, Outcome) {
    var bundle := if view.Some? then renderer(view.value) else None;
    if view.None? then (s, NotComposed)
    else if bundle.None? then (s, RenderFailed)
    else
      var (t, r) := ActivatePulse(h, s, bundle.value, now);
      (t, if r.Ok? then Published(r.value) else NotActivated(r.error))
  }

  /** The same for the view composed from the stored sources at `now`. */
  function Publish(h: Digest, time: IsoTime, renderer: Renderer, sources: Sources, voice: seq<Value>,
                   s: Store, now: int)
    : (Store, Outcome)
  {
    PublishView(h, renderer, Compose(time, sources, voice, now), s, now)
  }

  /** The one active generation of the tables is these three pages, each filed under its digest. */
  ghost predicate ServesBundle(h: Digest, s: Store, pages: seq<BundlePage>) {
    && s.generations != []
    && var g := s.generations[|s.generations| - 1];
      && g.active && (forall i :: 0 <= i < |s.generations| - 1 ==> !s.generations[i].active)
      && RowsOfBundle(h, g.pages, pages) && ExpectedNames(pages)
      && forall i :: 0 <= i < |pages| ==> h(pages[i].png) in s.files
  }

  lemma ActivationServes(h: Digest, s: Store, bundle: PulseBundle, now: int)
    requires StoreInv(h, s)
    ensures var (t, r) := ActivatePulse(h, s, bundle, now);
      && StoreInv(h, t) && Evolves(s, t) && t.jobs == s.jobs && t.acks == s.acks
      && (if r.Ok? then ServesBundle(h, t, bundle.pages) else t == s.(assets := t.assets, files := t.files))
  {
    ActivationIsAtomic(h, s, bundle, now);
    ActivateStep(h, s, Activate(bundle, now));
  }

  /**
   * A publication is all or nothing: published, the pages served are the rendering of the composed view;
   * otherwise generations, jobs and version are as before. No job is ever touched.
   */
  lemma PublicationIsAtomic(h: Digest, renderer: Renderer, view: Option<View>, s: Store, now: int)
    requires StoreInv(h, s)
    ensures var (t, outcome) := PublishView(h, renderer, view, s, now);
      && StoreInv(h, t) && Evolves(s, t) && t.jobs == s.jobs && t.acks == s.acks
      && (if outcome.Published?
          then view.Some? && renderer(view.value).Some? && ServesBundle(h, t, renderer(view.value).value.pages)
          else t == s.(assets := t.assets, files := t.files))
  {
    if view.Some? && renderer(view.value).Some? {
      ActivationServes(h, s, renderer(view.value).value, now);
    }
  }

  /** A publication succeeds exactly when there is a view, it renders, and the pages may be published. */
  lemma PublishesIff(h: Digest, universe: set<Bytes>, renderer: Renderer, view: Option<View>, s: Store, now: int)
    requires Distinct(h, universe, s)
    requires view.Some? && renderer(view.value).Some? ==>
               forall i :: 0 <= i < |renderer(view.value).value.pages| ==>
                 renderer(view.value).value.pages[i].png in universe
    ensures var outcome := PublishView(h, renderer, view, s, now).1;
      && (outcome.Published? <==>
            view.Some? && renderer(view.value).Some? && MayPublish(renderer(view.value).value.pages))
      && (outcome.Published? ==> outcome.generation == |s.generations| + 1)
      && (outcome.NotComposed? <==> view.None?)
      && (outcome.RenderFailed? <==> view.Some? && renderer(view.value).None?)
  {
    if view.Some? && renderer(view.value).Some? {
      BundleIsAccepted(h, universe, s, renderer(view.value).value, now);
    }
  }

  predicate StoresTexts(row: Row, note: string, summary: Option<string>, now: int) {
    && row.observedAt == now && Get(row.payload, "assistant_note") == Text(note)
    && Get(row.payload, "focus_summary") == (if summary.Some? then Text(summary.value) else Null)
  }

  lemma RowsButAssistant(a: Rows, b: Rows)
    requires b == a || ("assistant" in b && b == a["assistant" := b["assistant"]])
    ensures b - {"assistant"} == a - {"assistant"}
    ensures SameButAssistant(SourcesOf(b), SourcesOf(a))
  {
    var x, y := SourcesOf(b), SourcesOf(a);
    assert forall name :: name in b - {"assistant"} <==> name in a - {"assistant"};
    assert (x - {"assistant"}).Keys == (y - {"assistant"}).Keys;
  }

  /** The service over the store it publishes to; `rows` is the store's table of source snapshots. */
  class PulseService {
    const time: IsoTime
    const renderer: Renderer
    const store: JobStore.JobStore
    var rows: Rows
    var voice: seq<Value>

    constructor (time: IsoTime, renderer: Renderer, store: JobStore.JobStore)
      ensures this.time == time && this.renderer == renderer && this.store == store
      ensures rows == map[] && voice == []
    {
      this.time, this.renderer, this.store, rows, voice := time, renderer, store, map[], [];
    }

    /** Composes, renders and activates, as `Publish` says. */
    method RenderAndActivate(now: int) returns (outcome: Outcome)
      requires store.Valid()
      modifies store
      ensures store.Valid()
      ensures (store.Tables(), outcome)
           == Publish(store.sha256, time, renderer, SourcesOf(rows), voice, old(store.Tables()), now)
    {
      var view := ComposeView(time, SourcesOf(rows), voice, now);
      if view.None? { return NotComposed; }
      var bundle := renderer(view.value);
      if bundle.None? { return RenderFailed; }
      var generation := store.ActivatePulseBundle(bundle.value, now);
      return if generation.Ok? then Published(generation.value) else NotActivated(generation.error);
    }

    /** An update older than the stored snapshot is refused; an accepted one stays even if rendering fails. */
    method UpdateSource(update: SourceUpdate, now: int) returns (outcome: Outcome)
      requires store.Valid()
      modifies this`rows, store
      ensures store.Valid() && rows == ApplyUpdate(old(rows), update)
      ensures outcome.Refused? <==> !Accepts(old(rows), update)
      ensures (store.Tables(), outcome)
           == if Accepts(old(rows), update)
              then Publish(store.sha256, time, renderer, SourcesOf(rows), voice, old(store.Tables()), now)
              else (old(store.Tables()), Refused)
    {
      if !Accepts(rows, update) { return Refused; }
      rows := rows[update.source := Row(update.observedAt, update.payload)];
      outcome := RenderAndActivate(now);
    }

    /**
     * Only the assistant's row changes, and what is published serves the rendering of a view that keeps every
     * fact the view had without the update.
     */
    method UpdateAssistant(note: string, summary: Option<string>, now: int) returns (outcome: Outcome)
      requires store.Valid()
      modifies this`rows, store
      ensures store.Valid() && rows - {"assistant"} == old(rows) - {"assistant"}
      ensures outcome.Refused? <==> "assistant" in old(rows) && now < old(rows)["assistant"].observedAt
      ensures outcome.Refused? ==> rows == old(rows) && store.Tables() == old(store.Tables())
      ensures !outcome.Refused? ==> "assistant" in rows && StoresTexts(rows["assistant"], note, summary, now)
      ensures !outcome.Refused? ==>
        (store.Tables(), outcome)
        == Publish(store.sha256, time, renderer, SourcesOf(rows), voice, old(store.Tables()), now)
      ensures outcome.Published? && Compose(time, SourcesOf(old(rows)), voice, now).Some? ==>
        && Compose(time, SourcesOf(rows), voice, now).Some?
        && Facts(Compose(time, SourcesOf(rows), voice, now).value)
           == Facts(Compose(time, SourcesOf(old(rows)), voice, now).value)
    {
      var payload: Payload := map["observed_at" := Int(now), "assistant_note" := Text(note)];
      if summary.Some? {
        payload := payload["focus_summary" := Text(summary.value)];
      }
      outcome := UpdateSource(SourceUpdate("assistant", now, payload), now);
      RowsButAssistant(old(rows), rows);
      if outcome.Published? && Compose(time, SourcesOf(old(rows)), voice, now).Some? {
        NonInterference(time, SourcesOf(rows), SourcesOf(old(rows)), voice, now);
      }
    }
  }
}
