/**
 * What the Pulse validators read and refuse, field by field, when a snapshot is fresh, and exactly which
 * snapshots make up a view.
 */
module PulseReadings {
  import opened Characters
  import opened Wrappers
  import opened PulseModels
  import opened PulseCompose

  // ------------------------------------------------------------------ texts

  /** A text with every line break written as one newline. */
  function LineBreaks(s: string): string {
    ReplaceCr(ReplaceCrLf(s))
  }

  /** A carriage return, with the newline after it if there is one, is one line break; all else stays. */
  lemma LineBreaksAre(c: char, s: string)
    ensures LineBreaks("") == ""
    ensures c == '\r' && s != "" && s[0] == '\n' ==> LineBreaks([c] + s) == "\n" + LineBreaks(s[1..])
    ensures c == '\r' && (s == "" || s[0] != '\n') ==> LineBreaks([c] + s) == "\n" + LineBreaks(s)
    ensures c != '\r' ==> LineBreaks([c] + s) == [c] + LineBreaks(s)
  {
    var t := [c] + s;
    assert t[1..] == s;
    if c == '\r' && s != "" && s[0] == '\n' {
      assert t[1] == '\n' && t[2..] == s[1..];
    }
  }

  predicate AllSpace(s: string) {
    forall i :: 0 <= i < |s| ==> IsSpace(s[i])
  }

  lemma {:induction false} LeadingSpaceGoes(pre: string, s: string)
    requires AllSpace(pre) && (s == "" || !IsSpace(s[0]))
    ensures LStrip(pre + s) == s
  {
    if pre == "" {
      assert pre + s == s;
    } else {
      assert (pre + s)[1..] == pre[1..] + s;
      LeadingSpaceGoes(pre[1..], s);
    }
  }

  lemma {:induction false} TrailingSpaceGoes(s: string, post: string)
    requires AllSpace(post) && (s == "" || !IsSpace(s[|s| - 1]))
    ensures RStrip(s + post) == s
  {
    if post == "" {
      assert s + post == s;
    } else {
      assert (s + post)[..|s + post| - 1] == s + post[..|post| - 1];
      TrailingSpaceGoes(s, post[..|post| - 1]);
    }
  }

  lemma SpaceAroundGoes(pre: string, core: string, post: string)
    requires AllSpace(pre) && AllSpace(post) && core != "" && !IsSpace(core[0]) && !IsSpace(core[|core| - 1])
    ensures Strip(pre + core + post) == core
  {
    Associative(pre, core, post);
    assert (core + post)[0] == core[0];
    LeadingSpaceGoes(pre, core + post);
    TrailingSpaceGoes(core, post);
  }

  /**
   * A text is read without the white space around it: accepted exactly when what is left fits the limit and
   * has no control character but newlines and tabs, and then with its tabs expanded.
   */
  lemma TextIsRead(s: string, pre: string, core: string, post: string, maximum: nat)
    requires LineBreaks(s) == pre + core + post && AllSpace(pre) && AllSpace(post)
    requires core != "" && !IsSpace(core[0]) && !IsSpace(core[|core| - 1])
    ensures CleanText(Text(s), maximum) == if |core| <= maximum && Printable(core) then Some(ExpandTabs(core)) else None
  {
    SpaceAroundGoes(pre, core, post);
    PrintableIs(core);
  }

  predicate Printable(s: string) {
    forall i :: 0 <= i < |s| ==> s[i] == '\n' || s[i] == '\t' || !IsControl(s[i])
  }

  lemma PrintableIs(s: string)
    ensures Printable(s) <==> forall i :: 0 <= i < |s| ==> !IsForbiddenControl(s[i])
  {
  }

  /** A text of white space only, and what is not a text, are refused. */
  lemma BlankIsRefused(v: Value, maximum: nat)
    requires v.Text? ==> AllSpace(LineBreaks(v.s))
    ensures CleanText(v, maximum) == None
  {
    if v.Text? {
      var s := LineBreaks(v.s);
      assert s + "" == s;
      LeadingSpaceGoes(s, "");
    }
  }

  /** Four spaces for each tab, and every other character itself. */
  lemma TabsAre(c: char, s: string)
    ensures ExpandTabs("") == ""
    ensures ExpandTabs([c] + s) == (if c == '\t' then "    " else [c]) + ExpandTabs(s)
  {
    assert ([c] + s)[1..] == s;
  }

  // ------------------------------------------------------------------ numbers

  /** A finite number within the bounds, and not a boolean. */
  lemma NumberIs(v: Value, low: real, high: real, r: real)
    ensures NumberIn(v, low, high) == Some(r) <==>
            low <= r <= high && (v == Float(r) || (v.Int? && r == v.n as real))
  {
  }

  /** A whole number from 0 to 100. */
  lemma PercentageIs(v: Value, n: int)
    ensures Percentage(v) == Some(n) <==> 0 <= n <= 100 && (v == Int(n) || v == Float(n as real))
  {
  }

  // ------------------------------------------------------------------ records

  predicate OnlyKeys(v: Value, keys: set<string>) {
    v.Dict? && v.fields.Keys <= keys
  }

  lemma MeasurementIs(time: IsoTime, v: Value, low: real, high: real, m: ObservedNumber)
    ensures ObservedNumberFrom(time, v, low, high) == Some(m) <==>
      && OnlyKeys(v, {"value", "observed_at"}) && "value" in v.fields && "observed_at" in v.fields
      && NumberIn(Get(v.fields, "value"), low, high) == Some(m.value)
      && Stamp(time, Get(v.fields, "observed_at")) == Some(m.observedAt)
  {
  }

  lemma WeatherIs(time: IsoTime, v: Value, w: Weather)
    ensures WeatherFrom(time, v) == Some(w) <==>
      && OnlyKeys(v, {"condition", "low_c", "high_c", "observed_at"})
      && CleanText(Get(v.fields, "condition"), 20) == Some(w.condition)
      && NumberIn(Get(v.fields, "low_c"), -60.0, 70.0) == Some(w.lowC)
      && NumberIn(Get(v.fields, "high_c"), -60.0, 70.0) == Some(w.highC) && w.lowC <= w.highC
      && Stamp(time, Get(v.fields, "observed_at")) == Some(w.observedAt)
  {
  }

  /** A progress that is missing, or a percentage. */
  predicate ProgressIs(v: Value, progress: Option<int>) {
    if v == Null then progress == None else progress.Some? && Percentage(v) == progress
  }

  lemma FocusIs(time: IsoTime, v: Value, f: Focus)
    ensures FocusFrom(time, v) == Some(f) <==>
      && OnlyKeys(v, {"title", "summary", "progress_pct", "observed_at"})
      && CleanText(Get(v.fields, "title"), 48) == Some(f.title)
      && CleanText(Get(v.fields, "summary"), 96) == Some(f.summary)
      && ProgressIs(Get(v.fields, "progress_pct"), f.progressPct)
      && Stamp(time, Get(v.fields, "observed_at")) == Some(f.observedAt)
  {
  }

  lemma LatestIs(time: IsoTime, v: Value, l: LatestResult)
    ensures LatestFrom(time, v) == Some(l) <==>
      && OnlyKeys(v, {"text", "verified_at"}) && CleanText(Get(v.fields, "text"), 100) == Some(l.text)
      && Stamp(time, Get(v.fields, "verified_at")) == Some(l.verifiedAt)
  {
  }

  lemma QuotaIs(time: IsoTime, v: Value, q: QuotaUsage)
    ensures QuotaFrom(time, v) == Some(q) <==>
      && OnlyKeys(v, {"five_hour_pct", "weekly_pct", "observed_at"})
      && Percentage(Get(v.fields, "five_hour_pct")) == Some(q.fiveHourPct)
      && Percentage(Get(v.fields, "weekly_pct")) == Some(q.weeklyPct)
      && Stamp(time, Get(v.fields, "observed_at")) == Some(q.observedAt)
  {
  }

  /** A session is read exactly when it has only its three texts, each acceptable, and then as they are. */
  lemma SessionIs(v: Value, item: SessionItem)
    ensures SessionFrom(v) == Some(item) <==>
      && OnlyKeys(v, {"title", "priority", "status"})
      && CleanText(Get(v.fields, "title"), 48) == Some(item.title)
      && CleanText(Get(v.fields, "priority"), 8) == Some(item.priority)
      && CleanText(Get(v.fields, "status"), 72) == Some(item.status)
  {
  }

  /** An idea is read exactly when it has only its two texts and its time, each acceptable, and then as they are. */
  lemma IdeaIs(time: IsoTime, v: Value, item: IdeaItem)
    ensures IdeaFrom(time, v) == Some(item) <==>
      && OnlyKeys(v, {"title", "state", "captured_at"})
      && CleanText(Get(v.fields, "title"), 72) == Some(item.title)
      && CleanText(Get(v.fields, "state"), 16) == Some(item.state)
      && Stamp(time, Get(v.fields, "captured_at")) == Some(item.capturedAt)
  {
  }

  lemma SdStateIs(v: Value, state: Option<string>)
    ensures SdStateFrom(v) == Some(state) <==>
            if v == Null then state == None
            else v.Text? && (v.s == "ready" || v.s == "missing" || v.s == "error") && state == Some(v.s)
  {
  }

  // ------------------------------------------------------------------ freshness

  /** A snapshot with an integer time at most five minutes ahead and at most `seconds` old. */
  predicate Within(source: Payload, now: int, seconds: int) {
    "observed_at" in source
    && match source["observed_at"]
       case Int(at) => now - seconds <= at <= now + 300
       case Bool(b) => now - seconds <= (if b then 1 else 0) <= now + 300
       case _ => false
  }

  /** The snapshots used are exactly the stored ones that are no older than two hours, six hours and seven days. */
  lemma FreshAre(sources: Sources, now: int, source: Payload)
    ensures FreshSources(sources, now).device == Some(source) <==>
            "device" in sources && sources["device"] == source && Within(source, now, 7_200)
    ensures FreshSources(sources, now).ha == Some(source) <==>
            "ha" in sources && sources["ha"] == source && Within(source, now, 21_600)
    ensures FreshSources(sources, now).mac == Some(source) <==>
            "mac" in sources && sources["mac"] == source && Within(source, now, 604_800)
    ensures FreshSources(sources, now).assistant == Some(source) <==>
            "assistant" in sources && sources["assistant"] == source && Within(source, now, 604_800)
  {
  }

  /** With voice captures, they and then the mac's ideas, the first three; without, just the mac's. */
  lemma IdeasAreMerged(mac: Option<Payload>, voice: seq<Value>)
    ensures var hasIdeas := mac.Some? && "ideas" in mac.value && mac.value["ideas"].List?;
            var own := if hasIdeas then mac.value["ideas"].items else [];
      Raw(IdeaItems(mac, voice)) ==
      if voice == [] then own else if |voice + own| <= 3 then voice + own else (voice + own)[..3]
  {
  }

  // ------------------------------------------------------------------ which snapshots compose

  ghost predicate MeasureReads(time: IsoTime, device: Option<Payload>, key: string, low: real, high: real) {
    device.Some? && key in device.value ==>
      time.render(SeenAt(device.value)).Some? && NumberIn(device.value[key], low, high).Some?
  }

  ghost predicate WeatherReads(time: IsoTime, ha: Option<Payload>) {
    ha.Some? && Get(ha.value, "weather").Dict? ==>
      var w := Get(ha.value, "weather").fields;
      && time.render(SeenAt(ha.value)).Some? && w.Keys <= {"condition", "low_c", "high_c", "observed_at"}
      && CleanText(Get(w, "condition"), 20).Some?
      && NumberIn(Get(w, "low_c"), -60.0, 70.0).Some? && NumberIn(Get(w, "high_c"), -60.0, 70.0).Some?
      && NumberIn(Get(w, "low_c"), -60.0, 70.0).value <= NumberIn(Get(w, "high_c"), -60.0, 70.0).value
  }

  ghost predicate FocusReadsIn(time: IsoTime, mac: Option<Payload>, summary: Option<Value>) {
    mac.Some? && Get(mac.value, "focus").Dict? ==>
      var f := Get(mac.value, "focus").fields;
      && f.Keys <= {"title", "summary", "progress_pct", "observed_at"}
      && CleanText(Get(f, "title"), 48).Some? && CleanText(ShownSummary(f, summary), 96).Some?
      && (Get(f, "progress_pct") == Null || Percentage(Get(f, "progress_pct")).Some?)
  }

  /** A time of its own that can be read, or none. */
  ghost predicate OwnTimeReads(time: IsoTime, fields: Payload, stamp: string) {
    stamp in fields ==> Stamp(time, fields[stamp]).Some?
  }

  ghost predicate LatestReads(time: IsoTime, mac: Option<Payload>) {
    mac.Some? && Get(mac.value, "latest_result").Dict? ==>
      var l := Get(mac.value, "latest_result").fields;
      && l.Keys <= {"text", "verified_at"} && CleanText(Get(l, "text"), 100).Some?
      && OwnTimeReads(time, l, "verified_at")
  }

  ghost predicate QuotaReads(time: IsoTime, mac: Option<Payload>) {
    mac.Some? && Get(mac.value, "quota_usage").Dict? ==>
      var q := Get(mac.value, "quota_usage").fields;
      && q.Keys <= {"five_hour_pct", "weekly_pct", "observed_at"}
      && Percentage(Get(q, "five_hour_pct")).Some? && Percentage(Get(q, "weekly_pct")).Some?
      && OwnTimeReads(time, q, "observed_at")
  }

  ghost predicate ListReads<T>(items: seq<Value>, read: Value -> Option<T>) {
    |items| <= 3 && forall i :: 0 <= i < |items| ==> read(items[i]).Some?
  }

  lemma MeasureReadsIff(time: IsoTime, device: Option<Payload>, key: string, low: real, high: real)
    requires RoundTrips(time) && (device.Some? && key in device.value ==> time.render(SeenAt(device.value)).Some?)
    ensures Optionally(MeasureValue(time, device, key), v => ObservedNumberFrom(time, v, low, high)).Some?
       <==> MeasureReads(time, device, key, low, high)
  {
  }

  lemma WeatherReadsIff(time: IsoTime, ha: Option<Payload>)
    requires RoundTrips(time) && HaTimeRenders(time, ha)
    ensures Optionally(WeatherValue(time, ha), v => WeatherFrom(time, v)).Some? <==> WeatherReads(time, ha)
  {
  }

  lemma FocusReadsIff(time: IsoTime, mac: Option<Payload>, summary: Option<Value>)
    requires RoundTrips(time) && MacTimeRenders(time, mac)
    ensures Optionally(FocusValue(time, mac, summary), v => FocusFrom(time, v)).Some?
            <==> FocusReadsIn(time, mac, summary)
  {
  }

  lemma LatestReadsIff(time: IsoTime, mac: Option<Payload>)
    requires RoundTrips(time) && MacTimeRenders(time, mac)
    ensures Optionally(MacValue(time, mac, "latest_result", "verified_at"), v => LatestFrom(time, v)).Some?
       <==> LatestReads(time, mac)
  {
  }

  lemma QuotaReadsIff(time: IsoTime, mac: Option<Payload>)
    requires RoundTrips(time) && MacTimeRenders(time, mac)
    ensures Optionally(MacValue(time, mac, "quota_usage", "observed_at"), v => QuotaFrom(time, v)).Some?
       <==> QuotaReads(time, mac)
  {
  }

  ghost predicate NowPageReads(time: IsoTime, f: Fresh4) {
    && MeasureReads(time, f.device, "temperature_c", -40.0, 125.0)
    && MeasureReads(time, f.device, "humidity_pct", 0.0, 100.0)
    && WeatherReads(time, f.ha) && LatestReads(time, f.mac) && NoteFits(f.assistant)
    && FocusReadsIn(time, f.mac, AssistantText(f.assistant, "focus_summary"))
  }

  lemma NowReadsIff(time: IsoTime, f: Fresh4)
    requires RoundTrips(time) && DeviceTimeRenders(time, f.device) && HaTimeRenders(time, f.ha)
    requires MacTimeRenders(time, f.mac)
    ensures NowViewFrom(time, NowPageOf(time, f)).Some? <==> NowPageReads(time, f)
  {
    MeasureReadsIff(time, f.device, "temperature_c", -40.0, 125.0);
    MeasureReadsIff(time, f.device, "humidity_pct", 0.0, 100.0);
    WeatherReadsIff(time, f.ha);
    NoteFieldReads(f.assistant);
    FocusReadsIff(time, f.mac, AssistantText(f.assistant, "focus_summary"));
    LatestReadsIff(time, f.mac);
  }

  ghost predicate WorkReads(time: IsoTime, mac: Option<Payload>) {
    QuotaReads(time, mac) && ListReads(Raw(MacList(mac, "sessions")), SessionFrom)
  }

  lemma WorkReadsIff(time: IsoTime, mac: Option<Payload>)
    requires RoundTrips(time) && MacTimeRenders(time, mac)
    ensures WorkViewFrom(time, WorkPageOf(time, mac)).Some? <==> WorkReads(time, mac)
  {
    QuotaReadsIff(time, mac);
  }

  ghost predicate IdeasRead(time: IsoTime, device: Option<Payload>, mac: Option<Payload>, voice: seq<Value>) {
    && ListReads(Raw(IdeaItems(mac, voice)), v => IdeaFrom(time, v))
    && (device.Some? ==> SdStateFrom(Get(device.value, "sd_state")).Some?)
  }

  lemma IdeasReadIff(time: IsoTime, device: Option<Payload>, mac: Option<Payload>, voice: seq<Value>)
    ensures IdeasViewFrom(time, IdeasPageOf(device, mac, voice)).Some? <==> IdeasRead(time, device, mac, voice)
  {
  }

  /**
   * A view composes exactly when the present time and that of a fresh mac snapshot can be written, and every
   * fact of the fresh snapshots is within its own limits.
   */
  lemma ComposesIff(time: IsoTime, sources: Sources, voice: seq<Value>, now: int)
    requires RoundTrips(time)
    ensures var f := FreshSources(sources, now);
      Compose(time, sources, voice, now).Some? <==>
      && time.render(now).Some? && MacTimeRenders(time, f.mac)
      && NowPageReads(time, f) && WorkReads(time, f.mac) && IdeasRead(time, f.device, f.mac, voice)
  {
    var f := FreshSources(sources, now);
    if TimesRender(time, f, now) {
      NowReadsIff(time, f);
      WorkReadsIff(time, f.mac);
      IdeasReadIff(time, f.device, f.mac, voice);
    }
  }
}
