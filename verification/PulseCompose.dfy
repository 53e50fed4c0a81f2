/** Composing the Pulse view from isolated sources, and what the assistant's entry can and cannot change. */
module PulseCompose {
  import opened Wrappers
  import opened PulseModels

  // ------------------------------------------------------------------ sources and freshness

  const DEVICE_MAX_AGE := 2 * 60 * 60
  const HA_MAX_AGE := 6 * 60 * 60
  const MAC_MAX_AGE := 7 * 24 * 60 * 60
  const ASSISTANT_MAX_AGE := 7 * 24 * 60 * 60

  /** Python's booleans are integers, so an `observed_at` of `true` reads as 1. */
  function ObservedAt(source: Payload): Option<int> {
    match Get(source, "observed_at")
    case Int(n) => Some(n)
    case Bool(b) => Some(if b then 1 else 0)
    case _ => None
  }

  predicate Fresh(source: Payload, now: int, maxAge: int) {
    ObservedAt(source).Some? && ObservedAt(source).value <= now + 300 && now - ObservedAt(source).value <= maxAge
  }

  type Sources = map<string, Payload>

  function FreshSource(sources: Sources, name: string, now: int, maxAge: int): (r: Option<Payload>)
    ensures r.Some? ==> Fresh(r.value, now, maxAge)
  {
    if name in sources && Fresh(sources[name], now, maxAge) then Some(sources[name]) else None
  }

  // ------------------------------------------------------------------ the pages of a composition

  /** The time of a snapshot that passed the freshness test. */
  function SeenAt(source: Payload): int {
    match ObservedAt(source) case Some(n) => n case None => 0
  }

  /** The text of a snapshot's time; every use is guarded by `TimesRender`. */
  function IsoOf(time: IsoTime, source: Payload): Value {
    match time.render(SeenAt(source)) case Some(iso) => Text(iso) case None => Null
  }

  /** The sources inside their freshness windows. */
  datatype Fresh4 = Fresh4(
    device: Option<Payload>, ha: Option<Payload>, mac: Option<Payload>, assistant: Option<Payload>)

  function FreshSources(sources: Sources, now: int): Fresh4 {
    Fresh4(FreshSource(sources, "device", now, DEVICE_MAX_AGE), FreshSource(sources, "ha", now, HA_MAX_AGE),
           FreshSource(sources, "mac", now, MAC_MAX_AGE), FreshSource(sources, "assistant", now, ASSISTANT_MAX_AGE))
  }

  predicate DeviceTimeRenders(time: IsoTime, device: Option<Payload>) {
    device.Some? && ("temperature_c" in device.value || "humidity_pct" in device.value) ==>
      time.render(SeenAt(device.value)).Some?
  }

  predicate HaTimeRenders(time: IsoTime, ha: Option<Payload>) {
    ha.Some? && Get(ha.value, "weather").Dict? ==> time.render(SeenAt(ha.value)).Some?
  }

  /** The time text of a fresh mac snapshot is made even when nothing in it is shown. */
  predicate MacTimeRenders(time: IsoTime, mac: Option<Payload>) {
    mac.Some? ==> time.render(SeenAt(mac.value)).Some?
  }

  predicate TimesRender(time: IsoTime, f: Fresh4, now: int) {
    && DeviceTimeRenders(time, f.device) && HaTimeRenders(time, f.ha) && MacTimeRenders(time, f.mac)
    && time.render(now).Some?
  }

  function MeasureValue(time: IsoTime, device: Option<Payload>, key: string): Option<Value> {
    if device.Some? && key in device.value
    then Some(Dict(map["value" := device.value[key], "observed_at" := IsoOf(time, device.value)]))
    else None
  }

  function WeatherValue(time: IsoTime, ha: Option<Payload>): Option<Value> {
    if ha.Some? && Get(ha.value, "weather").Dict?
    then Some(Dict(Get(ha.value, "weather").fields["observed_at" := IsoOf(time, ha.value)]))
    else None
  }

  function AssistantText(assistant: Option<Payload>, key: string): Option<Value> {
    if assistant.Some? && Get(assistant.value, key).Text? then Some(Get(assistant.value, key)) else None
  }

  function WithSummary(focus: Payload, summary: Option<Value>): Payload {
    if summary.Some? then focus["summary" := summary.value] else focus
  }

  function FocusValue(time: IsoTime, mac: Option<Payload>, summary: Option<Value>): Option<Value> {
    if mac.Some? && Get(mac.value, "focus").Dict?
    then Some(Dict(WithSummary(Get(mac.value, "focus").fields["observed_at" := IsoOf(time, mac.value)], summary)))
    else None
  }

  function SetDefault(fields: Payload, key: string, v: Value): Payload {
    if key in fields then fields else fields[key := v]
  }

  /** A mac dictionary whose time is the snapshot's unless it carries its own. */
  function MacValue(time: IsoTime, mac: Option<Payload>, key: string, stamp: string): Option<Value> {
    if mac.Some? && Get(mac.value, key).Dict?
    then Some(Dict(SetDefault(Get(mac.value, key).fields, stamp, IsoOf(time, mac.value))))
    else None
  }

  function MacList(mac: Option<Payload>, key: string): Option<Value> {
    if mac.Some? && Get(mac.value, key).List? then Some(Get(mac.value, key)) else None
  }

  /** The voice captures come first, and only then is the list cut to three. */
  function IdeaItems(mac: Option<Payload>, voice: seq<Value>): Option<Value> {
    var ideas := MacList(mac, "ideas");
    if voice == [] then ideas
    else
      var merged := voice + (if ideas.Some? then ideas.value.items else []);
      Some(List(if |merged| > 3 then merged[..3] else merged))
  }

  function SdValue(device: Option<Payload>): Option<Value> {
    if device.Some? && "sd_state" in device.value then Some(device.value["sd_state"]) else None
  }

  function NowPageOf(time: IsoTime, f: Fresh4): NowPage {
    NowPage(MeasureValue(time, f.device, "temperature_c"), MeasureValue(time, f.device, "humidity_pct"),
            WeatherValue(time, f.ha), AssistantText(f.assistant, "assistant_note"),
            FocusValue(time, f.mac, AssistantText(f.assistant, "focus_summary")),
            MacValue(time, f.mac, "latest_result", "verified_at"))
  }

  function WorkPageOf(time: IsoTime, mac: Option<Payload>): WorkPage {
    WorkPage(MacValue(time, mac, "quota_usage", "observed_at"), MacList(mac, "sessions"))
  }

  function IdeasPageOf(device: Option<Payload>, mac: Option<Payload>, voice: seq<Value>): IdeasPage {
    IdeasPage(IdeaItems(mac, voice), SdValue(device))
  }

  /** The view of the fresh sources; none when a field is refused or a time cannot be written. */
  function Compose(time: IsoTime, sources: Sources, voice: seq<Value>, now: int): Option<View> {
    var f := FreshSources(sources, now);
    if !TimesRender(time, f, now) then None
    else
      ViewFrom(time, Text(time.render(now).value), NowPageOf(time, f), WorkPageOf(time, f.mac),
               IdeasPageOf(f.device, f.mac, voice))
  }

  // ------------------------------------------------------------------ filling the pages in place

  /** The device block of `compose_view`; `ok` is false where writing the time raises. */
  method FillDevice(time: IsoTime, device: Option<Payload>, nowIn: NowPage, ideasIn: IdeasPage)
    returns (ok: bool, nowPage: NowPage, ideasPage: IdeasPage)
    requires nowIn.temperatureC.None? && nowIn.humidityPct.None? && ideasIn.sdState.None?
    ensures ok == DeviceTimeRenders(time, device)
    ensures ok ==> nowPage == nowIn.(temperatureC := MeasureValue(time, device, "temperature_c"),
                                     humidityPct := MeasureValue(time, device, "humidity_pct"))
    ensures ok ==> ideasPage == ideasIn.(sdState := SdValue(device))
  {
    ok, nowPage, ideasPage := true, nowIn, ideasIn;
    if device.None? { return; }
    var fields := device.value;
    if "temperature_c" in fields {
      var iso := time.render(SeenAt(fields));
      if iso.None? { return false, nowPage, ideasPage; }
      nowPage := nowPage.(temperatureC :=
        Some(Dict(map["value" := fields["temperature_c"], "observed_at" := Text(iso.value)])));
    }
    if "humidity_pct" in fields {
      var iso := time.render(SeenAt(fields));
      if iso.None? { return false, nowPage, ideasPage; }
      nowPage := nowPage.(humidityPct :=
        Some(Dict(map["value" := fields["humidity_pct"], "observed_at" := Text(iso.value)])));
    }
    if "sd_state" in fields {
      ideasPage := ideasPage.(sdState := Some(fields["sd_state"]));
    }
  }

  /** The Home Assistant block. */
  method FillHa(time: IsoTime, ha: Option<Payload>, nowIn: NowPage) returns (ok: bool, nowPage: NowPage)
    requires nowIn.weather.None?
    ensures ok == HaTimeRenders(time, ha)
    ensures ok ==> nowPage == nowIn.(weather := WeatherValue(time, ha))
  {
    ok, nowPage := true, nowIn;
    if ha.Some? {
      var weather := Get(ha.value, "weather");
      if weather.Dict? {
        var iso := time.render(SeenAt(ha.value));
        if iso.None? { return false, nowPage; }
        nowPage := nowPage.(weather := Some(Dict(weather.fields["observed_at" := Text(iso.value)])));
      }
    }
  }

  /** The mac block. */
  method FillMac(time: IsoTime, mac: Option<Payload>, nowIn: NowPage, workIn: WorkPage, ideasIn: IdeasPage)
    returns (ok: bool, nowPage: NowPage, workPage: WorkPage, ideasPage: IdeasPage)
    requires nowIn.focus.None? && nowIn.latestResult.None? && workIn == WorkPage(None, None) && ideasIn.items.None?
    ensures ok == MacTimeRenders(time, mac)
    ensures ok ==> nowPage == nowIn.(focus := FocusValue(time, mac, None),
                                     latestResult := MacValue(time, mac, "latest_result", "verified_at"))
    ensures ok ==> workPage == WorkPageOf(time, mac) && ideasPage == ideasIn.(items := MacList(mac, "ideas"))
  {
    ok, nowPage, workPage, ideasPage := true, nowIn, workIn, ideasIn;
    if mac.None? { return; }
    var iso := time.render(SeenAt(mac.value));
    if iso.None? { return false, nowPage, workPage, ideasPage; }
    var focus, latest := Get(mac.value, "focus"), Get(mac.value, "latest_result");
    var usage, sessions := Get(mac.value, "quota_usage"), Get(mac.value, "sessions");
    if focus.Dict? {
      nowPage := nowPage.(focus := Some(Dict(focus.fields["observed_at" := Text(iso.value)])));
    }
    if latest.Dict? {
      nowPage := nowPage.(latestResult := Some(Dict(SetDefault(latest.fields, "verified_at", Text(iso.value)))));
    }
    if usage.Dict? {
      workPage := workPage.(quotaUsage := Some(Dict(SetDefault(usage.fields, "observed_at", Text(iso.value)))));
    }
    if sessions.List? {
      workPage := workPage.(sessions := Some(sessions));
    }
    if Get(mac.value, "ideas").List? {
      ideasPage := ideasPage.(items := Some(Get(mac.value, "ideas")));
    }
  }

  /** The assistant block: its note, and its summary when there is a focus to summarise. */
  method FillAssistant(time: IsoTime, mac: Option<Payload>, assistant: Option<Payload>, nowIn: NowPage)
    returns (nowPage: NowPage)
    requires nowIn.assistantNote.None? && nowIn.focus == FocusValue(time, mac, None)
    ensures nowPage == nowIn.(assistantNote := AssistantText(assistant, "assistant_note"),
                              focus := FocusValue(time, mac, AssistantText(assistant, "focus_summary")))
  {
    nowPage := nowIn;
    if assistant.Some? {
      var note, summary := Get(assistant.value, "assistant_note"), Get(assistant.value, "focus_summary");
      if note.Text? {
        nowPage := nowPage.(assistantNote := Some(note));
      }
      if summary.Text? && nowPage.focus.Some? {
        nowPage := nowPage.(focus := Some(Dict(nowPage.focus.value.fields["summary" := summary])));
      }
    }
  }

  /** `compose_view`: fills the pages source by source and validates them; none where it raises. */
  method ComposeView(time: IsoTime, sources: Sources, voice: seq<Value>, now: int) returns (view: Option<View>)
    ensures view == Compose(time, sources, voice, now)
  {
    var nowPage := NowPage(None, None, None, None, None, None);
    var workPage, ideasPage := WorkPage(None, None), IdeasPage(None, None);
    var ok: bool;
    ok, nowPage, ideasPage :=
      FillDevice(time, FreshSource(sources, "device", now, DEVICE_MAX_AGE), nowPage, ideasPage);
    if !ok { return None; }
    ok, nowPage := FillHa(time, FreshSource(sources, "ha", now, HA_MAX_AGE), nowPage);
    if !ok { return None; }
    var mac := FreshSource(sources, "mac", now, MAC_MAX_AGE);
    ok, nowPage, workPage, ideasPage := FillMac(time, mac, nowPage, workPage, ideasPage);
    if !ok { return None; }
    if voice != [] {
      var existing := if ideasPage.items.Some? then ideasPage.items.value.items else [];
      var merged := voice + existing;
      ideasPage := ideasPage.(items := Some(List(if |merged| > 3 then merged[..3] else merged)));
    }
    nowPage := FillAssistant(time, mac, FreshSource(sources, "assistant", now, ASSISTANT_MAX_AGE), nowPage);
    var generated := time.render(now);
    if generated.None? { return None; }
    view := ViewFrom(time, Text(generated.value), nowPage, workPage, ideasPage);
  }

  // ------------------------------------------------------------------ what a view shows

  /** The summary a focus is shown with: the assistant's when it has one. */
  function ShownSummary(focus: Payload, summary: Option<Value>): Value {
    if summary.Some? then summary.value else Get(focus, "summary")
  }

  ghost predicate ShowsMeasure(shown: Option<ObservedNumber>, device: Option<Payload>, key: string,
                               low: real, high: real) {
    if device.Some? && key in device.value
    then NumberIn(device.value[key], low, high).Some?
         && shown == Some(ObservedNumber(NumberIn(device.value[key], low, high).value, SeenAt(device.value)))
    else shown == None
  }

  ghost predicate ShowsWeather(shown: Option<Weather>, ha: Option<Payload>) {
    if ha.Some? && Get(ha.value, "weather").Dict? then
      var w := Get(ha.value, "weather").fields;
      && shown.Some? && shown.value.observedAt == SeenAt(ha.value)
      && Some(shown.value.condition) == CleanText(Get(w, "condition"), 20)
      && Some(shown.value.lowC) == NumberIn(Get(w, "low_c"), -60.0, 70.0)
      && Some(shown.value.highC) == NumberIn(Get(w, "high_c"), -60.0, 70.0)
    else shown == None
  }

  ghost predicate ShowsFocus(shown: Option<Focus>, mac: Option<Payload>, summary: Option<Value>) {
    if mac.Some? && Get(mac.value, "focus").Dict? then
      var focus := Get(mac.value, "focus").fields;
      && shown.Some? && shown.value.observedAt == SeenAt(mac.value)
      && Some(shown.value.title) == CleanText(Get(focus, "title"), 48)
      && Some(shown.value.progressPct) == OptionalPercentage(Get(focus, "progress_pct"))
      && Some(shown.value.summary) == CleanText(ShownSummary(focus, summary), 96)
    else shown == None
  }

  /** A mac dictionary's own time when it has one, else the snapshot's. */
  ghost predicate StampedAt(time: IsoTime, at: int, fields: Payload, stamp: string, mac: Payload) {
    if stamp in fields then Stamp(time, fields[stamp]) == Some(at) else at == SeenAt(mac)
  }

  ghost predicate ShowsLatest(time: IsoTime, shown: Option<LatestResult>, mac: Option<Payload>) {
    if mac.Some? && Get(mac.value, "latest_result").Dict? then
      var latest := Get(mac.value, "latest_result").fields;
      && shown.Some? && Some(shown.value.text) == CleanText(Get(latest, "text"), 100)
      && StampedAt(time, shown.value.verifiedAt, latest, "verified_at", mac.value)
    else shown == None
  }

  ghost predicate ShowsQuota(time: IsoTime, shown: Option<QuotaUsage>, mac: Option<Payload>) {
    if mac.Some? && Get(mac.value, "quota_usage").Dict? then
      var usage := Get(mac.value, "quota_usage").fields;
      && shown.Some? && StampedAt(time, shown.value.observedAt, usage, "observed_at", mac.value)
      && Some(shown.value.fiveHourPct) == Percentage(Get(usage, "five_hour_pct"))
      && Some(shown.value.weeklyPct) == Percentage(Get(usage, "weekly_pct"))
    else shown == None
  }

  ghost predicate ShowsNote(shown: Option<string>, note: Option<Value>) {
    if note.Some? then shown.Some? && CleanText(note.value, 160) == shown else shown == None
  }

  /** Each item is the reading of the raw item at its place. */
  ghost predicate ShowsItems<T>(shown: seq<T>, raw: seq<Value>, read: Value -> Option<T>) {
    |shown| == |raw| <= 3 && forall i :: 0 <= i < |raw| ==> read(raw[i]) == Some(shown[i])
  }

  function Raw(list: Option<Value>): seq<Value> {
    if list.Some? && list.value.List? then list.value.items else []
  }

  lemma MeasureShown(time: IsoTime, device: Option<Payload>, key: string, low: real, high: real,
                     shown: Option<ObservedNumber>)
    requires RoundTrips(time) && (device.Some? && key in device.value ==> time.render(SeenAt(device.value)).Some?)
    requires Optionally(MeasureValue(time, device, key), v => ObservedNumberFrom(time, v, low, high)) == Some(shown)
    ensures ShowsMeasure(shown, device, key, low, high)
  {
  }

  lemma WeatherShown(time: IsoTime, ha: Option<Payload>, shown: Option<Weather>)
    requires RoundTrips(time) && HaTimeRenders(time, ha)
    requires Optionally(WeatherValue(time, ha), v => WeatherFrom(time, v)) == Some(shown)
    ensures ShowsWeather(shown, ha)
  {
  }

  lemma FocusShown(time: IsoTime, mac: Option<Payload>, summary: Option<Value>, shown: Option<Focus>)
    requires RoundTrips(time) && MacTimeRenders(time, mac)
    requires Optionally(FocusValue(time, mac, summary), v => FocusFrom(time, v)) == Some(shown)
    ensures ShowsFocus(shown, mac, summary)
  {
  }

  lemma LatestShown(time: IsoTime, mac: Option<Payload>, shown: Option<LatestResult>)
    requires RoundTrips(time) && MacTimeRenders(time, mac)
    requires Optionally(MacValue(time, mac, "latest_result", "verified_at"), v => LatestFrom(time, v)) == Some(shown)
    ensures ShowsLatest(time, shown, mac)
  {
  }

  lemma QuotaShown(time: IsoTime, mac: Option<Payload>, shown: Option<QuotaUsage>)
    requires RoundTrips(time) && MacTimeRenders(time, mac)
    requires Optionally(MacValue(time, mac, "quota_usage", "observed_at"), v => QuotaFrom(time, v)) == Some(shown)
    ensures ShowsQuota(time, shown, mac)
  {
  }

  ghost predicate ShowsNow(shown: NowView, f: Fresh4, time: IsoTime) {
    && ShowsMeasure(shown.temperatureC, f.device, "temperature_c", -40.0, 125.0)
    && ShowsMeasure(shown.humidityPct, f.device, "humidity_pct", 0.0, 100.0)
    && ShowsWeather(shown.weather, f.ha)
    && ShowsFocus(shown.focus, f.mac, AssistantText(f.assistant, "focus_summary"))
    && ShowsLatest(time, shown.latestResult, f.mac)
    && ShowsNote(shown.assistantNote, AssistantText(f.assistant, "assistant_note"))
  }

  ghost predicate ShowsWork(shown: WorkView, mac: Option<Payload>, time: IsoTime) {
    ShowsQuota(time, shown.quotaUsage, mac) && ShowsItems(shown.sessions, Raw(MacList(mac, "sessions")), SessionFrom)
  }

  ghost predicate ShowsIdeas(shown: IdeasView, device: Option<Payload>, mac: Option<Payload>,
                             voice: seq<Value>, time: IsoTime) {
    && ShowsItems(shown.items, Raw(IdeaItems(mac, voice)), v => IdeaFrom(time, v))
    && SdStateFrom(if device.Some? then Get(device.value, "sd_state") else Null) == Some(shown.sdState)
  }

  lemma NowShown(time: IsoTime, f: Fresh4, shown: NowView)
    requires RoundTrips(time) && DeviceTimeRenders(time, f.device) && HaTimeRenders(time, f.ha)
    requires MacTimeRenders(time, f.mac) && NowViewFrom(time, NowPageOf(time, f)) == Some(shown)
    ensures ShowsNow(shown, f, time)
  {
    assert ShowsMeasure(shown.temperatureC, f.device, "temperature_c", -40.0, 125.0) by {
      MeasureShown(time, f.device, "temperature_c", -40.0, 125.0, shown.temperatureC);
    }
    assert ShowsMeasure(shown.humidityPct, f.device, "humidity_pct", 0.0, 100.0) by {
      MeasureShown(time, f.device, "humidity_pct", 0.0, 100.0, shown.humidityPct);
    }
    assert ShowsWeather(shown.weather, f.ha) by { WeatherShown(time, f.ha, shown.weather); }
    assert ShowsFocus(shown.focus, f.mac, AssistantText(f.assistant, "focus_summary")) by {
      FocusShown(time, f.mac, AssistantText(f.assistant, "focus_summary"), shown.focus);
    }
    assert ShowsLatest(time, shown.latestResult, f.mac) by { LatestShown(time, f.mac, shown.latestResult); }
  }

  lemma WorkShown(time: IsoTime, mac: Option<Payload>, shown: WorkView)
    requires RoundTrips(time) && MacTimeRenders(time, mac)
    requires WorkViewFrom(time, WorkPageOf(time, mac)) == Some(shown)
    ensures ShowsWork(shown, mac, time)
  {
    QuotaShown(time, mac, shown.quotaUsage);
  }

  lemma IdeasShown(time: IsoTime, device: Option<Payload>, mac: Option<Payload>, voice: seq<Value>, shown: IdeasView)
    requires IdeasViewFrom(time, IdeasPageOf(device, mac, voice)) == Some(shown)
    ensures ShowsIdeas(shown, device, mac, voice, time)
  {
  }

  /**
   * What a composed view shows is exactly what the fresh snapshots say: each device, Home Assistant or mac
   * fact is there if and only if a snapshot inside its window carries it, with that snapshot's value and
   * time, and nothing else is shown.
   */
  lemma ShowsFreshFacts(time: IsoTime, sources: Sources, voice: seq<Value>, now: int)
    requires RoundTrips(time) && Compose(time, sources, voice, now).Some?
    ensures var view, f := Compose(time, sources, voice, now).value, FreshSources(sources, now);
      && view.generatedAt == now && ShowsNow(view.now, f, time) && ShowsWork(view.work, f.mac, time)
      && ShowsIdeas(view.ideas, f.device, f.mac, voice, time)
  {
    var view, f := Compose(time, sources, voice, now).value, FreshSources(sources, now);
    assert ShowsNow(view.now, f, time) by { NowShown(time, f, view.now); }
    assert ShowsWork(view.work, f.mac, time) by { WorkShown(time, f.mac, view.work); }
    assert ShowsIdeas(view.ideas, f.device, f.mac, voice, time) by {
      IdeasShown(time, f.device, f.mac, voice, view.ideas);
    }
  }

  predicate InWindow(seenAt: int, now: int, maxAge: int) {
    now - maxAge <= seenAt <= now + 300
  }

  /** The idea is the reading of the mac snapshot's idea at this place. */
  ghost predicate FromMacIdeas(time: IsoTime, sources: Sources, idea: IdeaItem, k: int) {
    && "mac" in sources && Get(sources["mac"], "ideas").List?
    && 0 <= k < |Get(sources["mac"], "ideas").items|
    && IdeaFrom(time, Get(sources["mac"], "ideas").items[k]) == Some(idea)
  }

  /** What the mac's own facts need: a snapshot inside the window. */
  ghost predicate MacIsFresh(sources: Sources, now: int) {
    "mac" in sources && InWindow(SeenAt(sources["mac"]), now, MAC_MAX_AGE)
  }

  /** Each idea is a voice capture's, or beyond them one of a mac snapshot inside its window. */
  ghost predicate IdeasAreFresh(time: IsoTime, sources: Sources, voice: seq<Value>, now: int, ideas: seq<IdeaItem>) {
    && (forall i :: 0 <= i < |ideas| && i < |voice| ==> IdeaFrom(time, voice[i]) == Some(ideas[i]))
    && (forall i :: |voice| <= i < |ideas| ==> FromMacIdeas(time, sources, ideas[i], i - |voice|))
    && (|ideas| > |voice| ==> MacIsFresh(sources, now))
  }

  /** Where the raw idea at place `i` comes from. */
  lemma RawIdea(sources: Sources, voice: seq<Value>, now: int, i: nat)
    requires i < |Raw(IdeaItems(FreshSources(sources, now).mac, voice))|
    ensures var raw := Raw(IdeaItems(FreshSources(sources, now).mac, voice))[i];
      if i < |voice| then raw == voice[i]
      else
        && MacIsFresh(sources, now) && Get(sources["mac"], "ideas").List?
        && i - |voice| < |Get(sources["mac"], "ideas").items|
        && raw == Get(sources["mac"], "ideas").items[i - |voice|]
  {
    var mac := FreshSource(sources, "mac", now, MAC_MAX_AGE);
    var ideas := Raw(MacList(mac, "ideas"));
    assert Raw(IdeaItems(mac, voice)) <= voice + ideas;
    assert Raw(IdeaItems(mac, voice))[i] == (voice + ideas)[i];
  }

  lemma ListedIdeas(time: IsoTime, sources: Sources, voice: seq<Value>, now: int, ideas: seq<IdeaItem>)
    requires ShowsItems(ideas, Raw(IdeaItems(FreshSources(sources, now).mac, voice)), v => IdeaFrom(time, v))
    ensures IdeasAreFresh(time, sources, voice, now, ideas)
  {
    var raw := Raw(IdeaItems(FreshSources(sources, now).mac, voice));
    forall i | 0 <= i < |ideas| && i < |voice|
      ensures IdeaFrom(time, voice[i]) == Some(ideas[i])
    {
      RawIdea(sources, voice, now, i);
    }
    forall i | |voice| <= i < |ideas|
      ensures FromMacIdeas(time, sources, ideas[i], i - |voice|)
    {
      RawIdea(sources, voice, now, i);
    }
    if |ideas| > |voice| {
      RawIdea(sources, voice, now, |voice|);
    }
  }

  /** No fact is shown from outside its source's freshness window. */
  lemma ShownFactsAreFresh(time: IsoTime, sources: Sources, voice: seq<Value>, now: int)
    requires RoundTrips(time) && Compose(time, sources, voice, now).Some?
    ensures var view := Compose(time, sources, voice, now).value;
      && (view.now.temperatureC.Some? ==> InWindow(view.now.temperatureC.value.observedAt, now, DEVICE_MAX_AGE))
      && (view.now.humidityPct.Some? ==> InWindow(view.now.humidityPct.value.observedAt, now, DEVICE_MAX_AGE))
      && (view.now.weather.Some? ==> InWindow(view.now.weather.value.observedAt, now, HA_MAX_AGE))
      && (view.now.focus.Some? ==> InWindow(view.now.focus.value.observedAt, now, MAC_MAX_AGE))
      && (view.ideas.sdState.Some? ==>
            "device" in sources && InWindow(SeenAt(sources["device"]), now, DEVICE_MAX_AGE))
      && (view.now.latestResult.Some? || view.work.quotaUsage.Some? || view.work.sessions != [] ==>
            MacIsFresh(sources, now))
      && IdeasAreFresh(time, sources, voice, now, view.ideas.items)
  {
    var view, f := Compose(time, sources, voice, now).value, FreshSources(sources, now);
    assert ShowsNow(view.now, f, time) && ShowsWork(view.work, f.mac, time)
           && ShowsIdeas(view.ideas, f.device, f.mac, voice, time) by {
      ShowsFreshFacts(time, sources, voice, now);
    }
    assert IdeasAreFresh(time, sources, voice, now, view.ideas.items) by {
      ListedIdeas(time, sources, voice, now, view.ideas.items);
    }
  }

  // ------------------------------------------------------------------ the assistant cannot change facts

  /** A view with the two texts the assistant owns blanked. */
  function Facts(view: View): View {
    view.(now := NowFacts(view.now))
  }

  /** Two source maps that differ at most in the assistant's entry. */
  ghost predicate SameButAssistant(a: Sources, b: Sources) {
    a - {"assistant"} == b - {"assistant"}
  }

  lemma SameSource(a: Sources, b: Sources, name: string)
    requires SameButAssistant(a, b) && name != "assistant"
    ensures (name in a <==> name in b) && (name in a ==> a[name] == b[name])
  {
    assert name in a <==> name in a - {"assistant"};
    assert name in b <==> name in b - {"assistant"};
    if name in a { assert (a - {"assistant"})[name] == a[name] && (b - {"assistant"})[name] == b[name]; }
  }

  lemma SameFresh(a: Sources, b: Sources, now: int)
    requires SameButAssistant(a, b)
    ensures FreshSources(a, now).(assistant := None) == FreshSources(b, now).(assistant := None)
  {
    SameSource(a, b, "device");
    SameSource(a, b, "ha");
    SameSource(a, b, "mac");
  }

  /** The summary decides only the summary. */
  lemma FocusButSummary(time: IsoTime, focus: Payload, s: Option<Value>, t: Option<Value>)
    requires FocusFrom(time, Dict(WithSummary(focus, s))).Some? && FocusFrom(time, Dict(WithSummary(focus, t))).Some?
    ensures FocusFrom(time, Dict(WithSummary(focus, s))).value.(summary := "")
         == FocusFrom(time, Dict(WithSummary(focus, t))).value.(summary := "")
  {
  }

  /** The now page with the assistant's two texts blanked. */
  function NowFacts(now: NowView): NowView {
    now.(assistantNote := None, focus := if now.focus.Some? then Some(now.focus.value.(summary := "")) else None)
  }

  lemma FocusFieldButSummary(time: IsoTime, mac: Option<Payload>, s: Option<Value>, t: Option<Value>,
                             a: Option<Focus>, b: Option<Focus>)
    requires Optionally(FocusValue(time, mac, s), v => FocusFrom(time, v)) == Some(a)
    requires Optionally(FocusValue(time, mac, t), v => FocusFrom(time, v)) == Some(b)
    ensures a.Some? == b.Some? && (a.Some? ==> a.value.(summary := "") == b.value.(summary := ""))
  {
    if mac.Some? && Get(mac.value, "focus").Dict? {
      FocusButSummary(time, Get(mac.value, "focus").fields["observed_at" := IsoOf(time, mac.value)], s, t);
    }
  }

  /** The now pages of two source maps that differ only in the assistant's entry show the same facts. */
  lemma NowPagesAgree(time: IsoTime, f: Fresh4, g: Fresh4)
    requires f.(assistant := None) == g.(assistant := None)
    requires NowViewFrom(time, NowPageOf(time, f)).Some? && NowViewFrom(time, NowPageOf(time, g)).Some?
    ensures NowFacts(NowViewFrom(time, NowPageOf(time, f)).value)
         == NowFacts(NowViewFrom(time, NowPageOf(time, g)).value)
  {
    var a, b := NowViewFrom(time, NowPageOf(time, f)).value, NowViewFrom(time, NowPageOf(time, g)).value;
    FocusFieldButSummary(time, f.mac, AssistantText(f.assistant, "focus_summary"),
                         AssistantText(g.assistant, "focus_summary"), a.focus, b.focus);
  }

  /** Two source maps that differ only in the assistant's entry show the same facts. */
  lemma NonInterference(time: IsoTime, a: Sources, b: Sources, voice: seq<Value>, now: int)
    requires SameButAssistant(a, b)
    requires Compose(time, a, voice, now).Some? && Compose(time, b, voice, now).Some?
    ensures Facts(Compose(time, a, voice, now).value) == Facts(Compose(time, b, voice, now).value)
  {
    SameFresh(a, b, now);
    NowPagesAgree(time, FreshSources(a, now), FreshSources(b, now));
  }

  /** An assistant entry whose texts no validator refuses. */
  function PlainAssistant(now: int): Payload {
    map["observed_at" := Int(now), "assistant_note" := Text("x"), "focus_summary" := Text("x")]
  }

  predicate NoteFits(assistant: Option<Payload>) {
    var note := AssistantText(assistant, "assistant_note");
    note.Some? ==> CleanText(note.value, 160).Some?
  }

  predicate SummaryFits(mac: Option<Payload>, assistant: Option<Payload>) {
    mac.Some? && Get(mac.value, "focus").Dict? ==>
      CleanText(ShownSummary(Get(mac.value, "focus").fields, AssistantText(assistant, "focus_summary")), 96).Some?
  }

  lemma PlainTextFits(maximum: nat)
    requires maximum > 0
    ensures CleanText(Text("x"), maximum) == Some("x")
  {
    SettledReads("x", maximum);
  }

  /** A focus reads exactly when it reads with a plain summary and its own summary is acceptable. */
  lemma FocusReads(time: IsoTime, focus: Payload, summary: Option<Value>)
    ensures FocusFrom(time, Dict(WithSummary(focus, summary))).Some?
       <==> FocusFrom(time, Dict(WithSummary(focus, Some(Text("x"))))).Some?
            && CleanText(ShownSummary(focus, summary), 96).Some?
  {
    PlainTextFits(96);
  }

  lemma FocusFieldReads(time: IsoTime, mac: Option<Payload>, assistant: Option<Payload>)
    ensures Optionally(FocusValue(time, mac, AssistantText(assistant, "focus_summary")), v => FocusFrom(time, v)).Some?
       <==> Optionally(FocusValue(time, mac, Some(Text("x"))), v => FocusFrom(time, v)).Some?
            && SummaryFits(mac, assistant)
  {
    if mac.Some? && Get(mac.value, "focus").Dict? {
      FocusReads(time, Get(mac.value, "focus").fields["observed_at" := IsoOf(time, mac.value)],
                 AssistantText(assistant, "focus_summary"));
    }
  }

  lemma NoteFieldReads(assistant: Option<Payload>)
    ensures Optionally(AssistantText(assistant, "assistant_note"), v => CleanText(v, 160)).Some?
       <==> NoteFits(assistant)
    ensures Optionally(Some(Text("x")), v => CleanText(v, 160)).Some?
  {
    PlainTextFits(160);
  }

  lemma NowReads(time: IsoTime, f: Fresh4, plain: Fresh4)
    requires plain.(assistant := f.assistant) == f
    requires AssistantText(plain.assistant, "assistant_note") == Some(Text("x"))
    requires AssistantText(plain.assistant, "focus_summary") == Some(Text("x"))
    ensures NowViewFrom(time, NowPageOf(time, f)).Some?
       <==> NowViewFrom(time, NowPageOf(time, plain)).Some? && NoteFits(f.assistant) && SummaryFits(f.mac, f.assistant)
  {
    var summary := AssistantText(f.assistant, "focus_summary");
    assert Optionally(FocusValue(time, f.mac, summary), v => FocusFrom(time, v)).Some?
      <==> Optionally(FocusValue(time, f.mac, Some(Text("x"))), v => FocusFrom(time, v)).Some?
           && SummaryFits(f.mac, f.assistant) by {
      FocusFieldReads(time, f.mac, f.assistant);
    }
    assert Optionally(AssistantText(f.assistant, "assistant_note"), v => CleanText(v, 160)).Some?
      <==> NoteFits(f.assistant) by {
      NoteFieldReads(f.assistant);
    }
    assert Optionally(Some(Text("x")), v => CleanText(v, 160)).Some? by { NoteFieldReads(f.assistant); }
  }

  lemma PlainIsFresh(sources: Sources, now: int)
    ensures FreshSources(sources["assistant" := PlainAssistant(now)], now)
         == FreshSources(sources, now).(assistant := Some(PlainAssistant(now)))
    ensures AssistantText(Some(PlainAssistant(now)), "assistant_note") == Some(Text("x"))
    ensures AssistantText(Some(PlainAssistant(now)), "focus_summary") == Some(Text("x"))
  {
  }

  /**
   * A view composes exactly when it composes with a plain assistant entry and the texts actually shown in
   * the assistant's two places are acceptable: the assistant can block a view only through its own texts.
   */
  lemma AssistantBlocksOnlyByText(time: IsoTime, sources: Sources, voice: seq<Value>, now: int)
    ensures var f := FreshSources(sources, now);
      Compose(time, sources, voice, now).Some?
      <==> Compose(time, sources["assistant" := PlainAssistant(now)], voice, now).Some?
           && NoteFits(f.assistant) && SummaryFits(f.mac, f.assistant)
  {
    var f := FreshSources(sources, now);
    PlainIsFresh(sources, now);
    NowReads(time, f, f.(assistant := Some(PlainAssistant(now))));
  }

  // ------------------------------------------------------------------ the stored sources

  /** One stored row; the payload is read back with the row's own time. */
  datatype Row = Row(observedAt: int, payload: Payload)
  type Rows = map<string, Row>

  function SourcesOf(rows: Rows): Sources {
    map name | name in rows :: rows[name].payload["observed_at" := Int(rows[name].observedAt)]
  }

  datatype SourceUpdate = SourceUpdate(source: string, observedAt: int, payload: Payload)

  predicate Accepts(rows: Rows, u: SourceUpdate) {
    0 < |u.source| <= 32 && (u.source in rows ==> rows[u.source].observedAt <= u.observedAt)
  }

  /** The rows after an update, accepted or refused. */
  function ApplyUpdate(rows: Rows, u: SourceUpdate): Rows {
    if Accepts(rows, u) then rows[u.source := Row(u.observedAt, u.payload)] else rows
  }

  function Replay(rows: Rows, updates: seq<SourceUpdate>): Rows
    decreases |updates|
  {
    if updates == [] then rows else Replay(ApplyUpdate(rows, updates[0]), updates[1..])
  }

  /** Along any run of updates no source is lost and no source's time goes back. */
  lemma {:induction false} SourceTimesNeverFall(rows: Rows, updates: seq<SourceUpdate>, name: string)
    requires name in rows
    ensures name in Replay(rows, updates) && rows[name].observedAt <= Replay(rows, updates)[name].observedAt
    decreases |updates|
  {
    if updates != [] {
      SourceTimesNeverFall(ApplyUpdate(rows, updates[0]), updates[1..], name);
    }
  }

  /** The newest update of a source, the last of them where times are equal, and not older than its row. */
  predicate IsNewest(rows: Rows, updates: seq<SourceUpdate>, name: string, k: nat) {
    && k < |updates| && updates[k].source == name
    && (name in rows ==> rows[name].observedAt <= updates[k].observedAt)
    && (forall j :: 0 <= j < k && updates[j].source == name ==> updates[j].observedAt <= updates[k].observedAt)
    && (forall j :: k < j < |updates| && updates[j].source == name ==> updates[j].observedAt < updates[k].observedAt)
  }

  /** After any run of updates a source's row is that of its newest update, whatever was refused on the way. */
  lemma {:induction false} NewestIsStored(rows: Rows, updates: seq<SourceUpdate>, name: string, k: nat)
    requires 1 <= |name| <= 32 && IsNewest(rows, updates, name, k)
    ensures name in Replay(rows, updates)
    ensures Replay(rows, updates)[name] == Row(updates[k].observedAt, updates[k].payload)
    decreases |updates|
  {
    var next, rest := ApplyUpdate(rows, updates[0]), updates[1..];
    if k == 0 {
      OlderIsRefused(next, rest, name);
    } else {
      assert rest[k - 1] == updates[k];
      NewestIsStored(next, rest, name, k - 1);
    }
  }

  /** Where every update of a source is older than its row, or its name is not allowed, the row stays. */
  lemma {:induction false} OlderIsRefused(rows: Rows, updates: seq<SourceUpdate>, name: string)
    requires forall j :: 0 <= j < |updates| && updates[j].source == name ==>
               !(1 <= |name| <= 32) || (name in rows && updates[j].observedAt < rows[name].observedAt)
    ensures name in Replay(rows, updates) <==> name in rows
    ensures name in rows ==> Replay(rows, updates)[name] == rows[name]
    decreases |updates|
  {
    if updates != [] {
      OlderIsRefused(ApplyUpdate(rows, updates[0]), updates[1..], name);
    }
  }

  /** What is read back: each stored payload, with its row's time. */
  lemma SourcesAreRows(rows: Rows, name: string)
    ensures name in SourcesOf(rows) <==> name in rows
    ensures name in rows ==>
              && SeenAt(SourcesOf(rows)[name]) == rows[name].observedAt
              && SourcesOf(rows)[name] - {"observed_at"} == rows[name].payload - {"observed_at"}
  {
  }

  lemma FreshRow(rows: Rows, name: string, now: int, maxAge: int)
    requires FreshSource(SourcesOf(rows), name, now, maxAge).Some?
    ensures name in rows && SeenAt(FreshSource(SourcesOf(rows), name, now, maxAge).value) == rows[name].observedAt
  {
  }

  /** The time a fact is shown with is its source row's. */
  lemma ShownAtRowTime(time: IsoTime, rows: Rows, voice: seq<Value>, now: int, view: NowView)
    requires RoundTrips(time) && Compose(time, SourcesOf(rows), voice, now).Some?
    requires view == Compose(time, SourcesOf(rows), voice, now).value.now
    ensures view.temperatureC.Some? ==>
              "device" in rows && view.temperatureC.value.observedAt == rows["device"].observedAt
    ensures view.humidityPct.Some? ==>
              "device" in rows && view.humidityPct.value.observedAt == rows["device"].observedAt
    ensures view.weather.Some? ==> "ha" in rows && view.weather.value.observedAt == rows["ha"].observedAt
    ensures view.focus.Some? ==> "mac" in rows && view.focus.value.observedAt == rows["mac"].observedAt
  {
    var f := FreshSources(SourcesOf(rows), now);
    assert ShowsNow(view, f, time) by { ShowsFreshFacts(time, SourcesOf(rows), voice, now); }
    if f.device.Some? { FreshRow(rows, "device", now, DEVICE_MAX_AGE); }
    if f.ha.Some? { FreshRow(rows, "ha", now, HA_MAX_AGE); }
    if f.mac.Some? { FreshRow(rows, "mac", now, MAC_MAX_AGE); }
  }

  /** A later view never shows an older measurement, weather report or focus than an earlier one did. */
  lemma ShownTimesNeverFall(time: IsoTime, rows: Rows, updates: seq<SourceUpdate>,
                            voice: seq<Value>, now: int, laterVoice: seq<Value>, later: int)
    requires RoundTrips(time) && Compose(time, SourcesOf(rows), voice, now).Some?
    requires Compose(time, SourcesOf(Replay(rows, updates)), laterVoice, later).Some?
    ensures var a := Compose(time, SourcesOf(rows), voice, now).value.now;
      var b := Compose(time, SourcesOf(Replay(rows, updates)), laterVoice, later).value.now;
      && (a.temperatureC.Some? && b.temperatureC.Some? ==>
            a.temperatureC.value.observedAt <= b.temperatureC.value.observedAt)
      && (a.humidityPct.Some? && b.humidityPct.Some? ==>
            a.humidityPct.value.observedAt <= b.humidityPct.value.observedAt)
      && (a.weather.Some? && b.weather.Some? ==> a.weather.value.observedAt <= b.weather.value.observedAt)
      && (a.focus.Some? && b.focus.Some? ==> a.focus.value.observedAt <= b.focus.value.observedAt)
  {
    var a := Compose(time, SourcesOf(rows), voice, now).value.now;
    var b := Compose(time, SourcesOf(Replay(rows, updates)), laterVoice, later).value.now;
    ShownAtRowTime(time, rows, voice, now, a);
    ShownAtRowTime(time, Replay(rows, updates), laterVoice, later, b);
    if "device" in rows { SourceTimesNeverFall(rows, updates, "device"); }
    if "ha" in rows { SourceTimesNeverFall(rows, updates, "ha"); }
    if "mac" in rows { SourceTimesNeverFall(rows, updates, "mac"); }
  }

  /** An accepted note, stored by `update_assistant`, fits the view exactly when its expanded form does. */
  lemma AcceptedNoteFits(v: Value, note: string, now: int)
    requires CleanText(v, 160) == Some(note)
    ensures NoteFits(Some(map["observed_at" := Int(now), "assistant_note" := Text(note)])) <==> |note| <= 160
  {
    AcceptedTextReadsBack(v, 160, note);
  }
}
