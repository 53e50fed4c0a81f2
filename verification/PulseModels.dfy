/** The Pulse view's values and the validators that read them from decoded JSON. */
module PulseModels {
  import opened Characters
  import opened Wrappers

  // ------------------------------------------------------------------ values and their validators

  /** A value of a decoded JSON payload; `NonFinite` stands for NaN and the infinities. */
  datatype Value =
    | Null
    | Bool(b: bool)
    | Int(n: int)
    | Float(r: real)
    | NonFinite
    | Text(s: string)
    | List(items: seq<Value>)
    | Dict(fields: Payload)

  type Payload = map<string, Value>

  /** ISO-8601 text of an epoch second (absent outside the calendar's range), and its reader. */
  datatype IsoTime = IsoTime(render: int -> Option<string>, parse: string -> Option<int>)

  ghost predicate RoundTrips(time: IsoTime) {
    forall e :: time.render(e).Some? ==> time.parse(time.render(e).value) == Some(e)
  }

  /** A key's value, `Null` when it is missing. */
  function Get(fields: Payload, key: string): Value {
    if key in fields then fields[key] else Null
  }

  function NumberIn(v: Value, low: real, high: real): (r: Option<real>)
    ensures r.Some? ==> low <= r.value <= high
  {
    if v.Int? && low <= v.n as real <= high then Some(v.n as real)
    else if v.Float? && low <= v.r <= high then Some(v.r)
    else None
  }

  function Percentage(v: Value): Option<int> {
    match NumberIn(v, 0.0, 100.0)
    case Some(r) => if r == r.Floor as real then Some(r.Floor) else None
    case None => None
  }

  function Stamp(time: IsoTime, v: Value): Option<int> {
    if v.Text? then time.parse(v.s) else None
  }

  function ReplaceCrLf(s: string): string {
    if |s| < 2 then s
    else if s[0] == '\r' && s[1] == '\n' then "\n" + ReplaceCrLf(s[2..])
    else [s[0]] + ReplaceCrLf(s[1..])
  }

  function ReplaceCr(s: string): string {
    seq(|s|, i requires 0 <= i < |s| => if s[i] == '\r' then '\n' else s[i])
  }

  function Strip(s: string): (r: string)
    ensures r == "" || (!IsSpace(r[0]) && !IsSpace(r[|r| - 1]))
  {
    RStrip(LStrip(s))
  }

  function ExpandTabs(s: string): string {
    if s == "" then "" else (if s[0] == '\t' then "    " else [s[0]]) + ExpandTabs(s[1..])
  }

  /** A stripped text within its limit and without control characters other than newline and tab. */
  predicate Admissible(s: string, maximum: nat) {
    0 < |s| <= maximum && forall i :: 0 <= i < |s| ==> !IsForbiddenControl(s[i])
  }

  function CleanText(v: Value, maximum: nat): Option<string> {
    if !v.Text? then None
    else
      var normalized := Strip(ReplaceCr(ReplaceCrLf(v.s)));
      if Admissible(normalized, maximum) then Some(ExpandTabs(normalized)) else None
  }

  // ------------------------------------------------------------------ the view

  datatype ObservedNumber = ObservedNumber(value: real, observedAt: int)
  datatype Weather = Weather(condition: string, lowC: real, highC: real, observedAt: int)
  datatype Focus = Focus(title: string, summary: string, progressPct: Option<int>, observedAt: int)
  datatype LatestResult = LatestResult(text: string, verifiedAt: int)
  datatype QuotaUsage = QuotaUsage(fiveHourPct: int, weeklyPct: int, observedAt: int)
  datatype SessionItem = SessionItem(title: string, priority: string, status: string)
  datatype IdeaItem = IdeaItem(title: string, state: string, capturedAt: int)

  datatype NowView = NowView(
    temperatureC: Option<ObservedNumber>, humidityPct: Option<ObservedNumber>, weather: Option<Weather>,
    assistantNote: Option<string>, focus: Option<Focus>, latestResult: Option<LatestResult>)
  datatype WorkView = WorkView(quotaUsage: Option<QuotaUsage>, sessions: seq<SessionItem>)
  datatype IdeasView = IdeasView(items: seq<IdeaItem>, sdState: Option<string>)
  datatype View = View(generatedAt: int, now: NowView, work: WorkView, ideas: IdeasView)

  function ObservedNumberFrom(time: IsoTime, v: Value, low: real, high: real): Option<ObservedNumber> {
    if !v.Dict? || v.fields.Keys != {"value", "observed_at"} then None
    else
      match (NumberIn(v.fields["value"], low, high), Stamp(time, v.fields["observed_at"]))
      case (Some(n), Some(at)) => Some(ObservedNumber(n, at))
      case _ => None
  }

  function WeatherFrom(time: IsoTime, v: Value): Option<Weather> {
    if !v.Dict? || !(v.fields.Keys <= {"condition", "low_c", "high_c", "observed_at"}) then None
    else
      var low, high := NumberIn(Get(v.fields, "low_c"), -60.0, 70.0), NumberIn(Get(v.fields, "high_c"), -60.0, 70.0);
      match (CleanText(Get(v.fields, "condition"), 20), Stamp(time, Get(v.fields, "observed_at")))
      case (Some(condition), Some(at)) =>
        if low.Some? && high.Some? && low.value <= high.value
        then Some(Weather(condition, low.value, high.value, at)) else None
      case _ => None
  }

  /** A percentage that may be missing; the outer option is the validator's verdict. */
  function OptionalPercentage(v: Value): Option<Option<int>> {
    if v.Null? then Some(None) else if Percentage(v).Some? then Some(Percentage(v)) else None
  }

  function FocusFrom(time: IsoTime, v: Value): Option<Focus> {
    if !v.Dict? || !(v.fields.Keys <= {"title", "summary", "progress_pct", "observed_at"}) then None
    else
      var progress := OptionalPercentage(Get(v.fields, "progress_pct"));
      var summary := CleanText(Get(v.fields, "summary"), 96);
      match (CleanText(Get(v.fields, "title"), 48), Stamp(time, Get(v.fields, "observed_at")))
      case (Some(title), Some(at)) =>
        if summary.Some? && progress.Some? then Some(Focus(title, summary.value, progress.value, at)) else None
      case _ => None
  }

  function LatestFrom(time: IsoTime, v: Value): Option<LatestResult> {
    if !v.Dict? || !(v.fields.Keys <= {"text", "verified_at"}) then None
    else
      match (CleanText(Get(v.fields, "text"), 100), Stamp(time, Get(v.fields, "verified_at")))
      case (Some(text), Some(at)) => Some(LatestResult(text, at))
      case _ => None
  }

  function QuotaFrom(time: IsoTime, v: Value): Option<QuotaUsage> {
    if !v.Dict? || !(v.fields.Keys <= {"five_hour_pct", "weekly_pct", "observed_at"}) then None
    else
      var five, weekly := Percentage(Get(v.fields, "five_hour_pct")), Percentage(Get(v.fields, "weekly_pct"));
      match Stamp(time, Get(v.fields, "observed_at"))
      case Some(at) => if five.Some? && weekly.Some? then Some(QuotaUsage(five.value, weekly.value, at)) else None
      case None => None
  }

  function SessionFrom(v: Value): Option<SessionItem> {
    if !v.Dict? || !(v.fields.Keys <= {"title", "priority", "status"}) then None
    else
      match (CleanText(Get(v.fields, "title"), 48), CleanText(Get(v.fields, "priority"), 8))
      case (Some(title), Some(priority)) =>
        var status := CleanText(Get(v.fields, "status"), 72);
        if status.Some? then Some(SessionItem(title, priority, status.value)) else None
      case _ => None
  }

  function IdeaFrom(time: IsoTime, v: Value): Option<IdeaItem> {
    if !v.Dict? || !(v.fields.Keys <= {"title", "state", "captured_at"}) then None
    else
      match (CleanText(Get(v.fields, "title"), 72), CleanText(Get(v.fields, "state"), 16))
      case (Some(title), Some(state)) =>
        var at := Stamp(time, Get(v.fields, "captured_at"));
        if at.Some? then Some(IdeaItem(title, state, at.value)) else None
      case _ => None
  }

  /** Every item read in order, or nothing when one of them is refused. */
  function AllOf<T>(items: seq<Value>, read: Value -> Option<T>): (r: Option<seq<T>>)
    ensures r.Some? <==> forall i :: 0 <= i < |items| ==> read(items[i]).Some?
    ensures r.Some? ==> |r.value| == |items| && forall i :: 0 <= i < |items| ==> Some(r.value[i]) == read(items[i])
  {
    if items == [] then Some([])
    else
      match (read(items[0]), AllOf(items[1..], read))
      case (Some(first), Some(rest)) => Some([first] + rest)
      case _ => None
  }

  function Items<T>(items: seq<Value>, read: Value -> Option<T>): Option<seq<T>> {
    if |items| > 3 then None else AllOf(items, read)
  }

  function SdStateFrom(v: Value): Option<Option<string>> {
    if v.Null? then Some(None)
    else if v.Text? && v.s in {"ready", "missing", "error"} then Some(Some(v.s))
    else None
  }

  // ------------------------------------------------------------------ pages before validation

  /** A page under composition: the dictionary's fixed keys, each present or missing. */
  datatype NowPage = NowPage(
    temperatureC: Option<Value>, humidityPct: Option<Value>, weather: Option<Value>,
    assistantNote: Option<Value>, focus: Option<Value>, latestResult: Option<Value>)
  datatype WorkPage = WorkPage(quotaUsage: Option<Value>, sessions: Option<Value>)
  datatype IdeasPage = IdeasPage(items: Option<Value>, sdState: Option<Value>)

  /** A field that may be missing or null; the outer option is the validator's verdict. */
  function Optionally<T>(v: Option<Value>, read: Value -> Option<T>): Option<Option<T>> {
    if v.None? || v.value.Null? then Some(None)
    else if read(v.value).Some? then Some(read(v.value)) else None
  }

  function ItemsFrom<T>(v: Option<Value>, read: Value -> Option<T>): Option<seq<T>> {
    if v.None? then Some([]) else if v.value.List? then Items(v.value.items, read) else None
  }

  function NowViewFrom(time: IsoTime, page: NowPage): Option<NowView> {
    var temperature := Optionally(page.temperatureC, v => ObservedNumberFrom(time, v, -40.0, 125.0));
    var humidity := Optionally(page.humidityPct, v => ObservedNumberFrom(time, v, 0.0, 100.0));
    var weather := Optionally(page.weather, v => WeatherFrom(time, v));
    var note := Optionally(page.assistantNote, v => CleanText(v, 160));
    var focus := Optionally(page.focus, v => FocusFrom(time, v));
    var latest := Optionally(page.latestResult, v => LatestFrom(time, v));
    if temperature.Some? && humidity.Some? && weather.Some? && note.Some? && focus.Some? && latest.Some?
    then Some(NowView(temperature.value, humidity.value, weather.value, note.value, focus.value, latest.value))
    else None
  }

  function WorkViewFrom(time: IsoTime, page: WorkPage): Option<WorkView> {
    match (ItemsFrom(page.sessions, SessionFrom), Optionally(page.quotaUsage, v => QuotaFrom(time, v)))
    case (Some(sessions), Some(quota)) => Some(WorkView(quota, sessions))
    case _ => None
  }

  function IdeasViewFrom(time: IsoTime, page: IdeasPage): Option<IdeasView> {
    match (ItemsFrom(page.items, v => IdeaFrom(time, v)),
           SdStateFrom(if page.sdState.Some? then page.sdState.value else Null))
    case (Some(items), Some(sd)) => Some(IdeasView(items, sd))
    case _ => None
  }

  function ViewFrom(time: IsoTime, generatedAt: Value, now: NowPage, work: WorkPage, ideas: IdeasPage): Option<View> {
    match (Stamp(time, generatedAt), NowViewFrom(time, now))
    case (Some(at), Some(page)) =>
      var workView, ideasView := WorkViewFrom(time, work), IdeasViewFrom(time, ideas);
      if workView.Some? && ideasView.Some? then Some(View(at, page, workView.value, ideasView.value)) else None
    case _ => None
  }

  // ------------------------------------------------------------------ a validated text read again

  lemma {:induction false} CrLfIdle(s: string)
    requires '\r' !in s
    ensures ReplaceCrLf(s) == s
  {
    if |s| >= 2 {
      CrLfIdle(s[1..]);
      assert s == [s[0]] + s[1..];
    }
  }

  lemma StripIdle(s: string)
    requires s != "" && !IsSpace(s[0]) && !IsSpace(s[|s| - 1])
    ensures Strip(s) == s
  {
  }

  /** Tab expansion keeps the ends of a text that has no tab there, and leaves no tab and no new control. */
  lemma {:induction false} ExpandKeeps(s: string)
    ensures '\t' !in ExpandTabs(s) && ('\r' !in s ==> '\r' !in ExpandTabs(s))
    ensures forall i :: 0 <= i < |ExpandTabs(s)| ==> ExpandTabs(s)[i] == ' ' || ExpandTabs(s)[i] in s
    ensures s != "" ==> ExpandTabs(s) != "" && (s[0] != '\t' ==> ExpandTabs(s)[0] == s[0])
    ensures s != "" && s[|s| - 1] != '\t' ==> ExpandTabs(s)[|ExpandTabs(s)| - 1] == s[|s| - 1]
  {
    if s != "" {
      ExpandKeeps(s[1..]);
      var first := if s[0] == '\t' then "    " else [s[0]];
      var rest := ExpandTabs(s[1..]);
      forall i | 0 <= i < |first + rest|
        ensures (first + rest)[i] != '\t' && ((first + rest)[i] == ' ' || (first + rest)[i] in s)
      {
        if i >= |first| { assert (first + rest)[i] == rest[i - |first|]; }
      }
      if |s| > 1 {
        assert s[|s| - 1] == s[1..][|s| - 2];
      }
    }
  }

  lemma {:induction false} ExpandIdle(s: string)
    requires '\t' !in s
    ensures ExpandTabs(s) == s
  {
    if s != "" {
      ExpandIdle(s[1..]);
      assert s == [s[0]] + s[1..];
    }
  }

  /** A text a validation leaves as it is, whatever its length. */
  ghost predicate Settled(s: string) {
    && s != "" && !IsSpace(s[0]) && !IsSpace(s[|s| - 1])
    && forall c :: c in s ==> c != '\t' && c != '\r' && (IsControl(c) ==> c == '\n')
  }

  lemma NormalizedIdle(s: string)
    requires s != "" && !IsSpace(s[0]) && !IsSpace(s[|s| - 1]) && '\r' !in s
    ensures Strip(ReplaceCr(ReplaceCrLf(s))) == s
  {
    CrLfIdle(s);
    assert ReplaceCr(s) == s;
    StripIdle(s);
  }

  lemma SettledReads(s: string, maximum: nat)
    requires Settled(s)
    ensures CleanText(Text(s), maximum) == if |s| <= maximum then Some(s) else None
  {
    NormalizedIdle(s);
    ExpandIdle(s);
    forall i | 0 <= i < |s| ensures IsControl(s[i]) ==> s[i] == '\n' { assert s[i] in s; }
  }

  lemma ExpandedIsSettled(n: string, maximum: nat)
    requires Admissible(n, maximum) && !IsSpace(n[0]) && !IsSpace(n[|n| - 1])
    ensures Settled(ExpandTabs(n))
  {
    var t := ExpandTabs(n);
    ExpandKeeps(n);
    forall c | c in t ensures c != '\t' && c != '\r' && (IsControl(c) ==> c == '\n') {
      if c != ' ' {
        assert c in n by {
          var k :| 0 <= k < |t| && t[k] == c;
        }
        var i :| 0 <= i < |n| && n[i] == c;
      }
    }
  }

  /**
   * A text that one validation accepted is accepted by a second one with the same limit exactly when its
   * expanded form still fits, and then comes back unchanged.
   */
  lemma AcceptedTextReadsBack(v: Value, maximum: nat, text: string)
    requires CleanText(v, maximum) == Some(text)
    ensures CleanText(Text(text), maximum) == if |text| <= maximum then Some(text) else None
  {
    var n := Strip(ReplaceCr(ReplaceCrLf(v.s)));
    ExpandedIsSettled(n, maximum);
    SettledReads(text, maximum);
  }

  function Tabbed(tabs: nat): string {
    "a" + seq(tabs, _ => '\t') + "b"
  }

  lemma {:induction false} TabsExpand(tabs: nat)
    ensures |ExpandTabs(seq(tabs, _ => '\t') + "b")| == 4 * tabs + 1
  {
    var s := seq(tabs, _ => '\t') + "b";
    if tabs == 0 {
      assert s == "b" && s[1..] == "";
    } else {
      assert s[1..] == seq(tabs - 1, _ => '\t') + "b";
      TabsExpand(tabs - 1);
    }
  }

  /** A short text full of tabs is accepted once and refused the second time. */
  lemma TabbedNoteIsRefused(tabs: nat)
    requires 40 <= tabs <= 158
    ensures CleanText(Text(Tabbed(tabs)), 160).Some?
    ensures CleanText(Text(CleanText(Text(Tabbed(tabs)), 160).value), 160).None?
  {
    var s := Tabbed(tabs);
    NormalizedIdle(s);
    assert Admissible(s, 160);
    assert |ExpandTabs(s)| == 4 * tabs + 2 by {
      assert s[1..] == seq(tabs, _ => '\t') + "b";
      TabsExpand(tabs);
    }
    AcceptedTextReadsBack(Text(s), 160, ExpandTabs(s));
  }
}
