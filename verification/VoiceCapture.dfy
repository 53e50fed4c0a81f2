/**
 * The voice recorder: a state machine advanced by `Update`, holding the storage lock from the first
 * block to the saved or abandoned file. Microphone, clock and card answers are parameters or free; their
 * refusals are counted, so that a recording can be seen to fail only because of one.
 */
module VoiceCapture {
  import opened Wrappers
  import opened Bytes

  const SAMPLE_RATE := 16000
  const BLOCK_SAMPLES := 1024
  const MAX_SAMPLES := SAMPLE_RATE * 60
  const STOP_GUARD_US := 1_200_000
  const UPLOAD_LIMIT := 2 * 1024 * 1024

  datatype State = Idle | Recording | Stopping
  datatype Event = NoEvent | Started | Saved | Failed

  // ------------------------------------------------------------------ the WAV header

  function Le16(value: nat): (r: Bytes)
    ensures |r| == 2
  {
    [value % 256, value / 256 % 256]
  }

  function Le32(value: nat): (r: Bytes)
    ensures |r| == 4
  {
    [value % 256, value / 256 % 256, value / 65536 % 256, value / 16777216 % 256]
  }

  function FromLe32(b: Bytes, at: nat): nat
    requires at + 4 <= |b|
  {
    (b[at] as int) + 256 * (b[at + 1] as int) + 65536 * (b[at + 2] as int) + 16777216 * (b[at + 3] as int)
  }

  const RIFF: Bytes := [0x52, 0x49, 0x46, 0x46]
  const WAVE_FMT: Bytes := [0x57, 0x41, 0x56, 0x45, 0x66, 0x6D, 0x74, 0x20]
  const DATA: Bytes := [0x64, 0x61, 0x74, 0x61]

  function Header(sampleCount: nat): (r: Bytes)
    ensures |r| == 44
  {
    var dataBytes := sampleCount * 2;
    RIFF + Le32(36 + dataBytes) + WAVE_FMT + Le32(16) + Le16(1) + Le16(1) + Le32(SAMPLE_RATE)
    + Le32(SAMPLE_RATE * 2) + Le16(2) + Le16(16) + DATA + Le32(dataBytes)
  }

  lemma Le32RoundTrip(value: nat)
    requires value < 0x1_0000_0000
    ensures FromLe32(Le32(value), 0) == value
  {
    var a, b, c := value / 256, value / 65536, value / 16777216;
    assert value == 256 * a + value % 256;
    assert a / 256 == b && b / 256 == c by {
      assert value == 65536 * b + value % 65536;
      assert value == 16777216 * c + value % 16777216;
    }
    assert a == 256 * b + a % 256 && b == 256 * c + b % 256;
  }

  function FromLe16(b: Bytes, at: nat): nat
    requires at + 2 <= |b|
  {
    (b[at] as int) + 256 * (b[at + 1] as int)
  }

  /** The sizes a WAV file states, of everything after them and of the samples, and its format: 16-bit mono PCM. */
  ghost predicate HeaderSays(file: Bytes, samples: nat) {
    && |file| == 44 + 2 * samples
    && file[..4] == RIFF && file[8..16] == WAVE_FMT && file[36..40] == DATA
    && FromLe32(file, 4) + 8 == |file|
    && FromLe32(file, 40) + 44 == |file|
    && FromLe32(file, 24) == SAMPLE_RATE
    && SaysMonoPcm(file)
  }

  /** A 16-byte format chunk: PCM, one channel, 16 bits a sample, two bytes a frame, and the rate that makes. */
  predicate SaysMonoPcm(file: Bytes)
    requires |file| >= 44
  {
    && FromLe32(file, 16) == 16 && FromLe16(file, 20) == 1 && FromLe16(file, 22) == 1
    && FromLe32(file, 28) == 2 * FromLe32(file, 24) && FromLe16(file, 32) == 2 && FromLe16(file, 34) == 16
  }

  lemma HeaderIsMonoPcm(samples: nat, data: Bytes)
    ensures SaysMonoPcm(Header(samples) + data)
  {
    var file := Header(samples) + data;
    assert file[16..20] == Le32(16) && file[20..22] == Le16(1) && file[22..24] == Le16(1);
    assert file[24..28] == Le32(SAMPLE_RATE) && file[28..32] == Le32(SAMPLE_RATE * 2);
    assert file[32..34] == Le16(2) && file[34..36] == Le16(16);
    Le32RoundTrip(16);
    Le32RoundTrip(SAMPLE_RATE);
    Le32RoundTrip(SAMPLE_RATE * 2);
    forall at | at in {16, 24, 28}
      ensures FromLe32(file, at) == FromLe32(file[at..at + 4], 0)
    {
    }
    forall at | at in {20, 22, 32, 34}
      ensures FromLe16(file, at) == FromLe16(file[at..at + 2], 0)
    {
    }
  }

  lemma HeaderIsRight(samples: nat, data: Bytes)
    requires |data| == 2 * samples && 36 + 2 * samples < 0x1_0000_0000
    ensures HeaderSays(Header(samples) + data, samples)
  {
    var file := Header(samples) + data;
    HeaderIsMonoPcm(samples, data);
    Le32RoundTrip(36 + 2 * samples);
    Le32RoundTrip(2 * samples);
    Le32RoundTrip(SAMPLE_RATE);
    assert file[4..8] == Le32(36 + 2 * samples);
    assert file[24..28] == Le32(SAMPLE_RATE);
    assert file[40..44] == Le32(2 * samples);
    forall at | at in {4, 24, 40}
      ensures FromLe32(file, at) == FromLe32(file[at..at + 4], 0)
    {
    }
  }

  /** Every recording the limits allow is within what the uploader and the gateway take. */
  lemma SavedFileFitsUpload(samples: nat)
    requires samples <= MAX_SAMPLES + BLOCK_SAMPLES && samples % BLOCK_SAMPLES == 0
    ensures samples <= 960_512 && 44 + 2 * samples <= UPLOAD_LIMIT
  {
  }

  /** What the microphone gave since the last step: a whole block, or nothing while it is still at it. */
  function Heard(micBusy: bool, block: Bytes): Bytes {
    if micBusy then [] else block
  }

  /** A WAV file of these samples, within the upload limit, that says how long it is. */
  ghost predicate IsWav(file: Bytes, data: Bytes) {
    HeaderSays(file, |data| / 2) && file[44..] == data && |data| % 2 == 0 && 44 < |file| <= UPLOAD_LIMIT
  }

  lemma RecordingIsWav(samples: nat, data: Bytes)
    requires 0 < samples <= 960_512 && |data| == 2 * samples
    ensures IsWav(Header(samples) + data, data)
  {
    HeaderIsRight(samples, data);
    SamplesFollow(Header(samples), samples, data);
  }

  lemma SamplesFollow(head: Bytes, samples: nat, data: Bytes)
    requires 0 < samples <= 960_512 && |data| == 2 * samples && |head| == 44
    requires HeaderSays(head + data, samples)
    ensures IsWav(head + data, data)
  {
    assert (head + data)[|head|..] == data;
  }

  /** One such file was added. */
  ghost predicate AddsWav(before: map<string, Bytes>, after: map<string, Bytes>, path: string, data: Bytes) {
    exists file: Bytes :: IsWav(file, data) && after == before[path := file]
  }

  // ------------------------------------------------------------------ the event record

  /** Whether a recording is under way after these events. */
  predicate Open(events: seq<Event>) {
    events != [] &&
    match events[|events| - 1]
    case Started => true
    case NoEvent => Open(events[..|events| - 1])
    case _ => false
  }

  /** A recording starts only when none is under way, and only one under way is saved. */
  predicate Orderly(events: seq<Event>) {
    events == [] ||
    var before := events[..|events| - 1];
    && Orderly(before)
    && match events[|events| - 1]
       case Started => !Open(before)
       case Saved => Open(before)
       case _ => true
  }

  /**
   * In an orderly record, between one start and the next the recording was closed by a save or a
   * failure, and nothing is saved after that first close; further failures are refused starts.
   */
  lemma {:induction false} StartIsClosedOnce(events: seq<Event>, start: nat, next: nat)
    requires Orderly(events) && start < next < |events|
    requires events[start] == Started && events[next] == Started
    requires forall k :: start < k < next ==> events[k] != Started
    ensures exists close :: start < close < next && (events[close] == Saved || events[close] == Failed)
    ensures forall a, b :: start < a < b < next && (events[a] == Saved || events[a] == Failed) ==> events[b] != Saved
    decreases |events|
  {
    var last := |events| - 1;
    if next < last {
      StartIsClosedOnce(events[..last], start, next);
      assert forall k :: 0 <= k < last ==> events[..last][k] == events[k];
    } else {
      OrderlyPrefix(events, next);
      ClosedBefore(events[..next], start);
      assert forall k :: 0 <= k < next ==> events[..next][k] == events[k];
      forall a, b | start < a < b < next && (events[a] == Saved || events[a] == Failed)
        ensures events[b] != Saved
      {
        OrderlyPrefix(events, b + 1);
        assert events[..b + 1][..b] == events[..b];
        NotOpenAfterClose(events[..b], a);
        assert events[..b + 1][b] == events[b];
      }
    }
  }

  lemma {:induction false} OrderlyPrefix(events: seq<Event>, n: nat)
    requires Orderly(events) && n <= |events|
    ensures Orderly(events[..n])
    decreases |events|
  {
    if n < |events| {
      OrderlyPrefix(events[..|events| - 1], n);
      assert events[..|events| - 1][..n] == events[..n];
    } else {
      assert events[..n] == events;
    }
  }

  lemma {:induction false} ClosedBefore(events: seq<Event>, start: nat)
    requires start < |events| && events[start] == Started && !Open(events)
    ensures exists close :: start < close < |events| && (events[close] == Saved || events[close] == Failed)
    decreases |events|
  {
    var last := |events| - 1;
    if start < last && events[last] == NoEvent {
      ClosedBefore(events[..last], start);
      var close :| start < close < last && (events[..last][close] == Saved || events[..last][close] == Failed);
      assert events[close] == events[..last][close];
    } else {
      assert start < last && (events[last] == Saved || events[last] == Failed);
    }
  }

  lemma {:induction false} NotOpenAfterClose(events: seq<Event>, close: nat)
    requires close < |events| && (events[close] == Saved || events[close] == Failed)
    requires forall k :: close < k < |events| ==> events[k] != Started
    ensures !Open(events)
    decreases |events|
  {
    var last := |events| - 1;
    if close < last && events[last] == NoEvent {
      NotOpenAfterClose(events[..last], close);
    }
  }

  // ------------------------------------------------------------------ the recorder

  /** A toggle asks for a stop once the debounce guard has passed. */
  predicate StopAsked(toggleRequested: bool, nowUs: int, startedUs: int) {
    toggleRequested && nowUs - startedUs >= STOP_GUARD_US
  }

  class VoiceCapture {
    var state: State
    var blockPending: bool
    var samplesWritten: nat
    var recordingStartedUs: int
    var output: Option<Bytes>
    var finalPath: string
    var saved: map<string, Bytes>
    var lockHeld: bool
    ghost var recorded: Bytes
    ghost var events: seq<Event>
    ghost var refusals: nat

    predicate Active()
      reads this
    {
      state == Recording || state == Stopping
    }

    /** Between updates: the lock is held exactly while recording, and the open file holds what was recorded. */
    ghost predicate Valid()
      reads this
    {
      && (lockHeld <==> Active())
      && (output.Some? <==> Active())
      && (Active() ==> blockPending && samplesWritten < MAX_SAMPLES && OutputOk())
      && (!Active() ==> !blockPending && samplesWritten == 0)
      && Orderly(events) && (Open(events) <==> Active())
    }

    ghost predicate OutputOk()
      reads this
    {
      && output.Some? && output.value == Header(0) + recorded
      && |recorded| == 2 * samplesWritten && samplesWritten % BLOCK_SAMPLES == 0
    }

    constructor ()
      ensures Valid() && state == Idle && !lockHeld && saved == map[] && events == []
    {
      state, blockPending, samplesWritten, recordingStartedUs := Idle, false, 0, 0;
      output, finalPath, saved, lockHeld := None, "", map[], false;
      recorded, events, refusals := [], [], 0;
    }

    /** An answer of the card or the microphone. */
    method Ask() returns (ok: bool)
      modifies this`refusals
      ensures refusals == old(refusals) + if ok then 0 else 1
    {
      ok := *;
      if !ok { refusals := refusals + 1; }
    }

    method ResetState()
      modifies this
      ensures state == Idle && !blockPending && samplesWritten == 0 && output == None
      ensures saved == old(saved) && lockHeld == old(lockHeld) && events == old(events) && refusals == old(refusals)
    {
      output := None;
      blockPending := false;
      samplesWritten := 0;
      recordingStartedUs := 0;
      state := Idle;
      finalPath := "";
    }

    method FailCapture() returns (event: Event)
      requires lockHeld
      modifies this
      ensures event == Failed && state == Idle && !lockHeld && !blockPending && samplesWritten == 0 && output == None
      ensures saved == old(saved) && events == old(events) && refusals == old(refusals)
    {
      lockHeld := false;
      ResetState();
      return Failed;
    }

    method QueueBlock() returns (ok: bool)
      modifies this`blockPending, this`refusals
      ensures ok == blockPending && refusals == old(refusals) + if ok then 0 else 1
    {
      blockPending := Ask();
      ok := blockPending;
    }

    /** The part of the start that takes the card's lock and opens the file, with a header to be rewritten. */
    method OpenOutput(path: string) returns (ok: bool)
      requires state == Idle && !lockHeld && !blockPending && samplesWritten == 0 && output == None
      modifies this
      ensures ok ==> lockHeld && output == Some(Header(0)) && finalPath == path
      ensures !ok ==> !lockHeld && output == None
      ensures ok <==> refusals == old(refusals)
      ensures refusals >= old(refusals)
      ensures state == Idle && !blockPending && samplesWritten == 0
      ensures saved == old(saved) && events == old(events)
    {
      ok := false;
      var cardInserted := Ask();
      if !cardInserted { return; }
      lockHeld := true;
      var directories := Ask();
      if !directories {
        lockHeld := false;
        return;
      }
      finalPath := path;
      var fileOpens := Ask();
      if !fileOpens {
        lockHeld := false;
        return;
      }
      output := Some([]);
      var headerWritten := Ask();
      if !headerWritten {
        var failed := FailCapture();
        return;
      }
      output := Some(Header(0));
      return true;
    }

    method BeginCapture(path: string, nowUs: int) returns (event: Event)
      requires state == Idle && !lockHeld && !blockPending && samplesWritten == 0 && output == None
      modifies this
      ensures event == Started || event == Failed
      ensures event == Started ==> finalPath == path && recordingStartedUs == nowUs && recorded == []
      ensures event == Started ==> state == Recording && lockHeld && blockPending && samplesWritten == 0 && OutputOk()
      ensures event == Failed ==> state == Idle && !lockHeld && !blockPending && samplesWritten == 0 && output == None
      ensures event == Failed <==> refusals > old(refusals)
      ensures saved == old(saved) && events == old(events)
    {
      var fileOpen := OpenOutput(path);
      if !fileOpen { return Failed; }
      recorded := [];
      var microphoneReady := Ask();
      if !microphoneReady {
        event := FailCapture();
        return;
      }
      var queued := QueueBlock();
      if !queued {
        event := FailCapture();
        return;
      }
      assert Header(0) + [] == Header(0);
      state := Recording;
      recordingStartedUs := nowUs;
      return Started;
    }

    /** The header is rewritten in place with the final count; then the file gets its name. */
    method FinalizeCapture() returns (event: Event)
      requires lockHeld && OutputOk() && samplesWritten <= 960_512
      modifies this
      ensures event == Saved || event == Failed
      ensures state == Idle && !lockHeld && !blockPending && samplesWritten == 0 && output == None
      ensures event == Failed ==> saved == old(saved)
      ensures event == Failed <==> old(samplesWritten) == 0 || refusals > old(refusals)
      ensures event == Saved ==> saved == old(saved)[old(finalPath) := Header(old(samplesWritten)) + old(recorded)]
      ensures events == old(events)
    {
      var flushed := Ask();
      if !flushed {
        event := FailCapture();
        return;
      }
      var file := Header(samplesWritten) + output.value[44..];
      assert output.value[44..] == recorded;
      var closed := Ask();
      if !closed {
        output := None;
        event := FailCapture();
        return;
      }
      output := None;
      var renamed := samplesWritten > 0;
      if renamed {
        renamed := Ask();
      }
      if !renamed {
        lockHeld := false;
        ResetState();
        return Failed;
      }
      lockHeld := false;
      saved := saved[finalPath := file];
      ResetState();
      return Saved;
    }

    /** What `FinalizeCapture` gives a reader of the card. */
    method FinalizeToWav() returns (event: Event)
      requires lockHeld && OutputOk() && samplesWritten <= 960_512
      modifies this
      ensures event == Saved || event == Failed
      ensures state == Idle && !lockHeld && !blockPending && samplesWritten == 0 && output == None
      ensures event == Failed ==> saved == old(saved)
      ensures event == Failed <==> old(samplesWritten) == 0 || refusals > old(refusals)
      ensures event == Saved ==> AddsWav(old(saved), saved, old(finalPath), old(recorded))
      ensures events == old(events)
    {
      ghost var samples := samplesWritten;
      ghost var file := Header(samples) + recorded;
      if samples > 0 {
        RecordingIsWav(samples, recorded);
      }
      event := FinalizeCapture();
      assert event == Saved ==> saved == old(saved)[old(finalPath) := file];
    }

    /** Appends the finished block to the file. */
    method StreamBlock(block: Bytes) returns (ok: bool)
      requires OutputOk() && |block| == 2 * BLOCK_SAMPLES
      modifies this`blockPending, this`output, this`recorded, this`samplesWritten, this`refusals
      ensures !blockPending && refusals == old(refusals) + if ok then 0 else 1
      ensures ok ==> OutputOk() && samplesWritten == old(samplesWritten) + BLOCK_SAMPLES
      ensures ok ==> recorded == old(recorded) + block
    {
      blockPending := false;
      ok := Ask();
      if ok {
        assert Header(0) + recorded + block == Header(0) + (recorded + block);
        output := Some(output.value + block);
        recorded := recorded + block;
        samplesWritten := samplesWritten + BLOCK_SAMPLES;
      }
    }

    /** After the block, if any, is streamed: note a stop, then queue the next block or finish. */
    method NextBlockOrFinish(stopRequested: bool) returns (event: Event)
      requires Active() && lockHeld && OutputOk() && samplesWritten <= 960_512
      requires if blockPending then samplesWritten < MAX_SAMPLES else samplesWritten > 0
      modifies this
      ensures event == Failed <==> refusals > old(refusals)
      ensures event != Started && events == old(events)
      ensures event == NoEvent ==> Active() && lockHeld && blockPending && samplesWritten < MAX_SAMPLES && OutputOk()
      ensures event == NoEvent ==> finalPath == old(finalPath) && recordingStartedUs == old(recordingStartedUs)
      ensures event == NoEvent ==> recorded == old(recorded) && samplesWritten == old(samplesWritten)
      ensures event != NoEvent ==> state == Idle && !lockHeld && !blockPending && samplesWritten == 0 && output == None
      ensures event != Saved ==> saved == old(saved)
      ensures event == Saved ==> old(samplesWritten) > 0
      ensures var stops := stopRequested || old(state) == Stopping || old(samplesWritten) >= MAX_SAMPLES;
              && (event != Failed ==> (event == Saved <==> stops && !old(blockPending)))
              && (event == NoEvent ==> state == if stops then Stopping else Recording)
      ensures event == Saved ==> AddsWav(old(saved), saved, old(finalPath), old(recorded))
    {
      if state == Recording && (stopRequested || samplesWritten >= MAX_SAMPLES) {
        state := Stopping;
      }
      if state == Recording && !blockPending {
        var queued := QueueBlock();
        if !queued {
          event := FailCapture();
          return;
        }
      }
      if state == Stopping && !blockPending {
        event := FinalizeToWav();
        return;
      }
      return NoEvent;
    }

    /** Streams the pending block once the microphone has filled it. */
    method StreamPending(micBusy: bool, block: Bytes) returns (ok: bool)
      requires Active() && OutputOk() && blockPending && samplesWritten < MAX_SAMPLES && |block| == 2 * BLOCK_SAMPLES
      modifies this`blockPending, this`output, this`recorded, this`samplesWritten, this`refusals
      ensures refusals == old(refusals) + if ok then 0 else 1
      ensures ok ==> OutputOk() && samplesWritten <= 960_512 && blockPending == micBusy
      ensures ok ==> recorded == old(recorded) + Heard(micBusy, block)
      ensures ok ==> samplesWritten == old(samplesWritten) + if micBusy then 0 else BLOCK_SAMPLES
    {
      ok := true;
      if blockPending && !micBusy {
        ok := StreamBlock(block);
        if ok { SavedFileFitsUpload(samplesWritten); }
      }
    }

    /** One step while recording: the block heard since is streamed, and the recording goes on, stops or is saved. */
    method Advance(toggleRequested: bool, nowUs: int, micBusy: bool, block: Bytes) returns (event: Event)
      requires Valid() && Active() && |block| == 2 * BLOCK_SAMPLES
      modifies this
      ensures event == Failed <==> refusals > old(refusals)
      ensures event != Started && events == old(events)
      ensures event == NoEvent ==> Active() && lockHeld && blockPending && samplesWritten < MAX_SAMPLES && OutputOk()
      ensures event == NoEvent ==> finalPath == old(finalPath) && recordingStartedUs == old(recordingStartedUs)
      ensures event == NoEvent ==> recorded == old(recorded) + Heard(micBusy, block)
      ensures event != NoEvent ==> state == Idle && !lockHeld && !blockPending && samplesWritten == 0 && output == None
      ensures event != Saved ==> saved == old(saved)
      ensures event == Saved ==> AddsWav(old(saved), saved, old(finalPath), old(recorded) + Heard(micBusy, block))
      ensures var stops := old(Stops(toggleRequested, nowUs, micBusy));
              && (event != Failed ==> (event == Saved <==> stops && !micBusy))
              && (event == NoEvent ==> state == if stops then Stopping else Recording)
    {
      var streamed := StreamPending(micBusy, block);
      if !streamed {
        event := FailCapture();
        return;
      }
      var stopRequested := StopAsked(toggleRequested, nowUs, recordingStartedUs);
      event := NextBlockOrFinish(stopRequested);
    }

    /** Whether this step ends the recording: a stop asked for after the guard, now or before, or the limit. */
    predicate Stops(toggleRequested: bool, nowUs: int, micBusy: bool)
      reads this
    {
      || StopAsked(toggleRequested, nowUs, recordingStartedUs) || state == Stopping
      || samplesWritten + (if micBusy then 0 else BLOCK_SAMPLES) >= MAX_SAMPLES
    }

    /**
     * `update`. A toggle while idle starts a recording, unless something is refused. While recording, each step
     * streams the block heard since; a stop asked for after the guard, or the limit, sticks, and the step that
     * has streamed the last block then saves: the new file is everything heard, behind a header that says so. Any
     * end releases the lock, the record of events stays orderly, and it fails exactly when the card or the
     * microphone refused something.
     */
    method Update(toggleRequested: bool, path: string, nowUs: int, micBusy: bool, block: Bytes) returns (event: Event)
      requires Valid() && |block| == 2 * BLOCK_SAMPLES
      modifies this
      ensures Valid() && events == old(events) + [event]
      ensures event == Failed <==> refusals > old(refusals)
      ensures event == Failed ==> !Active()
      ensures event != Saved ==> saved == old(saved)
      ensures !old(Active()) ==> if toggleRequested then event == Started || event == Failed else event == NoEvent
      ensures event == Started ==> !old(Active()) && state == Recording
      ensures event == Started ==> finalPath == path && recordingStartedUs == nowUs && recorded == []
      ensures event == NoEvent ==> Active() == old(Active())
      ensures old(Active()) && event == NoEvent ==>
                && finalPath == old(finalPath) && recordingStartedUs == old(recordingStartedUs)
                && recorded == old(recorded) + Heard(micBusy, block)
                && state == if old(Stops(toggleRequested, nowUs, micBusy)) then Stopping else Recording
      ensures old(Active()) && event != Failed ==>
                (event == Saved <==> old(Stops(toggleRequested, nowUs, micBusy)) && !micBusy)
      ensures event == Saved ==>
                old(Active()) && !Active() && AddsWav(old(saved), saved, old(finalPath), old(recorded) + block)
    {
      if state == Idle {
        event := StartIfAsked(toggleRequested, path, nowUs);
      } else {
        event := Advance(toggleRequested, nowUs, micBusy, block);
        Note(event);
      }
    }

    /** Adds an event to the record: no start while a recording was under way, and no save without one. */
    ghost method Note(event: Event)
      requires Orderly(events) && (event == Started ==> !Open(events)) && (event == Saved ==> Open(events))
      modifies this`events
      ensures events == old(events) + [event] && Orderly(events)
      ensures Open(events) == (event == Started || (event == NoEvent && Open(old(events))))
    {
      assert (events + [event])[..|events|] == events;
      events := events + [event];
    }

    method StartIfAsked(toggleRequested: bool, path: string, nowUs: int) returns (event: Event)
      requires Valid() && !Active()
      modifies this
      ensures Valid() && events == old(events) + [event] && saved == old(saved)
      ensures event == Failed <==> refusals > old(refusals)
      ensures event == Started <==> Active()
      ensures if toggleRequested then event == Started || event == Failed else event == NoEvent
      ensures event == Started ==> state == Recording
      ensures event == Started ==> finalPath == path && recordingStartedUs == nowUs && recorded == []
    {
      event := NoEvent;
      if toggleRequested {
        event := BeginCapture(path, nowUs);
      }
      Note(event);
    }
  }
}
