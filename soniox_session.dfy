/** The per-session state of the streaming transcription loop
    (`start_soniox_session`): the final tokens received so far, the text last
    emitted to the user interface, the one-shot suppression of a repeated
    render after a clear request, and the counter of audio bytes sent.

    The `select!` loop is modelled as a sequence of events, each handled by
    one step; `Session` holds the same state as fields and its methods perform
    the steps as the source does, proved equal to the step function. */
module SonioxSession {
  import opened Common
  import opened SonioxRender
  import SonioxPcm

  /** A server message, once parsed as JSON: whether it carries an
      `error_code`, its `tokens` array (empty when absent or not an array)
      and whether `finished` is the JSON value `true`. */
  datatype ServerMessage = ServerMessage(errorCode: bool, tokens: seq<Token>, finished: bool)

  /** What the WebSocket reader yields: a text message (its JSON, or `None`
      when it does not parse), a binary message, a ping/pong/raw frame, a
      close message, a read error, or the end of the stream. */
  datatype WsEvent = TextMessage(msg: Option<ServerMessage>) | BinaryMessage | ControlFrame | CloseMessage | ReadError | StreamEnd

  /** One turn of the loop: a clear request on the control channel, an audio
      chunk converted to `frame` whose send succeeded or not, the audio
      channel closing, or a WebSocket event. */
  datatype Event = Clear | Audio(frame: seq<Byte>, sendOk: bool) | AudioClosed | Ws(ws: WsEvent)

  /** A frame sent to the server. */
  datatype Frame = Binary(bytes: seq<Byte>) | TextFrame(text: string)

  /** An event emitted to the user interface. */
  datatype Emit = Transcript(text: string) | BytesSent(count: nat) | ErrorEvent | Status(status: string)

  const NoSpeech: string := "[no speech detected]"
  /** Bytes sent between two progress reports. */
  const ReportEvery: nat := 48000

  datatype State = State(finals: seq<Token>, lastEmitted: string, suppress: Option<string>,
                         sentBytes: nat, running: bool, sent: seq<Frame>, events: seq<Emit>)

  /** The state when the loop starts (after the configuration was sent). */
  const Initial: State := State([], "", None, 0, true, [], [])

  /** A token takes part in rendering only when its `text` is a non-empty
      string. */
  predicate HasText(t: Token) {
    t.text.Some? && t.text.value != []
  }

  /** Only `is_final == true` makes a token final; absent or non-boolean
      counts as non-final. */
  predicate IsFinalToken(t: Token) {
    t.isFinal == Some(true)
  }

  /** The tokens of a message appended to `final_tokens`, in order. */
  function FinalPart(ts: seq<Token>): seq<Token> {
    if ts == [] then []
    else
      var t := ts[|ts| - 1];
      FinalPart(ts[..|ts| - 1]) + (if HasText(t) && IsFinalToken(t) then [t] else [])
  }

  /** The tokens of a message rendered as non-final, in order. */
  function InterimPart(ts: seq<Token>): seq<Token> {
    if ts == [] then []
    else
      var t := ts[|ts| - 1];
      InterimPart(ts[..|ts| - 1]) + (if HasText(t) && !IsFinalToken(t) then [t] else [])
  }

  /** `has_tokens`: some token of the message has non-empty text. */
  predicate HasTokens(ts: seq<Token>) {
    exists i :: 0 <= i < |ts| && HasText(ts[i])
  }

  /** Leaving the loop: the given events, then the status "ended". */
  function End(s: State, evs: seq<Emit>): (r: State)
    ensures !r.running
  {
    s.(running := false, events := s.events + evs + [Status("ended")])
  }

  /** The `finished` check after an emission. */
  function AfterEmit(s: State, finished: bool): State {
    if finished then End(s, [Status("finished")]) else s
  }

  /** `ClearTranscript`: arm the suppression with the last emitted text
      unless it is already armed, and forget the final tokens and the last
      emitted text. */
  function OnClear(s: State): State {
    s.(suppress := if s.suppress.None? then Some(s.lastEmitted) else s.suppress,
       finals := [], lastEmitted := "")
  }

  /** An audio chunk: a failed send ends the session; otherwise the frame is
      counted and every 48000 bytes a progress report resets the counter. */
  function OnAudio(s: State, frame: seq<Byte>, sendOk: bool): State {
    if !sendOk then End(s, [ErrorEvent])
    else
      var total := s.sentBytes + |frame|;
      var s1 := s.(sent := s.sent + [Binary(frame)]);
      if total >= ReportEvery then s1.(sentBytes := 0, events := s.events + [BytesSent(total)])
      else s1.(sentBytes := total)
  }

  /** The audio channel closed: an empty text frame signals the end of the
      audio (its send result is ignored), and the loop ends. */
  function OnAudioClosed(s: State): State {
    End(s.(sent := s.sent + [TextFrame("")]), [])
  }

  /** A parsed server message. */
  function OnMessage(s: State, m: ServerMessage): State {
    if m.errorCode then End(s, [ErrorEvent])
    else
      var finals := s.finals + FinalPart(m.tokens);
      var text := Render(finals, InterimPart(m.tokens));
      if HasTokens(m.tokens) || text != [] then
        if s.suppress == Some(text) then
          // the repeat is dropped and the `finished` check is skipped
          s.(finals := finals)
        else
          AfterEmit(s.(finals := finals, suppress := None, lastEmitted := text,
                       events := s.events + [Transcript(text)]), m.finished)
      else
        AfterEmit(s.(finals := finals, lastEmitted := NoSpeech,
                     events := s.events + [Transcript(NoSpeech)]), m.finished)
  }

  function OnWs(s: State, e: WsEvent): State {
    match e
    case TextMessage(msg) => if msg.Some? then OnMessage(s, msg.value) else s
    case BinaryMessage => s
    case ControlFrame => s
    case CloseMessage => End(s, [Status("closed")])
    case ReadError => End(s, [ErrorEvent])
    case StreamEnd => End(s, [])
  }

  function Step(s: State, e: Event): State {
    match e
    case Clear => OnClear(s)
    case Audio(frame, sendOk) => OnAudio(s, frame, sendOk)
    case AudioClosed => OnAudioClosed(s)
    case Ws(w) => OnWs(s, w)
  }

  /** The loop over a sequence of events; events after the loop has ended
      are never received. */
  function Run(s: State, evs: seq<Event>): State
    decreases |evs|
  {
    if evs == [] || !s.running then s else Run(Step(s, evs[0]), evs[1..])
  }

  // ---------------------------------------------------------------------
  // Which tokens a message contributes

  /** A message contributes exactly its tokens with non-empty text that are
      final to `final_tokens`, and the other tokens with non-empty text to
      the non-final render. */
  lemma {:induction false} PartsMembers(ts: seq<Token>)
    ensures forall t :: t in FinalPart(ts) <==> t in ts && HasText(t) && IsFinalToken(t)
    ensures forall t :: t in InterimPart(ts) <==> t in ts && HasText(t) && !IsFinalToken(t)
  {
    if ts != [] {
      var init := ts[..|ts| - 1];
      PartsMembers(init);
      assert ts == init + [ts[|ts| - 1]];
    }
  }

  /** No token with text is lost: every one goes to exactly one part. */
  lemma {:induction false} PartsCount(ts: seq<Token>)
    ensures |FinalPart(ts)| + |InterimPart(ts)| == |set i | 0 <= i < |ts| && HasText(ts[i])|
  {
    if ts != [] {
      var init := ts[..|ts| - 1];
      PartsCount(init);
      var n := |ts| - 1;
      var before := set i | 0 <= i < n && HasText(init[i]);
      var after := set i | 0 <= i < |ts| && HasText(ts[i]);
      assert before == set i | 0 <= i < n && HasText(ts[i]);
      if HasText(ts[n]) {
        assert after == before + {n};
      } else {
        assert after == before;
      }
    }
  }

  /** `has_tokens` holds iff the message contributes a final or a non-final
      token. */
  lemma {:induction false} HasTokensParts(ts: seq<Token>)
    ensures HasTokens(ts) <==> FinalPart(ts) != [] || InterimPart(ts) != []
  {
    PartsMembers(ts);
    if HasTokens(ts) {
      var i :| 0 <= i < |ts| && HasText(ts[i]);
      assert ts[i] in ts;
      if IsFinalToken(ts[i]) {
        assert ts[i] in FinalPart(ts);
      } else {
        assert ts[i] in InterimPart(ts);
      }
    }
    var both := FinalPart(ts) + InterimPart(ts);
    if both != [] {
      assert both[0] in FinalPart(ts) || both[0] in InterimPart(ts);
      var i :| 0 <= i < |ts| && ts[i] == both[0];
      assert HasText(ts[i]);
    }
  }

  // ---------------------------------------------------------------------
  // Clear and suppression

  /** A second clear request changes nothing: the suppression stays armed
      with the text emitted before the first. */
  lemma ClearIdempotent(s: State)
    ensures OnClear(OnClear(s)) == OnClear(s)
    ensures OnClear(s).suppress.Some?
  {
  }

  /** After a clear, a message whose render repeats the text emitted before
      the clear is dropped: nothing is emitted, the last emitted text stays
      empty, the suppression stays armed and the loop goes on even when the
      message says `finished`. */
  lemma RepeatSuppressed(s: State, m: ServerMessage)
    requires s.suppress.None? && !m.errorCode
    requires Render(FinalPart(m.tokens), InterimPart(m.tokens)) == s.lastEmitted
    requires HasTokens(m.tokens) || s.lastEmitted != []
    ensures var r := OnMessage(OnClear(s), m);
      && r.events == s.events && r.lastEmitted == [] && r.suppress == Some(s.lastEmitted)
      && r.running == s.running && r.finals == FinalPart(m.tokens)
  {
    assert OnClear(s).finals + FinalPart(m.tokens) == FinalPart(m.tokens);
  }

  /** Any emitted render disarms the suppression and becomes the last
      emitted text; it is the last transcript event. */
  lemma EmitDisarms(s: State, m: ServerMessage)
    requires !m.errorCode
    requires OnMessage(s, m).events != s.events
    ensures var r := OnMessage(s, m);
      && LastTranscript(r.events) == Some(r.lastEmitted)
      && (r.lastEmitted == NoSpeech || r.suppress.None?)
  {
    var finals := s.finals + FinalPart(m.tokens);
    var text := Render(finals, InterimPart(m.tokens));
    var emitted := HasTokens(m.tokens) || text != [];
    var e := if emitted then text else NoSpeech;
    var s1 := s.(finals := finals, suppress := if emitted then None else s.suppress, lastEmitted := e,
                 events := s.events + [Transcript(e)]);
    assert OnMessage(s, m) == AfterEmit(s1, m.finished);
    AfterEmitEvents(s1, m.finished);
    LastTranscriptAppend(s.events, [Transcript(e)]);
    LastTranscriptAppend(s1.events, if m.finished then [Status("finished"), Status("ended")] else []);
  }

  /** The `finished` check adds only status events and keeps what was
      emitted. */
  lemma AfterEmitEvents(s: State, finished: bool)
    ensures var r := AfterEmit(s, finished);
      && r.events == s.events + (if finished then [Status("finished"), Status("ended")] else [])
      && r.lastEmitted == s.lastEmitted && r.suppress == s.suppress
  {
    if finished {
      assert s.events + [Status("finished")] + [Status("ended")] == s.events + [Status("finished"), Status("ended")];
    }
  }

  /** Right after a clear, a message without tokens emits "[no speech
      detected]" but leaves the suppression armed. */
  lemma NoSpeechAfterClear(s: State, finished: bool)
    ensures var r := OnMessage(OnClear(s), ServerMessage(false, [], finished));
      && r.events == s.events + [Transcript(NoSpeech)] + (if finished then [Status("finished"), Status("ended")] else [])
      && r.lastEmitted == NoSpeech
      && r.suppress == OnClear(s).suppress
      && r.finals == []
  {
    RenderShape([], []);
    assert Entries([]) == [];
  }

  /** An error message ends the loop; tokens, texts and suppression are
      untouched. */
  lemma ErrorStops(s: State, m: ServerMessage)
    requires m.errorCode
    ensures var r := OnMessage(s, m);
      && !r.running && r.finals == s.finals && r.lastEmitted == s.lastEmitted
      && r.suppress == s.suppress && r.events == s.events + [ErrorEvent, Status("ended")]
  {
  }

  // ---------------------------------------------------------------------
  // Invariants of the loop

  /** The text of the last transcript event. */
  function LastTranscript(evs: seq<Emit>): Option<string> {
    if evs == [] then None
    else if evs[|evs| - 1].Transcript? then Some(evs[|evs| - 1].text)
    else LastTranscript(evs[..|evs| - 1])
  }

  predicate NoTranscript(evs: seq<Emit>) {
    forall i :: 0 <= i < |evs| ==> !evs[i].Transcript?
  }

  lemma {:induction false} LastTranscriptAppend(evs: seq<Emit>, more: seq<Emit>)
    ensures NoTranscript(more) ==> LastTranscript(evs + more) == LastTranscript(evs)
    ensures more != [] && more[|more| - 1].Transcript? ==> LastTranscript(evs + more) == Some(more[|more| - 1].text)
    decreases |more|
  {
    if more != [] {
      assert (evs + more)[..|evs + more| - 1] == evs + more[..|more| - 1];
      LastTranscriptAppend(evs, more[..|more| - 1]);
    } else {
      assert evs + more == evs;
    }
  }

  /** The bytes in the binary frames sent. */
  function BinaryTotal(frames: seq<Frame>): nat {
    if frames == [] then 0
    else BinaryTotal(frames[..|frames| - 1]) + (if frames[|frames| - 1].Binary? then |frames[|frames| - 1].bytes| else 0)
  }

  /** The bytes reported in progress events. */
  function ReportedTotal(evs: seq<Emit>): nat {
    if evs == [] then 0
    else ReportedTotal(evs[..|evs| - 1]) + (if evs[|evs| - 1].BytesSent? then evs[|evs| - 1].count else 0)
  }

  lemma {:induction false} ReportedAppend(evs: seq<Emit>, more: seq<Emit>)
    requires forall i :: 0 <= i < |more| ==> !more[i].BytesSent?
    ensures ReportedTotal(evs + more) == ReportedTotal(evs)
    decreases |more|
  {
    if more != [] {
      assert (evs + more)[..|evs + more| - 1] == evs + more[..|more| - 1];
      ReportedAppend(evs, more[..|more| - 1]);
    } else {
      assert evs + more == evs;
    }
  }

  /** What every step preserves:
      - the counter stays below one report's worth of bytes;
      - the bytes sent are the bytes reported plus the counter;
      - a non-empty last emitted text is the last transcript emitted. */
  predicate Invariant(s: State) {
    && s.sentBytes < ReportEvery
    && BinaryTotal(s.sent) == ReportedTotal(s.events) + s.sentBytes
    && (s.lastEmitted != [] ==> LastTranscript(s.events) == Some(s.lastEmitted))
  }

  lemma InitialInvariant()
    ensures Invariant(Initial)
  {
  }

  lemma EndKeeps(s: State, evs: seq<Emit>)
    requires Invariant(s) && NoTranscript(evs) && forall i :: 0 <= i < |evs| ==> !evs[i].BytesSent?
    ensures Invariant(End(s, evs))
  {
    var more := evs + [Status("ended")];
    assert s.events + evs + [Status("ended")] == s.events + more;
    LastTranscriptAppend(s.events, more);
    ReportedAppend(s.events, more);
  }

  lemma AudioKeeps(s: State, frame: seq<Byte>, sendOk: bool)
    requires Invariant(s)
    ensures Invariant(OnAudio(s, frame, sendOk))
  {
    if !sendOk {
      EndKeeps(s, [ErrorEvent]);
    } else {
      var sent := s.sent + [Binary(frame)];
      assert sent[..|sent| - 1] == s.sent;
      var total := s.sentBytes + |frame|;
      if total >= ReportEvery {
        var evs := s.events + [BytesSent(total)];
        assert evs[..|evs| - 1] == s.events;
        LastTranscriptAppend(s.events, [BytesSent(total)]);
      }
    }
  }

  /** Emitting `text` (and then possibly leaving the loop) keeps the
      invariant, whatever happens to the tokens and the suppression. */
  lemma EmitKeeps(s: State, finals: seq<Token>, suppress: Option<string>, text: string, finished: bool)
    requires Invariant(s)
    ensures Invariant(AfterEmit(s.(finals := finals, suppress := suppress, lastEmitted := text,
                                   events := s.events + [Transcript(text)]), finished))
  {
    var s1 := s.(finals := finals, suppress := suppress, lastEmitted := text, events := s.events + [Transcript(text)]);
    LastTranscriptAppend(s.events, [Transcript(text)]);
    ReportedAppend(s.events, [Transcript(text)]);
    if finished {
      EndKeeps(s1, [Status("finished")]);
    }
  }

  lemma MessageKeeps(s: State, m: ServerMessage)
    requires Invariant(s)
    ensures Invariant(OnMessage(s, m))
  {
    if m.errorCode {
      EndKeeps(s, [ErrorEvent]);
    } else {
      var finals := s.finals + FinalPart(m.tokens);
      var text := Render(finals, InterimPart(m.tokens));
      if HasTokens(m.tokens) || text != [] {
        if s.suppress != Some(text) {
          EmitKeeps(s, finals, None, text, m.finished);
        }
      } else {
        EmitKeeps(s, finals, s.suppress, NoSpeech, m.finished);
      }
    }
  }

  lemma StepKeeps(s: State, e: Event)
    requires Invariant(s)
    ensures Invariant(Step(s, e))
  {
    match e
    case Clear => ClearKeeps(s);
    case Audio(frame, sendOk) => AudioKeeps(s, frame, sendOk);
    case AudioClosed => ClosedKeeps(s);
    case Ws(w) => WsKeeps(s, w);
  }

  lemma ClearKeeps(s: State)
    requires Invariant(s)
    ensures Invariant(OnClear(s))
  {
  }

  lemma ClosedKeeps(s: State)
    requires Invariant(s)
    ensures Invariant(OnAudioClosed(s))
  {
    var s1 := s.(sent := s.sent + [TextFrame("")]);
    assert s1.sent[..|s1.sent| - 1] == s.sent;
    EndKeeps(s1, []);
  }

  lemma WsKeeps(s: State, w: WsEvent)
    requires Invariant(s)
    ensures Invariant(OnWs(s, w))
  {
    match w
    case TextMessage(msg) => if msg.Some? { MessageKeeps(s, msg.value); }
    case BinaryMessage =>
    case ControlFrame =>
    case CloseMessage => EndKeeps(s, [Status("closed")]);
    case ReadError => EndKeeps(s, [ErrorEvent]);
    case StreamEnd => EndKeeps(s, []);
  }

  /** Over any sequence of events the counter stays below 48000, every byte
      of audio sent is either reported or still counted, and the last
      emitted text is the last transcript shown. */
  lemma {:induction false} RunKeeps(s: State, evs: seq<Event>)
    requires Invariant(s)
    ensures Invariant(Run(s, evs))
    decreases |evs|
  {
    if evs != [] && s.running {
      StepKeeps(s, evs[0]);
      RunKeeps(Step(s, evs[0]), evs[1..]);
    }
  }

  /** The session as the loop's local variables. */
  class Session {
    var finalTokens: seq<Token>
    var lastEmitted: string
    var suppress: Option<string>
    var sentBytes: nat
    var running: bool
    var sent: seq<Frame>
    var events: seq<Emit>

    function Snapshot(): State
      reads this
    {
      State(finalTokens, lastEmitted, suppress, sentBytes, running, sent, events)
    }

    constructor ()
      ensures Snapshot() == Initial
    {
      finalTokens, lastEmitted, suppress := [], "", None;
      sentBytes, running, sent, events := 0, true, [], [];
    }

    /** Leaving the loop. */
    method Stop(evs: seq<Emit>)
      modifies this
      ensures Snapshot() == End(old(Snapshot()), evs)
    {
      events := events + evs + [Status("ended")];
      running := false;
    }

    method HandleClear()
      requires running
      modifies this
      ensures Snapshot() == Step(old(Snapshot()), Clear)
    {
      if suppress.None? {
        suppress := Some(lastEmitted);
      }
      finalTokens := [];
      lastEmitted := "";
    }

    /** An audio chunk at 16000 Hz: convert, send (`sendOk` is the outcome
        of the send), count. */
    method HandleAudio(samples: seq<int>, channels: nat, sampleRate: nat, sendOk: bool)
      requires running && AllI16(samples) && channels <= U16Max && sampleRate == 16000
      modifies this
      ensures AllI16(SonioxPcm.Downmix(samples, channels))
      ensures Snapshot() == Step(old(Snapshot()), Audio(SonioxPcm.Serialize(SonioxPcm.Downmix(samples, channels)), sendOk))
    {
      var frame := SonioxPcm.ToPcm16Mono16k(samples, channels, sampleRate);
      var size := |frame|;
      if !sendOk {
        Stop([ErrorEvent]);
        return;
      }
      sent := sent + [Binary(frame)];
      sentBytes := sentBytes + size;
      if sentBytes >= ReportEvery {
        events := events + [BytesSent(sentBytes)];
        sentBytes := 0;
      }
    }

    method HandleAudioClosed()
      requires running
      modifies this
      ensures Snapshot() == Step(old(Snapshot()), AudioClosed)
    {
      sent := sent + [TextFrame("")];
      Stop([]);
    }

    method HandleWs(e: WsEvent)
      requires running
      modifies this
      ensures Snapshot() == Step(old(Snapshot()), Ws(e))
    {
      match e
      case TextMessage(msg) =>
        if msg.Some? {
          HandleMessage(msg.value);
        }
      case BinaryMessage =>
      case ControlFrame =>
      case CloseMessage => Stop([Status("closed")]);
      case ReadError => Stop([ErrorEvent]);
      case StreamEnd => Stop([]);
    }

    /** A parsed server message: sort its tokens, render, and emit unless the
        render is the suppressed repeat. */
    method HandleMessage(m: ServerMessage)
      requires running
      modifies this
      ensures Snapshot() == OnMessage(old(Snapshot()), m)
    {
      if m.errorCode {
        Stop([ErrorEvent]);
        return;
      }
      var nonFinal, hasTokens := CollectTokens(m.tokens);
      var text := RenderTokens(finalTokens, nonFinal);
      if hasTokens || text != [] {
        if suppress.Some? {
          if suppress == Some(text) {
            return;
          } else {
            suppress := None;
          }
        }
        lastEmitted := text;
        events := events + [Transcript(text)];
      } else {
        events := events + [Transcript(NoSpeech)];
        lastEmitted := NoSpeech;
      }
      if m.finished {
        Stop([Status("finished")]);
      }
    }

    /** The loop over the message's tokens: final ones are appended to
        `finalTokens`, the others returned. */
    method CollectTokens(ts: seq<Token>) returns (nonFinal: seq<Token>, hasTokens: bool)
      modifies this
      ensures finalTokens == old(finalTokens) + FinalPart(ts)
      ensures nonFinal == InterimPart(ts) && hasTokens == HasTokens(ts)
      ensures lastEmitted == old(lastEmitted) && suppress == old(suppress) && sentBytes == old(sentBytes)
      ensures running == old(running) && sent == old(sent) && events == old(events)
    {
      nonFinal, hasTokens := [], false;
      for i := 0 to |ts|
        invariant finalTokens == old(finalTokens) + FinalPart(ts[..i])
        invariant nonFinal == InterimPart(ts[..i]) && hasTokens == HasTokens(ts[..i])
        invariant lastEmitted == old(lastEmitted) && suppress == old(suppress) && sentBytes == old(sentBytes)
        invariant running == old(running) && sent == old(sent) && events == old(events)
      {
        var t := ts[i];
        assert ts[..i + 1][..i] == ts[..i] && ts[..i + 1][i] == t;
        if t.text.None? || t.text.value == [] {
          assert !HasTokens(ts[..i + 1]) <==> !HasTokens(ts[..i]);
          continue;
        }
        assert HasTokens(ts[..i + 1]);
        hasTokens := true;
        if t.isFinal == Some(true) {
          finalTokens := finalTokens + [t];
        } else {
          nonFinal := nonFinal + [t];
        }
      }
      assert ts[..|ts|] == ts;
    }
  }
}
