/**
 * Client code over the src/index.ts model: sequences of events and what the
 * contracts of the handlers let a caller conclude about them.
 */
module Scenarios {
  import opened Wrappers
  import opened Extraction
  import opened VoiceLink
  import opened Tts
  import opened Attachments
  import opened Prompts
  import opened Ingress
  import opened Relay

  /** Triggers arriving one after another before any reply comes back: only
      the first can be accepted, and only when no turn was in flight. */
  method Burst(r: Relay, texts: seq<string>, now: int) returns (accepted: seq<bool>)
    requires r.Valid()
    modifies r`busy, r`lastInteraction, r`requests
    ensures r.Valid()
    ensures |accepted| == |texts|
    ensures forall k :: 0 <= k < |texts| ==> (accepted[k] <==> k == 0 && !old(r.busy))
    ensures r.requests == old(r.requests) +
      (if |texts| > 0 && !old(r.busy) then [Request(r.chat, OutgoingParts(texts[0], r.buffer.items))] else [])
    ensures |texts| > 0 ==> r.busy
  {
    accepted := [];
    var k := 0;
    while k < |texts|
      invariant 0 <= k <= |texts| && |accepted| == k
      invariant r.Valid()
      invariant forall m :: 0 <= m < k ==> (accepted[m] <==> m == 0 && !old(r.busy))
      invariant k > 0 ==> r.busy
      invariant k == 0 ==> r.busy == old(r.busy) && r.requests == old(r.requests)
      invariant k > 0 ==> (r.requests == old(r.requests) +
        (if !old(r.busy) then [Request(r.chat, OutgoingParts(texts[0], r.buffer.items))] else []))
    {
      var ok := r.Submit(texts[k], now);
      accepted := accepted + [ok];
      k := k + 1;
    }
  }

  /** A tick that fires stamps the clock, so a tick within the next two
      minutes does not fire again, whether or not the gate took the prompt. */
  method IdleTwice(r: Relay, first: int, second: int) returns (fired1: bool, fired2: bool)
    requires r.Valid()
    requires second - first <= IdleThresholdMs
    modifies r`busy, r`lastInteraction, r`requests
    ensures fired1 ==> !fired2
  {
    var accepted1, accepted2;
    fired1, accepted1 := r.IdleTick(first);
    fired2, accepted2 := r.IdleTick(second);
  }

  /** An insertion re-arms the clearing timer: a tick clears the buffer
      exactly when 20 s have passed since that insertion. */
  method InsertThenTick(b: AttachmentBuffer, x: Blob, inserted: int, later: int) returns (fired: bool)
    requires b.Valid()
    modifies b
    ensures b.Valid()
    ensures fired <==> later - inserted >= ClearDelayMs
    ensures fired ==> b.items == []
    ensures !fired ==> b.items == Pushed(old(b.items), x)
  {
    b.Add(x, inserted);
    fired := b.Tick(later);
  }

  /** A canvas announcement followed by a binary frame adds exactly one
      image; a second binary frame without a new announcement adds nothing. */
  method CanvasThenBinary(r: Relay, png: seq<bv8>, stray: seq<bv8>, now: int)
    requires r.Valid()
    modifies r`expectBinary, r`busy, r`lastInteraction, r`requests, r.buffer
    ensures r.Valid()
    ensures r.buffer.items == Pushed(old(r.buffer.items), Blob(png, ImageMimeType))
    ensures !r.expectBinary
  {
    var replies, _ := r.OnTextFrame(WsMessage(Some(CanvasType), None), now);
    assert replies == [CanvasAck];
    var ok := r.OnBinaryFrame(png, now);
    assert ok;
    var ignored := r.OnBinaryFrame(stray, now);
    assert !ignored;
  }

  /** An utterance whose reply is a plain message: speech output is asked
      once, with that message, and the mute state is untouched. */
  method ConversationTurn(r: Relay, utterance: string, json: string, message: string,
                          jsonParse: string -> Option<Reply>, now: int)
    requires r.Valid() && !r.busy
    requires utterance != "" && message != ""
    requires 2 <= |json| && json[0] == '{' && json[|json| - 1] == '}'
    requires jsonParse(json) == Some(Reply(message, None))
    modifies r`busy, r`lastInteraction, r`requests, r`link, r`renegotiations, r.tts
    ensures !r.busy && r.lastInteraction == now
    ensures r.link == old(r.link) && r.renegotiations == old(r.renegotiations)
    ensures r.tts.actions == old(r.tts.actions) + SpeakActions(old(r.tts.status), message)
    ensures old(r.tts.status) != Busy ==> Spoken(r.tts.actions) == Spoken(old(r.tts.actions)) + [message]
  {
    var accepted := r.OnTranscript(Some(utterance), now);
    ParseWholeObject(json, jsonParse);
    ghost var before := r.tts.actions;
    ghost var status := r.tts.status;
    r.CompleteTurn(Some(json), jsonParse);
    assert r.tts.actions == before + SpeakActions(status, message);
    if status != Busy {
      SpeakAppendsText(before, status, message);
    }
  }

  /** An utterance whose reply asks to mute with an empty message: nothing is
      spoken and a connected, unmuted bot is muted with one renegotiation. */
  method MuteTurn(r: Relay, utterance: string, json: string,
                  jsonParse: string -> Option<Reply>, now: int)
    requires r.Valid() && !r.busy && r.link == Connected(false)
    requires utterance != ""
    requires 2 <= |json| && json[0] == '{' && json[|json| - 1] == '}'
    requires jsonParse(json) == Some(Reply("", Some("mute")))
    modifies r`busy, r`lastInteraction, r`requests, r`link, r`renegotiations, r.tts
    ensures !r.busy
    ensures r.link == Connected(true) && r.renegotiations == old(r.renegotiations) + 1
    ensures r.tts.actions == old(r.tts.actions)
  {
    var accepted := r.OnTranscript(Some(utterance), now);
    ParseWholeObject(json, jsonParse);
    r.CompleteTurn(Some(json), jsonParse);
  }
}
