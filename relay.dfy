/**
 * The module state of src/index.ts and the handlers that change it: the
 * single-flight turn gate (`isTTSBusy`), the idle monitor, the voice link,
 * the WebSocket ingress and the chat commands.
 *
 * A turn is asynchronous in the source: it is accepted or dropped when a
 * trigger arrives (`Submit`), and finishes when the model's reply comes back
 * (`CompleteTurn`). Other triggers may arrive in between and are dropped.
 * Clocks are `now` parameters; the model's reply is an `Option<string>`
 * parameter and `JSON.parse` a partial function parameter.
 */
module Relay {
  import opened Wrappers
  import opened Extraction
  import opened VoiceLink
  import opened Tts
  import opened Attachments
  import opened Prompts
  import opened Ingress

  const IdleThresholdMs: int := 2 * 60 * 1000

  /** A `chats.sendMessage` call: the chat session it went to and what it carried. */
  datatype Request = Request(chat: nat, parts: seq<Part>)

  class Relay {
    var link: Link
    /** `configureNetworking` calls so far. */
    var renegotiations: nat
    /** `isTTSBusy`: a turn is in flight. */
    var busy: bool
    var lastInteraction: int
    /** Live idle intervals (`idleCheckInterval`). */
    var idleTimers: nat
    /** The current chat session; each `createChat` makes a new one. */
    var chat: nat
    var expectBinary: bool
    /** Every request sent to the model so far. */
    var requests: seq<Request>
    const buffer: AttachmentBuffer
    const tts: TtsHost

    ghost predicate Valid()
      reads this, buffer
    {
      buffer.Valid() && idleTimers <= 1
    }

    /** Module load: a chat session exists, no connection, no idle timer,
        the clearing timer armed. */
    constructor (now: int, ttsStatus: HostStatus)
      ensures Valid() && fresh(buffer) && fresh(tts)
      ensures link == Disconnected && renegotiations == 0 && !busy && lastInteraction == now
      ensures idleTimers == 0 && chat == 0 && !expectBinary && requests == []
      ensures buffer.items == [] && tts.status == ttsStatus && tts.actions == []
    {
      link := Disconnected;
      renegotiations := 0;
      busy := false;
      lastInteraction := now;
      idleTimers := 0;
      chat := 0;
      expectBinary := false;
      requests := [];
      buffer := new AttachmentBuffer(now);
      tts := new TtsHost(ttsStatus);
    }

    /** The first half of `passToGeminiAndExecIfFree`: a trigger that arrives
        while a turn is in flight is dropped and changes nothing; otherwise the
        gate is taken, `lastInteraction` stamped and the request sent with the
        images buffered at that moment. */
    method Submit(text: string, now: int) returns (accepted: bool)
      requires Valid()
      modifies this`busy, this`lastInteraction, this`requests
      ensures Valid()
      ensures accepted <==> !old(busy)
      ensures busy
      ensures !accepted ==> lastInteraction == old(lastInteraction) && requests == old(requests)
      ensures accepted ==> (lastInteraction == now &&
        requests == old(requests) + [Request(chat, OutgoingParts(text, buffer.items))])
    {
      if busy {
        accepted := false;
        return;
      }
      accepted := true;
      busy := true;
      lastInteraction := now;
      requests := requests + [Request(chat, OutgoingParts(text, buffer.items))];
    }

    /** `_execCommand`: at most one effect, as `Exec` describes it. */
    method ExecCommand(data: Reply)
      modifies this`link, this`renegotiations, tts
      ensures var o := Exec(old(link), data);
        link == o.link &&
        renegotiations == old(renegotiations) + (if o.renegotiate then 1 else 0) &&
        tts.actions == old(tts.actions) + SpeechActions(old(tts.status), o.speech) &&
        (o.speech.None? ==> tts.status == old(tts.status)) &&
        (o.speech.Some? ==> tts.status == (if old(tts.status) == Busy then Busy else Idle))
    {
      var command := CommandOf(data.command);
      if command == Mute {
        if link == Connected(false) {
          link := Connected(true);
          renegotiations := renegotiations + 1;
        }
        return;
      }
      if command == Unmute {
        if link == Connected(true) {
          link := Connected(false);
          renegotiations := renegotiations + 1;
        }
        return;
      }
      if data.message != "" {
        tts.Speak(data.message);
      }
    }

    /** The second half of `passToGeminiAndExecIfFree`: parse the reply,
        apply it if it parsed, and release the gate on every path. */
    method CompleteTurn(reply: Option<string>, jsonParse: string -> Option<Reply>)
      requires Valid() && busy
      modifies this`busy, this`link, this`renegotiations, tts
      ensures Valid() && !busy
      ensures var data := ParseReply(reply, jsonParse);
        match data
        case None =>
          link == old(link) && renegotiations == old(renegotiations) &&
          tts.actions == old(tts.actions) && tts.status == old(tts.status)
        case Some(r) =>
          var o := Exec(old(link), r);
          link == o.link &&
          renegotiations == old(renegotiations) + (if o.renegotiate then 1 else 0) &&
          tts.actions == old(tts.actions) + SpeechActions(old(tts.status), o.speech) &&
          (o.speech.None? ==> tts.status == old(tts.status)) &&
          (o.speech.Some? ==> tts.status == (if old(tts.status) == Busy then Busy else Idle))
    {
      var data := ParseReply(reply, jsonParse);
      match data {
        case None =>
        case Some(r) => ExecCommand(r);
      }
      busy := false;
    }

    /** A finalised recognition result: a non-empty transcript is submitted
        with the utterance prefix; an empty one changes nothing. */
    method OnTranscript(result: Option<string>, now: int) returns (accepted: bool)
      requires Valid()
      modifies this`busy, this`lastInteraction, this`requests
      ensures Valid()
      ensures accepted <==> TranscriptOf(result) != "" && !old(busy)
      ensures !accepted ==> lastInteraction == old(lastInteraction) && requests == old(requests)
      ensures TranscriptOf(result) == "" ==> busy == old(busy)
      ensures TranscriptOf(result) != "" ==> busy
      ensures accepted ==> (busy && lastInteraction == now &&
        requests == old(requests) + [Request(chat, OutgoingParts(SpeechText(TranscriptOf(result)), buffer.items))])
    {
      var transcript := TranscriptOf(result);
      accepted := false;
      if transcript != "" {
        accepted := Submit(SpeechText(transcript), now);
      }
    }

    /** One tick of the idle interval: it fires only when strictly more than
        two minutes have passed, and stamps `lastInteraction` before
        submitting, so the stamp stays even when the gate drops the prompt. */
    method IdleTick(now: int) returns (fired: bool, accepted: bool)
      requires Valid()
      modifies this`busy, this`lastInteraction, this`requests
      ensures Valid()
      ensures fired <==> old(idleTimers) > 0 && now - old(lastInteraction) > IdleThresholdMs
      ensures fired ==> lastInteraction == now && busy
      ensures accepted <==> fired && !old(busy)
      ensures !fired ==> busy == old(busy) && lastInteraction == old(lastInteraction)
      ensures !accepted ==> requests == old(requests)
      ensures accepted ==> requests == old(requests) + [Request(chat, OutgoingParts(IdlePrompt, buffer.items))]
    {
      fired := idleTimers > 0 && now - lastInteraction > IdleThresholdMs;
      accepted := false;
      if fired {
        lastInteraction := now;
        accepted := Submit(IdlePrompt, now);
      }
    }

    /** A text frame on the socket: replies as `HandleText` says, arms
        `expectBinary` for a canvas announcement, submits an editor update. */
    method OnTextFrame(m: WsMessage, now: int) returns (replies: seq<string>, accepted: bool)
      requires Valid()
      modifies this`expectBinary, this`busy, this`lastInteraction, this`requests
      ensures Valid()
      ensures replies == HandleText(m).replies
      ensures expectBinary == (old(expectBinary) || HandleText(m).armsBinary)
      ensures accepted <==> HandleText(m).trigger.Some? && !old(busy)
      ensures HandleText(m).trigger.None? ==>
        busy == old(busy) && lastInteraction == old(lastInteraction)
      ensures HandleText(m).trigger.Some? ==> busy
      ensures !accepted ==> lastInteraction == old(lastInteraction) && busy == old(busy)
      ensures !accepted ==> requests == old(requests)
      ensures accepted ==> (lastInteraction == now &&
        requests == old(requests) + [Request(chat, OutgoingParts(HandleText(m).trigger.value, buffer.items))])
    {
      var outcome := HandleText(m);
      replies := outcome.replies;
      if outcome.armsBinary {
        expectBinary := true;
      }
      accepted := false;
      if outcome.trigger.Some? {
        accepted := Submit(outcome.trigger.value, now);
      }
    }

    /** A binary frame: kept as a PNG attachment only right after a canvas
        announcement, which it consumes; otherwise ignored. */
    method OnBinaryFrame(data: seq<bv8>, now: int) returns (accepted: bool)
      requires Valid()
      modifies this`expectBinary, buffer
      ensures Valid() && !expectBinary
      ensures accepted == old(expectBinary)
      ensures accepted ==> (buffer.items == Pushed(old(buffer.items), Blob(data, ImageMimeType)) &&
        buffer.pending && buffer.refreshedAt == now)
      ensures !accepted ==> (buffer.items == old(buffer.items) && buffer.pending == old(buffer.pending) &&
        buffer.refreshedAt == old(buffer.refreshedAt))
    {
      accepted := expectBinary;
      if expectBinary {
        expectBinary := false;
        buffer.Add(Blob(data, ImageMimeType), now);
      }
    }

    /** `startListening`: a fresh chat session, and the idle interval
        replaced, never duplicated. */
    method StartListening()
      requires Valid()
      modifies this`chat, this`idleTimers
      ensures Valid()
      ensures old(link).Connected? ==> chat == old(chat) + 1 && idleTimers == 1
      ensures old(link) == Disconnected ==> chat == old(chat) && idleTimers == old(idleTimers)
    {
      if link == Disconnected {
        return;
      }
      chat := chat + 1;
      if idleTimers > 0 {
        idleTimers := idleTimers - 1;
      }
      idleTimers := idleTimers + 1;
    }

    /** The `messageCreate` handler: `!join` connects (unmuted) when the
        sender is in a voice channel, `!leave` disconnects and clears the
        idle interval; other messages are ignored. */
    method OnChatMessage(content: string, senderChannel: Option<string>) returns (reply: Option<string>)
      requires Valid()
      modifies this`link, this`chat, this`idleTimers
      ensures Valid()
      ensures content == JoinCommand && senderChannel.Some? ==>
        link == Connected(false) && chat == old(chat) + 1 && idleTimers == 1 &&
        reply == Some(JoinedReply(senderChannel.value))
      ensures content == LeaveCommand && old(link).Connected? ==>
        link == Disconnected && chat == old(chat) && idleTimers == 0 && reply == Some(LeftReply)
      ensures content == JoinCommand && senderChannel.None? ==> reply == Some(NotInChannelReply)
      ensures content == LeaveCommand && old(link) == Disconnected ==> reply == Some(NotConnectedReply)
      ensures content != JoinCommand && content != LeaveCommand ==> reply == None
      ensures reply != Some(JoinedReply(senderChannel.GetOr(""))) && reply != Some(LeftReply) ==>
        link == old(link) && chat == old(chat) && idleTimers == old(idleTimers)
    {
      reply := None;
      if content == JoinCommand {
        if senderChannel.Some? {
          link := Connected(false);
          reply := Some(JoinedReply(senderChannel.value));
          StartListening();
        } else {
          reply := Some(NotInChannelReply);
        }
      } else if content == LeaveCommand {
        if link.Connected? {
          link := Disconnected;
          idleTimers := 0;
          reply := Some(LeftReply);
        } else {
          reply := Some(NotConnectedReply);
        }
      }
    }
  }
}
