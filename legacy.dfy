/**
 * The earlier pipeline in index.ts: no turn gate, a TTS call that does not
 * wait for playback, transcripts sent without a prefix, and an idle path
 * that speaks the reply's message but never applies its command.
 */
module Legacy {
  import opened Wrappers
  import opened Extraction
  import opened VoiceLink
  import opened Tts
  import opened Prompts

  const IdleThresholdMs: int := 2 * 60 * 1000

  /** A `chats.sendMessage` call: the chat session it went to and its text. */
  datatype Request = Request(chat: nat, text: string)

  /** What the idle path hands to speech output for a parsed reply: its
      message when it is non-empty, whatever the command. */
  function IdleSpeech(data: Reply): (speech: Option<string>)
    ensures speech.Some? <==> data.message != ""
    ensures speech.Some? ==> speech.value == data.message
  {
    if data.message != "" then Some(data.message) else None
  }

  /** Where the two versions differ on a `mute` reply with a message: the
      idle path of index.ts speaks it, the command step of both versions
      does not speak and mutes a connected, unmuted bot. */
  lemma IdleSpeaksDespiteMute(link: Link, message: string)
    requires message != ""
    ensures IdleSpeech(Reply(message, Some("mute"))) == Some(message)
    ensures Exec(link, Reply(message, Some("mute"))).speech == None
    ensures link == Connected(false) ==> Exec(link, Reply(message, Some("mute"))).link == Connected(true)
  {
  }

  class LegacyBot {
    var link: Link
    var renegotiations: nat
    var lastInteraction: int
    var idleTimers: nat
    /** Chat sessions created so far; `chats` is null until the first join. */
    var sessions: nat
    var requests: seq<Request>
    const tts: TtsHost

    ghost predicate Valid()
      reads this
    {
      idleTimers <= 1
    }

    constructor (now: int, ttsStatus: HostStatus)
      ensures Valid() && fresh(tts)
      ensures link == Disconnected && renegotiations == 0 && lastInteraction == now
      ensures idleTimers == 0 && sessions == 0 && requests == []
      ensures tts.status == ttsStatus && tts.actions == []
    {
      link := Disconnected;
      renegotiations := 0;
      lastInteraction := now;
      idleTimers := 0;
      sessions := 0;
      requests := [];
      tts := new TtsHost(ttsStatus);
    }

    /** A speaker starts talking: the idle clock is stamped. */
    method OnSpeakingStart(now: int)
      modifies this`lastInteraction
      ensures lastInteraction == now
    {
      lastInteraction := now;
    }

    /** A finalised recognition result, handled to the end without any gate:
        a non-empty transcript goes to the model as it is (no prefix); a
        reply that parses is applied like `_execCommand`, speaking without waiting. */
    method OnTranscript(result: Option<string>, reply: Option<string>, jsonParse: string -> Option<Reply>)
      modifies this`link, this`renegotiations, this`requests, tts`actions
      ensures var sent := TranscriptOf(result) != "" && old(sessions) > 0;
        requests == old(requests) + (if sent then [Request(sessions - 1, TranscriptOf(result))] else [])
      ensures var data := if TranscriptOf(result) != "" && sessions > 0 then ParseReply(reply, jsonParse) else None;
        match data
        case None =>
          link == old(link) && renegotiations == old(renegotiations) && tts.actions == old(tts.actions)
        case Some(r) =>
          var o := Exec(old(link), r);
          link == o.link &&
          renegotiations == old(renegotiations) + (if o.renegotiate then 1 else 0) &&
          tts.actions == old(tts.actions) + SpeechActions(tts.status, o.speech)
    {
      var transcript := TranscriptOf(result);
      if transcript == "" || sessions == 0 {
        return;
      }
      requests := requests + [Request(sessions - 1, transcript)];
      var data := ParseReply(reply, jsonParse);
      if data.None? {
        return;
      }
      var command := CommandOf(data.value.command);
      if command == Mute {
        if link == Connected(false) {
          link := Connected(true);
          renegotiations := renegotiations + 1;
        }
        return;
      }
      if command == Unmute {
        if link == Connected(true) {
          link := Connected(false);
          renegotiations := renegotiations + 1;
        }
        return;
      }
      if data.value.message != "" {
        tts.SpeakNoWait(data.value.message);
      }
    }

    /** One tick of the idle interval: strictly more than two minutes since
        the last interaction fires it, stamps the clock first, asks the model
        and speaks the reply's message; the command is never applied. */
    method IdleTick(now: int, reply: Option<string>, jsonParse: string -> Option<Reply>) returns (fired: bool)
      modifies this`lastInteraction, this`requests, tts`actions
      ensures link == old(link) && renegotiations == old(renegotiations)
      ensures fired <==> idleTimers > 0 && now - old(lastInteraction) > IdleThresholdMs
      ensures fired ==> lastInteraction == now
      ensures !fired ==> lastInteraction == old(lastInteraction)
      ensures var sent := fired && sessions > 0;
        requests == old(requests) + (if sent then [Request(sessions - 1, LegacyIdlePrompt)] else []) &&
        tts.actions == old(tts.actions) +
          (if sent && ParseReply(reply, jsonParse).Some?
           then SpeechActions(tts.status, IdleSpeech(ParseReply(reply, jsonParse).value))
           else [])
    {
      fired := idleTimers > 0 && now - lastInteraction > IdleThresholdMs;
      if !fired {
        return;
      }
      lastInteraction := now;
      if sessions == 0 {
        return;
      }
      requests := requests + [Request(sessions - 1, LegacyIdlePrompt)];
      var data := ParseReply(reply, jsonParse);
      if data.Some? && data.value.message != "" {
        tts.SpeakNoWait(data.value.message);
      }
    }

    /** `startListening`: a new chat session, and the idle interval replaced. */
    method StartListening()
      requires Valid()
      modifies this`sessions, this`idleTimers
      ensures Valid()
      ensures old(link).Connected? ==> sessions == old(sessions) + 1 && idleTimers == 1
      ensures old(link) == Disconnected ==> sessions == old(sessions) && idleTimers == old(idleTimers)
    {
      if link == Disconnected {
        return;
      }
      sessions := sessions + 1;
      if idleTimers > 0 {
        idleTimers := idleTimers - 1;
      }
      idleTimers := idleTimers + 1;
    }

    /** The `messageCreate` handler, the same as in src/index.ts. */
    method OnChatMessage(content: string, senderChannel: Option<string>) returns (reply: Option<string>)
      requires Valid()
      modifies this`link, this`sessions, this`idleTimers
      ensures Valid()
      ensures content == JoinCommand && senderChannel.Some? ==>
        link == Connected(false) && sessions == old(sessions) + 1 && idleTimers == 1 &&
        reply == Some(JoinedReply(senderChannel.value))
      ensures content == LeaveCommand && old(link).Connected? ==>
        link == Disconnected && sessions == old(sessions) && idleTimers == 0 && reply == Some(LeftReply)
      ensures content == JoinCommand && senderChannel.None? ==> reply == Some(NotInChannelReply)
      ensures content == LeaveCommand && old(link) == Disconnected ==> reply == Some(NotConnectedReply)
      ensures content != JoinCommand && content != LeaveCommand ==> reply == None
      ensures reply != Some(JoinedReply(senderChannel.GetOr(""))) && reply != Some(LeftReply) ==>
        link == old(link) && sessions == old(sessions) && idleTimers == old(idleTimers)
    {
      reply := None;
      if content == JoinCommand {
        if senderChannel.Some? {
          link := Connected(false);
          reply := Some(JoinedReply(senderChannel.value));
          StartListening();
        } else {
          reply := Some(NotInChannelReply);
        }
      } else if content == LeaveCommand {
        if link.Connected? {
          link := Disconnected;
          idleTimers := 0;
          reply := Some(LeftReply);
        } else {
          reply := Some(NotConnectedReply);
        }
      }
    }
  }
}
