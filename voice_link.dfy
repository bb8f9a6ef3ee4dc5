/**
 * The voice link and the command step both versions apply to a parsed reply
 * (`_execCommand` in src/index.ts, inlined in index.ts's transcript handler).
 */
module VoiceLink {
  import opened Wrappers
  import opened Extraction

  const JoinCommand: string := "!join"
  const LeaveCommand: string := "!leave"
  const NotInChannelReply: string := "You need to be in a voice channel for me to join!"
  const LeftReply: string := "Left the voice channel."
  const NotConnectedReply: string := "I am not in a voice channel!"

  /** The reply to a successful `!join`. */
  function JoinedReply(channelName: string): (r: string)
    ensures |r| == |"Joined voice channel: "| + |channelName|
    ensures r[|r| - |channelName|..] == channelName
  {
    "Joined voice channel: " + channelName
  }

  /** `voiceConnection`: absent, or present with its `joinConfig.selfMute`. */
  datatype Link = Disconnected | Connected(selfMute: bool)

  /** What applying one reply does: the new link, whether
      `configureNetworking` is called, and what is handed to speech output. */
  datatype Outcome = Outcome(link: Link, renegotiate: bool, speech: Option<string>)

  /** `_execCommand`: `mute` / `unmute` flip `selfMute` only when a connection
      exists and the flag actually changes, then return before any speech;
      any other command speaks the message when it is non-empty. */
  function Exec(link: Link, reply: Reply): (o: Outcome)
    ensures o.renegotiate <==>
      (CommandOf(reply.command) == Mute && link == Connected(false)) ||
      (CommandOf(reply.command) == Unmute && link == Connected(true))
    ensures o.link == if o.renegotiate then Connected(!link.selfMute) else link
    ensures o.speech.Some? <==> CommandOf(reply.command) == NoCommand && reply.message != ""
    ensures o.speech.Some? ==> o.speech.value == reply.message
  {
    match CommandOf(reply.command)
    case Mute =>
      if link == Connected(false) then Outcome(Connected(true), true, None)
      else Outcome(link, false, None)
    case Unmute =>
      if link == Connected(true) then Outcome(Connected(false), true, None)
      else Outcome(link, false, None)
    case NoCommand =>
      Outcome(link, false, if reply.message != "" then Some(reply.message) else None)
  }

  /** After `mute` the bot is muted if it is connected at all, and after
      `unmute` it is unmuted; without a connection nothing changes. */
  lemma ExecMuteUnmuteResult(link: Link, reply: Reply)
    ensures CommandOf(reply.command) == Mute ==>
      Exec(link, reply).link == (if link.Connected? then Connected(true) else Disconnected)
    ensures CommandOf(reply.command) == Unmute ==>
      Exec(link, reply).link == (if link.Connected? then Connected(false) else Disconnected)
  {
  }

  /** Applying the same `mute` or `unmute` reply twice renegotiates at most
      once: the second application is a no-op. */
  lemma ExecCommandIdempotent(link: Link, reply: Reply)
    requires CommandOf(reply.command) != NoCommand
    ensures var first := Exec(link, reply);
      Exec(first.link, reply) == Outcome(first.link, false, None)
  {
  }

  /** A reply with no command never touches the link. */
  lemma ExecConversationKeepsLink(link: Link, reply: Reply)
    requires CommandOf(reply.command) == NoCommand
    ensures Exec(link, reply).link == link && !Exec(link, reply).renegotiate
  {
  }
}
