# Voice-chat relay bot: decision logic in Dafny

This project models the decision logic of a Discord voice-chat bot. The bot
transcribes what users say, sends the text (and recent canvas captures from a
p5.js editor extension) to a Gemini chat session, and picks a
`{message, command}` object out of the model's free-text reply. It then either
speaks the message through the A.I. VOICE text-to-speech host or mutes or
unmutes itself in the voice channel.

Two versions of the program are modelled side by side:

- `src/index.ts`, the current one. It has a single-flight turn gate
  (`isTTSBusy`), a rolling buffer of at most five canvas captures that is
  emptied after 20 s without an insertion, and a WebSocket ingress for editor
  events.
- `index.ts`, the earlier one. It has no gate, its TTS call does not wait for
  playback, transcripts are sent without a prefix, and its idle prompt speaks
  the reply but never applies the reply's command.

Modules, one per component:

- `Wrappers`: `Option`.
- `Extraction`: the greedy `{[\s\S]*}` extraction and the reply parse.
  `JSON.parse` is a partial-function parameter.
- `VoiceLink`: the link state, the command step `Exec` and the chat-command
  replies.
- `Tts`: the host status dispatch and the host as a class that logs every call
  made on it.
- `Attachments`: the capture buffer, with its clearing timer as an explicit
  tick.
- `Prompts`: the trigger texts and the request parts.
- `Ingress`: the WebSocket text-frame dispatch.
- `Relay`: the module state of `src/index.ts` as a class.
- `Legacy`: the module state of `index.ts` as a class.
- `Scenarios`: event sequences driven through `Relay`.

The turn in `src/index.ts` is asynchronous. It is split at the model call into
two events. `Submit` takes the gate or drops the trigger. `CompleteTurn` parses
the reply, applies it and releases the gate. Triggers arriving in between are
dropped. Clocks are `now` parameters and the model's reply is an
`Option<string>` parameter.

The model follows the code in these points:

- The extraction runs from the first `{` to the last `}`, not to the first
  balanced block.
- The trigger texts and socket replies are the Japanese strings of the code.
- The socket event types are `"p5.js"` and `"p5.js canvas"`.
- A frame with a missing `type` gets two replies, because the check at
  src/index.ts:355 does not return.
- The idle tick stamps `lastInteraction` before it reaches the gate, so the
  stamp stays even when the prompt is dropped.
- `!leave` keeps the chat session; only `!join` replaces it.

## Model

| member | source | states |
|---|---|---|
| `Extraction.CommandOf` | src/index.ts:156-172 | a reply's command counts as mute exactly when it is the string "mute", and as unmute exactly when it is "unmute"; anything else, including null, is no command |
| `Extraction.FirstIndex` | src/index.ts:139 | finds the first occurrence of a character: none exactly when it does not occur; otherwise the position holds it and nothing before does |
| `Extraction.LastIndex` | src/index.ts:139 | finds the last occurrence of a character: none exactly when it does not occur; otherwise the position holds it and nothing after does |
| `Extraction.Extract` | src/index.ts:139-143 | the regex match: none exactly when no `{` is followed by a `}`; otherwise the leftmost, longest `{...}` substring of the reply |
| `Extraction.ExtractSpansFirstToLast` | src/index.ts:139 | the extracted text is at least two characters long, starts with `{`, ends with `}`, and is the slice from the reply's first `{` to its last `}` |
| `Extraction.ExtractIdempotent` | src/index.ts:139 | extracting again from the extracted text gives it back unchanged |
| `Extraction.ExtractIgnoresProse` | src/index.ts:139-145 | leading text without `{` and trailing text without `}` around an object leave the extracted object unchanged |
| `Extraction.ExtractWholeObject` | src/index.ts:139 | a reply that is one `{...}` object extracts to itself |
| `Extraction.ParseReply` | src/index.ts:137-149 | a missing or empty reply, or one with no brace pair, gives null; otherwise the result is exactly `JSON.parse` of the leftmost-longest match |
| `Extraction.ParseIgnoresProse` | src/index.ts:139-145 | an object with brace-free prose before and after it parses to exactly what `JSON.parse` makes of the object alone |
| `Extraction.ParseWholeObject` | src/index.ts:139-145 | a reply that is exactly one `{...}` object is handed to `JSON.parse` whole |
| `VoiceLink.JoinedReply` | src/index.ts:216 | the join confirmation ends with the channel's name |
| `VoiceLink.Exec` | src/index.ts:152-178 | renegotiation happens exactly for mute on a connected, unmuted link or unmute on a connected, muted link, and the flag flips then and only then; speech happens exactly when there is no mute/unmute command and the message is non-empty, and it is that message |
| `VoiceLink.ExecMuteUnmuteResult` | src/index.ts:156-172 | after mute a connected bot is muted, after unmute it is unmuted, and without a connection the link stays disconnected |
| `VoiceLink.ExecCommandIdempotent` | src/index.ts:156-172 | applying the same mute or unmute a second time changes nothing, renegotiates nothing and says nothing |
| `VoiceLink.ExecConversationKeepsLink` | src/index.ts:174-177 | a reply without a mute/unmute command never changes the link or renegotiates |
| `Tts.SpeakActions` | src/index.ts:55-72 | Busy makes no call at all, Idle two calls, NotConnected three, NotRunning four; otherwise the request ends with setting the text and `Play`; `StartHost` is called exactly when NotRunning (then `StartHost` before `Connect`); `Connect` exactly when NotRunning or NotConnected |
| `Tts.SpeechActions` | src/index.ts:175-177 | nothing to say makes no host call; a message makes exactly the calls of one speak request |
| `Tts.SpeakSaysText` | src/index.ts:55-72 | one speak request says its text exactly once, or nothing when the host is busy |
| `Tts.SpeakAppendsText` | src/index.ts:70-72 | speaking on a host that is not busy adds exactly its text to everything said so far |
| `Tts.TtsHost.Speak` | src/index.ts:55-84 | appends the dispatch's calls for the status found; afterwards the host is Idle (the poll loop has returned), or still Busy when the request was aborted |
| `Tts.TtsHost.constructor` | src/index.ts:37-40 | the host starts in the status it is found in, with no calls made |
| `Tts.TtsHost.Report` | src/index.ts:74-77 | the host process reports a status change, which is what the next read of `Status` sees; nothing else changes |
| `Tts.TtsHost.SpeakNoWait` | index.ts:54-74 | appends the same dispatch's calls and leaves the host status to the host |
| `Attachments.Pushed` | src/index.ts:96-100 | the new item is last; from a buffer of at most five, the result is exactly the newest five of the old items plus the new one |
| `Attachments.PushAllKeepsNewest` | src/index.ts:86-100 | after any number of insertions the buffer holds exactly the newest five of everything inserted, in arrival order, so never more than five |
| `Attachments.SixInsertionsEvictOldest` | src/index.ts:96-100 | inserting A..F into an empty buffer leaves B, C, D, E, F |
| `Attachments.AttachmentBuffer.constructor` | src/index.ts:86-94 | the buffer starts empty with the clearing timer armed at load time |
| `Attachments.AttachmentBuffer.Add` | src/index.ts:96-102 | keeps the newest five including the new capture, and re-arms the clearing timer from now |
| `Attachments.AttachmentBuffer.Tick` | src/index.ts:89-94 | the timer fires exactly when it is armed and 20 s have passed since the last refresh, and the buffer is then empty; otherwise nothing changes |
| `Prompts.TranscriptOf` | src/index.ts:320 | the first alternative's transcript, or the empty string when there is none |
| `Prompts.SpeechText` | src/index.ts:324 | the utterance text is the user-speech prefix followed by the transcript unchanged |
| `Prompts.CodeText` | src/index.ts:363 | an editor update is the code between the fenced-block header and footer |
| `Prompts.CodeRoundTrip` | src/index.ts:363 | the code is recovered unchanged from its framed trigger text |
| `Prompts.OutgoingParts` | src/index.ts:112-135 | a request has one part more than there are buffered images; the text comes first and carries the image prefix exactly when images are present; then one PNG part per image, in buffer order |
| `Ingress.HandleText` | src/index.ts:352-375 | "p5.js canvas" arms the binary flag and is acknowledged with no trigger; "p5.js" with a non-empty program gives exactly the framed code as trigger and no reply; an empty or missing program, or an unknown type, gets an error reply and no trigger; a missing type gets both error replies |
| `Relay.Relay.constructor` | src/index.ts:33-52 | module load: no voice connection, the idle clock stamped `now`, no idle timer, the gate free, an empty image buffer, one chat session, no binary frame expected, no request sent, the host untouched |
| `Relay.Relay.Submit` | src/index.ts:181-190 | a trigger is accepted exactly when no turn is in flight; a dropped one changes nothing, including `lastInteraction`; an accepted one takes the gate, stamps `now` and sends one request with the images buffered at that moment |
| `Relay.Relay.ExecCommand` | src/index.ts:152-178 | the link, the renegotiation count and the TTS calls change exactly as `Exec` prescribes for the current link; after speech the host is Idle, or still Busy when it was busy and the request was dropped |
| `Relay.Relay.CompleteTurn` | src/index.ts:188-198 | the gate is released on every path; an unparsable reply changes nothing else; a parsed one is applied once, as `Exec` prescribes, and after speech the host is Idle, or still Busy when it was busy |
| `Relay.Relay.OnTranscript` | src/index.ts:319-325 | an empty transcript changes nothing; a non-empty one is submitted with the utterance prefix, through the gate, and leaves the gate taken whether it was accepted or dropped |
| `Relay.Relay.IdleTick` | src/index.ts:296-303 | fires exactly when an idle timer exists and strictly more than two minutes have passed; a firing tick stamps `now` even if the gate then drops the idle prompt; only an accepted prompt adds a request |
| `Relay.Relay.OnTextFrame` | src/index.ts:352-377 | sends the replies `HandleText` gives, arms the binary flag for a canvas announcement, and submits the framed code through the gate; a frame with code leaves the gate taken, and a dropped frame leaves the gate and the idle clock as they were |
| `Relay.Relay.OnBinaryFrame` | src/index.ts:378-389 | a binary frame adds exactly one PNG capture and clears the flag when the flag is set; otherwise the buffer and its timer are untouched |
| `Relay.Relay.StartListening` | src/index.ts:267-303 | with a connection, creates a new chat session and leaves exactly one idle timer; without one, does nothing |
| `Relay.Relay.OnChatMessage` | src/index.ts:205-233 | `!join` from a member in a channel connects unmuted with a new session and one idle timer; `!leave` with a connection disconnects and removes the idle timer; every other case only replies, or is ignored |
| `Legacy.IdleSpeech` | index.ts:176-182 | the idle path speaks exactly when the parsed message is non-empty, whatever the command |
| `Legacy.IdleSpeaksDespiteMute` | index.ts:176-182 | for a mute reply with a message, the idle path of index.ts speaks it, but the command step does not speak and mutes an unmuted connection |
| `Legacy.LegacyBot.constructor` | index.ts:32-51 | module load: no voice connection, the idle clock stamped `now`, no idle timer, no chat session yet, no request sent, the host untouched |
| `Legacy.LegacyBot.OnSpeakingStart` | index.ts:146-147 | the start of voice activity stamps `lastInteraction` |
| `Legacy.LegacyBot.OnTranscript` | index.ts:203-254 | a non-empty transcript is sent without a prefix when a chat exists; an empty transcript, a missing chat or an unparsable reply change nothing else; a parsed reply is applied as `Exec` prescribes, with non-blocking speech |
| `Legacy.LegacyBot.IdleTick` | index.ts:166-187 | fires exactly when strictly more than two minutes have passed, stamping first; speaks a non-empty message and never changes the link or renegotiates |
| `Legacy.LegacyBot.StartListening` | index.ts:113-166 | with a connection, creates a chat session and leaves exactly one idle timer |
| `Legacy.LegacyBot.OnChatMessage` | index.ts:80-109 | `!join`/`!leave` behave as in src/index.ts: connect unmuted with a new session, or disconnect and remove the idle timer |
| `Scenarios.Burst` | src/index.ts:181-198 | of triggers arriving before any reply returns, only the first is accepted, and only if no turn was in flight; exactly that one request is sent |
| `Scenarios.IdleTwice` | src/index.ts:296-303 | after an idle tick fires, a second tick within two minutes does not fire |
| `Scenarios.InsertThenTick` | src/index.ts:89-101 | after an insertion, a tick clears the buffer exactly when 20 s have passed since it |
| `Scenarios.CanvasThenBinary` | src/index.ts:365-388 | a canvas announcement then a binary frame adds exactly one capture; a further binary frame without an announcement adds none |
| `Scenarios.ConversationTurn` | src/index.ts:181-198 | an utterance answered by a plain message speaks that message once and leaves the mute state alone |
| `Scenarios.MuteTurn` | src/index.ts:156-163 | an utterance answered by an empty-message mute speaks nothing and mutes an unmuted bot with one renegotiation |

## Left out

- Discord client, login, replies and the voice receiver: network I/O. Chat replies are returned as strings. The voice receiver's events are methods (`OnTranscript`, `OnSpeakingStart`).
- Opus decoding and Google Speech streaming recognition: audio I/O and a foreign service. Only the recognised transcript, as an `Option<string>`, reaches the model.
- Gemini chat sessions, their history and the system prompts: a foreign service. A session is a counter, and each reply is a parameter; a failed call is `None`.
- `JSON.parse`: a partial-function parameter. A `message` or `command` that is not a string has no representation: the record holds strings, so a truthy non-string `message` (for example `1`), which the code would hand to the voice host, is not modelled.
- Socket text frames are given already decoded. The unguarded `JSON.parse` at src/index.ts:354 throws on malformed frames, and that path is not modelled.
- Base64 encoding of captures: a library call. Request parts carry the capture's bytes.
- The A.I. VOICE COM object: exceptions thrown by `StartHost`, `Connect`, `Text` or `Play` are not modelled; the model assumes these calls return.
- The 100 ms poll until the host reports Idle: it is the final state of `Tts.TtsHost.Speak`. A host that never becomes Idle, which would keep the gate taken forever, is not modelled.
- Real timers: the 20 s clearing timeout and the 30 s idle interval are ticks with a `now` argument at arbitrary times. The 30 s polling period itself is not modelled.
- Async interleaving: in `src/index.ts` only the gate's two halves are separate events. In `index.ts` each handler runs to completion as one event, so overlapping transcript handlers are not modelled.
- `receiver.speaking.on('start', …)` listeners that pile up when `!join` is repeated on one connection: library behaviour, not modelled.
- The browser extension scripts: they only send the two frame shapes modelled in `Ingress`.
