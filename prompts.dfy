/**
 * The texts the bot sends to the model for each kind of trigger, and the
 * request built from a text and the buffered images.
 */
module Prompts {
  import opened Wrappers
  import opened Attachments

  const SpeechPrefix: string := "【ユーザー発話】"
  const IdlePrompt: string := "【ユーザーは何も話していないみたいなので、何か話を振ってあげてください】"
  const LegacyIdlePrompt: string := "しばらく誰も話していないみたい。何か軽い雑談をしてくれる？"
  const CodeHeader: string := "【p5.jsコード編集】\n```javascript\n"
  const CodeFooter: string := "\n```"
  const ImagePrefix: string := "【添付画像はp5.js実行結果の一部様子】"
  const ImageMimeType: string := "image/png"

  /** The transcript of a recognition result, `''` when it has none. */
  function TranscriptOf(result: Option<string>): (t: string)
    ensures result.Some? ==> t == result.value
    ensures result.None? ==> t == ""
  {
    result.GetOr("")
  }

  /** A user utterance as src/index.ts frames it. */
  function SpeechText(transcript: string): (t: string)
    ensures |t| == |SpeechPrefix| + |transcript|
    ensures t[..|SpeechPrefix|] == SpeechPrefix && t[|SpeechPrefix|..] == transcript
  {
    SpeechPrefix + transcript
  }

  /** An editor save: the code quoted as a fenced javascript block. */
  function CodeText(code: string): (t: string)
    ensures |t| == |CodeHeader| + |code| + |CodeFooter|
    ensures t[..|CodeHeader|] == CodeHeader && t[|t| - |CodeFooter|..] == CodeFooter
  {
    CodeHeader + code + CodeFooter
  }

  /** The code inside a framed editor update. */
  function CodeOf(t: string): string
    requires |t| >= |CodeHeader| + |CodeFooter|
  {
    t[|CodeHeader|..|t| - |CodeFooter|]
  }

  /** Framing loses nothing: the code is recovered from its trigger text. */
  lemma CodeRoundTrip(code: string)
    ensures CodeOf(CodeText(code)) == code
  {
  }

  /** A part of a `sendMessage` request. The base64 encoding of the image
      bytes is not modelled: the part carries the bytes themselves. */
  datatype Part = Text(text: string) | InlineImage(data: seq<bv8>, mimeType: string)

  /** The request `_passToGemini` sends: the text alone, or, when images are
      buffered, the prefixed text followed by one PNG part per image, in order. */
  function OutgoingParts(message: string, images: seq<Blob>): (parts: seq<Part>)
    ensures |parts| == |images| + 1
    ensures parts[0] == Text(if images == [] then message else ImagePrefix + message)
    ensures forall k :: 0 <= k < |images| ==> parts[k + 1] == InlineImage(images[k].bytes, ImageMimeType)
  {
    if images == [] then [Text(message)]
    else [Text(ImagePrefix + message)] + seq(|images|, k requires 0 <= k < |images| => InlineImage(images[k].bytes, ImageMimeType))
  }
}
