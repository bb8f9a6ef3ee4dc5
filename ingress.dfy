/**
 * The WebSocket ingress of src/index.ts: text frames carrying `{type, ...}`
 * events from the p5.js editor extension.
 */
module Ingress {
  import opened Wrappers
  import opened Prompts

  const MalformedReply: string := "不正フォーマット"
  const CanvasAck: string := "p5.js canvas受信"
  const UnsupportedReply: string := "未対応のタイプです"
  const CodeType: string := "p5.js"
  const CanvasType: string := "p5.js canvas"

  /** A decoded text frame; absent fields are `None`. */
  datatype WsMessage = WsMessage(msgType: Option<string>, nowProgram: Option<string>)

  /** What one text frame causes: the replies sent back on the socket, in
      order, the trigger text submitted (if any), and whether it arms `expectBinary`. */
  datatype FrameOutcome = FrameOutcome(replies: seq<string>, trigger: Option<string>, armsBinary: bool)

  /** A field is present and truthy: not missing and not the empty string. */
  predicate Truthy(field: Option<string>) {
    field.Some? && field.value != ""
  }

  /** The text-frame branch of the `message` handler. A falsy `type` gets a
      reply and still falls through to the `switch`, whose default replies again. */
  function HandleText(m: WsMessage): (o: FrameOutcome)
    ensures o.armsBinary <==> m.msgType == Some(CanvasType)
    ensures o.trigger.Some? <==> m.msgType == Some(CodeType) && Truthy(m.nowProgram)
    ensures o.trigger.Some? ==> o.trigger.value == CodeText(m.nowProgram.value)
    ensures o.armsBinary ==> o.replies == [CanvasAck]
    ensures o.trigger.Some? ==> o.replies == []
    ensures !Truthy(m.msgType) ==> o.replies == [MalformedReply, UnsupportedReply]
    ensures Truthy(m.msgType) && m.msgType != Some(CodeType) && m.msgType != Some(CanvasType) ==>
      o.replies == [UnsupportedReply]
    ensures m.msgType == Some(CodeType) && !Truthy(m.nowProgram) ==> o.replies == [MalformedReply]
  {
    var first := if Truthy(m.msgType) then [] else [MalformedReply];
    if m.msgType == Some(CodeType) then
      if Truthy(m.nowProgram) then FrameOutcome(first, Some(CodeText(m.nowProgram.value)), false)
      else FrameOutcome(first + [MalformedReply], None, false)
    else if m.msgType == Some(CanvasType) then
      FrameOutcome(first + [CanvasAck], None, true)
    else
      FrameOutcome(first + [UnsupportedReply], None, false)
  }
}
