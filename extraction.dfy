/**
 * The reply parser shared by both versions of the bot: the greedy regular
 * expression `{[\s\S]*}` picks the JSON object out of the model's free text,
 * and `JSON.parse` turns it into a `{message, command}` record.
 *
 * `JSON.parse` itself is not modelled: it is passed in as a partial function
 * `jsonParse` that yields `None` where the real parser throws.
 */
module Extraction {
  import opened Wrappers

  /** The record the model is asked to reply with. A missing `message` is
      represented by "", which is falsy in the source as well; a message that
      is not a string has no representation here. */
  datatype Reply = Reply(message: string, command: Option<string>)

  /** The commands the bot reacts to; any other `command` value is ignored. */
  datatype Command = Mute | Unmute | NoCommand

  function CommandOf(command: Option<string>): (c: Command)
    ensures c == Mute <==> command == Some("mute")
    ensures c == Unmute <==> command == Some("unmute")
  {
    match command
    case Some(name) =>
      if name == "mute" then Mute else if name == "unmute" then Unmute else NoCommand
    case None => NoCommand
  }

  /** Position of the first `c` in `s`, if there is one. */
  function FirstIndex(s: string, c: char): (r: Option<nat>)
    ensures r.None? <==> c !in s
    ensures r.Some? ==> r.value < |s| && s[r.value] == c && c !in s[..r.value]
  {
    if |s| == 0 then None
    else if s[0] == c then Some(0)
    else match FirstIndex(s[1..], c)
      case None => None
      case Some(i) =>
        assert s[1..][..i] == s[1..i + 1];
        Some(i + 1)
  }

  /** Position of the last `c` in `s`, if there is one. */
  function LastIndex(s: string, c: char): (r: Option<nat>)
    ensures r.None? <==> c !in s
    ensures r.Some? ==> r.value < |s| && s[r.value] == c && c !in s[r.value + 1..]
  {
    if |s| == 0 then None
    else if s[|s| - 1] == c then Some(|s| - 1)
    else match LastIndex(s[..|s| - 1], c)
      case None =>
        assert s == s[..|s| - 1] + [s[|s| - 1]];
        None
      case Some(i) =>
        assert s[i + 1..] == s[..|s| - 1][i + 1..] + [s[|s| - 1]];
        Some(i)
  }

  lemma AbsentBefore(s: string, c: char, n: nat)
    requires n <= |s| && c !in s[..n]
    ensures forall k :: 0 <= k < n ==> s[k] != c
  {
  }

  lemma AbsentAfter(s: string, c: char, n: nat)
    requires n <= |s| && c !in s[n..]
    ensures forall k :: n <= k < |s| ==> s[k] != c
  {
  }

  /** `s[i..j+1]` is a match of `{[\s\S]*}`: it opens with `{` and closes with `}`. */
  ghost predicate IsMatch(s: string, i: int, j: int) {
    0 <= i < j < |s| && s[i] == '{' && s[j] == '}'
  }

  /** The match a JavaScript regular expression reports: the leftmost start,
      and the longest match there, since `[\s\S]*` is greedy. */
  ghost predicate IsLeftmostLongest(s: string, i: int, j: int) {
    IsMatch(s, i, j) &&
    forall i', j' :: IsMatch(s, i', j') ==> i < i' || (i == i' && j' <= j)
  }

  /** `s.match(/{[\s\S]*}/)`: the text from the first `{` to the last `}`,
      or `None` when no `{` is followed by a `}`. */
  function Extract(s: string): (r: Option<string>)
    ensures r.None? <==> forall i, j :: !IsMatch(s, i, j)
    ensures forall i, j :: IsLeftmostLongest(s, i, j) ==> r == Some(s[i..j + 1])
    ensures r.Some? ==> exists i, j :: IsLeftmostLongest(s, i, j)
  {
    match (FirstIndex(s, '{'), LastIndex(s, '}'))
    case (Some(i), Some(j)) =>
      AbsentBefore(s, '{', i);
      AbsentAfter(s, '}', j + 1);
      if i < j then
        assert IsLeftmostLongest(s, i, j);
        Some(s[i..j + 1])
      else
        None
    case (None, _) => None
    case (_, None) => None
  }

  /** The extracted text starts with `{`, ends with `}`, begins at the first
      `{` of the reply and ends at its last `}`. */
  lemma ExtractSpansFirstToLast(s: string)
    requires Extract(s).Some?
    ensures var t := Extract(s).value;
      2 <= |t| && t[0] == '{' && t[|t| - 1] == '}' &&
      exists i :: 0 <= i && i + |t| <= |s| && t == s[i..i + |t|] && '{' !in s[..i] && '}' !in s[i + |t|..]
  {
  }

  /** Prose around the object is tolerated: text without `{` before it and
      text without `}` after it do not change what is extracted. */
  lemma ExtractIgnoresProse(pre: string, json: string, post: string)
    requires 2 <= |json| && json[0] == '{' && json[|json| - 1] == '}'
    requires '{' !in pre && '}' !in post
    ensures Extract(pre + json + post) == Some(json)
  {
    var s := pre + json + post;
    var j := |pre| + |json| - 1;
    assert s[|pre|] == '{' && s[j] == '}';
    forall k | 0 <= k < |pre| ensures s[k] != '{' {
      assert s[k] == pre[k];
    }
    forall k | j < k < |s| ensures s[k] != '}' {
      assert s[k] == post[k - |pre| - |json|];
    }
    assert IsLeftmostLongest(s, |pre|, j);
    assert s[|pre|..j + 1] == json;
  }

  /** A text that is one `{...}` object extracts to itself. */
  lemma ExtractWholeObject(json: string)
    requires 2 <= |json| && json[0] == '{' && json[|json| - 1] == '}'
    ensures Extract(json) == Some(json)
  {
    ExtractIgnoresProse("", json, "");
    assert "" + json + "" == json;
  }

  /** Extraction is idempotent: the extracted text extracts to itself. */
  lemma ExtractIdempotent(s: string)
    requires Extract(s).Some?
    ensures Extract(Extract(s).value) == Extract(s)
  {
    var t := Extract(s).value;
    ExtractSpansFirstToLast(s);
    ExtractWholeObject(t);
  }

  /** `_passToGemini` after the model call: an empty or missing reply text,
      a reply without a brace pair, or a `JSON.parse` failure all give `None`. */
  function ParseReply(text: Option<string>, jsonParse: string -> Option<Reply>): (r: Option<Reply>)
    ensures (text.None? || text.value == "") ==> r.None?
    ensures text.Some? && Extract(text.value).None? ==> r.None?
    ensures r.Some? ==> exists i, j :: IsLeftmostLongest(text.value, i, j) && r == jsonParse(text.value[i..j + 1])
    ensures text.Some? && text.value != "" && Extract(text.value).Some? ==>
      r == jsonParse(Extract(text.value).value)
  {
    match text
    case None => None
    case Some(t) =>
      if t == "" then None
      else match Extract(t)
        case None => None
        case Some(json) => jsonParse(json)
  }

  /** A reply that is exactly one JSON object is handed to `JSON.parse` whole. */
  lemma ParseWholeObject(json: string, jsonParse: string -> Option<Reply>)
    requires 2 <= |json| && json[0] == '{' && json[|json| - 1] == '}'
    ensures ParseReply(Some(json), jsonParse) == jsonParse(json)
  {
    ExtractWholeObject(json);
  }

  /** The parse tolerates prose: an object with brace-free text around it is
      handed to `JSON.parse` on its own, and its record is the result. */
  lemma ParseIgnoresProse(pre: string, json: string, post: string, jsonParse: string -> Option<Reply>)
    requires 2 <= |json| && json[0] == '{' && json[|json| - 1] == '}'
    requires '{' !in pre && '}' !in post
    ensures ParseReply(Some(pre + json + post), jsonParse) == jsonParse(json)
  {
    ExtractIgnoresProse(pre, json, post);
  }
}
