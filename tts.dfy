/**
 * Speech output: the A.I. VOICE host seen only through its status and the
 * calls made on it (`_textToSpeech` in src/index.ts, `textToSpeech` in index.ts).
 */
module Tts {
  import opened Wrappers

  /** `HostStatus`, numbered 0..3 in the source. */
  datatype HostStatus = NotRunning | NotConnected | Idle | Busy

  /** A call made on the TTS control object. */
  datatype Action = StartHost | Connect | SetText(text: string) | Play

  /** The calls one speak request makes, given the status it finds:
      `Busy` aborts, `NotRunning` starts the host and connects,
      `NotConnected` connects, `Idle` goes straight to setting text and playing. */
  function SpeakActions(status: HostStatus, text: string): (acts: seq<Action>)
    ensures acts == [] <==> status == Busy
    ensures |acts| == match status case Busy => 0 case Idle => 2 case NotConnected => 3 case NotRunning => 4
    ensures status != Busy ==> |acts| >= 2 && acts[|acts| - 2..] == [SetText(text), Play]
    ensures StartHost in acts <==> status == NotRunning
    ensures Connect in acts <==> status == NotRunning || status == NotConnected
    ensures status == NotRunning ==> acts[0] == StartHost && acts[1] == Connect
    ensures forall a :: a in acts && a.SetText? ==> a.text == text
  {
    match status
    case Busy => []
    case NotRunning => [StartHost, Connect, SetText(text), Play]
    case NotConnected => [Connect, SetText(text), Play]
    case Idle => [SetText(text), Play]
  }

  /** The calls made for an optional speech act: none when there is nothing to say. */
  function SpeechActions(status: HostStatus, speech: Option<string>): (acts: seq<Action>)
    ensures speech.None? ==> acts == []
    ensures speech.Some? ==> acts == SpeakActions(status, speech.value)
  {
    match speech
    case None => []
    case Some(text) => SpeakActions(status, text)
  }

  /** The texts set before each `Play`, in order. */
  function Spoken(acts: seq<Action>): (texts: seq<string>)
    ensures |texts| <= |acts|
  {
    if acts == [] then []
    else (if acts[0].SetText? then [acts[0].text] else []) + Spoken(acts[1..])
  }

  lemma {:induction false} SpokenAppend(a: seq<Action>, b: seq<Action>)
    ensures Spoken(a + b) == Spoken(a) + Spoken(b)
  {
    if a == [] {
      assert a + b == b;
    } else {
      assert (a + b)[1..] == a[1..] + b;
      SpokenAppend(a[1..], b);
    }
  }

  /** A speak request says its text exactly once, or not at all when the host is busy. */
  lemma SpeakSaysText(status: HostStatus, text: string)
    ensures Spoken(SpeakActions(status, text)) == if status == Busy then [] else [text]
  {
    var tail := [SetText(text), Play];
    assert Spoken([Play]) == [] by { assert [Play][1..] == []; }
    assert Spoken(tail) == [text] by { assert tail[1..] == [Play]; }
    assert Spoken([Connect]) == [] by { assert [Connect][1..] == []; }
    assert Spoken([StartHost, Connect]) == [] by { assert [StartHost, Connect][1..] == [Connect]; }
    match status
    case Busy =>
    case Idle =>
    case NotConnected =>
      SpokenAppend([Connect], tail);
    case NotRunning =>
      SpokenAppend([StartHost, Connect], tail);
  }

  /** Speaking on a host that is not busy adds exactly its text to what has been said. */
  lemma SpeakAppendsText(acts: seq<Action>, status: HostStatus, text: string)
    requires status != Busy
    ensures Spoken(acts + SpeakActions(status, text)) == Spoken(acts) + [text]
  {
    SpokenAppend(acts, SpeakActions(status, text));
    SpeakSaysText(status, text);
  }

  class TtsHost {
    var status: HostStatus
    /** Every call made on the host so far. */
    var actions: seq<Action>

    constructor (initial: HostStatus)
      ensures status == initial && actions == []
    {
      status := initial;
      actions := [];
    }

    /** `_textToSpeech` (src/index.ts): dispatch on the status, then set the
        text, play, and wait until the host reports `Idle` again. */
    method Speak(text: string)
      modifies this
      ensures actions == old(actions) + SpeakActions(old(status), text)
      ensures status == if old(status) == Busy then Busy else Idle
    {
      if status == Busy {
        return;
      }
      if status == NotRunning {
        actions := actions + [StartHost, Connect];
      } else if status == NotConnected {
        actions := actions + [Connect];
      }
      actions := actions + [SetText(text), Play];
      // The 100 ms poll resolves once the host reports Idle.
      status := Idle;
    }

    /** `textToSpeech` (index.ts): the same dispatch, but it returns right
        after `Play`; the status stays whatever the host reports. */
    method SpeakNoWait(text: string)
      modifies this`actions
      ensures actions == old(actions) + SpeakActions(status, text)
    {
      if status == Busy {
        return;
      }
      if status == NotRunning {
        actions := actions + [StartHost, Connect];
      } else if status == NotConnected {
        actions := actions + [Connect];
      }
      actions := actions + [SetText(text), Play];
    }

    /** The host process reports a new status (playback finished, host closed, ...). */
    method Report(s: HostStatus)
      modifies this`status
      ensures status == s
    {
      status := s;
    }
  }
}
