/**
 * The rolling buffer of canvas captures (`imgTmpBinaries`, `addBinary` and
 * the `clearing` timer in src/index.ts): at most five images, the oldest
 * evicted first, and everything dropped after 20 s without an insertion.
 */
module Attachments {

  const Capacity: nat := 5
  const ClearDelayMs: int := 20000

  /** A captured canvas: its bytes and the `type` given to the `Blob`. */
  datatype Blob = Blob(bytes: seq<bv8>, mimeType: string)

  /** The last `n` elements of `s` (all of `s` when it is shorter). */
  function Newest<T>(s: seq<T>, n: nat): (r: seq<T>)
    ensures |r| == if |s| <= n then |s| else n
    ensures forall k :: 0 <= k < |r| ==> r[k] == s[|s| - |r| + k]
  {
    if |s| <= n then s else s[|s| - n..]
  }

  /** `addBinary` on the list: `push`, then one `shift` when it has grown past five. */
  function Pushed<T>(items: seq<T>, x: T): (r: seq<T>)
    ensures |r| > 0 && r[|r| - 1] == x
    ensures |items| <= Capacity ==> r == Newest(items + [x], Capacity)
  {
    var grown := items + [x];
    if |grown| > Capacity then grown[1..] else grown
  }

  /** Inserting the elements of `xs` one after another. */
  function PushAll<T>(items: seq<T>, xs: seq<T>): seq<T>
    decreases |xs|
  {
    if xs == [] then items else PushAll(Pushed(items, xs[0]), xs[1..])
  }

  lemma NewestTwice<T>(s: seq<T>, t: seq<T>, n: nat)
    ensures Newest(Newest(s, n) + t, n) == Newest(s + t, n)
  {
  }

  /** However many images arrive, the buffer holds exactly the newest five of
      everything inserted, in arrival order. */
  lemma {:induction false} PushAllKeepsNewest<T>(items: seq<T>, xs: seq<T>)
    requires |items| <= Capacity
    ensures PushAll(items, xs) == Newest(items + xs, Capacity)
    ensures |PushAll(items, xs)| <= Capacity
    decreases |xs|
  {
    if xs == [] {
      assert items + xs == items;
    } else {
      var next := Pushed(items, xs[0]);
      PushAllKeepsNewest(next, xs[1..]);
      NewestTwice(items + [xs[0]], xs[1..], Capacity);
      assert items + [xs[0]] + xs[1..] == items + xs;
    }
  }

  /** Inserting A, B, C, D, E, F into an empty buffer leaves [B, C, D, E, F]. */
  lemma SixInsertionsEvictOldest()
    ensures PushAll([], "ABCDEF") == "BCDEF"
  {
  }

  class AttachmentBuffer {
    var items: seq<Blob>
    /** When the one-shot `clearing` timer was last started or refreshed. */
    var refreshedAt: int
    /** The timer has been (re)armed and has not fired since. */
    var pending: bool

    ghost predicate Valid()
      reads this
    {
      |items| <= Capacity && (!pending ==> items == [])
    }

    /** The list starts empty and the timer is armed at load time. */
    constructor (now: int)
      ensures Valid() && items == [] && pending && refreshedAt == now
    {
      items := [];
      refreshedAt := now;
      pending := true;
    }

    /** `addBinary`: insert, evicting the oldest past five, and `clearing.refresh()`. */
    method Add(b: Blob, now: int)
      requires Valid()
      modifies this
      ensures Valid()
      ensures items == Pushed(old(items), b) && items == Newest(old(items) + [b], Capacity)
      ensures pending && refreshedAt == now
    {
      items := items + [b];
      if |items| > Capacity {
        items := items[1..];
      }
      refreshedAt := now;
      pending := true;
    }

    /** The event loop at time `now`: the timer fires when it is armed and
        20 s have passed since it was last refreshed, and then empties the list. */
    method Tick(now: int) returns (fired: bool)
      requires Valid()
      modifies this`items, this`pending
      ensures Valid()
      ensures fired <==> old(pending) && now - refreshedAt >= ClearDelayMs
      ensures fired ==> items == [] && !pending
      ensures !fired ==> items == old(items) && pending == old(pending)
    {
      fired := pending && now - refreshedAt >= ClearDelayMs;
      if fired {
        items := [];
        pending := false;
      }
    }
  }
}
