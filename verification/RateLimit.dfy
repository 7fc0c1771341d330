/** The chat rate limiter: a fixed window per socket, and the sliding bound it
    really gives. Times are milliseconds. */
module RateLimit {
  import opened Common

  const RATE_LIMIT_WINDOW_MS := 60000
  const MAX_REQUESTS_PER_WINDOW := 120

  datatype Window = Window(startedAt: int, count: int)

  function CurrentWindow(window: Option<Window>, now: int): Window {
    if window.None? || now - window.value.startedAt > RATE_LIMIT_WINDOW_MS
    then Window(now, 0) else window.value
  }

  function Counted(window: Option<Window>, now: int): Window {
    var w := CurrentWindow(window, now);
    w.(count := w.count + 1)
  }

  predicate Allowed(window: Option<Window>, now: int) {
    Counted(window, now).count <= MAX_REQUESTS_PER_WINDOW
  }

  class ChatRateLimit {
    var rateLimit: Option<Window>

    constructor ()
      ensures rateLimit == None
    {
      rateLimit := None;
    }

    method Check(now: int) returns (ok: bool)
      modifies this
      ensures rateLimit == Some(Counted(old(rateLimit), now))
      ensures ok == Allowed(old(rateLimit), now)
    {
      var current := if rateLimit.Some? then rateLimit.value else Window(now, 0);
      if now - current.startedAt > RATE_LIMIT_WINDOW_MS {
        current := Window(now, 0);
      }
      current := current.(count := current.count + 1);
      rateLimit := Some(current);
      ok := current.count <= MAX_REQUESTS_PER_WINDOW;
    }
  }

  // ----- Runs ------------------------------------------------------------------

  predicate NonDecreasing(from: int, times: seq<int>)
    decreases |times|
  {
    times == [] || (from <= times[0] && NonDecreasing(times[0], times[1..]))
  }

  /** How many messages sent at `times` are accepted with a time in lo..hi. */
  function AcceptedIn(window: Option<Window>, times: seq<int>, lo: int, hi: int): nat
    decreases |times|
  {
    if times == [] then 0
    else (if lo <= times[0] <= hi && Allowed(window, times[0]) then 1 else 0)
         + AcceptedIn(Some(Counted(window, times[0])), times[1..], lo, hi)
  }

  /** Windows that can still start by `hi` after one that started at `start`. */
  function LaterWindows(start: int, hi: int): nat {
    if hi < start then 0 else (hi - start) / (RATE_LIMIT_WINDOW_MS + 1)
  }

  lemma {:induction false} AcceptedFrom(w: Window, times: seq<int>, lo: int, hi: int)
    requires NonDecreasing(w.startedAt, times) && w.count >= 0
    ensures AcceptedIn(Some(w), times, lo, hi)
            <= if hi < w.startedAt then 0
               else Max(0, MAX_REQUESTS_PER_WINDOW - w.count) + MAX_REQUESTS_PER_WINDOW * LaterWindows(w.startedAt, hi)
    decreases |times|
  {
    if times != [] {
      var next := Counted(Some(w), times[0]);
      StartsBefore(next.startedAt, times[0], times[1..]);
      AcceptedFrom(next, times[1..], lo, hi);
    }
  }

  lemma StartsBefore(start: int, from: int, times: seq<int>)
    requires start <= from && NonDecreasing(from, times)
    ensures NonDecreasing(start, times)
  {
  }

  /** In any interval of `span` ms at most 120 * (span / 60001 + 2) - 1 messages
      are accepted, whatever came before: two windows that both reach into it
      start more than 60000 ms apart, and the first one's opening message was
      sent before it. */
  lemma {:induction false} SlidingBound(window: Option<Window>, last: int, times: seq<int>, lo: int, span: nat)
    requires NonDecreasing(last, times)
    requires window.Some? ==> window.value.startedAt <= last && window.value.startedAt < lo && window.value.count >= 1
    ensures AcceptedIn(window, times, lo, lo + span)
            <= MAX_REQUESTS_PER_WINDOW * (span / (RATE_LIMIT_WINDOW_MS + 1) + 2) - 1
    decreases |times|
  {
    if times != [] {
      var next := Counted(window, times[0]);
      StartsBefore(next.startedAt, times[0], times[1..]);
      if times[0] < lo {
        SlidingBound(Some(next), times[0], times[1..], lo, span);
      } else {
        AcceptedFrom(next, times[1..], lo, lo + span);
      }
    }
  }

  /** A socket accepts at most 239 messages in any 60000 ms. */
  lemma AtMost239(first: int, times: seq<int>, lo: int)
    requires NonDecreasing(first, times)
    ensures AcceptedIn(None, times, lo, lo + RATE_LIMIT_WINDOW_MS) <= 239
  {
    SlidingBound(None, first, times, lo, RATE_LIMIT_WINDOW_MS);
  }

  function Repeat(time: int, n: nat, rest: seq<int>): seq<int> {
    if n == 0 then rest else [time] + Repeat(time, n - 1, rest)
  }

  lemma {:induction false} RepeatAccepted(w: Window, time: int, n: nat, rest: seq<int>, lo: int, hi: int)
    requires w.startedAt <= time <= w.startedAt + RATE_LIMIT_WINDOW_MS && lo <= time <= hi
    requires 0 <= w.count && w.count + n <= MAX_REQUESTS_PER_WINDOW
    requires NonDecreasing(time, rest)
    ensures NonDecreasing(w.startedAt, Repeat(time, n, rest)) && NonDecreasing(time, Repeat(time, n, rest))
    ensures AcceptedIn(Some(w), Repeat(time, n, rest), lo, hi)
            == n + AcceptedIn(Some(w.(count := w.count + n)), rest, lo, hi)
    decreases n
  {
    if n > 0 {
      RepeatAccepted(w.(count := w.count + 1), time, n - 1, rest, lo, hi);
      var times := Repeat(time, n, rest);
      assert times[0] == time && times[1..] == Repeat(time, n - 1, rest);
    } else {
      StartsBefore(w.startedAt, time, rest);
    }
  }

  /** The bound is reached: one message at 0, 119 at 60000 and 120 at 60001. */
  lemma Reaches239()
    ensures exists times :: NonDecreasing(0, times) && AcceptedIn(None, times, 60000, 60001) == 239
  {
    var late := [60001] + Repeat(60001, 119, []);
    RepeatAccepted(Window(60001, 1), 60001, 119, [], 60000, 60001);
    assert late[1..] == Repeat(60001, 119, []);
    RepeatAccepted(Window(0, 1), 60000, 119, late, 60000, 60001);
    var times := [0] + Repeat(60000, 119, late);
    assert times[1..] == Repeat(60000, 119, late);
    var full := Window(0, 120);
    assert Counted(Some(full), 60001) == Window(60001, 1);
    assert AcceptedIn(Some(full), late, 60000, 60001) == 120;
    assert Counted(None, 0) == Window(0, 1);
    assert AcceptedIn(None, times, 60000, 60001) == 239;
  }

  // ----- What is refused --------------------------------------------------------------

  /** The messages checked since the current window opened, the last one included. */
  function CheckedSince(times: seq<int>, lo: int): nat {
    if times == [] then 0 else CheckedSince(times[..|times| - 1], lo) + (if times[|times| - 1] >= lo then 1 else 0)
  }

  /** The state after a socket's messages. */
  function WindowAfter(times: seq<int>): Option<Window> {
    if times == [] then None else Some(Counted(WindowAfter(times[..|times| - 1]), times[|times| - 1]))
  }

  predicate InOrder(times: seq<int>) {
    forall i, j :: 0 <= i < j < |times| ==> times[i] <= times[j]
  }

  lemma {:induction false} WindowCounts(times: seq<int>)
    requires InOrder(times) && times != []
    ensures var w := WindowAfter(times).value;
            && times[|times| - 1] - w.startedAt <= RATE_LIMIT_WINDOW_MS && w.startedAt <= times[|times| - 1]
            && 1 <= w.count <= CheckedSince(times, w.startedAt)
  {
    var n := |times| - 1;
    if n > 0 {
      WindowCounts(times[..n]);
      var w := WindowAfter(times[..n]).value;
      assert times[n - 1] <= times[n];
    } else {
      assert times[..0] == [];
    }
  }

  /** A message is refused only when at least 121 messages, itself included, were sent
      in the last 60000 ms: a client that sends no more is never refused. */
  lemma {:induction false} RefusedOnlyOverLimit(times: seq<int>, now: int)
    requires InOrder(times + [now]) && !Allowed(WindowAfter(times), now)
    ensures CheckedSince(times + [now], now - 60000) >= 121
  {
    var all := times + [now];
    assert all[..|times|] == times;
    WindowCounts(all);
    SinceEarlier(all, now - 60000, WindowAfter(all).value.startedAt);
  }

  lemma {:induction false} SinceEarlier(times: seq<int>, lo: int, hi: int)
    requires lo <= hi
    ensures CheckedSince(times, hi) <= CheckedSince(times, lo)
  {
    if times != [] {
      SinceEarlier(times[..|times| - 1], lo, hi);
    }
  }
}
