/** WatchFile: one timer, restarted by every change, calls the handler 50 ms after the last of a burst of
    changes. Time is in milliseconds; the handler takes no time.
 */
module Watcher {

  const DEBOUNCE_DELAY: nat := 50

  /** What arrives on the watcher's two channels. `first` settles the race when a change arrives in the very
      millisecond in which the timer expires: the event loop gets to restart the timer first, or not. */
  datatype Notice = Changed(at: nat, first: bool) | WatchError(at: nat)

  datatype Timer = Stopped | Armed(expires: nat)

  predicate AllChanged(c: seq<Notice>) {
    forall i :: 0 <= i < |c| ==> c[i].Changed?
  }

  function Changes(notices: seq<Notice>): (c: seq<Notice>)
    ensures AllChanged(c)
  {
    if notices == [] then []
    else Changes(notices[..|notices| - 1]) + if notices[|notices| - 1].Changed? then [notices[|notices| - 1]] else []
  }

  // ---- The declared meaning ----

  /** Change `i` is the last of its burst: the next change does not come in time to restart the timer. */
  predicate EndsBurst(c: seq<Notice>, i: nat)
    requires i < |c| && AllChanged(c)
  {
    i + 1 < |c| ==> c[i].at + DEBOUNCE_DELAY < c[i + 1].at
                     || (c[i].at + DEBOUNCE_DELAY == c[i + 1].at && !c[i + 1].first)
  }

  /** The changes among the first `n` that end a burst. */
  function BurstEnds(c: seq<Notice>, n: nat): (ends: seq<nat>)
    requires n <= |c| && AllChanged(c)
    ensures forall k :: 0 <= k < |ends| ==> ends[k] < n && EndsBurst(c, ends[k])
  {
    if n == 0 then [] else BurstEnds(c, n - 1) + if EndsBurst(c, n - 1) then [n - 1] else []
  }

  function CallbackTimes(c: seq<Notice>, ends: seq<nat>): (times: seq<nat>)
    requires forall k :: 0 <= k < |ends| ==> ends[k] < |c|
    ensures |times| == |ends|
    ensures forall k :: 0 <= k < |ends| ==> times[k] == c[ends[k]].at + DEBOUNCE_DELAY
  {
    if ends == [] then []
    else CallbackTimes(c, ends[..|ends| - 1]) + [c[ends[|ends| - 1]].at + DEBOUNCE_DELAY]
  }

  function Callbacks(c: seq<Notice>): seq<nat>
    requires AllChanged(c)
  {
    CallbackTimes(c, BurstEnds(c, |c|))
  }

  // ---- The event loop ----

  /** The state of the loop after `n` changes: the calls made so far, and the one still to come. */
  ghost predicate LoopState(c: seq<Notice>, n: nat, timer: Timer, callbacks: seq<nat>)
    requires n <= |c| && AllChanged(c)
  {
    match timer
    case Stopped => callbacks == CallbackTimes(c, BurstEnds(c, n)) && (n == 0 || EndsBurst(c, n - 1))
    case Armed(expires) =>
      0 < n && expires == c[n - 1].at + DEBOUNCE_DELAY && callbacks == CallbackTimes(c, BurstEnds(c, n - 1))
  }

  /** The loop of WatchFile over everything received until the channels close; after that the timer still
      runs out. Returns the times at which the handler was called. */
  method WatchLoop(notices: seq<Notice>) returns (callbacks: seq<nat>)
    requires forall i, j :: 0 <= i < j < |notices| ==> notices[i].at <= notices[j].at
    ensures callbacks == Callbacks(Changes(notices))
  {
    callbacks := [];
    var timer := Stopped;
    ghost var c := Changes(notices);
    for i := 0 to |notices|
      invariant |Changes(notices[..i])| <= |c|
      invariant LoopState(c, |Changes(notices[..i])|, timer, callbacks)
    {
      ghost var n := |Changes(notices[..i])|;
      var notice := notices[i];
      NextChange(notices, i);
      if timer.Armed? && Expired(timer.expires, notice) {
        TimerFires(c, n, timer, callbacks);
        callbacks := callbacks + [timer.expires];
        timer := Stopped;
      }
      match notice
      case Changed(at, _) =>
        ChangeRestarts(c, n, timer, callbacks);
        timer := Armed(at + DEBOUNCE_DELAY);
      case WatchError(_) =>
    }
    assert notices[..|notices|] == notices;
    if timer.Armed? {
      TimerFires(c, |c|, timer, callbacks);
      callbacks := callbacks + [timer.expires];
    }
  }

  /** The timer has run out by the time the loop handles `notice`. */
  predicate Expired(expires: nat, notice: Notice) {
    expires < notice.at || (expires == notice.at && notice.Changed? && !notice.first)
  }

  lemma TimerFires(c: seq<Notice>, n: nat, timer: Timer, callbacks: seq<nat>)
    requires n <= |c| && AllChanged(c) && LoopState(c, n, timer, callbacks) && timer.Armed?
    requires EndsBurst(c, n - 1)
    ensures LoopState(c, n, Stopped, callbacks + [timer.expires])
  {
    BurstEndsLast(c, n);
  }

  lemma ChangeRestarts(c: seq<Notice>, n: nat, timer: Timer, callbacks: seq<nat>)
    requires n < |c| && AllChanged(c) && LoopState(c, n, timer, callbacks)
    requires timer.Armed? ==> !Expired(timer.expires, c[n])
    ensures LoopState(c, n + 1, Armed(c[n].at + DEBOUNCE_DELAY), callbacks)
  {
    if timer.Armed? {
      assert !EndsBurst(c, n - 1);
    }
  }

  lemma BurstEndsLast(c: seq<Notice>, n: nat)
    requires 0 < n <= |c| && AllChanged(c)
    requires EndsBurst(c, n - 1)
    ensures CallbackTimes(c, BurstEnds(c, n)) == CallbackTimes(c, BurstEnds(c, n - 1)) + [c[n - 1].at + DEBOUNCE_DELAY]
  {
    var ends := BurstEnds(c, n);
    assert ends[..|ends| - 1] == BurstEnds(c, n - 1);
  }

  lemma {:induction false} ChangesConcat(a: seq<Notice>, b: seq<Notice>)
    ensures Changes(a + b) == Changes(a) + Changes(b)
  {
    if b == [] {
      assert a + b == a;
    } else {
      assert (a + b)[..|a + b| - 1] == a + b[..|b| - 1];
      ChangesConcat(a, b[..|b| - 1]);
    }
  }

  lemma ChangesStep(before: seq<Notice>, notice: Notice)
    ensures Changes(before + [notice]) == Changes(before) + if notice.Changed? then [notice] else []
  {
    assert (before + [notice])[..|before|] == before;
  }

  lemma ChangesUpTo(notices: seq<Notice>, i: nat)
    requires i < |notices|
    ensures Changes(notices[..i + 1]) == Changes(notices[..i]) + if notices[i].Changed? then [notices[i]] else []
  {
    assert notices[..i + 1] == notices[..i] + [notices[i]];
    ChangesStep(notices[..i], notices[i]);
  }

  lemma ChangesSplit(notices: seq<Notice>, i: nat)
    requires i <= |notices|
    ensures Changes(notices) == Changes(notices[..i]) + Changes(notices[i..])
  {
    assert notices == notices[..i] + notices[i..];
    ChangesConcat(notices[..i], notices[i..]);
  }

  lemma {:induction false} ChangesFrom(notices: seq<Notice>)
    ensures forall k :: 0 <= k < |Changes(notices)| ==> Changes(notices)[k] in notices
  {
    if notices != [] {
      ChangesFrom(notices[..|notices| - 1]);
    }
  }

  /** The next change, if any, is the notice at hand or a later one. */
  lemma NextChange(notices: seq<Notice>, i: nat)
    requires i < |notices| && forall j, k :: 0 <= j < k < |notices| ==> notices[j].at <= notices[k].at
    ensures var n := |Changes(notices[..i])|; var c := Changes(notices);
            && n <= |c|
            && |Changes(notices[..i + 1])| == n + (if notices[i].Changed? then 1 else 0)
            && |Changes(notices[..i + 1])| <= |c|
            && (n < |c| ==> notices[i].at <= c[n].at)
            && (notices[i].Changed? ==> c[n] == notices[i])
  {
    ChangesUpTo(notices, i);
    ChangesSplit(notices, i + 1);
    var rest := notices[i + 1..];
    var later := Changes(rest);
    ChangesFrom(rest);
    if later != [] {
      var k :| 0 <= k < |rest| && rest[k] == later[0];
      assert later[0] == notices[i + 1 + k];
    }
  }

  // ---- What the meaning promises ----

  lemma {:induction false} BurstEndsIncrease(c: seq<Notice>, n: nat)
    requires n <= |c| && AllChanged(c)
    ensures forall k, l :: 0 <= k < l < |BurstEnds(c, n)| ==> BurstEnds(c, n)[k] < BurstEnds(c, n)[l]
    ensures forall i :: 0 <= i < n && EndsBurst(c, i) ==> i in BurstEnds(c, n)
  {
    if n > 0 {
      BurstEndsIncrease(c, n - 1);
      var before, ends := BurstEnds(c, n - 1), BurstEnds(c, n);
      assert forall k :: 0 <= k < |before| ==> ends[k] == before[k];
      forall i | 0 <= i < n && EndsBurst(c, i)
        ensures i in ends
      {
        assert i == n - 1 ==> ends[|ends| - 1] == i;
      }
    }
  }

  /** `ends` cuts the changes into bursts: inside a burst the changes are at most 50 ms apart, between bursts
      at least 50 ms. */
  ghost predicate Bursts(c: seq<Notice>, ends: seq<nat>) {
    && (forall k :: 0 <= k < |ends| ==> ends[k] < |c|)
    && (forall k, l :: 0 <= k < l < |ends| ==> ends[k] < ends[l])
    && (c != [] ==> ends != [] && ends[|ends| - 1] == |c| - 1)
    && (forall i :: 0 <= i < |c| - 1 ==> c[i + 1].at <= c[i].at + 50 || i in ends)
    && (forall k :: 0 <= k < |ends| && ends[k] < |c| - 1 ==> c[ends[k]].at + 50 <= c[ends[k] + 1].at)
  }

  /** The handler is called once per burst, 50 ms after its last change. */
  lemma {:induction false} OneCallbackPerBurst(c: seq<Notice>)
    requires AllChanged(c)
    ensures var ends := BurstEnds(c, |c|);
            && Bursts(c, ends) && |Callbacks(c)| == |ends|
            && forall k :: 0 <= k < |ends| ==> Callbacks(c)[k] == c[ends[k]].at + 50
  {
    BurstsHold(c);
    CallbackEach(c, BurstEnds(c, |c|));
  }

  lemma CallbackEach(c: seq<Notice>, ends: seq<nat>)
    requires AllChanged(c) && ends == BurstEnds(c, |c|)
    ensures |Callbacks(c)| == |ends| && forall k :: 0 <= k < |ends| ==> ends[k] < |c|
    ensures forall k :: 0 <= k < |ends| ==> Callbacks(c)[k] == c[ends[k]].at + 50
  {
  }

  lemma {:induction false} BurstsHold(c: seq<Notice>)
    requires AllChanged(c)
    ensures Bursts(c, BurstEnds(c, |c|))
  {
    var ends := BurstEnds(c, |c|);
    BurstEndsIncrease(c, |c|);
    assert forall k :: 0 <= k < |ends| ==> ends[k] < |c| && EndsBurst(c, ends[k]);
    if c != [] {
      assert EndsBurst(c, |c| - 1);
      var k :| 0 <= k < |ends| && ends[k] == |c| - 1;
    }
    forall i | 0 <= i < |c| - 1
      ensures c[i + 1].at <= c[i].at + 50 || i in ends
    {
      assert EndsBurst(c, i) || c[i + 1].at <= c[i].at + 50;
    }
  }

  /** Where bursts end: before a longer pause, and before one of exactly 50 ms if the timer is handled first. */
  lemma {:induction false} BurstsEndExactly(c: seq<Notice>, i: nat)
    requires AllChanged(c) && i < |c|
    ensures i in BurstEnds(c, |c|)
        <==> i == |c| - 1 || c[i].at + 50 < c[i + 1].at || (c[i].at + 50 == c[i + 1].at && !c[i + 1].first)
  {
    BurstEndsIncrease(c, |c|);
    var ends := BurstEnds(c, |c|);
    assert forall k :: 0 <= k < |ends| ==> EndsBurst(c, ends[k]);
  }

  /** No two calls are closer than 50 ms. */
  lemma {:induction false} CallbacksApart(c: seq<Notice>, k: nat, l: nat)
    requires AllChanged(c) && k < l < |Callbacks(c)|
    requires forall e, f :: 0 <= e < f < |c| ==> c[e].at <= c[f].at
    ensures Callbacks(c)[k] + 50 <= Callbacks(c)[l]
  {
    OneCallbackPerBurst(c);
    var ends := BurstEnds(c, |c|);
    assert ends[k] + 1 <= ends[l] < |c|;
    assert ends[k] + 1 == ends[l] || c[ends[k] + 1].at <= c[ends[l]].at;
  }

  /** No change falls strictly inside the 50 ms before a call. */
  lemma {:induction false} QuietBeforeCallback(c: seq<Notice>, k: nat, i: nat)
    requires AllChanged(c) && k < |Callbacks(c)| && i < |c|
    requires forall e, f :: 0 <= e < f < |c| ==> c[e].at <= c[f].at
    ensures !(Callbacks(c)[k] < c[i].at + 50 && c[i].at < Callbacks(c)[k])
  {
    OneCallbackPerBurst(c);
    var e := BurstEnds(c, |c|)[k];
    assert i < e ==> c[i].at <= c[e].at;
    assert e + 1 < i ==> c[e + 1].at <= c[i].at;
  }

  lemma EndIsReported(c: seq<Notice>, e: nat)
    requires AllChanged(c) && e < |c| && EndsBurst(c, e)
    ensures c[e].at + 50 in Callbacks(c)
  {
    var ends := BurstEnds(c, |c|);
    BurstEndsIncrease(c, |c|);
    var k :| 0 <= k < |ends| && ends[k] == e;
    assert Callbacks(c)[k] == c[e].at + 50;
  }

  /** No change is missed: the burst of change `i` ends at a change `e`, not before `i`, that is reached from `i`
      in steps of at most 50 ms and whose call comes. */
  lemma EveryChangeReported(c: seq<Notice>, i: nat) returns (e: nat)
    requires AllChanged(c) && i < |c|
    ensures i <= e < |c| && c[e].at + 50 in Callbacks(c)
    ensures forall j :: i <= j < e ==> c[j + 1].at <= c[j].at + 50
    decreases |c| - i
  {
    if EndsBurst(c, i) {
      e := i;
      EndIsReported(c, i);
    } else {
      e := EveryChangeReported(c, i + 1);
    }
  }
}
