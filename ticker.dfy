/** The ticker: callbacks registered in order and fired together, once per
    tick, by a polling loop that `run` starts at most once. The loop reads
    the wall clock; here every reading is a parameter `now`, in milliseconds
    since the epoch. */
module Ticking {
  /** A registered callback, by handle; the ticker only ever calls it. */
  type Callback = nat

  /** The length of a tick in milliseconds, `1000 / tick_count`: the largest
      length of which `tick_count` ticks fit in a second. */
  function TickLength(tickCount: nat): (tl: nat)
    requires 0 < tickCount < 256
    ensures tl * tickCount <= 1000 < (tl + 1) * tickCount
    ensures 3 <= tl <= 1000
  {
    var tl := 1000 / tickCount;
    assert 1000 == tl * tickCount + 1000 % tickCount;
    tl
  }

  /** The millisecond within the current second, as the loop observes it. */
  function Millis(now: nat): (m: nat)
    ensures m < 1000
    ensures (now - m) % 1000 == 0
  {
    now % 1000
  }

  /** Multiplication by a natural number is monotonic. */
  lemma {:induction false} MulMono(x: nat, y: nat, k: nat)
    ensures x <= y ==> x * k <= y * k
    decreases if x <= y then y - x else 0
  {
    if x < y {
      MulMono(x, y - 1, k);
      assert y * k == (y - 1) * k + k;
    }
  }

  /** Quotient and remainder are determined by any decomposition. */
  lemma DivUnique(x: nat, tl: nat, q: nat, r: nat)
    requires tl > 0 && r < tl && x == q * tl + r
    ensures x / tl == q && x % tl == r
  {
    var q', r' := x / tl, x % tl;
    assert x == q' * tl + r';
    assert (q' + 1) * tl == q' * tl + tl;
    assert (q + 1) * tl == q * tl + tl;
    MulMono(q' + 1, q, tl);
    MulMono(q + 1, q', tl);
  }

  /** The next firing time after a firing at `t`: the smallest multiple of
      `tl` strictly greater than `t`. */
  function NextRunTime(t: nat, tl: nat): (n: nat)
    requires tl > 0
    ensures n % tl == 0
    ensures t < n <= t + tl
  {
    var q := t / tl;
    assert (q + 1) * tl == q * tl + tl;
    DivUnique((q + 1) * tl, tl, q + 1, 0);
    q * tl + tl
  }

  /** Two distinct multiples of `tl` are at least `tl` apart. */
  lemma MultiplesApart(a: nat, b: nat, tl: nat)
    requires tl > 0 && a % tl == 0 && b % tl == 0
    ensures a < b ==> a + tl <= b
  {
    var qa, qb := a / tl, b / tl;
    assert a == qa * tl && b == qb * tl;
    assert (qa + 1) * tl == qa * tl + tl;
    MulMono(qb, qa, tl);
    MulMono(qa + 1, qb, tl);
  }

  /** No multiple of `tl` lies strictly between `t` and `NextRunTime(t, tl)`. */
  lemma NextRunTimeIsSmallest(t: nat, tl: nat, m: nat)
    requires tl > 0 && m % tl == 0 && t < m
    ensures NextRunTime(t, tl) <= m
  {
    MultiplesApart(m, NextRunTime(t, tl), tl);
  }

  /** The guard of the loop as written: the millisecond within the second
      has reached the next firing time. */
  predicate FiresAsWritten(next: nat, now: nat)
  {
    Millis(now) >= next
  }

  /** The next firing time after one turn of the loop as written. */
  function NextAsWritten(next: nat, now: nat, tl: nat): nat
    requires tl > 0
  {
    if FiresAsWritten(next, now) then NextRunTime(Millis(now), tl) else next
  }

  /** The guard with the clock read absolutely rather than modulo a
      second. */
  predicate FiresCorrected(next: nat, now: nat)
  {
    now >= next
  }

  /** The next firing time after one turn of the corrected loop. */
  function NextCorrected(next: nat, now: nat, tl: nat): nat
    requires tl > 0
  {
    if FiresCorrected(next, now) then NextRunTime(now, tl) else next
  }

  /** The loop's next firing time, and how often it has fired. */
  datatype LoopState = LoopState(next: nat, firings: nat)

  /** The loop as written after turns at the clock readings `nows`. */
  function PollsAsWritten(s: LoopState, nows: seq<nat>, tl: nat): LoopState
    requires tl > 0
    decreases |nows|
  {
    if nows == [] then s
    else
      var fired := FiresAsWritten(s.next, nows[0]);
      PollsAsWritten(LoopState(NextAsWritten(s.next, nows[0], tl), s.firings + if fired then 1 else 0), nows[1..], tl)
  }

  /** The corrected loop after turns at the clock readings `nows`. */
  function PollsCorrected(s: LoopState, nows: seq<nat>, tl: nat): LoopState
    requires tl > 0
    decreases |nows|
  {
    if nows == [] then s
    else
      var fired := FiresCorrected(s.next, nows[0]);
      PollsCorrected(LoopState(NextCorrected(s.next, nows[0], tl), s.firings + if fired then 1 else 0), nows[1..], tl)
  }

  /** What the loop as written keeps: its next firing time is a multiple of
      the tick length that has moved at least one tick per firing, and every
      firing happened inside the first second's worth of slots. */
  ghost predicate WithinOneSecond(s: LoopState, tl: nat)
  {
    tl > 0 && s.next % tl == 0 && (s.firings + 1) * tl <= s.next && s.firings * tl < 1000
  }

  /** Whatever the clock readings, the loop as written keeps
      `WithinOneSecond`: a firing needs a next firing time below 1000, and
      each firing moves it up by at least a tick, so the loop fires fewer
      than `1000 / tl` times over its whole life. */
  lemma {:induction false} AsWrittenFiresAtMost(s: LoopState, nows: seq<nat>, tl: nat)
    requires WithinOneSecond(s, tl)
    ensures WithinOneSecond(PollsAsWritten(s, nows, tl), tl)
    decreases |nows|
  {
    if nows != [] {
      var now := nows[0];
      var s' := LoopState(NextAsWritten(s.next, now, tl), s.firings + if FiresAsWritten(s.next, now) then 1 else 0);
      if FiresAsWritten(s.next, now) {
        MultiplesApart(s.next, s'.next, tl);
        assert (s'.firings + 1) * tl == (s.firings + 1) * tl + tl;
        assert s'.firings * tl == (s.firings + 1) * tl;
      }
      AsWrittenFiresAtMost(s', nows[1..], tl);
    }
  }

  /** From the state `run` starts the loop in, the loop as written fires
      fewer than a second's worth of ticks in total, however long it runs. */
  lemma AsWrittenStalls(tickCount: nat, nows: seq<nat>)
    requires 0 < tickCount < 256
    ensures PollsAsWritten(LoopState(TickLength(tickCount), 0), nows, TickLength(tickCount)).firings * TickLength(tickCount) < 1000
  {
    AsWrittenFiresAtMost(LoopState(TickLength(tickCount), 0), nows, TickLength(tickCount));
  }

  /** With 20 ticks a second, a firing at millisecond 950 sets the next
      firing time to 1000, which no reading modulo a second reaches again. */
  lemma StallAtTwentyTicks(now: nat)
    ensures TickLength(20) == 50
    ensures FiresAsWritten(950, 950) && NextAsWritten(950, 950, 50) == 1000
    ensures !FiresAsWritten(1000, now)
  {
  }

  /** The polls of a loop that turns exactly at each next firing time: `k`
      readings, `tl` apart, from `start`. */
  function OnSchedule(start: nat, tl: nat, k: nat): (nows: seq<nat>)
    ensures |nows| == k
    decreases k
  {
    if k == 0 then [] else [start] + OnSchedule(start + tl, tl, k - 1)
  }

  /** The corrected loop fires at every tick: polled at its firing times it
      fires every time, `k` times in `k` ticks, for any `k`. */
  lemma {:induction false} CorrectedKeepsFiring(s: LoopState, tl: nat, k: nat)
    requires tl > 0 && s.next % tl == 0
    ensures PollsCorrected(s, OnSchedule(s.next, tl, k), tl) == LoopState(s.next + k * tl, s.firings + k)
    decreases k
  {
    if k > 0 {
      var nows := OnSchedule(s.next, tl, k);
      assert nows[0] == s.next && nows[1..] == OnSchedule(s.next + tl, tl, k - 1);
      var n := NextRunTime(s.next, tl);
      NextRunTimeIsSmallest(s.next, tl, s.next + tl) by {
        assert (s.next + tl) % tl == 0;
      }
      assert n == s.next + tl;
      CorrectedKeepsFiring(LoopState(n, s.firings + 1), tl, k - 1);
      assert n + (k - 1) * tl == s.next + k * tl;
    }
  }

  /** After a firing of the corrected loop, the next one is due within a
      tick, and in a later slot than the one that fired: at most one firing
      per tick. */
  lemma CorrectedOncePerSlot(next: nat, now: nat, later: nat, tl: nat)
    requires tl > 0 && FiresCorrected(next, now)
    requires FiresCorrected(NextCorrected(next, now, tl), later)
    ensures now < NextCorrected(next, now, tl) <= now + tl
    ensures later / tl > now / tl
  {
    var n := NextCorrected(next, now, tl);
    assert n == (now / tl + 1) * tl;
    assert later < (later / tl + 1) * tl by {
      assert later == (later / tl) * tl + later % tl;
      assert (later / tl + 1) * tl == (later / tl) * tl + tl;
    }
    MulMono(later / tl + 1, now / tl + 1, tl);
  }

  class Ticker {
    const tickCount: nat
    /** The registered callbacks, in registration order. */
    var callbacks: seq<Callback>
    var running: bool
    /** The polling loops started so far. */
    var loops: nat
    /** The tick length and next firing time of the polling loop. */
    var tickLength: nat
    var nextRunTime: nat
    /** Every callback call made so far, in order. */
    var invoked: seq<Callback>

    /** The tick count fits a byte; at most one loop exists, exactly when
        the ticker runs, and its next firing time is on a tick boundary. */
    ghost predicate Valid()
      reads this
    {
      tickCount < 256 && loops == (if running then 1 else 0) &&
      (running ==> 0 < tickCount && tickLength == TickLength(tickCount) && nextRunTime % tickLength == 0)
    }

    constructor (tickCount: nat)
      requires tickCount < 256
      ensures Valid() && this.tickCount == tickCount
      ensures callbacks == [] && !running && invoked == []
    {
      this.tickCount := tickCount;
      callbacks := [];
      running := false;
      loops := 0;
      tickLength := 0;
      nextRunTime := 0;
      invoked := [];
    }

    /** `register`: the callback goes last. */
    method Register(callback: Callback)
      requires Valid()
      modifies this
      ensures Valid() && callbacks == old(callbacks) + [callback]
      ensures running == old(running) && loops == old(loops) && nextRunTime == old(nextRunTime)
      ensures tickLength == old(tickLength) && invoked == old(invoked)
    {
      callbacks := callbacks + [callback];
    }

    /** `run`: the first call starts the one polling loop, due one tick
        after the start of a second; any later call changes nothing. A zero
        tick count divides by zero in the source. */
    method Run()
      requires Valid() && tickCount > 0
      modifies this
      ensures Valid() && running && loops == 1
      ensures old(running) ==> tickLength == old(tickLength) && nextRunTime == old(nextRunTime)
      ensures !old(running) ==> tickLength == TickLength(tickCount) && nextRunTime == tickLength
      ensures callbacks == old(callbacks) && invoked == old(invoked)
    {
      var tl := 1000 / tickCount;
      var next := tl;
      if !running {
        running := true;
        loops := loops + 1;
        tickLength := tl;
        nextRunTime := next;
        assert tl % tl == 0;
      }
    }

    /** Calls every registered callback once, in registration order. */
    method FireAll()
      modifies this
      ensures invoked == old(invoked) + callbacks
      ensures callbacks == old(callbacks) && running == old(running) && loops == old(loops)
      ensures tickLength == old(tickLength) && nextRunTime == old(nextRunTime)
    {
      var k := 0;
      while k < |callbacks|
        invariant 0 <= k <= |callbacks|
        invariant invoked == old(invoked) + callbacks[..k]
        invariant callbacks == old(callbacks) && running == old(running) && loops == old(loops)
        invariant tickLength == old(tickLength) && nextRunTime == old(nextRunTime)
      {
        invoked := invoked + [callbacks[k]];
        assert callbacks[..k + 1] == callbacks[..k] + [callbacks[k]];
        k := k + 1;
      }
      assert callbacks[..k] == callbacks;
    }

    /** One turn of the polling loop as the source writes it, at clock
        reading `now`: the millisecond within the second is compared with
        the next firing time. */
    method PollAsWritten(now: nat) returns (fired: bool)
      requires Valid() && running
      modifies this
      ensures Valid() && running && fired == FiresAsWritten(old(nextRunTime), now)
      ensures nextRunTime == NextAsWritten(old(nextRunTime), now, tickLength)
      ensures invoked == old(invoked) + if fired then callbacks else []
      ensures callbacks == old(callbacks) && running && loops == old(loops) && tickLength == old(tickLength)
    {
      var millis := now % 1000;
      fired := millis >= nextRunTime;
      if fired {
        nextRunTime := (millis / tickLength) * tickLength + tickLength;
        assert nextRunTime == NextRunTime(millis, tickLength);
        FireAll();
      }
    }

    /** One turn of the corrected polling loop: the clock reading itself is
        compared with the next firing time. */
    method Poll(now: nat) returns (fired: bool)
      requires Valid() && running
      modifies this
      ensures Valid() && running && fired == FiresCorrected(old(nextRunTime), now)
      ensures nextRunTime == NextCorrected(old(nextRunTime), now, tickLength)
      ensures invoked == old(invoked) + if fired then callbacks else []
      ensures callbacks == old(callbacks) && running && loops == old(loops) && tickLength == old(tickLength)
    {
      fired := now >= nextRunTime;
      if fired {
        nextRunTime := (now / tickLength) * tickLength + tickLength;
        assert nextRunTime == NextRunTime(now, tickLength);
        FireAll();
      }
    }
  }
}
