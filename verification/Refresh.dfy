/**
 The render client's keep-alive loop: half-way to the deadline it believes in,
 it renews; if that deadline passes all the same, it pretends to have a little
 more time.
 */
module Refresh {
  import opened Options
  import opened Tables

  /** A duration divided by two, as Go divides. */
  function Half(d: Time): Time {
    if d >= 0 then d / 2 else -(-d / 2)
  }

  /** How long a timer set to `d` sleeps. */
  function Sleep(d: Time): nat {
    if d > 0 then d else 0
  }

  /** What the loop knows when it sets the timer. */
  datatype Belief = Belief(now: Time, deadline: Time, fellBack: bool)

  /** One turn: the timer is `lag` late, the call takes `elapsed` and yields a new deadline or an error. */
  datatype Turn = Turn(lag: nat, elapsed: nat, renewed: Option<Time>)

  /** The client's conclusion when a renewal ends at `now`. */
  function Conclude(now: Time, deadline: Time, renewed: Option<Time>, expiredRenewal: Time): Belief {
    var d := match renewed case Some(n) => n case None => deadline;
    if d < now then Belief(now, now + expiredRenewal, true) else Belief(now, d, false)
  }

  function After(b: Belief, t: Turn, expiredRenewal: Time): Belief {
    Conclude(b.now + Sleep(Half(b.deadline - b.now)) + t.lag + t.elapsed, b.deadline, t.renewed, expiredRenewal)
  }

  /** `log` is what the loop believes at its start and after each of `turns`. */
  predicate IsLog(log: seq<Belief>, turns: seq<Turn>, expiredRenewal: Time) {
    && |log| == |turns| + 1
    && forall i :: 0 <= i < |turns| ==> log[i + 1] == After(log[i], turns[i], expiredRenewal)
  }

  /**
   One turn, from one belief to the next: the loop sleeps half of what is left,
   a renewal brings a new deadline, a failure leaves the old one, and a deadline
   that has passed by then is replaced by one in `expiredRenewal` from now.
   */
  predicate IsTurn(b: Belief, t: Turn, b': Belief, expiredRenewal: Time) {
    && b'.now == b.now + (if b.deadline > b.now then (b.deadline - b.now) / 2 else 0) + t.lag + t.elapsed
    && (t.renewed.Some? && t.renewed.value >= b'.now ==> b'.deadline == t.renewed.value && !b'.fellBack)
    && (t.renewed.None? && b.deadline >= b'.now ==> b'.deadline == b.deadline && !b'.fellBack)
    && (t.renewed.Some? && t.renewed.value < b'.now ==> b'.deadline == b'.now + expiredRenewal && b'.fellBack)
    && (t.renewed.None? && b.deadline < b'.now ==> b'.deadline == b'.now + expiredRenewal && b'.fellBack)
  }

  /** The log of any run of the loop goes on by such turns. */
  lemma LogTurns(log: seq<Belief>, turns: seq<Turn>, expiredRenewal: Time, i: nat)
    requires IsLog(log, turns, expiredRenewal) && i < |turns|
    ensures IsTurn(log[i], turns[i], log[i + 1], expiredRenewal)
  {
    assert log[i + 1] == After(log[i], turns[i], expiredRenewal);
  }

  /** Runs until the render is over, which is when `turns` ends. */
  method Run(start: Time, refreshTime: Time, expiredRenewal: Time, turns: seq<Turn>) returns (log: seq<Belief>)
    ensures IsLog(log, turns, expiredRenewal)
    ensures forall i :: 0 <= i < |turns| ==> IsTurn(log[i], turns[i], log[i + 1], expiredRenewal)
    ensures log[0] == Belief(start, start + refreshTime, false)
  {
    var now := start;
    var nextTimeout := now + refreshTime;
    var timer := Half(nextTimeout - now);
    log := [Belief(now, nextTimeout, false)];
    for k := 0 to |turns|
      invariant IsLog(log, turns[..k], expiredRenewal)
      invariant log[0] == Belief(start, start + refreshTime, false)
      invariant log[k].now == now && log[k].deadline == nextTimeout && timer == Half(nextTimeout - now)
    {
      now := now + Sleep(timer) + turns[k].lag;
      now := now + turns[k].elapsed;
      if turns[k].renewed.Some? {
        nextTimeout := turns[k].renewed.value;
      }
      var fellBack := false;
      if nextTimeout < now {
        nextTimeout := now + expiredRenewal;
        fellBack := true;
      }
      timer := Half(nextTimeout - now);
      log := log + [Belief(now, nextTimeout, fellBack)];
    }
    assert turns[..|turns|] == turns;
    forall i | 0 <= i < |turns| ensures IsTurn(log[i], turns[i], log[i + 1], expiredRenewal) {
      LogTurns(log, turns, expiredRenewal, i);
    }
  }

  // ----- How often it tries

  function Pow2(k: nat): nat {
    if k == 0 then 1 else 2 * Pow2(k - 1)
  }

  function Log2(n: nat): nat
    requires n >= 1
  {
    if n == 1 then 0 else 1 + Log2(n / 2)
  }

  lemma {:induction false} Log2IsFloor(n: nat)
    requires n >= 1
    ensures Pow2(Log2(n)) <= n < Pow2(Log2(n) + 1)
  {
    if n > 1 {
      Log2IsFloor(n / 2);
    }
  }

  lemma {:induction false} Log2Monotone(m: nat, n: nat)
    requires 1 <= m <= n
    ensures Log2(m) <= Log2(n)
  {
    if m > 1 {
      Log2Monotone(m / 2, n / 2);
    }
  }

  /** Every attempt fails, and takes at least one tick. */
  predicate AllFail(turns: seq<Turn>) {
    forall i :: 0 <= i < |turns| ==> turns[i].renewed.None? && turns[i].elapsed >= 1
  }

  /**
   With every renewal failing and `left` ticks to go, one of the next
   floor(log2(left + 1)) + 1 attempts ends in the fallback.
   */
  lemma {:induction false} FewAttempts(log: seq<Belief>, turns: seq<Turn>, expiredRenewal: Time, i: nat)
    requires IsLog(log, turns, expiredRenewal) && AllFail(turns)
    requires i < |log| && log[i].deadline >= log[i].now
    requires i + Log2(log[i].deadline - log[i].now + 1) + 1 <= |turns|
    ensures exists j :: i < j <= i + Log2(log[i].deadline - log[i].now + 1) + 1 && log[j].fellBack
    decreases |log| - i
  {
    var left := log[i].deadline - log[i].now;
    assert log[i + 1] == After(log[i], turns[i], expiredRenewal);
    assert turns[i].renewed.None? && turns[i].elapsed >= 1;
    if !log[i + 1].fellBack {
      var left' := log[i + 1].deadline - log[i + 1].now;
      assert 0 <= left' && left' + 1 <= (left + 1) / 2;
      Log2Monotone(left' + 1, (left + 1) / 2);
      FewAttempts(log, turns, expiredRenewal, i + 1);
    }
  }

  /** The bound is exact: a punctual timer and calls of one tick need just that many attempts. */
  lemma {:induction false} NotFewer(log: seq<Belief>, turns: seq<Turn>, expiredRenewal: Time, i: nat, j: nat)
    requires IsLog(log, turns, expiredRenewal)
    requires forall k :: 0 <= k < |turns| ==> turns[k] == Turn(0, 1, None)
    requires i < j < |log| && log[i].deadline >= log[i].now
    requires j <= i + Log2(log[i].deadline - log[i].now + 1)
    ensures !log[j].fellBack
    decreases j - i
  {
    var left := log[i].deadline - log[i].now;
    assert turns[i] == Turn(0, 1, None);
    assert log[i + 1] == After(log[i], turns[i], expiredRenewal);
    assert left >= 1;
    assert !log[i + 1].fellBack && log[i + 1].deadline - log[i + 1].now + 1 == (left + 1) / 2;
    if i + 1 < j {
      NotFewer(log, turns, expiredRenewal, i + 1, j);
    }
  }
}
