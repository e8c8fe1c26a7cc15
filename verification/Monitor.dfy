/**
 * The respawn monitor of src/process_monitor.cpp (run_with_monitor): a worker
 * is launched again and again, after an exponentially growing pause, until too
 * many launches fall into a sliding window. The clock and the worker's fate
 * are parameters; powers of two are unbounded.
 */
module Monitor {
  import opened Basics

  type Time = int

  datatype Fate = Returned(code: int) | Threw

  /** One turn of the loop: the clock reading at its top and how the worker ends if it is launched. */
  datatype Turn = Turn(now: Time, fate: Fate)

  datatype ServiceOptions = ServiceOptions(persist: bool, respawnMax: int, window: Time, delay: Time)

  predicate Fails(fate: Fate) { fate.Threw? || fate.code != 0 }

  function Times(turns: seq<Turn>): (ts: seq<Time>)
    ensures |ts| == |turns| && forall i :: 0 <= i < |turns| ==> ts[i] == turns[i].now
  {
    seq(|turns|, i requires 0 <= i < |turns| => turns[i].now)
  }

  ghost predicate Sorted(ts: seq<Time>) {
    forall i, j :: 0 <= i <= j < |ts| ==> ts[i] <= ts[j]
  }

  /** The readings in the closed interval. */
  function Between(ts: seq<Time>, lo: Time, hi: Time): seq<Time> {
    if ts == [] then []
    else
      var n := |ts| - 1;
      Between(ts[..n], lo, hi) + if lo <= ts[n] <= hi then [ts[n]] else []
  }

  function Pow2(n: nat): nat { if n == 0 then 1 else 2 * Pow2(n - 1) }

  /** How many failures in a row end a history. */
  function FailCount(turns: seq<Turn>): nat {
    if turns == [] || !Fails(turns[|turns| - 1].fate) then 0 else FailCount(turns[..|turns| - 1]) + 1
  }

  function PauseAfter(o: ServiceOptions, failCount: nat): Time {
    o.delay * Pow2(failCount)
  }

  function Pause(o: ServiceOptions, before: seq<Turn>): Time {
    PauseAfter(o, FailCount(before))
  }

  function Pauses(o: ServiceOptions, turns: seq<Turn>): seq<Time> {
    if turns == [] then [] else Pauses(o, turns[..|turns| - 1]) + [Pause(o, turns[..|turns| - 1])]
  }

  /** The readings that lie in the window ending at reading k, which is one of them. */
  function InWindow(o: ServiceOptions, ts: seq<Time>, k: nat): seq<Time>
    requires k < |ts|
  {
    Between(ts[..k + 1], ts[k] - o.window, ts[k])
  }

  /** Turn k is refused: with it, the window holds more than respawnMax readings. */
  predicate Refused(o: ServiceOptions, ts: seq<Time>, k: nat)
    requires k < |ts|
  {
    o.respawnMax > 0 && |InWindow(o, ts, k)| > o.respawnMax
  }

  lemma BetweenSnoc(ts: seq<Time>, t: Time, lo: Time, hi: Time)
    ensures Between(ts + [t], lo, hi) == Between(ts, lo, hi) + if lo <= t <= hi then [t] else []
  {
    assert (ts + [t])[..|ts|] == ts;
  }

  lemma SuffixSnoc(ts: seq<Time>, c: nat)
    requires c < |ts|
    ensures ts[c..] == ts[..|ts| - 1][c..] + [ts[|ts| - 1]]
  {
  }

  /** A prefix outside the interval and a rest inside it: the filter is the rest. */
  lemma {:induction false} BetweenIsSuffix(ts: seq<Time>, c: nat, lo: Time, hi: Time)
    requires c <= |ts|
    requires forall i :: 0 <= i < c ==> !(lo <= ts[i] <= hi)
    requires forall i :: c <= i < |ts| ==> lo <= ts[i] <= hi
    ensures Between(ts, lo, hi) == ts[c..]
  {
    if ts != [] {
      var n := |ts| - 1;
      if c <= n {
        BetweenIsSuffix(ts[..n], c, lo, hi);
        SuffixSnoc(ts, c);
      } else {
        BetweenIsSuffix(ts[..n], n, lo, hi);
        assert ts[..n][n..] == [] && ts[c..] == [];
      }
    }
  }

  /** Drops the readings at the front that have left the window. */
  method PopOld(starts: seq<Time>, now: Time, window: Time) returns (rest: seq<Time>, ghost dropped: nat)
    ensures dropped <= |starts| && rest == starts[dropped..]
    ensures forall i :: 0 <= i < dropped ==> now - starts[i] > window
    ensures rest != [] ==> now - rest[0] <= window
  {
    rest := starts;
    dropped := 0;
    while rest != [] && now - rest[0] > window
      invariant dropped <= |starts| && rest == starts[dropped..]
      invariant forall i :: 0 <= i < dropped ==> now - starts[i] > window
      decreases |rest|
    {
      rest := rest[1..];
      dropped := dropped + 1;
    }
  }

  /** What the deque holds after turn i: the history from some point on, all older readings being out of the window. */
  ghost predicate DequeFrom(o: ServiceOptions, ts: seq<Time>, i: nat, c: nat, starts: seq<Time>) {
    && c <= i <= |ts| && starts == ts[c..i]
    && (forall j :: 0 <= j < c ==> i > 0 && ts[j] < ts[i - 1] - o.window)
  }

  lemma DequeIsWindow(o: ServiceOptions, ts: seq<Time>, i: nat, c: nat, starts: seq<Time>)
    requires Sorted(ts) && o.window >= 0 && i < |ts|
    requires DequeFrom(o, ts, i + 1, c, starts) && (c <= i ==> ts[i] - ts[c] <= o.window)
    ensures starts == InWindow(o, ts, i)
  {
    var h := ts[..i + 1];
    forall j | c <= j < |h| ensures ts[i] - o.window <= h[j] <= ts[i] {
      assert ts[c] <= ts[j] <= ts[i];
    }
    BetweenIsSuffix(h, c, ts[i] - o.window, ts[i]);
    assert h[c..] == starts;
  }

  /** One turn of the deque: push the reading, pop what is too old. */
  method Slide(o: ServiceOptions, ghost ts: seq<Time>, ghost i: nat, ghost c: nat, starts: seq<Time>, now: Time)
    returns (next: seq<Time>, ghost d: nat)
    requires Sorted(ts) && o.window >= 0 && i < |ts| && now == ts[i] && DequeFrom(o, ts, i, c, starts)
    ensures next == InWindow(o, ts, i) && DequeFrom(o, ts, i + 1, d, next)
  {
    var pushed := starts + [now];
    assert pushed == ts[c..i + 1];
    ghost var dropped;
    next, dropped := PopOld(pushed, now, o.window);
    d := c + dropped;
    forall j | 0 <= j < d ensures ts[j] < ts[i] - o.window {
      if j < c {
        assert ts[i - 1] <= ts[i];
      } else {
        assert pushed[j - c] == ts[j];
      }
    }
    DequeIsWindow(o, ts, i, d, next);
  }

  /** What a launch adds to the pauses and to the count of failures. */
  lemma TurnTaken(o: ServiceOptions, turns: seq<Turn>, i: nat)
    requires i < |turns|
    ensures Pauses(o, turns[..i + 1]) == Pauses(o, turns[..i]) + [PauseAfter(o, FailCount(turns[..i]))]
    ensures FailCount(turns[..i + 1]) == if Fails(turns[i].fate) then FailCount(turns[..i]) + 1 else 0
    ensures Times(turns)[..i + 1] == Times(turns)[..i] + [turns[i].now]
  {
    assert turns[..i + 1][..i] == turns[..i];
  }

  /** n turns were launched, none of them refused. */
  ghost predicate Launched(o: ServiceOptions, turns: seq<Turn>, n: nat, launches: seq<Time>, pauses: seq<Time>) {
    && n <= |turns| && launches == Times(turns)[..n] && pauses == Pauses(o, turns[..n])
    && forall k :: 0 <= k < n ==> !Refused(o, Times(turns), k)
  }

  lemma LaunchedMore(o: ServiceOptions, turns: seq<Turn>, n: nat, launches: seq<Time>, pauses: seq<Time>)
    requires Launched(o, turns, n, launches, pauses) && n < |turns| && !Refused(o, Times(turns), n)
    ensures Launched(o, turns, n + 1, launches + [turns[n].now], pauses + [PauseAfter(o, FailCount(turns[..n]))])
    ensures FailCount(turns[..n + 1]) == if Fails(turns[n].fate) then FailCount(turns[..n]) + 1 else 0
  {
    TurnTaken(o, turns, n);
  }

  /** The loop of run_with_monitor over a history of turns. */
  method Respawn(o: ServiceOptions, turns: seq<Turn>)
    returns (launches: seq<Time>, pauses: seq<Time>, starts: seq<Time>, stopped: bool)
    requires Sorted(Times(turns)) && o.window >= 0
    ensures Launched(o, turns, |launches|, launches, pauses)
    ensures stopped <==> |launches| < |turns|
    ensures stopped ==> Refused(o, Times(turns), |launches|)
    ensures turns != [] ==> starts == InWindow(o, Times(turns), if stopped then |launches| else |launches| - 1)
  {
    launches, pauses, starts, stopped := [], [], [], false;
    ghost var ts := Times(turns);
    var failCount := 0;
    ghost var c := 0;
    var i := 0;
    while i < |turns|
      invariant 0 <= i <= |turns| && |launches| == i
      invariant Launched(o, turns, i, launches, pauses)
      invariant failCount == FailCount(turns[..i])
      invariant DequeFrom(o, ts, i, c, starts)
      invariant i > 0 ==> starts == InWindow(o, ts, i - 1)
    {
      var now := turns[i].now;
      starts, c := Slide(o, ts, i, c, starts, now);
      if o.respawnMax > 0 && |starts| > o.respawnMax {
        stopped := true;
        return;
      }
      LaunchedMore(o, turns, i, launches, pauses);
      launches := launches + [now];
      var rc := match turns[i].fate case Returned(code) => code case Threw => 1;
      pauses := pauses + [PauseAfter(o, failCount)];
      if rc != 0 {
        failCount := failCount + 1;
      } else {
        failCount := 0;
      }
      i := i + 1;
    }
  }

  // ---------------------------------------------------------------- the pauses

  /** Exactly the m workers before turn k ended otherwise than by returning 0. */
  ghost predicate FailedJustBefore(turns: seq<Turn>, k: nat, m: nat) {
    && m <= k <= |turns|
    && (forall j :: k - m <= j < k ==> turns[j].fate != Returned(0))
    && (m < k ==> turns[k - m - 1].fate == Returned(0))
  }

  lemma {:induction false} CountExactly(turns: seq<Turn>, k: nat, m: nat)
    requires FailedJustBefore(turns, k, m)
    ensures FailCount(turns[..k]) == m
  {
    if m > 0 {
      CountExactly(turns, k - 1, m - 1);
      assert turns[..k][..k - 1] == turns[..k - 1];
    }
  }

  /** After m failures in a row the pause is 2^m delays; an exception is a failure, a zero return starts over. */
  lemma {:induction false} PauseExactly(o: ServiceOptions, turns: seq<Turn>, k: nat, m: nat)
    requires k < |turns| && FailedJustBefore(turns, k, m)
    ensures |Pauses(o, turns)| == |turns| && Pauses(o, turns)[k] == o.delay * Pow2(m)
  {
    var n := |turns| - 1;
    PausesLength(o, turns);
    if k == n {
      CountExactly(turns, k, m);
    } else {
      PauseExactly(o, turns[..n], k, m);
    }
  }

  lemma {:induction false} PausesLength(o: ServiceOptions, turns: seq<Turn>)
    ensures |Pauses(o, turns)| == |turns|
  {
    if turns != [] { PausesLength(o, turns[..|turns| - 1]); }
  }

  // ---------------------------------------------------------------- the sliding-window limit

  /** No turn of the history was refused: exactly the histories of launches. */
  ghost predicate AllLaunched(o: ServiceOptions, ts: seq<Time>) {
    forall k :: 0 <= k < |ts| ==> !Refused(o, ts, k)
  }

  lemma {:induction false} BetweenGrows(ts: seq<Time>, lo: Time, hi: Time, lo2: Time, hi2: Time)
    requires forall i :: 0 <= i < |ts| && lo <= ts[i] <= hi ==> lo2 <= ts[i] <= hi2
    ensures |Between(ts, lo, hi)| <= |Between(ts, lo2, hi2)|
  {
    if ts != [] {
      BetweenGrows(ts[..|ts| - 1], lo, hi, lo2, hi2);
    }
  }

  lemma LaunchedPrefix(o: ServiceOptions, ts: seq<Time>, n: nat)
    requires n <= |ts| && AllLaunched(o, ts)
    ensures AllLaunched(o, ts[..n])
  {
    forall k | 0 <= k < n ensures !Refused(o, ts[..n], k) {
      assert ts[..n][..k + 1] == ts[..k + 1];
      assert !Refused(o, ts, k);
    }
  }

  /** The closed interval as long as the window that begins here contains at most respawnMax readings. */
  predicate Spaced(o: ServiceOptions, ts: seq<Time>, from: Time) {
    |Between(ts, from, from + o.window)| <= o.respawnMax
  }

  /** Any closed interval as long as the window contains at most respawnMax launches. */
  lemma {:induction false} WindowLimit(o: ServiceOptions, ts: seq<Time>, from: Time)
    requires o.respawnMax > 0 && Sorted(ts) && AllLaunched(o, ts)
    ensures Spaced(o, ts, from)
  {
    if ts != [] {
      var n := |ts| - 1;
      if from <= ts[n] <= from + o.window {
        assert ts[..n + 1] == ts;
        assert !Refused(o, ts, n);
        BetweenGrows(ts, from, from + o.window, ts[n] - o.window, ts[n]);
      } else {
        LaunchedPrefix(o, ts, n);
        WindowLimit(o, ts[..n], from);
      }
    }
  }

  /** The monitor gives up only when exactly respawnMax earlier launches lie in the window of the refused turn. */
  lemma RefusedExactly(o: ServiceOptions, ts: seq<Time>, k: nat)
    requires k < |ts| && Sorted(ts) && o.window >= 0
    requires AllLaunched(o, ts[..k]) && Refused(o, ts, k)
    ensures |Between(ts[..k], ts[k] - o.window, ts[k])| == o.respawnMax
  {
    assert ts[..k + 1] == ts[..k] + [ts[k]];
    BetweenSnoc(ts[..k], ts[k], ts[k] - o.window, ts[k]);
    WindowLimit(o, ts[..k], ts[k] - o.window);
  }

  /** The two limits, read off the launches of a history. */
  lemma LaunchesAreLimited(o: ServiceOptions, turns: seq<Turn>, n: nat, launches: seq<Time>, pauses: seq<Time>)
    requires Sorted(Times(turns)) && o.window >= 0 && Launched(o, turns, n, launches, pauses)
    ensures o.respawnMax > 0 ==> forall from :: Spaced(o, launches, from)
    ensures n < |turns| && Refused(o, Times(turns), n) ==>
              var now := turns[n].now; |Between(launches, now - o.window, now)| == o.respawnMax
  {
    var ts := Times(turns);
    forall k | 0 <= k < n ensures !Refused(o, launches, k) {
      assert ts[..n][..k + 1] == ts[..k + 1];
      assert !Refused(o, ts, k);
    }
    if o.respawnMax > 0 {
      forall from ensures Spaced(o, launches, from) {
        WindowLimit(o, launches, from);
      }
    }
    if n < |turns| && Refused(o, ts, n) {
      RefusedExactly(o, ts, n);
    }
  }

  /**
   * run_with_monitor over a history of turns: `launches` are the readings at
   * which the worker was started, `pauses` what was slept after each, and
   * `stopped` says that the limit ended the loop before the history did.
   */
  method RunWithMonitor(o: ServiceOptions, turns: seq<Turn>)
    returns (launches: seq<Time>, pauses: seq<Time>, starts: seq<Time>, stopped: bool)
    requires Sorted(Times(turns)) && o.window >= 0
    ensures !o.persist ==> launches == Times(turns)[..Min(1, |turns|)] && pauses == [] && !stopped
    // it stops at the first refused turn, and only there
    ensures o.persist ==> Launched(o, turns, |launches|, launches, pauses)
    ensures o.persist ==> (stopped <==> |launches| < |turns|)
    ensures o.persist && stopped ==> o.respawnMax > 0 && Refused(o, Times(turns), |launches|)
    // so any closed interval as long as the window sees at most respawnMax launches, and the refused attempt exactly that
    ensures o.persist && o.respawnMax > 0 ==>
              forall from :: Spaced(o, launches, from)
    ensures o.persist && stopped ==>
              var now := turns[|launches|].now; |Between(launches, now - o.window, now)| == o.respawnMax
    // the deque is the history of readings filtered to the window
    ensures o.persist && turns != [] ==>
              starts == InWindow(o, Times(turns), if stopped then |launches| else |launches| - 1)
  {
    launches, pauses, starts, stopped := [], [], [], false;
    if o.persist {
      launches, pauses, starts, stopped := Respawn(o, turns);
      LaunchesAreLimited(o, turns, |launches|, launches, pauses);
    } else if turns != [] {
      launches := [turns[0].now];
    }
  }

  // ---------------------------------------------------------------- backoff against the limit

  ghost predicate AllFail(turns: seq<Turn>) {
    forall i :: 0 <= i < |turns| ==> Fails(turns[i].fate)
  }

  function Sum(ts: seq<Time>): Time {
    if ts == [] then 0 else Sum(ts[..|ts| - 1]) + ts[|ts| - 1]
  }

  lemma Distribute(d: int, p: int, q: int)
    ensures d * (p - q) + d * p == d * (2 * p - q)
  {
  }

  lemma Factor(d: int, a: int, b: int)
    ensures d * (a * b - a) == d * a * (b - 1)
  {
  }

  lemma Scale(d: int, a: int, b: int)
    requires d >= 0 && a >= 1 && b >= 1
    ensures d * a * (b - 1) >= d * (b - 1)
  {
    assert d * a * (b - 1) == a * (d * (b - 1));
    assert d * (b - 1) >= 0;
  }

  /** Every turn from i on fails. */
  ghost predicate FailFrom(turns: seq<Turn>, i: nat) {
    forall k :: i <= k < |turns| ==> Fails(turns[k].fate)
  }

  /** From a zero count, the count is the number of failures since. */
  lemma {:induction false} FailuresAddUp(turns: seq<Turn>, i: nat)
    requires i <= |turns| && FailCount(turns[..i]) == 0 && FailFrom(turns, i)
    ensures FailCount(turns) == |turns| - i
  {
    var n := |turns| - 1;
    if i == |turns| {
      assert turns[..i] == turns;
    } else {
      assert turns[..n][..i] == turns[..i];
      FailuresAddUp(turns[..n], i);
    }
  }

  lemma LastPause(o: ServiceOptions, turns: seq<Turn>)
    requires turns != []
    ensures var before := turns[..|turns| - 1];
            Sum(Pauses(o, turns)) == Sum(Pauses(o, before)) + PauseAfter(o, FailCount(before))
  {
    var before := turns[..|turns| - 1];
    assert Pauses(o, turns)[..|Pauses(o, turns)| - 1] == Pauses(o, before);
  }

  lemma NextTotal(d: int, m: nat)
    ensures d * (Pow2(m) - 1) + d * Pow2(m) == d * (Pow2(m + 1) - 1)
  {
    Distribute(d, Pow2(m), 1);
  }

  /** Whenever the count is zero, m failures in a row from there are slept delay * (2^m - 1) in all. */
  lemma {:induction false} TotalPause(o: ServiceOptions, turns: seq<Turn>, i: nat)
    requires i <= |turns| && FailCount(turns[..i]) == 0 && FailFrom(turns, i)
    ensures Sum(Pauses(o, turns)) - Sum(Pauses(o, turns[..i])) == o.delay * (Pow2(|turns| - i) - 1)
  {
    var n := |turns| - 1;
    if i == |turns| {
      assert turns[..i] == turns;
      assert o.delay * 0 == 0;
    } else {
      assert turns[..n][..i] == turns[..i];
      TotalPause(o, turns[..n], i);
      FailuresAddUp(turns[..n], i);
      LastPause(o, turns);
      NextTotal(o.delay, n - i);
    }
  }

  /** Every reading comes at least the pause after the one before. */
  ghost predicate Paced(o: ServiceOptions, turns: seq<Turn>) {
    forall i :: 0 <= i < |turns| - 1 ==> turns[i + 1].now >= turns[i].now + Pause(o, turns[..i])
  }

  lemma {:induction false} BackoffSpreads(o: ServiceOptions, turns: seq<Turn>, i: nat, j: nat)
    requires Paced(o, turns) && AllFail(turns) && i <= j < |turns|
    ensures turns[j].now - turns[i].now >= o.delay * (Pow2(j) - Pow2(i))
    decreases j
  {
    if i < j {
      BackoffSpreads(o, turns, i, j - 1);
      FailuresAddUp(turns[..j - 1], 0);
      assert turns[(j - 1) + 1].now >= turns[j - 1].now + Pause(o, turns[..j - 1]);
      Distribute(o.delay, Pow2(j - 1), Pow2(i));
    } else {
      assert o.delay * 0 == 0;
    }
  }

  lemma {:induction false} BetweenIsShort(ts: seq<Time>, c: nat, lo: Time, hi: Time)
    requires c <= |ts| && forall i :: 0 <= i < c ==> ts[i] < lo
    ensures |Between(ts, lo, hi)| <= |ts| - c
  {
    if ts != [] && c < |ts| {
      BetweenIsShort(ts[..|ts| - 1], c, lo, hi);
    } else if ts != [] {
      BetweenIsShort(ts[..|ts| - 1], c - 1, lo, hi);
    }
  }

  lemma {:induction false} Pow2Sum(a: nat, b: nat)
    ensures Pow2(a + b) == Pow2(a) * Pow2(b)
  {
    if b > 0 {
      Pow2Sum(a, b - 1);
      assert Pow2(a + b) == 2 * Pow2(a + (b - 1));
      assert 2 * (Pow2(a) * Pow2(b - 1)) == Pow2(a) * (2 * Pow2(b - 1));
    }
  }

  /** A refused turn finds the reading respawnMax turns earlier still in its window. */
  lemma RefusedReachesBack(o: ServiceOptions, ts: seq<Time>, j: nat)
    requires Sorted(ts) && j < |ts| && Refused(o, ts, j)
    ensures j >= o.respawnMax && ts[j] - ts[j - o.respawnMax] <= o.window
  {
    var h := ts[..j + 1];
    BetweenIsShort(h, 0, ts[j] - o.window, ts[j]);
    var i := j - o.respawnMax;
    if h[i] < ts[j] - o.window {
      forall m | 0 <= m < i + 1 ensures h[m] < ts[j] - o.window {
        assert ts[m] <= ts[i];
      }
      BetweenIsShort(h, i + 1, ts[j] - o.window, ts[j]);
      assert false;
    }
  }

  /** When every worker fails, turn j can be refused only while the back-off still fits the window. */
  lemma RefusalNeedsShortBackoff(o: ServiceOptions, turns: seq<Turn>, j: nat)
    requires Paced(o, turns) && AllFail(turns) && Sorted(Times(turns))
    requires j < |turns| && Refused(o, Times(turns), j)
    ensures j >= o.respawnMax > 0
    ensures o.delay * Pow2(j - o.respawnMax) * (Pow2(o.respawnMax) - 1) <= o.window
  {
    RefusedReachesBack(o, Times(turns), j);
    var i := j - o.respawnMax;
    BackoffSpreads(o, turns, i, j);
    Pow2Sum(i, o.respawnMax);
    Factor(o.delay, Pow2(i), Pow2(o.respawnMax));
  }

  lemma {:induction false} Pow2Positive(n: nat)
    ensures Pow2(n) >= 1
  {
    if n > 0 { Pow2Positive(n - 1); }
  }

  /** If delay * (2^max - 1) exceeds the window, a worker that always fails is respawned forever. */
  lemma SlowBackoffNeverTrips(o: ServiceOptions, turns: seq<Turn>)
    requires o.delay >= 0 && o.respawnMax > 0 && o.delay * (Pow2(o.respawnMax) - 1) > o.window
    requires Paced(o, turns) && AllFail(turns) && Sorted(Times(turns))
    ensures AllLaunched(o, Times(turns))
  {
    forall j | 0 <= j < |turns| ensures !Refused(o, Times(turns), j) {
      if Refused(o, Times(turns), j) {
        RefusalNeedsShortBackoff(o, turns, j);
        Pow2Positive(j - o.respawnMax);
        Pow2Positive(o.respawnMax);
        Scale(o.delay, Pow2(j - o.respawnMax), Pow2(o.respawnMax));
        assert false;
      }
    }
  }
}
