/**
 The list operations of the request throttler, against the full history of admissions: what
 pruning leaves, when a caller may be admitted, and why spacing bounds every window.
 */
module Admissions {
  const WINDOW: real := 60.0
  const SLACK: real := 0.1

  // ---------- The list operations under the lock ----------

  /** The entries of `times` younger than the window at `now`, in order. */
  function Recent(times: seq<real>, now: real): seq<real> {
    if times == [] then []
    else if now - times[0] < WINDOW then [times[0]] + Recent(times[1..], now)
    else Recent(times[1..], now)
  }

  /** How long a caller waits when the window is full. */
  function SleepTime(times: seq<real>, now: real): (d: real)
    requires times != []
  {
    WINDOW - (now - times[0]) + SLACK
  }

  // ---------- Properties of an admission history ----------

  ghost predicate Sorted(log: seq<real>) {
    forall i, j :: 0 <= i <= j < |log| ==> log[i] <= log[j]
  }

  /** Entries `i` and `i + rpm` are at least one window apart. */
  ghost predicate Apart(log: seq<real>, rpm: int, i: int)
    requires 1 <= rpm && 0 <= i < |log| - rpm
  {
    log[i + rpm] - log[i] >= WINDOW
  }

  /** Any admission is at least one window later than the one `rpm` places before it. */
  ghost predicate Spaced(log: seq<real>, rpm: int) {
    && 1 <= rpm
    && forall i {:trigger Apart(log, rpm, i)} :: 0 <= i < |log| - rpm ==> Apart(log, rpm, i)
  }

  /** `t` may be appended to `log` without breaking order or spacing. */
  ghost predicate Admissible(log: seq<real>, rpm: int, t: real) {
    && 1 <= rpm
    && (forall i :: 0 <= i < |log| ==> log[i] <= t)
    && (rpm <= |log| ==> t - log[|log| - rpm] >= WINDOW)
  }

  /** `times` is what is left of `log` after dropping entries that are too old at `now`. */
  ghost predicate Tail(log: seq<real>, times: seq<real>, now: real) {
    && |times| <= |log|
    && times == log[|log| - |times|..]
    && forall i :: 0 <= i < |log| - |times| ==> now - log[i] >= WINDOW
  }

  /** The number of admissions in the half-open window of 60 seconds from `a`. */
  function CountIn(log: seq<real>, a: real): (n: nat)
    ensures n <= |log|
  {
    if log == [] then 0
    else (if a <= log[0] < a + 60.0 then 1 else 0) + CountIn(log[1..], a)
  }

  lemma {:induction false} CountInConcat(x: seq<real>, y: seq<real>, a: real)
    ensures CountIn(x + y, a) == CountIn(x, a) + CountIn(y, a)
  {
    if x == [] {
      assert x + y == y;
    } else {
      assert (x + y)[1..] == x[1..] + y;
      CountInConcat(x[1..], y, a);
    }
  }

  lemma {:induction false} CountInBefore(x: seq<real>, a: real)
    requires forall i :: 0 <= i < |x| ==> x[i] < a
    ensures CountIn(x, a) == 0
  {
    if x != [] {
      CountInBefore(x[1..], a);
    }
  }

  /** Spacing between entries `rpm` apart is what bounds every window. */
  lemma {:induction false} SpacedBoundsWindow(log: seq<real>, rpm: int, a: real)
    requires 1 <= rpm && Sorted(log) && Spaced(log, rpm)
    ensures CountIn(log, a) <= rpm
    decreases |log|
  {
    var n := |log|;
    if n > rpm {
      var last := log[n - 1];
      assert log == log[..n - 1] + [last];
      CountInConcat(log[..n - 1], [last], a);
      if a <= last < a + WINDOW {
        assert log == log[..n - rpm] + log[n - rpm..];
        CountInConcat(log[..n - rpm], log[n - rpm..], a);
        assert Apart(log, rpm, n - 1 - rpm);
        CountInBefore(log[..n - rpm], a);
      } else {
        var earlier := log[..n - 1];
        forall i | 0 <= i < n - 1 - rpm ensures Apart(earlier, rpm, i) {
          assert Apart(log, rpm, i);
        }
        SpacedBoundsWindow(earlier, rpm, a);
      }
    }
  }

  /** Pruning keeps exactly the entries younger than 60 seconds, as often as they occur. */
  lemma {:induction false} RecentMeans(times: seq<real>, now: real, x: real)
    ensures multiset(Recent(times, now))[x] == if now - x < 60.0 then multiset(times)[x] else 0
  {
    if times != [] {
      RecentMeans(times[1..], now, x);
      assert times == [times[0]] + times[1..];
    }
  }

  lemma {:induction false} RecentKeepsYoung(x: seq<real>, now: real)
    requires forall i :: 0 <= i < |x| ==> now - x[i] < WINDOW
    ensures Recent(x, now) == x
  {
    if x != [] {
      RecentKeepsYoung(x[1..], now);
    }
  }

  lemma {:induction false} RecentDropsOld(x: seq<real>, now: real)
    requires forall i :: 0 <= i < |x| ==> now - x[i] >= WINDOW
    ensures Recent(x, now) == []
  {
    if x != [] {
      RecentDropsOld(x[1..], now);
    }
  }

  /** Filtering a sorted history keeps a suffix of it, all of it young. */
  lemma {:induction false} RecentOfSorted(log: seq<real>, now: real)
    requires Sorted(log)
    ensures Tail(log, Recent(log, now), now)
    ensures forall i :: 0 <= i < |Recent(log, now)| ==> now - Recent(log, now)[i] < WINDOW
  {
    if log != [] {
      if now - log[0] < WINDOW {
        RecentKeepsYoung(log, now);
      } else {
        RecentOfSorted(log[1..], now);
        var r := Recent(log[1..], now);
        forall i | 0 <= i < |log| - |r| ensures now - log[i] >= WINDOW {
          assert i == 0 || log[i] == log[1..][i - 1];
        }
      }
    }
  }

  lemma {:induction false} RecentConcat(x: seq<real>, y: seq<real>, now: real)
    ensures Recent(x + y, now) == Recent(x, now) + Recent(y, now)
  {
    if x == [] {
      assert x + y == y;
    } else {
      assert (x + y)[1..] == x[1..] + y;
      RecentConcat(x[1..], y, now);
    }
  }

  /** Pruning the short list gives the same answer as filtering the whole history. */
  lemma PruningRefinesFiltering(log: seq<real>, times: seq<real>, now: real)
    requires Sorted(log) && Tail(log, times, now)
    ensures Recent(times, now) == Recent(log, now)
    ensures Tail(log, Recent(times, now), now)
  {
    var k := |log| - |times|;
    assert log == log[..k] + log[k..];
    RecentConcat(log[..k], log[k..], now);
    RecentDropsOld(log[..k], now);
    RecentOfSorted(log, now);
  }

  /** A spaced history never has more than `rpm` recent entries, so a full list has exactly `rpm`. */
  lemma RecentAtMostRpm(log: seq<real>, rpm: int, now: real)
    requires 1 <= rpm && Sorted(log) && Spaced(log, rpm)
    requires forall i :: 0 <= i < |log| ==> log[i] <= now
    ensures |Recent(log, now)| <= rpm
  {
    RecentOfSorted(log, now);
    var r := Recent(log, now);
    var i := |log| - |r|;
    assert r != [] ==> r[0] == log[i];
    assert i + rpm < |log| ==> Apart(log, rpm, i);
  }

  /** With room in the window, any time from `now` on is admissible. */
  lemma RoomIsAdmissible(log: seq<real>, rpm: int, now: real, t: real)
    requires 1 <= rpm && Sorted(log) && now <= t
    requires forall i :: 0 <= i < |log| ==> log[i] <= now
    requires |Recent(log, now)| < rpm
    ensures Admissible(log, rpm, t)
  {
    RecentOfSorted(log, now);
  }

  /** With a full window, sleeping is for a positive bounded time and makes the wake-up admissible. */
  lemma SleepingIsAdmissible(log: seq<real>, rpm: int, now: real, t: real)
    requires 1 <= rpm && Sorted(log) && Spaced(log, rpm)
    requires forall i :: 0 <= i < |log| ==> log[i] <= now
    requires rpm <= |Recent(log, now)|
    ensures SLACK < SleepTime(Recent(log, now), now) <= WINDOW + SLACK
    ensures now + SleepTime(Recent(log, now), now) <= t ==> Admissible(log, rpm, t)
  {
    RecentOfSorted(log, now);
    RecentAtMostRpm(log, rpm, now);
    assert Recent(log, now)[0] == log[|log| - rpm];
  }

  /** A full window: the wake-up is 60.1 seconds after the admission `rpm` places from the end. */
  lemma WakeUpIs(log: seq<real>, rpm: int, now: real)
    requires 1 <= rpm && Sorted(log) && Spaced(log, rpm)
    requires forall i :: 0 <= i < |log| ==> log[i] <= now
    requires rpm <= |Recent(log, now)|
    ensures rpm <= |log| && now + SleepTime(Recent(log, now), now) == log[|log| - rpm] + 60.1
  {
    RecentOfSorted(log, now);
    RecentAtMostRpm(log, rpm, now);
    assert Recent(log, now)[0] == log[|log| - rpm];
  }

  /** Admissible in seconds: in order, and a minute after the admission `rpm` places back. */
  lemma AdmissibleMeans(log: seq<real>, rpm: int, t: real)
    requires 1 <= rpm && Sorted(log)
    ensures Admissible(log, rpm, t) <==>
      (log == [] || log[|log| - 1] <= t) && (rpm <= |log| ==> log[|log| - rpm] + 60.0 <= t)
  {
    if log != [] && log[|log| - 1] <= t {
      assert forall i :: 0 <= i < |log| ==> log[i] <= log[|log| - 1];
    }
  }

  /** No caller waits more than a tenth of a second longer than it has to. */
  lemma SleepIsShortest(log: seq<real>, rpm: int, now: real, t: real)
    requires 1 <= rpm && Sorted(log) && Spaced(log, rpm)
    requires forall i :: 0 <= i < |log| ==> log[i] <= now
    requires rpm <= |Recent(log, now)| && Admissible(log, rpm, t)
    ensures now + SleepTime(Recent(log, now), now) <= t + 0.1
  {
    WakeUpIs(log, rpm, now);
    AdmissibleMeans(log, rpm, t);
  }

  /** The state of the list and of the full history at one time. */
  ghost predicate History(rpm: int, clock: real, times: seq<real>, log: seq<real>) {
    && Sorted(log)
    && (forall i :: 0 <= i < |log| ==> log[i] <= clock)
    && Tail(log, times, clock)
    && (1 <= rpm ==> Spaced(log, rpm))
    && (rpm <= 0 ==> log == [])
  }

  lemma LaterKeepsHistory(rpm: int, clock: real, times: seq<real>, log: seq<real>, to: real)
    requires History(rpm, clock, times, log) && clock <= to
    ensures History(rpm, to, times, log)
  {
  }

  lemma PruningKeepsHistory(rpm: int, clock: real, times: seq<real>, log: seq<real>, now: real)
    requires History(rpm, clock, times, log) && now <= clock && Tail(log, times, now)
    ensures History(rpm, clock, Recent(times, now), log)
    ensures Recent(times, now) == Recent(log, now)
  {
    PruningRefinesFiltering(log, times, now);
  }

  lemma {:induction false} AdmissionKeepsSpacing(log: seq<real>, rpm: int, t: real)
    requires Spaced(log, rpm) && Admissible(log, rpm, t)
    ensures Spaced(log + [t], rpm)
  {
    var log' := log + [t];
    forall i | 0 <= i < |log'| - rpm ensures Apart(log', rpm, i) {
      assert i < |log| - rpm ==> Apart(log, rpm, i);
    }
  }

  lemma AdmissionKeepsHistory(rpm: int, clock: real, times: seq<real>, log: seq<real>, t: real)
    requires History(rpm, clock, times, log) && Admissible(log, rpm, t) && t <= clock
    ensures History(rpm, clock, times + [t], log + [t])
  {
    AdmissionKeepsSpacing(log, rpm, t);
  }
}
