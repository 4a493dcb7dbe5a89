/**
 The per-agent tool-call limiter: one list of admission times per (agent, scope), pruned to the
 window at every check, and an admission refused while the list is at its cap.
 */
module RateLimiter {

  datatype Bucket = Bucket(agent: string, scope: string)

  /** The times in `h` later than `cutoff`. */
  function Recent(h: seq<real>, cutoff: real): (r: seq<real>)
    ensures |r| <= |h|
  {
    if h == [] then []
    else if h[0] > cutoff then [h[0]] + Recent(h[1..], cutoff)
    else Recent(h[1..], cutoff)
  }

  predicate Ascending(h: seq<real>) {
    forall i, j | 0 <= i < j < |h| :: h[i] <= h[j]
  }

  /** Any `cap + 1` consecutive admissions span at least a window. */
  ghost predicate Spread(h: seq<real>, cap: int, window: real) {
    && (cap <= 0 ==> h == [])
    && (cap > 0 ==> forall i | 0 <= i < |h| - cap :: h[i + cap] - h[i] >= window)
  }

  /** Whether a call at `now` is admitted, given every admission made so far. */
  predicate Admits(h: seq<real>, now: real, cap: int, window: real) {
    |Recent(h, now - window)| < cap
  }

  // ----- what pruning keeps -----

  lemma {:induction false} RecentOfRecent(h: seq<real>, a: real, b: real)
    requires a <= b
    ensures Recent(Recent(h, a), b) == Recent(h, b)
  {
    if h != [] {
      RecentOfRecent(h[1..], a, b);
      if h[0] > a {
        assert ([h[0]] + Recent(h[1..], a))[1..] == Recent(h[1..], a);
      }
    }
  }

  lemma {:induction false} RecentAppend(h: seq<real>, t: real, cutoff: real)
    ensures Recent(h + [t], cutoff) == Recent(h, cutoff) + if t > cutoff then [t] else []
  {
    if h != [] {
      assert (h + [t])[1..] == h[1..] + [t];
      RecentAppend(h[1..], t, cutoff);
    }
  }

  lemma {:induction false} AllRecent(h: seq<real>, cutoff: real)
    requires forall i | 0 <= i < |h| :: h[i] > cutoff
    ensures Recent(h, cutoff) == h
  {
    if h != [] {
      AllRecent(h[1..], cutoff);
    }
  }

  /** Of an ascending history the recent part is a suffix. */
  lemma {:induction false} RecentIsSuffix(h: seq<real>, cutoff: real)
    requires Ascending(h)
    ensures var r := Recent(h, cutoff);
            && r == h[|h| - |r|..]
            && (forall i | 0 <= i < |h| - |r| :: h[i] <= cutoff)
            && (forall i | |h| - |r| <= i < |h| :: h[i] > cutoff)
  {
    if h != [] {
      RecentIsSuffix(h[1..], cutoff);
      var r := Recent(h[1..], cutoff);
      if h[0] > cutoff {
        assert forall i | 1 <= i < |h| :: h[i] > cutoff;
        AllRecent(h[1..], cutoff);
      } else {
        assert forall i | 1 <= i < |h| :: h[i] == h[1..][i - 1];
      }
    }
  }

  // ----- the bound -----

  /** How many of the times lie in the half-open interval of the window's length starting at `a`. */
  function CountIn(h: seq<real>, a: real, window: real): nat {
    if h == [] then 0
    else CountIn(h[..|h| - 1], a, window) + if a <= h[|h| - 1] < a + window then 1 else 0
  }

  /** `h[lo..hi]` are exactly the times in the interval. */
  lemma {:induction false} CountIsRange(h: seq<real>, a: real, window: real) returns (lo: nat, hi: nat)
    requires Ascending(h) && window > 0.0
    ensures lo <= hi <= |h| && CountIn(h, a, window) == hi - lo
    ensures forall i | lo <= i < hi :: a <= h[i] < a + window
    ensures forall i | 0 <= i < lo :: h[i] < a
    ensures forall i | hi <= i < |h| :: h[i] >= a + window
  {
    if h == [] {
      lo, hi := 0, 0;
    } else {
      var n := |h| - 1;
      lo, hi := CountIsRange(h[..n], a, window);
      assert forall i | 0 <= i < n :: h[..n][i] == h[i];
      if a <= h[n] < a + window {
        assert forall i | 0 <= i < n :: h[i] <= h[n];
        hi := n + 1;
      } else if h[n] < a {
        assert forall i | 0 <= i < n :: h[i] <= h[n];
        lo, hi := n + 1, n + 1;
      }
    }
  }

  /** No interval of the window's length, wherever it starts, holds more than `cap` admissions. */
  lemma WindowBound(h: seq<real>, cap: int, window: real, a: real)
    requires Ascending(h) && Spread(h, cap, window) && window > 0.0
    ensures CountIn(h, a, window) <= if cap > 0 then cap else 0
  {
    var lo, hi := CountIsRange(h, a, window);
    if cap > 0 && lo + cap < |h| {
      assert h[lo + cap] - h[lo] >= window;
    }
  }

  /** An admission keeps the spread. */
  lemma AdmissionKeepsSpread(h: seq<real>, now: real, cap: int, window: real)
    requires Ascending(h) && Spread(h, cap, window) && window > 0.0
    requires Admits(h, now, cap, window) && (h != [] ==> h[|h| - 1] <= now)
    ensures Ascending(h + [now]) && Spread(h + [now], cap, window)
  {
    RecentIsSuffix(h, now - window);
    var h', r := h + [now], |Recent(h, now - window)|;
    if |h| >= cap {
      assert h[|h| - cap] <= now - window;
    }
  }

  // ----- runs -----

  datatype Call = Call(at: real, bucket: Bucket)

  /** The admissions of one bucket over a run of calls. */
  function Admitted(calls: seq<Call>, b: Bucket, cap: int, window: real): seq<real> {
    if calls == [] then []
    else
      var n := |calls| - 1;
      var h := Admitted(calls[..n], b, cap, window);
      if calls[n].bucket == b && Admits(h, calls[n].at, cap, window) then h + [calls[n].at] else h
  }

  /** Whether call `i` of the run is admitted. */
  predicate AdmittedAt(calls: seq<Call>, i: nat, cap: int, window: real)
    requires i < |calls|
  {
    Admits(Admitted(calls[..i], calls[i].bucket, cap, window), calls[i].at, cap, window)
  }

  function Without(calls: seq<Call>, i: nat): seq<Call>
    requires i < |calls|
  {
    calls[..i] + calls[i + 1..]
  }

  /** A refused call delays nobody: the rest of the run is admitted as if it had not been made. */
  lemma {:induction false} RefusedCallsDoNotCount(calls: seq<Call>, i: nat, b: Bucket, cap: int, window: real)
    requires i < |calls| && !AdmittedAt(calls, i, cap, window)
    ensures Admitted(Without(calls, i), b, cap, window) == Admitted(calls, b, cap, window)
    decreases |calls|
  {
    var n := |calls| - 1;
    if i == n {
      assert Without(calls, i) == calls[..n];
    } else {
      var shorter := calls[..n];
      assert shorter[..i] == calls[..i] && shorter[i] == calls[i];
      RefusedCallsDoNotCount(shorter, i, b, cap, window);
      assert Without(calls, i)[..n - 1] == Without(shorter, i);
      assert Without(calls, i)[n - 1] == calls[n];
    }
  }

  /** The list `kept` for a bucket is its full admission history `h` restricted to the window of its
      last check, and no window holds more admissions than the cap. */
  ghost predicate InOrder(kept: seq<real>, h: seq<real>, cutoff: real, cap: int, window: real, latest: real) {
    && kept == Recent(h, cutoff)
    && cutoff <= latest - window
    && Ascending(h)
    && Spread(h, cap, window)
    && (h != [] ==> h[|h| - 1] <= latest)
  }

  lemma CheckKeepsOrder(kept: seq<real>, h: seq<real>, cutoff: real, cap: int, window: real, latest: real, now: real)
    requires InOrder(kept, h, cutoff, cap, window, latest) && latest <= now && window > 0.0
    ensures InOrder(kept, h, cutoff, cap, window, now)
    ensures var recent := Recent(kept, now - window);
            && (|recent| < cap <==> Admits(h, now, cap, window))
            && InOrder(recent, h, now - window, cap, window, now)
            && (|recent| < cap ==> InOrder(recent + [now], h + [now], now - window, cap, window, now))
  {
    RecentOfRecent(h, cutoff, now - window);
    RecentAppend(h, now, now - window);
    if Admits(h, now, cap, window) {
      AdmissionKeepsSpread(h, now, cap, window);
    }
    hide Recent, Ascending, Spread;
  }

  lemma NothingYet(cutoff: real, cap: int, window: real, latest: real)
    ensures cutoff <= latest - window ==> InOrder([], [], cutoff, cap, window, latest)
  {
  }

  lemma Kept(kept: seq<real>, h: seq<real>, cutoff: real, cap: int, window: real, latest: real)
    requires InOrder(kept, h, cutoff, cap, window, latest)
    ensures kept == Recent(h, cutoff)
  {
  }

  /** Ghost record of a bucket: every admission ever made, and the cutoff of the last check. */
  datatype Past = Past(admissions: seq<real>, cutoff: real)

  class AgentToolRateLimiter {
    const maxCalls: int
    const window: real
    const overrides: map<string, int>
    var buckets: map<Bucket, seq<real>>

    ghost var past: map<Bucket, Past>
    ghost var latest: real            // the clock at the last check

    constructor (maxCalls: int, window: real, overrides: map<string, int>, ghost start: real)
      requires window > 0.0
      ensures Valid() && this.maxCalls == maxCalls && this.window == window && this.overrides == overrides
      ensures past == map[] && latest == start
    {
      this.maxCalls, this.window, this.overrides := maxCalls, window, overrides;
      buckets, past, latest := map[], map[], start;
    }

    function CapFor(agent: string): int {
      if agent in overrides then overrides[agent] else maxCalls
    }

    ghost function History(b: Bucket): seq<real>
      reads this
    {
      if b in past then past[b].admissions else []
    }

    ghost predicate Valid()
      reads this
    {
      && window > 0.0
      && buckets.Keys == past.Keys
      && forall b | b in past ::
           InOrder(buckets[b], past[b].admissions, past[b].cutoff, CapFor(b.agent), window, latest)
    }

    /** One tool call at time `now`. */
    method Check(agent: string, scope: string, now: real) returns (admitted: bool)
      requires Valid() && now >= latest
      modifies this
      ensures Valid() && latest == now
      ensures var b := Bucket(agent, scope);
              && admitted == Admits(old(History(b)), now, CapFor(agent), window)
              && History(b) == old(History(b)) + (if admitted then [now] else [])
              && b in buckets && buckets[b] == Recent(History(b), now - window)
      ensures forall b | b != Bucket(agent, scope) :: History(b) == old(History(b))
    {
      hide InOrder, Recent, Admits;
      var b, cap := Bucket(agent, scope), CapFor(agent);
      var timestamps := if b in buckets then buckets[b] else [];
      ghost var h, last := History(b), if b in past then past[b].cutoff else latest - window;
      NothingYet(last, cap, window, latest);
      CheckKeepsOrder(timestamps, h, last, cap, window, latest, now);
      forall b' | b' in past
        ensures InOrder(buckets[b'], past[b'].admissions, past[b'].cutoff, CapFor(b'.agent), window, now)
      {
        CheckKeepsOrder(buckets[b'], past[b'].admissions, past[b'].cutoff, CapFor(b'.agent), window, latest, now);
      }
      timestamps := Recent(timestamps, now - window);
      admitted := |timestamps| < cap;
      if admitted {
        timestamps := timestamps + [now];
        h := h + [now];
      }
      Kept(timestamps, h, now - window, cap, window, now);
      buckets := buckets[b := timestamps];
      past := past[b := Past(h, now - window)];
      latest := now;
    }

    /** The promise: in any half-open interval of the window's length, at most the cap. */
    lemma Bound(agent: string, scope: string, a: real)
      requires Valid()
      ensures var cap := if agent in overrides then overrides[agent] else maxCalls;
              CountIn(History(Bucket(agent, scope)), a, window) <= if cap > 0 then cap else 0
    {
      var b := Bucket(agent, scope);
      if b in past {
        WindowBound(past[b].admissions, CapFor(agent), window, a);
      }
    }
  }
}
