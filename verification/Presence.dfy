/** The attendance counter and the machine that decides when nobody is left. */
module Presence {
  import opened Wrappers

  /** One look at the counter.  Times are milliseconds of one monotonic clock. */
  datatype Sample = Sample(live: nat, now: nat)

  class ClientPresence {
    var live: nat

    constructor ()
      ensures live == 0
    {
      live := 0;
    }

    method Attend()
      modifies this
      ensures live == old(live) + 1
    {
      live := live + 1;
    }

    /** The guard of one attendance goes out of scope. */
    method Release()
      requires live > 0
      modifies this
      ensures live == old(live) - 1
    {
      live := live - 1;
    }
  }

  // ---- what a history of samples means ----

  ghost predicate Monotone(ss: seq<Sample>) {
    forall i, j | 0 <= i < j < |ss| :: ss[i].now <= ss[j].now
  }

  predicate AllZero(ss: seq<Sample>) {
    forall s <- ss :: s.live == 0
  }

  /** Nobody has been there for `grace`: some tail of the history is all zero and spans that long. */
  ghost predicate IdleFor(ss: seq<Sample>, grace: nat) {
    exists i | 0 <= i < |ss| :: AllZero(ss[i..]) && ss[|ss| - 1].now >= ss[i].now + grace
  }

  /** What the machine remembers after a history. */
  function ZeroSince(ss: seq<Sample>): Option<nat> {
    if ss == [] then None
    else
      var last := ss[|ss| - 1];
      if last.live > 0 then None
      else match ZeroSince(ss[..|ss| - 1])
        case None => Some(last.now)
        case Some(t) => Some(t)
  }

  function SaturatingSub(a: nat, b: nat): nat {
    if a < b then 0 else a - b
  }

  /** What `observe` answers for the last sample of a history. */
  predicate Due(ss: seq<Sample>, grace: nat)
    requires ss != []
  {
    var last := ss[|ss| - 1];
    last.live == 0 && SaturatingSub(last.now, ZeroSince(ss).value) >= grace
  }

  /** The remembered time is that of the first sample of the trailing run of zeros. */
  lemma {:induction false} ZeroSinceIsRunStart(ss: seq<Sample>) returns (i: nat)
    requires ss != [] && ss[|ss| - 1].live == 0
    ensures i < |ss| && AllZero(ss[i..]) && (i > 0 ==> ss[i - 1].live > 0)
    ensures ZeroSince(ss) == Some(ss[i].now)
    decreases |ss|
  {
    var n := |ss| - 1;
    var front := ss[..n];
    if n == 0 || ss[n - 1].live > 0 {
      i := n;
    } else {
      i := ZeroSinceIsRunStart(front);
      assert ss[i..] == front[i..] + [ss[n]];
    }
  }

  /**
   `observe` computes a property of the whole history: it answers true exactly
   when the counter has been seen at zero, without interruption, for `grace`.
   */
  lemma DueIsIdle(ss: seq<Sample>, grace: nat)
    requires ss != [] && Monotone(ss)
    ensures Due(ss, grace) <==> IdleFor(ss, grace)
  {
    var n := |ss| - 1;
    if ss[n].live == 0 {
      var i := ZeroSinceIsRunStart(ss);
      forall j | 0 <= j < i
        ensures !AllZero(ss[j..])
      {
        assert ss[j..][i - 1 - j] == ss[i - 1];
      }
    } else {
      forall j | 0 <= j < |ss|
        ensures !AllZero(ss[j..])
      {
        assert ss[j..][n - j] == ss[n];
      }
    }
  }

  // ---- the machine ----

  class IdleExit {
    var zeroSince: Option<nat>
    ghost var history: seq<Sample>

    ghost predicate Valid()
      reads this
    {
      zeroSince == ZeroSince(history)
    }

    constructor ()
      ensures Valid() && history == []
    {
      zeroSince, history := None, [];
    }

    method Observe(live: nat, grace: nat, now: nat) returns (exit: bool)
      requires Valid()
      modifies this
      ensures Valid() && history == old(history) + [Sample(live, now)]
      ensures exit <==> Due(history, grace)
    {
      history := history + [Sample(live, now)];
      assert history[..|history| - 1] == old(history);
      if live > 0 {
        zeroSince := None;
        return false;
      }
      if zeroSince.None? {
        zeroSince := Some(now);
      }
      return SaturatingSub(now, zeroSince.value) >= grace;
    }
  }

  /** After sample `k` the counter has been at zero for `grace`. */
  ghost predicate IdleAt(samples: seq<Sample>, k: nat, grace: nat) {
    k < |samples| && IdleFor(samples[..k + 1], grace)
  }

  /** After sample `k` the machine is due. */
  ghost predicate DueAt(samples: seq<Sample>, k: nat, grace: nat) {
    k < |samples| && Due(samples[..k + 1], grace)
  }

  lemma DueAtIsIdleAt(samples: seq<Sample>, grace: nat)
    requires Monotone(samples)
    ensures forall k: nat :: DueAt(samples, k, grace) <==> IdleAt(samples, k, grace)
  {
    forall k: nat | k < |samples|
      ensures DueAt(samples, k, grace) <==> IdleAt(samples, k, grace)
    {
      DueIsIdle(samples[..k + 1], grace);
    }
  }

  /** The polling loop: it returns at the first sample that is due. */
  method PollUntilDue(samples: seq<Sample>, grace: nat) returns (at: Option<nat>)
    ensures at.Some? ==>
              DueAt(samples, at.value, grace) && forall k: nat | k < at.value :: !DueAt(samples, k, grace)
    ensures at.None? ==> forall k: nat :: !DueAt(samples, k, grace)
  {
    var machine := new IdleExit();
    for n := 0 to |samples|
      invariant machine.Valid() && machine.history == samples[..n]
      invariant forall k: nat | k < n :: !DueAt(samples, k, grace)
    {
      var exit := machine.Observe(samples[n].live, grace, samples[n].now);
      assert machine.history == samples[..n + 1];
      if exit {
        return Some(n);
      }
    }
    return None;
  }

  /**
   The polling loop over the samples it is going to take.  It returns at the
   first one that completes an idle time of `grace`, or never (None).
   */
  method WaitUntilShouldExit(samples: seq<Sample>, grace: nat) returns (at: Option<nat>)
    requires Monotone(samples)
    ensures at.Some? ==>
              IdleAt(samples, at.value, grace) && forall k: nat | k < at.value :: !IdleAt(samples, k, grace)
    ensures at.None? ==> forall k: nat :: !IdleAt(samples, k, grace)
  {
    at := PollUntilDue(samples, grace);
    DueAtIsIdleAt(samples, grace);
  }

  /** Successive samples are at most `d` apart. */
  ghost predicate Gaps(samples: seq<Sample>, d: nat) {
    forall i | 0 <= i < |samples| - 1 :: samples[i + 1].now <= samples[i].now + d
  }

  /** The first sample at or after time `t`, when some sample is before it and some after. */
  lemma {:induction false} FirstAfter(samples: seq<Sample>, d: nat, t: nat, lo: nat, hi: nat) returns (i: nat)
    requires Gaps(samples, d) && lo < hi < |samples|
    requires samples[lo].now < t <= samples[hi].now
    ensures lo < i <= hi && samples[i - 1].now < t <= samples[i].now <= t + d
    decreases hi - lo
  {
    if samples[lo + 1].now >= t {
      i := lo + 1;
    } else {
      i := FirstAfter(samples, d, t, lo + 1, hi);
    }
  }

  /**
   When the last client leaves at time `t` and nobody comes back, a loop that
   polls at least every `d` stops at the latest at `t + grace + 2 * d`.
   */
  lemma ExitsInTime(samples: seq<Sample>, grace: nat, d: nat, t: nat) returns (k: nat)
    requires Monotone(samples) && Gaps(samples, d)
    requires |samples| > 0 && samples[0].now < t && samples[|samples| - 1].now >= t + grace + d
    requires forall s <- samples :: s.now >= t ==> s.live == 0
    ensures IdleAt(samples, k, grace) && samples[k].now <= t + grace + 2 * d
  {
    var last := |samples| - 1;
    var i := FirstAfter(samples, d, t, 0, last);
    k := i;
    if grace > 0 {
      k := FirstAfter(samples, d, samples[i].now + grace, i, last);
    }
    var ss := samples[..k + 1];
    assert AllZero(ss[i..]) by {
      forall s <- ss[i..]
        ensures s.live == 0
      {
        var j :| 0 <= j < |ss[i..]| && ss[i..][j] == s;
        assert s == samples[i + j] && s in samples;
      }
    }
    assert ss[|ss| - 1] == samples[k];
  }
}
