/** The heartbeat that keeps a task lease alive and reports its loss. */
module Heartbeat {

  /** `stored` says whether a renewal that raised had reached the database. */
  datatype Reply = Renewed | Refused | Raised(stored: bool)

  /** One round: the wait, ended early by a stop or not; the renewal, its length and the moment in it at
      which the database read its clock; and whether a stop came before a loss could be reported. */
  datatype Beat = Beat(stopped: bool, wait: real, renewal: real, moment: real, reply: Reply, stopping: bool)

  datatype Timing = Timing(interval: real, lease: real)

  ghost predicate Sound(t: Timing, beats: seq<Beat>) {
    && t.interval >= 0.0 && t.lease >= 0.0
    && forall i :: 0 <= i < |beats| ==> 0.0 <= beats[i].wait <= t.interval && 0.0 <= beats[i].moment <= beats[i].renewal
  }

  /** The time after `n` rounds. */
  function Time(start: real, beats: seq<Beat>, n: nat): real
    requires n <= |beats|
  {
    if n == 0 then start else Time(start, beats, n - 1) + beats[n - 1].wait + beats[n - 1].renewal
  }

  /** When the last success of the first `n` rounds was seen; the worker's start counts as one. */
  function LastSuccess(start: real, beats: seq<Beat>, n: nat): real
    requires n <= |beats|
  {
    if n == 0 then start
    else if beats[n - 1].reply == Renewed then Time(start, beats, n)
    else LastSuccess(start, beats, n - 1)
  }

  /** When the lease in the database runs out after `n` rounds. */
  function Expiry(t: Timing, start: real, claimed: real, beats: seq<Beat>, n: nat): real
    requires n <= |beats|
  {
    if n == 0 then claimed + t.lease
    else
      var b := beats[n - 1];
      if b.reply == Renewed || b.reply == Raised(true)
      then Time(start, beats, n - 1) + b.wait + b.moment + t.lease
      else Expiry(t, start, claimed, beats, n - 1)
  }

  /** The only two reasons for giving up: a refusal, or a full lease without success. */
  ghost predicate GivesUpAt(t: Timing, start: real, beats: seq<Beat>, i: nat)
    requires i < |beats|
  {
    || beats[i].reply == Refused
    || (beats[i].reply.Raised? && Time(start, beats, i + 1) - LastSuccess(start, beats, i) >= t.lease)
  }

  ghost predicate EndsAt(t: Timing, start: real, beats: seq<Beat>, i: nat)
    requires i < |beats|
  {
    beats[i].stopped || GivesUpAt(t, start, beats, i)
  }

  datatype End = Stopped | Lost | Unreported | Beating

  /** The worker's loop, over the rounds it is given. It ends in the first round that stops it or gives
      up, and reports a loss exactly when it gives up with no stop requested. */
  method Worker(t: Timing, start: real, beats: seq<Beat>) returns (end: End, rounds: nat)
    ensures rounds <= |beats|
    ensures forall i :: 0 <= i < rounds ==> !EndsAt(t, start, beats, i)
    ensures end == Beating <==> rounds == |beats|
    ensures rounds < |beats| ==>
              && EndsAt(t, start, beats, rounds)
              && (end == Stopped <==> beats[rounds].stopped)
              && (end == Lost <==> !beats[rounds].stopped && !beats[rounds].stopping)
  {
    var now, lastRenewed := start, start;
    rounds := 0;
    while rounds < |beats|
      invariant rounds <= |beats|
      invariant now == Time(start, beats, rounds) && lastRenewed == LastSuccess(start, beats, rounds)
      invariant forall i :: 0 <= i < rounds ==> !EndsAt(t, start, beats, i)
    {
      var b := beats[rounds];
      if b.stopped {
        return Stopped, rounds;
      }
      now := now + b.wait + b.renewal;
      var renewed := b.reply == Renewed;
      if b.reply.Raised? && now - lastRenewed < t.lease {
        rounds := rounds + 1;
        continue;
      }
      if !renewed {
        return if b.stopping then Unreported else Lost, rounds;
      }
      lastRenewed := now;
      rounds := rounds + 1;
    }
    return Beating, rounds;
  }

  lemma {:induction false} TimePasses(t: Timing, start: real, beats: seq<Beat>, n: nat)
    requires Sound(t, beats) && n <= |beats|
    ensures start <= LastSuccess(start, beats, n) <= Time(start, beats, n)
    decreases n
  {
    if n > 0 {
      TimePasses(t, start, beats, n - 1);
    }
  }

  /** A worker that is still beating was not refused, and last failed before the lease was over. */
  lemma StillWithinLease(t: Timing, start: real, beats: seq<Beat>, n: nat)
    requires Sound(t, beats) && n <= |beats| && forall i :: 0 <= i < n ==> !EndsAt(t, start, beats, i)
    ensures Time(start, beats, n) <= LastSuccess(start, beats, n) + t.lease
    ensures n > 0 ==> beats[n - 1].reply != Refused && !beats[n - 1].stopped
    ensures n > 0 && beats[n - 1].reply.Raised? ==> Time(start, beats, n) < LastSuccess(start, beats, n) + t.lease
  {
    if n > 0 {
      assert !EndsAt(t, start, beats, n - 1);
    }
  }

  /** Giving up comes no later after the last success than a lease, an interval and that one renewal. */
  lemma LossIsTimely(t: Timing, start: real, beats: seq<Beat>, n: nat)
    requires Sound(t, beats) && n < |beats|
    requires forall i :: 0 <= i < n ==> !EndsAt(t, start, beats, i)
    ensures Time(start, beats, n + 1) <= LastSuccess(start, beats, n) + t.lease + t.interval + beats[n].renewal
  {
    StillWithinLease(t, start, beats, n);
  }

  /** A renewal that raised after it was stored, and gave the lease until after the end of round `n`. */
  ghost predicate HiddenRenewal(t: Timing, start: real, beats: seq<Beat>, n: nat, i: nat)
    requires n < |beats|
  {
    && i <= n && beats[i].reply == Raised(true)
    && Time(start, beats, i) + beats[i].wait + beats[i].moment + t.lease > Time(start, beats, n + 1)
  }

  /** Whatever the lease runs out by, it is some moment before the last success, or one at which a
      renewal was stored behind an error. */
  lemma {:induction false} ExpiryComesFrom(t: Timing, start: real, claimed: real, beats: seq<Beat>, n: nat) returns (i: nat)
    requires Sound(t, beats) && n <= |beats| && claimed <= start
    ensures Expiry(t, start, claimed, beats, n) <= LastSuccess(start, beats, n) + t.lease
            || (i < n && beats[i].reply == Raised(true)
                && Expiry(t, start, claimed, beats, n) == Time(start, beats, i) + beats[i].wait + beats[i].moment + t.lease)
    decreases n
  {
    i := 0;
    if n > 0 {
      if beats[n - 1].reply == Raised(true) {
        i := n - 1;
      } else if beats[n - 1].reply != Renewed {
        i := ExpiryComesFrom(t, start, claimed, beats, n - 1);
      }
    }
  }

  /** Every stored renewal is followed by an expiry at least as late as its own. */
  lemma {:induction false} LaterExpiryIsLater(t: Timing, start: real, claimed: real, beats: seq<Beat>, i: nat, n: nat)
    requires Sound(t, beats) && i < n <= |beats| && (beats[i].reply == Renewed || beats[i].reply == Raised(true))
    ensures Expiry(t, start, claimed, beats, n) >= Time(start, beats, i) + beats[i].wait + beats[i].moment + t.lease
    decreases n
  {
    if i < n - 1 {
      LaterExpiryIsLater(t, start, claimed, beats, i, n - 1);
      TimeAdvances(t, start, beats, i + 1, n - 1);
    }
  }

  lemma {:induction false} TimeAdvances(t: Timing, start: real, beats: seq<Beat>, m: nat, n: nat)
    requires Sound(t, beats) && m <= n <= |beats|
    ensures Time(start, beats, m) <= Time(start, beats, n)
    decreases n
  {
    if m < n {
      TimeAdvances(t, start, beats, m, n - 1);
    }
  }

  /** A worker that gives up for want of success gives up a lease that still runs in the database
      exactly when some renewal had been stored behind an error and reaches beyond that moment. */
  lemma TimeoutLeavesLeaseExactly(t: Timing, start: real, claimed: real, beats: seq<Beat>, n: nat)
    requires Sound(t, beats) && n < |beats| && claimed <= start
    requires beats[n].reply.Raised? && GivesUpAt(t, start, beats, n)
    ensures Expiry(t, start, claimed, beats, n + 1) > Time(start, beats, n + 1) <==>
            exists i: nat :: HiddenRenewal(t, start, beats, n, i)
  {
    var i := ExpiryComesFrom(t, start, claimed, beats, n + 1);
    if Expiry(t, start, claimed, beats, n + 1) > Time(start, beats, n + 1) {
      assert HiddenRenewal(t, start, beats, n, i);
    }
    if j: nat :| HiddenRenewal(t, start, beats, n, j) {
      LaterExpiryIsLater(t, start, claimed, beats, j, n + 1);
    }
  }

  /** No renewal raised after reaching the database since the last success before round `n`. */
  ghost predicate NoHiddenRenewal(beats: seq<Beat>, n: nat)
    requires n <= |beats|
  {
    n == 0 || beats[n - 1].reply == Renewed || (beats[n - 1].reply != Raised(true) && NoHiddenRenewal(beats, n - 1))
  }

  /** Then those before it count for less than the success itself. */
  lemma {:induction false} StoredBeforeSuccess(t: Timing, start: real, beats: seq<Beat>, n: nat, i: nat)
    requires Sound(t, beats) && i < n <= |beats| && beats[i].reply == Raised(true) && NoHiddenRenewal(beats, n)
    ensures Time(start, beats, i) + beats[i].wait + beats[i].moment <= LastSuccess(start, beats, n)
    decreases n
  {
    if beats[n - 1].reply == Renewed {
      TimeAdvances(t, start, beats, i + 1, n);
    } else {
      StoredBeforeSuccess(t, start, beats, n - 1, i);
    }
  }

  /** So the lease has run out in the database too when none was since the last success. */
  lemma TimeoutMeansExpired(t: Timing, start: real, claimed: real, beats: seq<Beat>, n: nat)
    requires Sound(t, beats) && n < |beats| && claimed <= start && NoHiddenRenewal(beats, n + 1)
    requires beats[n].reply.Raised? && GivesUpAt(t, start, beats, n)
    ensures Expiry(t, start, claimed, beats, n + 1) <= Time(start, beats, n + 1)
  {
    TimeoutLeavesLeaseExactly(t, start, claimed, beats, n);
    forall i: nat | i <= n && beats[i].reply == Raised(true) ensures !HiddenRenewal(t, start, beats, n, i) {
      StoredBeforeSuccess(t, start, beats, n + 1, i);
    }
  }

  /** And one that did can make the difference. */
  lemma HiddenRenewalOutlivesTheWorker()
    ensures var t := Timing(1.0, 2.0);
            var beats := [Beat(false, 1.0, 0.0, 0.0, Raised(true), false), Beat(false, 1.0, 0.0, 0.0, Raised(false), false)];
            Sound(t, beats) && GivesUpAt(t, 0.0, beats, 1) && Expiry(t, 0.0, 0.0, beats, 2) > Time(0.0, beats, 2)
  {
    var beats := [Beat(false, 1.0, 0.0, 0.0, Raised(true), false), Beat(false, 1.0, 0.0, 0.0, Raised(false), false)];
    assert Time(0.0, beats, 1) == 1.0 && Time(0.0, beats, 2) == 2.0;
    assert LastSuccess(0.0, beats, 1) == 0.0;
    assert Expiry(Timing(1.0, 2.0), 0.0, 0.0, beats, 1) == 3.0;
  }
}
