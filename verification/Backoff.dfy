/** Requests repeated with growing delays until an answer, the last attempt or a deadline. */
module Backoff {
  import opened Values

  datatype Policy = Policy(maxAttempts: nat, baseDelay: real, maxDelay: real, maxElapsed: real, jitter: real)

  predicate Usable(p: Policy) {
    p.maxAttempts >= 1 && p.baseDelay >= 0.0 && p.maxDelay >= 0.0 && p.maxElapsed > 0.0 && 0.0 <= p.jitter <= 1.0
  }

  /** A Retry-After header in its delay-seconds form (section 10.2.3 of RFC 9110), or one that is no
      finite number. */
  datatype Header = Missing | Seconds(value: real) | NoNumber

  datatype Attempt = Raised | Answered(status: nat, retryAfter: Header)

  datatype Result = Response(attempt: Attempt) | DeadlineExceeded | RequestFailed

  predicate Retryable(status: nat) { status == 408 || status == 425 || status == 429 || status >= 500 }

  predicate Final(a: Attempt) { a.Answered? && !Retryable(a.status) }

  function RetryAfter(a: Attempt): Option<real> {
    if a.Answered? && a.retryAfter.Seconds? && a.retryAfter.value >= 0.0 then Some(a.retryAfter.value) else None
  }

  function Pow2(n: nat): (r: real)
    ensures r >= 1.0
  {
    if n == 0 then 1.0 else 2.0 * Pow2(n - 1)
  }

  function Exponential(p: Policy, i: nat, random: real): real {
    p.baseDelay * Pow2(i) * (1.0 + p.jitter * (2.0 * random - 1.0))
  }

  /** The delay wanted after attempt `i`: the server's own, or exponential with jitter. */
  function Wanted(p: Policy, a: Attempt, i: nat, random: real): real {
    if RetryAfter(a).Some? then RetryAfter(a).value
    else Exponential(p, i, random)
  }

  /** One sleep: after which attempt, when, and how long. */
  datatype Sleep = Sleep(at: real, length: real)

  function Total(sleeps: seq<Sleep>): real {
    if sleeps == [] then 0.0 else Total(sleeps[..|sleeps| - 1]) + sleeps[|sleeps| - 1].length
  }

  /** What the surroundings do in attempt `i`: the outcome, the time that passes before, during and
      after it, what the clock shows of the sleep, and the random number drawn. */
  datatype Turn = Turn(attempt: Attempt, pause: real, request: real, check: real, asleep: real, random: real)

  ghost predicate TimePasses(turns: seq<Turn>) {
    forall i :: 0 <= i < |turns| ==>
      turns[i].pause >= 0.0 && turns[i].request >= 0.0 && turns[i].check >= 0.0 && turns[i].asleep >= 0.0
  }

  /** The time at which attempt `i` begins, and the time at which its sleep is worked out. */
  function Clock(turns: seq<Turn>, sleeps: seq<Sleep>, start: real, i: nat): real
    requires i <= |sleeps| && i <= |turns|
    decreases i, 0
  {
    if i == 0 then start
    else Checked(turns, sleeps, start, i - 1) + turns[i - 1].asleep
  }

  function Checked(turns: seq<Turn>, sleeps: seq<Sleep>, start: real, i: nat): real
    requires i <= |sleeps| && i < |turns|
    decreases i, 1
  {
    Clock(turns, sleeps, start, i) + turns[i].pause + turns[i].request + turns[i].check
  }

  lemma {:induction false} ClockStays(turns: seq<Turn>, sleeps: seq<Sleep>, x: Sleep, start: real, i: nat)
    requires i <= |sleeps| && i <= |turns|
    ensures Clock(turns, sleeps + [x], start, i) == Clock(turns, sleeps, start, i)
  {
    if i > 0 {
      ClockStays(turns, sleeps, x, start, i - 1);
    }
  }

  /** Each sleep falls before the deadline and has the wanted length, cut to the limit and to the time left. */
  ghost predicate SleptAsWanted(p: Policy, turns: seq<Turn>, start: real, sleeps: seq<Sleep>) {
    && |sleeps| <= |turns|
    && forall i :: 0 <= i < |sleeps| ==>
         && sleeps[i].at == Checked(turns, sleeps, start, i)
         && start <= sleeps[i].at < start + p.maxElapsed
         && sleeps[i].length == Lower(Lower(Higher(0.0, Wanted(p, turns[i].attempt, i, turns[i].random)), p.maxDelay),
                                    start + p.maxElapsed - sleeps[i].at)
  }

  /** The clock shows at least the time slept, as a monotonic clock does for a real sleep. */
  predicate ClockRuns(turns: seq<Turn>, sleeps: seq<Sleep>) {
    |sleeps| <= |turns| && forall i :: 0 <= i < |sleeps| ==> turns[i].asleep >= sleeps[i].length
  }

  lemma ClockRanBefore(turns: seq<Turn>, sleeps: seq<Sleep>, x: Sleep)
    requires |sleeps| < |turns|
    ensures ClockRuns(turns, sleeps + [x]) <==> ClockRuns(turns, sleeps) && turns[|sleeps|].asleep >= x.length
  {
    assert (sleeps + [x])[|sleeps|] == x;
    assert forall i :: 0 <= i < |sleeps| ==> (sleeps + [x])[i] == sleeps[i];
  }

  lemma TotalStep(sleeps: seq<Sleep>, x: Sleep)
    ensures Total(sleeps + [x]) == Total(sleeps) + x.length
  {
    assert (sleeps + [x])[..|sleeps|] == sleeps;
  }

  lemma OneMoreSleep(p: Policy, turns: seq<Turn>, start: real, sleeps: seq<Sleep>, x: Sleep)
    requires SleptAsWanted(p, turns, start, sleeps) && |sleeps| < |turns|
    requires x.at == Checked(turns, sleeps, start, |sleeps|) && start <= x.at < start + p.maxElapsed
    requires x.length == Lower(Lower(Higher(0.0, Wanted(p, turns[|sleeps|].attempt, |sleeps|, turns[|sleeps|].random)), p.maxDelay),
                             start + p.maxElapsed - x.at)
    ensures SleptAsWanted(p, turns, start, sleeps + [x])
  {
    hide Wanted, Lower, Higher;
    forall i | 0 <= i <= |sleeps| ensures Checked(turns, sleeps + [x], start, i) == Checked(turns, sleeps, start, i) {
      ClockStays(turns, sleeps, x, start, i);
    }
  }

  /** No attempt after the first begins at or past the deadline. */
  ghost predicate BegunInTime(p: Policy, turns: seq<Turn>, start: real, sleeps: seq<Sleep>, n: nat)
    requires n <= |sleeps| + 1 && n <= |turns|
  {
    forall i :: 1 <= i < n ==> Clock(turns, sleeps, start, i) + turns[i].pause < start + p.maxElapsed
  }

  lemma NoSleep(p: Policy, turns: seq<Turn>, start: real)
    ensures SleptAsWanted(p, turns, start, []) && Total([]) == 0.0
    ensures BegunInTime(p, turns, start, [], 0) && Clock(turns, [], start, 0) == start
  {
  }

  lemma OneMoreBegun(p: Policy, turns: seq<Turn>, start: real, sleeps: seq<Sleep>)
    requires |sleeps| < |turns| && BegunInTime(p, turns, start, sleeps, |sleeps|)
    requires |sleeps| > 0 ==> Clock(turns, sleeps, start, |sleeps|) + turns[|sleeps|].pause < start + p.maxElapsed
    ensures BegunInTime(p, turns, start, sleeps, |sleeps| + 1)
    ensures var turn := turns[|sleeps|];
            Checked(turns, sleeps, start, |sleeps|) ==
            Clock(turns, sleeps, start, |sleeps|) + turn.pause + turn.request + turn.check
  {
  }

  lemma CutLength(delay: real, most: real, left: real)
    requires most >= 0.0 && left >= 0.0
    ensures 0.0 <= Lower(Lower(Higher(0.0, delay), most), left) <= left
  {
  }

  lemma BegunStays(p: Policy, turns: seq<Turn>, start: real, sleeps: seq<Sleep>, x: Sleep)
    requires |sleeps| < |turns| && BegunInTime(p, turns, start, sleeps, |sleeps| + 1)
    ensures BegunInTime(p, turns, start, sleeps + [x], |sleeps| + 1)
    ensures Clock(turns, sleeps + [x], start, |sleeps| + 1) ==
            Checked(turns, sleeps, start, |sleeps|) + turns[|sleeps|].asleep
  {
    forall i | 0 <= i <= |sleeps| ensures Clock(turns, sleeps + [x], start, i) == Clock(turns, sleeps, start, i) {
      ClockStays(turns, sleeps, x, start, i);
    }
  }

  /** How a request ended, how often it was sent, and the sleeps in between. */
  datatype Outcome = Outcome(result: Result, requests: nat, sleeps: seq<Sleep>)

  function Length(p: Policy, turns: seq<Turn>, deadline: real, i: nat, at: real): real
    requires i < |turns|
  {
    Lower(Lower(Higher(0.0, Wanted(p, turns[i].attempt, i, turns[i].random)), p.maxDelay), deadline - at)
  }

  /** What happens from attempt `i` on when it begins at `now`. */
  function Course(p: Policy, turns: seq<Turn>, deadline: real, i: nat, now: real): Outcome
    requires i < p.maxAttempts == |turns|
    decreases p.maxAttempts - i
  {
    var turn := turns[i];
    var at := now + turn.pause + turn.request + turn.check;
    if i > 0 && now + turn.pause >= deadline then Outcome(DeadlineExceeded, 0, [])
    else if Final(turn.attempt) then Outcome(Response(turn.attempt), 1, [])
    else if i + 1 == p.maxAttempts then
      Outcome(if turn.attempt.Answered? then Response(turn.attempt) else RequestFailed, 1, [])
    else if at >= deadline then Outcome(DeadlineExceeded, 1, [])
    else Later(Sleep(at, Length(p, turns, deadline, i, at)), Course(p, turns, deadline, i + 1, at + turn.asleep))
  }

  /** Where it ends in attempt `i`, and how it goes on otherwise. */
  lemma CourseStep(p: Policy, turns: seq<Turn>, deadline: real, i: nat, now: real)
    requires i < p.maxAttempts == |turns|
    ensures var turn, done := turns[i], Course(p, turns, deadline, i, now);
            var begun := now + turn.pause;
            var at := begun + turn.request + turn.check;
            if i > 0 && begun >= deadline then done == Outcome(DeadlineExceeded, 0, [])
            else if Final(turn.attempt) then done == Outcome(Response(turn.attempt), 1, [])
            else if i + 1 == p.maxAttempts then
              done == Outcome(if turn.attempt.Answered? then Response(turn.attempt) else RequestFailed, 1, [])
            else if at >= deadline then done == Outcome(DeadlineExceeded, 1, [])
            else done == Later(Sleep(at, Length(p, turns, deadline, i, at)), Course(p, turns, deadline, i + 1, at + turn.asleep))
  {
  }

  lemma AfterEnd(sleeps: seq<Sleep>, result: Result, requests: nat)
    ensures After(sleeps, Outcome(result, requests, [])) == Outcome(result, |sleeps| + requests, sleeps)
  {
  }

  function Later(sleep: Sleep, rest: Outcome): Outcome {
    Outcome(rest.result, 1 + rest.requests, [sleep] + rest.sleeps)
  }

  /** What happens after some sleeps, one request before each. */
  function After(sleeps: seq<Sleep>, rest: Outcome): Outcome {
    Outcome(rest.result, |sleeps| + rest.requests, sleeps + rest.sleeps)
  }

  lemma AfterOneMore(sleeps: seq<Sleep>, x: Sleep, rest: Outcome)
    ensures After(sleeps, Later(x, rest)) == After(sleeps + [x], rest)
  {
    assert sleeps + ([x] + rest.sleeps) == sleeps + [x] + rest.sleeps;
  }

  lemma NothingBefore(rest: Outcome)
    ensures After([], rest) == rest
  {
    assert [] + rest.sleeps == rest.sleeps;
  }

  /** What is promised of a request that has ended. */
  ghost predicate Promised(p: Policy, turns: seq<Turn>, start: real, done: Outcome)
    requires 1 <= p.maxAttempts == |turns|
  {
    var result, requests, sleeps := done.result, done.requests, done.sleeps;
    // At most the allowed attempts, and no more once one is final.
    && 1 <= requests <= p.maxAttempts
    && (forall i :: 0 <= i < requests - 1 ==> !Final(turns[i].attempt))
    && (result.Response? ==>
          result.attempt == turns[requests - 1].attempt && result.attempt.Answered?
          && (Final(result.attempt) || requests == p.maxAttempts))
    && (result == RequestFailed ==> requests == p.maxAttempts && turns[requests - 1].attempt == Raised)
    && (Final(turns[requests - 1].attempt) ==> result == Response(turns[requests - 1].attempt))
    // One sleep between attempts, and none after the last answer or failure.
    && |sleeps| <= requests <= |sleeps| + 1
    && (result.Response? || result == RequestFailed ==> |sleeps| == requests - 1)
    && SleptAsWanted(p, turns, start, sleeps)
    // It gives up at the deadline and only then.
    && BegunInTime(p, turns, start, sleeps, requests)
    && (result == DeadlineExceeded && |sleeps| == requests ==>
          requests < p.maxAttempts && Clock(turns, sleeps, start, requests) + turns[requests].pause >= start + p.maxElapsed)
    && (result == DeadlineExceeded && |sleeps| < requests ==> Checked(turns, sleeps, start, requests - 1) >= start + p.maxElapsed)
    // All sleeps together stay within the deadline if the clock runs while sleeping.
    && 0.0 <= Total(sleeps)
    && (ClockRuns(turns, sleeps) ==> Total(sleeps) <= p.maxElapsed)
  }

  /** The loop stands before attempt `i`. */
  ghost predicate Standing(p: Policy, turns: seq<Turn>, start: real, i: nat, now: real, sleeps: seq<Sleep>) {
    && Usable(p) && TimePasses(turns)
    && i == |sleeps| < p.maxAttempts == |turns|
    && (forall k :: 0 <= k < i ==> !Final(turns[k].attempt))
    && SleptAsWanted(p, turns, start, sleeps)
    && now == Clock(turns, sleeps, start, i) && BegunInTime(p, turns, start, sleeps, i)
    && start <= now && 0.0 <= Total(sleeps)
    && (ClockRuns(turns, sleeps) ==> Total(sleeps) <= now - start && Total(sleeps) <= p.maxElapsed)
    && Course(p, turns, start + p.maxElapsed, 0, start) == After(sleeps, Course(p, turns, start + p.maxElapsed, i, now))
  }

  lemma StandingFirst(p: Policy, turns: seq<Turn>, start: real)
    requires Usable(p) && |turns| == p.maxAttempts && TimePasses(turns)
    ensures Standing(p, turns, start, 0, start, [])
  {
    NothingBefore(Course(p, turns, start + p.maxElapsed, 0, start));
    NoSleep(p, turns, start);
  }

  lemma StandingNext(p: Policy, turns: seq<Turn>, start: real, i: nat, now: real, sleeps: seq<Sleep>)
    requires Standing(p, turns, start, i, now, sleeps) && i + 1 < p.maxAttempts
    requires var at := now + turns[i].pause + turns[i].request + turns[i].check;
             !Final(turns[i].attempt) && at < start + p.maxElapsed
    ensures var at := now + turns[i].pause + turns[i].request + turns[i].check;
            Standing(p, turns, start, i + 1, at + turns[i].asleep,
                     sleeps + [Sleep(at, Length(p, turns, start + p.maxElapsed, i, at))])
  {
    hide Course, Later, After, Wanted, Lower, Higher, SleptAsWanted, Total, BegunInTime, Clock, Checked, ClockRuns;
    var turn, deadline := turns[i], start + p.maxElapsed;
    var at := now + turn.pause + turn.request + turn.check;
    var x := Sleep(at, Length(p, turns, deadline, i, at));
    CourseStep(p, turns, deadline, i, now);
    OneMoreBegun(p, turns, start, sleeps);
    CutLength(Wanted(p, turn.attempt, i, turn.random), p.maxDelay, deadline - at);
    TotalStep(sleeps, x);
    ClockRanBefore(turns, sleeps, x);
    OneMoreSleep(p, turns, start, sleeps, x);
    BegunStays(p, turns, start, sleeps, x);
    AfterOneMore(sleeps, x, Course(p, turns, deadline, i + 1, at + turn.asleep));
  }

  /** Where the loop ends before attempt `i`, or in it. */
  lemma StandingLast(p: Policy, turns: seq<Turn>, start: real, i: nat, now: real, sleeps: seq<Sleep>, done: Outcome)
    requires Standing(p, turns, start, i, now, sleeps) && Course(p, turns, start + p.maxElapsed, i, now) == done && done.sleeps == []
    ensures var all := Outcome(done.result, i + done.requests, sleeps);
            Promised(p, turns, start, all) && all == Course(p, turns, start + p.maxElapsed, 0, start)
  {
    hide Course, After, SleptAsWanted, Total, BegunInTime, Clock, Checked, ClockRuns;
    CourseStep(p, turns, start + p.maxElapsed, i, now);
    AfterEnd(sleeps, done.result, done.requests);
    if done.requests == 1 && (i == 0 || now + turns[i].pause < start + p.maxElapsed) {
      OneMoreBegun(p, turns, start, sleeps);
    }
  }

  ghost predicate Done(p: Policy, turns: seq<Turn>, start: real, done: Outcome)
    requires 1 <= p.maxAttempts == |turns|
  {
    Promised(p, turns, start, done) && done == Course(p, turns, start + p.maxElapsed, 0, start)
  }

  lemma LateIsDone(p: Policy, turns: seq<Turn>, start: real, i: nat, now: real, sleeps: seq<Sleep>)
    requires Standing(p, turns, start, i, now, sleeps) && i > 0 && now + turns[i].pause >= start + p.maxElapsed
    ensures Done(p, turns, start, Outcome(DeadlineExceeded, i, sleeps))
  {
    StandingLast(p, turns, start, i, now, sleeps, Outcome(DeadlineExceeded, 0, []));
  }

  lemma AttemptIsDone(p: Policy, turns: seq<Turn>, start: real, i: nat, now: real, sleeps: seq<Sleep>)
    requires Standing(p, turns, start, i, now, sleeps) && (i > 0 ==> now + turns[i].pause < start + p.maxElapsed)
    requires Final(turns[i].attempt) || i + 1 == p.maxAttempts
    ensures Done(p, turns, start,
                 Outcome(if turns[i].attempt.Answered? then Response(turns[i].attempt) else RequestFailed, i + 1, sleeps))
  {
    CourseStep(p, turns, start + p.maxElapsed, i, now);
    hide Course, Done, Promised;
    StandingLast(p, turns, start, i, now, sleeps, Course(p, turns, start + p.maxElapsed, i, now));
    DoneIs(p, turns, start, Outcome(if turns[i].attempt.Answered? then Response(turns[i].attempt) else RequestFailed, i + 1, sleeps));
  }

  lemma DoneIs(p: Policy, turns: seq<Turn>, start: real, done: Outcome)
    requires 1 <= p.maxAttempts == |turns|
    requires Promised(p, turns, start, done) && done == Course(p, turns, start + p.maxElapsed, 0, start)
    ensures Done(p, turns, start, done)
  {
  }

  lemma OutOfTimeIsDone(p: Policy, turns: seq<Turn>, start: real, i: nat, now: real, sleeps: seq<Sleep>)
    requires Standing(p, turns, start, i, now, sleeps) && (i > 0 ==> now + turns[i].pause < start + p.maxElapsed)
    requires !Final(turns[i].attempt) && i + 1 < p.maxAttempts
    requires now + turns[i].pause + turns[i].request + turns[i].check >= start + p.maxElapsed
    ensures Done(p, turns, start, Outcome(DeadlineExceeded, i + 1, sleeps))
  {
    CourseStep(p, turns, start + p.maxElapsed, i, now);
    hide Course, Done, Promised;
    StandingLast(p, turns, start, i, now, sleeps, Outcome(DeadlineExceeded, 1, []));
    DoneIs(p, turns, start, Outcome(DeadlineExceeded, i + 1, sleeps));
  }

  /** The length of the sleep after attempt `i`; only an answer of this very attempt is asked for its header. */
  method SleepLength(p: Policy, answer: Option<Attempt>, turn: Turn, i: nat, remaining: real) returns (length: real)
    requires answer == if turn.attempt.Answered? then Some(turn.attempt) else None
    ensures length == Lower(Lower(Higher(0.0, Wanted(p, turn.attempt, i, turn.random)), p.maxDelay), remaining)
  {
    var delay := if answer.Some? then RetryAfter(answer.value) else None;
    if delay.None? {
      delay := Some(Exponential(p, i, turn.random));
    }
    length := Lower(Lower(Higher(0.0, delay.value), p.maxDelay), remaining);
  }

  /** One turn of the loop: it ends with a result, or sleeps and goes on. `answer` is the local that a
      Retry-After is read from; it comes in empty, because it is dropped after every sleep. */
  method Attempted(p: Policy, turns: seq<Turn>, start: real, i: nat, begun: real, sleeps: seq<Sleep>, answer: Option<Attempt>)
    returns (ended: Option<Result>, requests: nat, now: real, slept: seq<Sleep>, kept: Option<Attempt>)
    requires i < p.maxAttempts == |turns|
    requires Standing(p, turns, start, i, begun, sleeps) && answer == None
    ensures ended.Some? ==> Done(p, turns, start, Outcome(ended.value, requests, slept))
    ensures ended.None? ==> i + 1 < p.maxAttempts && Standing(p, turns, start, i + 1, now, slept) && kept == None
  {
    hide Done, Standing, Course, Wanted, Lower, Higher, Retryable;
    var turn, deadline := turns[i], start + p.maxElapsed;
    requests, slept, kept := i, sleeps, answer;
    now := begun + turn.pause;
    if i > 0 && now >= deadline {
      LateIsDone(p, turns, start, i, begun, sleeps);
      ended := Some(DeadlineExceeded);
      return;
    }
    requests := i + 1;
    now := now + turn.request;
    if turn.attempt == Raised {
      if i + 1 == p.maxAttempts {
        AttemptIsDone(p, turns, start, i, begun, sleeps);
        ended := Some(RequestFailed);
        return;
      }
    } else {
      kept := Some(turn.attempt);
      if !Retryable(turn.attempt.status) || i + 1 == p.maxAttempts {
        AttemptIsDone(p, turns, start, i, begun, sleeps);
        ended := Some(Response(turn.attempt));
        return;
      }
    }
    now := now + turn.check;
    var remaining := deadline - now;
    if remaining <= 0.0 {
      OutOfTimeIsDone(p, turns, start, i, begun, sleeps);
      ended := Some(DeadlineExceeded);
      return;
    }
    var length := SleepLength(p, kept, turn, i, remaining);
    StandingNext(p, turns, start, i, begun, sleeps);
    ended, slept, now, kept := None, sleeps + [Sleep(now, length)], now + turn.asleep, None;
  }

  /** The retry loop. */
  method RequestWithBackoff(p: Policy, turns: seq<Turn>, start: real)
    returns (result: Result, requests: nat, sleeps: seq<Sleep>)
    requires Usable(p) && |turns| == p.maxAttempts && TimePasses(turns)
    ensures Done(p, turns, start, Outcome(result, requests, sleeps))
  {
    StandingFirst(p, turns, start);
    hide Done, Standing, TimePasses;
    var now := start;
    var answer: Option<Attempt> := None;
    sleeps := [];
    var i := 0;
    while i < p.maxAttempts
      invariant 0 <= i < p.maxAttempts && answer == None
      invariant Standing(p, turns, start, i, now, sleeps)
      decreases p.maxAttempts - i
    {
      var ended: Option<Result>;
      ended, requests, now, sleeps, answer := Attempted(p, turns, start, i, now, sleeps, answer);
      if ended.Some? {
        return ended.value, requests, sleeps;
      }
      i := i + 1;
    }
    assert false;
  }

  // ---------------------------------------------------------------- when, and for how long

  /** Every attempt but the last failed, or was answered with 408, 425, 429 or a server error; and an answer
      given back before the attempts ran out was none of these. */
  lemma RetriesExactly(p: Policy, turns: seq<Turn>, start: real, done: Outcome)
    requires 1 <= p.maxAttempts == |turns| && Done(p, turns, start, done)
    ensures 1 <= done.requests <= p.maxAttempts
    ensures forall i :: 0 <= i < done.requests - 1 ==>
              turns[i].attempt == Raised || turns[i].attempt.status in {408, 425, 429} || turns[i].attempt.status >= 500
    ensures done.result.Response? && done.requests < p.maxAttempts ==>
              done.result.attempt.Answered? && done.result.attempt.status !in {408, 425, 429} && done.result.attempt.status < 500
    ensures var last := turns[done.requests - 1].attempt;
            last.Answered? && last.status !in {408, 425, 429} && last.status < 500 ==> done.result == Response(last)
  {
    hide Course, SleptAsWanted, BegunInTime, ClockRuns, Total, Clock, Checked;
  }

  /** The length of a sleep: the delay if it is positive, cut to the longest one allowed and to the time left. */
  predicate IsCutTo(length: real, delay: real, most: real, left: real) {
    var positive := if delay > 0.0 then delay else 0.0;
    && length <= positive && length <= most && length <= left
    && (length == positive || length == most || length == left)
  }

  /** After an answer that names a number of seconds, none of them negative, the sleep is that long. Otherwise
      it is the base delay, doubled once for every attempt before, with up to the jitter's share more or less. */
  lemma SleepsGrow(p: Policy, turns: seq<Turn>, start: real, done: Outcome, i: nat, delay: real)
    requires 1 <= p.maxAttempts == |turns| && Done(p, turns, start, done) && i < |done.sleeps|
    requires var a := turns[i].attempt;
             delay == if a.Answered? && a.retryAfter.Seconds? && a.retryAfter.value >= 0.0 then a.retryAfter.value
                      else p.baseDelay * Pow2(i) * (1.0 + p.jitter * (2.0 * turns[i].random - 1.0))
    ensures |done.sleeps| <= |turns|
    ensures IsCutTo(done.sleeps[i].length, delay, p.maxDelay, start + p.maxElapsed - done.sleeps[i].at)
  {
    hide Done, Pow2, IsCutTo, Lower, Higher, Wanted;
    SleepIs(p, turns, start, done, i);
    WantedIs(p, turns[i].attempt, i, turns[i].random, delay);
    CutIs(delay, p.maxDelay, start + p.maxElapsed - done.sleeps[i].at);
  }

  lemma SleepIs(p: Policy, turns: seq<Turn>, start: real, done: Outcome, i: nat)
    requires 1 <= p.maxAttempts == |turns| && Done(p, turns, start, done) && i < |done.sleeps|
    ensures |done.sleeps| <= |turns|
    ensures done.sleeps[i].length == Lower(Lower(Higher(0.0, Wanted(p, turns[i].attempt, i, turns[i].random)), p.maxDelay),
                                           start + p.maxElapsed - done.sleeps[i].at)
  {
    hide Course, BegunInTime, ClockRuns, Total, Clock, Checked, Lower, Higher, Wanted;
  }

  lemma CutIs(delay: real, most: real, left: real)
    ensures IsCutTo(Lower(Lower(Higher(0.0, delay), most), left), delay, most, left)
  {
  }

  lemma WantedIs(p: Policy, a: Attempt, i: nat, random: real, delay: real)
    requires delay == if a.Answered? && a.retryAfter.Seconds? && a.retryAfter.value >= 0.0 then a.retryAfter.value
                      else p.baseDelay * Pow2(i) * (1.0 + p.jitter * (2.0 * random - 1.0))
    ensures Wanted(p, a, i, random) == delay
  {
  }

  /** Two sleeps in a row of one policy, neither cut nor named by the server, under the same random number:
      the second is twice the first, and the first of all is the base delay with its jitter. */
  lemma DelaysDouble(p: Policy, turns: seq<Turn>, start: real, done: Outcome, i: nat)
    requires 1 <= p.maxAttempts == |turns| && Done(p, turns, start, done)
    requires i + 1 < |done.sleeps| <= |turns| && turns[i].attempt == Raised && turns[i + 1].attempt == Raised
    requires turns[i].random == turns[i + 1].random
    requires forall j :: i <= j <= i + 1 ==>
               0.0 < done.sleeps[j].length < p.maxDelay && done.sleeps[j].at + done.sleeps[j].length < start + p.maxElapsed
    ensures done.sleeps[i + 1].length == 2.0 * done.sleeps[i].length
    ensures i == 0 ==> done.sleeps[0].length == p.baseDelay * (1.0 + p.jitter * (2.0 * turns[0].random - 1.0))
  {
    hide Done, IsCutTo, Pow2;
    var c := 1.0 + p.jitter * (2.0 * turns[i].random - 1.0);
    var first, second := p.baseDelay * Pow2(i) * c, p.baseDelay * Pow2(i + 1) * c;
    SleepsGrow(p, turns, start, done, i, first);
    SleepsGrow(p, turns, start, done, i + 1, second);
    UncutIs(done.sleeps[i].length, first, p.maxDelay, start + p.maxElapsed - done.sleeps[i].at);
    UncutIs(done.sleeps[i + 1].length, second, p.maxDelay, start + p.maxElapsed - done.sleeps[i + 1].at);
    PowersDouble(i);
    Doubling(p.baseDelay, Pow2(i), c);
  }

  lemma UncutIs(length: real, delay: real, most: real, left: real)
    requires IsCutTo(length, delay, most, left) && 0.0 < length < most && length < left
    ensures length == delay
  {
  }

  lemma PowersDouble(i: nat)
    ensures Pow2(0) == 1.0 && Pow2(i + 1) == 2.0 * Pow2(i)
  {
  }

  lemma Doubling(a: real, b: real, c: real)
    ensures a * (2.0 * b) * c == 2.0 * (a * b * c)
  {
    assert a * (2.0 * b) == 2.0 * (a * b);
  }

  // ---------------------------------------------------------------- any clock

  /** The most one sleep can take. */
  function Most(p: Policy): real { Lower(p.maxDelay, p.maxElapsed) }

  function Times(n: nat, x: real): real { n as real * x }

  lemma OneMoreTime(n: nat, x: real)
    ensures Times(n + 1, x) == Times(n, x) + x && Times(0, x) == 0.0
  {
  }

  lemma {:induction false} TotalLater(x: Sleep, sleeps: seq<Sleep>)
    ensures Total([x] + sleeps) == x.length + Total(sleeps)
    decreases |sleeps|
  {
    if sleeps == [] {
      assert [x] + sleeps == [] + [x];
      TotalStep([], x);
    } else {
      var front, last := sleeps[..|sleeps| - 1], sleeps[|sleeps| - 1];
      TotalLater(x, front);
      assert [x] + sleeps == ([x] + front) + [last];
      TotalStep([x] + front, last);
    }
  }

  /** From attempt `i` on, the sleeps left cannot take more than the most for each. */
  lemma {:induction false} SleepsAreBounded(p: Policy, turns: seq<Turn>, start: real, i: nat, now: real)
    requires Usable(p) && i < p.maxAttempts == |turns| && TimePasses(turns) && start <= now
    ensures 0.0 <= Total(Course(p, turns, start + p.maxElapsed, i, now).sleeps) <= Times(p.maxAttempts - 1 - i, Most(p))
    decreases p.maxAttempts - i
  {
    hide Wanted, Times, Total, Course, Lower, Higher, Length, Most;
    var turn, deadline := turns[i], start + p.maxElapsed;
    var at := now + turn.pause + turn.request + turn.check;
    CourseStep(p, turns, deadline, i, now);
    NoTotal();
    MostIsPositive(p);
    ManyTimes(p.maxAttempts - 1 - i, Most(p));
    if !(i > 0 && now + turn.pause >= deadline) && !Final(turn.attempt) && i + 1 < p.maxAttempts && at < deadline {
      var rest := Course(p, turns, deadline, i + 1, at + turn.asleep);
      var length := Length(p, turns, deadline, i, at);
      SleepsAreBounded(p, turns, start, i + 1, at + turn.asleep);
      LengthIsBounded(p, turns, start, i, at);
      TotalLater(Sleep(at, length), rest.sleeps);
      OneMoreTime(p.maxAttempts - 2 - i, Most(p));
    }
  }

  lemma MostIsPositive(p: Policy)
    requires Usable(p)
    ensures Most(p) >= 0.0
  {
  }

  lemma LengthIsBounded(p: Policy, turns: seq<Turn>, start: real, i: nat, at: real)
    requires Usable(p) && i < |turns| && start <= at < start + p.maxElapsed
    ensures 0.0 <= Length(p, turns, start + p.maxElapsed, i, at) <= Most(p)
  {
    hide Wanted;
  }

  lemma ManyTimes(n: nat, x: real)
    ensures x >= 0.0 ==> Times(n, x) >= 0.0
  {
  }

  /** A clock that stands still, and a server that keeps asking for the longest sleep. */
  function StillTurn(p: Policy): Turn {
    Turn(Answered(503, Seconds(Most(p))), 0.0, 0.0, 0.0, 0.0, 0.0)
  }

  function Still(p: Policy): seq<Turn> {
    seq(p.maxAttempts, _ => StillTurn(p))
  }

  lemma {:induction false} StillClockSleepsInFull(p: Policy, i: nat)
    requires Usable(p) && i < p.maxAttempts
    ensures TimePasses(Still(p))
    ensures var done := Course(p, Still(p), p.maxElapsed, i, 0.0);
            && |done.sleeps| == p.maxAttempts - 1 - i
            && Total(done.sleeps) == Times(p.maxAttempts - 1 - i, Most(p))
    decreases p.maxAttempts - i
  {
    hide Times, Total;
    if i + 1 < p.maxAttempts {
      StillClockSleepsInFull(p, i + 1);
      assert Length(p, Still(p), p.maxElapsed, i, 0.0) == Most(p);
      TotalLater(Sleep(0.0, Most(p)), Course(p, Still(p), p.maxElapsed, i + 1, 0.0).sleeps);
      OneMoreTime(p.maxAttempts - 2 - i, Most(p));
    } else {
      OneMoreTime(0, Most(p));
      NoTotal();
    }
  }

  lemma NoTotal()
    ensures Total([]) == 0.0
  {
  }

  /** How long a request sleeps in all. */
  function Slept(p: Policy, turns: seq<Turn>, start: real): real
    requires 1 <= p.maxAttempts == |turns|
  {
    Total(Course(p, turns, start + p.maxElapsed, 0, start).sleeps)
  }

  /** Whatever clock that never goes back: the sleeps of this request stay within the allowed time. */
  ghost predicate SafeOnAnyClock(p: Policy) {
    forall turns: seq<Turn>, start: real :: 1 <= p.maxAttempts == |turns| && TimePasses(turns) ==>
      Slept(p, turns, start) <= p.maxElapsed
  }

  /** On a clock that need not show the time slept, the sleeps of a policy stay within its limit exactly
      when as many of the longest ones as it has pauses fit into it. */
  lemma AnyClockExactly(p: Policy)
    requires Usable(p)
    ensures SafeOnAnyClock(p) <==> (p.maxAttempts - 1) as real * Lower(p.maxDelay, p.maxElapsed) <= p.maxElapsed
  {
    assert Times(p.maxAttempts - 1, Most(p)) == (p.maxAttempts - 1) as real * Lower(p.maxDelay, p.maxElapsed);
    forall turns: seq<Turn>, start: real | |turns| == p.maxAttempts && TimePasses(turns)
      ensures Slept(p, turns, start) <= Times(p.maxAttempts - 1, Most(p))
    {
      SleepsAreBounded(p, turns, start, 0, start);
    }
    StillClockSleepsInFull(p, 0);
    assert 0.0 + p.maxElapsed == p.maxElapsed;
    assert Slept(p, Still(p), 0.0) == Times(p.maxAttempts - 1, Most(p));
  }

  /** The default policy and the one of GitCode's publisher satisfy it. */
  lemma PoliciesInUseAreSafe(jitter: real)
    requires 0.0 <= jitter <= 1.0
    ensures SafeOnAnyClock(Policy(3, 0.5, 5.0, 15.0, jitter))
    ensures SafeOnAnyClock(Policy(3, 1.0, 30.0, 90.0, jitter))
  {
    AnyClockExactly(Policy(3, 0.5, 5.0, 15.0, jitter));
    AnyClockExactly(Policy(3, 1.0, 30.0, 90.0, jitter));
  }
}
