/** Whole runs of the credential broker: what its books say about everything it ever granted. */
module BrokerRuns {
  import opened Values
  import opened Broker

  /** A permit is given back in two steps: its flag first, then the broker's count. */
  datatype Phase = Held | Returning | Returned

  datatype Permit = Permit(digest: Digest, phase: Phase)

  /** What happened, in order: usage appeared under a key, a later lease narrowed it, a request was
      granted, output was booked. */
  datatype Entry =
    | Appeared(key: Key, maxRequests: nat, maxOutput: nat)
    | Narrowed(key: Key, maxRequests: nat, maxOutput: nat)
    | Request(key: Key)
    | Output(key: Key, size: nat)

  datatype World = World(books: Books, permits: seq<Permit>, log: seq<Entry>, drawn: set<Digest>, now: int)

  datatype Action =
    | Tick(seconds: nat)
    | Issue(d: Digest, terms: Terms)
    | Validate(d: Digest)
    | Acquire(d: Digest, endpoint: string, model: string)
    | Return(permit: nat)
    | GiveBack(permit: nat)
    | Record(permit: nat, size: int)
    | Revoke(d: Digest)
    | SetError(d: Digest, message: Option<string>)

  datatype Config = Config(model: string, defaultTtl: int)

  // ---------------------------------------------------------------- the record of a key since it appeared

  datatype Account = Account(
    requests: nat, output: nat,
    maxRequests: nat, maxOutput: nat,
    firstRequests: nat, firstOutput: nat)

  const UNOPENED := Account(0, 0, 0, 0, 0, 0)

  function Booked(a: Account, e: Entry): Account {
    match e
    case Appeared(_, r, o) => Account(0, 0, r, o, r, o)
    case Narrowed(_, r, o) =>
      a.(maxRequests := if r < a.maxRequests then r else a.maxRequests, maxOutput := if o < a.maxOutput then o else a.maxOutput)
    case Request(_) => a.(requests := a.requests + 1)
    case Output(_, size) => a.(output := a.output + size)
  }

  function AccountOf(log: seq<Entry>, key: Key): Account
    decreases |log|
  {
    if log == [] then UNOPENED
    else
      var before := AccountOf(log[..|log| - 1], key);
      var e := log[|log| - 1];
      if e.key == key then Booked(before, e) else before
  }

  // ---------------------------------------------------------------- steps

  function Outstanding(permits: seq<Permit>, d: Digest): nat
    decreases |permits|
  {
    if permits == [] then 0
    else
      var p := permits[|permits| - 1];
      Outstanding(permits[..|permits| - 1], d) + if p.digest == d && p.phase != Returned then 1 else 0
  }

  function IssueEntry(b: Books, t: Terms, defaultTtl: int): Entry
    requires GoodTerms(t, defaultTtl)
  {
    if t.key in b.usage then Narrowed(t.key, t.maxRequests, t.maxOutput) else Appeared(t.key, t.maxRequests, t.maxOutput)
  }

  function Act(c: Config, w: World, a: Action): World
    requires Accountable(w.books)
  {
    var b := w.books;
    match a
    case Tick(seconds) => w.(now := w.now + seconds)
    case Issue(d, t) =>
      if d in w.drawn || !GoodTerms(t, c.defaultTtl) then w
      else w.(books := Issued(b, d, t, c.model, c.defaultTtl, w.now), drawn := w.drawn + {d},
              log := w.log + [IssueEntry(b, t, c.defaultTtl)])
    case Validate(d) => w.(books := Validated(b, d, w.now))
    case Acquire(d, endpoint, model) =>
      if AcquireAnswer(b, d, endpoint, model, w.now) == Granted
      then w.(books := Acquired(b, d, endpoint, model, w.now), permits := w.permits + [Permit(d, Held)],
              log := w.log + [Request(b.leases[d].key)])
      else w.(books := Acquired(b, d, endpoint, model, w.now))
    case Return(i) =>
      if i < |w.permits| && w.permits[i].phase == Held
      then w.(permits := w.permits[i := w.permits[i].(phase := Returning)]) else w
    case GiveBack(i) =>
      if i < |w.permits| && w.permits[i].phase == Returning
      then w.(permits := w.permits[i := w.permits[i].(phase := Returned)], books := Released(b, w.permits[i].digest)) else w
    case Record(i, size) =>
      if i < |w.permits| && OutputAnswer(b, w.permits[i].digest, size) == Granted
      then w.(books := OutputRecorded(b, w.permits[i].digest, size),
              log := w.log + [Output(b.leases[w.permits[i].digest].key, size)]) else w
    case Revoke(d) => w.(books := Removed(b, d))
    case SetError(d, message) => w.(books := ErrorSet(b, d, message))
  }

  // ---------------------------------------------------------------- the invariant

  /** Each live lease counts its outstanding permits, and no more than it allows. */
  ghost predicate PermitsCounted(b: Books, permits: seq<Permit>) {
    forall d :: d in b.leases ==>
      b.leases[d].inFlight == Outstanding(permits, d) && b.leases[d].inFlight <= b.leases[d].maxConcurrency
  }

  /** Usage holds what the log says since the key appeared. */
  ghost predicate UsageBooked(b: Books, log: seq<Entry>) {
    forall key :: key in b.usage ==>
      var u, a := b.usage[key], AccountOf(log, key);
      u == Usage(a.maxRequests, a.maxOutput, a.requests, a.output)
  }

  ghost predicate GrantAt(log: seq<Entry>, i: nat)
    requires i < |log|
  {
    var a := AccountOf(log[..i], log[i].key);
    match log[i]
    case Request(_) => a.requests < a.maxRequests
    case Output(_, size) => a.output + size <= a.maxOutput
    case _ => true
  }

  /** Every grant was within the limits of its moment. */
  ghost predicate GrantsWithinLimits(log: seq<Entry>) {
    forall i :: 0 <= i < |log| ==> GrantAt(log, i)
  }

  ghost predicate AllDrawn(w: World) {
    && (forall d :: d in w.books.leases ==> d in w.drawn)
    && (forall i :: 0 <= i < |w.permits| ==> w.permits[i].digest in w.drawn)
  }

  ghost predicate Inv(w: World) {
    && UsageMatches(w.books)
    && PermitsCounted(w.books, w.permits)
    && UsageBooked(w.books, w.log)
    && GrantsWithinLimits(w.log)
    && AllDrawn(w)
  }

  // ---------------------------------------------------------------- every step keeps it

  lemma StepKeepsMatch(c: Config, w: World, a: Action)
    requires Inv(w) && Accountable(w.books)
    ensures UsageMatches(Act(c, w, a).books)
  {
    hide PermitsCounted, UsageBooked, GrantsWithinLimits;
    var b := w.books;
    match a
    case Issue(d, t) =>
      if d !in w.drawn && GoodTerms(t, c.defaultTtl) {
        IssueKeepsMatch(b, d, t, c.model, c.defaultTtl, w.now);
      }
    case Validate(d) => RemovalKeepsMatch(b, d);
    case Acquire(d, endpoint, model) =>
      RemovalKeepsMatch(b, d);
      if AcquireAnswer(b, d, endpoint, model, w.now) == Granted {
        SameKeysSameMatch(b, Act(c, w, a).books);
      }
    case GiveBack(i) => SameKeysSameMatch(b, Act(c, w, a).books);
    case Record(i, size) => SameKeysSameMatch(b, Act(c, w, a).books);
    case Revoke(d) => RemovalKeepsMatch(b, d);
    case SetError(d, message) => SameKeysSameMatch(b, Act(c, w, a).books);
    case _ =>
  }

  lemma OneMorePermit(permits: seq<Permit>, p: Permit, d: Digest)
    ensures Outstanding(permits + [p], d) == Outstanding(permits, d) + if p.digest == d && p.phase != Returned then 1 else 0
  {
    assert (permits + [p])[..|permits|] == permits;
  }

  lemma {:induction false} PhaseChange(permits: seq<Permit>, i: nat, p: Permit, d: Digest)
    requires i < |permits| && p.digest == permits[i].digest
    ensures Outstanding(permits[i := p], d) ==
            Outstanding(permits, d)
            - (if permits[i].digest == d && permits[i].phase != Returned then 1 else 0)
            + (if p.digest == d && p.phase != Returned then 1 else 0)
    decreases |permits|
  {
    var last := |permits| - 1;
    if i < last {
      assert permits[i := p][..last] == permits[..last][i := p];
      PhaseChange(permits[..last], i, p, d);
    } else {
      assert permits[i := p][..last] == permits[..last];
    }
  }

  lemma {:induction false} UndrawnHasNone(permits: seq<Permit>, d: Digest)
    requires forall i :: 0 <= i < |permits| ==> permits[i].digest != d
    ensures Outstanding(permits, d) == 0
    decreases |permits|
  {
    if permits != [] {
      UndrawnHasNone(permits[..|permits| - 1], d);
    }
  }

  lemma AcquireCountsPermit(c: Config, w: World, e: Digest, endpoint: string, model: string)
    requires Inv(w) && Accountable(w.books)
    ensures var v := Act(c, w, Acquire(e, endpoint, model)); PermitsCounted(v.books, v.permits)
  {
    hide UsageMatches, UsageBooked, GrantsWithinLimits, AccountOf, Live, Outstanding, AllDrawn;
    var v := Act(c, w, Acquire(e, endpoint, model));
    forall d | d in v.books.leases
      ensures v.books.leases[d].inFlight == Outstanding(v.permits, d) <= v.books.leases[d].maxConcurrency
    {
      OneMorePermit(w.permits, Permit(e, Held), d);
    }
  }

  lemma GivingBackCountsPermit(c: Config, w: World, a: Action)
    requires Inv(w) && Accountable(w.books) && (a.Return? || a.GiveBack?)
    ensures var v := Act(c, w, a); PermitsCounted(v.books, v.permits)
  {
    hide UsageMatches, UsageBooked, GrantsWithinLimits, AccountOf, Live, Outstanding, AllDrawn;
    var v := Act(c, w, a);
    if v.permits != w.permits {
      forall d | d in v.books.leases
        ensures v.books.leases[d].inFlight == Outstanding(v.permits, d) <= v.books.leases[d].maxConcurrency
      {
        PhaseChange(w.permits, a.permit, v.permits[a.permit], d);
      }
    }
  }

  lemma StepCountsPermits(c: Config, w: World, a: Action)
    requires Inv(w) && Accountable(w.books)
    ensures PermitsCounted(Act(c, w, a).books, Act(c, w, a).permits)
  {
    if a.Acquire? {
      AcquireCountsPermit(c, w, a.d, a.endpoint, a.model);
    } else if a.Return? || a.GiveBack? {
      GivingBackCountsPermit(c, w, a);
    } else {
      hide UsageMatches, UsageBooked, GrantsWithinLimits, AccountOf, Live, Outstanding;
      if a.Issue? && a.d !in w.drawn {
        UndrawnHasNone(w.permits, a.d);
      }
    }
  }

  lemma AccountStep(log: seq<Entry>, e: Entry, key: Key)
    ensures AccountOf(log + [e], key) == if e.key == key then Booked(AccountOf(log, key), e) else AccountOf(log, key)
  {
    assert (log + [e])[..|log|] == log;
  }

  lemma StepBooksUsage(c: Config, w: World, a: Action)
    requires Inv(w) && Accountable(w.books)
    ensures UsageBooked(Act(c, w, a).books, Act(c, w, a).log)
  {
    hide UsageMatches, PermitsCounted, GrantsWithinLimits, AccountOf, Outstanding;
    var v := Act(c, w, a);
    forall key | key in v.books.usage
      ensures var u, x := v.books.usage[key], AccountOf(v.log, key); u == Usage(x.maxRequests, x.maxOutput, x.requests, x.output)
    {
      if v.log != w.log {
        var e := v.log[|w.log|];
        assert v.log == w.log + [e];
        AccountStep(w.log, e, key);
      }
    }
  }

  lemma OneMoreGrant(log: seq<Entry>, e: Entry)
    requires GrantsWithinLimits(log) && GrantAt(log + [e], |log|)
    ensures GrantsWithinLimits(log + [e])
  {
    hide AccountOf;
    forall i | 0 <= i < |log + [e]| ensures GrantAt(log + [e], i) {
      if i < |log| {
        assert GrantAt(log, i);
        assert (log + [e])[..i] == log[..i];
      }
    }
  }

  lemma StepGrantsWithinLimits(c: Config, w: World, a: Action)
    requires Inv(w) && Accountable(w.books)
    ensures GrantsWithinLimits(Act(c, w, a).log)
  {
    hide UsageMatches, PermitsCounted, AccountOf, Outstanding;
    var v := Act(c, w, a);
    if v.log != w.log {
      var e := v.log[|w.log|];
      assert v.log == w.log + [e] && v.log[..|w.log|] == w.log;
      hide GrantsWithinLimits;
      assert GrantAt(v.log, |w.log|);
      OneMoreGrant(w.log, e);
    }
  }

  lemma StepDrawsFresh(c: Config, w: World, a: Action)
    requires Inv(w) && Accountable(w.books)
    ensures AllDrawn(Act(c, w, a))
  {
    hide UsageMatches, PermitsCounted, UsageBooked, GrantsWithinLimits, AccountOf, Outstanding;
  }

  lemma ActKeepsInv(c: Config, w: World, a: Action)
    requires Inv(w)
    ensures Accountable(w.books) && Inv(Act(c, w, a))
  {
    LeasesHaveUsage(w.books);
    StepKeepsMatch(c, w, a);
    StepCountsPermits(c, w, a);
    StepBooksUsage(c, w, a);
    StepGrantsWithinLimits(c, w, a);
    StepDrawsFresh(c, w, a);
    hide Act;
  }

  const EMPTY := World(Books(map[], map[]), [], [], {}, 0)

  /** Any run keeps the books in order. */
  function Run(c: Config, w: World, actions: seq<Action>): (v: World)
    requires Inv(w)
    ensures Inv(v)
    decreases |actions|
  {
    if actions == [] then w
    else
      ActKeepsInv(c, w, actions[0]);
      Run(c, Act(c, w, actions[0]), actions[1..])
  }

  // ---------------------------------------------------------------- what follows

  /** The totals of a key never pass the limits it appeared with, and limits only shrink from there. */
  lemma {:induction false} TotalsStayWithinFirstLimits(log: seq<Entry>, key: Key)
    requires GrantsWithinLimits(log)
    ensures var a := AccountOf(log, key);
            && a.requests <= a.firstRequests && a.output <= a.firstOutput
            && a.maxRequests <= a.firstRequests && a.maxOutput <= a.firstOutput
    decreases |log|
  {
    if log != [] {
      var front := log[..|log| - 1];
      forall i | 0 <= i < |front| ensures GrantAt(front, i) {
        assert GrantAt(log, i);
        assert front[..i] == log[..i];
      }
      TotalsStayWithinFirstLimits(front, key);
      assert GrantAt(log, |log| - 1);
    }
  }

  ghost predicate NotReopened(entries: seq<Entry>, key: Key) {
    forall i :: 0 <= i < |entries| ==> !(entries[i].Appeared? && entries[i].key == key)
  }

  /** While usage stays under its key, limits only shrink and totals only grow. */
  lemma {:induction false} LimitsOnlyShrink(log: seq<Entry>, more: seq<Entry>, key: Key)
    requires NotReopened(more, key)
    ensures var a, b := AccountOf(log, key), AccountOf(log + more, key);
            && b.maxRequests <= a.maxRequests && b.maxOutput <= a.maxOutput
            && b.requests >= a.requests && b.output >= a.output
            && b.firstRequests == a.firstRequests && b.firstOutput == a.firstOutput
    decreases |more|
  {
    if more == [] {
      assert log + more == log;
    } else {
      var front := more[..|more| - 1];
      LimitsOnlyShrink(log, front, key);
      assert log + more == log + front + [more[|more| - 1]];
      AccountStep(log + front, more[|more| - 1], key);
    }
  }

  /** A key is only reopened after its last lease is gone. */
  lemma ReopenedOnlyWhenUnused(c: Config, w: World, a: Action)
    requires Inv(w) && Accountable(w.books)
    ensures var v := Act(c, w, a);
            forall key :: key in w.books.usage ==> NotReopened(v.log[|w.log|..], key)
  {
    hide Inv, AccountOf;
  }

  /** The key has usage before every step of the run and at its end. */
  ghost predicate KeyStays(c: Config, w: World, actions: seq<Action>, key: Key)
    requires Inv(w)
    decreases |actions|
  {
    && key in w.books.usage
    && (actions != [] ==> (ActKeepsInv(c, w, actions[0]); KeyStays(c, Act(c, w, actions[0]), actions[1..], key)))
  }

  ghost predicate OnlyNarrowed(before: Usage, after: Usage) {
    && after.maxRequests <= before.maxRequests && after.maxOutput <= before.maxOutput
    && after.requests >= before.requests && after.output >= before.output
  }

  lemma StepNarrows(c: Config, w: World, a: Action, key: Key)
    requires Inv(w) && Accountable(w.books) && Inv(Act(c, w, a)) && key in w.books.usage && key in Act(c, w, a).books.usage
    ensures OnlyNarrowed(w.books.usage[key], Act(c, w, a).books.usage[key])
  {
    var v := Act(c, w, a);
    ReopenedOnlyWhenUnused(c, w, a);
    StepLengthensLog(c, w, a);
    hide Act, AccountOf, UsageMatches, PermitsCounted, GrantsWithinLimits;
    var more := v.log[|w.log|..];
    assert v.log == w.log + more;
    LimitsOnlyShrink(w.log, more, key);
  }

  lemma StepLengthensLog(c: Config, w: World, a: Action)
    requires Inv(w) && Accountable(w.books)
    ensures w.log <= Act(c, w, a).log
  {
    hide Inv;
  }

  /** On any run throughout which a key has usage, its limits only shrink and its totals only grow. */
  lemma {:induction false} LimitsShrinkWhileKeyStays(c: Config, w: World, actions: seq<Action>, key: Key)
    requires Inv(w) && KeyStays(c, w, actions, key)
    ensures var v := Run(c, w, actions);
            key in v.books.usage && OnlyNarrowed(w.books.usage[key], v.books.usage[key])
    decreases |actions|
  {
    if actions != [] {
      ActKeepsInv(c, w, actions[0]);
      hide Act, Inv;
      StepNarrows(c, w, actions[0], key);
      LimitsShrinkWhileKeyStays(c, Act(c, w, actions[0]), actions[1..], key);
    }
  }

  /** In every reachable state: usage exists exactly under the keys of live leases; every lease counts
      its unreturned permits and stays within its concurrency; totals are what was granted since the
      key appeared, within its first limits. */
  lemma BooksAreInOrder(c: Config, actions: seq<Action>)
    ensures Inv(EMPTY)
    ensures var w := Run(c, EMPTY, actions);
            && (forall key :: key in w.books.usage <==> Live(w.books.leases, key))
            && (forall d :: d in w.books.leases ==>
                  w.books.leases[d].inFlight == Outstanding(w.permits, d) <= w.books.leases[d].maxConcurrency)
            && (forall key :: key in w.books.usage ==>
                  var u, a := w.books.usage[key], AccountOf(w.log, key);
                  && u.requests == a.requests <= a.firstRequests
                  && u.output == a.output <= a.firstOutput
                  && u.maxRequests == a.maxRequests <= a.firstRequests
                  && u.maxOutput == a.maxOutput <= a.firstOutput)
  {
    var w := Run(c, EMPTY, actions);
    hide Run, AccountOf, Outstanding, Live;
    forall key | key in w.books.usage
      ensures var a := AccountOf(w.log, key);
              && a.requests <= a.firstRequests && a.output <= a.firstOutput
              && a.maxRequests <= a.firstRequests && a.maxOutput <= a.firstOutput
    {
      TotalsStayWithinFirstLimits(w.log, key);
    }
  }

  /** The guard against counting below zero never decides anything. */
  lemma GivingBackAlwaysCounts(w: World, i: nat)
    requires Inv(w) && i < |w.permits| && w.permits[i].phase != Returned && w.permits[i].digest in w.books.leases
    ensures w.books.leases[w.permits[i].digest].inFlight > 0
  {
    PhaseChange(w.permits, i, w.permits[i].(phase := Returned), w.permits[i].digest);
  }

  /** A drawn token without an unexpired lease: revoked, removed, or run out. */
  ghost predicate Dead(w: World, d: Digest) {
    d in w.drawn && (d in w.books.leases ==> w.books.leases[d].expires <= w.now)
  }

  ghost predicate Gone(w: World, d: Digest) { d in w.drawn && d !in w.books.leases }

  lemma StaysDead(c: Config, w: World, a: Action, d: Digest)
    requires Inv(w) && Accountable(w.books) && Dead(w, d)
    ensures Dead(Act(c, w, a), d) && (Gone(w, d) ==> Gone(Act(c, w, a), d))
    ensures Outstanding(Act(c, w, a).permits, d) <= Outstanding(w.permits, d)
  {
    hide UsageMatches, PermitsCounted, UsageBooked, GrantsWithinLimits, AllDrawn, AccountOf, Outstanding, Live;
    match a
    case Acquire(e, endpoint, model) => OneMorePermit(w.permits, Permit(e, Held), d);
    case Return(i) =>
      if i < |w.permits| && w.permits[i].phase == Held {
        PhaseChange(w.permits, i, w.permits[i].(phase := Returning), d);
      }
    case GiveBack(i) =>
      if i < |w.permits| && w.permits[i].phase == Returning {
        PhaseChange(w.permits, i, w.permits[i].(phase := Returned), d);
      }
    case _ =>
  }

  /** Nothing is acquired after expiry or revocation: on every continuation the token stays dead, its
      outstanding permits only go down and every further request is refused as unauthorised; once the
      lease itself is gone no output is booked on it either. */
  lemma {:induction false} DeadForever(c: Config, w: World, actions: seq<Action>, d: Digest, endpoint: string, model: string, size: nat)
    requires Inv(w) && Dead(w, d)
    ensures var v := Run(c, w, actions);
            && Dead(v, d)
            && Outstanding(v.permits, d) <= Outstanding(w.permits, d)
            && Accountable(v.books)
            && AcquireAnswer(v.books, d, endpoint, model, v.now) == Rejected(Unauthorized)
            && (Gone(w, d) ==> Gone(v, d) && OutputAnswer(v.books, d, size) == Rejected(Unauthorized))
    decreases |actions|
  {
    ActKeepsInv(c, w, Tick(0));
    if actions != [] {
      ActKeepsInv(c, w, actions[0]);
      StaysDead(c, w, actions[0], d);
      hide Act, Inv, Outstanding;
      DeadForever(c, Act(c, w, actions[0]), actions[1..], d, endpoint, model, size);
    }
  }

  /** What takes a lease away: revocation, or a question about it after it has expired. */
  ghost predicate Removes(w: World, a: Action, d: Digest) {
    a == Revoke(d) || ((a == Validate(d) || (a.Acquire? && a.d == d)) && Expired(w.books, d, w.now))
  }

  lemma LeaseLeavesExactly(c: Config, w: World, a: Action, d: Digest)
    requires Inv(w) && Accountable(w.books) && d in w.books.leases
    ensures d !in Act(c, w, a).books.leases <==> Removes(w, a, d)
  {
    hide UsageMatches, PermitsCounted, UsageBooked, GrantsWithinLimits, AllDrawn, AccountOf, Live;
  }

  ghost predicate RemovedIn(c: Config, w: World, actions: seq<Action>, d: Digest)
    requires Inv(w)
    decreases |actions|
  {
    actions != [] &&
    (Removes(w, actions[0], d) || (ActKeepsInv(c, w, actions[0]); RemovedIn(c, Act(c, w, actions[0]), actions[1..], d)))
  }

  /** Expiry alone does not stop output: on every run, however long, output on a lease is refused as
      unauthorised exactly if it was revoked on the way, or validated or asked for after it expired. */
  lemma {:induction false} OutputStopsAtRemoval(c: Config, w: World, actions: seq<Action>, d: Digest, size: nat)
    requires Inv(w) && d in w.books.leases
    ensures var v := Run(c, w, actions);
            && Accountable(v.books)
            && (OutputAnswer(v.books, d, size) == Rejected(Unauthorized) <==> RemovedIn(c, w, actions, d))
    decreases |actions|
  {
    LeasesHaveUsage(Run(c, w, actions).books);
    if actions != [] {
      ActKeepsInv(c, w, actions[0]);
      LeaseLeavesExactly(c, w, actions[0], d);
      var next := Act(c, w, actions[0]);
      if d in next.books.leases {
        hide Act, Inv, Removes;
        OutputStopsAtRemoval(c, next, actions[1..], d, size);
      } else {
        assert d in w.drawn;
        StepDrawsFresh(c, w, actions[0]);
        StillDrawn(c, w, actions[0], d);
        hide Act, Inv, Removes;
        DeadForever(c, next, actions[1..], d, RESPONSES, "", size);
      }
    }
  }

  lemma StillDrawn(c: Config, w: World, a: Action, d: Digest)
    requires Inv(w) && Accountable(w.books) && d in w.drawn
    ensures d in Act(c, w, a).drawn
  {
    hide Inv;
  }

  // ---------------------------------------------------------------- a lease keeps its terms

  /** What was asked of the lease under `d` binds it: its permits stay within the asked concurrency, and
      while it stands it has the expiry, task stage, model and concurrency it was issued with. */
  ghost predicate Bound(w: World, d: Digest, t: Terms, model: string, expires: int) {
    && d in w.drawn
    && Outstanding(w.permits, d) <= t.maxConcurrency
    && (d in w.books.leases ==>
          var l := w.books.leases[d];
          && l.expires == expires && l.key == t.key && l.model == model && l.maxConcurrency == t.maxConcurrency
          && l.inFlight == Outstanding(w.permits, d))
  }

  /** An accepted issue binds its lease to the terms, the configured model and the asked or default time. */
  lemma IssueBinds(c: Config, w: World, d: Digest, t: Terms)
    requires Inv(w) && Accountable(w.books) && Act(c, w, Issue(d, t)) != w
    ensures Bound(Act(c, w, Issue(d, t)), d, t, c.model, w.now + if t.ttl == None then c.defaultTtl else t.ttl.value)
    ensures (if t.ttl == None then c.defaultTtl else t.ttl.value) > 0
    ensures t.maxRequests > 0 && t.maxConcurrency > 0 && t.maxOutput > 0
    ensures d in Act(c, w, Issue(d, t)).books.leases && Outstanding(Act(c, w, Issue(d, t)).permits, d) == 0
  {
    hide UsageMatches, PermitsCounted, UsageBooked, GrantsWithinLimits, AccountOf, Live, Outstanding;
    assert d !in w.drawn && GoodTerms(t, c.defaultTtl);
    UndrawnHasNone(w.permits, d);
  }

  lemma StepKeepsTerms(c: Config, w: World, a: Action, d: Digest, t: Terms, model: string, expires: int)
    requires Inv(w) && Accountable(w.books) && Bound(w, d, t, model, expires)
    ensures Bound(Act(c, w, a), d, t, model, expires)
  {
    StillDrawn(c, w, a, d);
    StepCountsPermits(c, w, a);
    StepDrawsFresh(c, w, a);
    if d in w.books.leases && d in Act(c, w, a).books.leases {
      LeaseKeepsFields(c, w, a, d);
    } else if d !in w.books.leases {
      StaysDead(c, w, a, d);
    } else {
      LeavingKeepsPermits(c, w, a, d);
    }
    hide Act, Outstanding, UsageMatches, UsageBooked, GrantsWithinLimits;
  }

  lemma LeaseKeepsFields(c: Config, w: World, a: Action, d: Digest)
    requires Inv(w) && Accountable(w.books) && d in w.books.leases && d in Act(c, w, a).books.leases
    ensures var l, m := w.books.leases[d], Act(c, w, a).books.leases[d];
            m.expires == l.expires && m.key == l.key && m.model == l.model && m.maxConcurrency == l.maxConcurrency
  {
    hide UsageMatches, PermitsCounted, UsageBooked, GrantsWithinLimits, AccountOf, Live, Outstanding;
  }

  lemma LeavingKeepsPermits(c: Config, w: World, a: Action, d: Digest)
    requires Inv(w) && Accountable(w.books) && d in w.books.leases && d !in Act(c, w, a).books.leases
    ensures Act(c, w, a).permits == w.permits
  {
    LeaseLeavesExactly(c, w, a, d);
    hide UsageMatches, PermitsCounted, UsageBooked, GrantsWithinLimits, AccountOf, Live, Outstanding;
  }

  lemma {:induction false} RunKeepsTerms(c: Config, w: World, actions: seq<Action>, d: Digest, t: Terms, model: string, expires: int)
    requires Inv(w) && Bound(w, d, t, model, expires)
    ensures Bound(Run(c, w, actions), d, t, model, expires)
    decreases |actions|
  {
    if actions != [] {
      ActKeepsInv(c, w, actions[0]);
      StepKeepsTerms(c, w, actions[0], d, t, model, expires);
      hide Act, Inv, Bound;
      RunKeepsTerms(c, Act(c, w, actions[0]), actions[1..], d, t, model, expires);
    }
  }

  /** From the moment a lease is issued, on every continuation: the unreturned permits on its token never
      exceed the concurrency asked for, even once the lease is gone; while it stands it keeps the asked
      concurrency and task stage, the configured model and the asked or default time, and counts exactly
      those permits. */
  lemma LeaseKeepsTerms(c: Config, w: World, d: Digest, t: Terms, actions: seq<Action>)
    requires Inv(w) && Accountable(w.books) && Act(c, w, Issue(d, t)) != w
    ensures var v := (ActKeepsInv(c, w, Issue(d, t)); Run(c, Act(c, w, Issue(d, t)), actions));
            && Outstanding(v.permits, d) <= t.maxConcurrency
            && (d in v.books.leases ==>
                  var l := v.books.leases[d];
                  && l.expires == w.now + (if t.ttl == None then c.defaultTtl else t.ttl.value)
                  && l.key == t.key && l.model == c.model && l.maxConcurrency == t.maxConcurrency
                  && l.inFlight == Outstanding(v.permits, d))
  {
    IssueBinds(c, w, d, t);
    ActKeepsInv(c, w, Issue(d, t));
    hide Act, Inv;
    RunKeepsTerms(c, Act(c, w, Issue(d, t)), actions, d, t, c.model,
                  w.now + if t.ttl == None then c.defaultTtl else t.ttl.value);
  }

  /** Which requests are granted at the end of any continuation, and that a grant hands out one permit. */
  lemma GrantNeeds(c: Config, w: World, d: Digest, endpoint: string, model: string)
    requires Inv(w) && Accountable(w.books)
    ensures var v := Act(c, w, Acquire(d, endpoint, model));
            && (v.permits == w.permits || v.permits == w.permits + [Permit(d, Held)])
            && (v.permits != w.permits <==>
                  && d in w.books.leases && w.now < w.books.leases[d].expires
                  && endpoint == "/v1/responses" && model == w.books.leases[d].model
                  && w.books.usage[w.books.leases[d].key].requests < w.books.usage[w.books.leases[d].key].maxRequests
                  && Outstanding(w.permits, d) < w.books.leases[d].maxConcurrency)
  {
    AcquireNeeds(w.books, d, endpoint, model, w.now);
    hide UsageMatches, UsageBooked, GrantsWithinLimits, AccountOf, Live, Outstanding, Acquired, AcquireAnswer;
    assert w.permits + [Permit(d, Held)] != w.permits by {
      assert |w.permits + [Permit(d, Held)]| > |w.permits|;
    }
  }
}
