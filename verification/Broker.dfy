/** The model proxy's credential broker: leases, usage per task stage, and permits. */
module Broker {
  import opened Values

  /** The SHA-256 of a token; tokens are drawn fresh, so digests are never drawn twice. */
  type Digest = nat
  type Key = (string, string)

  datatype Lease = Lease(
    expires: int,
    key: Key,
    model: string,
    maxConcurrency: nat,
    inFlight: nat,
    upstreamError: Option<string>)

  datatype Usage = Usage(maxRequests: nat, maxOutput: nat, requests: nat, output: nat)

  datatype Books = Books(leases: map<Digest, Lease>, usage: map<Key, Usage>)

  datatype Rejection =
    Unauthorized | WrongEndpoint | WrongModel | RequestLimit | ConcurrencyLimit | OutputLimit | BadArgument

  datatype Answer = Granted | Rejected(reason: Rejection)

  datatype Terms = Terms(key: Key, ttl: Option<int>, maxRequests: int, maxConcurrency: int, maxOutput: int)

  const RESPONSES := "/v1/responses"

  // ---------------------------------------------------------------- one operation

  predicate IsSpace(c: char) {
    var n := c as int;
    || 9 <= n <= 13 || 28 <= n <= 32 || n == 0x85 || n == 0xA0 || n == 0x1680 || 0x2000 <= n <= 0x200A
    || n == 0x2028 || n == 0x2029 || n == 0x202F || n == 0x205F || n == 0x3000
  }

  predicate Blank(s: string) { forall c :: c in s ==> IsSpace(c) }

  function Ttl(t: Terms, defaultTtl: int): int { if t.ttl.None? then defaultTtl else t.ttl.value }

  predicate GoodTerms(t: Terms, defaultTtl: int) {
    && !Blank(t.key.0) && !Blank(t.key.1)
    && Ttl(t, defaultTtl) > 0
    && t.maxRequests > 0 && t.maxConcurrency > 0 && t.maxOutput > 0
  }

  function Issued(b: Books, d: Digest, t: Terms, model: string, defaultTtl: int, now: int): Books
    requires GoodTerms(t, defaultTtl)
  {
    var u := if t.key in b.usage
             then b.usage[t.key].(maxRequests := Min(b.usage[t.key].maxRequests, t.maxRequests),
                                  maxOutput := Min(b.usage[t.key].maxOutput, t.maxOutput))
             else Usage(t.maxRequests, t.maxOutput, 0, 0);
    Books(b.leases[d := Lease(now + Ttl(t, defaultTtl), t.key, model, t.maxConcurrency, 0, None)], b.usage[t.key := u])
  }

  predicate Live(leases: map<Digest, Lease>, key: Key) {
    exists d :: d in leases && leases[d].key == key
  }

  /** The last lease of a key takes the usage with it. */
  function Removed(b: Books, d: Digest): Books {
    if d !in b.leases then b
    else
      var rest := b.leases - {d};
      var key := b.leases[d].key;
      Books(rest, if Live(rest, key) then b.usage else b.usage - {key})
  }

  predicate Expired(b: Books, d: Digest, now: int) {
    d in b.leases && now >= b.leases[d].expires
  }

  function Validated(b: Books, d: Digest, now: int): Books {
    if Expired(b, d, now) then Removed(b, d) else b
  }

  /** Every lease has its usage, so no lookup of it can fail. */
  predicate Accountable(b: Books) {
    forall d :: d in b.leases ==> b.leases[d].key in b.usage
  }

  function AcquireAnswer(b: Books, d: Digest, endpoint: string, model: string, now: int): Answer
    requires Accountable(b)
  {
    if d !in b.leases || Expired(b, d, now) then Rejected(Unauthorized)
    else
      var l := b.leases[d];
      var u := b.usage[l.key];
      if endpoint != RESPONSES then Rejected(WrongEndpoint)
      else if model != l.model then Rejected(WrongModel)
      else if u.requests >= u.maxRequests then Rejected(RequestLimit)
      else if l.inFlight >= l.maxConcurrency then Rejected(ConcurrencyLimit)
      else Granted
  }

  /** What a request needs, and what it leaves, field by field. */
  lemma AcquireNeeds(b: Books, d: Digest, endpoint: string, model: string, now: int)
    requires Accountable(b)
    ensures var answer, after := AcquireAnswer(b, d, endpoint, model, now), Acquired(b, d, endpoint, model, now);
            if d !in b.leases || now >= b.leases[d].expires then answer == Rejected(Unauthorized) && d !in after.leases
            else
              var l := b.leases[d];
              var u := b.usage[l.key];
              && (answer == Rejected(WrongEndpoint) <==> endpoint != "/v1/responses")
              && (answer == Rejected(WrongModel) <==> endpoint == "/v1/responses" && model != l.model)
              && (answer == Rejected(RequestLimit) <==>
                    endpoint == "/v1/responses" && model == l.model && u.requests >= u.maxRequests)
              && (answer == Rejected(ConcurrencyLimit) <==>
                    endpoint == "/v1/responses" && model == l.model && u.requests < u.maxRequests
                    && l.inFlight >= l.maxConcurrency)
              && (answer == Granted <==>
                    endpoint == "/v1/responses" && model == l.model && u.requests < u.maxRequests
                    && l.inFlight < l.maxConcurrency)
              && (answer != Granted ==> after == b)
              && (answer == Granted ==>
                    after == Books(b.leases[d := l.(inFlight := l.inFlight + 1)],
                                   b.usage[l.key := u.(requests := u.requests + 1)]))
  {
  }

  /** One request more under the key of the lease, one permit more out on the lease. */
  function Counted(b: Books, d: Digest): Books
    requires Accountable(b)
  {
    if d !in b.leases then b
    else
      var l := b.leases[d];
      var u := b.usage[l.key];
      Books(b.leases[d := l.(inFlight := l.inFlight + 1)], b.usage[l.key := u.(requests := u.requests + 1)])
  }

  function Acquired(b: Books, d: Digest, endpoint: string, model: string, now: int): Books
    requires Accountable(b)
  {
    var answer := AcquireAnswer(b, d, endpoint, model, now);
    if answer == Granted then Counted(b, d)
    else if answer == Rejected(Unauthorized) then Removed(b, d)
    else b
  }

  function Released(b: Books, d: Digest): Books {
    if d in b.leases && b.leases[d].inFlight > 0
    then b.(leases := b.leases[d := b.leases[d].(inFlight := b.leases[d].inFlight - 1)])
    else b
  }

  function OutputAnswer(b: Books, d: Digest, size: int): Answer
    requires Accountable(b)
  {
    if size < 0 then Rejected(BadArgument)
    else if d !in b.leases then Rejected(Unauthorized)
    else
      var u := b.usage[b.leases[d].key];
      if u.output + size > u.maxOutput then Rejected(OutputLimit) else Granted
  }

  function OutputRecorded(b: Books, d: Digest, size: int): Books
    requires Accountable(b)
  {
    if OutputAnswer(b, d, size) != Granted then b
    else
      var key := b.leases[d].key;
      b.(usage := b.usage[key := b.usage[key].(output := b.usage[key].output + size)])
  }

  function ErrorSet(b: Books, d: Digest, message: Option<string>): Books {
    if d in b.leases then b.(leases := b.leases[d := b.leases[d].(upstreamError := message)]) else b
  }

  // ---------------------------------------------------------------- the broker in place

  ghost predicate UsageMatches(b: Books) {
    forall key :: key in b.usage <==> Live(b.leases, key)
  }

  lemma LeasesHaveUsage(b: Books)
    requires UsageMatches(b)
    ensures Accountable(b)
  {
    forall d | d in b.leases ensures b.leases[d].key in b.usage {
      assert Live(b.leases, b.leases[d].key);
    }
  }

  lemma RemovalKeepsMatch(b: Books, d: Digest)
    requires UsageMatches(b)
    ensures UsageMatches(Removed(b, d))
  {
    if d in b.leases {
      var rest := b.leases - {d};
      forall key ensures key in Removed(b, d).usage <==> Live(rest, key) {
        if Live(rest, key) {
          var e :| e in rest && rest[e].key == key;
          assert b.leases[e].key == key;
        }
        if Live(b.leases, key) && key != b.leases[d].key {
          var e :| e in b.leases && b.leases[e].key == key;
          assert rest[e].key == key;
        }
      }
    }
  }

  /** Rewriting leases without moving them to another key changes no liveness. */
  lemma SameKeysSameMatch(b: Books, c: Books)
    requires UsageMatches(b) && c.leases.Keys == b.leases.Keys && c.usage.Keys == b.usage.Keys
    requires forall d :: d in b.leases ==> c.leases[d].key == b.leases[d].key
    ensures UsageMatches(c)
  {
    forall key ensures key in c.usage <==> Live(c.leases, key) {
      if Live(b.leases, key) {
        var e :| e in b.leases && b.leases[e].key == key;
        assert c.leases[e].key == key;
      }
      if Live(c.leases, key) {
        var e :| e in c.leases && c.leases[e].key == key;
        assert b.leases[e].key == key;
      }
    }
  }

  lemma IssueKeepsMatch(b: Books, d: Digest, t: Terms, model: string, defaultTtl: int, now: int)
    requires UsageMatches(b) && GoodTerms(t, defaultTtl) && d !in b.leases
    ensures UsageMatches(Issued(b, d, t, model, defaultTtl, now))
  {
    var c := Issued(b, d, t, model, defaultTtl, now);
    forall key ensures key in c.usage <==> Live(c.leases, key) {
      if key == t.key {
        assert c.leases[d].key == key;
      }
      if Live(b.leases, key) {
        var e :| e in b.leases && b.leases[e].key == key;
        assert c.leases[e].key == key;
      }
      if key != t.key && Live(c.leases, key) {
        var e :| e in c.leases && c.leases[e].key == key;
        assert b.leases[e].key == key;
      }
    }
  }

  lemma CountingKeepsMatch(b: Books, d: Digest)
    requires UsageMatches(b) && Accountable(b) && d in b.leases
    ensures UsageMatches(Counted(b, d)) && b.leases[d].key in b.usage
  {
    SameKeysSameMatch(b, Counted(b, d));
  }

  class CredentialBroker {
    const model: string
    const defaultTtl: int
    var leases: map<Digest, Lease>
    var usage: map<Key, Usage>

    function View(): Books reads this { Books(leases, usage) }

    ghost predicate Valid() reads this { UsageMatches(View()) }

    constructor (model: string, defaultTtl: int)
      requires !Blank(model) && defaultTtl > 0
      ensures Valid() && View() == Books(map[], map[])
      ensures this.model == model && this.defaultTtl == defaultTtl
    {
      this.model := model;
      this.defaultTtl := defaultTtl;
      leases := map[];
      usage := map[];
    }

    /** A lease is given exactly on named and positive terms: for the asked or the default time, for the
        configured model and with the asked concurrency. The limits of its task stage are the asked ones,
        or the smaller of those and the ones it already had; what it has used stays. */
    method Issue(d: Digest, t: Terms, now: int) returns (issued: bool)
      requires Valid() && d !in leases
      modifies this
      ensures Valid()
      ensures issued <==>
                && (exists c :: c in t.key.0 && !IsSpace(c)) && (exists c :: c in t.key.1 && !IsSpace(c))
                && (if t.ttl == None then defaultTtl else t.ttl.value) > 0
                && t.maxRequests > 0 && t.maxConcurrency > 0 && t.maxOutput > 0
      ensures issued ==>
                && d in leases && leases.Keys == old(leases).Keys + {d}
                && leases[d].expires == now + (if t.ttl == None then defaultTtl else t.ttl.value)
                && leases[d].key == t.key && leases[d].model == model && leases[d].maxConcurrency == t.maxConcurrency
                && leases[d].inFlight == 0 && leases[d].upstreamError == None
                && (forall e :: e in old(leases) ==> e in leases && leases[e] == old(leases)[e])
                && t.key in usage && usage.Keys == old(usage).Keys + {t.key}
                && (t.key !in old(usage) ==> usage[t.key] == Usage(t.maxRequests, t.maxOutput, 0, 0))
                && (t.key in old(usage) ==>
                      var was, u := old(usage)[t.key], usage[t.key];
                      && u.requests == was.requests && u.output == was.output
                      && u.maxRequests == (if t.maxRequests < was.maxRequests then t.maxRequests else was.maxRequests)
                      && u.maxOutput == (if t.maxOutput < was.maxOutput then t.maxOutput else was.maxOutput))
                && (forall key :: key in old(usage) && key != t.key ==> key in usage && usage[key] == old(usage)[key])
      ensures View() == if issued then Issued(old(View()), d, t, model, defaultTtl, now) else old(View())
    {
      hide UsageMatches, Live;
      if Blank(t.key.0) || Blank(t.key.1) {
        return false;
      }
      var ttl := if t.ttl.None? then defaultTtl else t.ttl.value;
      if ttl <= 0 || t.maxRequests <= 0 || t.maxConcurrency <= 0 || t.maxOutput <= 0 {
        return false;
      }
      IssueKeepsMatch(View(), d, t, model, defaultTtl, now);
      if t.key !in usage {
        usage := usage[t.key := Usage(t.maxRequests, t.maxOutput, 0, 0)];
      } else {
        var u := usage[t.key];
        usage := usage[t.key := u.(maxRequests := Min(u.maxRequests, t.maxRequests), maxOutput := Min(u.maxOutput, t.maxOutput))];
      }
      leases := leases[d := Lease(now + ttl, t.key, model, t.maxConcurrency, 0, None)];
      return true;
    }

    method RemoveLease(d: Digest) returns (removed: bool)
      requires Valid()
      modifies this
      ensures Valid()
      ensures removed <==> d in old(leases)
      ensures View() == Removed(old(View()), d)
    {
      if d !in leases {
        return false;
      }
      RemovalKeepsMatch(View(), d);
      var key := leases[d].key;
      leases := leases - {d};
      if !exists other :: other in leases && leases[other].key == key {
        usage := usage - {key};
      }
      return true;
    }

    /** A missing token stands for one that is empty or no text. */
    method Validate(token: Option<Digest>, now: int) returns (valid: bool)
      requires Valid()
      modifies this
      ensures Valid()
      ensures valid <==> token.Some? && token.value in old(leases) && now < old(leases)[token.value].expires
      ensures View() == if token.None? then old(View()) else Validated(old(View()), token.value, now)
    {
      if token.None? || token.value !in leases {
        return false;
      }
      if now >= leases[token.value].expires {
        var _ := RemoveLease(token.value);
        return false;
      }
      return true;
    }

    method TryAcquire(d: Digest, endpoint: string, requested: string, now: int) returns (answer: Answer)
      requires Valid()
      modifies this
      ensures Valid() && Accountable(old(View()))
      ensures answer == AcquireAnswer(old(View()), d, endpoint, requested, now)
      ensures View() == Acquired(old(View()), d, endpoint, requested, now)
    {
      LeasesHaveUsage(View());
      hide UsageMatches, Live, Removed, RESPONSES, Counted;
      if d !in leases || now >= leases[d].expires {
        var _ := RemoveLease(d);
        return Rejected(Unauthorized);
      }
      var l := leases[d];
      if endpoint != RESPONSES {
        return Rejected(WrongEndpoint);
      }
      if requested != l.model {
        return Rejected(WrongModel);
      }
      var u := usage[l.key];
      if u.requests >= u.maxRequests {
        return Rejected(RequestLimit);
      }
      if l.inFlight >= l.maxConcurrency {
        return Rejected(ConcurrencyLimit);
      }
      CountRequest(d);
      return Granted;
    }

    method CountRequest(d: Digest)
      requires Valid() && d in leases
      modifies this
      ensures Valid() && Accountable(old(View())) && View() == Counted(old(View()), d)
    {
      LeasesHaveUsage(View());
      CountingKeepsMatch(View(), d);
      hide UsageMatches, Accountable;
      assert leases[d].key in usage;
      var l := leases[d];
      usage := usage[l.key := usage[l.key].(requests := usage[l.key].requests + 1)];
      leases := leases[d := l.(inFlight := l.inFlight + 1)];
    }

    /** A granted request comes with a permit of its own. It needs a lease that is present and unexpired, the
        one endpoint, the model of the lease, and room in both limits; what is missing first is the reason of
        the refusal. A grant counts one request and one permit, and a refusal at most removes the lease. */
    method Acquire(token: Option<Digest>, endpoint: string, requested: string, now: int)
      returns (answer: Answer, permit: LeasePermit?)
      requires Valid()
      modifies this
      ensures Valid() && Accountable(old(View()))
      ensures permit != null <==> answer == Granted
      ensures permit != null ==> fresh(permit) && permit.broker == this && Some(permit.digest) == token && !permit.released
      ensures token.None? ==> answer == Rejected(Unauthorized) && View() == old(View())
      ensures token.Some? ==>
                && answer == AcquireAnswer(old(View()), token.value, endpoint, requested, now)
                && View() == Acquired(old(View()), token.value, endpoint, requested, now)
      ensures token.Some? && (token.value !in old(leases) || now >= old(leases)[token.value].expires) ==>
                answer == Rejected(Unauthorized) && token.value !in leases
      ensures token.Some? && token.value in old(leases) && now < old(leases)[token.value].expires ==>
                var l := old(leases)[token.value];
                var u := old(usage)[l.key];
                && (answer == Rejected(WrongEndpoint) <==> endpoint != "/v1/responses")
                && (answer == Rejected(WrongModel) <==> endpoint == "/v1/responses" && requested != l.model)
                && (answer == Rejected(RequestLimit) <==>
                      endpoint == "/v1/responses" && requested == l.model && u.requests >= u.maxRequests)
                && (answer == Rejected(ConcurrencyLimit) <==>
                      endpoint == "/v1/responses" && requested == l.model && u.requests < u.maxRequests
                      && l.inFlight >= l.maxConcurrency)
                && (answer == Granted <==>
                      endpoint == "/v1/responses" && requested == l.model && u.requests < u.maxRequests
                      && l.inFlight < l.maxConcurrency)
                && (answer != Granted ==> leases == old(leases) && usage == old(usage))
                && (answer == Granted ==>
                      && leases == old(leases)[token.value := l.(inFlight := l.inFlight + 1)]
                      && usage == old(usage)[l.key := u.(requests := u.requests + 1)])
    {
      LeasesHaveUsage(View());
      if token.Some? {
        AcquireNeeds(View(), token.value, endpoint, requested, now);
      }
      hide UsageMatches, Accountable, AcquireAnswer, Acquired;
      permit := null;
      if token.None? {
        return Rejected(Unauthorized), null;
      }
      answer := TryAcquire(token.value, endpoint, requested, now);
      if answer == Granted {
        permit := new LeasePermit(this, token.value);
      }
    }

    method Revoke(token: Option<Digest>) returns (revoked: bool)
      requires Valid()
      modifies this
      ensures Valid()
      ensures revoked <==> token.Some? && token.value in old(leases)
      ensures View() == if token.None? then old(View()) else Removed(old(View()), token.value)
    {
      if token.None? {
        return false;
      }
      revoked := RemoveLease(token.value);
    }

    method ReleaseOne(d: Digest)
      requires Valid()
      modifies this
      ensures Valid()
      ensures View() == Released(old(View()), d)
      ensures leases == if d in old(leases) && old(leases)[d].inFlight > 0
                        then old(leases)[d := old(leases)[d].(inFlight := old(leases)[d].inFlight - 1)] else old(leases)
    {
      if d in leases && leases[d].inFlight > 0 {
        SameKeysSameMatch(View(), Released(View(), d));
        leases := leases[d := leases[d].(inFlight := leases[d].inFlight - 1)];
      }
    }

    method RecordOutput(d: Digest, size: int) returns (answer: Answer)
      requires Valid()
      modifies this
      ensures Valid()
      ensures && Accountable(old(View()))
              && answer == OutputAnswer(old(View()), d, size)
              && View() == OutputRecorded(old(View()), d, size)
      ensures answer == Granted <==>
                && size >= 0 && d in old(leases)
                && old(usage)[old(leases)[d].key].output + size <= old(usage)[old(leases)[d].key].maxOutput
      ensures answer == Granted ==>
                var key := old(leases)[d].key;
                && leases == old(leases)
                && usage == old(usage)[key := old(usage)[key].(output := old(usage)[key].output + size)]
      ensures answer != Granted ==>
                && leases == old(leases) && usage == old(usage)
                && answer == Rejected(if size < 0 then BadArgument else if d !in old(leases) then Unauthorized else OutputLimit)
    {
      LeasesHaveUsage(View());
      if size < 0 {
        return Rejected(BadArgument);
      }
      if d !in leases {
        return Rejected(Unauthorized);
      }
      var key := leases[d].key;
      if usage[key].output + size > usage[key].maxOutput {
        return Rejected(OutputLimit);
      }
      SameKeysSameMatch(View(), OutputRecorded(View(), d, size));
      usage := usage[key := usage[key].(output := usage[key].output + size)];
      return Granted;
    }

    method SetUpstreamError(d: Digest, message: Option<string>)
      requires Valid()
      modifies this
      ensures Valid()
      ensures View() == ErrorSet(old(View()), d, message)
      ensures leases == if d in old(leases) then old(leases)[d := old(leases)[d].(upstreamError := message)] else old(leases)
    {
      if d in leases {
        SameKeysSameMatch(View(), ErrorSet(View(), d, message));
        leases := leases[d := leases[d].(upstreamError := message)];
      }
    }

    method TakeUpstreamError(d: Digest) returns (message: Option<string>)
      requires Valid()
      modifies this
      ensures Valid()
      ensures View() == ErrorSet(old(View()), d, None)
      ensures message == if d in old(leases) then old(leases)[d].upstreamError else None
      ensures d in leases ==> leases[d].upstreamError == None
    {
      if d !in leases {
        return None;
      }
      SameKeysSameMatch(View(), ErrorSet(View(), d, None));
      message := leases[d].upstreamError;
      leases := leases[d := leases[d].(upstreamError := None)];
    }
  }

  class LeasePermit {
    const broker: CredentialBroker
    const digest: Digest
    var released: bool

    constructor (broker: CredentialBroker, digest: Digest)
      ensures this.broker == broker && this.digest == digest && !released
    {
      this.broker := broker;
      this.digest := digest;
      released := false;
    }

    /** Only the first call gives the slot back. */
    method Release()
      requires broker.Valid()
      modifies this, broker
      ensures broker.Valid() && released
      ensures broker.View() == if old(released) then old(broker.View()) else Released(old(broker.View()), digest)
    {
      if released {
        return;
      }
      released := true;
      broker.ReleaseOne(digest);
    }
  }
}
