/** The claim protocol of PR-review tasks: the second, smaller instance of claim, fence, recover.
    Here a worker is fenced by the pair (expected status, token) of every update, and recovery gives
    the task back to the queue instead of asking for help. */
module PrReview {
  import opened Values

  datatype Status = Queued | Preparing | Reviewing | Commenting | Completed | Failed

  predicate Active(s: Status) { s.Preparing? || s.Reviewing? || s.Commenting? }
  predicate Ended(s: Status) { s.Completed? || s.Failed? }

  datatype Row = Row(
    status: Status,
    base: Option<Commit>,
    head: Option<Commit>,
    result: Option<nat>,
    comment: Option<Path>,
    reviewKey: Option<nat>,
    claim: Option<Token>,
    expires: Option<int>,
    failure: Option<nat>,
    startedAt: Option<int>,
    finishedAt: Option<int>)

  function Enqueued(): Row {
    Row(Queued, None, None, None, None, None, None, None, None, None, None)
  }

  // ---------------------------------------------------------------- effects on one row

  function Claimed(r: Row, k: Token, key: nat, now: int, lease: nat): Row {
    if r.status != Queued then r
    else Row(Preparing, None, None, None, None, if r.reviewKey.None? then Some(key) else r.reviewKey,
             Some(k), Some(now + lease), None, Some(now), None)
  }

  predicate Expected(r: Row, s: Status, k: Token) {
    r.status == s && r.claim == Some(k)
  }

  predicate Renewable(r: Row, k: Token, now: int) {
    Active(r.status) && r.claim == Some(k) && r.expires.Some? && r.expires.value > now
  }

  predicate Due(r: Row, now: int) {
    Active(r.status) && (r.expires.None? || r.expires.value <= now)
  }

  function Requeued(r: Row): Row {
    r.(status := Queued, claim := None, expires := None, startedAt := None, finishedAt := None, failure := None)
  }

  /** The updates a worker asks for; each names the status it expects. */
  datatype Update =
    | RecordRevision(base: Commit, head: Commit)
    | StartReview
    | StartComment(result: nat)
    | Complete(comment: Path, at: int)
    | Fail(from: Status, code: nat, at: int)

  function ExpectedStatus(u: Update): Status {
    match u
    case RecordRevision(_, _) => Preparing
    case StartReview => Preparing
    case StartComment(_) => Reviewing
    case Complete(_, _) => Commenting
    case Fail(from, _, _) => from
  }

  function Written(r: Row, u: Update): Row {
    match u
    case RecordRevision(base, head) => r.(base := Some(base), head := Some(head))
    case StartReview => r.(status := Reviewing)
    case StartComment(result) => r.(status := Commenting, result := Some(result))
    case Complete(comment, at) =>
      r.(status := Completed, comment := Some(comment), claim := None, expires := None, failure := None, finishedAt := Some(at))
    case Fail(_, code, at) =>
      r.(status := Failed, claim := None, expires := None, failure := Some(code), finishedAt := Some(at))
  }

  function Updated(r: Row, k: Token, u: Update): Row {
    if Expected(r, ExpectedStatus(u), k) && (u.Fail? ==> Active(u.from)) then Written(r, u) else r
  }

  // ---------------------------------------------------------------- runs of one task

  datatype Action =
    | Elapse(seconds: nat)
    | Claim(token: Token, key: nat)
    | Renew(token: Token)
    | Recover
    | Ask(token: Token, update: Update)

  /** `issued` holds every token drawn so far, for this task or another. */
  datatype World = World(row: Row, issued: set<Token>, now: int)

  function Act(lease: nat, w: World, a: Action): World {
    match a
    case Elapse(seconds) => w.(now := w.now + seconds)
    case Claim(k, key) =>
      if k in w.issued then w
      else World(Claimed(w.row, k, key, w.now, lease), w.issued + {k}, w.now)
    case Renew(k) => if Renewable(w.row, k, w.now) then w.(row := w.row.(expires := Some(w.now + lease))) else w
    case Recover => if Due(w.row, w.now) then w.(row := Requeued(w.row)) else w
    case Ask(k, u) => w.(row := Updated(w.row, k, u))
  }

  function Run(lease: nat, w: World, actions: seq<Action>): World
    decreases |actions|
  {
    if actions == [] then w else Run(lease, Act(lease, w, actions[0]), actions[1..])
  }

  ghost predicate Inv(lease: nat, w: World) {
    var r := w.row;
    && (r.claim.Some? <==> Active(r.status))
    && (r.expires.Some? <==> Active(r.status))
    && (r.claim.Some? ==> r.claim.value in w.issued)
    && (r.expires.Some? ==> r.expires.value <= w.now + lease)
    && (r.reviewKey.None? ==> r.status == Queued)
    && (r.status == Commenting || r.status == Completed ==> r.result.Some?)
    && (r.status == Completed ==> r.comment.Some?)
    && (r.status == Failed <==> r.failure.Some?)
    && (Ended(r.status) <==> r.finishedAt.Some?)
  }

  /** A claim token is set exactly while the task is active, and whatever a finished review
      publishes was recorded first, on every run. */
  lemma {:induction false} RunKeepsInv(lease: nat, w: World, actions: seq<Action>)
    requires Inv(lease, w)
    ensures Inv(lease, Run(lease, w, actions))
    decreases |actions|
  {
    if actions != [] {
      RunKeepsInv(lease, Act(lease, w, actions[0]), actions[1..]);
    }
  }

  lemma Reachable(lease: nat, issued: set<Token>, now: int, actions: seq<Action>)
    ensures Inv(lease, Run(lease, World(Enqueued(), issued, now), actions))
  {
    RunKeepsInv(lease, World(Enqueued(), issued, now), actions);
  }

  /** A token that was drawn and is not the current claim never claims the task again, and nothing
      its worker asks for, now or at any later point, changes the row. */
  lemma {:induction false} FencedForever(lease: nat, w: World, actions: seq<Action>, k: Token, u: Update)
    requires k in w.issued && w.row.claim != Some(k)
    ensures var later := Run(lease, w, actions);
            && later.row.claim != Some(k)
            && Act(lease, later, Ask(k, u)) == later
            && Act(lease, later, Renew(k)) == later
    decreases |actions|
  {
    if actions != [] {
      FencedForever(lease, Act(lease, w, actions[0]), actions[1..], k, u);
    }
  }

  /** The idempotency key is drawn once and then kept by every later attempt; an ended task is frozen. */
  lemma {:induction false} KeyIsWrittenOnce(lease: nat, w: World, actions: seq<Action>)
    requires Inv(lease, w)
    ensures var r, r' := w.row, Run(lease, w, actions).row;
            && (r.reviewKey.Some? ==> r'.reviewKey == r.reviewKey)
            && (Ended(r.status) ==> r' == r)
    decreases |actions|
  {
    if actions != [] {
      RunKeepsInv(lease, w, [actions[0]]);
      assert Run(lease, w, [actions[0]]) == Run(lease, Act(lease, w, actions[0]), []);
      KeyIsWrittenOnce(lease, Act(lease, w, actions[0]), actions[1..]);
    }
  }

  /** Recovery takes an active task exactly when its lease ran out, and an accepted renewal never
      moves the expiry back. */
  lemma LeaseProtects(lease: nat, w: World, k: Token)
    requires Inv(lease, w)
    ensures Active(w.row.status) ==>
              w.row.expires.Some? &&
              (Act(lease, w, Recover).row.status == Queued <==> w.row.expires.value <= w.now)
    ensures Renewable(w.row, k, w.now) ==> Act(lease, w, Renew(k)).row.expires.value >= w.row.expires.value
  {
  }

  // ---------------------------------------------------------------- what the row says, field by field

  /** An accepted update of its holder writes exactly what it carries, from the one status it is meant for,
      and any other leaves the row alone. */
  lemma AskDecides(lease: nat, w: World, k: Token, u: Update)
    ensures var r, after := w.row, Act(lease, w, Ask(k, u)).row;
            match u
            case RecordRevision(base, head) =>
              after == if r.claim == Some(k) && r.status == Preparing then r.(base := Some(base), head := Some(head)) else r
            case StartReview =>
              after == if r.claim == Some(k) && r.status == Preparing then r.(status := Reviewing) else r
            case StartComment(result) =>
              after == if r.claim == Some(k) && r.status == Reviewing then r.(status := Commenting, result := Some(result)) else r
            case Complete(comment, at) =>
              after == if r.claim == Some(k) && r.status == Commenting
                       then r.(status := Completed, comment := Some(comment), claim := None, expires := None, failure := None,
                               finishedAt := Some(at))
                       else r
            case Fail(from, code, at) =>
              after == if r.claim == Some(k) && r.status == from && from in {Preparing, Reviewing, Commenting}
                       then r.(status := Failed, claim := None, expires := None, failure := Some(code), finishedAt := Some(at))
                       else r
  {
  }

  /** A renewal holds for a whole lease from now, and only the unexpired holder of an active task gets one. */
  lemma RenewDecides(lease: nat, w: World, k: Token)
    ensures var r := w.row;
            Act(lease, w, Renew(k)) ==
            if r.status in {Preparing, Reviewing, Commenting} && r.claim == Some(k) && r.expires.Some? && w.now < r.expires.value
            then w.(row := r.(expires := Some(w.now + lease))) else w
  {
  }

  /** What the holders of a task have handed in since it was last claimed. */
  datatype Notes = Notes(base: Option<Commit>, head: Option<Commit>, result: Option<nat>, comment: Option<Path>)

  const BLANK := Notes(None, None, None, None)

  /** A claim wipes the notes; an update of the present holder, in the status it is meant for, adds to them. */
  function Noted(w: World, a: Action, n: Notes): Notes {
    if a.Claim? then if a.token !in w.issued && w.row.status == Queued then BLANK else n
    else if a.Ask? && w.row.claim == Some(a.token) then
      match a.update
      case RecordRevision(base, head) =>
        if w.row.status == Preparing then n.(base := Some(base), head := Some(head)) else n
      case StartComment(result) => if w.row.status == Reviewing then n.(result := Some(result)) else n
      case Complete(comment, _) => if w.row.status == Commenting then n.(comment := Some(comment)) else n
      case _ => n
    else n
  }

  function NotesOf(lease: nat, w: World, actions: seq<Action>, n: Notes): Notes
    decreases |actions|
  {
    if actions == [] then n else NotesOf(lease, Act(lease, w, actions[0]), actions[1..], Noted(w, actions[0], n))
  }

  lemma {:induction false} RunKeepsNotes(lease: nat, w: World, actions: seq<Action>, n: Notes)
    requires Notes(w.row.base, w.row.head, w.row.result, w.row.comment) == n
    ensures var r := Run(lease, w, actions).row;
            Notes(r.base, r.head, r.result, r.comment) == NotesOf(lease, w, actions, n)
    decreases |actions|
  {
    if actions != [] {
      RunKeepsNotes(lease, Act(lease, w, actions[0]), actions[1..], Noted(w, actions[0], n));
    }
  }

  /** On every run the base, head, result and comment of a task are those its holders last handed in since
      it was last claimed; nobody else, no renewal and no recovery touches them. */
  lemma RowHoldsTheNotes(lease: nat, issued: set<Token>, now: int, actions: seq<Action>)
    ensures var w := World(Enqueued(), issued, now);
            var r, n := Run(lease, w, actions).row, NotesOf(lease, w, actions, BLANK);
            r.base == n.base && r.head == n.head && r.result == n.result && r.comment == n.comment
  {
    RunKeepsNotes(lease, World(Enqueued(), issued, now), actions, BLANK);
  }

  // ---------------------------------------------------------------- the table in place

  class ReviewStore {
    var rows: map<nat, Row>

    method Claim(t: nat, drawn: Token, key: nat, now: int, lease: nat) returns (token: Option<Token>)
      modifies this
      ensures token == if t in old(rows) && old(rows[t].status) == Queued then Some(drawn) else None
      ensures rows == if t in old(rows) then old(rows)[t := Claimed(old(rows[t]), drawn, key, now, lease)] else old(rows)
      ensures token.Some? ==>
                var was := old(rows[t]);
                rows == old(rows)[t := was.(status := Preparing, base := None, head := None, result := None, comment := None,
                                            reviewKey := if was.reviewKey == None then Some(key) else was.reviewKey,
                                            claim := Some(drawn), expires := Some(now + lease), failure := None,
                                            startedAt := Some(now), finishedAt := None)]
      ensures token.None? ==> rows == old(rows)
    {
      if t !in rows || rows[t].status != Queued {
        assert t in rows ==> rows[t := rows[t]] == rows;
        return None;
      }
      var r := rows[t];
      rows := rows[t := r.(status := Preparing, base := None, head := None, result := None, comment := None,
                           failure := None, reviewKey := if r.reviewKey.None? then Some(key) else r.reviewKey,
                           claim := Some(drawn), expires := Some(now + lease), startedAt := Some(now),
                           finishedAt := None)];
      return Some(drawn);
    }

    /** Returns whether the row was written; the caller gives up its claim when it was not. */
    method ExpectedUpdate(t: nat, expected: Status, k: Token, values: Row -> Row) returns (written: bool)
      modifies this
      ensures written <==> t in old(rows) && old(rows[t]).status == expected && old(rows[t]).claim == Some(k)
      ensures rows == if written then old(rows)[t := values(old(rows[t]))] else old(rows)
    {
      written := t in rows && rows[t].status == expected && rows[t].claim == Some(k);
      if written {
        rows := rows[t := values(rows[t])];
      }
    }

    method Ask(t: nat, k: Token, u: Update) returns (written: bool)
      requires u.Fail? ==> Active(u.from)
      modifies this
      ensures written <==> t in old(rows) && Expected(old(rows[t]), ExpectedStatus(u), k)
      ensures rows == if t in old(rows) then old(rows)[t := Updated(old(rows[t]), k, u)] else old(rows)
      ensures !written ==> rows == old(rows)
      ensures written ==>
                var was := old(rows[t]);
                && was.claim == Some(k)
                && match u
                   case RecordRevision(base, head) =>
                     was.status == Preparing && rows == old(rows)[t := was.(base := Some(base), head := Some(head))]
                   case StartReview =>
                     was.status == Preparing && rows == old(rows)[t := was.(status := Reviewing)]
                   case StartComment(result) =>
                     was.status == Reviewing && rows == old(rows)[t := was.(status := Commenting, result := Some(result))]
                   case Complete(comment, at) =>
                     was.status == Commenting
                     && rows == old(rows)[t := was.(status := Completed, comment := Some(comment), claim := None, expires := None,
                                                    failure := None, finishedAt := Some(at))]
                   case Fail(from, code, at) =>
                     was.status == from
                     && rows == old(rows)[t := was.(status := Failed, claim := None, expires := None, failure := Some(code),
                                                    finishedAt := Some(at))]
    {
      ghost var before := rows;
      assert t in rows ==> before[t := before[t]] == before;
      match u
      case RecordRevision(base, head) =>
        written := ExpectedUpdate(t, Preparing, k, (r: Row) => r.(base := Some(base), head := Some(head)));
      case StartReview =>
        written := ExpectedUpdate(t, Preparing, k, (r: Row) => r.(status := Reviewing));
      case StartComment(result) =>
        written := ExpectedUpdate(t, Reviewing, k, (r: Row) => r.(status := Commenting, result := Some(result)));
      case Complete(comment, at) =>
        written := ExpectedUpdate(t, Commenting, k,
          (r: Row) => r.(status := Completed, comment := Some(comment), claim := None, expires := None,
                         failure := None, finishedAt := Some(at)));
      case Fail(from, code, at) =>
        written := ExpectedUpdate(t, from, k,
          (r: Row) => r.(status := Failed, claim := None, expires := None, failure := Some(code), finishedAt := Some(at)));
    }

    method RecoverExpired(now: int) returns (recovered: nat)
      modifies this
      ensures rows == map t | t in old(rows) :: if Due(old(rows)[t], now) then Requeued(old(rows)[t]) else old(rows)[t]
      ensures recovered == |set t | t in old(rows) && Due(old(rows)[t], now)|
      ensures forall t :: t in old(rows) ==>
                && t in rows
                && var was := old(rows)[t];
                   rows[t] == if was.status in {Preparing, Reviewing, Commenting} && (was.expires == None || was.expires.value <= now)
                              then was.(status := Queued, claim := None, expires := None, failure := None, startedAt := None,
                                        finishedAt := None)
                              else was
    {
      recovered := |set t | t in rows && Due(rows[t], now)|;
      rows := map t | t in rows ::
        if Active(rows[t].status) && (rows[t].expires.None? || rows[t].expires.value <= now)
        then rows[t].(status := Queued, claim := None, expires := None, startedAt := None, finishedAt := None, failure := None)
        else rows[t];
    }
  }
}
