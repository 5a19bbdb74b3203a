/** Publishing one comment per marker on a pull request, over a remote whose writes may fail before or
    after they take effect. */
module Comments {
  import opened Values
  import opened Paging

  datatype Forge = GitCode | GitHub

  datatype Comment = Comment(id: nat, author: string, body: string)

  datatype Config = Config(forge: Forge, bot: string, marker: string)

  predicate EndsWith(s: string, tail: string) {
    |tail| <= |s| && s[|s| - |tail|..] == tail
  }

  predicate Mine(c: Config, x: Comment) { x.author == c.bot && EndsWith(x.body, c.marker) }

  predicate UniqueIds(remote: seq<Comment>) {
    forall i, j :: 0 <= i < j < |remote| ==> remote[i].id != remote[j].id
  }

  // ---------------------------------------------------------------- the page walk

  datatype Search = Found(comment: Comment) | Absent | BadPagination | Unanswered

  /** The first own comment at or after `from`. */
  function FirstMine(c: Config, list: seq<Comment>, from: nat): (first: Option<nat>)
    requires from <= |list|
    ensures first.Some? ==> from <= first.value < |list| && Mine(c, list[first.value])
    ensures forall i :: from <= i < (if first.Some? then first.value else |list|) ==> !Mine(c, list[i])
    decreases |list| - from
  {
    if from == |list| then None else if Mine(c, list[from]) then Some(from) else FirstMine(c, list, from + 1)
  }

  /** How far a search has come: the next page and, for GitCode, the pages it has seen. */
  datatype Walk = Walk(page: nat, seen: set<seq<Comment>>)

  const START := Walk(0, {})

  datatype Turn = Repeated | Hit(comment: Comment) | End | More(walk: Walk)

  /** One page: refused if it repeats another (GitCode only), searched, and the last if it is short. */
  function ReadPage(c: Config, payload: seq<Comment>, k: Walk): Turn {
    if c.forge == GitCode && payload in k.seen then Repeated
    else if FirstMine(c, payload, 0).Some? then Hit(payload[FirstMine(c, payload, 0).value])
    else if |payload| < PAGE then End
    else More(Walk(k.page + 1, k.seen + {payload}))
  }

  /** A whole search. `lists(p)` is the thread when page `p` is requested, `answers(p)` whether that
      request is answered. */
  function WalkOn(c: Config, lists: nat -> seq<Comment>, answers: nat -> bool, k: Walk): Search
    decreases MAX_PAGES - k.page
  {
    if k.page >= MAX_PAGES then BadPagination
    else if !answers(k.page) then Unanswered
    else
      match ReadPage(c, Page(lists(k.page), k.page), k)
      case Repeated => BadPagination
      case Hit(x) => Found(x)
      case End => Absent
      case More(next) => WalkOn(c, lists, answers, next)
  }

  method FindOnPage(c: Config, payload: seq<Comment>) returns (hit: Option<nat>)
    ensures hit == FirstMine(c, payload, 0)
  {
    for i := 0 to |payload|
      invariant FirstMine(c, payload, 0) == FirstMine(c, payload, i)
    {
      if Mine(c, payload[i]) {
        return Some(i);
      }
    }
    return None;
  }

  /** The search as the loop it is, over a thread that may change between requests. */
  method FindComment(c: Config, lists: nat -> seq<Comment>, answers: nat -> bool) returns (result: Search)
    ensures result == WalkOn(c, lists, answers, START)
  {
    hide FirstMine, Page;
    var page := 0;
    var seen: set<seq<Comment>> := {};
    while true
      invariant page <= MAX_PAGES
      invariant WalkOn(c, lists, answers, START) == WalkOn(c, lists, answers, Walk(page, seen))
      decreases MAX_PAGES - page
    {
      if page >= MAX_PAGES {
        return BadPagination;
      }
      if !answers(page) {
        return Unanswered;
      }
      var payload := Page(lists(page), page);
      if c.forge == GitCode && payload in seen {
        return BadPagination;
      }
      var hit := FindOnPage(c, payload);
      if hit.Some? {
        return Found(payload[hit.value]);
      }
      if |payload| < PAGE {
        return Absent;
      }
      seen := seen + {payload};
      page := page + 1;
    }
  }

  // ---------------------------------------------------------------- a thread that stays as it is

  /** What a search of one thread is to find: the first own comment among those a walk can see; a
      thread that fills every allowed page without one is an error, never taken for absence. */
  function Find(c: Config, remote: seq<Comment>): Search {
    match FirstMine(c, remote, 0)
    case Some(i) => if i < CAPACITY then Found(remote[i]) else BadPagination
    case None => if |remote| < CAPACITY then Absent else BadPagination
  }

  /** The pages seen are those before `page`, all of them full, and none shows an own comment. */
  ghost predicate SeenSoFar(c: Config, remote: seq<Comment>, k: Walk) {
    && k.page <= MAX_PAGES && From(k.page) <= |remote|
    && (forall i :: 0 <= i < From(k.page) ==> !Mine(c, remote[i]))
    && (forall s :: s in k.seen ==> exists p: nat :: p < k.page && s == Page(remote, p))
  }

  /** Full pages that start at different places differ, so no page of a thread with unique ids is
      taken for a repetition. */
  lemma PagesDiffer(remote: seq<Comment>, p: nat, q: nat)
    requires UniqueIds(remote) && p < q && From(q) <= |remote|
    ensures Page(remote, p) != Page(remote, q)
  {
    var a, b := Page(remote, p), Page(remote, q);
    assert a[0] == remote[From(p)];
    assert b != [] ==> b[0] == remote[From(q)];
  }

  /** One page of an unchanging thread: an own comment on it is the first of the thread, and after a
      full page without one the walk has seen one page more. */
  lemma ReadNextPage(c: Config, remote: seq<Comment>, k: Walk)
    requires UniqueIds(remote) && SeenSoFar(c, remote, k) && k.page < MAX_PAGES
    ensures var turn := ReadPage(c, Page(remote, k.page), k);
            && !turn.Repeated?
            && (turn.Hit? ==> Find(c, remote) == Found(turn.comment))
            && (turn.End? ==> Find(c, remote) == Absent)
            && (turn.More? ==> SeenSoFar(c, remote, turn.walk) && turn.walk.page == k.page + 1)
  {
    var payload := Page(remote, k.page);
    forall p: nat | p < k.page ensures payload != Page(remote, p) {
      PagesDiffer(remote, p, k.page);
    }
    assert payload !in k.seen;
    var hit := FirstMine(c, payload, 0);
    PageEntries(remote, k.page);
    forall i | From(k.page) <= i < |remote| && i < From(k.page + 1) ensures payload[i - From(k.page)] == remote[i] {
      PageHas(remote, k.page, i);
    }
    hide Page;
    if hit.Some? {
      assert remote[From(k.page) + hit.value] == payload[hit.value];
      FirstIs(c, remote, From(k.page) + hit.value);
    } else {
      forall i | 0 <= i < |remote| && i < From(k.page + 1) ensures !Mine(c, remote[i]) {
        assert i >= From(k.page) ==> payload[i - From(k.page)] == remote[i];
      }
    }
  }

  lemma FirstIs(c: Config, list: seq<Comment>, i: nat)
    requires i < |list| && Mine(c, list[i]) && forall j :: 0 <= j < i ==> !Mine(c, list[j])
    ensures FirstMine(c, list, 0) == Some(i)
  {
  }

  lemma {:induction false} WalkOfOneThread(c: Config, remote: seq<Comment>, k: Walk)
    requires UniqueIds(remote) && SeenSoFar(c, remote, k)
    ensures WalkOn(c, _ => remote, _ => true, k) == Find(c, remote)
    decreases MAX_PAGES - k.page
  {
    hide ReadPage;
    if k.page < MAX_PAGES {
      ReadNextPage(c, remote, k);
      var turn := ReadPage(c, Page(remote, k.page), k);
      if turn.More? {
        WalkOfOneThread(c, remote, turn.walk);
      }
    }
  }

  // ---------------------------------------------------------------- a thread that changes meanwhile

  /** The own comment is there at every request, at position `own(p)`, and it is the only one. */
  ghost predicate Owns(c: Config, lists: nat -> seq<Comment>, own: nat -> nat) {
    forall p: nat ::
      && own(p) < |lists(p)|
      && forall i :: 0 <= i < |lists(p)| ==> (Mine(c, lists(p)[i]) <==> i == own(p))
  }

  lemma HitExactlyOnPage(c: Config, lists: nat -> seq<Comment>, own: nat -> nat, k: Walk)
    requires Owns(c, lists, own)
    ensures ReadPage(c, Page(lists(k.page), k.page), k).Hit? ==> OnPage(own(k.page), k.page)
    ensures OnPage(own(k.page), k.page) ==>
              ReadPage(c, Page(lists(k.page), k.page), k).Repeated? || ReadPage(c, Page(lists(k.page), k.page), k).Hit?
  {
    var list, payload := lists(k.page), Page(lists(k.page), k.page);
    assert own(k.page) < |list|;
    PageEntries(list, k.page);
    if FirstMine(c, payload, 0).Some? {
      var i := FirstMine(c, payload, 0).value;
      assert list[From(k.page) + i] == payload[i];
    }
    if OnPage(own(k.page), k.page) {
      PageHas(list, k.page, own(k.page));
      assert payload[own(k.page) - From(k.page)] == list[own(k.page)];
    }
  }

  /** A search that ends in absence has passed the own comment by: it came forward over a boundary. */
  lemma {:induction false} AbsentMeansCrossed(c: Config, lists: nat -> seq<Comment>, own: nat -> nat, k: Walk)
    requires Owns(c, lists, own) && WalkOn(c, lists, _ => true, k) == Absent
    requires forall q: nat :: q < k.page ==> !OnPage(own(q), q)
    ensures exists p: nat :: p < MAX_PAGES && Crosses(own, p)
    decreases MAX_PAGES - k.page
  {
    hide ReadPage;
    HitExactlyOnPage(c, lists, own, k);
    var turn := ReadPage(c, Page(lists(k.page), k.page), k);
    if turn.More? {
      MoreGoesOn(c, Page(lists(k.page), k.page), k);
      AbsentMeansCrossed(c, lists, own, turn.walk);
    } else {
      MoreGoesOn(c, Page(lists(k.page), k.page), k);
      assert own(k.page) < |lists(k.page)|;
      var p := UnreadMeansCrossed(own, k.page);
    }
  }

  lemma MoreGoesOn(c: Config, payload: seq<Comment>, k: Walk)
    ensures ReadPage(c, payload, k).More? ==> ReadPage(c, payload, k).walk.page == k.page + 1
    ensures ReadPage(c, payload, k).End? ==> |payload| < PAGE
  {
  }

  lemma {:induction false} CrossedIsNeverFound(c: Config, lists: nat -> seq<Comment>, own: nat -> nat, p: nat, k: Walk)
    requires Owns(c, lists, own) && Crosses(own, p) && forall r: nat :: own(r + 1) <= own(r)
    ensures !WalkOn(c, lists, _ => true, k).Found?
    decreases MAX_PAGES - k.page
  {
    hide ReadPage;
    if k.page < MAX_PAGES {
      HitExactlyOnPage(c, lists, own, k);
      CrossedMeansUnread(own, p, k.page);
      MoreGoesOn(c, Page(lists(k.page), k.page), k);
      var turn := ReadPage(c, Page(lists(k.page), k.page), k);
      if turn.More? {
        CrossedIsNeverFound(c, lists, own, p, turn.walk);
      }
    }
  }

  /** The page of request `q` is one that an earlier request brought; only GitCode looks. */
  ghost predicate RepeatsAt(c: Config, lists: nat -> seq<Comment>, q: nat) {
    c.forge == GitCode && exists r: nat :: r < q && Page(lists(q), q) == Page(lists(r), r)
  }

  /** Request `q` brings a full new page without the own comment, so the search goes on. */
  ghost predicate Passes(c: Config, lists: nat -> seq<Comment>, own: nat -> nat, q: nat) {
    |Page(lists(q), q)| == PAGE && !OnPage(own(q), q) && !RepeatsAt(c, lists, q)
  }

  /** The search comes to a repeated page, or through every page it may ask for. */
  ghost predicate FailsAt(c: Config, lists: nat -> seq<Comment>, own: nat -> nat, q: nat) {
    && q <= MAX_PAGES
    && (q == MAX_PAGES || RepeatsAt(c, lists, q))
    && forall p: nat :: p < q ==> Passes(c, lists, own, p)
  }

  ghost predicate SeenPages(lists: nat -> seq<Comment>, k: Walk) {
    forall s :: s in k.seen <==> exists r: nat :: r < k.page && s == Page(lists(r), r)
  }

  lemma TurnIs(c: Config, lists: nat -> seq<Comment>, own: nat -> nat, k: Walk)
    requires Owns(c, lists, own) && SeenPages(lists, k)
    ensures var turn := ReadPage(c, Page(lists(k.page), k.page), k);
            && (turn.Repeated? <==> RepeatsAt(c, lists, k.page))
            && (turn.More? <==> Passes(c, lists, own, k.page))
            && (turn.More? ==> turn.walk.page == k.page + 1 && SeenPages(lists, turn.walk))
  {
    HitExactlyOnPage(c, lists, own, k);
    OneMorePageSeen(lists, k);
    var payload := Page(lists(k.page), k.page);
    assert payload in k.seen <==> exists r: nat :: r < k.page && payload == Page(lists(r), r);
    hide Page, Owns, OnPage, Mine, SeenPages, FirstMine;
  }

  lemma OneMorePageSeen(lists: nat -> seq<Comment>, k: Walk)
    requires SeenPages(lists, k)
    ensures SeenPages(lists, Walk(k.page + 1, k.seen + {Page(lists(k.page), k.page)}))
  {
    hide Page;
    var next := k.seen + {Page(lists(k.page), k.page)};
    forall s ensures s in next <==> exists r: nat :: r < k.page + 1 && s == Page(lists(r), r) {
      if s in k.seen {
        var r: nat :| r < k.page && s == Page(lists(r), r);
        assert r < k.page + 1;
      } else if s in next {
        assert k.page < k.page + 1 && s == Page(lists(k.page), k.page);
      }
    }
  }

  /** A search fails for exactly these two reasons. */
  lemma {:induction false} FailsExactly(c: Config, lists: nat -> seq<Comment>, own: nat -> nat, k: Walk)
    requires Owns(c, lists, own) && SeenPages(lists, k) && k.page <= MAX_PAGES
    requires forall p: nat :: p < k.page ==> Passes(c, lists, own, p)
    ensures WalkOn(c, lists, _ => true, k) == BadPagination <==> exists q: nat :: FailsAt(c, lists, own, q)
    decreases MAX_PAGES - k.page
  {
    hide ReadPage, SeenPages, Owns;
    if k.page == MAX_PAGES {
      assert FailsAt(c, lists, own, k.page);
    } else {
      TurnIs(c, lists, own, k);
      hide RepeatsAt, Passes;
      var turn := ReadPage(c, Page(lists(k.page), k.page), k);
      if turn.More? {
        FailsExactly(c, lists, own, turn.walk);
      } else if turn.Repeated? {
        assert FailsAt(c, lists, own, k.page);
      } else {
        NoFailure(c, lists, own, k.page);
      }
    }
  }

  lemma NoFailure(c: Config, lists: nat -> seq<Comment>, own: nat -> nat, q: nat)
    requires q < MAX_PAGES && !RepeatsAt(c, lists, q) && !Passes(c, lists, own, q)
    requires forall p: nat :: p < q ==> Passes(c, lists, own, p)
    ensures !exists r: nat :: FailsAt(c, lists, own, r)
  {
    forall r: nat ensures !FailsAt(c, lists, own, r) {
      if r < q {
        assert Passes(c, lists, own, r);
      }
    }
  }

  /** A search misses the own comment, there at every request and never moved back, exactly when that
      comes forward over a page boundary between two requests - when as many comments ahead of it are
      deleted as it stands behind that boundary - and the search meets neither a repeated page nor the
      page limit. */
  lemma WalkMissesExactly(c: Config, lists: nat -> seq<Comment>, own: nat -> nat)
    requires Owns(c, lists, own) && forall r: nat :: own(r + 1) <= own(r)
    ensures WalkOn(c, lists, _ => true, START) == Absent <==>
            && (exists p: nat :: p < MAX_PAGES && Crosses(own, p))
            && !(exists q: nat :: FailsAt(c, lists, own, q))
  {
    FailsExactly(c, lists, own, START);
    hide WalkOn, FailsAt;
    AlwaysAnswered(c, lists, START);
    if WalkOn(c, lists, _ => true, START) == Absent {
      AbsentMeansCrossed(c, lists, own, START);
    }
    if p: nat :| p < MAX_PAGES && Crosses(own, p) {
      CrossedIsNeverFound(c, lists, own, p, START);
    }
  }

  lemma {:induction false} AlwaysAnswered(c: Config, lists: nat -> seq<Comment>, k: Walk)
    ensures WalkOn(c, lists, _ => true, k) != Unanswered
    decreases MAX_PAGES - k.page
  {
    hide ReadPage;
    if k.page < MAX_PAGES {
      MoreGoesOn(c, Page(lists(k.page), k.page), k);
      var turn := ReadPage(c, Page(lists(k.page), k.page), k);
      if turn.More? {
        AlwaysAnswered(c, lists, turn.walk);
      }
    }
  }

  // ---------------------------------------------------------------- one call, step by step

  /** What became of a POST: stored, as it was sent or altered by the server, with an intelligible answer
      or not; or not stored, which the answer may or may not make certain. */
  datatype PostOutcome = Stored(altered: Option<string>, clear: bool) | Dropped(certain: bool)

  /** The text a server keeps of a comment it was sent. */
  function TextKept(sent: string, altered: Option<string>): string {
    if altered.Some? then altered.value else sent
  }

  datatype Pc =
    | Idle
    | Searching(body: string, walk: Walk)
    | Patching(body: string, id: nat)
    | Posting(body: string)
    | Checking(body: string, walk: Walk)
    | Succeeded(body: string, created: bool)
    | Failed

  datatype World = World(remote: seq<Comment>, used: set<nat>, pc: Pc)

  /** `Look` and `Recheck` request one page. */
  datatype Action =
    | Begin(body: string)
    | Look(answered: bool)
    | Patch(stored: bool, confirmed: bool)
    | Post(outcome: PostOutcome, id: nat)
    | Recheck(answered: bool)
    | Crash
    | Others(next: seq<Comment>)

  predicate AtRest(pc: Pc) { pc.Idle? || pc.Succeeded? || pc.Failed? }

  function Edited(remote: seq<Comment>, id: nat, body: string): (edited: seq<Comment>)
    ensures |edited| == |remote|
    ensures forall i :: 0 <= i < |remote| ==>
              edited[i] == if remote[i].id == id then remote[i].(body := body) else remote[i]
  {
    seq(|remote|, i requires 0 <= i < |remote| => if remote[i].id == id then remote[i].(body := body) else remote[i])
  }

  predicate HasId(remote: seq<Comment>, id: nat) { exists i :: 0 <= i < |remote| && remote[i].id == id }

  /** Everybody else may add, edit, delete and reorder comments, and other work of the bot may add
      comments of its own; nobody else writes a comment of the bot that ends in this marker. */
  ghost predicate OthersMay(c: Config, w: World, next: seq<Comment>) {
    && UniqueIds(next)
    && (forall i :: 0 <= i < |next| && Mine(c, next[i]) ==> next[i] in w.remote)
    && (forall i :: 0 <= i < |next| && next[i].id in w.used ==>
          exists j :: 0 <= j < |w.remote| && w.remote[j].id == next[i].id && w.remote[j].author == next[i].author)
  }

  ghost function IdsOf(remote: seq<Comment>): set<nat> { set i | 0 <= i < |remote| :: remote[i].id }

  function AfterPost(c: Config, body: string, outcome: PostOutcome): Pc {
    match outcome
    case Stored(altered, clear) =>
      if clear && (c.forge == GitHub || TextKept(body, altered) == body) then Succeeded(body, true)
      else if c.forge == GitCode then Checking(body, START) else Failed
    case Dropped(certain) => if c.forge == GitCode && !certain then Checking(body, START) else Failed
  }

  /** What the first search leads to. */
  function AfterSearch(c: Config, body: string, found: Search): Pc {
    match found
    case Absent => Posting(body)
    case Found(x) => if c.forge == GitHub || x.body == body then Succeeded(body, false) else Patching(body, x.id)
    case _ => Failed
  }

  function AfterCheck(body: string, found: Search): Pc {
    if found.Found? then Succeeded(body, true) else Failed
  }

  /** The conclusion a page allows, if it does. */
  function Concluded(turn: Turn): Option<Search> {
    match turn
    case Repeated => Some(BadPagination)
    case Hit(x) => Some(Found(x))
    case End => Some(Absent)
    case More(_) => None
  }

  function NextPage(c: Config, remote: seq<Comment>, k: Walk, answered: bool): Turn {
    if k.page >= MAX_PAGES || !answered then Repeated else ReadPage(c, Page(remote, k.page), k)
  }

  ghost function Act(c: Config, w: World, a: Action): World {
    match a
    case Begin(body) =>
      if !AtRest(w.pc) then w
      else if c.marker == "" || !EndsWith(body, c.marker) then w.(pc := Failed)
      else w.(pc := Searching(body, START))
    case Look(answered) =>
      if !w.pc.Searching? then w
      else
        var turn := NextPage(c, w.remote, w.pc.walk, answered);
        if turn.More? then w.(pc := Searching(w.pc.body, turn.walk))
        else w.(pc := AfterSearch(c, w.pc.body, Concluded(turn).value))
    case Patch(stored, confirmed) =>
      if !w.pc.Patching? then w
      else if stored && HasId(w.remote, w.pc.id)
      then w.(remote := Edited(w.remote, w.pc.id, w.pc.body), pc := if confirmed then Succeeded(w.pc.body, false) else Failed)
      else w.(pc := Failed)
    case Post(outcome, id) =>
      if !w.pc.Posting? || id in w.used then w
      else
        var pc := AfterPost(c, w.pc.body, outcome);
        if outcome.Stored?
        then World(w.remote + [Comment(id, c.bot, TextKept(w.pc.body, outcome.altered))], w.used + {id}, pc)
        else w.(pc := pc)
    case Recheck(answered) =>
      if !w.pc.Checking? then w
      else
        var turn := NextPage(c, w.remote, w.pc.walk, answered);
        if turn.More? then w.(pc := Checking(w.pc.body, turn.walk))
        else w.(pc := AfterCheck(w.pc.body, Concluded(turn).value))
    case Crash => w.(pc := Idle)
    case Others(next) =>
      if !OthersMay(c, w, next) then w
      else w.(remote := next, used := w.used + IdsOf(next), pc := if AtRest(w.pc) then Idle else w.pc)
  }

  ghost function Run(c: Config, w: World, actions: seq<Action>): World
    decreases |actions|
  {
    if actions == [] then w else Run(c, Act(c, w, actions[0]), actions[1..])
  }

  // ---------------------------------------------------------------- what every run keeps

  ghost predicate AtMostOne(c: Config, remote: seq<Comment>) {
    forall i, j :: 0 <= i < |remote| && 0 <= j < |remote| && Mine(c, remote[i]) && Mine(c, remote[j]) ==> i == j
  }

  ghost predicate ExactlyOne(c: Config, remote: seq<Comment>) {
    AtMostOne(c, remote) && exists i :: 0 <= i < |remote| && Mine(c, remote[i])
  }

  ghost predicate NoneMine(c: Config, remote: seq<Comment>) {
    forall i :: 0 <= i < |remote| ==> !Mine(c, remote[i])
  }

  /** The own comment stands before the page a search will ask for next. */
  ghost predicate PassedBy(c: Config, remote: seq<Comment>, k: Walk) {
    exists i :: 0 <= i < |remote| && i < From(k.page) && Mine(c, remote[i])
  }

  /** The comment about to be edited is the bot's, and the only one it could collide with. */
  ghost predicate OnlyTarget(c: Config, remote: seq<Comment>, id: nat) {
    && (forall i :: 0 <= i < |remote| && remote[i].id == id ==> remote[i].author == c.bot)
    && (forall i :: 0 <= i < |remote| && Mine(c, remote[i]) ==> remote[i].id == id)
  }

  ghost predicate Inv(c: Config, w: World) {
    && UniqueIds(w.remote)
    && (forall i :: 0 <= i < |w.remote| ==> w.remote[i].id in w.used)
    && AtMostOne(c, w.remote)
    && (w.pc.Searching? ==> !PassedBy(c, w.remote, w.pc.walk))
    && (w.pc.Posting? ==> NoneMine(c, w.remote))
    && (w.pc.Patching? ==> OnlyTarget(c, w.remote, w.pc.id) && w.pc.id in w.used && EndsWith(w.pc.body, c.marker))
    && (w.pc.Posting? || w.pc.Searching? || w.pc.Checking? ==> EndsWith(w.pc.body, c.marker))
  }

  /** Others bring the own comment before the page that a search will ask for next. */
  ghost predicate Hides(c: Config, w: World, a: Action) {
    a.Others? && OthersMay(c, w, a.next) && w.pc.Searching? && PassedBy(c, a.next, w.pc.walk)
  }

  /** Every comment of the others' rewriting that counts was there before. */
  lemma OthersKeepOne(c: Config, w: World, next: seq<Comment>)
    requires Inv(c, w) && OthersMay(c, w, next)
    ensures AtMostOne(c, next) && (NoneMine(c, w.remote) ==> NoneMine(c, next))
    ensures w.pc.Patching? ==> OnlyTarget(c, next, w.pc.id)
  {
    forall i, j | 0 <= i < |next| && 0 <= j < |next| && Mine(c, next[i]) && Mine(c, next[j])
      ensures i == j
    {
      assert next[i] in w.remote && next[j] in w.remote;
      var k :| 0 <= k < |w.remote| && w.remote[k] == next[i];
      var l :| 0 <= l < |w.remote| && w.remote[l] == next[j];
      assert k == l;
    }
  }

  lemma EditKeepsOne(c: Config, remote: seq<Comment>, id: nat, body: string)
    requires UniqueIds(remote) && AtMostOne(c, remote) && OnlyTarget(c, remote, id) && EndsWith(body, c.marker)
    ensures UniqueIds(Edited(remote, id, body)) && AtMostOne(c, Edited(remote, id, body))
    ensures HasId(remote, id) ==> ExactlyOne(c, Edited(remote, id, body))
    ensures forall i :: 0 <= i < |remote| && Mine(c, Edited(remote, id, body)[i]) ==> Edited(remote, id, body)[i].body == body
  {
  }

  /** What one page tells about a thread with at most one own comment. */
  lemma OnePage(c: Config, remote: seq<Comment>, k: Walk, answered: bool)
    requires UniqueIds(remote) && AtMostOne(c, remote)
    ensures var turn := NextPage(c, remote, k, answered);
            && (turn.Hit? ==>
                  turn.comment in remote && Mine(c, turn.comment) && OnlyTarget(c, remote, turn.comment.id) && ExactlyOne(c, remote))
            && (turn.End? ==> (NoneMine(c, remote) <==> !PassedBy(c, remote, k)))
            && (turn.More? ==> (PassedBy(c, remote, turn.walk) <==> PassedBy(c, remote, k)))
  {
    var turn := NextPage(c, remote, k, answered);
    var payload := Page(remote, k.page);
    PageEntries(remote, k.page);
    if turn.Hit? {
      var i := FirstMine(c, payload, 0).value;
      assert remote[From(k.page) + i] == payload[i];
    } else if turn.End? || turn.More? {
      forall i | From(k.page) <= i < |remote| && i < From(k.page + 1) ensures !Mine(c, remote[i]) {
        PageHas(remote, k.page, i);
        assert payload[i - From(k.page)] == remote[i];
      }
    }
  }

  lemma ActKeepsInv(c: Config, w: World, a: Action)
    requires Inv(c, w) && !Hides(c, w, a)
    ensures Inv(c, Act(c, w, a))
  {
    hide EndsWith, NextPage;
    match a
    case Look(answered) =>
      if w.pc.Searching? {
        OnePage(c, w.remote, w.pc.walk, answered);
      }
    case Patch(_, _) =>
      if w.pc.Patching? {
        EditKeepsOne(c, w.remote, w.pc.id, w.pc.body);
      }
    case Others(next) =>
      if OthersMay(c, w, next) {
        OthersKeepOne(c, w, next);
      }
    case _ =>
  }

  /** No step of the run hides the own comment from a search under way. */
  ghost predicate NothingHidden(c: Config, w: World, actions: seq<Action>)
    decreases |actions|
  {
    actions == [] || (!Hides(c, w, actions[0]) && NothingHidden(c, Act(c, w, actions[0]), actions[1..]))
  }

  lemma {:induction false} RunKeepsInv(c: Config, w: World, actions: seq<Action>)
    requires Inv(c, w) && NothingHidden(c, w, actions)
    ensures Inv(c, Run(c, w, actions))
    decreases |actions|
  {
    hide Act, Inv, Hides;
    if actions != [] {
      ActKeepsInv(c, w, actions[0]);
      RunKeepsInv(c, Act(c, w, actions[0]), actions[1..]);
    }
  }

  function New(remote: seq<Comment>, used: set<nat>): World { World(remote, used, Idle) }

  /** Across any sequence of calls, page requests, crashes, failed writes and changes by others, there
      is at most one own comment under the marker, unless others bring it before the next page of a
      search under way. */
  lemma NeverTwoComments(c: Config, remote: seq<Comment>, actions: seq<Action>)
    requires UniqueIds(remote) && AtMostOne(c, remote) && NothingHidden(c, New(remote, IdsOf(remote)), actions)
    ensures AtMostOne(c, Run(c, New(remote, IdsOf(remote)), actions).remote)
  {
    RunKeepsInv(c, New(remote, IdsOf(remote)), actions);
  }

  /** Others leave every comment in its place while a search is under way: they edit and append. */
  ghost predicate KeepsPlaces(remote: seq<Comment>, next: seq<Comment>) {
    |remote| <= |next| && forall i :: 0 <= i < |remote| ==> next[i].id == remote[i].id
  }

  lemma KeepingPlacesHidesNothing(c: Config, w: World, a: Action)
    requires Inv(c, w) && (a.Others? && w.pc.Searching? ==> KeepsPlaces(w.remote, a.next))
    ensures !Hides(c, w, a)
  {
    if a.Others? && w.pc.Searching? && OthersMay(c, w, a.next) {
      forall i | 0 <= i < |a.next| && Mine(c, a.next[i]) ensures i < |w.remote| && w.remote[i] == a.next[i] {
        assert a.next[i] in w.remote;
        var j :| 0 <= j < |w.remote| && w.remote[j] == a.next[i];
        assert a.next[j].id == a.next[i].id;
      }
    }
  }

  ghost predicate PlacesKept(c: Config, w: World, actions: seq<Action>)
    decreases |actions|
  {
    actions == []
    || ((actions[0].Others? && w.pc.Searching? ==> KeepsPlaces(w.remote, actions[0].next))
        && PlacesKept(c, Act(c, w, actions[0]), actions[1..]))
  }

  lemma {:induction false} PlacesKeptHidesNothing(c: Config, w: World, actions: seq<Action>)
    requires Inv(c, w) && PlacesKept(c, w, actions)
    ensures NothingHidden(c, w, actions)
    decreases |actions|
  {
    hide Act, Inv, Hides, KeepsPlaces;
    if actions != [] {
      KeepingPlacesHidesNothing(c, w, actions[0]);
      ActKeepsInv(c, w, actions[0]);
      PlacesKeptHidesNothing(c, Act(c, w, actions[0]), actions[1..]);
    }
  }

  /** So whatever others do between searches, at most one comment stands as long as they only edit and
      append during one. */
  lemma NeverTwoWhenOthersAppend(c: Config, remote: seq<Comment>, actions: seq<Action>)
    requires UniqueIds(remote) && AtMostOne(c, remote) && PlacesKept(c, New(remote, IdsOf(remote)), actions)
    ensures AtMostOne(c, Run(c, New(remote, IdsOf(remote)), actions).remote)
  {
    PlacesKeptHidesNothing(c, New(remote, IdsOf(remote)), actions);
    NeverTwoComments(c, remote, actions);
  }

  /** A page request leads to a second comment exactly when the own one has been passed by and the page
      is the last. */
  lemma MissedExactly(c: Config, w: World, answered: bool)
    requires UniqueIds(w.remote) && ExactlyOne(c, w.remote) && w.pc.Searching?
    ensures Act(c, w, Look(answered)).pc.Posting? <==>
            && PassedBy(c, w.remote, w.pc.walk)
            && w.pc.walk.page < MAX_PAGES && answered
            && |Page(w.remote, w.pc.walk.page)| < PAGE
            && !(c.forge == GitCode && Page(w.remote, w.pc.walk.page) in w.pc.walk.seen)
  {
    OnePage(c, w.remote, w.pc.walk, answered);
    var payload := Page(w.remote, w.pc.walk.page);
    PageEntries(w.remote, w.pc.walk.page);
    if FirstMine(c, payload, 0).Some? {
      assert w.remote[From(w.pc.walk.page) + FirstMine(c, payload, 0).value] == payload[FirstMine(c, payload, 0).value];
    }
  }

  // ---------------------------------------------------------------- the run that ends with two

  function Foreign(): seq<Comment> { seq(PAGE, i requires 0 <= i < PAGE => Comment(i, "someone", "")) }

  function Before(c: Config, body: string): seq<Comment> { Foreign() + [Comment(PAGE, c.bot, body)] }

  lemma FirstPageShowsOthers(c: Config, body: string)
    requires c.bot != "someone"
    ensures ReadPage(c, Page(Before(c, body), 0), START) == More(Walk(1, {Foreign()}))
    ensures ReadPage(c, Page(Before(c, body)[1..], 1), Walk(1, {Foreign()})) == End
  {
    assert Page(Before(c, body), 0) == Foreign();
    assert FirstMine(c, Foreign(), 0) == None;
    assert {} + {Foreign()} == {Foreign()};
    assert Page(Before(c, body)[1..], 1) == [];
    assert |Foreign()| == PAGE;
    assert [] !in {Foreign()};
  }

  lemma DeletingTheFirstIsAllowed(c: Config, body: string, pc: Pc)
    ensures OthersMay(c, World(Before(c, body), IdsOf(Before(c, body)), pc), Before(c, body)[1..])
  {
    var remote := Before(c, body);
    forall i | 0 <= i < |remote[1..]| ensures remote[1..][i] == remote[i + 1] && remote[1..][i] in remote {
    }
  }

  /** A page of other people's comments and the bot's behind them. The first page is read, someone
      deletes their first comment, the second page comes back empty, and the bot posts again. */
  lemma DeletionDuringSearchGivesTwo(c: Config, body: string)
    requires c.marker != "" && EndsWith(body, c.marker) && c.bot != "someone"
    ensures var remote := Before(c, body);
            var actions := [Begin(body), Look(true), Others(remote[1..]), Look(true), Post(Stored(None, true), PAGE + 1)];
            AtMostOne(c, remote) && !AtMostOne(c, Run(c, New(remote, IdsOf(remote)), actions).remote)
  {
    var remote := Before(c, body);
    var used, left, k := IdsOf(remote), remote[1..], Walk(1, {Foreign()});
    RunFive(c, New(remote, used), Begin(body), Look(true), Others(left), Look(true), Post(Stored(None, true), PAGE + 1));
    FirstPageIsRead(c, body);
    SecondPageIsRead(c, body);
    OneOwnBefore(c, body);
    TwoOwnAfter(c, left, used + IdsOf(left), body);
    hide *;
  }

  lemma FirstPageIsRead(c: Config, body: string)
    requires c.marker != "" && EndsWith(body, c.marker) && c.bot != "someone"
    ensures var remote := Before(c, body);
            Act(c, Act(c, New(remote, IdsOf(remote)), Begin(body)), Look(true)) ==
            World(remote, IdsOf(remote), Searching(body, Walk(1, {Foreign()})))
  {
    FirstPageShowsOthers(c, body);
    hide ReadPage, IdsOf, Foreign, Before, Page;
  }

  lemma SecondPageIsRead(c: Config, body: string)
    requires c.bot != "someone"
    ensures var remote := Before(c, body);
            Act(c, Act(c, World(remote, IdsOf(remote), Searching(body, Walk(1, {Foreign()}))), Others(remote[1..])), Look(true)) ==
            World(remote[1..], IdsOf(remote) + IdsOf(remote[1..]), Posting(body))
  {
    FirstPageShowsOthers(c, body);
    DeletingTheFirstIsAllowed(c, body, Searching(body, Walk(1, {Foreign()})));
    var remote, k := Before(c, body), Walk(1, {Foreign()});
    OthersAct(c, World(remote, IdsOf(remote), Searching(body, k)), remote[1..]);
    LookEnds(c, World(remote[1..], IdsOf(remote) + IdsOf(remote[1..]), Searching(body, k)));
    hide *;
  }

  lemma OthersAct(c: Config, w: World, next: seq<Comment>)
    requires OthersMay(c, w, next) && w.pc.Searching?
    ensures Act(c, w, Others(next)) == World(next, w.used + IdsOf(next), w.pc)
  {
    hide OthersMay, IdsOf;
  }

  lemma LookEnds(c: Config, w: World)
    requires w.pc.Searching? && w.pc.walk.page < MAX_PAGES && ReadPage(c, Page(w.remote, w.pc.walk.page), w.pc.walk) == End
    ensures Act(c, w, Look(true)) == w.(pc := Posting(w.pc.body))
  {
    hide ReadPage, Page;
  }

  lemma OneOwnBefore(c: Config, body: string)
    requires c.bot != "someone"
    ensures AtMostOne(c, Before(c, body))
    ensures PAGE + 1 !in IdsOf(Before(c, body)) + IdsOf(Before(c, body)[1..])
    ensures var left := Before(c, body)[1..]; |left| == PAGE && left[PAGE - 1] == Comment(PAGE, c.bot, body)
  {
  }

  lemma TwoOwnAfter(c: Config, left: seq<Comment>, used: set<nat>, body: string)
    requires |left| == PAGE && left[PAGE - 1] == Comment(PAGE, c.bot, body) && EndsWith(body, c.marker) && PAGE + 1 !in used
    ensures !AtMostOne(c, Act(c, World(left, used, Posting(body)), Post(Stored(None, true), PAGE + 1)).remote)
  {
    hide EndsWith;
    var after := Act(c, World(left, used, Posting(body)), Post(Stored(None, true), PAGE + 1)).remote;
    assert after == left + [Comment(PAGE + 1, c.bot, body)];
    assert Mine(c, after[PAGE - 1]) && Mine(c, after[PAGE]);
  }

  lemma RunFirst(c: Config, w: World, a: Action, rest: seq<Action>)
    ensures Run(c, w, [a] + rest) == Run(c, Act(c, w, a), rest)
  {
    hide Act;
    assert ([a] + rest)[1..] == rest;
  }

  lemma RunFive(c: Config, w: World, a: Action, b: Action, d: Action, e: Action, f: Action)
    ensures Run(c, w, [a, b, d, e, f]) == Act(c, Act(c, Act(c, Act(c, Act(c, w, a), b), d), e), f)
  {
    hide Act, Run;
    assert [a, b, d, e, f] == [a] + ([b] + ([d] + ([e] + ([f] + []))));
    RunFirst(c, w, a, [b] + ([d] + ([e] + ([f] + []))));
    RunFirst(c, Act(c, w, a), b, [d] + ([e] + ([f] + [])));
    RunFirst(c, Act(c, Act(c, w, a), b), d, [e] + ([f] + []));
    RunFirst(c, Act(c, Act(c, Act(c, w, a), b), d), e, [f] + []);
    RunFirst(c, Act(c, Act(c, Act(c, Act(c, w, a), b), d), e), f, []);
    RunNothing(c, Act(c, Act(c, Act(c, Act(c, Act(c, w, a), b), d), e), f));
  }

  lemma RunNothing(c: Config, w: World)
    ensures Run(c, w, []) == w
  {
  }

  // ---------------------------------------------------------------- what success means

  /** A server that keeps the marker of what it stores. */
  predicate KeepsMarker(c: Config, a: Action) {
    a.Post? && a.outcome.Stored? && a.outcome.altered.Some? ==> EndsWith(a.outcome.altered.value, c.marker)
  }

  ghost predicate CarriesBody(c: Config, remote: seq<Comment>, body: string) {
    forall i :: 0 <= i < |remote| && Mine(c, remote[i]) ==> remote[i].body == body
  }

  /** The step that ends a call with success leaves exactly one own comment under the marker. GitCode
      needs nothing of the server for it; GitHub takes the server's word that it kept the marker. */
  lemma SuccessMeansExactlyOne(c: Config, w: World, a: Action)
    requires Inv(c, w) && !w.pc.Succeeded? && Act(c, w, a).pc.Succeeded?
    requires c.forge == GitHub ==> KeepsMarker(c, a)
    ensures ExactlyOne(c, Act(c, w, a).remote)
  {
    hide EndsWith, NextPage;
    match a
    case Look(answered) => OnePage(c, w.remote, w.pc.walk, answered);
    case Patch(_, _) => EditKeepsOne(c, w.remote, w.pc.id, w.pc.body);
    case Post(outcome, id) =>
      var remote := Act(c, w, a).remote;
      assert Mine(c, remote[|w.remote|]);
    case Recheck(answered) => OnePage(c, w.remote, w.pc.walk, answered);
    case _ =>
  }

  /** The body that the last call asked for; a call begins only while none is under way. */
  ghost function LastAsked(c: Config, w: World, actions: seq<Action>, so: Option<string>): Option<string>
    decreases |actions|
  {
    if actions == [] then so
    else
      LastAsked(c, Act(c, w, actions[0]), actions[1..],
                if actions[0].Begin? && AtRest(w.pc) then Some(actions[0].body) else so)
  }

  /** The body a call works with, at the points that have one, is the body asked for. */
  predicate WorksFor(pc: Pc, asked: Option<string>) {
    pc.Searching? || pc.Patching? || pc.Posting? || pc.Checking? || pc.Succeeded? ==> asked == Some(pc.body)
  }

  /** On every run, every call that is under way or has succeeded works with the body it was asked for. */
  lemma {:induction false} AskedBodyStays(c: Config, w: World, actions: seq<Action>, so: Option<string>)
    requires WorksFor(w.pc, so)
    ensures WorksFor(Run(c, w, actions).pc, LastAsked(c, w, actions, so))
    decreases |actions|
  {
    if actions != [] {
      var asked := if actions[0].Begin? && AtRest(w.pc) then Some(actions[0].body) else so;
      StepWorksFor(c, w, actions[0], so);
      hide Act;
      AskedBodyStays(c, Act(c, w, actions[0]), actions[1..], asked);
    }
  }

  lemma StepWorksFor(c: Config, w: World, a: Action, so: Option<string>)
    requires WorksFor(w.pc, so)
    ensures WorksFor(Act(c, w, a).pc, if a.Begin? && AtRest(w.pc) then Some(a.body) else so)
  {
    hide EndsWith, NextPage, OthersMay, HasId, IdsOf;
  }

  /** On every run in which nothing is hidden, GitCode's success also means the comment carries the body
      that the call asked for, except when it was found only by the second search: then exactly if the
      server had stored that body. */
  lemma GitCodeBodyIsCurrent(c: Config, remote: seq<Comment>, actions: seq<Action>, a: Action)
    requires c.forge == GitCode && UniqueIds(remote) && AtMostOne(c, remote)
    requires NothingHidden(c, New(remote, IdsOf(remote)), actions)
    requires var w := Run(c, New(remote, IdsOf(remote)), actions); !w.pc.Succeeded? && Act(c, w, a).pc.Succeeded?
    ensures var w := Run(c, New(remote, IdsOf(remote)), actions);
            var v, asked := Act(c, w, a), LastAsked(c, New(remote, IdsOf(remote)), actions, None);
            && asked == Some(v.pc.body)
            && (!a.Recheck? ==> CarriesBody(c, v.remote, asked.value))
            && (a.Recheck? ==>
                  && w.pc.Checking?
                  && var turn := NextPage(c, w.remote, w.pc.walk, a.answered);
                  && v.remote == w.remote && turn.Hit?
                  && (CarriesBody(c, v.remote, asked.value) <==> turn.comment.body == asked.value))
  {
    var w0 := New(remote, IdsOf(remote));
    RunKeepsInv(c, w0, actions);
    AskedBodyStays(c, w0, actions, None);
    var w := Run(c, w0, actions);
    StepWorksFor(c, w, a, LastAsked(c, w0, actions, None));
    hide Run, LastAsked, IdsOf, UniqueIds, NothingHidden;
    SuccessCarriesBody(c, w, a);
  }

  lemma SuccessCarriesBody(c: Config, w: World, a: Action)
    requires c.forge == GitCode && Inv(c, w) && !w.pc.Succeeded? && Act(c, w, a).pc.Succeeded?
    ensures var v := Act(c, w, a);
            && !a.Begin?
            && (!a.Recheck? ==> CarriesBody(c, v.remote, v.pc.body))
            && (a.Recheck? ==>
                  && w.pc.Checking?
                  && var turn := NextPage(c, w.remote, w.pc.walk, a.answered);
                  && v.remote == w.remote && turn.Hit?
                  && (CarriesBody(c, v.remote, v.pc.body) <==> turn.comment.body == v.pc.body))
  {
    hide EndsWith, NextPage;
    match a
    case Look(answered) => OnePage(c, w.remote, w.pc.walk, answered);
    case Patch(_, _) => EditKeepsOne(c, w.remote, w.pc.id, w.pc.body);
    case Recheck(answered) => OnePage(c, w.remote, w.pc.walk, answered);
    case _ =>
  }

  /** GitHub never edits: on success with an old comment the body is current exactly when the old
      one already was. */
  lemma GitHubBodyMayBeOld(c: Config, w: World, answered: bool)
    requires c.forge == GitHub && Inv(c, w) && w.pc.Searching? && Act(c, w, Look(answered)).pc.Succeeded?
    ensures var v, turn := Act(c, w, Look(answered)), NextPage(c, w.remote, w.pc.walk, answered);
            && v.remote == w.remote && turn.Hit?
            && (CarriesBody(c, v.remote, v.pc.body) <==> turn.comment.body == v.pc.body)
  {
    hide EndsWith, NextPage;
    OnePage(c, w.remote, w.pc.walk, answered);
  }

  /** How a post decides the call. GitHub succeeds with any intelligible answer and fails otherwise; GitCode
      succeeds if the answer also shows the text that was sent, fails if it is certain that nothing was
      stored, and searches again in every other case. That search succeeds exactly if it finds a comment. */
  lemma PostDecides(c: Config, w: World, outcome: PostOutcome, id: nat)
    requires w.pc.Posting? && id !in w.used
    ensures var pc, intact := Act(c, w, Post(outcome, id)).pc, outcome.Stored? && outcome.altered in {None, Some(w.pc.body)};
            && (c.forge == GitHub ==> pc == if outcome.Stored? && outcome.clear then Succeeded(w.pc.body, true) else Failed)
            && (c.forge == GitCode ==>
                  pc == if intact && outcome.clear then Succeeded(w.pc.body, true)
                        else if outcome.Dropped? && outcome.certain then Failed
                        else Checking(w.pc.body, START))
  {
  }

  lemma RecheckDecides(c: Config, w: World, answered: bool)
    requires w.pc.Checking?
    ensures var pc, turn := Act(c, w, Recheck(answered)).pc, NextPage(c, w.remote, w.pc.walk, answered);
            && (pc.Succeeded? <==> turn.Hit?) && (pc.Checking? <==> turn.More?) && (pc.Failed? <==> turn.End? || turn.Repeated?)
            && (turn.Hit? ==> pc == Succeeded(w.pc.body, true))
    ensures !answered ==> Act(c, w, Recheck(answered)).pc == Failed
  {
    hide ReadPage;
  }

  // ---------------------------------------------------------------- a call with nothing in between

  /** Enough page requests for a whole search, the first or the second, from page `page` on. */
  function Looks(second: bool, answers: nat -> bool, page: nat): seq<Action>
    decreases MAX_PAGES + 1 - page
  {
    if page > MAX_PAGES then []
    else [if second then Recheck(answers(page)) else Look(answers(page))] + Looks(second, answers, page + 1)
  }

  lemma {:induction false} NothingToLookFor(c: Config, w: World, second: bool, answers: nat -> bool, page: nat)
    requires if second then !w.pc.Checking? else !w.pc.Searching?
    ensures Run(c, w, Looks(second, answers, page)) == w
    decreases MAX_PAGES + 1 - page
  {
    if page <= MAX_PAGES {
      RunFirst(c, w, if second then Recheck(answers(page)) else Look(answers(page)), Looks(second, answers, page + 1));
      NothingToLookFor(c, w, second, answers, page + 1);
    }
  }

  /** The page requests of an undisturbed search conclude what the search of that one thread does. */
  lemma {:induction false} SearchUndisturbed(c: Config, w: World, second: bool, body: string, answers: nat -> bool, k: Walk)
    requires k.page <= MAX_PAGES && w.pc == if second then Checking(body, k) else Searching(body, k)
    ensures var found := WalkOn(c, _ => w.remote, answers, k);
            Run(c, w, Looks(second, answers, k.page)) ==
            w.(pc := if second then AfterCheck(body, found) else AfterSearch(c, body, found))
    decreases MAX_PAGES + 1 - k.page
  {
    hide ReadPage;
    var look := if second then Recheck(answers(k.page)) else Look(answers(k.page));
    var next := Act(c, w, look);
    RunFirst(c, w, look, Looks(second, answers, k.page + 1));
    MoreGoesOn(c, Page(w.remote, k.page), k);
    var turn := NextPage(c, w.remote, k, answers(k.page));
    if turn.More? {
      SearchUndisturbed(c, next, second, body, answers, turn.walk);
    } else {
      NothingToLookFor(c, next, second, answers, k.page + 1);
    }
  }

  /** A thread that fills every page a walk may ask for, and shows no own comment on them, stops the
      call before it writes. */
  lemma LongThreadsAreRefused(c: Config, w: World, body: string)
    requires UniqueIds(w.remote) && w.pc == Searching(body, START)
    ensures var v := Run(c, w, Looks(false, _ => true, 0));
            && v.remote == w.remote
            && (v.pc.Failed? <==> |w.remote| >= CAPACITY && forall i :: 0 <= i < CAPACITY ==> !Mine(c, w.remote[i]))
  {
    SearchUndisturbed(c, w, false, body, _ => true, START);
    assert SeenSoFar(c, w.remote, START);
    WalkOfOneThread(c, w.remote, START);
    hide EndsWith;
  }

  /** How the server and the network treat one call. */
  datatype Fate = Fate(first: nat -> bool, patchStored: bool, patchConfirmed: bool, post: PostOutcome, id: nat, second: nat -> bool)

  function Steps(body: string, f: Fate): seq<Action> {
    [Begin(body)] + (Looks(false, f.first, 0) +
    ([Patch(f.patchStored, f.patchConfirmed)] + ([Post(f.post, f.id)] + Looks(true, f.second, 0))))
  }

  lemma {:induction false} RunAppend(c: Config, w: World, a: seq<Action>, b: seq<Action>)
    ensures Run(c, w, a + b) == Run(c, Run(c, w, a), b)
    decreases |a|
  {
    hide Act;
    if a == [] {
      assert a + b == b;
    } else {
      assert (a + b)[1..] == a[1..] + b;
      RunAppend(c, Act(c, w, a[0]), a[1..], b);
    }
  }

  lemma RunOfSteps(c: Config, w: World, body: string, f: Fate)
    ensures var searched := Run(c, Act(c, w, Begin(body)), Looks(false, f.first, 0));
            var written := Act(c, Act(c, searched, Patch(f.patchStored, f.patchConfirmed)), Post(f.post, f.id));
            Run(c, w, Steps(body, f)) == Run(c, written, Looks(true, f.second, 0))
  {
    hide Act, Run, Looks;
    var last := Looks(true, f.second, 0);
    var write := [Patch(f.patchStored, f.patchConfirmed)] + ([Post(f.post, f.id)] + last);
    RunFirst(c, w, Begin(body), Looks(false, f.first, 0) + write);
    RunAppend(c, Act(c, w, Begin(body)), Looks(false, f.first, 0), write);
    var searched := Run(c, Act(c, w, Begin(body)), Looks(false, f.first, 0));
    RunFirst(c, searched, Patch(f.patchStored, f.patchConfirmed), [Post(f.post, f.id)] + last);
    RunFirst(c, Act(c, searched, Patch(f.patchStored, f.patchConfirmed)), Post(f.post, f.id), last);
  }

  /** What the steps of a call come to, by what its first search finds. */
  lemma StepsOfCall(c: Config, w: World, body: string, f: Fate)
    requires w.pc == Idle
    ensures var done := Run(c, w, Steps(body, f));
            var found := WalkOn(c, _ => w.remote, f.first, START);
            if c.marker == "" || !EndsWith(body, c.marker) then done == w.(pc := Failed)
            else
              var pc := AfterSearch(c, body, found);
              if pc.Posting? then done == Run(c, Act(c, w.(pc := pc), Post(f.post, f.id)), Looks(true, f.second, 0))
              else if pc.Patching? then done == Act(c, w.(pc := pc), Patch(f.patchStored, f.patchConfirmed))
              else done == w.(pc := pc)
  {
    RunOfSteps(c, w, body, f);
    var begun := Act(c, w, Begin(body));
    hide Run, Steps, WalkOn, EndsWith, Looks;
    if begun.pc.Searching? {
      SearchUndisturbed(c, begun, false, body, f.first, START);
      var searched := w.(pc := AfterSearch(c, body, WalkOn(c, _ => w.remote, f.first, START)));
      assert Run(c, begun, Looks(false, f.first, 0)) == searched;
      var written := Act(c, searched, Patch(f.patchStored, f.patchConfirmed));
      if !searched.pc.Posting? {
        NothingToLookFor(c, written, true, f.second, 0);
      }
    } else {
      NothingToLookFor(c, begun, false, f.first, 0);
      NothingToLookFor(c, begun, true, f.second, 0);
    }
  }

  /** A call that succeeds has worked with the body it was given. */
  lemma CallWorksForItsBody(c: Config, w: World, body: string, f: Fate)
    requires w.pc == Idle && Run(c, w, Steps(body, f)).pc.Succeeded?
    ensures Run(c, w, Steps(body, f)).pc.body == body
  {
    hide Run, Steps, WalkOn, EndsWith, Looks;
    StepsOfCall(c, w, body, f);
    var pc := AfterSearch(c, body, WalkOn(c, _ => w.remote, f.first, START));
    if pc.Posting? {
      var posted := Act(c, w.(pc := pc), Post(f.post, f.id));
      if posted.pc.Checking? {
        SearchUndisturbed(c, posted, true, body, f.second, START);
      } else {
        NothingToLookFor(c, posted, true, f.second, 0);
      }
    }
  }

  /** A server that answers every page, stores what it is sent and says so. */
  ghost predicate Cooperates(f: Fate) {
    && (forall p: nat :: f.first(p)) && f.patchStored && f.patchConfirmed && f.post == Stored(None, true)
  }

  /** Some text and then the tail. */
  ghost predicate Ends(s: string, tail: string) { exists front :: s == front + tail }

  lemma EndsExactly(s: string, tail: string)
    ensures EndsWith(s, tail) <==> Ends(s, tail)
  {
    if EndsWith(s, tail) {
      assert s == s[..|s| - |tail|] + tail;
    }
    if Ends(s, tail) {
      var front :| s == front + tail;
      assert s[|s| - |tail|..] == tail;
    }
  }

  lemma OwnExactly(c: Config, remote: seq<Comment>)
    ensures forall i :: 0 <= i < |remote| ==> (Mine(c, remote[i]) <==> remote[i].author == c.bot && Ends(remote[i].body, c.marker))
  {
    forall i | 0 <= i < |remote|
      ensures Mine(c, remote[i]) <==> remote[i].author == c.bot && Ends(remote[i].body, c.marker)
    {
      EndsExactly(remote[i].body, c.marker);
    }
  }

  /** With such a server a call succeeds on every thread that a walk can see to the end. If the first own
      comment on it is number `i`, GitCode gives that one the body asked for and GitHub leaves it alone;
      if there is none, one comment of the bot with exactly that body is added at the end. */
  lemma CallPublishes(c: Config, w: World, body: string, f: Fate, own: Option<nat>)
    requires w.pc == Idle && UniqueIds(w.remote) && |w.remote| < CAPACITY && f.id !in w.used && Cooperates(f)
    requires c.marker != "" && EndsWith(body, c.marker)
    requires own.Some? ==>
               own.value < |w.remote| && w.remote[own.value].author == c.bot && Ends(w.remote[own.value].body, c.marker)
    requires forall i :: 0 <= i < (if own.Some? then own.value else |w.remote|) ==>
               w.remote[i].author != c.bot || !Ends(w.remote[i].body, c.marker)
    ensures var done := Run(c, w, Steps(body, f));
            && done.pc == Succeeded(body, own.None?)
            && done.remote == match own
                              case None => w.remote + [Comment(f.id, c.bot, body)]
                              case Some(i) =>
                                if c.forge == GitHub then w.remote else w.remote[i := w.remote[i].(body := body)]
  {
    hide Run, Steps, WalkOn, EndsWith, Looks, UniqueIds, Ends;
    FindsOwn(c, w.remote, f.first, own);
    StepsOfCall(c, w, body, f);
    if own.Some? {
      EditIsUpdate(w.remote, own.value, body);
    } else {
      NothingToLookFor(c, Act(c, w.(pc := Posting(body)), Post(f.post, f.id)), true, f.second, 0);
    }
  }

  /** A search of such a thread, with every request answered, finds the first own comment or none. */
  lemma FindsOwn(c: Config, remote: seq<Comment>, answers: nat -> bool, own: Option<nat>)
    requires UniqueIds(remote) && |remote| < CAPACITY && forall p: nat :: answers(p)
    requires own.Some? ==> own.value < |remote| && remote[own.value].author == c.bot && Ends(remote[own.value].body, c.marker)
    requires forall i :: 0 <= i < (if own.Some? then own.value else |remote|) ==>
               remote[i].author != c.bot || !Ends(remote[i].body, c.marker)
    ensures WalkOn(c, _ => remote, answers, START) == if own.Some? then Found(remote[own.value]) else Absent
  {
    OwnExactly(c, remote);
    FullyAnswered(c, remote, answers, START);
    assert SeenSoFar(c, remote, START);
    WalkOfOneThread(c, remote, START);
    hide WalkOn, EndsWith, Ends, UniqueIds;
    if own.Some? {
      FirstIs(c, remote, own.value);
    }
  }

  lemma EditIsUpdate(remote: seq<Comment>, i: nat, body: string)
    requires UniqueIds(remote) && i < |remote|
    ensures HasId(remote, remote[i].id) && Edited(remote, remote[i].id, body) == remote[i := remote[i].(body := body)]
  {
    forall j | 0 <= j < |remote| ensures Edited(remote, remote[i].id, body)[j] == remote[i := remote[i].(body := body)][j] {
    }
  }

  lemma {:induction false} FullyAnswered(c: Config, remote: seq<Comment>, answers: nat -> bool, k: Walk)
    requires forall p: nat :: answers(p)
    ensures WalkOn(c, _ => remote, answers, k) == WalkOn(c, _ => remote, _ => true, k)
    decreases MAX_PAGES - k.page
  {
    hide ReadPage;
    if k.page < MAX_PAGES {
      MoreGoesOn(c, Page(remote, k.page), k);
      var turn := ReadPage(c, Page(remote, k.page), k);
      if turn.More? {
        FullyAnswered(c, remote, answers, turn.walk);
      }
    }
  }

  /** Whatever the server does, a call of GitCode that succeeds leaves one own comment, and it carries the
      body asked for unless the server altered what it was sent. */
  lemma GitCodeCallPublishes(c: Config, w: World, body: string, f: Fate)
    requires c.forge == GitCode && Inv(c, w) && w.pc == Idle && f.id !in w.used
    requires Run(c, w, Steps(body, f)).pc.Succeeded?
    ensures var done := Run(c, w, Steps(body, f)).remote;
            ExactlyOne(c, done) && ((f.post.Stored? && f.post.altered.Some?) || CarriesBody(c, done, body))
  {
    StepsOfCall(c, w, body, f);
    SearchTells(c, w.remote, f.first, START);
    var found := WalkOn(c, _ => w.remote, f.first, START);
    var pc := AfterSearch(c, body, found);
    if pc.Posting? {
      PostedOne(c, w.(pc := pc), body, f);
    } else if pc.Patching? {
      hide EndsWith, Run, Steps, WalkOn, Looks;
      assert OnlyTarget(c, w.remote, found.comment.id);
      EditKeepsOne(c, w.remote, found.comment.id, body);
    }
  }

  /** What a search concludes of a thread with at most one own comment, whichever requests are answered. */
  lemma {:induction false} SearchTells(c: Config, remote: seq<Comment>, answers: nat -> bool, k: Walk)
    requires UniqueIds(remote) && AtMostOne(c, remote) && !PassedBy(c, remote, k)
    ensures var found := WalkOn(c, _ => remote, answers, k);
            && (found.Found? ==>
                  found.comment in remote && Mine(c, found.comment) && OnlyTarget(c, remote, found.comment.id) && ExactlyOne(c, remote))
            && (found.Absent? ==> NoneMine(c, remote))
    decreases MAX_PAGES - k.page
  {
    hide ReadPage, EndsWith;
    if k.page < MAX_PAGES && answers(k.page) {
      OnePage(c, remote, k, true);
      MoreGoesOn(c, Page(remote, k.page), k);
      var turn := ReadPage(c, Page(remote, k.page), k);
      if turn.More? {
        hide UniqueIds, AtMostOne, PassedBy, OnlyTarget, ExactlyOne, NoneMine;
        SearchTells(c, remote, answers, turn.walk);
      }
    }
  }

  /** A post that ends in success, at once or after the second search, has added the one own comment. */
  lemma PostedOne(c: Config, w: World, body: string, f: Fate)
    requires c.forge == GitCode && Inv(c, w.(pc := Idle)) && w.pc == Posting(body) && NoneMine(c, w.remote)
    requires EndsWith(body, c.marker) && f.id !in w.used
    requires Run(c, Act(c, w, Post(f.post, f.id)), Looks(true, f.second, 0)).pc.Succeeded?
    ensures var done := Run(c, Act(c, w, Post(f.post, f.id)), Looks(true, f.second, 0)).remote;
            ExactlyOne(c, done) && ((f.post.Stored? && f.post.altered.Some?) || CarriesBody(c, done, body))
  {
    var posted := Act(c, w, Post(f.post, f.id));
    hide EndsWith, Run, WalkOn, Looks;
    if posted.pc.Checking? {
      SearchUndisturbed(c, posted, true, body, f.second, START);
      SearchTells(c, posted.remote, f.second, START);
    } else {
      NothingToLookFor(c, posted, true, f.second, 0);
      assert posted.remote[|w.remote|] == Comment(f.id, c.bot, body);
      assert Mine(c, posted.remote[|w.remote|]);
    }
  }

  class Thread {
    var remote: seq<Comment>
    ghost var used: set<nat>

    ghost function View(pc: Pc): World reads this { World(remote, used, pc) }

    method PatchComment(id: nat, body: string, stored: bool, confirmed: bool) returns (ok: bool)
      modifies this
      ensures used == old(used)
      ensures ok <==> stored && confirmed && HasId(old(remote), id)
      ensures remote == if stored && HasId(old(remote), id) then Edited(old(remote), id, body) else old(remote)
    {
      var known := exists i :: 0 <= i < |remote| && remote[i].id == id;
      if stored && known {
        remote := Edited(remote, id, body);
      }
      ok := stored && known && confirmed;
    }

    /** What follows a search that found nothing. */
    method PostComment(c: Config, body: string, f: Fate) returns (result: Pc)
      requires f.id !in used
      modifies this
      ensures View(result) == Run(c, Act(c, old(View(Posting(body))), Post(f.post, f.id)), Looks(true, f.second, 0))
      ensures AtRest(result)
      ensures result.Succeeded? ==> result.body == body
      ensures remote == if f.post.Stored?
                        then old(remote) + [Comment(f.id, c.bot, if f.post.altered == None then body else f.post.altered.value)]
                        else old(remote)
    {
      ghost var posted := Act(c, View(Posting(body)), Post(f.post, f.id));
      if posted.pc.Checking? {
        SearchUndisturbed(c, posted, true, body, f.second, START);
      } else {
        NothingToLookFor(c, posted, true, f.second, 0);
      }
      hide Run, Looks, WalkOn;
      if f.post.Stored? {
        var text := if f.post.altered.Some? then f.post.altered.value else body;
        remote := remote + [Comment(f.id, c.bot, text)];
        used := used + {f.id};
        if f.post.clear && (c.forge == GitHub || text == body) {
          return Succeeded(body, true);
        }
      }
      if c.forge == GitHub || (f.post.Dropped? && f.post.certain) {
        return Failed;
      }
      var thread := remote;
      var reconciled := FindComment(c, _ => thread, f.second);
      return if reconciled.Found? then Succeeded(body, true) else Failed;
    }

    /** One whole call with nothing in between. */
    method PublishPrComment(c: Config, body: string, f: Fate) returns (result: Pc)
      requires f.id !in used
      modifies this
      ensures View(result) == Run(c, old(View(Idle)), Steps(body, f))
      ensures AtRest(result)
      ensures result.Succeeded? ==> result.body == body
      ensures c.marker == "" || !EndsWith(body, c.marker) ==> result == Failed && remote == old(remote)
      ensures |remote| <= |old(remote)| + 1
    {
      StepsOfCall(c, View(Idle), body, f);
      hide Run, Steps, WalkOn, EndsWith;
      if c.marker == "" || !EndsWith(body, c.marker) {
        return Failed;
      }
      var thread := remote;
      var existing := FindComment(c, _ => thread, f.first);
      match existing
      case Absent =>
        result := PostComment(c, body, f);
      case Found(x) =>
        if c.forge == GitHub || x.body == body {
          return Succeeded(body, false);
        }
        var ok := PatchComment(x.id, body, f.patchStored, f.patchConfirmed);
        result := if ok then Succeeded(body, false) else Failed;
      case _ =>
        return Failed;
    }
  }
}
