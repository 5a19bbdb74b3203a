/** Merging pull-request feedback into the rows of a task. */
module Feedback {
  import opened Values

  /** What the provider says about one piece of feedback besides its id. */
  datatype Content = Content(kind: string, author: string, association: string, body: string, url: string,
                             path: Option<string>, line: Option<int>)

  datatype Item = Item(id: string, content: Content)

  datatype Row = Row(content: Content, selected: Option<int>, processed: Option<int>, created: int)

  /** Rows are unique by task and provider id. */
  type Key = (nat, string)
  type Rows = map<Key, Row>

  /** The task and provider of one synchronisation, and its time. */
  datatype Sync = Sync(task: nat, provider: string, now: int)

  function Full(s: Sync, id: string): (full: string)
    ensures full != id
    ensures |full| == |s.provider| + 1 + |id|
  {
    s.provider + ":" + id
  }

  lemma FullIsInjective(s: Sync, a: string, b: string)
    ensures Full(s, a) == Full(s, b) <==> a == b
  {
    assert Full(s, a)[|s.provider| + 1..] == a;
    assert Full(s, b)[|s.provider| + 1..] == b;
  }

  function Earliest(a: Option<int>, b: Option<int>): Option<int> {
    if a.None? then b else if b.None? then a else if a.value <= b.value then a else b
  }

  /** The row kept under the full id once an old row under the bare id has been folded in. */
  function Merged(rows: Rows, full: Key, bare: Key): Option<Row> {
    if full in rows && bare in rows then
      Some(rows[full].(selected := Earliest(rows[full].selected, rows[bare].selected),
                       processed := Earliest(rows[full].processed, rows[bare].processed)))
    else if full in rows then Some(rows[full])
    else if bare in rows then Some(rows[bare])
    else None
  }

  function Upserted(rows: Rows, s: Sync, item: Item): Rows {
    var full, bare := (s.task, Full(s, item.id)), (s.task, item.id);
    var kept := Merged(rows, full, bare);
    (rows - {bare})[full := if kept.None? then Row(item.content, None, None, s.now) else kept.value.(content := item.content)]
  }

  function Fold(rows: Rows, s: Sync, items: seq<Item>): Rows
    decreases |items|
  {
    if items == [] then rows else Upserted(Fold(rows, s, items[..|items| - 1]), s, items[|items| - 1])
  }

  class FeedbackTable {
    var rows: Rows

    /** Rename or merge the old row, then insert or refresh the new one. */
    method Upsert(s: Sync, item: Item)
      modifies this
      ensures rows == Upserted(old(rows), s, item)
      ensures (s.task, s.provider + ":" + item.id) in rows && (s.task, item.id) !in rows
      ensures rows[(s.task, s.provider + ":" + item.id)].content == item.content
    {
      var full, bare := (s.task, s.provider + ":" + item.id), (s.task, item.id);
      assert full == (s.task, Full(s, item.id));
      if full !in rows && bare in rows {
        rows := (rows - {bare})[full := rows[bare]];
      } else if full in rows && bare in rows {
        var a, b := rows[full], rows[bare];
        rows := (rows - {bare})[full := a.(selected := Earliest(a.selected, b.selected), processed := Earliest(a.processed, b.processed))];
      }
      if full in rows {
        rows := rows[full := rows[full].(content := item.content)];
      } else {
        rows := rows[full := Row(item.content, None, None, s.now)];
      }
    }

    method SyncAll(s: Sync, items: seq<Item>)
      modifies this
      ensures rows == Fold(old(rows), s, items)
    {
      assert items[..0] == [];
      for i := 0 to |items|
        invariant rows == Fold(old(rows), s, items[..i])
      {
        assert items[..i + 1][..i] == items[..i];
        Upsert(s, items[i]);
      }
      assert items[..|items|] == items;
    }
  }

  // ---------------------------------------------------------------- which rows are left, on every input

  /** No item from position `k` on takes the row under `id` away. */
  ghost predicate StaysFrom(items: seq<Item>, id: string, k: nat) {
    forall m :: k <= m < |items| ==> items[m].id != id
  }

  ghost predicate WrittenAt(s: Sync, items: seq<Item>, id: string, k: nat) {
    k < |items| && Full(s, items[k].id) == id && StaysFrom(items, id, k + 1)
  }

  lemma StaysStep(items: seq<Item>, id: string, k: nat)
    requires items != [] && k < |items|
    ensures StaysFrom(items, id, k) <==> StaysFrom(items[..|items| - 1], id, k) && items[|items| - 1].id != id
  {
    var front := items[..|items| - 1];
    if StaysFrom(front, id, k) && items[|items| - 1].id != id {
      forall m | k <= m < |items| ensures items[m].id != id {
        assert m < |front| ==> front[m] == items[m];
      }
    }
    if StaysFrom(items, id, k) {
      forall m | k <= m < |front| ensures front[m].id != id {
        assert front[m] == items[m];
      }
    }
  }

  lemma WrittenStep(s: Sync, items: seq<Item>, id: string)
    requires items != []
    ensures var front, x := items[..|items| - 1], items[|items| - 1];
            (exists k: nat :: WrittenAt(s, items, id, k)) <==>
            Full(s, x.id) == id || ((exists k: nat :: WrittenAt(s, front, id, k)) && x.id != id)
  {
    hide Full;
    var front, x := items[..|items| - 1], items[|items| - 1];
    if Full(s, x.id) == id {
      assert WrittenAt(s, items, id, |front|);
    }
    if k: nat :| WrittenAt(s, items, id, k) && k < |front| {
      StaysStep(items, id, k + 1);
      assert WrittenAt(s, front, id, k);
    }
    if k: nat :| WrittenAt(s, front, id, k) && x.id != id {
      StaysStep(items, id, k + 1);
      assert WrittenAt(s, items, id, k);
    }
  }

  /** The rows left over are exactly those written by an item, or there before, whose id no later
      item carries as its bare id. */
  lemma {:induction false} RowsLeftExactly(rows: Rows, s: Sync, items: seq<Item>, id: string)
    ensures (s.task, id) in Fold(rows, s, items) <==>
            ((s.task, id) in rows && StaysFrom(items, id, 0)) || exists k: nat :: WrittenAt(s, items, id, k)
    decreases |items|
  {
    if items != [] {
      RowsLeftExactly(rows, s, items[..|items| - 1], id);
      StaysStep(items, id, 0);
      WrittenStep(s, items, id);
      hide Full, StaysFrom, WrittenAt, Merged;
    }
  }

  /** Rows of other tasks, and rows under no id of the items, are left alone. */
  lemma {:induction false} OtherRowsUnchanged(rows: Rows, s: Sync, items: seq<Item>, key: Key)
    requires key.0 == s.task ==> forall i :: 0 <= i < |items| ==> key.1 != items[i].id && key.1 != Full(s, items[i].id)
    ensures key in Fold(rows, s, items) <==> key in rows
    ensures key in rows ==> Fold(rows, s, items)[key] == rows[key]
    decreases |items|
  {
    if items != [] {
      OtherRowsUnchanged(rows, s, items[..|items| - 1], key);
    }
  }

  // ---------------------------------------------------------------- one row per item

  /** No item's own id is the full form of another's. */
  ghost predicate Apart(s: Sync, items: seq<Item>) {
    forall i, j :: 0 <= i < |items| && 0 <= j < |items| ==> items[i].id != Full(s, items[j].id)
  }

  /** Every item has its row and no row under its bare id. */
  ghost predicate OneRowEach(s: Sync, rows: Rows, items: seq<Item>) {
    forall i :: 0 <= i < |items| ==> (s.task, Full(s, items[i].id)) in rows && (s.task, items[i].id) !in rows
  }

  /** Each item ends with exactly one row, and none under its bare id, exactly when no item's own id
      is the full form of another's: such a pair either loses one row or keeps one too many. */
  lemma OneRowEachExactly(rows: Rows, s: Sync, items: seq<Item>)
    ensures OneRowEach(s, Fold(rows, s, items), items) <==> Apart(s, items)
  {
    hide Fold, Full;
    if Apart(s, items) {
      forall i | 0 <= i < |items|
        ensures (s.task, Full(s, items[i].id)) in Fold(rows, s, items) && (s.task, items[i].id) !in Fold(rows, s, items)
      {
        RowsLeftExactly(rows, s, items, Full(s, items[i].id));
        assert WrittenAt(s, items, Full(s, items[i].id), i);
        RowsLeftExactly(rows, s, items, items[i].id);
      }
    }
  }

  /** The ids the providers hand out: a kind, a colon and a number. */
  predicate Kind(k: string) { k == "issue_comment" || k == "review" || k == "review_comment" || k == "comment" }

  ghost predicate RealId(id: string) {
    exists k: string :: Kind(k) && k <= id
  }

  lemma RealIdsAreApart(s: Sync, items: seq<Item>)
    requires s.provider == "github" || s.provider == "gitcode"
    requires forall i :: 0 <= i < |items| ==> RealId(items[i].id)
    ensures Apart(s, items)
  {
    forall i, j | 0 <= i < |items| && 0 <= j < |items| ensures items[i].id != Full(s, items[j].id) {
      var k: string :| Kind(k) && k <= items[i].id;
      assert items[i].id[0] == k[0] != 'g';
      assert Full(s, items[j].id)[0] == 'g';
    }
  }

  // ---------------------------------------------------------------- marks and texts

  /** The marks an id has under either form. */
  function Selected(rows: Rows, s: Sync, id: string): Option<int> {
    var kept := Merged(rows, (s.task, Full(s, id)), (s.task, id));
    if kept.None? then None else kept.value.selected
  }

  function Processed(rows: Rows, s: Sync, id: string): Option<int> {
    var kept := Merged(rows, (s.task, Full(s, id)), (s.task, id));
    if kept.None? then None else kept.value.processed
  }

  /** One item changes neither its own marks nor, apart from collisions, those of any other id. */
  lemma UpsertKeepsMarks(rows: Rows, s: Sync, item: Item, id: string)
    requires item.id != Full(s, id) && id != Full(s, item.id)
    ensures Selected(Upserted(rows, s, item), s, id) == Selected(rows, s, id)
    ensures Processed(Upserted(rows, s, item), s, id) == Processed(rows, s, id)
  {
    FullIsInjective(s, item.id, id);
  }

  lemma {:induction false} FoldKeepsMarks(rows: Rows, s: Sync, items: seq<Item>, id: string)
    requires forall i :: 0 <= i < |items| ==> items[i].id != Full(s, id) && id != Full(s, items[i].id)
    ensures Selected(Fold(rows, s, items), s, id) == Selected(rows, s, id)
    ensures Processed(Fold(rows, s, items), s, id) == Processed(rows, s, id)
    decreases |items|
  {
    hide Selected, Processed, Upserted, Full;
    if items != [] {
      FoldKeepsMarks(rows, s, items[..|items| - 1], id);
      UpsertKeepsMarks(Fold(rows, s, items[..|items| - 1]), s, items[|items| - 1], id);
    }
  }

  /** The mark kept of two: there if either is, one of them, and no later than either. */
  predicate IsKeptOf(kept: Option<int>, a: Option<int>, b: Option<int>) {
    && (kept == None <==> a == None && b == None)
    && (kept == a || kept == b)
    && (a.Some? ==> kept.Some? && kept.value <= a.value)
    && (b.Some? ==> kept.Some? && kept.value <= b.value)
  }

  /** No selected or processed mark is lost: an item's row ends with the mark of its old rows if only one
      carries any, and with one of both that is no later than either if both do. It counts as created when
      the row under the full id was, else when the one under the bare id was, else now. */
  lemma EarliestMarksAreKept(rows: Rows, s: Sync, items: seq<Item>, i: nat)
    requires Apart(s, items) && i < |items|
    ensures var full, bare := (s.task, Full(s, items[i].id)), (s.task, items[i].id);
            && full in Fold(rows, s, items)
            && var row := Fold(rows, s, items)[full];
               var a := if full in rows then rows[full].selected else None;
               var b := if bare in rows then rows[bare].selected else None;
               var c := if full in rows then rows[full].processed else None;
               var d := if bare in rows then rows[bare].processed else None;
               && IsKeptOf(row.selected, a, b) && IsKeptOf(row.processed, c, d)
               && row.created == if full in rows then rows[full].created else if bare in rows then rows[bare].created else s.now
  {
    OneRowEachExactly(rows, s, items);
    FoldKeepsMarks(rows, s, items, items[i].id);
    FoldKeepsCreation(rows, s, items, items[i].id);
    hide Fold, Full;
  }

  function CreatedAt(rows: Rows, s: Sync, id: string): int {
    var kept := Merged(rows, (s.task, Full(s, id)), (s.task, id));
    if kept.None? then s.now else kept.value.created
  }

  lemma {:induction false} FoldKeepsCreation(rows: Rows, s: Sync, items: seq<Item>, id: string)
    requires forall i :: 0 <= i < |items| ==> items[i].id != Full(s, id) && id != Full(s, items[i].id)
    ensures CreatedAt(Fold(rows, s, items), s, id) == CreatedAt(rows, s, id)
    decreases |items|
  {
    hide CreatedAt, Upserted, Full;
    if items != [] {
      FoldKeepsCreation(rows, s, items[..|items| - 1], id);
      UpsertKeepsCreation(Fold(rows, s, items[..|items| - 1]), s, items[|items| - 1], id);
    }
  }

  lemma UpsertKeepsCreation(rows: Rows, s: Sync, item: Item, id: string)
    requires item.id != Full(s, id) && id != Full(s, item.id)
    ensures CreatedAt(Upserted(rows, s, item), s, id) == CreatedAt(rows, s, id)
  {
    FullIsInjective(s, item.id, id);
  }

  /** An item's row carries the text it came with last. */
  lemma {:induction false} LastTextIsKept(rows: Rows, s: Sync, items: seq<Item>, i: nat)
    requires Apart(s, items) && i < |items| && forall m :: i < m < |items| ==> items[m].id != items[i].id
    ensures var full := (s.task, Full(s, items[i].id));
            full in Fold(rows, s, items) && Fold(rows, s, items)[full].content == items[i].content
    decreases |items|
  {
    var front, x := items[..|items| - 1], items[|items| - 1];
    if i < |front| {
      assert forall k :: 0 <= k < |front| ==> items[k] == front[k];
      LastTextIsKept(rows, s, front, i);
      FullIsInjective(s, x.id, items[i].id);
      assert x.id != Full(s, items[i].id);
    }
  }

  // ---------------------------------------------------------------- doing it again

  function LastOf(items: seq<Item>, id: string): (k: nat)
    requires exists i :: 0 <= i < |items| && items[i].id == id
    ensures k < |items| && items[k].id == id && forall m :: k < m < |items| ==> items[m].id != id
    decreases |items|
  {
    var last := |items| - 1;
    if items[last].id == id then last
    else
      assert exists i :: 0 <= i < last && items[..last][i].id == id;
      LastOf(items[..last], id)
  }

  /** Where every item has its one row already, folding rewrites texts and nothing else. */
  lemma {:induction false} OnlyTextsChange(rows: Rows, s: Sync, items: seq<Item>)
    requires OneRowEach(s, rows, items)
    ensures var done := Fold(rows, s, items);
            done.Keys == rows.Keys && forall key :: key in rows ==> done[key] == rows[key].(content := done[key].content)
    decreases |items|
  {
    hide Full;
    if items != [] {
      var front, x := items[..|items| - 1], items[|items| - 1];
      OnlyTextsChange(rows, s, front);
      assert (s.task, Full(s, x.id)) in rows && (s.task, x.id) !in rows;
    }
  }

  /** A second synchronisation of the same items, at any later time, changes no row. */
  lemma SecondFoldChangesNothing(rows: Rows, s: Sync, items: seq<Item>, later: int)
    requires Apart(s, items)
    ensures Fold(Fold(rows, s, items), s.(now := later), items) == Fold(rows, s, items)
  {
    var s' := s.(now := later);
    var done := Fold(rows, s, items);
    var again := Fold(done, s', items);
    assert forall id :: Full(s', id) == Full(s, id);
    OneRowEachExactly(rows, s, items);
    OnlyTextsChange(done, s', items);
    forall key | key in done ensures again[key].content == done[key].content {
      if i :| 0 <= i < |items| && key == (s.task, Full(s, items[i].id)) {
        var k := LastOf(items, items[i].id);
        LastTextIsKept(rows, s, items, k);
        LastTextIsKept(done, s', items, k);
      } else {
        OtherRowsUnchanged(done, s', items, key);
      }
    }
  }
}
