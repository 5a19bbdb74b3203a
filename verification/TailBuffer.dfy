/** The bounded tail of a process's output, and the budget its two streams share. */
module TailBuffer {
  import opened Values

  function Tail(s: seq<byte>, limit: nat): seq<byte> {
    if |s| <= limit then s else s[|s| - limit..]
  }

  lemma TailOfTail(a: seq<byte>, b: seq<byte>, limit: nat)
    ensures Tail(Tail(a, limit) + b, limit) == Tail(a + b, limit)
  {
    if |a| > limit {
      assert a == a[..|a| - limit] + Tail(a, limit);
      assert a + b == a[..|a| - limit] + (Tail(a, limit) + b);
    }
  }

  class TailBuffer {
    const limit: nat
    var data: seq<byte>
    var truncated: bool
    /** Everything ever appended. */
    ghost var all: seq<byte>

    ghost predicate Valid() reads this {
      data == (if |all| <= limit then all else all[|all| - limit..]) && (truncated <==> |all| > limit)
    }

    constructor (limit: nat)
      ensures Valid() && all == [] && this.limit == limit
    {
      this.limit := limit;
      data := [];
      truncated := false;
      all := [];
    }

    /** The buffer holds exactly the last bytes of everything, and is marked exactly when some are gone. */
    method Append(chunk: seq<byte>)
      requires Valid()
      modifies this
      ensures Valid() && all == old(all) + chunk
    {
      TailOfTail(all, chunk, limit);
      all := all + chunk;
      if chunk == [] {
        assert old(all) + chunk == old(all);
        return;
      }
      if limit == 0 {
        truncated := true;
        return;
      }
      var rest := chunk;
      var overflow := |data| + |chunk| - limit;
      if overflow > 0 {
        truncated := true;
        if overflow >= |data| {
          data := [];
          rest := chunk[|chunk| - limit..];
        } else {
          data := data[overflow..];
        }
      }
      data := data + rest;
    }
  }

  function Concat(chunks: seq<seq<byte>>): seq<byte> {
    if chunks == [] then [] else Concat(chunks[..|chunks| - 1]) + chunks[|chunks| - 1]
  }

  class OutputBudget {
    const limit: nat
    var total: nat
    var exceeded: bool

    ghost predicate Valid() reads this { exceeded <==> total > limit }

    constructor (limit: nat)
      ensures Valid() && total == 0 && this.limit == limit
    {
      this.limit := limit;
      total := 0;
      exceeded := false;
    }

    method Consume(size: nat) returns (within: bool)
      requires Valid()
      modifies this
      ensures Valid() && total == old(total) + size
      ensures within <==> total <= limit
    {
      total := total + size;
      if total > limit {
        exceeded := true;
        return false;
      }
      return true;
    }
  }

  /** What the budget has seen once this stream's first `n` chunks and what the other stream read
      before each of them are counted. */
  function Spent(before: nat, chunks: seq<seq<byte>>, others: seq<nat>, n: nat): nat
    requires n <= |chunks| == |others|
  {
    if n == 0 then before else Spent(before, chunks, others, n - 1) + others[n - 1] + |chunks[n - 1]|
  }

  /** One stream read to its end, while the other one draws on the same budget between reads. Within
      the budget the result is the tail of the whole output; past it, of the chunks before. */
  method ReadOutput(chunks: seq<seq<byte>>, others: seq<nat>, limit: nat, budget: OutputBudget)
    returns (data: seq<byte>, truncated: bool, kept: nat)
    requires |chunks| == |others| && budget.Valid()
    modifies budget
    ensures budget.Valid()
    ensures kept <= |chunks|
    ensures var read := Concat(chunks[..kept]); data == if |read| <= limit then read else read[|read| - limit..]
    ensures forall n :: 1 <= n <= kept ==> Spent(old(budget.total), chunks, others, n) <= budget.limit
    ensures kept == |chunks| ==> budget.total == Spent(old(budget.total), chunks, others, kept)
                                 && (truncated <==> |Concat(chunks)| > limit)
    ensures kept < |chunks| ==> truncated && budget.exceeded
                                && Spent(old(budget.total), chunks, others, kept + 1) > budget.limit
  {
    var output := new TailBuffer(limit);
    kept := 0;
    assert chunks[..0] == [];
    while kept < |chunks|
      invariant kept <= |chunks| && budget.Valid() && output.Valid() && fresh(output) && output.limit == limit
      invariant output.all == Concat(chunks[..kept])
      invariant budget.total == Spent(old(budget.total), chunks, others, kept)
      invariant forall n :: 1 <= n <= kept ==> Spent(old(budget.total), chunks, others, n) <= budget.limit
    {
      var _ := budget.Consume(others[kept]);
      var within := budget.Consume(|chunks[kept]|);
      if !within {
        return output.data, true, kept;
      }
      output.Append(chunks[kept]);
      assert chunks[..kept + 1][..kept] == chunks[..kept];
      kept := kept + 1;
    }
    assert chunks[..|chunks|] == chunks;
    return output.data, output.truncated, kept;
  }

  /** What one stream keeps fits what the budget has seen. */
  lemma {:induction false} KeptFitsBudget(before: nat, chunks: seq<seq<byte>>, others: seq<nat>, n: nat)
    requires n <= |chunks| == |others|
    ensures before + |Concat(chunks[..n])| <= Spent(before, chunks, others, n)
  {
    if n > 0 {
      KeptFitsBudget(before, chunks, others, n - 1);
      assert chunks[..n][..n - 1] == chunks[..n - 1];
    } else {
      assert chunks[..0] == [];
    }
  }

  // ---------------------------------------------------------------- both streams

  /** One read, of the first stream or the second; a sequence of them is the order in which the two
      draw on their budget. */
  datatype Read = Read(second: bool, chunk: seq<byte>)

  function ChunksOf(order: seq<Read>, second: bool): seq<seq<byte>> {
    if order == [] then []
    else
      var last := order[|order| - 1];
      ChunksOf(order[..|order| - 1], second) + if last.second == second then [last.chunk] else []
  }

  /** What the other stream has read since this one last did. */
  function Between(order: seq<Read>, second: bool): nat {
    if order == [] || order[|order| - 1].second == second then 0
    else Between(order[..|order| - 1], second) + |order[|order| - 1].chunk|
  }

  function OthersOf(order: seq<Read>, second: bool): (others: seq<nat>)
    ensures |others| == |ChunksOf(order, second)|
  {
    if order == [] then []
    else
      var front := order[..|order| - 1];
      OthersOf(front, second) + if order[|order| - 1].second == second then [Between(front, second)] else []
  }

  function TotalRead(order: seq<Read>): nat {
    if order == [] then 0 else TotalRead(order[..|order| - 1]) + |order[|order| - 1].chunk|
  }

  lemma {:induction false} SpentOfPrefix(before: nat, chunks: seq<seq<byte>>, others: seq<nat>, c: seq<byte>, o: nat, n: nat)
    requires n <= |chunks| == |others|
    ensures Spent(before, chunks + [c], others + [o], n) == Spent(before, chunks, others, n)
  {
    if n > 0 {
      SpentOfPrefix(before, chunks, others, c, o, n - 1);
    }
  }

  lemma SpentOneMore(before: nat, chunks: seq<seq<byte>>, others: seq<nat>, c: seq<byte>, o: nat)
    requires |chunks| == |others|
    ensures Spent(before, chunks + [c], others + [o], |chunks| + 1) == Spent(before, chunks, others, |chunks|) + o + |c|
  {
    SpentOfPrefix(before, chunks, others, c, o, |chunks|);
  }

  lemma ConcatOneMore(chunks: seq<seq<byte>>, c: seq<byte>)
    ensures Concat(chunks + [c]) == Concat(chunks) + c
  {
    assert (chunks + [c])[..|chunks|] == chunks;
  }

  lemma OwnRead(order: seq<Read>, second: bool)
    requires order != []
    ensures var front, last := order[..|order| - 1], order[|order| - 1];
            if last.second == second then
              ChunksOf(order, second) == ChunksOf(front, second) + [last.chunk]
              && OthersOf(order, second) == OthersOf(front, second) + [Between(front, second)]
            else ChunksOf(order, second) == ChunksOf(front, second) && OthersOf(order, second) == OthersOf(front, second)
  {
  }

  /** Seen from either stream, the budget has counted every read. */
  lemma {:induction false} SpentIsTotal(order: seq<Read>, second: bool)
    ensures Spent(0, ChunksOf(order, second), OthersOf(order, second), |ChunksOf(order, second)|) + Between(order, second)
            == TotalRead(order)
    decreases |order|
  {
    if order != [] {
      var front, last := order[..|order| - 1], order[|order| - 1];
      SpentIsTotal(front, second);
      OwnRead(order, second);
      hide ChunksOf, OthersOf, Spent;
      if last.second == second {
        SpentOneMore(0, ChunksOf(front, second), OthersOf(front, second), last.chunk, Between(front, second));
      }
    }
  }

  lemma {:induction false} AllBytes(order: seq<Read>)
    ensures |Concat(ChunksOf(order, false))| + |Concat(ChunksOf(order, true))| == TotalRead(order)
    decreases |order|
  {
    if order != [] {
      var front, last := order[..|order| - 1], order[|order| - 1];
      AllBytes(front);
      OwnRead(order, false);
      OwnRead(order, true);
      ConcatOneMore(ChunksOf(front, last.second), last.chunk);
      hide ChunksOf, Concat;
    }
  }

  lemma {:induction false} ConcatGrows(chunks: seq<seq<byte>>, n: nat)
    requires n <= |chunks|
    ensures |Concat(chunks[..n])| <= |Concat(chunks)|
    decreases |chunks|
  {
    if n < |chunks| {
      assert chunks[..|chunks| - 1][..n] == chunks[..n];
      ConcatGrows(chunks[..|chunks| - 1], n);
    } else {
      assert chunks[..n] == chunks;
    }
  }

  /** A stream keeps its first `n` chunks of these order. */
  ghost predicate Keeps(order: seq<Read>, second: bool, n: nat, limit: nat) {
    n <= |ChunksOf(order, second)| && (n > 0 ==> Spent(0, ChunksOf(order, second), OthersOf(order, second), n) <= limit)
  }

  lemma KeepsOfFront(order: seq<Read>, second: bool, n: nat, limit: nat)
    requires order != [] && Keeps(order, second, n, limit) && n <= |ChunksOf(order[..|order| - 1], second)|
    ensures Keeps(order[..|order| - 1], second, n, limit)
    ensures ChunksOf(order, second)[..n] == ChunksOf(order[..|order| - 1], second)[..n]
  {
    var front, last := order[..|order| - 1], order[|order| - 1];
    OwnRead(order, second);
    hide ChunksOf, OthersOf, Spent, Between;
    SpentOfPrefix(0, ChunksOf(front, second), OthersOf(front, second), last.chunk, Between(front, second), n);
  }

  /** However the two streams take turns, what they keep together fits the budget: `a` and `b` are the
      numbers of chunks that reading either one within the budget may keep. */
  lemma {:induction false} BothFitBudget(order: seq<Read>, a: nat, b: nat, limit: nat)
    requires Keeps(order, false, a, limit) && Keeps(order, true, b, limit)
    ensures |Concat(ChunksOf(order, false)[..a])| + |Concat(ChunksOf(order, true)[..b])| <= limit
    decreases |order|
  {
    if order == [] {
      assert ChunksOf(order, false)[..a] == [] && ChunksOf(order, true)[..b] == [];
    } else {
      var front, last := order[..|order| - 1], order[|order| - 1];
      var n := if last.second then b else a;
      if n == |ChunksOf(order, last.second)| {
        SpentIsTotal(order, last.second);
        AllBytes(order);
        ConcatGrows(ChunksOf(order, false), a);
        ConcatGrows(ChunksOf(order, true), b);
      } else {
        KeepsOfFront(order, false, a, limit);
        KeepsOfFront(order, true, b, limit);
        BothFitBudget(front, a, b, limit);
      }
    }
  }
}
