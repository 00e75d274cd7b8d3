/**
  Densification of canonical ranges: a range becomes dense only when its stored headers form one chain from
  the predecessor to the endpoint, and there is only one such chain.
 */
module Lineage {
  import opened Prelude

  type Hash = nat

  datatype Block = Block(hash: Hash, parent: Hash, timestamp: nat)

  type Blocks = map<nat, Block>

  datatype LineageError = MissingBlock(number: nat) | LineageConflict(number: nat) | EndpointMismatch

  /** Every block of the range is there, each the child of the one before. */
  ghost predicate Chained(first: nat, last: int, predecessor: Option<Hash>, blocks: Blocks) {
    forall n: nat :: first <= n <= last ==>
      n in blocks
      && (n > first ==> n - 1 in blocks && blocks[n].parent == blocks[n - 1].hash)
      && (n == first && predecessor.Some? ==> blocks[n].parent == predecessor.value)
  }

  /** An empty range must end where it starts. */
  predicate EndsAt(first: nat, last: int, predecessor: Option<Hash>, endpoint: Hash, blocks: Blocks) {
    if first <= last then last in blocks && blocks[last].hash == endpoint else predecessor == Some(endpoint)
  }

  ghost predicate DenseLineage(first: nat, last: int, predecessor: Option<Hash>, endpoint: Hash, blocks: Blocks) {
    Chained(first, last, predecessor, blocks) && EndsAt(first, last, predecessor, endpoint, blocks)
  }

  /** Accepts exactly the block maps that form one chain from the predecessor to the endpoint. */
  method ValidateDenseLineage(first: nat, last: int, predecessor: Option<Hash>, endpoint: Hash, blocks: Blocks)
    returns (error: Option<LineageError>)
    ensures error.None? <==> DenseLineage(first, last, predecessor, endpoint, blocks)
    ensures match error
            case None => true
            case Some(MissingBlock(n)) => first <= n <= last && n !in blocks && Chained(first, n - 1, predecessor, blocks)
            case Some(LineageConflict(n)) =>
              && first <= n <= last && n in blocks && Chained(first, n - 1, predecessor, blocks)
              && if n == first then Some(blocks[n].parent) != predecessor
                 else n - 1 in blocks && blocks[n].parent != blocks[n - 1].hash
            case Some(EndpointMismatch) =>
              Chained(first, last, predecessor, blocks) && !EndsAt(first, last, predecessor, endpoint, blocks)
  {
    var previous := predecessor;
    var number := first;
    while number <= last
      invariant first <= number && (number <= last + 1 || number == first)
      invariant Chained(first, number - 1, predecessor, blocks)
      invariant previous == if number == first then predecessor
                            else if number - 1 in blocks then Some(blocks[number - 1].hash) else None
      decreases last + 1 - number
    {
      if number !in blocks { return Some(MissingBlock(number)); }
      var block := blocks[number];
      if previous.Some? && block.parent != previous.value {
        return Some(LineageConflict(number));
      }
      previous := Some(block.hash);
      number := number + 1;
    }
    if previous != Some(endpoint) { return Some(EndpointMismatch); }
    error := None;
  }

  /** A hash covers the whole header, so it determines the parent. */
  ghost predicate HashesDetermineParents(a: Blocks, b: Blocks) {
    forall m, n :: m in a && n in b && a[m].hash == b[n].hash ==> a[m].parent == b[n].parent
  }

  /** Lineages of adjoining ranges join, and one lineage splits at every block of it. */
  lemma LineagesJoin(first: nat, middle: nat, last: nat, predecessor: Option<Hash>, endpoint: Hash, blocks: Blocks)
    requires first <= middle <= last
    ensures DenseLineage(first, last, predecessor, endpoint, blocks)
            <==> && middle in blocks
                 && DenseLineage(first, middle, predecessor, blocks[middle].hash, blocks)
                 && DenseLineage(middle + 1, last, Some(blocks[middle].hash), endpoint, blocks)
  {
  }

  /** There is one lineage: two block maps accepted for the same range and endpoint have the same hashes. */
  lemma {:induction false} LineageIsUnique(first: nat, last: nat, p: Option<Hash>, q: Option<Hash>, endpoint: Hash,
                                           a: Blocks, b: Blocks, n: nat)
    requires first <= n <= last
    requires DenseLineage(first, last, p, endpoint, a) && DenseLineage(first, last, q, endpoint, b)
    requires HashesDetermineParents(a, b)
    ensures n in a && n in b && a[n].hash == b[n].hash && a[n].parent == b[n].parent
    decreases last - n
  {
    if n < last {
      LineageIsUnique(first, last, p, q, endpoint, a, b, n + 1);
    }
  }

  // ---------------------------------------------------------------- promotion

  datatype Mode = Sparse | Dense

  datatype Range = Range(first: nat, last: nat, predecessor: Option<Hash>, endpoint: Hash, mode: Mode)

  datatype DensifyError =
    | EndpointNotLive | BlockUnavailable | RangeChanged | StoredEndpointChanged | Broken(lineage: LineageError)

  /** Insertion that leaves existing rows alone. */
  function Inserted(stored: Blocks, fetched: Blocks): Blocks {
    map n | n in stored.Keys + fetched.Keys :: if n in stored then stored[n] else fetched[n]
  }

  function Slice(blocks: Blocks, first: nat, last: nat): Blocks {
    map n | n in blocks && first <= n <= last :: blocks[n]
  }

  function Missing(blocks: Blocks, first: nat, last: int): set<nat> { set n: nat | first <= n <= last && n !in blocks }

  /** Rows that are kept keep their lineages. */
  lemma KeptRowsKeepLineage(r: Range, a: Blocks, b: Blocks)
    requires DenseLineage(r.first, r.last, r.predecessor, r.endpoint, a)
    requires forall n :: n in a ==> n in b && b[n] == a[n]
    ensures DenseLineage(r.first, r.last, r.predecessor, r.endpoint, b)
  {
    forall n: nat | r.first <= n <= r.last
      ensures n in b && (n > r.first ==> n - 1 in b && b[n].parent == b[n - 1].hash)
    {
      assert n in a;
    }
  }

  lemma SliceLineage(r: Range, blocks: Blocks)
    requires DenseLineage(r.first, r.last, r.predecessor, r.endpoint, Slice(blocks, r.first, r.last))
    ensures DenseLineage(r.first, r.last, r.predecessor, r.endpoint, blocks)
  {
    KeptRowsKeepLineage(r, Slice(blocks, r.first, r.last), blocks);
  }

  ghost predicate DenseRangesHold(ranges: seq<Range>, blocks: Blocks) {
    forall i :: 0 <= i < |ranges| && ranges[i].mode == Dense ==>
      DenseLineage(ranges[i].first, ranges[i].last, ranges[i].predecessor, ranges[i].endpoint, blocks)
  }

  /** A range as it was stored, its gaps filled from the live headers. */
  function Completed(r: Range, stored: Blocks, live: Blocks): Blocks {
    map n: nat | r.first <= n <= r.last && (n in stored || n in live) :: if n in stored then stored[n] else live[n]
  }

  /** What is stored by now, with the headers that were missing and fetched added where there is still none. */
  function Filled(r: Range, stored: Blocks, live: Blocks, meanwhile: Blocks): Blocks {
    map n | n in meanwhile.Keys + (set m: nat | r.first <= m <= r.last && m !in stored && m in live) ::
      if n in meanwhile then meanwhile[n] else live[n]
  }

  lemma GapsAreFetched(r: Range, stored: Blocks, live: Blocks, meanwhile: Blocks, seen: Blocks, fetched: Blocks)
    requires seen == Slice(stored, r.first, r.last)
    requires Missing(seen, r.first, r.last) <= live.Keys
    requires fetched == map n | n in Missing(seen, r.first, r.last) :: live[n]
    ensures Inserted(seen, fetched) == Completed(r, stored, live)
    ensures Inserted(meanwhile, fetched) == Filled(r, stored, live, meanwhile)
    ensures forall n: nat :: r.first <= n <= r.last && n !in stored ==> n in live
  {
    forall n: nat | r.first <= n <= r.last && n !in stored ensures n in live { assert n in Missing(seen, r.first, r.last); }
  }

  lemma KeptIn(blocks: Blocks, fetched: Blocks)
    ensures forall n :: n in blocks ==> n in Inserted(blocks, fetched) && Inserted(blocks, fetched)[n] == blocks[n]
  {
  }

  /** Adding rows keeps every dense range dense. */
  lemma KeepDense(ranges: seq<Range>, blocks: Blocks, more: Blocks)
    requires DenseRangesHold(ranges, blocks)
    requires forall n :: n in blocks ==> n in more && more[n] == blocks[n]
    ensures DenseRangesHold(ranges, more)
  {
    hide DenseLineage;
    forall j | 0 <= j < |ranges| && ranges[j].mode == Dense { KeptRowsKeepLineage(ranges[j], blocks, more); }
  }

  lemma OneMoreDense(ranges: seq<Range>, blocks: Blocks, i: nat)
    requires DenseRangesHold(ranges, blocks) && i < |ranges|
    requires DenseLineage(ranges[i].first, ranges[i].last, ranges[i].predecessor, ranges[i].endpoint, blocks)
    ensures DenseRangesHold(ranges[i := ranges[i].(mode := Dense)], blocks)
  {
    hide DenseLineage;
  }

  class CanonicalStore {
    var blocks: Blocks
    var ranges: seq<Range>

    constructor (initial: Blocks, sparse: seq<Range>)
      requires forall i :: 0 <= i < |sparse| ==> sparse[i].mode == Sparse
      ensures DenseRangesHold(ranges, blocks) && blocks == initial && ranges == sparse
    {
      blocks, ranges := initial, sparse;
    }

    /**
      Densify one sparse range. live holds the headers fetched for the missing numbers; before and after are the
      live endpoint hashes read around the fetch; meanwhile is what is stored when the transaction begins.
     */
    method Densify(i: nat, live: Blocks, before: Hash, after: Hash, meanwhile: Blocks) returns (error: Option<DensifyError>)
      requires i < |ranges| && ranges[i].mode == Sparse
      requires DenseRangesHold(ranges, meanwhile)
      modifies this
      ensures DenseRangesHold(ranges, blocks)
      ensures forall n :: n in meanwhile ==> n in blocks && blocks[n] == meanwhile[n]
      ensures error.Some? ==> blocks == meanwhile && ranges == old(ranges)
      ensures error.None? ==> ranges == old(ranges)[i := old(ranges)[i].(mode := Dense)]
      ensures error.None? ==>
                var r := old(ranges)[i]; DenseLineage(r.first, r.last, r.predecessor, r.endpoint, blocks)
      ensures error.None? ==> before == after == old(ranges)[i].endpoint
      ensures var r := old(ranges)[i];
              error.None? <==>
                && before == r.endpoint && after == r.endpoint
                && (forall n: nat :: r.first <= n <= r.last && n !in old(blocks) ==> n in live)
                && DenseLineage(r.first, r.last, r.predecessor, r.endpoint, Completed(r, old(blocks), live))
                && r.last in meanwhile && meanwhile[r.last].hash == r.endpoint
                && DenseLineage(r.first, r.last, r.predecessor, r.endpoint, Slice(Filled(r, old(blocks), live, meanwhile), r.first, r.last))
      ensures error.None? ==> blocks == Filled(old(ranges)[i], old(blocks), live, meanwhile)
    {
      var r := ranges[i];
      var seen := Slice(blocks, r.first, r.last);
      blocks := meanwhile;
      if before != r.endpoint { return Some(EndpointNotLive); }
      var missing := Missing(seen, r.first, r.last);
      if !(missing <= live.Keys) { return Some(BlockUnavailable); }
      var fetched := map n | n in missing :: live[n];
      GapsAreFetched(r, old(blocks), live, meanwhile, seen, fetched);
      hide Inserted, Completed, Filled, DenseLineage, Slice, DenseRangesHold;
      KeptIn(blocks, fetched);
      KeepDense(ranges, blocks, Inserted(blocks, fetched));
      var gathered := ValidateDenseLineage(r.first, r.last, r.predecessor, r.endpoint, Inserted(seen, fetched));
      if gathered.Some? { return Some(Broken(gathered.value)); }
      if after != before { return Some(RangeChanged); }
      if r.last !in blocks || blocks[r.last].hash != r.endpoint { return Some(StoredEndpointChanged); }
      var inserted := Inserted(blocks, fetched);
      var stored := ValidateDenseLineage(r.first, r.last, r.predecessor, r.endpoint, Slice(inserted, r.first, r.last));
      if stored.Some? { return Some(Broken(stored.value)); }
      SliceLineage(r, inserted);
      OneMoreDense(ranges, inserted, i);
      blocks := inserted;
      ranges := ranges[i := r.(mode := Dense)];
      return None;
    }
  }

  // ---------------------------------------------------------------- concurrent fetching

  /** A worker is idle, waits for the result of an index, or has left the loop. */
  datatype Worker = Idle | Fetching(index: nat) | Finished

  datatype Pool = Pool(cursor: nat, workers: seq<Worker>, output: seq<Option<nat>>, claimed: seq<nat>)

  datatype Turn = Claim(w: nat) | Deliver(w: nat)

  predicate MayTurn(p: Pool, inputs: seq<nat>, t: Turn) {
    t.w < |p.workers| && if t.Claim? then p.workers[t.w].Idle? else p.workers[t.w].Fetching?
  }

  /** An idle worker takes the next index or leaves; a waiting one stores what the fetch returned. */
  function Turned(p: Pool, inputs: seq<nat>, f: nat -> nat, t: Turn): Pool
    requires MayTurn(p, inputs, t)
  {
    match t
    case Claim(w) =>
      if p.cursor < |inputs| then
        p.(cursor := p.cursor + 1, workers := p.workers[w := Fetching(p.cursor)], claimed := p.claimed + [p.cursor])
      else p.(workers := p.workers[w := Finished])
    case Deliver(w) =>
      var index := p.workers[w].index;
      if index < |p.output| && index < |inputs| then
        p.(workers := p.workers[w := Idle], output := p.output[index := Some(f(inputs[index]))])
      else p
  }

  function Fetched(inputs: seq<nat>, concurrency: nat, f: nat -> nat, turns: seq<Turn>): Option<Pool> {
    if turns == [] then
      Some(Pool(0, seq(Min(concurrency, |inputs|) as nat, i => Idle), seq(|inputs|, i => None), []))
    else
      var before := Fetched(inputs, concurrency, f, turns[..|turns| - 1]);
      if before.Some? && MayTurn(before.value, inputs, turns[|turns| - 1])
      then Some(Turned(before.value, inputs, f, turns[|turns| - 1])) else None
  }

  ghost predicate PoolOk(p: Pool, inputs: seq<nat>, f: nat -> nat) {
    && p.cursor <= |inputs| == |p.output| && p.claimed == seq(p.cursor, i => i)
    && (forall w :: 0 <= w < |p.workers| ==>
          match p.workers[w]
          case Fetching(index) => index < p.cursor && p.output[index].None?
          case Finished => p.cursor == |inputs|
          case Idle => true)
    && (forall w, v :: 0 <= w < v < |p.workers| && p.workers[w].Fetching? && p.workers[v].Fetching? ==>
          p.workers[w].index != p.workers[v].index)
    && (forall i :: p.cursor <= i < |inputs| ==> p.output[i].None?)
    && (forall i :: 0 <= i < p.cursor ==> p.output[i] == Some(f(inputs[i])) || Fetching(i) in p.workers)
  }

  lemma TurnKeepsPool(p: Pool, inputs: seq<nat>, f: nat -> nat, t: Turn)
    requires PoolOk(p, inputs, f) && MayTurn(p, inputs, t)
    ensures PoolOk(Turned(p, inputs, f, t), inputs, f)
  {
    var q := Turned(p, inputs, f, t);
    forall w | 0 <= w < |p.workers| && w != t.w && p.workers[w].Fetching? && t.Deliver?
      ensures p.workers[w].index != p.workers[t.w].index
    {
    }
    forall i | 0 <= i < q.cursor ensures q.output[i] == Some(f(inputs[i])) || Fetching(i) in q.workers {
      if t.Claim? && i == p.cursor {
        assert q.workers[t.w] == Fetching(i);
      } else if p.output[i] != Some(f(inputs[i])) {
        var w :| 0 <= w < |p.workers| && p.workers[w] == Fetching(i);
        if w != t.w { assert q.workers[w] == Fetching(i); }
      }
    }
  }

  lemma {:induction false} PoolAlwaysOk(inputs: seq<nat>, concurrency: nat, f: nat -> nat, turns: seq<Turn>)
    requires Fetched(inputs, concurrency, f, turns).Some?
    ensures PoolOk(Fetched(inputs, concurrency, f, turns).value, inputs, f)
    ensures |Fetched(inputs, concurrency, f, turns).value.workers| == Min(concurrency, |inputs|)
  {
    if turns != [] {
      PoolAlwaysOk(inputs, concurrency, f, turns[..|turns| - 1]);
      TurnKeepsPool(Fetched(inputs, concurrency, f, turns[..|turns| - 1]).value, inputs, f, turns[|turns| - 1]);
    }
  }

  /** When every worker has left, in whatever order they ran, each input was claimed once and mapped to its place. */
  lemma MapConcurrentIsMap(inputs: seq<nat>, concurrency: nat, f: nat -> nat, turns: seq<Turn>)
    requires concurrency > 0 && Fetched(inputs, concurrency, f, turns).Some?
    requires forall w :: w in Fetched(inputs, concurrency, f, turns).value.workers ==> w.Finished?
    ensures var p := Fetched(inputs, concurrency, f, turns).value;
            && p.claimed == seq(|inputs|, i => i)
            && |p.output| == |inputs| && forall i :: 0 <= i < |inputs| ==> p.output[i] == Some(f(inputs[i]))
  {
    PoolAlwaysOk(inputs, concurrency, f, turns);
    var p := Fetched(inputs, concurrency, f, turns).value;
    if inputs != [] { assert p.workers[0].Finished?; }
  }
}
