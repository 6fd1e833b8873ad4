/** `internal/pkg/lox/iter.go`: the `Index` and `Chunk` iterators, over a
    finite input sequence. A consumer is modelled by what it answers to each
    value it is given, knowing every value given before: `consumer(h)` is the
    answer `yield` returns when `h` is the whole history so far, the current
    value last. */
module LoxIter {
  /** What a consumer receives of `xs` after `before` was given and accepted:
      the values in order, up to and including the first it refuses. */
  function Deliver<X>(before: seq<X>, xs: seq<X>, consumer: seq<X> -> bool): seq<X>
    decreases |xs|
  {
    if xs == [] then before
    else if !consumer(before + [xs[0]]) then before + [xs[0]]
    else Deliver(before + [xs[0]], xs[1..], consumer)
  }

  /** What a consumer receives of `xs`. */
  function Delivered<X>(xs: seq<X>, consumer: seq<X> -> bool): seq<X> {
    Deliver([], xs, consumer)
  }

  /** A consumer receives a prefix of the values; every value but the last it
      accepted, and it receives fewer than all only after refusing the last
      one it got. */
  lemma {:induction false} DeliverPrefix<X>(before: seq<X>, xs: seq<X>, consumer: seq<X> -> bool)
    ensures var d := Deliver(before, xs, consumer);
      |before| <= |d| <= |before| + |xs| && d == (before + xs)[..|d|]
      && (forall k :: |before| < k < |d| ==> consumer(d[..k]))
      && (|d| < |before| + |xs| ==> |d| > |before| && !consumer(d))
    decreases |xs|
  {
    if xs != [] {
      var b := before + [xs[0]];
      assert b + xs[1..] == before + xs;
      if consumer(b) {
        DeliverPrefix(b, xs[1..], consumer);
        var d := Deliver(b, xs[1..], consumer);
        assert d[..|b|] == (b + xs[1..])[..|b|] == b;
        assert consumer(d[..|b|]);
      }
    }
  }

  /** A consumer that never refuses receives everything. */
  lemma {:induction false} DeliverAll<X>(before: seq<X>, xs: seq<X>, consumer: seq<X> -> bool)
    requires forall h :: consumer(h)
    ensures Deliver(before, xs, consumer) == before + xs
    decreases |xs|
  {
    if xs != [] {
      assert (before + [xs[0]]) + xs[1..] == before + xs;
      DeliverAll(before + [xs[0]], xs[1..], consumer);
    } else {
      assert before + xs == before;
    }
  }

  // ---------------------------------------------------------------------
  // Index

  /** Every item with its position. */
  function IndexPairs<T>(items: seq<T>): (ps: seq<(int, T)>)
    ensures |ps| == |items| && forall k :: 0 <= k < |items| ==> ps[k] == (k, items[k])
  {
    seq(|items|, k requires 0 <= k < |items| => (k, items[k]))
  }

  /** `Index`: the items with their positions 0, 1, 2, ..., in order, until
      the consumer refuses one. */
  method Index<T>(items: seq<T>, consumer: seq<(int, T)> -> bool) returns (yielded: seq<(int, T)>)
    ensures yielded == Delivered(IndexPairs(items), consumer)
  {
    var pairs := IndexPairs(items);
    yielded := [];
    var i := 0;
    while i < |items|
      invariant 0 <= i <= |items|
      invariant Deliver(yielded, pairs[i..], consumer) == Delivered(pairs, consumer)
    {
      assert pairs[i..][0] == (i, items[i]) && pairs[i..][1..] == pairs[i + 1..];
      yielded := yielded + [(i, items[i])];
      if !consumer(yielded) {
        return;
      }
      i := i + 1;
    }
  }

  // ---------------------------------------------------------------------
  // Chunk

  /** The chunks `Chunk` makes of `items` when the batch being filled already
      holds `batch`: a batch is given once it holds `size` items, and what is
      left at the end is given if it is not empty. */
  function ChunksFrom<T>(items: seq<T>, size: nat, batch: seq<T>): seq<seq<T>>
    decreases |items|
  {
    if items == [] then (if batch == [] then [] else [batch])
    else
      var b := batch + [items[0]];
      if |b| == size then [b] + ChunksFrom(items[1..], size, []) else ChunksFrom(items[1..], size, b)
  }

  /** The chunks of `items`. */
  function Chunks<T>(items: seq<T>, size: nat): seq<seq<T>> {
    ChunksFrom(items, size, [])
  }

  /** The concatenation of some chunks. */
  function Concat<T>(cs: seq<seq<T>>): seq<T> {
    if cs == [] then [] else cs[0] + Concat(cs[1..])
  }

  /** The chunks put back together are the input. */
  lemma {:induction false} ChunksConcat<T>(items: seq<T>, size: nat, batch: seq<T>)
    ensures Concat(ChunksFrom(items, size, batch)) == batch + items
    decreases |items|
  {
    if items == [] {
      assert batch + items == batch;
      if batch != [] {
        assert [batch][1..] == [];
        assert batch + [] == batch;
      }
    } else {
      var b := batch + [items[0]];
      assert b + items[1..] == batch + items;
      ChunksConcat(items[1..], size, if |b| == size then [] else b);
      if |b| == size {
        var cs := [b] + ChunksFrom(items[1..], size, []);
        assert cs[1..] == ChunksFrom(items[1..], size, []);
        assert [] + items[1..] == items[1..];
      }
    }
  }

  /** With a positive size every chunk is non-empty, every chunk but the last
      holds exactly `size` items, and the last at most `size`. */
  lemma {:induction false} ChunksSizes<T>(items: seq<T>, size: nat, batch: seq<T>)
    requires size > 0 && |batch| < size
    ensures var cs := ChunksFrom(items, size, batch);
      (forall k :: 0 <= k < |cs| ==> 0 < |cs[k]| <= size)
      && (forall k :: 0 <= k < |cs| - 1 ==> |cs[k]| == size)
    decreases |items|
  {
    if items != [] {
      var b := batch + [items[0]];
      if |b| == size {
        ChunksSizes(items[1..], size, []);
        var cs := [b] + ChunksFrom(items[1..], size, []);
        assert forall k :: 0 < k < |cs| ==> cs[k] == ChunksFrom(items[1..], size, [])[k - 1];
      } else {
        ChunksSizes(items[1..], size, b);
        assert ChunksFrom(items, size, batch) == ChunksFrom(items[1..], size, b);
      }
    }
  }

  /** An empty input gives no chunks. */
  lemma NoItemsNoChunks<T>(items: seq<T>, size: nat)
    ensures Chunks(items, size) == [] <==> items == []
  {
    ChunksConcat(items, size, []);
    assert [] + items == items;
  }

  /** `Chunk`: the chunks in order, until the consumer refuses one; the last,
      partial chunk is given whatever the consumer answers. The source panics
      on a negative size, so the size is a natural number here. */
  method Chunk<T>(size: nat, items: seq<T>, consumer: seq<seq<T>> -> bool) returns (yielded: seq<seq<T>>)
    ensures yielded == Delivered(Chunks(items, size), consumer)
  {
    yielded := [];
    var batch: seq<T> := [];
    var i := 0;
    while i < |items|
      invariant 0 <= i <= |items|
      invariant Deliver(yielded, ChunksFrom(items[i..], size, batch), consumer) == Delivered(Chunks(items, size), consumer)
    {
      assert items[i..][0] == items[i] && items[i..][1..] == items[i + 1..];
      batch := batch + [items[i]];
      if |batch| == size {
        yielded := yielded + [batch];
        if !consumer(yielded) {
          return;
        }
        batch := [];
      }
      i := i + 1;
    }
    assert items[i..] == [];
    if |batch| > 0 {
      yielded := yielded + [batch];
    }
  }
}
