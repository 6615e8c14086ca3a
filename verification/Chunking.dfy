/** backend/src/config/queue.js: splitting a job's ids into queue jobs. */
module Chunking {
  import opened Collections

  /** Transaction ids per queue job. */
  const CHUNK_SIZE: nat := 100

  function Flatten<T>(pieces: seq<seq<T>>): seq<T> {
    if pieces == [] then [] else pieces[0] + Flatten(pieces[1..])
  }

  /** The pieces of `items`, every one full except possibly the last. */
  function Chunks<T>(items: seq<T>, size: nat): seq<seq<T>>
    requires size > 0
  {
    if items == [] then []
    else if |items| <= size then [items]
    else [items[..size]] + Chunks(items[size..], size)
  }

  /** Index of the end of the slice `items.slice(i, i + size)`: slicing clamps. */
  function SliceEnd(n: nat, i: nat, size: nat): nat {
    if i + size <= n then i + size else n
  }

  lemma PeelPiece<T>(items: seq<T>, i: nat, size: nat)
    requires size > 0 && i < |items|
    ensures var end := SliceEnd(|items|, i, size);
            i <= end && Chunks(items[i..], size) == [items[i..end]] + Chunks(items[end..], size)
  {
    var rest := items[i..];
    if |rest| <= size {
      assert items[|items|..] == [];
      assert rest == items[i..|items|];
    } else {
      assert rest[..size] == items[i..i + size];
      assert rest[size..] == items[i + size..];
    }
  }

  /** `chunk`: an index loop pushing slices. */
  method ChunkLoop<T>(items: seq<T>, size: nat) returns (out: seq<seq<T>>)
    requires size > 0
    ensures out == Chunks(items, size)
  {
    out := [];
    var i := 0;
    while i < |items|
      invariant 0 <= i
      invariant Chunks(items, size) == out + Chunks(items[if i <= |items| then i else |items|..], size)
      decreases |items| - i
    {
      var end := SliceEnd(|items|, i, size);
      PeelPiece(items, i, size);
      ghost var left := Chunks(items[end..], size);
      assert out + ([items[i..end]] + left) == (out + [items[i..end]]) + left;
      out := out + [items[i..end]];
      i := i + size;
    }
    assert out + [] == out;
  }

  lemma FlattenCons<T>(piece: seq<T>, pieces: seq<seq<T>>)
    ensures Flatten([piece] + pieces) == piece + Flatten(pieces)
  {
    assert ([piece] + pieces)[1..] == pieces;
  }

  lemma {:induction false} ChunksConcatenate<T>(items: seq<T>, size: nat)
    requires size > 0
    ensures Flatten(Chunks(items, size)) == items
  {
    if |items| > size {
      ChunksConcatenate(items[size..], size);
      FlattenCons(items[..size], Chunks(items[size..], size));
      assert items == items[..size] + items[size..];
    } else if items != [] {
      FlattenCons(items, []);
      assert [items] + [] == [items] && items + [] == items;
    }
  }

  lemma {:induction false} ChunksAreFull<T>(items: seq<T>, size: nat)
    requires size > 0
    ensures forall p :: p in Chunks(items, size) ==> 0 < |p| <= size
    ensures forall k :: 0 <= k < |Chunks(items, size)| - 1 ==> |Chunks(items, size)[k]| == size
  {
    if |items| > size {
      var rest, cs := Chunks(items[size..], size), Chunks(items, size);
      ChunksAreFull(items[size..], size);
      assert cs == [items[..size]] + rest;
      forall k | 0 <= k < |cs| - 1 ensures |cs[k]| == size {
        if k > 0 { assert cs[k] == rest[k - 1]; }
      }
    }
  }

  lemma Distribute(m: int, size: int)
    ensures (m + 1) * size == m * size + size && (m - 1) * size == m * size - size
  {
  }

  lemma {:induction false} ChunksCount<T>(items: seq<T>, size: nat)
    requires size > 0
    ensures var k := |Chunks(items, size)|;
            if items == [] then k == 0 else (k - 1) * size < |items| <= k * size
  {
    if |items| > size {
      ChunksCount(items[size..], size);
      Distribute(|Chunks(items[size..], size)|, size);
    }
  }

  /** The pieces put end to end are the list; none is empty or over-full; there
      are ceil(n / size) of them. */
  lemma ChunksPartition<T>(items: seq<T>, size: nat)
    requires size > 0
    ensures Flatten(Chunks(items, size)) == items
    ensures var k := |Chunks(items, size)|;
            if items == [] then k == 0 else (k - 1) * size < |items| <= k * size
    ensures forall p :: p in Chunks(items, size) ==> 0 < |p| <= size
    ensures forall k :: 0 <= k < |Chunks(items, size)| - 1 ==> |Chunks(items, size)[k]| == size
  {
    ChunksConcatenate(items, size);
    ChunksCount(items, size);
    ChunksAreFull(items, size);
  }

  lemma PartsOfDistinct<T>(head: seq<T>, tail: seq<T>)
    requires NoDuplicates(head + tail)
    ensures NoDuplicates(head) && NoDuplicates(tail) && Elements(head) !! Elements(tail)
  {
    var flat := head + tail;
    forall i, j | 0 <= i < j < |head| ensures head[i] != head[j] {
      assert flat[i] == head[i] && flat[j] == head[j];
    }
    forall i, j | 0 <= i < j < |tail| ensures tail[i] != tail[j] {
      assert flat[|head| + i] == tail[i] && flat[|head| + j] == tail[j];
    }
    forall x | x in head ensures x !in tail {
      var a :| 0 <= a < |head| && head[a] == x;
      forall b | 0 <= b < |tail| ensures tail[b] != x {
        assert flat[a] == head[a] && flat[|head| + b] == tail[b];
      }
    }
  }

  lemma {:induction false} PiecesWithin<T>(pieces: seq<seq<T>>)
    ensures forall i, x :: 0 <= i < |pieces| && x in pieces[i] ==> x in Flatten(pieces)
  {
    if pieces != [] {
      PiecesWithin(pieces[1..]);
      forall i, x | 0 <= i < |pieces| && x in pieces[i] ensures x in Flatten(pieces) {
        if i > 0 { assert pieces[i] == pieces[1..][i - 1]; }
      }
    }
  }

  /** The first piece shares nothing with the later ones. */
  lemma HeadApart<T>(pieces: seq<seq<T>>, j: nat)
    requires 0 < j < |pieces| && Elements(pieces[0]) !! Elements(Flatten(pieces[1..]))
    ensures Elements(pieces[0]) !! Elements(pieces[j])
  {
    PiecesWithin(pieces[1..]);
    assert pieces[j] == pieces[1..][j - 1];
    assert Elements(pieces[j]) <= Elements(Flatten(pieces[1..]));
  }

  /** The pieces of a duplicate-free list are themselves duplicate-free and share
      no element, and together hold exactly the list's elements. */
  lemma {:induction false} FlattenSplits<T>(pieces: seq<seq<T>>)
    requires NoDuplicates(Flatten(pieces))
    ensures forall p :: p in pieces ==> NoDuplicates(p)
    ensures forall i, j :: 0 <= i < j < |pieces| ==> Elements(pieces[i]) !! Elements(pieces[j])
    ensures forall i, x :: 0 <= i < |pieces| && x in pieces[i] ==> x in Flatten(pieces)
  {
    PiecesWithin(pieces);
    if pieces != [] {
      var rest := pieces[1..];
      PartsOfDistinct(pieces[0], Flatten(rest));
      FlattenSplits(rest);
      forall p | p in pieces ensures NoDuplicates(p) {
        assert p == pieces[0] || p in rest;
      }
      forall i, j | 0 <= i < j < |pieces| ensures Elements(pieces[i]) !! Elements(pieces[j]) {
        if i == 0 {
          HeadApart(pieces, j);
        } else {
          assert pieces[i] == rest[i - 1] && pieces[j] == rest[j - 1];
        }
      }
    }
  }

  /** Every element of the flattened list sits in some piece. */
  lemma {:induction false} FlattenMember<T>(pieces: seq<seq<T>>, x: T) returns (i: nat)
    requires x in Flatten(pieces)
    ensures i < |pieces| && x in pieces[i]
  {
    if x in pieces[0] {
      i := 0;
    } else {
      var k := FlattenMember(pieces[1..], x);
      i := k + 1;
    }
  }
}
