/**
 * `SplitArray` (src/index.ts): cutting the entries of a batch into the
 * consecutive chunks of at most ten that one batch request may carry.
 */
module Split {

  /** `maxItems`, the chunk size every caller uses (the parameter's default). */
  const MaxItems: nat := 10

  /** The chunks, as a specification: the first ten, then the chunks of the rest. */
  function Chunks<T>(s: seq<T>): seq<seq<T>>
    decreases |s|
  {
    if s == [] then []
    else if |s| <= MaxItems then [s]
    else [s[..MaxItems]] + Chunks(s[MaxItems..])
  }

  function Flatten<T>(ss: seq<seq<T>>): seq<T>
  {
    if ss == [] then [] else ss[0] + Flatten(ss[1..])
  }

  /** Concatenating the chunks gives back the input, in order. */
  lemma {:induction false} ChunksFlatten<T>(s: seq<T>)
    ensures Flatten(Chunks(s)) == s
    decreases |s|
  {
    if |s| > MaxItems {
      ChunksFlatten(s[MaxItems..]);
      assert s[..MaxItems] + s[MaxItems..] == s;
    }
  }

  /** Every chunk holds one to ten items; every chunk but the last holds exactly ten. */
  lemma {:induction false} ChunksSizes<T>(s: seq<T>)
    ensures forall i :: 0 <= i < |Chunks(s)| ==> 1 <= |Chunks(s)[i]| <= MaxItems
    ensures forall i :: 0 <= i < |Chunks(s)| - 1 ==> |Chunks(s)[i]| == MaxItems
    decreases |s|
  {
    if |s| > MaxItems {
      ChunksSizes(s[MaxItems..]);
      var c := Chunks(s);
      assert forall i :: 1 <= i < |c| ==> c[i] == Chunks(s[MaxItems..])[i - 1];
    }
  }

  /** There are ceil(n / 10) chunks; none for the empty input. */
  lemma {:induction false} ChunksCount<T>(s: seq<T>)
    ensures |Chunks(s)| == (|s| + MaxItems - 1) / MaxItems
    decreases |s|
  {
    if |s| > MaxItems {
      ChunksCount(s[MaxItems..]);
    }
  }

  /** Eleven items make one full chunk and one chunk of one, in input order. */
  lemma ElevenItems<T>(s: seq<T>)
    requires |s| == 11
    ensures Chunks(s) == [s[..10], s[10..]]
  {
    assert Chunks(s[10..]) == [s[10..]];
  }

  /** Adding one item either opens a new chunk (when the item count is a multiple of ten) or extends the last one. */
  lemma {:induction false} ChunksSnoc<T>(s: seq<T>, x: T)
    ensures |s| % MaxItems == 0 ==> Chunks(s + [x]) == Chunks(s) + [[x]]
    ensures |s| % MaxItems != 0 ==>
      && |Chunks(s)| > 0
      && Chunks(s + [x]) == Chunks(s)[..|Chunks(s)| - 1] + [Chunks(s)[|Chunks(s)| - 1] + [x]]
    decreases |s|
  {
    if s == [] {
      assert [] + [x] == [x];
    } else if |s| < MaxItems {
      assert Chunks(s) == [s];
    } else if |s| == MaxItems {
      assert (s + [x])[..MaxItems] == s && (s + [x])[MaxItems..] == [x];
    } else {
      var t := s[MaxItems..];
      assert (s + [x])[..MaxItems] == s[..MaxItems];
      assert (s + [x])[MaxItems..] == t + [x];
      ChunksSnoc(t, x);
      assert Chunks(s) == [s[..MaxItems]] + Chunks(t);
    }
  }

  /**
   * The `reduce` of SplitArray: item `index` goes into chunk
   * `floor(index / maxItems)`, which is started when it does not exist yet.
   */
  method SplitArray<T>(messages: seq<T>) returns (chunks: seq<seq<T>>)
    ensures chunks == Chunks(messages)
  {
    chunks := [];
    var index := 0;
    while index < |messages|
      invariant 0 <= index <= |messages|
      invariant chunks == Chunks(messages[..index])
    {
      ChunksCount(messages[..index]);
      ChunksSnoc(messages[..index], messages[index]);
      assert messages[..index + 1] == messages[..index] + [messages[index]];
      ghost var before := chunks;
      var chunkIndex := index / MaxItems;
      assert chunkIndex == if index % MaxItems == 0 then |chunks| else |chunks| - 1;
      if chunkIndex == |chunks| {
        chunks := chunks + [[]];  // start a new chunk
      }
      chunks := chunks[chunkIndex := chunks[chunkIndex] + [messages[index]]];
      if index % MaxItems == 0 {
        assert chunks[|before|] == [messages[index]];
        assert chunks == before + [[messages[index]]];
      } else {
        assert chunks == before[..|before| - 1] + [before[|before| - 1] + [messages[index]]];
      }
      index := index + 1;
    }
    assert messages[..index] == messages;
  }
}
