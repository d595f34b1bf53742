/** internal/core/retrieval.go: the loop that cuts a document into overlapping chunks, and the
    truncation of internal/core/cognition.go that agrees with its first chunk. */
module Chunks {
  import opened Foundations
  import opened Utf8

  const CHUNK := 2048
  const OVERLAP := 256
  const STRIDE := 1789

  datatype Span = Span(start: nat, end: nat)

  // ---------------------------------------------------------------- the two inner loops

  /** The greatest boundary that is not after `p`. */
  function BackUp(t: Bytes, p: nat): (r: nat)
    requires Valid(t) && p <= |t|
    ensures p - 3 <= r <= p && Boundary(t, r)
    ensures forall q :: r < q <= p ==> !Boundary(t, q)
    decreases p
  {
    BoundariesNear(t, p);
    if Boundary(t, p) then p else BackUp(t, p - 1)
  }

  /** The least boundary that is not before `p`. */
  function Forward(t: Bytes, p: nat): (r: nat)
    requires Valid(t) && p <= |t|
    ensures p <= r <= p + 3 && Boundary(t, r)
    ensures forall q :: p <= q < r ==> !Boundary(t, q)
    decreases |t| - p
  {
    BoundariesNear(t, p);
    if Boundary(t, p) then p else Forward(t, p + 1)
  }

  lemma BoundariesNear(t: Bytes, p: nat)
    requires Valid(t) && p <= |t|
    ensures exists q :: p - 3 <= q <= p && 0 <= q && Boundary(t, q)
    ensures exists q :: p <= q <= p + 3 && Boundary(t, q)
    ensures Boundary(t, 0)
  {
    var _, _ := BoundaryNear(t, p);
    var _, _ := BoundaryNear(t, 0);
  }

  // ---------------------------------------------------------------- the chunks of a document

  function ChunkEnd(t: Bytes, start: nat): (end: nat)
    requires Valid(t) && start < |t|
    ensures end <= |t| && end <= start + CHUNK
    ensures end < |t| ==> start + CHUNK - 3 <= end
    ensures end == |t| <==> |t| <= start + CHUNK
    ensures start < end && Boundary(t, end)
  {
    BackUp(t, if start + CHUNK > |t| then |t| else start + CHUNK)
  }

  /** The chunks from `start` on, as the loop cuts them. */
  function Spans(t: Bytes, start: nat): seq<Span>
    requires Valid(t) && start < |t|
    decreases |t| - start
  {
    var end := ChunkEnd(t, start);
    [Span(start, end)] + if end == |t| then [] else Spans(t, Forward(t, end - OVERLAP))
  }

  function DocumentSpans(t: Bytes): seq<Span>
    requires Valid(t)
  {
    if t == [] then [] else Spans(t, 0)
  }

  /** One turn of the loop: the two loops over rune boundaries, then the next start. */
  method NextChunk(t: Bytes, start: nat) returns (end: nat, next: nat)
    requires Valid(t) && start < |t|
    ensures end == ChunkEnd(t, start)
    ensures end < |t| ==> next == Forward(t, end - OVERLAP) && start + STRIDE <= next
    ensures end == |t| ==> next == start
  {
    end := start + CHUNK;
    if end > |t| {
      end := |t|;
    }
    ghost var limit := end;
    while end < |t| && !RuneStart(t[end])
      invariant end <= limit <= |t| && BackUp(t, limit) == BackUp(t, end)
      decreases end
    {
      end := end - 1;
    }
    next := start;
    if end == |t| {
      return;
    }
    next := end - OVERLAP;
    while next < end && !RuneStart(t[next])
      invariant end - OVERLAP <= next <= end && Forward(t, end - OVERLAP) == Forward(t, next)
    {
      next := next + 1;
    }
  }

  // ---------------------------------------------------------------- what the chunks are good for

  /** A chain of chunks from `start` to the end of the text: each at most 2048 bytes and itself valid
      UTF-8, each start at least 1789 bytes after the one before, each overlap 253 to 256 bytes. */
  ghost predicate Chain(t: Bytes, start: nat, spans: seq<Span>) {
    && spans != [] && spans[0].start == start && spans[|spans| - 1].end == |t|
    && (forall k :: 0 <= k < |spans| ==> Whole(t, spans[k]))
    && (forall k :: 0 <= k < |spans| - 1 ==> Linked(spans[k], spans[k + 1]))
  }

  predicate Whole(t: Bytes, s: Span) {
    s.start < s.end <= |t| && s.end - s.start <= CHUNK && Valid(t[s.start..s.end])
  }

  predicate Linked(a: Span, b: Span) {
    a.start + STRIDE <= b.start && b.start + 253 <= a.end <= b.start + OVERLAP
  }

  lemma ChainCons(t: Bytes, s: Span, next: nat, rest: seq<Span>)
    requires Whole(t, s) && Chain(t, next, rest) && Linked(s, rest[0])
    ensures Chain(t, s.start, [s] + rest)
  {
  }

  lemma {:induction false} SpansChain(t: Bytes, start: nat)
    requires Valid(t) && start < |t| && Boundary(t, start)
    ensures Chain(t, start, Spans(t, start))
    decreases |t| - start
  {
    hide Valid, Boundary;
    var end := ChunkEnd(t, start);
    SliceValid(t, start, end);
    if end < |t| {
      var next := Forward(t, end - OVERLAP);
      SpansChain(t, next);
      hide ChunkEnd, Forward;
      ChainCons(t, Span(start, end), next, Spans(t, next));
    }
  }

  /** Every document: the chunks cover it from the first byte to the last. */
  lemma DocumentChain(t: Bytes)
    requires Valid(t) && t != []
    ensures Chain(t, 0, DocumentSpans(t))
  {
    BoundariesNear(t, 0);
    SpansChain(t, 0);
  }

  lemma ChainTail(t: Bytes, start: nat, spans: seq<Span>)
    requires Chain(t, start, spans) && |spans| > 1
    ensures Chain(t, spans[1].start, spans[1..])
  {
  }

  /** Any stretch of at most 254 bytes lies wholly inside some chunk: it is never cut in two. */
  lemma {:induction false} WindowInside(t: Bytes, start: nat, spans: seq<Span>, a: nat, b: nat) returns (k: nat)
    requires Chain(t, start, spans) && start <= a < b <= |t| && b - a <= 254
    ensures k < |spans| && spans[k].start <= a && b <= spans[k].end
    decreases |spans|
  {
    if |spans| == 1 {
      return 0;
    }
    assert Linked(spans[0], spans[1]);
    if a < spans[1].start {
      return 0;
    }
    var rest := spans[1..];
    assert Chain(t, spans[1].start, rest) by {
      ChainTail(t, start, spans);
    }
    k := WindowInside(t, spans[1].start, rest, a, b);
    k := k + 1;
  }

  lemma NothingCutInTwo(t: Bytes, a: nat, b: nat)
    requires Valid(t) && a < b <= |t| && b - a <= 254
    ensures exists s :: s in DocumentSpans(t) && s.start <= a && b <= s.end
  {
    DocumentChain(t);
    var k := WindowInside(t, 0, DocumentSpans(t), a, b);
    assert DocumentSpans(t)[k] in DocumentSpans(t);
  }

  /** The `k`-th chunk starts at least `k` strides after the first. */
  lemma {:induction false} StartsApart(t: Bytes, start: nat, spans: seq<Span>, k: nat)
    requires Chain(t, start, spans) && k < |spans|
    ensures start + k * STRIDE <= spans[k].start
    decreases k
  {
    if k > 0 {
      StartsApart(t, start, spans, k - 1);
      assert Linked(spans[k - 1], spans[k]);
    }
  }

  /** A document of `n` bytes yields at most 1 + n/1789 chunks. */
  lemma ChunkCount(t: Bytes)
    requires Valid(t)
    ensures |DocumentSpans(t)| <= 1 + |t| / STRIDE
  {
    if t != [] {
      DocumentChain(t);
      var spans := DocumentSpans(t);
      StartsApart(t, 0, spans, |spans| - 1);
      assert Whole(t, spans[|spans| - 1]);
    }
  }

  /** Starts strictly increase, so no chunk of a document occurs twice. */
  lemma {:induction false} StartsIncrease(t: Bytes, start: nat, spans: seq<Span>, j: nat, k: nat)
    requires Chain(t, start, spans) && j < k < |spans|
    ensures spans[j].start < spans[k].start
    decreases k
  {
    assert Linked(spans[k - 1], spans[k]);
    if j < k - 1 {
      StartsIncrease(t, start, spans, j, k - 1);
    }
  }

  // ---------------------------------------------------------------- collectSources

  /** The excerpt that `collectSources` keeps of a valid text is the first chunk of that text. */
  method Excerpt(b: Bytes) returns (text: Bytes)
    requires Valid(b)
    ensures text == if b == [] then [] else b[..DocumentSpans(b)[0].end]
  {
    text := b;
    if |text| > CHUNK {
      text := text[..CHUNK];
      CutValid(b, CHUNK);
      while !Valid(text)
        invariant |text| <= CHUNK && text == b[..|text|]
        invariant BackUp(b, CHUNK) == BackUp(b, |text|)
        invariant Boundary(b, |text|) <==> Valid(text)
        decreases |text|
      {
        text := text[..|text| - 1];
        CutValid(b, |text|);
      }
    }
  }
}
