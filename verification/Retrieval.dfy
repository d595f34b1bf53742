/** internal/core/retrieval.go: `rankSources`, from documents to the eight best chunks. The
    tokenizer, the logarithm, the order of digests and the sort of the query terms are parameters. */
module Retrieval {
  import opened Foundations
  import opened Utf8
  import opened Chunks

  type Term = string

  datatype Document = Document(name: Bytes, origin: Bytes, endpoint: Bytes, uri: Bytes, text: Bytes)

  function Key(d: Document): Bytes {
    d.origin + [0] + (d.endpoint + [0] + (d.uri + [0] + d.name))
  }

  /** The nested digests of a chunk's identifier; equal identifiers have equal parts. */
  datatype ChunkId = ChunkId(key: Bytes, text: Hash, start: nat, end: nat)

  datatype Candidate = Candidate(document: Document, span: Span, counts: map<Term, nat>, length: nat)

  function IdOf(c: Candidate): ChunkId {
    ChunkId(Key(c.document), Digest(c.document.text), c.span.start, c.span.end)
  }

  datatype Scored = Scored(chunk: Candidate, score: real)

  datatype Answer =
    | QueryTooLong | BadQuery | TooManyChunks | NoSources | NoMatch
    | Ranked(selected: seq<Scored>, documents: nat, candidates: nat, matches: nat)

  /** What the ranking is generic in. */
  datatype Env = Env(lexer: Bytes -> seq<Term>, ordered: set<Term> -> seq<Term>, log: real -> real,
                     before: (ChunkId, ChunkId) -> bool)

  const MAX_CHUNKS := 12000
  const MAX_TERMS := 128
  const MAX_SELECTED := 8

  ghost predicate Fair(env: Env) {
    && (forall q :: multiset(env.ordered(q)) == multiset(q))
    && (forall x :: x > 1.0 ==> env.log(x) > 0.0)
    && (forall x, y :: 1.0 < x < y ==> env.log(x) < env.log(y))
    && (forall a, b :: a != b ==> (env.before(a, b) <==> !env.before(b, a)))
    && (forall a :: !env.before(a, a))
    && (forall a, b, c :: env.before(a, b) && env.before(b, c) ==> env.before(a, c))
  }

  // ---------------------------------------------------------------- counting

  function Occurrences(tokens: seq<Term>, t: Term): nat {
    multiset(tokens)[t]
  }

  /** How often each query term that occurs does occur. */
  function Counts(tokens: seq<Term>, query: set<Term>): map<Term, nat> {
    map t | t in query && t in tokens :: Occurrences(tokens, t)
  }

  method CountTerms(tokens: seq<Term>, query: set<Term>) returns (counts: map<Term, nat>)
    ensures counts == Counts(tokens, query)
  {
    counts := map[];
    for i := 0 to |tokens|
      invariant counts == Counts(tokens[..i], query)
    {
      assert tokens[..i + 1] == tokens[..i] + [tokens[i]];
      if tokens[i] in query {
        counts := counts[tokens[i] := (if tokens[i] in counts then counts[tokens[i]] else 0) + 1];
      }
    }
    assert tokens[..|tokens|] == tokens;
  }

  function Lookup(m: map<Term, nat>, t: Term): nat {
    if t in m then m[t] else 0
  }

  /** Count one more chunk for each of its terms, in any order. */
  method AddTerms(df: map<Term, nat>, counts: map<Term, nat>) returns (sum: map<Term, nat>)
    ensures forall t :: Lookup(sum, t) == Lookup(df, t) + (if t in counts then 1 else 0)
  {
    sum := df;
    var left := counts.Keys;
    while left != {}
      invariant left <= counts.Keys
      invariant forall t :: Lookup(sum, t) == Lookup(df, t) + (if t in counts && t !in left then 1 else 0)
    {
      var t :| t in left;
      sum := sum[t := Lookup(sum, t) + 1];
      left := left - {t};
    }
  }

  // ---------------------------------------------------------------- candidates

  function CandidateOf(d: Document, s: Span, query: set<Term>, tokens: seq<Term>): Candidate {
    Candidate(d, s, Counts(tokens, query), |tokens|)
  }

  /** The chunks of one document that hold any token. */
  function Chosen(d: Document, spans: seq<Span>, query: set<Term>, lexer: Bytes -> seq<Term>): seq<Candidate>
    requires forall s <- spans :: s.start <= s.end <= |d.text|
  {
    if spans == [] then []
    else
      var tokens := lexer(d.text[spans[0].start..spans[0].end]);
      (if |tokens| > 0 then [CandidateOf(d, spans[0], query, tokens)] else []) + Chosen(d, spans[1..], query, lexer)
  }

  ghost predicate AllValid(docs: seq<Document>) {
    forall d <- docs :: Valid(d.text)
  }

  lemma {:induction false} SpansInside(t: Bytes, start: nat)
    requires Valid(t) && start < |t|
    ensures forall s <- Spans(t, start) :: s.start <= s.end <= |t|
    decreases |t| - start
  {
    hide Valid;
    var end := ChunkEnd(t, start);
    if end < |t| {
      SpansInside(t, Forward(t, end - OVERLAP));
    }
  }

  function DocumentCandidates(d: Document, start: nat, query: set<Term>, lexer: Bytes -> seq<Term>): seq<Candidate>
    requires Valid(d.text) && start <= |d.text|
  {
    if start == |d.text| then []
    else
      SpansInside(d.text, start);
      Chosen(d, Spans(d.text, start), query, lexer)
  }

  function AllCandidates(docs: seq<Document>, query: set<Term>, lexer: Bytes -> seq<Term>): seq<Candidate>
    requires AllValid(docs)
  {
    if docs == [] then []
    else
      var last := docs[|docs| - 1];
      AllCandidates(docs[..|docs| - 1], query, lexer) + DocumentCandidates(last, 0, query, lexer)
  }

  /** What is counted over the candidates: tokens, chunks with a term, chunks with any query term. */
  datatype Measure = Length | Holding(term: Term) | Matching

  function Measured(c: Candidate, m: Measure): nat {
    match m
    case Length => c.length
    case Holding(t) => if t in c.counts then 1 else 0
    case Matching => if c.counts != map[] then 1 else 0
  }

  function TotalOf(cs: seq<Candidate>, m: Measure): nat {
    if cs == [] then 0 else TotalOf(cs[..|cs| - 1], m) + Measured(cs[|cs| - 1], m)
  }

  lemma {:induction false} AllCandidatesGrow(docs: seq<Document>, i: nat, query: set<Term>, lexer: Bytes -> seq<Term>)
    requires AllValid(docs) && i <= |docs|
    ensures |AllCandidates(docs[..i], query, lexer)| <= |AllCandidates(docs, query, lexer)|
    decreases |docs|
  {
    if i < |docs| {
      var front := docs[..|docs| - 1];
      assert front[..i] == docs[..i];
      AllCandidatesGrow(front, i, query, lexer);
    } else {
      assert docs[..i] == docs;
    }
  }

  /** `df` and `total` are the tallies of the candidates so far. */
  ghost predicate CountsAgree(cs: seq<Candidate>, df: map<Term, nat>, total: nat) {
    total == TotalOf(cs, Length) && forall t :: Lookup(df, t) == TotalOf(cs, Holding(t))
  }

  /** One chunk: it joins the candidates if it holds any token. */
  method AddChunk(d: Document, s: Span, query: set<Term>, lexer: Bytes -> seq<Term>,
                  candidates: seq<Candidate>, df: map<Term, nat>, total: nat)
    returns (candidates': seq<Candidate>, df': map<Term, nat>, total': nat)
    requires CountsAgree(candidates, df, total) && s.start <= s.end <= |d.text|
    ensures CountsAgree(candidates', df', total')
    ensures candidates' == candidates + Chosen(d, [s], query, lexer)
  {
    candidates', df', total' := candidates, df, total;
    var tokens := lexer(d.text[s.start..s.end]);
    assert Chosen(d, [], query, lexer) == [];
    if |tokens| > 0 {
      var counts := CountTerms(tokens, query);
      df' := AddTerms(df, counts);
      candidates' := candidates + [Candidate(d, s, counts, |tokens|)];
      total' := total + |tokens|;
      assert candidates'[..|candidates|] == candidates;
    }
  }

  /** Where the chunk after the one at `start` begins; the end of the text if there is none. */
  function NextStart(t: Bytes, start: nat): (next: nat)
    requires Valid(t) && start < |t|
    ensures start < next <= |t|
  {
    var end := ChunkEnd(t, start);
    if end == |t| then end else Forward(t, end - OVERLAP)
  }

  lemma ChosenCons(d: Document, first: Span, rest: seq<Span>, query: set<Term>, lexer: Bytes -> seq<Term>)
    requires forall s <- [first] + rest :: s.start <= s.end <= |d.text|
    requires first.start <= first.end <= |d.text| && forall s <- rest :: s.start <= s.end <= |d.text|
    ensures Chosen(d, [first] + rest, query, lexer) == Chosen(d, [first], query, lexer) + Chosen(d, rest, query, lexer)
  {
  }

  lemma ChosenFirst(d: Document, start: nat, query: set<Term>, lexer: Bytes -> seq<Term>, before: seq<Candidate>)
    requires Valid(d.text) && start < |d.text|
    ensures before + DocumentCandidates(d, start, query, lexer)
         == before + Chosen(d, [Span(start, ChunkEnd(d.text, start))], query, lexer)
          + DocumentCandidates(d, NextStart(d.text, start), query, lexer)
  {
    SpansInside(d.text, start);
    var end := ChunkEnd(d.text, start);
    var rest := if end == |d.text| then [] else Spans(d.text, NextStart(d.text, start));
    assert Spans(d.text, start) == [Span(start, end)] + rest;
    assert forall s <- rest :: s in Spans(d.text, start);
    assert end == |d.text| ==> Chosen(d, rest, query, lexer) == [];
    hide Valid, Chosen, ChunkEnd, Forward, Boundary, Spans;
    ChosenCons(d, Span(start, end), rest, query, lexer);
  }

  /** One turn of the loop over the chunks of a document. */
  method CollectChunk(d: Document, start: nat, query: set<Term>, lexer: Bytes -> seq<Term>,
                      candidates: seq<Candidate>, df: map<Term, nat>, total: nat)
    returns (next: nat, candidates': seq<Candidate>, df': map<Term, nat>, total': nat)
    requires Valid(d.text) && start < |d.text| && CountsAgree(candidates, df, total)
    ensures CountsAgree(candidates', df', total') && next == NextStart(d.text, start)
    ensures candidates' + DocumentCandidates(d, next, query, lexer)
            == candidates + DocumentCandidates(d, start, query, lexer)
  {
    ChosenFirst(d, start, query, lexer, candidates);
    hide Valid, CountsAgree, Chosen, Boundary, DocumentCandidates;
    var end;
    end, next := NextChunk(d.text, start);
    if end == |d.text| {
      next := end;
    }
    candidates', df', total' := AddChunk(d, Span(start, end), query, lexer, candidates, df, total);
  }

  /** The loop over the chunks of one document, until 12000 candidates are exceeded. */
  method CollectDocument(d: Document, query: set<Term>, lexer: Bytes -> seq<Term>,
                         candidates: seq<Candidate>, df: map<Term, nat>, total: nat)
    returns (ok: bool, candidates': seq<Candidate>, df': map<Term, nat>, total': nat)
    requires Valid(d.text) && CountsAgree(candidates, df, total) && |candidates| <= MAX_CHUNKS
    ensures CountsAgree(candidates', df', total')
    ensures ok <==> |candidates + DocumentCandidates(d, 0, query, lexer)| <= MAX_CHUNKS
    ensures ok ==> candidates' == candidates + DocumentCandidates(d, 0, query, lexer)
  {
    candidates', df', total' := candidates, df, total;
    var start := 0;
    assert DocumentCandidates(d, |d.text|, query, lexer) == [];
    hide Valid, CountsAgree, Chosen, NextStart, DocumentCandidates;
    while start < |d.text|
      invariant start <= |d.text| && CountsAgree(candidates', df', total') && |candidates'| <= MAX_CHUNKS
      invariant candidates' + DocumentCandidates(d, start, query, lexer)
                == candidates + DocumentCandidates(d, 0, query, lexer)
      decreases |d.text| - start
    {
      start, candidates', df', total' := CollectChunk(d, start, query, lexer, candidates', df', total');
      if |candidates'| > MAX_CHUNKS {
        return false, candidates', df', total';
      }
    }
    ok := true;
  }

  /** The loop over the documents. */
  method Collect(docs: seq<Document>, query: set<Term>, lexer: Bytes -> seq<Term>)
    returns (ok: bool, candidates: seq<Candidate>, df: map<Term, nat>, total: nat)
    requires AllValid(docs)
    ensures ok <==> |AllCandidates(docs, query, lexer)| <= MAX_CHUNKS
    ensures ok ==> candidates == AllCandidates(docs, query, lexer) && CountsAgree(candidates, df, total)
  {
    candidates, df, total := [], map[], 0;
    assert CountsAgree(candidates, df, total);
    hide CountsAgree, DocumentCandidates;
    for i := 0 to |docs|
      invariant candidates == AllCandidates(docs[..i], query, lexer) && |candidates| <= MAX_CHUNKS
      invariant CountsAgree(candidates, df, total)
    {
      assert docs[..i + 1][..i] == docs[..i];
      AllCandidatesGrow(docs, i + 1, query, lexer);
      ok, candidates, df, total := CollectDocument(docs[i], query, lexer, candidates, df, total);
      if !ok {
        return;
      }
    }
    assert docs[..|docs|] == docs;
    ok := true;
  }
}
