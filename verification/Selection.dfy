/** internal/core/retrieval.go: `rankSources` as a whole. Its answer is a function of the documents,
    whatever their order, and its chunk limit is out of reach of `retrieveSources`. */
module Selections {
  import opened Foundations
  import opened Utf8
  import opened Chunks
  import opened Retrieval
  import opened Ranking
  import opened Workspaces

  lemma {:induction false} ChosenTokened(d: Document, spans: seq<Span>, query: set<Term>, lexer: Bytes -> seq<Term>)
    requires forall s <- spans :: s.start <= s.end <= |d.text|
    ensures var cs := Chosen(d, spans, query, lexer);
            && Tokened(cs) && |cs| <= |spans|
            && forall c <- cs :: c.document == d && c.span in spans && c.counts.Keys <= query
    decreases |spans|
  {
    if spans != [] {
      ChosenTokened(d, spans[1..], query, lexer);
    }
  }

  /** Candidates have tokens, count query terms only and belong to one of the documents. */
  lemma {:induction false} CandidatesTokened(docs: seq<Document>, query: set<Term>, lexer: Bytes -> seq<Term>)
    requires AllValid(docs)
    ensures var cs := AllCandidates(docs, query, lexer);
            Tokened(cs) && forall c <- cs :: c.document in docs && c.counts.Keys <= query
    decreases |docs|
  {
    if docs != [] {
      var d := docs[|docs| - 1];
      CandidatesTokened(docs[..|docs| - 1], query, lexer);
      if d.text != [] {
        SpansInside(d.text, 0);
        ChosenTokened(d, Spans(d.text, 0), query, lexer);
      }
      hide Chosen, Valid;
    }
  }

  function ScoreAll(some: seq<Candidate>, keys: seq<Term>, cs: seq<Candidate>, log: real -> real): (pool: seq<Scored>)
    requires cs != [] && Tokened(cs)
    ensures |pool| == |some| && forall i :: 0 <= i < |some| ==>
              pool[i] == Scored(some[i], Score(some[i], keys, cs, log))
  {
    if some == [] then []
    else
      var c := some[|some| - 1];
      ScoreAll(some[..|some| - 1], keys, cs, log) + [Scored(c, Score(c, keys, cs, log))]
  }

  /** The distinct terms of a query. */
  function QueryTerms(tokens: seq<Term>): set<Term> {
    set t | t in tokens
  }

  /** What `rankSources` answers: the first eight of the positive chunks in (score, identifier)
      order, with honest counts; or the error for the first thing that is wrong. */
  ghost predicate Answers(docs: seq<Document>, query: Bytes, env: Env, r: Answer)
    requires AllValid(docs)
  {
    var terms := QueryTerms(env.lexer(query));
    var cs := AllCandidates(docs, terms, env.lexer);
    if |terms| == 0 || |terms| > MAX_TERMS then r == BadQuery
    else if |cs| > MAX_CHUNKS then r == TooManyChunks
    else if |cs| == 0 then r == NoSources
    else if TotalOf(cs, Matching) == 0 then r == NoMatch
    else
      CandidatesTokened(docs, terms, env.lexer);
      && r.Ranked? && r.documents == |docs| && r.candidates == |cs| && r.matches == TotalOf(cs, Matching)
      && TopEight(ScoreAll(cs, env.ordered(terms), cs, env.log), r.selected, env)
  }

  /** Every positive chunk is a match and the other way round. */
  method ScoreCandidates(candidates: seq<Candidate>, query: set<Term>, keys: seq<Term>, df: map<Term, nat>,
                         average: real,
                         log: real -> real) returns (scored: seq<Scored>, matches: nat)
    requires candidates != [] && Tokened(candidates) && average == Average(candidates)
    requires multiset(keys) == multiset(query) && forall c <- candidates :: c.counts.Keys <= query
    requires forall t :: Lookup(df, t) == TotalOf(candidates, Holding(t))
    requires forall x :: x > 1.0 ==> log(x) > 0.0
    ensures scored == ScoreAll(candidates, keys, candidates, log) && matches == TotalOf(candidates, Matching)
  {
    hide Score, Average;
    scored, matches := [], 0;
    assert forall t :: t in multiset(query) ==> t in keys;
    for i := 0 to |candidates|
      invariant scored == ScoreAll(candidates[..i], keys, candidates, log)
      invariant matches == TotalOf(candidates[..i], Matching)
    {
      assert candidates[..i + 1][..i] == candidates[..i];
      var c := candidates[i];
      var score := ComputeScore(c, keys, candidates, |candidates|, df, average, log);
      scored := scored + [Scored(c, score)];
      PositiveIffMatching(c, keys, candidates, log);
      assert c.counts != map[] <==> exists t :: t in keys && t in c.counts by {
        assert c.counts != map[] <==> c.counts.Keys != {};
      }
      if score > 0.0 {
        matches := matches + 1;
      }
    }
    assert candidates[..|candidates|] == candidates;
  }

  method RankSources(docs: seq<Document>, query: Bytes, env: Env) returns (r: Answer)
    requires AllValid(docs) && Fair(env)
    ensures Answers(docs, query, env, r)
  {
    var tokens := env.lexer(query);
    var terms := {};
    for i := 0 to |tokens|
      invariant terms == QueryTerms(tokens[..i])
    {
      terms := terms + {tokens[i]};
    }
    assert tokens[..|tokens|] == tokens;
    if |terms| == 0 || |terms| > MAX_TERMS {
      return BadQuery;
    }
    var ok, candidates, df, total := Collect(docs, terms, env.lexer);
    if !ok {
      return TooManyChunks;
    }
    if |candidates| == 0 {
      return NoSources;
    }
    CandidatesTokened(docs, terms, env.lexer);
    var average := total as real / |candidates| as real;
    var keys := env.ordered(terms);
    var scored, matches := ScoreCandidates(candidates, terms, keys, df, average, env.log);
    if matches == 0 {
      return NoMatch;
    }
    var sorted := Sort(scored, env);
    var selected := Select(sorted);
    return Ranked(selected, |docs|, |candidates|, matches);
  }

  // ---------------------------------------------------------------- the order of the documents is irrelevant

  lemma Without<T>(s: seq<T>, j: nat)
    requires j < |s|
    ensures multiset(s[..j] + s[j + 1..]) == multiset(s) - multiset{s[j]}
  {
    assert s == s[..j] + [s[j]] + s[j + 1..];
  }

  /** Take the last element of `a` out of a permutation of `a`. */
  lemma TakeOut<T>(a: seq<T>, b: seq<T>) returns (j: nat)
    requires a != [] && multiset(a) == multiset(b)
    ensures |a| == |b| && j < |b| && b[j] == a[|a| - 1]
    ensures multiset(a[..|a| - 1]) == multiset(b[..j] + b[j + 1..])
  {
    var c := a[|a| - 1];
    assert |multiset(a)| == |multiset(b)|;
    assert c in multiset(b);
    j :| 0 <= j < |b| && b[j] == c;
    Without(b, j);
    assert a == a[..|a| - 1] + [c];
  }

  lemma {:induction false} TallyConcat(a: seq<Candidate>, b: seq<Candidate>, m: Measure)
    ensures TotalOf(a + b, m) == TotalOf(a, m) + TotalOf(b, m)
    decreases |b|
  {
    if b == [] {
      assert a + b == a;
    } else {
      assert (a + b)[..|a + b| - 1] == a + b[..|b| - 1];
      TallyConcat(a, b[..|b| - 1], m);
    }
  }

  lemma TallyWithout(s: seq<Candidate>, j: nat, m: Measure)
    requires j < |s|
    ensures TotalOf(s, m) == TotalOf(s[..j] + s[j + 1..], m) + Measured(s[j], m)
  {
    assert s == s[..j] + [s[j]] + s[j + 1..];
    TallyConcat(s[..j] + [s[j]], s[j + 1..], m);
    TallyConcat(s[..j], s[j + 1..], m);
    assert (s[..j] + [s[j]])[..j] == s[..j];
  }

  lemma {:induction false} TotalPermutes(a: seq<Candidate>, b: seq<Candidate>, m: Measure)
    requires multiset(a) == multiset(b)
    ensures TotalOf(a, m) == TotalOf(b, m)
    decreases |a|
  {
    if a == [] {
      assert |multiset(b)| == 0;
    } else {
      hide Measured;
      var j := TakeOut(a, b);
      TotalPermutes(a[..|a| - 1], b[..j] + b[j + 1..], m);
      TallyWithout(b, j, m);
    }
  }

  lemma {:induction false} ScorePermutes(c: Candidate, keys: seq<Term>, a: seq<Candidate>, b: seq<Candidate>,
                                         log: real -> real)
    requires a != [] && Tokened(a) && b != [] && Tokened(b) && multiset(a) == multiset(b)
    ensures Score(c, keys, a, log) == Score(c, keys, b, log)
    decreases |keys|
  {
    if keys != [] {
      ScorePermutes(c, keys[..|keys| - 1], a, b, log);
      TotalPermutes(a, b, Holding(keys[|keys| - 1]));
      TotalPermutes(a, b, Length);
      assert |a| == |multiset(a)| == |b|;
      hide Weight, TotalOf, Idf;
    }
  }

  lemma {:induction false} ScoreAllPermutes(a: seq<Candidate>, b: seq<Candidate>, keys: seq<Term>, cs: seq<Candidate>,
                                            log: real -> real)
    requires cs != [] && Tokened(cs) && multiset(a) == multiset(b)
    ensures multiset(ScoreAll(a, keys, cs, log)) == multiset(ScoreAll(b, keys, cs, log))
    decreases |a|
  {
    hide Score, Tokened;
    if a == [] {
      assert |multiset(b)| == 0;
    } else {
      var j := TakeOut(a, b);
      ScoreAllPermutes(a[..|a| - 1], b[..j] + b[j + 1..], keys, cs, log);
      ScoreWithout(b, j, keys, cs, log);
    }
  }

  lemma ScoreWithout(s: seq<Candidate>, j: nat, keys: seq<Term>, cs: seq<Candidate>, log: real -> real)
    requires cs != [] && Tokened(cs) && j < |s|
    ensures multiset(ScoreAll(s, keys, cs, log))
         == multiset(ScoreAll(s[..j] + s[j + 1..], keys, cs, log)) + multiset{Scored(s[j], Score(s[j], keys, cs, log))}
  {
    hide Score, Tokened, ScoreAll;
    var pool := ScoreAll(s, keys, cs, log);
    Without(pool, j);
    assert ScoreAll(s[..j] + s[j + 1..], keys, cs, log) == pool[..j] + pool[j + 1..];
    assert pool[j] in multiset(pool);
  }

  // ---------------------------------------------------------------- one answer

  lemma {:induction false} AllCandidatesConcat(a: seq<Document>, b: seq<Document>, query: set<Term>,
                                               lexer: Bytes -> seq<Term>)
    requires AllValid(a) && AllValid(b)
    ensures AllCandidates(a + b, query, lexer) == AllCandidates(a, query, lexer) + AllCandidates(b, query, lexer)
    decreases |b|
  {
    hide Valid, DocumentCandidates;
    if b == [] {
      assert a + b == a;
    } else {
      assert (a + b)[..|a + b| - 1] == a + b[..|b| - 1];
      AllCandidatesConcat(a, b[..|b| - 1], query, lexer);
    }
  }

  lemma CandidatesWithout(docs: seq<Document>, j: nat, query: set<Term>, lexer: Bytes -> seq<Term>)
    requires AllValid(docs) && j < |docs|
    ensures AllValid(docs[..j] + docs[j + 1..])
    ensures multiset(AllCandidates(docs, query, lexer))
         == multiset(AllCandidates(docs[..j] + docs[j + 1..], query, lexer))
           + multiset(DocumentCandidates(docs[j], 0, query, lexer))
  {
    assert docs == docs[..j] + [docs[j]] + docs[j + 1..];
    AllCandidatesConcat(docs[..j] + [docs[j]], docs[j + 1..], query, lexer);
    AllCandidatesConcat(docs[..j], docs[j + 1..], query, lexer);
    assert (docs[..j] + [docs[j]])[..j] == docs[..j];
    hide Valid, DocumentCandidates;
  }

  lemma {:induction false} CandidatesPermute(a: seq<Document>, b: seq<Document>, query: set<Term>,
                                             lexer: Bytes -> seq<Term>)
    requires AllValid(a) && AllValid(b) && multiset(a) == multiset(b)
    ensures multiset(AllCandidates(a, query, lexer)) == multiset(AllCandidates(b, query, lexer))
    decreases |a|
  {
    if a == [] {
      assert |multiset(b)| == 0;
    } else {
      hide Valid, DocumentCandidates;
      var j := TakeOut(a, b);
      CandidatesWithout(b, j, query, lexer);
      CandidatesPermute(a[..|a| - 1], b[..j] + b[j + 1..], query, lexer);
    }
  }

  /** Identifiers tell the members of a pool apart. */
  ghost predicate Identified(pool: seq<Scored>) {
    forall a, b :: a in pool && b in pool && IdOf(a.chunk) == IdOf(b.chunk) ==> a == b
  }

  lemma FirstUnique(a: seq<Scored>, b: seq<Scored>, env: Env)
    requires Fair(env) && multiset(a) == multiset(b) && Identified(a) && a != [] && b != []
    requires InOrder(a, env.before) && InOrder(b, env.before)
    ensures a[0] == b[0]
  {
    assert a[0] in multiset(b) && b[0] in multiset(a);
    var i :| 0 <= i < |b| && b[i] == a[0];
    var j :| 0 <= j < |a| && a[j] == b[0];
    assert i > 0 ==> !Precedes(a[0], b[0], env.before);
    assert j > 0 ==> !Precedes(b[0], a[0], env.before);
    assert IdOf(a[0].chunk) == IdOf(b[0].chunk) ==> a[0] == b[0];
  }

  lemma RestInOrder(a: seq<Scored>, env: Env)
    requires a != [] && InOrder(a, env.before)
    ensures InOrder(a[1..], env.before) && multiset(a[1..]) == multiset(a) - multiset{a[0]}
    ensures Identified(a) ==> Identified(a[1..])
  {
    hide Precedes, IdOf;
    var rest := a[1..];
    forall i, j | 0 <= i < j < |rest|
      ensures !Precedes(rest[j], rest[i], env.before)
    {
      assert rest[i] == a[i + 1] && rest[j] == a[j + 1];
    }
    assert a == [a[0]] + rest;
  }

  lemma {:induction false} OrderUnique(a: seq<Scored>, b: seq<Scored>, env: Env)
    requires Fair(env) && multiset(a) == multiset(b) && Identified(a)
    requires InOrder(a, env.before) && InOrder(b, env.before)
    ensures a == b
    decreases |a|
  {
    assert |multiset(a)| == |multiset(b)|;
    if a != [] {
      hide Fair, InOrder, Identified;
      FirstUnique(a, b, env);
      RestInOrder(a, env);
      RestInOrder(b, env);
      OrderUnique(a[1..], b[1..], env);
      assert a == [a[0]] + a[1..] && b == [b[0]] + b[1..];
    }
  }

  /** The separator of a document key occurs in none of its fields. */
  predicate Plain(d: Document) {
    0 !in d.origin && 0 !in d.endpoint && 0 !in d.uri && 0 !in d.name
  }

  /** A separator that does not occur in the parts can be found again. */
  lemma JoinInjective(a: Bytes, b: Bytes, c: Bytes, d: Bytes)
    requires 0 !in a && 0 !in c && a + [0] + b == c + [0] + d
    ensures a == c && b == d
  {
    var left, right := a + [0] + b, c + [0] + d;
    assert left[|a|] == 0 && right[|c|] == 0;
    assert a == left[..|a|] && c == right[..|c|] && b == left[|a| + 1..] && d == right[|c| + 1..];
  }

  lemma KeyInjective(d: Document, e: Document)
    requires Plain(d) && Plain(e) && Key(d) == Key(e)
    ensures d == e.(text := d.text)
  {
    JoinInjective(d.origin, d.endpoint + [0] + (d.uri + [0] + d.name),
                  e.origin, e.endpoint + [0] + (e.uri + [0] + e.name));
    JoinInjective(d.endpoint, d.uri + [0] + d.name, e.endpoint, e.uri + [0] + e.name);
    JoinInjective(d.uri, d.name, e.uri, e.name);
  }

  lemma {:induction false} ChosenInOrder(d: Document, spans: seq<Span>, query: set<Term>, lexer: Bytes -> seq<Term>)
    requires forall s <- spans :: s.start <= s.end <= |d.text|
    requires forall j, k :: 0 <= j < k < |spans| ==> spans[j].start < spans[k].start
    ensures var cs := Chosen(d, spans, query, lexer);
            forall i, j :: 0 <= i < j < |cs| ==> cs[i].span.start < cs[j].span.start
    decreases |spans|
  {
    if spans != [] {
      ChosenInOrder(d, spans[1..], query, lexer);
      ChosenTokened(d, spans[1..], query, lexer);
    }
  }

  /** Equal identifiers in one pool belong to the same chunk. */
  lemma PoolIdentified(docs: seq<Document>, query: set<Term>, keys: seq<Term>, env: Env)
    requires AllValid(docs) && (forall d <- docs :: Plain(d))
    requires AllCandidates(docs, query, env.lexer) != []
    ensures var cs := AllCandidates(docs, query, env.lexer);
            Tokened(cs) && Identified(ScoreAll(cs, keys, cs, env.log))
  {
    var cs := AllCandidates(docs, query, env.lexer);
    CandidatesTokened(docs, query, env.lexer);
    var pool := ScoreAll(cs, keys, cs, env.log);
    forall a, b | a in pool && b in pool && IdOf(a.chunk) == IdOf(b.chunk)
      ensures a == b
    {
      var i :| 0 <= i < |pool| && pool[i] == a;
      var j :| 0 <= j < |pool| && pool[j] == b;
      KeyInjective(cs[i].document, cs[j].document);
      CandidateIsItsSpan(docs, query, env.lexer, i);
      CandidateIsItsSpan(docs, query, env.lexer, j);
    }
  }

  predicate ItsSpan(c: Candidate, query: set<Term>, lexer: Bytes -> seq<Term>) {
    && c.span.start <= c.span.end <= |c.document.text|
    && c == CandidateOf(c.document, c.span, query, lexer(c.document.text[c.span.start..c.span.end]))
  }

  lemma {:induction false} ChosenItsSpan(d: Document, spans: seq<Span>, query: set<Term>, lexer: Bytes -> seq<Term>)
    requires forall s <- spans :: s.start <= s.end <= |d.text|
    ensures forall c <- Chosen(d, spans, query, lexer) :: ItsSpan(c, query, lexer)
    decreases |spans|
  {
    hide Counts;
    if spans != [] {
      ChosenItsSpan(d, spans[1..], query, lexer);
    }
  }

  /** A candidate is determined by its document and its span. */
  lemma {:induction false} CandidateIsItsSpan(docs: seq<Document>, query: set<Term>, lexer: Bytes -> seq<Term>, i: nat)
    requires AllValid(docs) && i < |AllCandidates(docs, query, lexer)|
    ensures ItsSpan(AllCandidates(docs, query, lexer)[i], query, lexer)
    decreases |docs|
  {
    var front := AllCandidates(docs[..|docs| - 1], query, lexer);
    var d := docs[|docs| - 1];
    if i < |front| {
      CandidateIsItsSpan(docs[..|docs| - 1], query, lexer, i);
    } else if d.text != [] {
      SpansInside(d.text, 0);
      ChosenItsSpan(d, Spans(d.text, 0), query, lexer);
      hide ItsSpan, Valid, Chosen;
      assert AllCandidates(docs, query, lexer)[i] in DocumentCandidates(d, 0, query, lexer);
    }
  }

  /** Permuting the documents changes nothing in the answer. */
  lemma OrderOfDocumentsIrrelevant(docs: seq<Document>, docs': seq<Document>, query: Bytes, env: Env, r: Answer,
                                   r': Answer)
    requires AllValid(docs) && AllValid(docs') && multiset(docs) == multiset(docs') && (forall d <- docs :: Plain(d))
    requires Fair(env) && Answers(docs, query, env, r) && Answers(docs', query, env, r')
    ensures r == r'
  {
    var terms := QueryTerms(env.lexer(query));
    var cs, cs' := AllCandidates(docs, terms, env.lexer), AllCandidates(docs', terms, env.lexer);
    CandidatesPermute(docs, docs', terms, env.lexer);
    TotalPermutes(cs, cs', Matching);
    assert |multiset(cs)| == |multiset(cs')|;
    assert |multiset(docs)| == |multiset(docs')|;
    CandidatesTokened(docs, terms, env.lexer);
    CandidatesTokened(docs', terms, env.lexer);
    hide AllCandidates, Fair, TopEight, Tokened, AllValid, TotalOf;
    if r.Ranked? && r'.Ranked? {
      SelectedUnique(docs, docs', terms, env, r.selected, r'.selected);
    }
  }

  lemma SelectedUnique(docs: seq<Document>, docs': seq<Document>, terms: set<Term>, env: Env, a: seq<Scored>,
                       b: seq<Scored>)
    requires AllValid(docs) && AllValid(docs') && multiset(docs) == multiset(docs') && (forall d <- docs :: Plain(d))
             && Fair(env)
    requires var cs, cs' := AllCandidates(docs, terms, env.lexer), AllCandidates(docs', terms, env.lexer);
             && cs != [] && cs' != [] && Tokened(cs) && Tokened(cs')
             && TopEight(ScoreAll(cs, env.ordered(terms), cs, env.log), a, env)
             && TopEight(ScoreAll(cs', env.ordered(terms), cs', env.log), b, env)
    ensures a == b
  {
    hide AllCandidates, Fair, Identified, Score, Head, InOrder, ScoreAll, Tokened, Valid;
    var keys := env.ordered(terms);
    var cs, cs' := AllCandidates(docs, terms, env.lexer), AllCandidates(docs', terms, env.lexer);
    var pool, pool' := ScoreAll(cs, keys, cs, env.log), ScoreAll(cs', keys, cs', env.log);
    CandidatesPermute(docs, docs', terms, env.lexer);
    assert pool' == ScoreAll(cs', keys, cs, env.log) by {
      forall c
        ensures Score(c, keys, cs, env.log) == Score(c, keys, cs', env.log)
      {
        ScorePermutes(c, keys, cs, cs', env.log);
      }
    }
    ScoreAllPermutes(cs, cs', keys, cs, env.log);
    PoolIdentified(docs, terms, keys, env);
    var sorted :| multiset(sorted) == multiset(pool) && InOrder(sorted, env.before) && a == Head(sorted, 0);
    var sorted' :| multiset(sorted') == multiset(pool') && InOrder(sorted', env.before) && b == Head(sorted', 0);
    assert Identified(sorted) by {
      IdentifiedPermutes(pool, sorted);
    }
    OrderUnique(sorted, sorted', env);
  }

  lemma IdentifiedPermutes(a: seq<Scored>, b: seq<Scored>)
    requires Identified(a) && multiset(a) == multiset(b)
    ensures Identified(b)
  {
    assert forall x :: x in b ==> x in multiset(a);
  }

  // ---------------------------------------------------------------- scores and identifiers mean something

  /** A chunk of the documents scores above zero exactly when its text holds a query term. */
  lemma PositiveIffContains(docs: seq<Document>, terms: set<Term>, env: Env, i: nat)
    requires AllValid(docs) && Fair(env) && i < |AllCandidates(docs, terms, env.lexer)|
    ensures var cs := AllCandidates(docs, terms, env.lexer);
            var c := cs[i];
            && Tokened(cs) && c.span.start <= c.span.end <= |c.document.text|
            && (Score(c, env.ordered(terms), cs, env.log) > 0.0
                <==> exists t :: t in terms && t in env.lexer(c.document.text[c.span.start..c.span.end]))
  {
    var cs := AllCandidates(docs, terms, env.lexer);
    CandidatesTokened(docs, terms, env.lexer);
    CandidateIsItsSpan(docs, terms, env.lexer, i);
    hide AllCandidates, Score;
    var keys := env.ordered(terms);
    PositiveIffMatching(cs[i], keys, cs, env.log);
    assert multiset(keys) == multiset(terms);
    assert forall t :: t in keys <==> t in multiset(keys);
    assert forall t ::
        t in cs[i].counts <==> t in terms && t in env.lexer(cs[i].document.text[cs[i].span.start..cs[i].span.end]);
  }

  // ---------------------------------------------------------------- nothing is missed and nothing made up

  /** The tokens of a chunk. */
  function TokensAt(d: Document, s: Span, lexer: Bytes -> seq<Term>): seq<Term>
    requires s.start <= s.end <= |d.text|
  {
    lexer(d.text[s.start..s.end])
  }

  lemma {:induction false} ChosenComplete(d: Document, spans: seq<Span>, query: set<Term>, lexer: Bytes -> seq<Term>)
    requires forall s <- spans :: s.start <= s.end <= |d.text|
    ensures forall s <- spans :: TokensAt(d, s, lexer) != [] ==>
              CandidateOf(d, s, query, TokensAt(d, s, lexer)) in Chosen(d, spans, query, lexer)
    ensures forall c <- Chosen(d, spans, query, lexer) :: c.document == d && c.span in spans && c.length > 0
    decreases |spans|
  {
    if spans != [] {
      ChosenComplete(d, spans[1..], query, lexer);
      assert forall s <- spans :: s == spans[0] || s in spans[1..];
    }
  }

  lemma DocumentInside(t: Bytes)
    requires Valid(t)
    ensures forall s <- DocumentSpans(t) :: s.start <= s.end <= |t|
  {
    hide Valid, Spans;
    if t != [] {
      SpansInside(t, 0);
    }
  }

  /** The candidates are exactly the chunks that hold a token, of exactly the given documents. */
  lemma {:induction false} CandidatesExact(docs: seq<Document>, query: set<Term>, lexer: Bytes -> seq<Term>)
    requires AllValid(docs)
    ensures forall d <- docs :: forall s <- DocumentSpans(d.text) ::
              && s.start <= s.end <= |d.text|
              && (TokensAt(d, s, lexer) != [] ==>
                    CandidateOf(d, s, query, TokensAt(d, s, lexer)) in AllCandidates(docs, query, lexer))
    ensures forall c <- AllCandidates(docs, query, lexer) ::
              c.document in docs && c.span in DocumentSpans(c.document.text) && c.length > 0
    decreases |docs|
  {
    if docs != [] {
      hide Valid, Spans, Chosen, CandidateOf, TokensAt;
      var front, d := docs[..|docs| - 1], docs[|docs| - 1];
      CandidatesExact(front, query, lexer);
      DocumentInside(d.text);
      if d.text != [] {
        SpansInside(d.text, 0);
        ChosenComplete(d, Spans(d.text, 0), query, lexer);
      }
      AllCandidatesLast(docs, query, lexer);
      assert forall e <- docs :: e == d || e in front;
    }
  }

  /** An answer with sources holds only chunks of the given documents, each with a term of the query and with
      the score of its rank, at most eight and in order. */
  lemma NothingMadeUp(docs: seq<Document>, query: Bytes, env: Env, r: Answer, k: nat)
    requires AllValid(docs) && Fair(env) && Answers(docs, query, env, r) && r.Ranked? && k < |r.selected|
    ensures var terms := QueryTerms(env.lexer(query));
            var x := r.selected[k];
            && |r.selected| <= 8 && (forall j :: 0 <= j < k ==> NotAfter(r.selected[j], x, env))
            && x.chunk.document in docs && x.chunk.span in DocumentSpans(x.chunk.document.text)
            && x.chunk.span.start <= x.chunk.span.end <= |x.chunk.document.text| && x.score > 0.0
            && exists t :: t in terms && t in TokensAt(x.chunk.document, x.chunk.span, env.lexer)
  {
    var terms := QueryTerms(env.lexer(query));
    var cs := AllCandidates(docs, terms, env.lexer);
    CandidatesTokened(docs, terms, env.lexer);
    hide AllCandidates, ScoreAll, Score, TopEight, InOrder, Valid, Spans, DocumentSpans, Tokened, Fair, TotalOf;
    CandidatesExact(docs, terms, env.lexer);
    var i := SelectedFrom(cs, env.ordered(terms), r.selected, env, r.selected[k]);
    assert cs[i] in cs;
    PositiveIffContains(docs, terms, env, i);
    OrderMeans(env);
    hide Precedes, NotAfter;
    FirstIsNotAfter(r.selected, env, k);
  }

  lemma FirstIsNotAfter(selected: seq<Scored>, env: Env, k: nat)
    requires InOrder(selected, env.before) && k < |selected|
    requires forall a, b :: !Precedes(b, a, env.before) ==> NotAfter(a, b, env)
    ensures forall j :: 0 <= j < k ==> NotAfter(selected[j], selected[k], env)
  {
  }

  /** `a` stands rightly before `b`: it scores more, or as much and its identifier is not the greater. */
  predicate NotAfter(a: Scored, b: Scored, env: Env) {
    a.score > b.score || (a.score == b.score && !env.before(IdOf(b.chunk), IdOf(a.chunk)))
  }

  lemma OrderMeans(env: Env)
    ensures forall a, b :: !Precedes(b, a, env.before) ==> NotAfter(a, b, env)
  {
  }

  /** What is selected is one of the candidates, with its score. */
  lemma SelectedFrom(cs: seq<Candidate>, keys: seq<Term>, selected: seq<Scored>, env: Env, x: Scored) returns (i: nat)
    requires cs != [] && Tokened(cs) && TopEight(ScoreAll(cs, keys, cs, env.log), selected, env) && x in selected
    ensures |selected| <= 8 && InOrder(selected, env.before) && x.score > 0.0
    ensures i < |cs| && x == Scored(cs[i], Score(cs[i], keys, cs, env.log))
  {
    var pool := ScoreAll(cs, keys, cs, env.log);
    hide TopEight, InOrder, Score, Tokened;
    SelectionMeaning(pool, selected, env);
    i := FoundIn(selected, pool, x);
    assert pool[i] == Scored(cs[i], Score(cs[i], keys, cs, env.log));
  }

  lemma FoundIn<T>(a: seq<T>, b: seq<T>, x: T) returns (i: nat)
    requires multiset(a) <= multiset(b) && x in a
    ensures i < |b| && b[i] == x
  {
    assert x in multiset(b);
    i :| 0 <= i < |b| && b[i] == x;
  }

  /** A positive candidate is selected, or eight that it does not precede are. */
  lemma SelectedOrBeaten(cs: seq<Candidate>, keys: seq<Term>, selected: seq<Scored>, env: Env, i: nat)
    requires cs != [] && Tokened(cs) && TopEight(ScoreAll(cs, keys, cs, env.log), selected, env)
    requires i < |cs| && Score(cs[i], keys, cs, env.log) > 0.0
    ensures var x := Scored(cs[i], Score(cs[i], keys, cs, env.log));
            x in selected || (|selected| == 8 && forall y <- selected :: !Precedes(x, y, env.before))
  {
    var pool := ScoreAll(cs, keys, cs, env.log);
    var x := pool[i];
    hide TopEight, InOrder, Score, Precedes;
    SelectionMeaning(pool, selected, env);
    assert x in multiset(pool);
    if x !in selected {
      assert x in multiset(pool) - multiset(selected);
    }
  }

  ghost predicate Matches(c: Candidate, terms: set<Term>, lexer: Bytes -> seq<Term>) {
    exists t :: t in terms && HasTerm(c.document, c.span, t, lexer)
  }

  /** The counts of an answer are honest: the documents given, the chunks with a token, and those of them with a
      term of the query. */
  lemma CountsHonest(docs: seq<Document>, query: Bytes, env: Env, r: Answer)
    requires AllValid(docs) && Fair(env) && Answers(docs, query, env, r) && r.Ranked?
    ensures var terms := QueryTerms(env.lexer(query));
            var cs := AllCandidates(docs, terms, env.lexer);
            var matching := set i | 0 <= i < |cs| && Matches(cs[i], terms, env.lexer);
            r.documents == |docs| && r.candidates == |cs| && r.matches == |matching|
  {
    var terms := QueryTerms(env.lexer(query));
    var cs := AllCandidates(docs, terms, env.lexer);
    MatchesCounted(cs);
    hide AllCandidates, TotalOf, TopEight, ScoreAll;
    forall i | 0 <= i < |cs|
      ensures cs[i].counts != map[] <==> Matches(cs[i], terms, env.lexer)
    {
      CandidateIsItsSpan(docs, terms, env.lexer, i);
      CountsTerms(cs[i], terms, env.lexer);
    }
    var counted := set i | 0 <= i < |cs| && cs[i].counts != map[];
    var matching := set i | 0 <= i < |cs| && Matches(cs[i], terms, env.lexer);
    assert counted == matching;
  }

  lemma CountsTerms(c: Candidate, terms: set<Term>, lexer: Bytes -> seq<Term>)
    requires ItsSpan(c, terms, lexer)
    ensures c.counts != map[] <==> Matches(c, terms, lexer)
  {
    var tokens := lexer(c.document.text[c.span.start..c.span.end]);
    assert forall t :: t in c.counts <==> t in terms && t in tokens;
    assert c.counts != map[] <==> c.counts.Keys != {};
  }

  lemma {:induction false} MatchesCounted(cs: seq<Candidate>)
    ensures var matching := set i | 0 <= i < |cs| && cs[i].counts != map[]; TotalOf(cs, Matching) == |matching|
    decreases |cs|
  {
    if cs != [] {
      var front, k := cs[..|cs| - 1], |cs| - 1;
      MatchesCounted(front);
      assert TotalOf(cs, Matching) == TotalOf(front, Matching) + if cs[k].counts != map[] then 1 else 0;
      hide TotalOf;
      var some := set i | 0 <= i < |front| && front[i].counts != map[];
      var all := set i | 0 <= i < |cs| && cs[i].counts != map[];
      assert all == some + (if cs[k].counts != map[] then {k} else {});
      assert k !in some;
    }
  }

  /** A chunk with a term of the query is selected, unless eight chunks that it does not precede are. */
  lemma NothingMissed(docs: seq<Document>, query: Bytes, env: Env, r: Answer, d: Document, s: Span, t: Term)
    requires AllValid(docs) && Fair(env) && Answers(docs, query, env, r) && !r.BadQuery? && !r.TooManyChunks?
    requires d in docs && s in DocumentSpans(d.text) && s.start <= s.end <= |d.text|
    requires t in QueryTerms(env.lexer(query)) && t in TokensAt(d, s, env.lexer)
    ensures r.Ranked?
    ensures var terms := QueryTerms(env.lexer(query));
            var cs := AllCandidates(docs, terms, env.lexer);
            var c := CandidateOf(d, s, terms, TokensAt(d, s, env.lexer));
            && cs != [] && Tokened(cs)
            && var x := Scored(c, Score(c, env.ordered(terms), cs, env.log));
               x in r.selected || (|r.selected| == 8 && forall y <- r.selected :: NotAfter(y, x, env))
  {
    var terms := QueryTerms(env.lexer(query));
    var cs := AllCandidates(docs, terms, env.lexer);
    var c := CandidateOf(d, s, terms, TokensAt(d, s, env.lexer));
    var i := MatchingAt(docs, terms, env, d, s, t);
    hide AllCandidates, ScoreAll, Score, TopEight, Valid, Spans, DocumentSpans, Tokened, Precedes, TotalOf, CandidateOf,
         Chosen, Fair;
    CandidatesTokened(docs, terms, env.lexer);
    SelectedOrBeaten(cs, env.ordered(terms), r.selected, env, i);
    OrderMeans(env);
  }

  /** A chunk with a query term is a candidate with a positive score, and counts as a match. */
  lemma MatchingAt(docs: seq<Document>, terms: set<Term>, env: Env, d: Document, s: Span, t: Term) returns (i: nat)
    requires AllValid(docs) && Fair(env) && d in docs && s in DocumentSpans(d.text) && s.start <= s.end <= |d.text|
    requires t in terms && t in TokensAt(d, s, env.lexer)
    ensures var cs := AllCandidates(docs, terms, env.lexer);
            && i < |cs| && cs[i] == CandidateOf(d, s, terms, TokensAt(d, s, env.lexer)) && Tokened(cs)
            && TotalOf(cs, Matching) > 0 && Score(cs[i], env.ordered(terms), cs, env.log) > 0.0
  {
    var cs := AllCandidates(docs, terms, env.lexer);
    var c := CandidateOf(d, s, terms, TokensAt(d, s, env.lexer));
    assert c.counts[t] > 0;
    hide AllCandidates, Score, Valid, Spans, DocumentSpans, TotalOf, CandidateOf, Chosen, Fair;
    CandidatesExact(docs, terms, env.lexer);
    assert c in cs;
    i :| 0 <= i < |cs| && cs[i] == c;
    MatchCounted(cs, i);
    PositiveIffContains(docs, terms, env, i);
    assert t in env.lexer(c.document.text[c.span.start..c.span.end]);
  }

  /** When there is no ranking: the query has no term or more than 128, there are more than 12000 chunks, no
      chunk has a token, or none has a term of the query. */
  lemma WhyNoRanking(docs: seq<Document>, query: Bytes, env: Env, r: Answer)
    requires AllValid(docs) && Fair(env) && Answers(docs, query, env, r)
    ensures var terms := QueryTerms(env.lexer(query));
            var chunks := |AllCandidates(docs, terms, env.lexer)|;
            && (r.BadQuery? <==> |terms| == 0 || |terms| > 128)
            && (r.TooManyChunks? <==> !r.BadQuery? && chunks > 12000)
            && (!r.BadQuery? && !r.TooManyChunks? ==>
                  (r.NoSources? <==>
                     !exists d, s :: d in docs && s in DocumentSpans(d.text) && HasToken(d, s, env.lexer)))
            && (r.NoMatch? ==>
                  forall d <- docs :: forall s <- DocumentSpans(d.text) ::
                    forall t <- terms :: !HasTerm(d, s, t, env.lexer))
  {
    var terms := QueryTerms(env.lexer(query));
    var cs := AllCandidates(docs, terms, env.lexer);
    hide AllCandidates, ScoreAll, Score, TopEight, Valid, Spans, DocumentSpans, Tokened, Precedes, TotalOf, Chosen,
         Fair;
    CandidatesExact(docs, terms, env.lexer);
    if cs != [] {
      assert cs[0] in cs;
      SourceAt(docs, terms, env, cs[0]);
    }
    if r.NoMatch? {
      forall d, s, t | d in docs && s in DocumentSpans(d.text) && t in terms
        ensures !HasTerm(d, s, t, env.lexer)
      {
        if HasTerm(d, s, t, env.lexer) {
          NothingMissed(docs, query, env, r, d, s, t);
        }
      }
    }
  }

  predicate HasToken(d: Document, s: Span, lexer: Bytes -> seq<Term>) {
    s.start <= s.end <= |d.text| && lexer(d.text[s.start..s.end]) != []
  }

  predicate HasTerm(d: Document, s: Span, t: Term, lexer: Bytes -> seq<Term>) {
    s.start <= s.end <= |d.text| && t in lexer(d.text[s.start..s.end])
  }

  /** A candidate comes from a chunk with a token. */
  lemma SourceAt(docs: seq<Document>, terms: set<Term>, env: Env, c: Candidate)
    requires AllValid(docs) && c in AllCandidates(docs, terms, env.lexer)
    ensures c.document in docs && c.span in DocumentSpans(c.document.text) && HasToken(c.document, c.span, env.lexer)
  {
    CandidatesExact(docs, terms, env.lexer);
    var cs := AllCandidates(docs, terms, env.lexer);
    var i :| 0 <= i < |cs| && cs[i] == c;
    CandidateIsItsSpan(docs, terms, env.lexer, i);
    hide AllCandidates, Valid, Spans, DocumentSpans;
  }

  lemma {:induction false} MatchCounted(cs: seq<Candidate>, i: nat)
    requires i < |cs| && cs[i].counts != map[]
    ensures TotalOf(cs, Matching) > 0
    decreases |cs|
  {
    if i < |cs| - 1 {
      MatchCounted(cs[..|cs| - 1], i);
    }
  }

  predicate Apart(a: Candidate, b: Candidate) {
    a.document != b.document || a.span.start != b.span.start
  }

  lemma {:induction false} CandidatesApart(docs: seq<Document>, query: set<Term>, lexer: Bytes -> seq<Term>)
    requires AllValid(docs) && forall i, j :: 0 <= i < j < |docs| ==> docs[i] != docs[j]
    ensures var cs := AllCandidates(docs, query, lexer); forall i, j :: 0 <= i < j < |cs| ==> Apart(cs[i], cs[j])
    decreases |docs|
  {
    if docs != [] {
      var d := docs[|docs| - 1];
      var front := docs[..|docs| - 1];
      CandidatesApart(front, query, lexer);
      CandidatesTokened(front, query, lexer);
      DocumentApart(d, query, lexer);
      hide AllCandidates, Tokened, Valid, DocumentCandidates;
      assert d !in front;
      LastApart(AllCandidates(front, query, lexer), DocumentCandidates(d, 0, query, lexer), d);
      AllCandidatesLast(docs, query, lexer);
    }
  }

  lemma AllCandidatesLast(docs: seq<Document>, query: set<Term>, lexer: Bytes -> seq<Term>)
    requires AllValid(docs) && docs != []
    ensures AllCandidates(docs, query, lexer)
         == AllCandidates(docs[..|docs| - 1], query, lexer) + DocumentCandidates(docs[|docs| - 1], 0, query, lexer)
  {
  }

  lemma LastApart(a: seq<Candidate>, b: seq<Candidate>, d: Document)
    requires forall i, j :: 0 <= i < j < |a| ==> Apart(a[i], a[j])
    requires forall i, j :: 0 <= i < j < |b| ==> Apart(b[i], b[j])
    requires (forall c <- a :: c.document != d) && (forall c <- b :: c.document == d)
    ensures forall i, j :: 0 <= i < j < |a + b| ==> Apart((a + b)[i], (a + b)[j])
  {
  }

  lemma DocumentApart(d: Document, query: set<Term>, lexer: Bytes -> seq<Term>)
    requires Valid(d.text)
    ensures var cs := DocumentCandidates(d, 0, query, lexer);
            (forall c <- cs :: c.document == d) && forall i, j :: 0 <= i < j < |cs| ==> Apart(cs[i], cs[j])
  {
    if d.text != [] {
      var spans := Spans(d.text, 0);
      SpansInside(d.text, 0);
      ChosenTokened(d, spans, query, lexer);
      DocumentChain(d.text);
      forall j, k | 0 <= j < k < |spans|
        ensures spans[j].start < spans[k].start
      {
        StartsIncrease(d.text, 0, spans, j, k);
      }
      ChosenInOrder(d, spans, query, lexer);
      var cs := Chosen(d, spans, query, lexer);
      assert DocumentCandidates(d, 0, query, lexer) == cs;
      hide Valid, Spans, Chosen, Chain, DocumentCandidates;
      assert forall i, j :: 0 <= i < j < |cs| ==> Apart(cs[i], cs[j]);
      assert forall c <- cs :: c.document == d;
    }
  }

  /** An identifier says which chunk of which document it is. */
  lemma IdExact(a: Candidate, b: Candidate)
    requires Plain(a.document) && Plain(b.document)
    ensures IdOf(a) == IdOf(b) <==> a.document == b.document && a.span == b.span
  {
    if IdOf(a) == IdOf(b) {
      KeyInjective(a.document, b.document);
    }
  }

  /** Chunks of distinct documents have pairwise distinct identifiers. */
  lemma IdsDistinct(docs: seq<Document>, query: set<Term>, lexer: Bytes -> seq<Term>, i: nat, j: nat)
    requires AllValid(docs) && (forall d <- docs :: Plain(d))
    requires forall k, l :: 0 <= k < l < |docs| ==> docs[k] != docs[l]
    requires i < j < |AllCandidates(docs, query, lexer)|
    ensures IdOf(AllCandidates(docs, query, lexer)[i]) != IdOf(AllCandidates(docs, query, lexer)[j])
  {
    CandidatesApart(docs, query, lexer);
    CandidatesTokened(docs, query, lexer);
    hide AllCandidates;
    var cs := AllCandidates(docs, query, lexer);
    assert Apart(cs[i], cs[j]) && cs[i] in cs && cs[j] in cs;
    if IdOf(cs[i]) == IdOf(cs[j]) {
      KeyInjective(cs[i].document, cs[j].document);
    }
  }

  // ---------------------------------------------------------------- retrieveSources

  const MAX_QUERY := 8192
  const MAX_RESOURCES := 8
  const MAX_RESOURCE := 256 * 1024

  function TextBytes(docs: seq<Document>): nat {
    if docs == [] then 0 else TextBytes(docs[..|docs| - 1]) + |docs[|docs| - 1].text|
  }

  /** Each document adds at most one chunk more than its share of 1789 bytes each. */
  lemma {:induction false} CandidateBound(docs: seq<Document>, query: set<Term>, lexer: Bytes -> seq<Term>)
    requires AllValid(docs)
    ensures STRIDE * |AllCandidates(docs, query, lexer)| <= STRIDE * |docs| + TextBytes(docs)
    decreases |docs|
  {
    if docs != [] {
      var d := docs[|docs| - 1];
      CandidateBound(docs[..|docs| - 1], query, lexer);
      ChunkCount(d.text);
      if d.text != [] {
        SpansInside(d.text, 0);
        ChosenTokened(d, Spans(d.text, 0), query, lexer);
      }
      AllCandidatesLast(docs, query, lexer);
      assert STRIDE * |DocumentCandidates(d, 0, query, lexer)| <= STRIDE + |d.text|;
      hide AllCandidates, Chosen, Valid, DocumentCandidates;
    }
  }

  /** The text documents of a workspace: of a listed type, valid UTF-8 without NUL, not blank. */
  predicate Textual(f: File, listed: Bytes -> bool) {
    listed(f.name) && Valid(f.data) && 0 !in f.data && !BlankText(f.data)
  }

  const WORKSPACE: Bytes := [119, 111, 114, 107, 115, 112, 97, 99, 101]

  function DocumentOf(f: File): Document {
    Document(f.name, WORKSPACE, [], [], f.data)
  }

  function Documents(files: seq<File>, listed: Bytes -> bool): (docs: seq<Document>)
    ensures AllValid(docs) && |docs| <= |files| && TextBytes(docs) <= TotalBytes(files)
  {
    if files == [] then []
    else
      var rest := Documents(files[..|files| - 1], listed);
      var f := files[|files| - 1];
      if Textual(f, listed) then
        assert (rest + [DocumentOf(f)])[..|rest|] == rest;
        rest + [DocumentOf(f)]
      else rest
  }

  /** The documents are exactly the textual files of the workspace, under their names and with their text. */
  lemma {:induction false} DocumentsExact(files: seq<File>, listed: Bytes -> bool)
    ensures forall d: Document :: d in Documents(files, listed) <==>
              exists f :: && f in files && listed(f.name) && Valid(f.data) && 0 !in f.data && !BlankText(f.data)
                          && d.name == f.name && d.text == f.data && d.origin == WORKSPACE && d.endpoint == []
                             && d.uri == []
    decreases |files|
  {
    if files != [] {
      hide Valid, BlankText, WORKSPACE;
      var front, last := files[..|files| - 1], files[|files| - 1];
      DocumentsExact(front, listed);
      assert files == front + [last];
    }
  }

  /** What `readMCP` returns: at most eight documents of at most 256 KiB, all valid UTF-8. */
  ghost predicate Fetched(remote: seq<Document>) {
    |remote| <= MAX_RESOURCES && AllValid(remote) && forall d <- remote :: |d.text| <= MAX_RESOURCE
  }

  lemma {:induction false} FetchedBytes(remote: seq<Document>)
    requires forall d <- remote :: |d.text| <= MAX_RESOURCE
    ensures TextBytes(remote) <= MAX_RESOURCE * |remote|
    decreases |remote|
  {
    if remote != [] {
      FetchedBytes(remote[..|remote| - 1]);
    }
  }

  lemma {:induction false} TextBytesConcat(a: seq<Document>, b: seq<Document>)
    ensures TextBytes(a + b) == TextBytes(a) + TextBytes(b)
    decreases |b|
  {
    if b == [] {
      assert a + b == a;
    } else {
      assert (a + b)[..|a + b| - 1] == a + b[..|b| - 1];
      TextBytesConcat(a, b[..|b| - 1]);
    }
  }

  lemma GatheredLimits(files: seq<File>, remote: seq<Document>, listed: Bytes -> bool)
    requires WithinLimits(files) && Fetched(remote)
    ensures var docs := Documents(files, listed) + remote;
            && AllValid(docs) && |docs| <= MAX_ENTRIES + MAX_RESOURCES
            && TextBytes(docs) <= MAX_WORKSPACE + MAX_RESOURCES * MAX_RESOURCE
  {
    hide Documents, TotalBytes, TextBytes, Valid;
    FetchedBytes(remote);
    TextBytesConcat(Documents(files, listed), remote);
  }

  /** An exported workspace and the fetched resources yield at most 11558 chunks. */
  lemma ChunksWithinBudget(files: seq<File>, remote: seq<Document>, listed: Bytes -> bool, query: set<Term>,
                           lexer: Bytes -> seq<Term>)
    requires WithinLimits(files) && Fetched(remote)
    ensures AllValid(Documents(files, listed) + remote)
    ensures |AllCandidates(Documents(files, listed) + remote, query, lexer)| <= 11558
  {
    hide AllCandidates, Documents, TotalBytes, TextBytes, AllValid, WithinLimits, Fetched;
    GatheredLimits(files, remote, listed);
    CandidateBound(Documents(files, listed) + remote, query, lexer);
  }

  /** `retrieveSources` on the exported workspace and the resources of the MCP server, if any: the
      answer is that of `rankSources`, and the limit of 12000 chunks is never met. */
  method RetrieveSources(files: seq<File>, remote: seq<Document>, listed: Bytes -> bool, query: Bytes, env: Env)
    returns (r: Answer)
    requires WithinLimits(files) && Fetched(remote) && Fair(env)
    ensures r.QueryTooLong? <==> |query| > MAX_QUERY
    ensures !r.TooManyChunks?
    ensures |query| <= MAX_QUERY ==> Answers(Documents(files, listed) + remote, query, env, r)
  {
    if |query| > MAX_QUERY {
      return QueryTooLong;
    }
    hide TextBytes, TotalBytes, Fair, WithinLimits, Fetched, Answers, Textual;
    var docs := [];
    for i := 0 to |files|
      invariant docs == Documents(files[..i], listed)
    {
      assert files[..i + 1][..i] == files[..i];
      if Textual(files[i], listed) {
        docs := docs + [DocumentOf(files[i])];
      }
    }
    assert files[..|files|] == files;
    ChunksWithinBudget(files, remote, listed, QueryTerms(env.lexer(query)), env.lexer);
    r := RankSources(docs + remote, query, env);
    AnswerKind(docs + remote, query, env, r);
  }

  lemma AnswerKind(docs: seq<Document>, query: Bytes, env: Env, r: Answer)
    requires AllValid(docs) && Answers(docs, query, env, r)
    requires |AllCandidates(docs, QueryTerms(env.lexer(query)), env.lexer)| <= MAX_CHUNKS
    ensures !r.TooManyChunks? && !r.QueryTooLong?
  {
  }
}
