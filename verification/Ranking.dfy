/** internal/core/retrieval.go: scores, the order of the chunks and the selection of the first eight.
    Scores are exact real numbers. */
module Ranking {
  import opened Foundations
  import opened Utf8
  import opened Chunks
  import opened Retrieval

  // ---------------------------------------------------------------- scores

  function Idf(n: nat, df: nat, log: real -> real): real {
    log(1.0 + ((n - df) as real + 0.5) / (df as real + 0.5))
  }

  function Spread(tf: nat, length: nat, average: real): real
    requires average != 0.0
  {
    tf as real + 1.2 * (0.25 + 0.75 * length as real / average)
  }

  function Weight(tf: nat, length: nat, idf: real, average: real): real
    requires average > 0.0
  {
    SpreadPositive(tf, length, average);
    idf * tf as real * 2.2 / Spread(tf, length, average)
  }

  lemma QuotientPositive(a: real, b: real)
    requires a > 0.0 && b > 0.0
    ensures a / b > 0.0
  {
  }

  lemma SpreadPositive(tf: nat, length: nat, average: real)
    requires average > 0.0
    ensures Spread(tf, length, average) > 0.0
  {
  }

  lemma WeightPositive(tf: nat, length: nat, idf: real, average: real)
    requires tf > 0 && idf > 0.0 && average > 0.0
    ensures Weight(tf, length, idf, average) > 0.0
  {
  }

  lemma ProductPositive(a: real, b: real)
    requires a > 0.0 && b > 0.0
    ensures a * b > 0.0
  {
  }

  /** A product that need not be multiplied out. */
  function Times(x: real, y: real): real {
    x * y
  }

  lemma QuotientOrder(a: real, b: real, c: real, d: real)
    requires b > 0.0 && d > 0.0 && Times(a, d) < Times(c, b)
    ensures a / b < c / d
  {
    var x, y := a / b, c / d;
    assert a == x * b && c == y * d;
    assert x * b * d == x * (b * d) && y * d * b == y * (b * d);
    ProductPositive(b, d);
  }

  lemma Rises(a: real, t: real, m: real, k: real)
    requires a > 0.0 && t < m && k > 0.0
    ensures Times(a * t, m + k) < Times(a * m, t + k)
  {
    ProductPositive(a, k);
    ProductPositive(a * k, m - t);
    assert a * k * (m - t) == a * k * m - a * k * t;
    assert a * t * (m + k) == a * t * m + a * t * k;
    assert a * m * (t + k) == a * m * t + a * m * k;
    assert a * t * m == a * m * t && a * t * k == a * k * t && a * m * k == a * k * m;
  }

  lemma Scales(c: real, x: real, y: real)
    requires c > 0.0 && x < y
    ensures Times(c, x) < Times(c, y)
  {
  }

  /** The saturating part of a weight: `a` per occurrence, damped by `k`. */
  function Damped(a: real, t: real, k: real): real
    requires t + k > 0.0
  {
    a * t / (t + k)
  }

  lemma Saturates(a: real, t: real, m: real, k: real)
    requires a > 0.0 && 0.0 < t < m && 0.0 < k
    ensures Damped(a, t, k) < Damped(a, m, k) < a
  {
    hide Times;
    Rises(a, t, m, k);
    QuotientOrder(a * t, t + k, a * m, m + k);
    BelowLimit(a, m, k);
  }

  lemma BelowLimit(a: real, m: real, k: real)
    requires a > 0.0 && 0.0 < m && 0.0 < k
    ensures a * m / (m + k) < a
  {
    Scales(a, m, m + k);
    assert Times(a * m, 1.0) < Times(a, m + k);
    hide Times;
    QuotientOrder(a * m, m + k, a, 1.0);
  }

  lemma Dampens(a: real, t: real, k: real, l: real)
    requires a > 0.0 && 0.0 < t && 0.0 < k < l
    ensures Damped(a, t, l) < Damped(a, t, k)
  {
    ProductPositive(a, t);
    Scales(a * t, t + k, t + l);
    hide Times;
    QuotientOrder(a * t, t + l, a * t, t + k);
  }

  /** More occurrences of a term weigh more, but never as much as 2.2 times its rarity; a longer chunk
      weighs less. */
  lemma WeightMeaning(tf: nat, more: nat, length: nat, longer: nat, idf: real, average: real)
    requires 0 < tf < more && length < longer && idf > 0.0 && average > 0.0
    ensures Weight(tf, length, idf, average) < Weight(more, length, idf, average) < 2.2 * idf
    ensures Weight(tf, longer, idf, average) < Weight(tf, length, idf, average)
  {
    var a, k, l := idf * 2.2, Spread(0, length, average), Spread(0, longer, average);
    LongerSpreads(length, longer, average);
    hide Weight, Spread, Damped;
    Saturates(a, tf as real, more as real, k);
    Dampens(a, tf as real, k, l);
    WeightIs(tf, length, idf, average);
    WeightIs(more, length, idf, average);
    WeightIs(tf, longer, idf, average);
  }

  lemma LongerSpreads(length: nat, longer: nat, average: real)
    requires length < longer && average > 0.0
    ensures 0.0 < Spread(0, length, average) < Spread(0, longer, average)
  {
    SpreadPositive(0, length, average);
    assert Times(0.75 * length as real, average) < Times(0.75 * longer as real, average);
    hide Times;
    QuotientOrder(0.75 * length as real, average, 0.75 * longer as real, average);
  }

  lemma WeightIs(tf: nat, length: nat, idf: real, average: real)
    requires average > 0.0 && tf > 0
    ensures tf as real + Spread(0, length, average) > 0.0
    ensures Weight(tf, length, idf, average) == Damped(idf * 2.2, tf as real, Spread(0, length, average))
  {
    SpreadPositive(0, length, average);
    assert idf * tf as real * 2.2 == idf * 2.2 * tf as real;
  }

  function Average(cs: seq<Candidate>): real
    requires cs != []
  {
    TotalOf(cs, Length) as real / |cs| as real
  }

  ghost predicate Tokened(cs: seq<Candidate>) {
    forall c <- cs :: c.length > 0 && forall t :: t in c.counts ==> c.counts[t] > 0
  }

  lemma {:induction false} TotalBounds(cs: seq<Candidate>, t: Term)
    requires Tokened(cs)
    ensures TotalOf(cs, Length) >= |cs| && TotalOf(cs, Holding(t)) <= |cs|
    decreases |cs|
  {
    if cs != [] {
      TotalBounds(cs[..|cs| - 1], t);
    }
  }

  lemma AveragePositive(cs: seq<Candidate>)
    requires cs != [] && Tokened(cs)
    ensures Average(cs) > 0.0
  {
  }

  /** The average length lies between the least and the greatest, and is theirs if they are one. */
  lemma AverageBetween(cs: seq<Candidate>, least: nat, greatest: nat)
    requires cs != [] && forall c <- cs :: least <= c.length <= greatest
    ensures least as real <= Average(cs) <= greatest as real
  {
    LengthBetween(cs, least, greatest);
    var n, total := |cs|, TotalOf(cs, Length);
    hide TotalOf;
    RealProduct(least, n);
    RealProduct(greatest, n);
    hide Times;
    QuotientBetween(total as real, n as real, least as real, greatest as real);
  }

  lemma RealProduct(a: nat, b: nat)
    ensures (a * b) as real == Times(a as real, b as real)
  {
  }

  lemma QuotientBetween(x: real, n: real, low: real, high: real)
    requires n > 0.0 && Times(low, n) <= x <= Times(high, n)
    ensures low <= x / n <= high
  {
    var q := x / n;
    assert x == Times(n, q);
    assert Times(low, n) == Times(n, low) && Times(high, n) == Times(n, high);
    hide Times;
    if q < low {
      Scales(n, q, low);
    }
    if high < q {
      Scales(n, high, q);
    }
  }

  lemma {:induction false} LengthBetween(cs: seq<Candidate>, least: nat, greatest: nat)
    requires forall c <- cs :: least <= c.length <= greatest
    ensures least * |cs| <= TotalOf(cs, Length) <= greatest * |cs|
    decreases |cs|
  {
    if cs != [] {
      var front, last := cs[..|cs| - 1], cs[|cs| - 1];
      LengthBetween(front, least, greatest);
      assert last in cs;
      OneMoreTime(least, |front|);
      OneMoreTime(greatest, |front|);
      assert TotalOf(cs, Length) == TotalOf(front, Length) + last.length;
      hide TotalOf;
    }
  }

  lemma OneMoreTime(a: nat, n: nat)
    ensures a * (n + 1) == a * n + a
  {
  }

  /** The BM25 sum of a candidate over the query terms `keys`. */
  function Score(c: Candidate, keys: seq<Term>, cs: seq<Candidate>, log: real -> real): real
    requires cs != [] && Tokened(cs)
  {
    if keys == [] then 0.0
    else
      AveragePositive(cs);
      var t := keys[|keys| - 1];
      Score(c, keys[..|keys| - 1], cs, log)
      + (if t in c.counts then Weight(c.counts[t], c.length, Idf(|cs|, TotalOf(cs, Holding(t)), log), Average(cs))
         else 0.0)
  }

  lemma IdfPositive(n: nat, df: nat, log: real -> real)
    requires df <= n && forall x :: x > 1.0 ==> log(x) > 0.0
    ensures Idf(n, df, log) > 0.0
  {
    QuotientPositive((n - df) as real + 0.5, df as real + 0.5);
  }

  /** A chunk scores above zero exactly when it holds one of the query terms. */
  lemma {:induction false} PositiveIffMatching(c: Candidate, keys: seq<Term>, cs: seq<Candidate>, log: real -> real)
    requires c in cs && Tokened(cs) && forall x :: x > 1.0 ==> log(x) > 0.0
    ensures Score(c, keys, cs, log) >= 0.0
    ensures Score(c, keys, cs, log) > 0.0 <==> exists t :: t in keys && t in c.counts
    decreases |keys|
  {
    if keys != [] {
      var t := keys[|keys| - 1];
      PositiveIffMatching(c, keys[..|keys| - 1], cs, log);
      if t in c.counts {
        TotalBounds(cs, t);
        IdfPositive(|cs|, TotalOf(cs, Holding(t)), log);
        AveragePositive(cs);
        WeightPositive(c.counts[t], c.length, Idf(|cs|, TotalOf(cs, Holding(t)), log), Average(cs));
      }
      assert forall u :: u in keys <==> u in keys[..|keys| - 1] || u == t;
      hide Weight, Idf, TotalOf, Average;
    }
  }

  // ---------------------------------------------------------------- rare terms weigh more

  ghost predicate Increasing(log: real -> real) {
    forall x, y :: 1.0 < x < y ==> log(x) < log(y)
  }

  /** The fewer chunks hold a term, the rarer it is. */
  lemma RarerTerm(n: nat, few: nat, many: nat, log: real -> real)
    requires few < many <= n && Increasing(log)
    ensures Idf(n, many, log) < Idf(n, few, log)
  {
    var a, b, c, d := (n - many) as real + 0.5, many as real + 0.5, (n - few) as real + 0.5, few as real + 0.5;
    Scales(a, d, b);
    Scales(b, a, c);
    assert Times(a, b) == Times(b, a) && Times(b, c) == Times(c, b);
    hide Times;
    QuotientOrder(a, b, c, d);
    QuotientPositive(a, b);
  }

  /** For the same occurrences a greater rarity weighs more. */
  lemma RarityWeighs(tf: nat, length: nat, common: real, rare: real, average: real)
    requires tf > 0 && 0.0 < common < rare && average > 0.0
    ensures Weight(tf, length, common, average) < Weight(tf, length, rare, average)
  {
    var t, k := tf as real, Spread(0, length, average);
    SpreadPositive(0, length, average);
    WeightIs(tf, length, common, average);
    WeightIs(tf, length, rare, average);
    hide Weight, Spread;
    Scales(t, common * 2.2, rare * 2.2);
    assert common * 2.2 * t == Times(t, common * 2.2) && rare * 2.2 * t == Times(t, rare * 2.2);
    Scales(t + k, common * 2.2 * t, rare * 2.2 * t);
    assert Times(t + k, common * 2.2 * t) == Times(common * 2.2 * t, t + k);
    assert Times(t + k, rare * 2.2 * t) == Times(rare * 2.2 * t, t + k);
    hide Times;
    QuotientOrder(common * 2.2 * t, t + k, rare * 2.2 * t, t + k);
  }

  /** Where the curve is anchored: one occurrence in a chunk of average length weighs exactly the rarity, and
      in a chunk of twice that length it takes seven occurrences to weigh what four weigh there. */
  lemma WeightAnchors(length: nat, idf: real)
    requires length > 0
    ensures Weight(1, length, idf, length as real) == idf
    ensures Weight(7, 2 * length, idf, length as real) == Weight(4, length, idf, length as real)
  {
    var l := length as real;
    Proportion(l);
    assert Spread(1, length, l) == 2.2 && Spread(4, length, l) == 5.2 && Spread(7, 2 * length, l) == 9.1;
    hide Spread;
    assert idf * 1.0 * 2.2 / 2.2 == idf;
  }

  lemma Proportion(l: real)
    requires l > 0.0
    ensures 0.75 * l / l == 0.75 && 0.75 * (2.0 * l) / l == 1.5
  {
    assert 0.75 * (2.0 * l) == 1.5 * l;
  }

  /** A candidate with a single query term scores what that term weighs. */
  lemma {:induction false} ScoreSingle(c: Candidate, keys: seq<Term>, cs: seq<Candidate>, log: real -> real, t: Term)
    requires cs != [] && Tokened(cs) && Average(cs) > 0.0 && c.counts.Keys == {t}
    requires forall i, j :: 0 <= i < j < |keys| ==> keys[i] != keys[j]
    ensures Score(c, keys, cs, log)
         == if t in keys then Weight(c.counts[t], c.length, Idf(|cs|, TotalOf(cs, Holding(t)), log), Average(cs))
           else 0.0
    decreases |keys|
  {
    hide Weight, Idf, Average, TotalOf;
    if keys != [] {
      var front := keys[..|keys| - 1];
      ScoreSingle(c, front, cs, log, t);
      assert keys == front + [keys[|keys| - 1]];
      assert forall u :: u in c.counts <==> u in c.counts.Keys;
    }
  }

  /** Of two candidates of the same length, each with one query term and as many occurrences of it, the one
      whose term fewer chunks hold has the greater score and comes first. */
  lemma RarerFirst(a: Candidate, b: Candidate, keys: seq<Term>, cs: seq<Candidate>, env: Env, rare: Term, common: Term)
    requires Fair(env) && Tokened(cs) && a in cs && b in cs && a.length == b.length
    requires forall i, j :: 0 <= i < j < |keys| ==> keys[i] != keys[j]
    requires rare in keys && common in keys
    requires a.counts.Keys == {rare} && b.counts.Keys == {common} && a.counts[rare] == b.counts[common]
    requires TotalOf(cs, Holding(rare)) < TotalOf(cs, Holding(common))
    ensures Score(b, keys, cs, env.log) < Score(a, keys, cs, env.log)
    ensures Precedes(Scored(a, Score(a, keys, cs, env.log)), Scored(b, Score(b, keys, cs, env.log)), env.before)
  {
    AveragePositive(cs);
    TotalBounds(cs, common);
    var n, few, many := |cs|, TotalOf(cs, Holding(rare)), TotalOf(cs, Holding(common));
    IdfPositive(n, many, env.log);
    RarerTerm(n, few, many, env.log);
    assert a.counts[rare] > 0 by {
      assert rare in a.counts;
    }
    ScoreSingle(a, keys, cs, env.log, rare);
    ScoreSingle(b, keys, cs, env.log, common);
    hide Weight, Idf, Average, TotalOf, Score;
    RarityWeighs(a.counts[rare], a.length, Idf(n, many, env.log), Idf(n, few, env.log), Average(cs));
  }

  /** The inner loop over the sorted query terms. */
  method ComputeScore(c: Candidate, keys: seq<Term>, ghost cs: seq<Candidate>, n: nat, df: map<Term, nat>,
                      average: real,
                      log: real -> real) returns (score: real)
    requires c in cs && Tokened(cs) && n == |cs| && average == Average(cs)
    requires forall t :: Lookup(df, t) == TotalOf(cs, Holding(t))
    ensures score == Score(c, keys, cs, log)
  {
    AveragePositive(cs);
    hide Weight, Idf, Average, TotalOf;
    score := 0.0;
    for k := 0 to |keys|
      invariant score == Score(c, keys[..k], cs, log)
    {
      assert keys[..k + 1][..k] == keys[..k];
      var tf := Lookup(c.counts, keys[k]);
      if tf != 0 {
        var idf := Idf(n, Lookup(df, keys[k]), log);
        score := score + Weight(tf, c.length, idf, average);
      }
    }
    assert keys[..|keys|] == keys;
  }

  // ---------------------------------------------------------------- the order of the chunks

  /** `a` comes before `b`: the greater score, and among equals the lesser identifier. */
  predicate Precedes(a: Scored, b: Scored, before: (ChunkId, ChunkId) -> bool) {
    a.score > b.score || (a.score == b.score && before(IdOf(a.chunk), IdOf(b.chunk)))
  }

  ghost predicate InOrder(s: seq<Scored>, before: (ChunkId, ChunkId) -> bool) {
    forall i, j :: 0 <= i < j < |s| ==> !Precedes(s[j], s[i], before)
  }

  lemma PrecedesTransitive(a: Scored, b: Scored, c: Scored, env: Env)
    requires Fair(env) && Precedes(a, b, env.before) && !Precedes(c, b, env.before)
    ensures Precedes(a, c, env.before)
  {
  }

  /** `sort.Slice` with the order of the chunks. */
  method Sort(s: seq<Scored>, env: Env) returns (sorted: seq<Scored>)
    requires Fair(env)
    ensures multiset(sorted) == multiset(s) && InOrder(sorted, env.before)
  {
    sorted := [];
    for i := 0 to |s|
      invariant multiset(sorted) == multiset(s[..i]) && InOrder(sorted, env.before)
    {
      assert s[..i + 1] == s[..i] + [s[i]];
      sorted := Insert(sorted, s[i], env);
    }
    assert s[..|s|] == s;
  }

  lemma InsertedInOrder(s: seq<Scored>, p: nat, x: Scored, before: (ChunkId, ChunkId) -> bool)
    requires InOrder(s, before) && p <= |s|
    requires forall k :: 0 <= k < p ==> !Precedes(x, s[k], before)
    requires forall k :: p <= k < |s| ==> !Precedes(s[k], x, before)
    ensures InOrder(s[..p] + [x] + s[p..], before)
    ensures multiset(s[..p] + [x] + s[p..]) == multiset(s) + multiset{x}
  {
    hide Precedes;
    var r := s[..p] + [x] + s[p..];
    assert s == s[..p] + s[p..];
    forall i, j | 0 <= i < j < |r|
      ensures !Precedes(r[j], r[i], before)
    {
      assert i != p ==> r[i] == s[if i < p then i else i - 1];
      assert j != p ==> r[j] == s[if j < p then j else j - 1];
    }
  }

  method Insert(s: seq<Scored>, x: Scored, env: Env) returns (r: seq<Scored>)
    requires Fair(env) && InOrder(s, env.before)
    ensures multiset(r) == multiset(s) + multiset{x} && InOrder(r, env.before)
  {
    var p := 0;
    while p < |s| && !Precedes(x, s[p], env.before)
      invariant p <= |s| && forall k :: 0 <= k < p ==> !Precedes(x, s[k], env.before)
    {
      p := p + 1;
    }
    forall k | p <= k < |s|
      ensures !Precedes(s[k], x, env.before)
    {
      if k > p {
        PrecedesTransitive(x, s[p], s[k], env);
      }
    }
    InsertedInOrder(s, p, x, env.before);
    r := s[..p] + [x] + s[p..];
  }

  /** The positive ones among the first eight. */
  function Head(sorted: seq<Scored>, k: nat): seq<Scored>
    requires k <= |sorted|
    decreases |sorted| - k
  {
    if k == |sorted| || sorted[k].score <= 0.0 || k == MAX_SELECTED then [] else [sorted[k]] + Head(sorted, k + 1)
  }

  method Select(sorted: seq<Scored>) returns (selected: seq<Scored>)
    ensures selected == Head(sorted, 0)
  {
    selected := [];
    for k := 0 to |sorted|
      invariant |selected| == k && selected + Head(sorted, k) == Head(sorted, 0)
    {
      if sorted[k].score <= 0.0 || |selected| == MAX_SELECTED {
        return;
      }
      selected := selected + [sorted[k]];
    }
  }

  /** `selected` is the beginning of an order of the pool: at most eight, all positive, and nothing
      better is left out. */
  ghost predicate TopEight(pool: seq<Scored>, selected: seq<Scored>, env: Env) {
    exists sorted :: multiset(sorted) == multiset(pool) && InOrder(sorted, env.before) && selected == Head(sorted, 0)
  }

  lemma {:induction false} HeadFacts(sorted: seq<Scored>, k: nat, env: Env)
    requires InOrder(sorted, env.before) && k <= |sorted| && k <= MAX_SELECTED
    ensures var h := Head(sorted, k);
            && k + |h| <= |sorted| && h == sorted[k..k + |h|] && k + |h| <= MAX_SELECTED
            && (forall s <- h :: s.score > 0.0)
            && (k + |h| < MAX_SELECTED ==> forall i :: k + |h| <= i < |sorted| ==> sorted[i].score <= 0.0)
    decreases |sorted| - k
  {
    if k < |sorted| && sorted[k].score > 0.0 && k < MAX_SELECTED {
      HeadFacts(sorted, k + 1, env);
      assert Head(sorted, k) == [sorted[k]] + Head(sorted, k + 1);
    } else if k < |sorted| {
      forall i | k <= i < |sorted|
        ensures sorted[i].score <= sorted[k].score
      {
        assert i > k ==> !Precedes(sorted[i], sorted[k], env.before);
      }
    }
  }

  /** What a selection is, without an order of the rest: at most eight chunks of the pool, all
      positive and in order; and fewer than eight only when no other positive chunk exists. */
  lemma SelectionMeaning(pool: seq<Scored>, selected: seq<Scored>, env: Env)
    requires TopEight(pool, selected, env)
    ensures |selected| <= MAX_SELECTED && InOrder(selected, env.before) && multiset(selected) <= multiset(pool)
    ensures forall s <- selected :: s.score > 0.0
    ensures forall c :: c in multiset(pool) - multiset(selected) && c.score > 0.0
              ==> |selected| == MAX_SELECTED && forall s <- selected :: !Precedes(c, s, env.before)
  {
    var sorted :| multiset(sorted) == multiset(pool) && InOrder(sorted, env.before) && selected == Head(sorted, 0);
    HeadFacts(sorted, 0, env);
    var n := |selected|;
    hide Precedes, Head, InOrder;
    PrefixInOrder(sorted, n, env.before);
    assert selected == sorted[..n];
    RestOf(pool, sorted, n);
    forall c | c in multiset(pool) - multiset(selected) && c.score > 0.0
      ensures |selected| == MAX_SELECTED && forall s <- selected :: !Precedes(c, s, env.before)
    {
      assert exists i :: n <= i < |sorted| && sorted[i] == c;
      var i :| n <= i < |sorted| && sorted[i] == c;
    }
  }

  lemma RestOf(pool: seq<Scored>, sorted: seq<Scored>, n: nat)
    requires multiset(sorted) == multiset(pool) && n <= |sorted|
    ensures multiset(sorted[..n]) <= multiset(pool)
    ensures forall c :: c in multiset(pool) - multiset(sorted[..n]) ==> exists i :: n <= i < |sorted| && sorted[i] == c
  {
    var rest := sorted[n..];
    assert sorted == sorted[..n] + rest;
    assert multiset(pool) - multiset(sorted[..n]) == multiset(rest);
    forall c | c in multiset(rest)
      ensures exists i :: n <= i < |sorted| && sorted[i] == c
    {
      assert c in rest;
      var k :| 0 <= k < |rest| && rest[k] == c;
      assert sorted[n + k] == c;
    }
  }

  lemma PrefixInOrder(sorted: seq<Scored>, n: nat, before: (ChunkId, ChunkId) -> bool)
    requires InOrder(sorted, before) && n <= |sorted|
    ensures InOrder(sorted[..n], before)
    ensures forall i :: n <= i < |sorted| ==> forall s <- sorted[..n] :: !Precedes(sorted[i], s, before)
  {
  }
}
