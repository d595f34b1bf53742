/** Runs, taken apart. */
module Runs {
  import opened World

  lemma {:induction false} RunSplits(w: World, past: seq<Step>, future: seq<Step>)
    ensures Run(w, past + future) == Run(Run(w, past), future)
    decreases |past|
  {
    if past == [] {
      assert past + future == future;
    } else {
      hide Apply;
      assert (past + future)[1..] == past[1..] + future;
      RunSplits(Apply(w, past[0]), past[1..], future);
    }
  }

  lemma RunNone(w: World)
    ensures Run(w, []) == w
  {
  }

  lemma RunOne(w: World, s: Step)
    ensures Run(w, [s]) == Apply(w, s)
  {
    hide Apply;
    assert [s][1..] == [];
    assert Run(Apply(w, s), []) == Apply(w, s);
  }

  lemma RunTwo(w: World, a: Step, b: Step)
    ensures Run(w, [a, b]) == Apply(Apply(w, a), b)
  {
    hide Apply, Run;
    assert [a, b] == [a] + [b];
    RunSplits(w, [a], [b]);
    RunOne(w, a);
    RunOne(Apply(w, a), b);
  }

  lemma RunThree(w: World, a: Step, b: Step, c: Step)
    ensures Run(w, [a, b, c]) == Apply(Apply(Apply(w, a), b), c)
  {
    hide Apply, Run;
    assert [a, b, c] == [a, b] + [c];
    RunSplits(w, [a, b], [c]);
    RunTwo(w, a, b);
    RunOne(Apply(Apply(w, a), b), c);
  }

  lemma RunFour(w: World, a: Step, b: Step, c: Step, d: Step)
    ensures Run(w, [a, b, c, d]) == Apply(Apply(Apply(Apply(w, a), b), c), d)
  {
    hide Apply, Run;
    assert [a, b, c, d] == [a, b, c] + [d];
    RunSplits(w, [a, b, c], [d]);
    RunThree(w, a, b, c);
    RunOne(Apply(Apply(Apply(w, a), b), c), d);
  }

  lemma RunFive(w: World, a: Step, b: Step, c: Step, d: Step, e: Step)
    ensures Run(w, [a, b, c, d, e]) == Apply(Apply(Apply(Apply(Apply(w, a), b), c), d), e)
  {
    hide Apply, Run;
    assert [a, b, c, d, e] == [a, b, c, d] + [e];
    RunSplits(w, [a, b, c, d], [e]);
    RunFour(w, a, b, c, d);
    RunOne(Apply(Apply(Apply(Apply(w, a), b), c), d), e);
  }
}
