/** Runs of the benchmp protocol that come to their end: every run can be continued to one, and the end
    decides how many slots the merged list takes. */
module BenchmpCompletion {
  import opened Arith
  import opened Results
  import opened Benchmp
  import opened BenchmpInvariant
  import opened BenchmpTheorems

  /** No child has stored a sample of time 0. */
  ghost predicate AllNonzero(cs: seq<Child>) {
    forall c :: 0 <= c < |cs| ==> Positive(cs[c].taken)
  }

  lemma NonzeroStep(cfg: Config, s: State, a: Action)
    requires Enabled(cfg, s, a) && Productive(a) && AllNonzero(s.children)
    ensures AllNonzero(Apply(cfg, s, a).children)
  {
  }

  lemma ExtendRun(cfg: Config, run: seq<State>, s: State)
    requires Run(cfg, run) && Step(cfg, run[|run| - 1], s)
    ensures Run(cfg, run + [s])
  {
    var longer := run + [s];
    forall t | 0 <= t < |longer| - 1
      ensures Step(cfg, longer[t], longer[t + 1])
    {
      if t < |run| - 1 { assert Step(cfg, run[t], run[t + 1]); }
    }
  }

  /** A run that is not at its end has a next state with less work left. */
  lemma NextState(cfg: Config, run: seq<State>) returns (s': State)
    requires cfg.Ok() && Run(cfg, run) && !Complete(run[|run| - 1])
    ensures Run(cfg, run + [s']) && 0 <= Work(cfg, s') < Work(cfg, run[|run| - 1])
    ensures AllNonzero(run[|run| - 1].children) ==> AllNonzero(s'.children)
  {
    var s := run[|run| - 1];
    NoDeadlock(cfg, s);
    var a :| CanMove(cfg, s, a) && Productive(a);
    s' := Apply(cfg, s, a);
    ExtendRun(cfg, run, s');
    LessWork(cfg, run, s');
    if AllNonzero(s.children) { NonzeroStep(cfg, s, a); }
  }

  lemma LessWork(cfg: Config, run: seq<State>, s': State)
    requires cfg.Ok() && Run(cfg, run + [s']) && run != [] && Run(cfg, run) && s' != run[|run| - 1]
    requires Step(cfg, run[|run| - 1], s')
    ensures 0 <= Work(cfg, s') < Work(cfg, run[|run| - 1])
  {
    RunInv(cfg, run, |run| - 1);
    RunInv(cfg, run + [s'], |run|);
    StepProgress(cfg, run[|run| - 1], s');
    WorkBound(cfg, s');
  }

  /** Every run can be continued to the end of the protocol, where the parent has finished and all
      children have exited; if no sample so far was of time 0, then without any such sample. */
  lemma {:induction false} Completes(cfg: Config, run: seq<State>) returns (longer: seq<State>)
    requires cfg.Ok() && Run(cfg, run)
    ensures Run(cfg, longer) && run <= longer && Complete(longer[|longer| - 1])
    ensures AllNonzero(run[|run| - 1].children) ==> AllNonzero(longer[|longer| - 1].children)
    decreases Work(cfg, run[|run| - 1])
  {
    if Complete(run[|run| - 1]) {
      longer := run;
    } else {
      var s' := NextState(cfg, run);
      longer := Completes(cfg, run + [s']);
    }
  }

  // ----- the slots of the merged list

  /** The parent has merged all lists. */
  predicate Merged(p: Parent) {
    p.AllowDeath? || p.SendExit? || p.Finished?
  }

  lemma {:induction false} SamplesCount(cs: seq<Child>, rounds: nat)
    requires AllNonzero(cs) && forall c :: 0 <= c < |cs| ==> |cs[c].taken| == rounds
    ensures |AllSamples(cs)| == |cs| * rounds
  {
    if cs != [] {
      var front, last := cs[..|cs| - 1], cs[|cs| - 1];
      assert forall c :: 0 <= c < |front| ==> front[c] == cs[c];
      SamplesCount(front, rounds);
      NonzeroMultiset(last.taken);
      MulSucc(|front|, rounds);
    }
  }

  function Start(cfg: Config): State {
    State(CollectReady(0, false), seq(cfg.parallel, (c: nat) => Child(Warmup, true, Batch, 0, [], [])), [], 0, 0, 0, [],
      false, 0)
  }

  /** A run whose merged list holds a sample for every interval of every child. */
  lemma FullList(cfg: Config) returns (s: State)
    requires cfg.Ok()
    ensures Reachable(cfg, s) && Merged(s.parent) && |s.merged| == cfg.parallel * cfg.Rounds()
  {
    var run := Completes(cfg, [Start(cfg)]);
    s := run[|run| - 1];
    MergedExactly(cfg, s);
    RunInv(cfg, run, |run| - 1);
    SamplesCount(s.children, cfg.Rounds());
    assert |multiset(s.merged)| == |s.merged|;
  }

  /** In every run the merged list stays within its slots if and only if repetitions is at least 1 or there
      are at most eleven children: with repetitions == 0 each child still stores one sample, but the list is
      allocated for none and has just the eleven slots of result_t. */
  lemma SlotsExactly(cfg: Config)
    requires cfg.Ok()
    ensures (forall s :: Reachable(cfg, s) && Merged(s.parent) ==>
               |s.merged| <= Slots(cfg.parallel * cfg.repetitions)) <==>
            cfg.repetitions >= 1 || cfg.parallel <= TRIES
  {
    if cfg.repetitions >= 1 || cfg.parallel <= TRIES {
      forall s | Reachable(cfg, s) && Merged(s.parent)
        ensures |s.merged| <= Slots(cfg.parallel * cfg.repetitions)
      {
        MergedExactly(cfg, s);
      }
    } else {
      var s := FullList(cfg);
      Overfull(cfg.parallel);
    }
  }

  lemma Overfull(parallel: nat)
    requires parallel > TRIES
    ensures parallel * 1 > Slots(parallel * 0)
  {
  }

  /** Twelve children without repetitions: twelve samples for eleven slots. */
  lemma TwelveChildren(cfg: Config) returns (s: State)
    requires cfg.Ok() && cfg.parallel == 12 && cfg.repetitions == 0
    ensures Reachable(cfg, s) && Merged(s.parent) && |s.merged| == 12 > Slots(cfg.parallel * cfg.repetitions)
  {
    s := FullList(cfg);
  }
}
