/** What the benchmp protocol guarantees in every failure-free run, for every interleaving, every
    split of reads and writes, and every outcome of the timing intervals. */
module BenchmpTheorems {
  import opened Arith
  import opened Results
  import opened Benchmp
  import opened BenchmpInvariant
  import opened BenchmpSteps

  lemma {:induction false} RunInv(cfg: Config, run: seq<State>, t: nat)
    requires cfg.Ok() && Run(cfg, run) && t < |run|
    ensures Inv(cfg, run[t])
  {
    if t == 0 {
      InitInv(cfg, run[0]);
    } else {
      RunInv(cfg, run, t - 1);
      StepInv(cfg, run[t - 1], run[t]);
    }
  }

  /** The last state of some failure-free run. */
  ghost predicate Reachable(cfg: Config, s: State) {
    exists run: seq<State> :: Run(cfg, run) && run[|run| - 1] == s
  }

  lemma ReachableInv(cfg: Config, s: State)
    requires cfg.Ok() && Reachable(cfg, s)
    ensures Inv(cfg, s)
  {
    var run: seq<State> :| Run(cfg, run) && run[|run| - 1] == s;
    RunInv(cfg, run, |run| - 1);
  }

  // ----- barriers

  /** No child enters its timing interval, or even looks at the start byte, before all children have
      sent 'ready'; and the read that follows the select on start_signal always finds a byte. */
  lemma StartBarrier(cfg: Config, s: State, c: nat)
    requires cfg.Ok() && Reachable(cfg, s) && c < |s.children| && !s.children[c].phase.Warmup?
    ensures forall d :: 0 <= d < |s.children| ==>
              !s.children[d].needWarmup && !s.children[d].at.WriteReady?
    ensures s.children[c].at.ReadStart? ==> s.start > 0
  {
    ReachableInv(cfg, s);
    var v := ViewOf(cfg, s.children, s.reporter);
    LawfulAt(cfg, s.children, c);
    ChildView(cfg, s.children, s.reporter, c);
    PastBounds(s.children, 2);
    AfterStart(cfg, s, v);
    forall d | 0 <= d < |s.children|
      ensures !s.children[d].needWarmup && !s.children[d].at.WriteReady?
    {
      LawfulAt(cfg, s.children, d);
      assert Stage(s.children[d]) >= 2;
    }
  }

  lemma AfterStart(cfg: Config, s: State, v: View)
    requires cfg.Ok() && Control(cfg, s, v) && v.p3 > 0
    ensures v.p2 == cfg.parallel && s.start + v.p4 == cfg.parallel
  {
  }

  /** The child has stopped running batches, or is about to: select has shown it a result byte. */
  predicate Stopped(ch: Child) {
    ch.at.ReadResult? || ch.at.WriteResult? || ch.at.ReadExit? || ch.at.Exited?
  }

  /** No child takes a result byte, waits for one, or stops its batches while any child is still
      timing or has not yet sent 'done'. */
  lemma StopBarrier(cfg: Config, s: State, c: nat, d: nat)
    requires cfg.Ok() && Reachable(cfg, s) && c < |s.children| && d < |s.children|
    requires Stopped(s.children[c])
    ensures s.children[d].phase.Cooldown? && !s.children[d].at.WriteDone?
    ensures s.children[d].i == cfg.Rounds()
  {
    ReachableInv(cfg, s);
    StoppedStage(s.children[c]);
    AllDone(cfg, s, c);
    LawfulAt(cfg, s.children, d);
    DoneFields(cfg, s.children[d]);
  }

  lemma StoppedStage(ch: Child)
    requires Stopped(ch)
    ensures Stage(ch) >= 7
  {
  }

  lemma DoneFields(cfg: Config, ch: Child)
    requires Lawful(cfg, ch) && Stage(ch) >= 6
    ensures ch.phase.Cooldown? && !ch.at.WriteDone? && ch.i == cfg.Rounds()
  {
  }

  lemma AllDone(cfg: Config, s: State, c: nat)
    requires cfg.Ok() && Inv(cfg, s) && c < |s.children| && Stage(s.children[c]) >= 7
    ensures forall d :: 0 <= d < |s.children| ==> Stage(s.children[d]) >= 6
  {
    ChildView(cfg, s.children, s.reporter, c);
    PastBounds(s.children, 6);
    AfterDone(cfg, s, ViewOf(cfg, s.children, s.reporter));
  }

  lemma AfterDone(cfg: Config, s: State, v: View)
    requires cfg.Ok() && Control(cfg, s, v) && v.p7 > 0
    ensures v.p6 == cfg.parallel
  {
  }

  /** No child exits before every result is merged and SIGCHLD is back to its default, so the parent
      never takes its error exit. */
  lemma NoEarlyDeath(cfg: Config, s: State)
    requires cfg.Ok() && Reachable(cfg, s)
    ensures !s.sigchld && !s.parent.ErrorExit?
    ensures (exists c :: 0 <= c < |s.children| && s.children[c].at.Exited?) ==> MayDie(s.parent)
  {
    ReachableInv(cfg, s);
    if c :| 0 <= c < |s.children| && s.children[c].at.Exited? {
      DeathMeansFinished(cfg, s, c);
    }
  }

  lemma DeathMeansFinished(cfg: Config, s: State, c: nat)
    requires cfg.Ok() && Inv(cfg, s) && c < |s.children| && s.children[c].at.Exited?
    ensures s.parent.Finished?
  {
    SomePast(s.children, 10, c);
    ExitMeansFinished(cfg, s, ViewOf(cfg, s.children, s.reporter));
  }

  lemma ExitMeansFinished(cfg: Config, s: State, v: View)
    requires cfg.Ok() && Control(cfg, s, v) && v.p10 > 0
    ensures s.parent.Finished?
  {
  }

  // ----- results

  /** At most one child at a time is between taking a result byte and the end of its message; the
      parent's buffer and the pipe together hold a prefix of that one message. */
  lemma OneWriter(cfg: Config, s: State, c: nat, d: nat)
    requires cfg.Ok() && Reachable(cfg, s) && c < |s.children| && d < |s.children|
    requires s.children[c].at.WriteResult? && s.children[d].at.WriteResult?
    ensures c == d && s.parent.CollectResult? && s.children[c].at.sent <= cfg.size
    ensures s.parent.buf + s.response == Message(cfg, c)[..s.children[c].at.sent]
  {
    ReachableInv(cfg, s);
    WriterIsReporter(cfg, s, c);
    WriterIsReporter(cfg, s, d);
    LawfulAt(cfg, s.children, c);
  }

  /** Whatever the parent decodes is one whole message. */
  lemma WholeMessages(cfg: Config, s: State)
    requires cfg.Ok() && Reachable(cfg, s) && s.parent.Merge?
    ensures exists c :: 0 <= c < |s.children| && s.parent.buf == Message(cfg, c)
  {
    ReachableInv(cfg, s);
    assert Message(cfg, s.reporter)[..cfg.size] == Message(cfg, s.reporter);
    assert s.parent.buf == Message(cfg, s.reporter);
  }

  /** The nonzero samples of all children. */
  ghost function AllSamples(cs: seq<Child>): multiset<Sample> {
    if cs == [] then multiset{} else AllSamples(cs[..|cs| - 1]) + Nonzero(cs[|cs| - 1].taken)
  }

  lemma {:induction false} AllReported(cs: seq<Child>)
    requires forall c :: 0 <= c < |cs| ==> Stage(cs[c]) >= 9
    ensures Reported(cs) == AllSamples(cs)
  {
    if cs != [] {
      assert forall c :: 0 <= c < |cs| - 1 ==> cs[..|cs| - 1][c] == cs[c];
      AllReported(cs[..|cs| - 1]);
    }
  }

  /** When the parent computes the median, merged_results is the multiset union of all children's
      nonzero samples, from the largest to the smallest, each child has taken its full number of
      samples, and with repetitions >= 1 (or few enough children) the list is within its slots. */
  lemma MergedExactly(cfg: Config, s: State)
    requires cfg.Ok() && Reachable(cfg, s)
    requires s.parent.AllowDeath? || s.parent.SendExit? || s.parent.Finished?
    ensures multiset(s.merged) == AllSamples(s.children)
    ensures Descending(s.merged)
    ensures forall c :: 0 <= c < |s.children| ==> |s.children[c].taken| == cfg.Rounds()
    ensures cfg.repetitions >= 1 || cfg.parallel <= TRIES ==> |s.merged| <= Slots(cfg.parallel * cfg.repetitions)
  {
    ReachableInv(cfg, s);
    PastBounds(s.children, 9);
    AllReported(s.children);
    SlotsSuffice(cfg, |s.merged|);
    forall c | 0 <= c < |s.children|
      ensures |s.children[c].taken| == cfg.Rounds()
    {
      LawfulAt(cfg, s.children, c);
      assert Stage(s.children[c]) >= 9;
    }
  }

  lemma SlotsSuffice(cfg: Config, n: nat)
    requires n <= cfg.parallel * cfg.Rounds()
    ensures cfg.repetitions >= 1 || cfg.parallel <= TRIES ==> n <= Slots(cfg.parallel * cfg.repetitions)
  {
    if cfg.repetitions == 0 { assert cfg.parallel * 1 == cfg.parallel && cfg.parallel * 0 == 0; }
  }

  // ----- progress

  /** What is left to do for a child and for the parent: bytes owed, repetitions, and stages. */
  ghost function ChildWork(cfg: Config, ch: Child): int {
    (10 - Stage(ch)) + (cfg.Rounds() - ch.i) + (cfg.size - Sent(cfg, ch))
  }

  ghost function ChildrenWork(cfg: Config, cs: seq<Child>): int {
    if cs == [] then 0 else ChildrenWork(cfg, cs[..|cs| - 1]) + ChildWork(cfg, cs[|cs| - 1])
  }

  /** Work per child still to be asked for its results. */
  ghost function RoundTrip(cfg: Config): nat {
    2 * cfg.size + 4
  }

  ghost function ParentWork(cfg: Config, p: Parent): int {
    var results := 3 + cfg.parallel * RoundTrip(cfg);
    match p
    case CollectReady(i, reading) =>
      results + 2 * cfg.parallel + 4 + 2 * (cfg.parallel - i) - (if reading then 1 else 0)
    case Delay => results + 2 * cfg.parallel + 3
    case SendStart => results + 2 * cfg.parallel + 2
    case CollectDone(i, reading) => results + 1 + 2 * (cfg.parallel - i) - (if reading then 1 else 0)
    case SendResult(i) => 3 + (cfg.parallel - i - 1) * RoundTrip(cfg) + 2 * cfg.size + 2
    case CollectResult(i, buf, reading) =>
      3 + (cfg.parallel - i - 1) * RoundTrip(cfg) + 1 + 2 * (cfg.size - |buf|) - (if reading then 1 else 0)
    case Merge(i, _) => 3 + (cfg.parallel - i - 1) * RoundTrip(cfg)
    case AllowDeath => 2
    case SendExit => 1
    case Finished => 0
    case ErrorExit => 0
  }

  ghost function Work(cfg: Config, s: State): int {
    ParentWork(cfg, s.parent) + ChildrenWork(cfg, s.children)
  }

  lemma {:induction false} WorkUpdate(cfg: Config, cs: seq<Child>, c: nat, ch: Child)
    requires c < |cs|
    ensures ChildrenWork(cfg, cs[c := ch]) == ChildrenWork(cfg, cs) - ChildWork(cfg, cs[c]) + ChildWork(cfg, ch)
  {
    var front, cs' := cs[..|cs| - 1], cs[c := ch];
    if c == |cs| - 1 {
      assert cs'[..|cs'| - 1] == front;
    } else {
      assert cs'[..|cs'| - 1] == front[c := ch];
      WorkUpdate(cfg, front, c, ch);
    }
  }

  lemma {:induction false} WorkNonnegative(cfg: Config, cs: seq<Child>)
    requires forall c :: 0 <= c < |cs| ==> Lawful(cfg, cs[c])
    ensures ChildrenWork(cfg, cs) >= 0
  {
    if cs != [] {
      assert forall c :: 0 <= c < |cs| - 1 ==> cs[..|cs| - 1][c] == cs[c];
      WorkNonnegative(cfg, cs[..|cs| - 1]);
      assert Lawful(cfg, cs[|cs| - 1]);
    }
  }

  lemma WorkBound(cfg: Config, s: State)
    requires cfg.Ok() && Inv(cfg, s)
    ensures Work(cfg, s) >= 0
  {
    WorkNonnegative(cfg, s.children);
    ParentWorkBound(cfg, s, ViewOf(cfg, s.children, s.reporter));
  }

  lemma ParentWorkBound(cfg: Config, s: State, v: View)
    requires cfg.Ok() && Control(cfg, s, v)
    ensures ParentWork(cfg, s.parent) >= 0
  {
    match s.parent {
      case SendResult(i) => MulMono(0, cfg.parallel - i - 1, RoundTrip(cfg));
      case CollectResult(i, _, _) => MulMono(0, cfg.parallel - i - 1, RoundTrip(cfg));
      case Merge(i, _) => MulMono(0, cfg.parallel - i - 1, RoundTrip(cfg));
      case _ => MulMono(0, cfg.parallel, RoundTrip(cfg));
    }
  }

  /** Every step of the parent either changes nothing, a select that times out, or leaves less to do. */
  lemma ParentProgress(cfg: Config, s: State, a: Action)
    requires cfg.Ok() && Inv(cfg, s) && Enabled(cfg, s, a)
    requires a.Select? || a.Read? || a.Proceed? || a.MergeResults?
    ensures var s' := Apply(cfg, s, a);
            s'.children == s.children && (s' == s || ParentWork(cfg, s'.parent) < ParentWork(cfg, s.parent))
  {
    var v := ViewOf(cfg, s.children, s.reporter);
    match a {
      case Read(m) => ReadProgress(cfg, s, m, v);
      case MergeResults(decoded) => ProceedProgress(cfg, s, a, v);
      case _ => ProceedProgress(cfg, s, a, v);
    }
  }

  lemma ReadProgress(cfg: Config, s: State, m: nat, v: View)
    requires cfg.Ok() && Control(cfg, s, v) && Enabled(cfg, s, Read(m))
    ensures ParentWork(cfg, Apply(cfg, s, Read(m)).parent) < ParentWork(cfg, s.parent)
  {
    MulSucc(cfg.parallel - 1, RoundTrip(cfg));
  }

  lemma ProceedProgress(cfg: Config, s: State, a: Action, v: View)
    requires cfg.Ok() && Control(cfg, s, v) && Enabled(cfg, s, a) && (a.Select? || a.Proceed? || a.MergeResults?)
    ensures var s' := Apply(cfg, s, a); s' == s || ParentWork(cfg, s'.parent) < ParentWork(cfg, s.parent)
  {
    if s.parent.Merge? { MulSucc(cfg.parallel - s.parent.i - 2, RoundTrip(cfg)); }
  }

  /** Every step of a child either changes nothing, a poll that finds no byte, or leaves less to do. */
  lemma ChildProgress(cfg: Config, s: State, a: Action, c: nat)
    requires Enabled(cfg, s, a) && c < |s.children| && Lawful(cfg, s.children[c])
    requires match a case Poll(d) => c == d case Interval(d, _, _) => c == d case Call(d) => c == d
             case WriteBytes(d, _) => c == d case _ => false
    ensures var s' := Apply(cfg, s, a);
            && |s'.children| == |s.children| && s'.children == s.children[c := s'.children[c]] && s'.parent == s.parent
            && (s' == s || ChildWork(cfg, s'.children[c]) < ChildWork(cfg, s.children[c]))
  {
    if a.Poll? { assert s.children == s.children[c := s.children[c]]; }
  }

  lemma LessForChild(cfg: Config, s: State, a: Action, c: nat)
    requires AllLawful(cfg, s.children) && Enabled(cfg, s, a) && c < |s.children|
    requires match a case Poll(d) => c == d case Interval(d, _, _) => c == d case Call(d) => c == d
             case WriteBytes(d, _) => c == d case _ => false
    ensures var s' := Apply(cfg, s, a);
            s' == s || (s'.parent == s.parent && ChildrenWork(cfg, s'.children) < ChildrenWork(cfg, s.children))
  {
    LawfulAt(cfg, s.children, c);
    ChildProgress(cfg, s, a, c);
    WorkUpdate(cfg, s.children, c, Apply(cfg, s, a).children[c]);
  }

  /** A step that changes anything leaves less to do. */
  lemma StepProgress(cfg: Config, s: State, s': State)
    requires cfg.Ok() && Inv(cfg, s) && Step(cfg, s, s') && s' != s
    ensures Work(cfg, s') < Work(cfg, s)
  {
    var a :| Enabled(cfg, s, a) && s' == Apply(cfg, s, a);
    match a {
      case Poll(c) => LessForChild(cfg, s, a, c);
      case Interval(c, u, n) => LessForChild(cfg, s, a, c);
      case Call(c) => LessForChild(cfg, s, a, c);
      case WriteBytes(c, m) => LessForChild(cfg, s, a, c);
      case _ => ParentProgress(cfg, s, a);
    }
  }

  ghost function Changes(run: seq<State>): nat {
    if |run| <= 1 then 0
    else Changes(run[..|run| - 1]) + if run[|run| - 1] != run[|run| - 2] then 1 else 0
  }

  lemma PrefixRun(cfg: Config, run: seq<State>)
    requires Run(cfg, run) && |run| > 1
    ensures Run(cfg, run[..|run| - 1]) && Step(cfg, run[|run| - 2], run[|run| - 1])
  {
    var n, front := |run|, run[..|run| - 1];
    forall t | 0 <= t < n - 2
      ensures Step(cfg, front[t], front[t + 1])
    {
      assert Step(cfg, run[t], run[t + 1]);
    }
    assert Step(cfg, run[n - 2], run[(n - 2) + 1]);
  }

  /** However long a run is, it has at most Work(first state) steps that are not spinning. */
  lemma {:induction false} BoundedRun(cfg: Config, run: seq<State>)
    requires cfg.Ok() && Run(cfg, run)
    ensures Changes(run) + Work(cfg, run[|run| - 1]) <= Work(cfg, run[0])
    ensures Changes(run) <= Work(cfg, run[0])
  {
    var n := |run|;
    RunInv(cfg, run, n - 1);
    WorkBound(cfg, run[n - 1]);
    if n > 1 {
      PrefixRun(cfg, run);
      BoundedRun(cfg, run[..n - 1]);
      RunInv(cfg, run, n - 2);
      if run[n - 1] != run[n - 2] { StepProgress(cfg, run[n - 2], run[n - 1]); }
    }
  }

  // ----- no deadlock

  /** A step that is possible and not spinning. */
  ghost predicate CanMove(cfg: Config, s: State, a: Action) {
    Enabled(cfg, s, a) && Apply(cfg, s, a) != s
  }

  /** A step that, if it is a timing interval, takes time. */
  predicate Productive(a: Action) {
    a.Interval? ==> a.u > 0
  }

  /** A child whose pipe is ready can go on. */
  lemma ChildMoves(cfg: Config, s: State, c: nat) returns (a: Action)
    requires cfg.Ok() && Inv(cfg, s) && c < |s.children|
    requires match Stage(s.children[c])
             case 0 => true
             case 1 => |s.response| < cfg.room
             case 2 => s.start > 0
             case 3 => s.start > 0
             case 4 => true
             case 5 => |s.response| < cfg.room
             case 6 => s.result > 0
             case 7 => s.result > 0
             case 8 => |s.response| < cfg.room
             case 9 => s.exit > 0
             case _ => false
    ensures CanMove(cfg, s, a) && Productive(a)
  {
    var ch := s.children[c];
    LawfulAt(cfg, s.children, c);
    match ch.at {
      case Batch => a := if ch.phase.Timing? then Interval(c, 1, 1) else Poll(c);
      case WriteResult(_) => a := WriteBytes(c, 1);
      case _ => a := Call(c);
    }
    assert Apply(cfg, s, a).children[c] != ch;
  }

  /** Every reachable state that is not the end of the protocol has a step that is not spinning, and it
      need not be an interval of no time. */
  lemma NoDeadlock(cfg: Config, s: State)
    requires cfg.Ok() && Reachable(cfg, s) && !Complete(s)
    ensures exists a :: CanMove(cfg, s, a) && Productive(a)
  {
    ReachableInv(cfg, s);
    if s.parent.ErrorExit? {
      assert false;
    } else if Selecting(s.parent) || Receiving(s.parent) {
      CollectMoves(cfg, s);
    } else if s.parent.Merge? {
      MergeMoves(cfg, s);
      assert Productive(MergeResults(s.children[s.reporter].r));
    } else if s.parent.Finished? {
      ExitMoves(cfg, s);
    } else {
      assert CanMove(cfg, s, Proceed) && Productive(Proceed);
    }
  }

  lemma MergeMoves(cfg: Config, s: State)
    requires cfg.Ok() && Inv(cfg, s) && s.parent.Merge?
    ensures s.reporter < |s.children| && CanMove(cfg, s, MergeResults(s.children[s.reporter].r))
  {
    var m := Message(cfg, s.reporter);
    assert m[..cfg.size] == m && m[0] == Part(s.reporter, 0);
    forall c | 0 <= c < |s.children| && s.parent.buf == Message(cfg, c)
      ensures c == s.reporter
    {
      assert Message(cfg, c)[0] == Part(c, 0);
    }
  }

  lemma ExitMoves(cfg: Config, s: State)
    requires cfg.Ok() && Inv(cfg, s) && s.parent.Finished? && !Complete(s)
    ensures exists a :: CanMove(cfg, s, a) && Productive(a)
  {
    FinishedView(cfg, s, ViewOf(cfg, s.children, s.reporter));
    var c :| 0 <= c < |s.children| && !s.children[c].at.Exited?;
    PastAt(s.children, 9, c);
    PastAt(s.children, 10, c);
    var a := ChildMoves(cfg, s, c);
  }

  lemma FinishedView(cfg: Config, s: State, v: View)
    requires cfg.Ok() && Control(cfg, s, v) && s.parent.Finished?
    ensures v.p9 == cfg.parallel && s.exit + v.p10 == cfg.parallel
  {
  }

  lemma PastAt(cs: seq<Child>, k: nat, c: nat)
    requires c < |cs|
    ensures Past(cs, k) == |cs| ==> Stage(cs[c]) >= k
    ensures Stage(cs[c]) < k ==> Past(cs, k) < |cs|
  {
    PastBounds(cs, k);
  }

  lemma CollectMoves(cfg: Config, s: State)
    requires cfg.Ok() && Inv(cfg, s) && (Selecting(s.parent) || Receiving(s.parent))
    ensures exists a :: CanMove(cfg, s, a) && Productive(a)
  {
    if s.response != [] {
      var a := if s.parent.reading then Read(1) else Select;
      assert CanMove(cfg, s, a) && Productive(a);
    } else {
      assert |s.response| < cfg.room;
      var c := ChildOwes(cfg, s);
      var a := ChildMoves(cfg, s, c);
    }
  }

  /** If the parent waits on an empty pipe, some child can go on. */
  lemma ChildOwes(cfg: Config, s: State) returns (c: nat)
    requires cfg.Ok() && Inv(cfg, s) && Selecting(s.parent) && s.response == []
    ensures c < |s.children|
    ensures match s.parent
            case CollectReady(_, _) => Stage(s.children[c]) < 2
            case CollectDone(_, _) => 2 <= Stage(s.children[c]) < 6 && (Stage(s.children[c]) < 4 ==> s.start > 0)
            case _ => Stage(s.children[c]) == 8 || (6 <= Stage(s.children[c]) < 8 && s.result > 0)
  {
    match s.parent {
      case CollectReady(_, _) => c := BelowStage(s.children, 2);
      case CollectDone(_, _) =>
        c := BelowStage(s.children, 6);
        PastBounds(s.children, 2);
        PastBounds(s.children, 4);
      case CollectResult(i, buf, _) =>
        if Past(s.children, 8) == i {
          c := BelowStage(s.children, 8);
          PastBounds(s.children, 6);
        } else {
          c := s.reporter;
          assert buf + s.response == buf;
        }
    }
  }

  lemma BelowStage(cs: seq<Child>, k: nat) returns (c: nat)
    requires Past(cs, k) < |cs|
    ensures c < |cs| && Stage(cs[c]) < k
  {
    PastBounds(cs, k);
    c :| 0 <= c < |cs| && Stage(cs[c]) < k;
  }
}
