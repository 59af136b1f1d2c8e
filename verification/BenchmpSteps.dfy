/** Every step of the benchmp protocol keeps the invariant. */
module BenchmpSteps {
  import opened Arith
  import opened Results
  import opened Benchmp
  import opened BenchmpInvariant

  // ----- the parent: only numbers and bytes matter

  lemma SelectControl(cfg: Config, s: State, v: View)
    requires cfg.Ok() && Control(cfg, s, v) && Enabled(cfg, s, Select)
    ensures Control(cfg, Apply(cfg, s, Select), v)
  {
  }

  lemma ReadSignalControl(cfg: Config, s: State, m: nat, v: View)
    requires cfg.Ok() && Control(cfg, s, v) && Enabled(cfg, s, Read(m)) && !s.parent.CollectResult?
    ensures Control(cfg, Apply(cfg, s, Read(m)), v)
  {
  }

  /** When the parent has read r_size bytes the message is complete and the pipe is empty. */
  lemma ReadResultControl(cfg: Config, s: State, m: nat, v: View)
    requires cfg.Ok() && Control(cfg, s, v) && Enabled(cfg, s, Read(m)) && s.parent.CollectResult?
    ensures Control(cfg, Apply(cfg, s, Read(m)), v)
  {
    var buf, bytes := s.parent.buf, s.parent.buf + s.response;
    assert bytes == (buf + s.response[..m]) + s.response[m..];
    assert |bytes| >= |buf| + m;
    assert InTransit(cfg, s.reporter, v, bytes);
    if |buf| + m == cfg.size {
      assert v.sent == cfg.size;
      assert bytes[..cfg.size] == buf + s.response[..m];
      assert s.response[m..] == [];
    }
  }

  lemma ProceedControl(cfg: Config, s: State, v: View)
    requires cfg.Ok() && Control(cfg, s, v) && Enabled(cfg, s, Proceed)
    ensures Control(cfg, Apply(cfg, s, Proceed), v)
  {
  }

  lemma ParentControl(cfg: Config, s: State, a: Action, v: View)
    requires cfg.Ok() && Control(cfg, s, v) && Enabled(cfg, s, a) && (a.Select? || a.Read? || a.Proceed?)
    ensures Control(cfg, Apply(cfg, s, a), v)
  {
    match a {
      case Select => SelectControl(cfg, s, v);
      case Read(m) =>
        if s.parent.CollectResult? { ReadResultControl(cfg, s, m, v); } else { ReadSignalControl(cfg, s, m, v); }
      case Proceed => ProceedControl(cfg, s, v);
    }
  }

  lemma SameMerged(cfg: Config, s: State, a: Action, v: View)
    requires cfg.Ok() && Control(cfg, s, v) && Enabled(cfg, s, a) && (a.Select? || a.Read? || a.Proceed?)
    requires Control(cfg, Apply(cfg, s, a), v)
    ensures var s' := Apply(cfg, s, a);
            && s'.children == s.children && s'.reporter == s.reporter && s'.merged == s.merged
            && MergedCount(cfg, s'.parent) == MergedCount(cfg, s.parent)
            && Unmerged(s'.parent, v, TakenOf(s)) == Unmerged(s.parent, v, TakenOf(s))
  {
  }

  lemma ParentInv(cfg: Config, s: State, a: Action)
    requires cfg.Ok() && Inv(cfg, s) && Enabled(cfg, s, a) && (a.Select? || a.Read? || a.Proceed?)
    ensures Inv(cfg, Apply(cfg, s, a))
  {
    var v := ViewOf(cfg, s.children, s.reporter);
    ParentControl(cfg, s, a, v);
    SameMerged(cfg, s, a, v);
  }

  lemma MergeControl(cfg: Config, s: State, decoded: seq<Sample>, v: View)
    requires cfg.Ok() && Control(cfg, s, v) && Enabled(cfg, s, MergeResults(decoded))
    ensures var s' := Apply(cfg, s, MergeResults(decoded));
            && Control(cfg, s', v) && s.parent.buf == Message(cfg, s.reporter) && s.reporter < cfg.parallel
            && MergedCount(cfg, s'.parent) == s.parent.i + 1 && Unmerged(s'.parent, v, TakenOf(s)) == multiset{}
            && Unmerged(s.parent, v, TakenOf(s)) == Nonzero(TakenOf(s))
            && s'.children == s.children && s'.reporter == s.reporter && s'.merged == InsertedAll(decoded, s.merged)
  {
    assert Message(cfg, s.reporter)[..cfg.size] == Message(cfg, s.reporter);
  }

  lemma MergeInv(cfg: Config, s: State, decoded: seq<Sample>)
    requires cfg.Ok() && Inv(cfg, s) && Enabled(cfg, s, MergeResults(decoded))
    ensures Inv(cfg, Apply(cfg, s, MergeResults(decoded)))
  {
    var v := ViewOf(cfg, s.children, s.reporter);
    MergeControl(cfg, s, decoded, v);
    LawfulAt(cfg, s.children, s.reporter);
    MergedNext(cfg, s, Apply(cfg, s, MergeResults(decoded)), v, s.children[s.reporter].taken);
  }

  lemma MergedNext(cfg: Config, s: State, s': State, v: View, taken: seq<Sample>)
    requires MergedOk(cfg, s, v) && Proper(taken) && |taken| <= cfg.Rounds()
    requires s'.merged == InsertedAll(InsertedAll(taken, []), s.merged) && s'.children == s.children
    requires Unmerged(s.parent, v, TakenOf(s)) == Nonzero(taken) && Unmerged(s'.parent, v, TakenOf(s')) == multiset{}
    requires MergedCount(cfg, s'.parent) == MergedCount(cfg, s.parent) + 1
    ensures MergedOk(cfg, s', v)
  {
    MergeList(taken, s.merged);
    MulSucc(MergedCount(cfg, s.parent), cfg.Rounds());
  }

  // ----- the children

  /** A step of one child that is not the end of its message keeps the merged list right. */
  lemma ChildKeeps(cfg: Config, s: State, s': State, c: nat, ch: Child)
    requires Inv(cfg, s) && c < |s.children| && s'.children == s.children[c := ch] && Lawful(cfg, ch)
    requires s'.parent == s.parent && s'.merged == s.merged
    requires Stage(s.children[c]) <= Stage(ch) && (Stage(s.children[c]) < 9 ==> Stage(ch) < 9)
    requires Stage(s.children[c]) >= 8 ==> ch.taken == s.children[c].taken
    requires s'.reporter == s.reporter || (s.parent.CollectResult? && Past(s.children, 9) == s.parent.i)
    requires Control(cfg, s', ViewOf(cfg, s'.children, s'.reporter))
    ensures Inv(cfg, s')
  {
    ReportedSame(s.children, c, ch);
    UnmergedKept(cfg, s, s', c, ch);
    LawfulUpdate(cfg, s.children, c, ch);
  }

  lemma UnmergedKept(cfg: Config, s: State, s': State, c: nat, ch: Child)
    requires Inv(cfg, s) && c < |s.children| && s'.children == s.children[c := ch]
    requires s'.parent == s.parent && (Stage(s.children[c]) < 9 <==> Stage(ch) < 9)
    requires Stage(s.children[c]) >= 8 ==> ch.taken == s.children[c].taken
    requires s'.reporter == s.reporter || (s.parent.CollectResult? && Past(s.children, 9) == s.parent.i)
    ensures Unmerged(s'.parent, ViewOf(cfg, s'.children, s'.reporter), TakenOf(s')) ==
            Unmerged(s.parent, ViewOf(cfg, s.children, s.reporter), TakenOf(s))
  {
    PastUpdate(s.children, c, ch, 9);
  }

  lemma LawfulUpdate(cfg: Config, cs: seq<Child>, c: nat, ch: Child)
    requires AllLawful(cfg, cs) && c < |cs| && Lawful(cfg, ch)
    ensures AllLawful(cfg, cs[c := ch])
  {
  }

  /** Where a poll or a timing interval takes a child. */
  ghost predicate StillMove(s: State, from: nat, to: nat) {
    && from < 8
    && (from == to || (from == 0 && to == 1) || (from == 4 && to == 5)
        || (from == 2 && to == 3 && s.start > 0) || (from == 6 && to == 7 && s.result > 0))
  }

  lemma PollEffect(cfg: Config, s: State, ch: Child)
    requires Lawful(cfg, ch) && ch.at.Batch? && !ch.phase.Timing? && (s.start > 0 ==> !ch.needWarmup)
    ensures var ch' := AfterPoll(s, ch);
            Lawful(cfg, ch') && StillMove(s, Stage(ch), Stage(ch')) && ch'.taken == ch.taken
  {
  }

  /** There is no start byte while a child still owes its 'ready'. */
  lemma NoStartYet(cfg: Config, s: State, v: View)
    requires Control(cfg, s, v) && v.p2 < cfg.parallel
    ensures s.start == 0
  {
  }

  lemma PollInv(cfg: Config, s: State, c: nat)
    requires cfg.Ok() && Inv(cfg, s) && Enabled(cfg, s, Poll(c))
    ensures Inv(cfg, Apply(cfg, s, Poll(c)))
  {
    LawfulAt(cfg, s.children, c);
    ChildView(cfg, s.children, s.reporter, c);
    if s.children[c].needWarmup { NoStartYet(cfg, s, ViewOf(cfg, s.children, s.reporter)); }
    PollEffect(cfg, s, s.children[c]);
    StillInv(cfg, s, c, AfterPoll(s, s.children[c]));
  }

  lemma StillInv(cfg: Config, s: State, c: nat, ch: Child)
    requires cfg.Ok() && Inv(cfg, s) && c < |s.children| && Lawful(cfg, ch)
    requires StillMove(s, Stage(s.children[c]), Stage(ch))
    ensures Inv(cfg, s.(children := s.children[c := ch]))
  {
    var s' := s.(children := s.children[c := ch]);
    ViewMoves(cfg, s.children, c, ch, s.reporter);
    StillControl(cfg, s, s', ViewOf(cfg, s.children, s.reporter), ViewOf(cfg, s'.children, s.reporter),
      Stage(s.children[c]), Stage(ch), c == s.reporter);
    ChildKeeps(cfg, s, s', c, ch);
  }

  /** Steps that only move a child between batches and calls. */
  lemma StillControl(cfg: Config, s: State, s': State, v: View, v': View, from: nat, to: nat, isReporter: bool)
    requires cfg.Ok() && Control(cfg, s, v) && Present(cfg, v, from) && s' == s.(children := s'.children)
    requires Follows(v, v', from, to, isReporter) && Ordered(cfg, v')
    requires StillMove(s, from, to)
    ensures Control(cfg, s', v')
  {
  }

  lemma IntervalLawful(cfg: Config, ch: Child, x: Sample)
    requires Lawful(cfg, ch) && ch.phase.Timing? && ch.at.Batch? && x.n > 0
    ensures var ch' := AfterInterval(cfg, ch, x);
            Lawful(cfg, ch') && (Stage(ch') == 4 || Stage(ch') == 5)
  {
    InsertedAllAppend(ch.taken, x, []);
  }

  lemma IntervalInv(cfg: Config, s: State, c: nat, u: nat, n: nat)
    requires cfg.Ok() && Inv(cfg, s) && Enabled(cfg, s, Interval(c, u, n))
    ensures Inv(cfg, Apply(cfg, s, Interval(c, u, n)))
  {
    LawfulAt(cfg, s.children, c);
    IntervalLawful(cfg, s.children[c], Sample(u, n));
    StillInv(cfg, s, c, AfterInterval(cfg, s.children[c], Sample(u, n)));
  }

  /** A signal byte is taken or a response byte is written by a child at stage `from`. */
  ghost predicate CallEffect(cfg: Config, s: State, s': State, from: nat) {
    && s'.parent == s.parent && s'.reporter == s.reporter && s'.result == s.result && s'.merged == s.merged
    && (from == 1 || from == 3 || from == 5 || from == 9)
    && (if from == 1 || from == 5
        then s'.response == s.response + [if from == 1 then Ready else Done] && |s.response| < cfg.room
        else s'.response == s.response)
    && (if from == 3 then s.start > 0 && s'.start == s.start - 1 else s'.start == s.start)
    && (if from == 9
        then s.exit > 0 && s'.exit == s.exit - 1 && s'.sigchld == (s.sigchld || !MayDie(s.parent))
        else s'.exit == s.exit && s'.sigchld == s.sigchld)
  }

  lemma CallControl(cfg: Config, s: State, s': State, v: View, v': View, from: nat, isReporter: bool)
    requires cfg.Ok() && Control(cfg, s, v) && Present(cfg, v, from) && CallEffect(cfg, s, s', from)
    requires Follows(v, v', from, from + 1, isReporter) && Ordered(cfg, v')
    requires from == 9 && isReporter ==> v'.sent == cfg.size
    ensures Control(cfg, s', v')
  {
  }

  lemma CallHasEffect(cfg: Config, s: State, c: nat)
    requires Enabled(cfg, s, Call(c)) && !s.children[c].at.ReadResult? && Lawful(cfg, s.children[c])
    ensures var s' := Apply(cfg, s, Call(c));
            && |s'.children| == |s.children| && s'.children == s.children[c := s'.children[c]]
            && Lawful(cfg, s'.children[c]) && Stage(s'.children[c]) == Stage(s.children[c]) + 1
            && s'.children[c].taken == s.children[c].taken
            && CallEffect(cfg, s, s', Stage(s.children[c]))
  {
  }

  lemma SimpleCallInv(cfg: Config, s: State, c: nat)
    requires cfg.Ok() && Inv(cfg, s) && Enabled(cfg, s, Call(c)) && !s.children[c].at.ReadResult?
    ensures Inv(cfg, Apply(cfg, s, Call(c)))
  {
    var ch, s' := s.children[c], Apply(cfg, s, Call(c));
    LawfulAt(cfg, s.children, c);
    CallHasEffect(cfg, s, c);
    CalledInv(cfg, s, s', c, s'.children[c]);
  }

  lemma CalledInv(cfg: Config, s: State, s': State, c: nat, ch: Child)
    requires cfg.Ok() && Inv(cfg, s) && c < |s.children| && s'.children == s.children[c := ch] && Lawful(cfg, ch)
    requires Stage(ch) == Stage(s.children[c]) + 1 && ch.taken == s.children[c].taken
    requires CallEffect(cfg, s, s', Stage(s.children[c]))
    ensures Inv(cfg, s')
  {
    ViewMoves(cfg, s.children, c, ch, s.reporter);
    CallControl(cfg, s, s', ViewOf(cfg, s.children, s.reporter), ViewOf(cfg, s'.children, s.reporter),
      Stage(s.children[c]), c == s.reporter);
    ChildKeeps(cfg, s, s', c, ch);
  }

  /** The one result byte is taken: its taker becomes the reporter. */
  lemma TakeControl(cfg: Config, s: State, s': State, v: View, v': View)
    requires cfg.Ok() && Control(cfg, s, v) && Present(cfg, v, 7) && Moved(v, v', 7, 8) && Ordered(cfg, v')
    requires s.result > 0 && s' == s.(result := s.result - 1, reporter := s'.reporter, children := s'.children)
    requires s'.reporter < cfg.parallel && v'.stage == 8 && v'.sent == 0
    ensures Control(cfg, s', v') && s.parent.CollectResult? && v.p9 == s.parent.i
  {
    assert Message(cfg, s'.reporter)[..0] == [];
  }

  lemma ReadResultInv(cfg: Config, s: State, c: nat)
    requires cfg.Ok() && Inv(cfg, s) && Enabled(cfg, s, Call(c)) && s.children[c].at.ReadResult?
    ensures Inv(cfg, Apply(cfg, s, Call(c)))
  {
    LawfulAt(cfg, s.children, c);
    ReadResultEffect(cfg, s, c);
    TakeInv(cfg, s, Apply(cfg, s, Call(c)), c, Apply(cfg, s, Call(c)).children[c]);
  }

  lemma ReadResultEffect(cfg: Config, s: State, c: nat)
    requires cfg.Ok() && Enabled(cfg, s, Call(c)) && s.children[c].at.ReadResult? && Lawful(cfg, s.children[c])
    ensures var s' := Apply(cfg, s, Call(c));
            && |s'.children| == |s.children| && s'.children == s.children[c := s'.children[c]]
            && s.result > 0 && s' == s.(result := s.result - 1, reporter := c, children := s'.children)
            && Lawful(cfg, s'.children[c]) && s'.children[c].taken == s.children[c].taken
            && Stage(s.children[c]) == 7 && Stage(s'.children[c]) == 8 && Sent(cfg, s'.children[c]) == 0
  {
  }

  lemma TakeInv(cfg: Config, s: State, s': State, c: nat, ch: Child)
    requires cfg.Ok() && Inv(cfg, s) && c < |s.children| && s'.children == s.children[c := ch] && Lawful(cfg, ch)
    requires s.result > 0 && s' == s.(result := s.result - 1, reporter := c, children := s'.children)
    requires Stage(s.children[c]) == 7 && Stage(ch) == 8 && Sent(cfg, ch) == 0 && ch.taken == s.children[c].taken
    ensures Inv(cfg, s')
  {
    ViewTakes(cfg, s.children, c, ch, s.reporter);
    TakeControl(cfg, s, s', ViewOf(cfg, s.children, s.reporter), ViewOf(cfg, s'.children, c));
    ChildKeeps(cfg, s, s', c, ch);
  }

  /** Only the child that took the last result byte can be writing. */
  lemma WriterIsReporter(cfg: Config, s: State, c: nat)
    requires cfg.Ok() && Inv(cfg, s) && c < |s.children| && s.children[c].at.WriteResult?
    ensures s.parent.CollectResult? && Past(s.children, 8) == s.parent.i + 1 && Past(s.children, 9) == s.parent.i
    ensures c == s.reporter
  {
    SomeBetween(s.children, 8, 9, c);
    WritingParent(cfg, s, ViewOf(cfg, s.children, s.reporter));
    OneBetween(s.children, 8, 9, c, s.reporter);
  }

  lemma WritingParent(cfg: Config, s: State, v: View)
    requires cfg.Ok() && Control(cfg, s, v) && v.p9 < v.p8
    ensures s.parent.CollectResult? && v.p8 == s.parent.i + 1 && v.p9 == s.parent.i && v.stage == 8
  {
  }

  /** Part of the message goes into the pipe. */
  lemma WriteControl(cfg: Config, s: State, s': State, v: View, v': View, m: nat)
    requires cfg.Ok() && Control(cfg, s, v) && Ordered(cfg, v') && v.p9 < v.p8
    requires v'.sent == v.sent + m <= cfg.size && Follows(v, v', 8, if v'.sent == cfg.size then 9 else 8, true)
    requires s' == s.(response := s.response + seq(m, (k: nat) => Part(s.reporter, v.sent + k)),
                      children := s'.children)
    requires m > 0 && |s'.response| <= cfg.room
    ensures Control(cfg, s', v')
  {
    WritingParent(cfg, s, v);
    var more, message := seq(m, (k: nat) => Part(s.reporter, v.sent + k)), Message(cfg, s.reporter);
    assert message[..v.sent + m] == message[..v.sent] + more;
    assert s.parent.buf + s'.response == (s.parent.buf + s.response) + more;
  }

  lemma WriteEffect(cfg: Config, s: State, c: nat, m: nat)
    requires Enabled(cfg, s, WriteBytes(c, m)) && Lawful(cfg, s.children[c])
    ensures var ch, s' := s.children[c], Apply(cfg, s, WriteBytes(c, m));
            var ch' := s'.children[c];
            && |s'.children| == |s.children| && Lawful(cfg, ch') && ch'.taken == ch.taken
            && Stage(ch) == 8 && Sent(cfg, ch') == Sent(cfg, ch) + m <= cfg.size
            && Stage(ch') == (if Sent(cfg, ch') == cfg.size then 9 else 8)
            && s' == s.(response := s.response + seq(m, (k: nat) => Part(c, Sent(cfg, ch) + k)),
                        children := s.children[c := ch'])
  {
  }

  lemma WriteBytesInv(cfg: Config, s: State, c: nat, m: nat)
    requires cfg.Ok() && Inv(cfg, s) && Enabled(cfg, s, WriteBytes(c, m))
    ensures Inv(cfg, Apply(cfg, s, WriteBytes(c, m)))
  {
    LawfulAt(cfg, s.children, c);
    WriterIsReporter(cfg, s, c);
    WriteEffect(cfg, s, c, m);
    var s' := Apply(cfg, s, WriteBytes(c, m));
    ViewMoves(cfg, s.children, c, s'.children[c], s.reporter);
    WriteControl(cfg, s, s', ViewOf(cfg, s.children, s.reporter), ViewOf(cfg, s'.children, s.reporter), m);
    WrittenMerged(cfg, s, s', c, s'.children[c]);
  }

  /** When its message is complete the reporter's samples are waiting to be merged. */
  lemma WrittenMerged(cfg: Config, s: State, s': State, c: nat, ch: Child)
    requires Inv(cfg, s) && c == s.reporter < |s.children| && s'.children == s.children[c := ch]
    requires s'.parent == s.parent && s'.merged == s.merged && s'.reporter == s.reporter
    requires s.parent.CollectResult? && Past(s.children, 9) == s.parent.i
    requires Stage(s.children[c]) == 8 && (Stage(ch) == 8 || Stage(ch) == 9) && ch.taken == s.children[c].taken
    ensures MergedOk(cfg, s', ViewOf(cfg, s'.children, s'.reporter))
  {
    ReportedUpdate(s.children, c, ch);
    PastUpdate(s.children, c, ch, 9);
  }

  lemma StepInv(cfg: Config, s: State, s': State)
    requires cfg.Ok() && Inv(cfg, s) && Step(cfg, s, s')
    ensures Inv(cfg, s')
  {
    var a :| Enabled(cfg, s, a) && s' == Apply(cfg, s, a);
    match a {
      case MergeResults(decoded) => MergeInv(cfg, s, decoded);
      case Poll(c) => PollInv(cfg, s, c);
      case Interval(c, u, n) => IntervalInv(cfg, s, c, u, n);
      case Call(c) => if s.children[c].at.ReadResult? { ReadResultInv(cfg, s, c); } else { SimpleCallInv(cfg, s, c); }
      case WriteBytes(c, m) => WriteBytesInv(cfg, s, c, m);
      case _ => ParentInv(cfg, s, a);
    }
  }
}
