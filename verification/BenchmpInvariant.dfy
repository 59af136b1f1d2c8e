/** The invariant of the benchmp protocol. Every child passes eleven stages in one order; for each
    pipe the bytes sent are the bytes in it plus the children past the stage that takes one. */
module BenchmpInvariant {
  import opened Results
  import opened Benchmp

  // ----- stages of a child

  ghost function Stage(ch: Child): nat {
    match ch.at
    case Batch => (match ch.phase case Warmup => if ch.needWarmup then 0 else 2 case Timing => 4 case Cooldown => 6)
    case WriteReady => 1
    case ReadStart => 3
    case WriteDone => 5
    case ReadResult => 7
    case WriteResult(_) => 8
    case ReadExit => 9
    case Exited => 10
  }

  /** The only combinations of fields a child ever has. */
  ghost predicate Lawful(cfg: Config, ch: Child) {
    && (ch.phase.Warmup? <==> Stage(ch) <= 2) && (ch.phase.Timing? <==> 3 <= Stage(ch) <= 4)
    && (ch.needWarmup <==> Stage(ch) <= 1)
    && (Stage(ch) <= 3 ==> ch.i == 0)
    && (Stage(ch) == 4 ==> ch.i < cfg.Rounds())
    && (Stage(ch) >= 5 ==> ch.i == cfg.Rounds())
    && (ch.at.WriteResult? ==> ch.at.sent < cfg.size)
    && ch.i == |ch.taken| && Proper(ch.taken) && ch.r == InsertedAll(ch.taken, [])
  }

  /** How many children have reached stage k. */
  ghost function Past(cs: seq<Child>, k: nat): nat {
    if cs == [] then 0 else Past(cs[..|cs| - 1], k) + if Stage(cs[|cs| - 1]) >= k then 1 else 0
  }

  lemma {:induction false} PastBounds(cs: seq<Child>, k: nat)
    ensures Past(cs, k) <= |cs|
    ensures Past(cs, k) == |cs| <==> forall c :: 0 <= c < |cs| ==> Stage(cs[c]) >= k
    ensures Past(cs, k) == 0 <==> forall c :: 0 <= c < |cs| ==> Stage(cs[c]) < k
  {
    if cs != [] {
      var front := cs[..|cs| - 1];
      PastBounds(front, k);
      assert forall c :: 0 <= c < |front| ==> front[c] == cs[c];
    }
  }

  lemma {:induction false} PastOrder(cs: seq<Child>, j: nat, k: nat)
    requires j <= k
    ensures Past(cs, k) <= Past(cs, j)
  {
    if cs != [] { PastOrder(cs[..|cs| - 1], j, k); }
  }

  /** Between stages j and k there is a child exactly when the counts differ. */
  lemma {:induction false} PastBetween(cs: seq<Child>, j: nat, k: nat)
    requires j <= k
    ensures Past(cs, k) < Past(cs, j) <==> exists c :: 0 <= c < |cs| && j <= Stage(cs[c]) < k
  {
    if cs != [] {
      var front := cs[..|cs| - 1];
      PastBetween(front, j, k);
      PastOrder(front, j, k);
      assert forall c :: 0 <= c < |front| ==> front[c] == cs[c];
      if exists c :: 0 <= c < |cs| && j <= Stage(cs[c]) < k {
        var c :| 0 <= c < |cs| && j <= Stage(cs[c]) < k;
        if c < |front| { assert j <= Stage(front[c]) < k; }
      }
      if Past(front, k) < Past(front, j) {
        var c :| 0 <= c < |front| && j <= Stage(front[c]) < k;
        assert j <= Stage(cs[c]) < k;
      }
      if j <= Stage(cs[|cs| - 1]) < k { assert 0 <= |cs| - 1 < |cs|; }
    }
  }

  /** At most one child between stages j and k when the counts differ by one at most. */
  lemma {:induction false} PastOnlyOne(cs: seq<Child>, j: nat, k: nat, c: nat, d: nat)
    requires j <= k && c < d < |cs| && j <= Stage(cs[c]) < k && j <= Stage(cs[d]) < k
    ensures Past(cs, k) + 2 <= Past(cs, j)
  {
    var front := cs[..|cs| - 1];
    PastOrder(front, j, k);
    if d == |cs| - 1 {
      assert j <= Stage(front[c]) < k;
      PastBetween(front, j, k);
    } else {
      PastOnlyOne(front, j, k, c, d);
    }
  }

  lemma SomePast(cs: seq<Child>, k: nat, c: nat)
    requires c < |cs| && Stage(cs[c]) >= k
    ensures Past(cs, k) > 0
  {
    PastBounds(cs, k);
  }

  lemma SomeBetween(cs: seq<Child>, j: nat, k: nat, c: nat)
    requires c < |cs| && j <= Stage(cs[c]) < k
    ensures Past(cs, k) < Past(cs, j)
  {
    PastBetween(cs, j, k);
  }

  lemma OneBetween(cs: seq<Child>, j: nat, k: nat, c: nat, d: nat)
    requires j <= k && c < |cs| && d < |cs| && j <= Stage(cs[c]) < k && j <= Stage(cs[d]) < k
    requires Past(cs, j) <= Past(cs, k) + 1
    ensures c == d
  {
    if c < d { PastOnlyOne(cs, j, k, c, d); }
    if d < c { PastOnlyOne(cs, j, k, d, c); }
  }

  /** A child that moves to another stage changes the counts in between. */
  lemma {:induction false} PastUpdate(cs: seq<Child>, c: nat, ch: Child, k: nat)
    requires c < |cs|
    ensures Past(cs[c := ch], k) + (if Stage(cs[c]) >= k then 1 else 0) == Past(cs, k) + if Stage(ch) >= k then 1 else 0
  {
    var front, cs' := cs[..|cs| - 1], cs[c := ch];
    if c == |cs| - 1 {
      assert cs'[..|cs'| - 1] == front;
    } else {
      assert cs'[..|cs'| - 1] == front[c := ch];
      PastUpdate(front, c, ch, k);
    }
  }

  // ----- the samples of the children that have reported

  /** What a child has reported. */
  ghost function ReportedOf(ch: Child): multiset<Sample> {
    if Stage(ch) >= 9 then Nonzero(ch.taken) else multiset{}
  }

  ghost function Reported(cs: seq<Child>): multiset<Sample> {
    if cs == [] then multiset{} else Reported(cs[..|cs| - 1]) + ReportedOf(cs[|cs| - 1])
  }

  lemma ReportedUpdate(cs: seq<Child>, c: nat, ch: Child)
    requires c < |cs| && Stage(cs[c]) <= Stage(ch)
    requires Stage(cs[c]) >= 8 ==> ch.taken == cs[c].taken
    ensures Reported(cs[c := ch]) == Reported(cs) + if Stage(cs[c]) < 9 then ReportedOf(ch) else multiset{}
  {
    if Stage(cs[c]) < 9 {
      ReportedMore(cs, c, ch);
    } else {
      ReportedSame(cs, c, ch);
      AddNothing(Reported(cs));
    }
  }

  lemma {:induction false} ReportedSame(cs: seq<Child>, c: nat, ch: Child)
    requires c < |cs| && ReportedOf(ch) == ReportedOf(cs[c])
    ensures Reported(cs[c := ch]) == Reported(cs)
  {
    var front, cs' := cs[..|cs| - 1], cs[c := ch];
    if c == |cs| - 1 {
      assert cs'[..|cs'| - 1] == front;
    } else {
      assert cs'[..|cs'| - 1] == front[c := ch];
      ReportedSame(front, c, ch);
    }
  }

  lemma {:induction false} ReportedMore(cs: seq<Child>, c: nat, ch: Child)
    requires c < |cs| && Stage(cs[c]) < 9
    ensures Reported(cs[c := ch]) == Reported(cs) + ReportedOf(ch)
  {
    var front, cs', last := cs[..|cs| - 1], cs[c := ch], cs[|cs| - 1];
    assert Reported(cs) == Reported(front) + ReportedOf(last);
    if c == |cs| - 1 {
      assert cs'[..|cs'| - 1] == front;
      AddNothing(Reported(front));
    } else {
      assert cs'[..|cs'| - 1] == front[c := ch];
      assert Reported(cs') == Reported(front[c := ch]) + ReportedOf(last);
      ReportedMore(front, c, ch);
      SwapLast(Reported(front), ReportedOf(ch), ReportedOf(last));
    }
  }

  lemma AddNothing(a: multiset<Sample>)
    ensures a + multiset{} == a
  {
  }

  lemma SwapLast(a: multiset<Sample>, b: multiset<Sample>, c: multiset<Sample>)
    ensures a + b + c == a + c + b
  {
  }

  // ----- the invariant

  /** Bytes the parent has put on the three signal pipes so far. */
  ghost function StartSent(cfg: Config, p: Parent): nat {
    if p.CollectReady? || p.Delay? || p.SendStart? then 0 else cfg.parallel
  }

  ghost function ResultSent(cfg: Config, p: Parent): nat {
    match p
    case CollectReady(_, _) => 0
    case Delay => 0
    case SendStart => 0
    case CollectDone(_, _) => 0
    case SendResult(i) => i
    case CollectResult(i, _, _) => i + 1
    case Merge(i, _) => i + 1
    case _ => cfg.parallel
  }

  ghost function ExitSent(cfg: Config, p: Parent): nat {
    if p.Finished? then cfg.parallel else 0
  }

  ghost predicate All(bytes: seq<Byte>, b: Byte) {
    forall k :: 0 <= k < |bytes| ==> bytes[k] == b
  }

  /** The children in numbers: how many have reached each stage that matters, and how far the
      reporter is. */
  datatype View = View(p2: nat, p3: nat, p4: nat, p6: nat, p7: nat, p8: nat, p9: nat, p10: nat,
                       stage: nat, sent: nat)

  ghost function Sent(cfg: Config, ch: Child): (n: nat)
    ensures n <= cfg.size
  {
    if ch.at.WriteResult? && ch.at.sent <= cfg.size then ch.at.sent else if Stage(ch) >= 9 then cfg.size else 0
  }

  ghost function ViewOf(cfg: Config, cs: seq<Child>, reporter: nat): View {
    View(Past(cs, 2), Past(cs, 3), Past(cs, 4), Past(cs, 6), Past(cs, 7), Past(cs, 8), Past(cs, 9), Past(cs, 10),
      if reporter < |cs| then Stage(cs[reporter]) else 0,
      if reporter < |cs| then Sent(cfg, cs[reporter]) else 0)
  }

  ghost predicate Ordered(cfg: Config, v: View) {
    v.p10 <= v.p9 <= v.p8 <= v.p7 <= v.p6 <= v.p4 <= v.p3 <= v.p2 <= cfg.parallel
  }

  /** The message on its way: what the parent has read followed by what is in the pipe is exactly
      what the reporter has written so far. */
  ghost predicate InTransit(cfg: Config, reporter: nat, v: View, bytes: seq<Byte>) {
    && reporter < cfg.parallel && v.stage >= 8 && v.sent <= cfg.size
    && (v.stage >= 9 <==> v.sent == cfg.size)
    && bytes == Message(cfg, reporter)[..v.sent]
  }

  /** What the response pipe holds in each state of the parent. */
  ghost predicate ResponseOk(cfg: Config, p: Parent, response: seq<Byte>, reporter: nat, v: View) {
    match p
    case CollectReady(i, _) => i < cfg.parallel && All(response, Ready) && i + |response| == v.p2
    case Delay => response == [] && v.p2 == cfg.parallel
    case SendStart => response == [] && v.p2 == cfg.parallel
    case CollectDone(i, _) =>
      i < cfg.parallel && All(response, Done) && i + |response| == v.p6 && v.p2 == cfg.parallel
    case SendResult(i) => i < cfg.parallel && response == [] && v.p6 == cfg.parallel && v.p8 == v.p9 == i
    case CollectResult(i, buf, _) =>
      && i < cfg.parallel && |buf| < cfg.size && v.p6 == cfg.parallel
      && (if v.p8 == i then v.p9 == i && buf + response == []
          else i <= v.p9 <= v.p8 == i + 1 && InTransit(cfg, reporter, v, buf + response)
               && (v.stage == 8 <==> v.p9 == i))
    case Merge(i, buf) =>
      && i < cfg.parallel && response == [] && v.p6 == cfg.parallel && v.p8 == v.p9 == i + 1
      && InTransit(cfg, reporter, v, buf) && v.stage >= 9
    case ErrorExit => false
    case _ => response == [] && v.p9 == cfg.parallel
  }

  ghost predicate PipesOk(cfg: Config, s: State, v: View) {
    && s.start + v.p4 == StartSent(cfg, s.parent)
    && s.result + v.p8 == ResultSent(cfg, s.parent)
    && s.exit + v.p10 == ExitSent(cfg, s.parent)
    && (v.p3 > 0 ==> StartSent(cfg, s.parent) > 0)
    && (v.p7 > 0 ==> ResultSent(cfg, s.parent) > 0)
    && (Receiving(s.parent) ==> s.response != [])
    && |s.response| <= cfg.room
  }

  ghost predicate Control(cfg: Config, s: State, v: View) {
    Ordered(cfg, v) && PipesOk(cfg, s, v) && ResponseOk(cfg, s.parent, s.response, s.reporter, v) && !s.sigchld
  }

  /** The samples of a child that has written its list but is not merged yet. */
  ghost function Unmerged(p: Parent, v: View, taken: seq<Sample>): multiset<Sample> {
    if p.Merge? || (p.CollectResult? && v.p9 == p.i + 1) then Nonzero(taken) else multiset{}
  }

  ghost function MergedCount(cfg: Config, p: Parent): nat {
    match p
    case SendResult(i) => i
    case CollectResult(i, _, _) => i
    case Merge(i, _) => i
    case AllowDeath => cfg.parallel
    case SendExit => cfg.parallel
    case Finished => cfg.parallel
    case _ => 0
  }

  ghost function TakenOf(s: State): seq<Sample> {
    if s.reporter < |s.children| then s.children[s.reporter].taken else []
  }

  ghost predicate MergedOk(cfg: Config, s: State, v: View) {
    && Proper(s.merged) && Descending(s.merged)
    && multiset(s.merged) + Unmerged(s.parent, v, TakenOf(s)) == Reported(s.children)
    && |s.merged| <= MergedCount(cfg, s.parent) * cfg.Rounds()
  }

  ghost predicate AllLawful(cfg: Config, cs: seq<Child>) {
    |cs| == cfg.parallel && forall c :: 0 <= c < |cs| ==> Lawful(cfg, cs[c])
  }

  lemma LawfulAt(cfg: Config, cs: seq<Child>, c: nat)
    requires AllLawful(cfg, cs) && c < |cs|
    ensures Lawful(cfg, cs[c])
  {
  }

  ghost predicate Inv(cfg: Config, s: State) {
    && AllLawful(cfg, s.children)
    && Control(cfg, s, ViewOf(cfg, s.children, s.reporter))
    && MergedOk(cfg, s, ViewOf(cfg, s.children, s.reporter))
  }

  lemma InitInv(cfg: Config, s: State)
    requires cfg.Ok() && Init(cfg, s)
    ensures Inv(cfg, s)
  {
    forall k: nat | k > 0
      ensures Past(s.children, k) == 0
    {
      PastBounds(s.children, k);
    }
    NothingReported(s.children);
  }

  lemma {:induction false} NothingReported(cs: seq<Child>)
    requires forall c :: 0 <= c < |cs| ==> Stage(cs[c]) < 9
    ensures Reported(cs) == multiset{}
  {
    if cs != [] { NothingReported(cs[..|cs| - 1]); }
  }

  // ----- how a step of one child changes the numbers

  ghost function B(k: nat, stage: nat): nat {
    if stage >= k then 1 else 0
  }

  /** v' is v after a child went from stage `from` to stage `to`. */
  ghost predicate Moved(v: View, v': View, from: nat, to: nat) {
    && v'.p2 == v.p2 - B(2, from) + B(2, to) && v'.p3 == v.p3 - B(3, from) + B(3, to)
    && v'.p4 == v.p4 - B(4, from) + B(4, to) && v'.p6 == v.p6 - B(6, from) + B(6, to)
    && v'.p7 == v.p7 - B(7, from) + B(7, to) && v'.p8 == v.p8 - B(8, from) + B(8, to)
    && v'.p9 == v.p9 - B(9, from) + B(9, to) && v'.p10 == v.p10 - B(10, from) + B(10, to)
  }

  /** The whole change of view: the reporter, if it is another child, stays where it is. */
  ghost predicate Follows(v: View, v': View, from: nat, to: nat, isReporter: bool) {
    && Moved(v, v', from, to)
    && (if isReporter then v.stage == from && v'.stage == to else v'.stage == v.stage && v'.sent == v.sent)
  }

  /** A child at a stage is counted up to that stage and not beyond. */
  ghost predicate Present(cfg: Config, v: View, stage: nat) {
    && (stage < 2 ==> v.p2 < cfg.parallel) && (stage >= 3 ==> v.p3 > 0) && (stage < 4 ==> v.p4 < cfg.parallel)
    && (stage < 6 ==> v.p6 < cfg.parallel) && (stage >= 7 ==> v.p7 > 0) && (stage < 8 ==> v.p8 < cfg.parallel)
    && (stage >= 8 ==> v.p8 > 0) && (stage < 9 ==> v.p9 < cfg.parallel) && (stage >= 9 ==> v.p9 > 0)
  }

  lemma ChildView(cfg: Config, cs: seq<Child>, reporter: nat, c: nat)
    requires |cs| == cfg.parallel && c < |cs|
    ensures Present(cfg, ViewOf(cfg, cs, reporter), Stage(cs[c])) && Ordered(cfg, ViewOf(cfg, cs, reporter))
  {
    ViewOrdered(cfg, cs, reporter);
    PastBounds(cs, 2);
    PastBounds(cs, 3);
    PastBounds(cs, 4);
    PastBounds(cs, 6);
    PastBounds(cs, 7);
    PastBounds(cs, 8);
    PastBounds(cs, 9);
  }

  lemma ViewOrdered(cfg: Config, cs: seq<Child>, reporter: nat)
    requires |cs| == cfg.parallel
    ensures Ordered(cfg, ViewOf(cfg, cs, reporter))
  {
    PastBounds(cs, 2);
    PastOrder(cs, 2, 3);
    PastOrder(cs, 3, 4);
    PastOrder(cs, 4, 6);
    PastOrder(cs, 6, 7);
    PastOrder(cs, 7, 8);
    PastOrder(cs, 8, 9);
    PastOrder(cs, 9, 10);
  }

  lemma ViewMoves(cfg: Config, cs: seq<Child>, c: nat, ch: Child, reporter: nat)
    requires |cs| == cfg.parallel && c < |cs|
    ensures var v, v' := ViewOf(cfg, cs, reporter), ViewOf(cfg, cs[c := ch], reporter);
            && Follows(v, v', Stage(cs[c]), Stage(ch), c == reporter) && Ordered(cfg, v')
            && Present(cfg, v, Stage(cs[c]))
  {
    ViewFollows(cfg, cs, c, ch, reporter);
    ViewOrdered(cfg, cs[c := ch], reporter);
    ChildView(cfg, cs, reporter, c);
  }

  lemma ViewFollows(cfg: Config, cs: seq<Child>, c: nat, ch: Child, reporter: nat)
    requires |cs| == cfg.parallel && c < |cs|
    ensures Follows(ViewOf(cfg, cs, reporter), ViewOf(cfg, cs[c := ch], reporter), Stage(cs[c]), Stage(ch),
              c == reporter)
  {
    PastUpdate(cs, c, ch, 2);
    PastUpdate(cs, c, ch, 3);
    PastUpdate(cs, c, ch, 4);
    PastUpdate(cs, c, ch, 6);
    PastUpdate(cs, c, ch, 7);
    PastUpdate(cs, c, ch, 8);
    PastUpdate(cs, c, ch, 9);
    PastUpdate(cs, c, ch, 10);
  }

  /** The same when the child that moves becomes the reporter. */
  lemma ViewTakes(cfg: Config, cs: seq<Child>, c: nat, ch: Child, reporter: nat)
    requires |cs| == cfg.parallel && c < |cs|
    ensures var v, v' := ViewOf(cfg, cs, reporter), ViewOf(cfg, cs[c := ch], c);
            && Moved(v, v', Stage(cs[c]), Stage(ch)) && Ordered(cfg, v') && Present(cfg, v, Stage(cs[c]))
            && v'.stage == Stage(ch)
  {
    ViewFollows(cfg, cs, c, ch, reporter);
    ViewOrdered(cfg, cs[c := ch], c);
    ChildView(cfg, cs, reporter, c);
  }
}
