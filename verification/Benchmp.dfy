/** The control protocol of benchmp in lib_timing.c, for parallel > 1: benchmp_parent and
    `parallel` processes in benchmp_child exchange single bytes and result lists over four pipes.
    One step is one system call that the others can observe; select and the read that follows it
    are different steps, and reads and long writes may be split anywhere. */
module Benchmp {
  import opened Results

  /** parallel, repetitions, the size of a result message in bytes (r_size), and the capacity of the
      response pipe. Writes of `parallel` bytes are atomic (parallel <= PIPE_BUF). */
  datatype Config = Config(parallel: nat, repetitions: nat, size: nat, room: nat)
  {
    ghost predicate Ok() {
      parallel > 1 && size > 0 && room > 0
    }

    /** Timing intervals of a child: at least one is run before i is compared. */
    function Rounds(): nat {
      if repetitions == 0 then 1 else repetitions
    }
  }

  /** One byte of the response pipe: a 'ready', a 'done', or byte k of the result list of a child. */
  datatype Byte = Ready | Done | Part(child: nat, k: nat)

  datatype Phase = Warmup | Timing | Cooldown

  /** Where a child is: running a batch of the benchmark, or at a blocking call of benchmp_interval. */
  datatype Point =
    | Batch
    | ReadStart
    | WriteReady
    | WriteDone
    | ReadResult
    | WriteResult(sent: nat)
    | ReadExit
    | Exited

  /** benchmp_child_state: state, need_warmup, i, r, and `taken`, the history of all samples. */
  datatype Child = Child(phase: Phase, needWarmup: bool, at: Point, i: nat, r: seq<Sample>, taken: seq<Sample>)

  /** Where the parent is. In the collecting states i counts the bytes or children served, and
      `reading` says that select has reported the pipe readable. */
  datatype Parent =
    | CollectReady(i: nat, reading: bool)
    | Delay
    | SendStart
    | CollectDone(i: nat, reading: bool)
    | SendResult(i: nat)
    | CollectResult(i: nat, buf: seq<Byte>, reading: bool)
    | Merge(i: nat, buf: seq<Byte>)
    | AllowDeath
    | SendExit
    | Finished
    | ErrorExit

  /** The pipes hold start, result and exit bytes and a queue of response bytes; `sigchld` is
      benchmp_sigchld_received. `reporter` is a history variable: the last child to take a result byte. */
  datatype State = State(
    parent: Parent, children: seq<Child>,
    response: seq<Byte>, start: nat, result: nat, exit: nat,
    merged: seq<Sample>, sigchld: bool, reporter: nat)

  datatype Action =
    | Select
    | Read(m: nat)
    | Proceed                                // the parent's other calls
    | MergeResults(decoded: seq<Sample>)
    | Poll(c: nat)                           // a batch ends and the child looks at its signal pipe
    | Interval(c: nat, u: nat, n: nat)       // a timing interval of u microseconds ends
    | Call(c: nat)                           // a blocking call of one byte returns
    | WriteBytes(c: nat, m: nat)             // m more bytes of a result message

  ghost function Message(cfg: Config, c: nat): (m: seq<Byte>)
    ensures |m| == cfg.size
  {
    seq(cfg.size, (k: nat) => Part(c, k))
  }

  ghost predicate Init(cfg: Config, s: State) {
    && s.parent == CollectReady(0, false)
    && |s.children| == cfg.parallel
    && (forall c :: 0 <= c < |s.children| ==> s.children[c] == Child(Warmup, true, Batch, 0, [], []))
    && s.response == [] && s.start == 0 && s.result == 0 && s.exit == 0
    && s.merged == [] && !s.sigchld
  }

  // ----- the parent

  /** signal(SIGCHLD, SIG_DFL) has been called. */
  predicate MayDie(p: Parent) {
    p.SendExit? || p.Finished?
  }

  predicate Selecting(p: Parent) {
    (p.CollectReady? || p.CollectDone? || p.CollectResult?) && !p.reading
  }

  predicate Receiving(p: Parent) {
    (p.CollectReady? || p.CollectDone? || p.CollectResult?) && p.reading
  }

  /** The number of bytes the parent asks for. */
  function Wanted(cfg: Config, p: Parent): int
    requires Receiving(p)
  {
    if p.CollectResult? then cfg.size - |p.buf| else cfg.parallel - p.i
  }

  /** After a select with a timeout of one second: an error if a child has died, a read if there is a
      byte, else another round. */
  function AfterSelect(s: State): Parent
    requires Selecting(s.parent)
  {
    if s.sigchld then ErrorExit
    else if s.response != [] then s.parent.(reading := true)
    else s.parent
  }

  function AfterRead(cfg: Config, p: Parent, bytes: seq<Byte>): Parent
    requires Receiving(p)
  {
    match p
    case CollectReady(i, _) => if i + |bytes| < cfg.parallel then CollectReady(i + |bytes|, false) else Delay
    case CollectDone(i, _) => if i + |bytes| < cfg.parallel then CollectDone(i + |bytes|, false) else SendResult(0)
    case CollectResult(i, buf, _) =>
      if |buf + bytes| < cfg.size then CollectResult(i, buf + bytes, false) else Merge(i, buf + bytes)
    case _ => p
  }

  /** What results->v may hold after the bytes in buf were read: the list of a child if buf is its
      message, and anything at all if messages were mixed. */
  ghost predicate Decodes(cfg: Config, s: State, buf: seq<Byte>, decoded: seq<Sample>) {
    forall c :: 0 <= c < |s.children| && buf == Message(cfg, c) ==> decoded == s.children[c].r
  }

  // ----- the steps

  ghost predicate Enabled(cfg: Config, s: State, a: Action) {
    match a
    case Select => Selecting(s.parent)
    case Read(m) => Receiving(s.parent) && 0 < m <= |s.response| && m <= Wanted(cfg, s.parent)
    case Proceed =>
      s.parent.Delay? || s.parent.SendStart? || s.parent.SendResult? || s.parent.AllowDeath? || s.parent.SendExit?
    case MergeResults(decoded) => s.parent.Merge? && Decodes(cfg, s, s.parent.buf, decoded)
    case Poll(c) => c < |s.children| && s.children[c].at.Batch? && !s.children[c].phase.Timing?
    case Interval(c, u, n) => c < |s.children| && s.children[c].at.Batch? && s.children[c].phase.Timing? && n > 0
    case Call(c) =>
      && c < |s.children|
      && (match s.children[c].at
          case ReadStart => s.start > 0
          case WriteReady => |s.response| < cfg.room
          case WriteDone => |s.response| < cfg.room
          case ReadResult => s.result > 0
          case ReadExit => s.exit > 0
          case _ => false)
    case WriteBytes(c, m) =>
      && c < |s.children| && s.children[c].at.WriteResult?
      && 0 < m && s.children[c].at.sent + m <= cfg.size && |s.response| + m <= cfg.room
  }

  ghost function AfterPoll(s: State, ch: Child): Child {
    if ch.phase.Warmup? then
      if s.start > 0 then ch.(phase := Timing, at := ReadStart)
      else if ch.needWarmup then ch.(at := WriteReady)
      else ch
    else
      if s.result > 0 then ch.(at := ReadResult) else ch
  }

  ghost function AfterInterval(cfg: Config, ch: Child, x: Sample): Child {
    var ch' := ch.(r := Inserted(x, ch.r), i := ch.i + 1, taken := ch.taken + [x]);
    if ch.i + 1 >= cfg.repetitions then ch'.(phase := Cooldown, at := WriteDone) else ch'
  }

  ghost function AfterCall(s: State, c: nat): State
    requires c < |s.children|
  {
    var ch := s.children[c];
    match ch.at
    case ReadStart =>
      s.(start := if s.start > 0 then s.start - 1 else 0,
         children := s.children[c := ch.(at := if ch.needWarmup then WriteReady else Batch)])
    case WriteReady =>
      s.(response := s.response + [Ready], children := s.children[c := ch.(needWarmup := false, at := Batch)])
    case WriteDone =>
      s.(response := s.response + [Done], children := s.children[c := ch.(at := Batch)])
    case ReadResult =>
      s.(result := if s.result > 0 then s.result - 1 else 0, reporter := c,
         children := s.children[c := ch.(at := WriteResult(0))])
    case ReadExit =>
      s.(exit := if s.exit > 0 then s.exit - 1 else 0, sigchld := s.sigchld || !MayDie(s.parent),
         children := s.children[c := ch.(at := Exited)])
    case _ => s
  }

  ghost function AfterWrite(cfg: Config, s: State, c: nat, m: nat): State
    requires c < |s.children| && s.children[c].at.WriteResult?
  {
    var sent := s.children[c].at.sent;
    var at := if sent + m >= cfg.size then ReadExit else WriteResult(sent + m);
    s.(response := s.response + seq(m, (k: nat) => Part(c, sent + k)),
       children := s.children[c := s.children[c].(at := at)])
  }

  ghost function Apply(cfg: Config, s: State, a: Action): State
    requires Enabled(cfg, s, a)
  {
    match a
    case Select => s.(parent := AfterSelect(s))
    case Read(m) => s.(parent := AfterRead(cfg, s.parent, s.response[..m]), response := s.response[m..])
    case Proceed =>
      (match s.parent
       case Delay => s.(parent := SendStart)
       case SendStart => s.(parent := CollectDone(0, false), start := s.start + cfg.parallel)
       case SendResult(i) => s.(parent := CollectResult(i, [], false), result := s.result + 1)
       case AllowDeath => s.(parent := SendExit)
       case SendExit => s.(parent := Finished, exit := s.exit + cfg.parallel)
       case _ => s)
    case MergeResults(decoded) =>
      s.(merged := InsertedAll(decoded, s.merged),
         parent := if s.parent.i + 1 < cfg.parallel then SendResult(s.parent.i + 1) else AllowDeath)
    case Poll(c) => s.(children := s.children[c := AfterPoll(s, s.children[c])])
    case Interval(c, u, n) => s.(children := s.children[c := AfterInterval(cfg, s.children[c], Sample(u, n))])
    case Call(c) => AfterCall(s, c)
    case WriteBytes(c, m) => AfterWrite(cfg, s, c, m)
  }

  ghost predicate Step(cfg: Config, s: State, s': State) {
    exists a: Action :: Enabled(cfg, s, a) && s' == Apply(cfg, s, a)
  }

  /** A failure-free run, however long. */
  ghost predicate Run(cfg: Config, run: seq<State>) {
    && |run| > 0 && Init(cfg, run[0])
    && forall t :: 0 <= t < |run| - 1 ==> Step(cfg, run[t], run[t + 1])
  }

  ghost predicate Complete(s: State) {
    s.parent.Finished? && forall c :: 0 <= c < |s.children| ==> s.children[c].at.Exited?
  }
}
