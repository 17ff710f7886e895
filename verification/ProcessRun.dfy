/** One child process, its two bounded pipes, the two drains and the coroutine that awaits them. */
module ProcessRun {
  import opened Drain
  import opened Seqs
  import opened Utf8
  import opened Wrappers

  datatype Stream = Stdout | Stderr

  /** What the child does before it exits: a blocking write of some bytes to one stream. */
  datatype Op = Write(stream: Stream, bytes: seq<Byte>)

  datatype Child = Running(script: seq<Op>) | Exited(code: int)

  datatype DrainTask = Active | Done | FailedDrain | Cancelled

  /** A pipe's unread bytes, the drain reading it, and the chunks its reads have returned. */
  datatype Pipe = Pipe(buffer: seq<Byte>, drain: DrainTask, chunks: seq<seq<Byte>>)

  /** Where `run` is: awaiting the drains, awaiting the child, cleaning up (awaiting the child, then
      the drains), or out. */
  datatype Phase = Gathering | Waiting | Reaping | Settling | Returned | Raising

  /** `code` is the return code as the event loop has seen it; `kills` counts kill calls. */
  datatype State = State(child: Child, out: Pipe, err: Pipe, code: Option<int>, phase: Phase,
                         cancelling: bool, kills: nat, closed: bool)

  datatype Command = Command(script: seq<Op>, exitCode: int, capacity: nat, quiet: bool)

  const KILLED := -9

  function PipeOf(s: State, x: Stream): Pipe { if x.Stdout? then s.out else s.err }

  function WithPipe(s: State, x: Stream, p: Pipe): State {
    if x.Stdout? then s.(out := p) else s.(err := p)
  }

  function Start(c: Command): State {
    var empty := Pipe([], Active, []);
    State(Running(c.script), empty, empty, None, Gathering, false, 0, false)
  }

  // --- Steps -----------------------------------------------------------------------------------

  /** The child's steps, the operating system's, the drains', and those of `run` itself. A drain may
      fail and a cancellation arrive at any time; `Finish` closes the sinks and leaves. */
  datatype Label = ChildWrites(n: nat) | ChildMovesOn | ChildExits | ChildIsKilled | LoopSeesExit
                 | DrainReads(x: Stream, n: nat) | DrainEnds(x: Stream)
                 | DrainFails(x: Stream) | DrainIsCancelled(x: Stream)
                 | DrainsGathered | Unwind | CancellationArrives | ChildReaped | Finish

  predicate Ended(p: Pipe) { !p.drain.Active? }

  predicate Enabled(c: Command, s: State, l: Label) {
    match l
    case ChildWrites(n) =>
      && s.child.Running? && s.child.script != []
      && var op := s.child.script[0];
         1 <= n <= |op.bytes| && |PipeOf(s, op.stream).buffer| + n <= c.capacity
    case ChildMovesOn => s.child.Running? && s.child.script != [] && s.child.script[0].bytes == []
    case ChildExits => s.child == Running([])
    case ChildIsKilled => s.child.Running? && s.kills > 0
    case LoopSeesExit => s.child.Exited? && s.code.None?
    case DrainReads(x, n) =>
      && PipeOf(s, x).drain.Active? && !s.cancelling && 1 <= n <= |PipeOf(s, x).buffer| && n <= 65536
    case DrainEnds(x) => PipeOf(s, x).drain.Active? && !s.cancelling && PipeOf(s, x).buffer == [] && s.child.Exited?
    case DrainFails(x) => PipeOf(s, x).drain.Active? && !s.cancelling
    case DrainIsCancelled(x) => PipeOf(s, x).drain.Active? && s.cancelling
    case DrainsGathered => s.phase == Gathering && s.out.drain.Done? && s.err.drain.Done?
    case Unwind => s.phase == Gathering && (s.out.drain.FailedDrain? || s.err.drain.FailedDrain?)
    case CancellationArrives => s.phase == Gathering || s.phase == Waiting
    case ChildReaped => s.phase == Reaping && s.code.Some?
    case Finish => (s.phase == Waiting && s.code.Some?) || (s.phase == Settling && Ended(s.out) && Ended(s.err))
  }

  /** The `except` clause up to its first await: cancel both drains, kill unless already seen to exit. */
  function Unwound(s: State): State {
    s.(phase := Reaping, cancelling := true, kills := if s.code.None? then s.kills + 1 else s.kills)
  }

  function Apply(c: Command, s: State, l: Label): State
    requires Enabled(c, s, l)
  {
    match l
    case ChildWrites(n) =>
      var op := s.child.script[0];
      var p := PipeOf(s, op.stream);
      WithPipe(s.(child := Running([Write(op.stream, op.bytes[n..])] + s.child.script[1..])), op.stream,
               p.(buffer := p.buffer + op.bytes[..n]))
    case ChildMovesOn => s.(child := Running(s.child.script[1..]))
    case ChildExits => s.(child := Exited(c.exitCode))
    case ChildIsKilled => s.(child := Exited(KILLED))
    case LoopSeesExit => s.(code := Some(s.child.code))
    case DrainReads(x, n) =>
      var p := PipeOf(s, x);
      WithPipe(s, x, p.(buffer := p.buffer[n..], chunks := p.chunks + [p.buffer[..n]]))
    case DrainEnds(x) => WithPipe(s, x, PipeOf(s, x).(drain := Done))
    case DrainFails(x) => WithPipe(s, x, PipeOf(s, x).(drain := FailedDrain))
    case DrainIsCancelled(x) => WithPipe(s, x, PipeOf(s, x).(drain := Cancelled))
    case DrainsGathered => s.(phase := Waiting)
    case Unwind => Unwound(s)
    case CancellationArrives => Unwound(s)
    case ChildReaped => s.(phase := Settling)
    case Finish => s.(phase := if s.phase == Waiting then Returned else Raising, closed := c.quiet)
  }

  /** Whether the labels can be taken one after the other from `s`. */
  ghost predicate CanRun(c: Command, s: State, run: seq<Label>)
    decreases |run|
  {
    run == [] || (Enabled(c, s, run[0]) && CanRun(c, Apply(c, s, run[0]), run[1..]))
  }

  ghost function EndOf(c: Command, s: State, run: seq<Label>): State
    requires CanRun(c, s, run)
    decreases |run|
  {
    if run == [] then s else EndOf(c, Apply(c, s, run[0]), run[1..])
  }

  // --- The invariant ---------------------------------------------------------------------------

  /** The bytes a script still sends to a stream. */
  function BytesTo(script: seq<Op>, x: Stream): seq<Byte> {
    if script == [] then []
    else (if script[0].stream == x then script[0].bytes else []) + BytesTo(script[1..], x)
  }

  function Unsent(child: Child, x: Stream): seq<Byte> {
    if child.Running? then BytesTo(child.script, x) else []
  }

  /** Until a kill, what was read, what is in the pipe and what is unsent make up the stream. */
  ghost predicate Conserved(c: Command, s: State, x: Stream) {
    s.kills == 0 ==>
      Concat(PipeOf(s, x).chunks) + PipeOf(s, x).buffer + Unsent(s.child, x) == BytesTo(c.script, x)
  }

  predicate DrainOk(s: State, p: Pipe) {
    && (p.drain.Done? ==> p.buffer == [] && s.child.Exited?)
    && (p.drain.Cancelled? ==> s.cancelling)
    && (forall chunk :: chunk in p.chunks ==> chunk != [])
  }

  predicate InCleanup(s: State) {
    s.phase == Reaping || s.phase == Settling || s.phase == Raising
  }

  predicate Control(c: Command, s: State) {
    && DrainOk(s, s.out) && DrainOk(s, s.err)
    && (s.code.Some? ==> s.child == Exited(s.code.value))
    && (s.child.Exited? && s.kills == 0 ==> s.child.code == c.exitCode)
    && s.kills <= 1 && (s.cancelling <==> InCleanup(s)) && (s.kills > 0 ==> s.cancelling)
    && (s.phase in {Waiting, Returned} ==> s.out.drain.Done? && s.err.drain.Done?)
    && (s.phase == Reaping && s.code.None? ==> s.kills == 1)
    && (s.phase in {Settling, Returned, Raising} ==> s.code.Some?)
    && (s.phase in {Returned, Raising} ==> Ended(s.out) && Ended(s.err) && s.closed == c.quiet)
    && (s.phase !in {Returned, Raising} ==> !s.closed)
  }

  ghost predicate Inv(c: Command, s: State) {
    Conserved(c, s, Stdout) && Conserved(c, s, Stderr) && Control(c, s)
  }

  lemma BytesAfterWrite(script: seq<Op>, n: nat, x: Stream)
    requires script != [] && n <= |script[0].bytes|
    ensures var op := script[0];
      BytesTo(script, x) == (if op.stream == x then op.bytes[..n] else [])
        + BytesTo([Write(op.stream, op.bytes[n..])] + script[1..], x)
  {
    var op := script[0];
    var after := [Write(op.stream, op.bytes[n..])] + script[1..];
    assert after[1..] == script[1..];
    assert op.bytes == op.bytes[..n] + op.bytes[n..];
    if op.stream == x {
      Associate(op.bytes[..n], op.bytes[n..], BytesTo(script[1..], x));
    }
  }

  lemma WriteKeepsConserved(c: Command, s: State, n: nat, x: Stream)
    requires Conserved(c, s, x) && Enabled(c, s, ChildWrites(n))
    ensures Conserved(c, Apply(c, s, ChildWrites(n)), x)
  {
    var op, p := s.child.script[0], PipeOf(s, x);
    BytesAfterWrite(s.child.script, n, x);
    if op.stream == x {
      Regroup(Concat(p.chunks), p.buffer, op.bytes[..n], Unsent(Apply(c, s, ChildWrites(n)).child, x));
    } else {
      assert [] + BytesTo(s.child.script, x) == BytesTo(s.child.script, x);
    }
  }

  lemma ReadKeepsConserved(c: Command, s: State, y: Stream, n: nat, x: Stream)
    requires Conserved(c, s, x) && Enabled(c, s, DrainReads(y, n))
    ensures Conserved(c, Apply(c, s, DrainReads(y, n)), x)
  {
    var p := PipeOf(s, x);
    if y == x {
      ConcatAppend(p.chunks, p.buffer[..n]);
      CutAt(p.buffer, 0, n);
      assert p.buffer[0..] == p.buffer && p.buffer[0..n] == p.buffer[..n];
      Associate(Concat(p.chunks), p.buffer[..n], p.buffer[n..]);
    }
  }

  lemma StepKeepsConserved(c: Command, s: State, l: Label, x: Stream)
    requires Conserved(c, s, x) && Control(c, s) && Enabled(c, s, l)
    ensures Conserved(c, Apply(c, s, l), x)
  {
    match l {
      case ChildWrites(n) => WriteKeepsConserved(c, s, n, x);
      case DrainReads(y, n) => ReadKeepsConserved(c, s, y, n, x);
      case _ =>
    }
  }

  lemma Regroup<T>(a: seq<T>, b: seq<T>, c: seq<T>, d: seq<T>)
    ensures a + b + (c + d) == a + (b + c) + d
  {
  }

  lemma StepKeepsControl(c: Command, s: State, l: Label)
    requires Control(c, s) && Enabled(c, s, l)
    ensures Control(c, Apply(c, s, l))
  {
    match l {
      case ChildWrites(n) =>
      case DrainReads(x, n) =>
      case DrainEnds(x) =>
      case DrainFails(x) =>
      case DrainIsCancelled(x) =>
      case _ =>
    }
  }

  lemma StepKeepsInv(c: Command, s: State, l: Label)
    requires Inv(c, s) && Enabled(c, s, l)
    ensures Inv(c, Apply(c, s, l))
  {
    StepKeepsConserved(c, s, l, Stdout);
    StepKeepsConserved(c, s, l, Stderr);
    StepKeepsControl(c, s, l);
  }

  lemma {:induction false} RunKeepsInv(c: Command, s: State, run: seq<Label>)
    requires Inv(c, s) && CanRun(c, s, run)
    ensures Inv(c, EndOf(c, s, run))
    decreases |run|
  {
    if run == [] {
    } else {
      StepKeepsInv(c, s, run[0]);
      RunKeepsInv(c, Apply(c, s, run[0]), run[1..]);
    }
  }

  lemma StartIsInv(c: Command)
    ensures Inv(c, Start(c))
  {
    assert Concat<Byte>([]) == [];
  }

  // --- No deadlock -----------------------------------------------------------------------------

  predicate IsOut(s: State) {
    s.phase == Returned || s.phase == Raising
  }

  /** A step that needs neither a failing drain nor a cancellation. */
  predicate Ordinary(l: Label) {
    !l.DrainFails? && !l.CancellationArrives?
  }

  /** The child, a reader or the loop can always go on while the drains are being gathered: a child
      blocked on a full pipe has an active drain on that pipe. */
  function NextWhileGathering(c: Command, s: State): Label {
    if s.out.drain.FailedDrain? || s.err.drain.FailedDrain? then Unwind
    else if s.out.drain.Done? && s.err.drain.Done? then DrainsGathered
    else if s.out.drain.Active? && s.out.buffer != [] then DrainReads(Stdout, 1)
    else if s.err.drain.Active? && s.err.buffer != [] then DrainReads(Stderr, 1)
    else if s.child.Exited? then DrainEnds(if s.out.drain.Active? then Stdout else Stderr)
    else if s.child.script == [] then ChildExits
    else if s.child.script[0].bytes == [] then ChildMovesOn
    else ChildWrites(1)
  }

  function NextOrdinary(c: Command, s: State): Label {
    match s.phase
    case Gathering => NextWhileGathering(c, s)
    case Waiting => if s.code.Some? then Finish else LoopSeesExit
    case Reaping => if s.code.Some? then ChildReaped else if s.child.Running? then ChildIsKilled else LoopSeesExit
    case Settling =>
      if s.out.drain.Active? then DrainIsCancelled(Stdout)
      else if s.err.drain.Active? then DrainIsCancelled(Stderr) else Finish
    case _ => Finish
  }

  lemma GatheringGoesOn(c: Command, s: State)
    requires c.capacity >= 1 && Control(c, s) && s.phase == Gathering
    ensures Enabled(c, s, NextWhileGathering(c, s))
  {
  }

  lemma CleanupGoesOn(c: Command, s: State)
    requires Control(c, s) && s.phase != Gathering && !IsOut(s)
    ensures Enabled(c, s, NextOrdinary(c, s))
  {
  }

  /** No reachable state is stuck: until `run` is out, some ordinary step is enabled. */
  lemma NeverDeadlocks(c: Command, run: seq<Label>)
    requires c.capacity >= 1 && CanRun(c, Start(c), run)
    ensures var s := EndOf(c, Start(c), run); !IsOut(s) ==> exists l :: Ordinary(l) && Enabled(c, s, l)
  {
    StartIsInv(c);
    RunKeepsInv(c, Start(c), run);
    var s := EndOf(c, Start(c), run);
    if s.phase == Gathering {
      GatheringGoesOn(c, s);
      assert Ordinary(NextWhileGathering(c, s));
    } else if !IsOut(s) {
      CleanupGoesOn(c, s);
      assert Ordinary(NextOrdinary(c, s));
    }
  }

  // --- Termination -----------------------------------------------------------------------------

  function ScriptWork(script: seq<Op>): nat {
    if script == [] then 0 else 1 + 2 * |script[0].bytes| + ScriptWork(script[1..])
  }

  function PhaseWork(p: Phase): nat {
    match p case Gathering => 4 case Waiting => 3 case Reaping => 2 case Settling => 1 case _ => 0
  }

  /** Work left: it shrinks with every step, so no run is longer. */
  function Work(s: State): nat {
    (if s.child.Running? then 1 + ScriptWork(s.child.script) else 0)
    + |s.out.buffer| + |s.err.buffer|
    + (if s.out.drain.Active? then 1 else 0) + (if s.err.drain.Active? then 1 else 0)
    + (if s.code.None? then 1 else 0) + PhaseWork(s.phase)
  }

  lemma StepsShrinkWork(c: Command, s: State, l: Label)
    requires Enabled(c, s, l)
    ensures Work(Apply(c, s, l)) < Work(s)
  {
    match l {
      case ChildWrites(n) => WriteShrinksWork(c, s, n);
      case DrainReads(x, n) => ReadShrinksWork(c, s, x, n);
      case _ =>
    }
  }

  lemma WriteShrinksWork(c: Command, s: State, n: nat)
    requires Enabled(c, s, ChildWrites(n))
    ensures Work(Apply(c, s, ChildWrites(n))) < Work(s)
  {
    var op := s.child.script[0];
    var after := [Write(op.stream, op.bytes[n..])] + s.child.script[1..];
    assert after[1..] == s.child.script[1..];
    assert ScriptWork(after) + 2 * n == ScriptWork(s.child.script);
  }

  lemma ReadShrinksWork(c: Command, s: State, x: Stream, n: nat)
    requires Enabled(c, s, DrainReads(x, n))
    ensures Work(Apply(c, s, DrainReads(x, n))) < Work(s)
  {
  }

  /** Whatever the interleaving, every run ends within the work the command starts with. */
  lemma {:induction false} RunsTerminate(c: Command, s: State, run: seq<Label>)
    requires CanRun(c, s, run)
    ensures |run| + Work(EndOf(c, s, run)) <= Work(s)
    decreases |run|
  {
    if run == [] {
    } else {
      StepsShrinkWork(c, s, run[0]);
      RunsTerminate(c, Apply(c, s, run[0]), run[1..]);
    }
  }

  // --- Results ---------------------------------------------------------------------------------

  /** What `run` returns, from what its drains were given. */
  function CapturedOutput(p: Pipe): string {
    Concat(Captured(Concat(p.chunks)))
  }

  /** A returning run has its child's exit code and, for each stream, the decoding of exactly the
      bytes the child sent to it with its line endings normalised, however writes, reads and the
      two streams interleaved. */
  lemma ReturnsTheWholeOutput(c: Command, run: seq<Label>)
    requires CanRun(c, Start(c), run) && EndOf(c, Start(c), run).phase == Returned
    ensures var s := EndOf(c, Start(c), run);
      && s.code == Some(c.exitCode) && s.kills == 0
      && CapturedOutput(s.out) == NormalNewlines(Decode(BytesTo(c.script, Stdout), true).text)
      && CapturedOutput(s.err) == NormalNewlines(Decode(BytesTo(c.script, Stderr), true).text)
      && (forall chunk :: chunk in s.out.chunks + s.err.chunks ==> chunk != [])
  {
    StartIsInv(c);
    RunKeepsInv(c, Start(c), run);
    var s := EndOf(c, Start(c), run);
    assert Conserved(c, s, Stdout) && Conserved(c, s, Stderr);
    assert Concat(s.out.chunks) + [] + [] == Concat(s.out.chunks);
    assert Concat(s.err.chunks) + [] + [] == Concat(s.err.chunks);
    CaptureJoins(Decode(BytesTo(c.script, Stdout), true).text);
    CaptureJoins(Decode(BytesTo(c.script, Stderr), true).text);
  }

  /** However `run` is left, the child has exited and been waited for, both drains have ended, and
      only then were the sinks closed. */
  lemma LeavesNothingBehind(c: Command, run: seq<Label>)
    requires CanRun(c, Start(c), run)
    ensures var s := EndOf(c, Start(c), run);
      && (IsOut(s) ==> s.child.Exited? && s.code == Some(s.child.code) && s.closed == c.quiet)
      && (IsOut(s) || s.closed ==> Ended(s.out) && Ended(s.err))
      && s.kills <= 1
  {
    StartIsInv(c);
    RunKeepsInv(c, Start(c), run);
  }

  /** A kill is issued only while the return code is unset, and at most one ever is. */
  lemma KillsOnceAndOnlyUnreaped(c: Command, run: seq<Label>, l: Label)
    requires CanRun(c, Start(c), run) && Enabled(c, EndOf(c, Start(c), run), l)
    ensures var (s, t) := (EndOf(c, Start(c), run), Apply(c, EndOf(c, Start(c), run), l));
      t.kills != s.kills ==> s.code.None? && s.kills == 0 && t.kills == 1
  {
    StartIsInv(c);
    RunKeepsInv(c, Start(c), run);
  }

  // --- When it returns ---------------------------------------------------------------------------

  /** A drain has failed, or `run` is being unwound. */
  predicate Disturbed(s: State) {
    s.out.drain.FailedDrain? || s.err.drain.FailedDrain? || s.cancelling
  }

  lemma StepDisturbs(c: Command, s: State, l: Label)
    requires Control(c, s) && Enabled(c, s, l)
    ensures Disturbed(Apply(c, s, l)) <==> Disturbed(s) || !Ordinary(l)
  {
    match l {
      case DrainFails(x) =>
      case DrainIsCancelled(x) =>
      case _ =>
    }
  }

  lemma {:induction false} RunIsDisturbed(c: Command, s: State, run: seq<Label>)
    requires Inv(c, s) && CanRun(c, s, run)
    ensures Disturbed(EndOf(c, s, run)) <==> Disturbed(s) || exists k :: 0 <= k < |run| && !Ordinary(run[k])
    decreases |run|
  {
    if run == [] {
    } else {
      var t, more := Apply(c, s, run[0]), run[1..];
      StepKeepsInv(c, s, run[0]);
      StepDisturbs(c, s, run[0]);
      RunIsDisturbed(c, t, more);
      assert forall k :: 1 <= k < |run| ==> run[k] == more[k - 1];
      assert forall k :: 0 <= k < |more| ==> more[k] == run[k + 1];
    }
  }

  /** `run` returns, rather than raises, exactly when no drain failed and no cancellation arrived. */
  lemma ReturnsIffUndisturbed(c: Command, run: seq<Label>)
    requires CanRun(c, Start(c), run) && IsOut(EndOf(c, Start(c), run))
    ensures EndOf(c, Start(c), run).phase == Returned
      <==> forall k :: 0 <= k < |run| ==> !run[k].DrainFails? && !run[k].CancellationArrives?
  {
    StartIsInv(c);
    RunKeepsInv(c, Start(c), run);
    RunIsDisturbed(c, Start(c), run);
  }

  /** And it always can: from any reachable state ordinary steps lead out, and from the start they
      lead to a return. */
  lemma {:induction false} WayOut(c: Command, s: State) returns (run: seq<Label>)
    requires c.capacity >= 1 && Inv(c, s)
    ensures CanRun(c, s, run) && IsOut(EndOf(c, s, run))
    ensures forall k :: 0 <= k < |run| ==> Ordinary(run[k])
    decreases Work(s)
  {
    if IsOut(s) {
      return [];
    }
    var l := NextOrdinary(c, s);
    if s.phase == Gathering {
      GatheringGoesOn(c, s);
    } else {
      CleanupGoesOn(c, s);
    }
    StepsShrinkWork(c, s, l);
    StepKeepsInv(c, s, l);
    var more := WayOut(c, Apply(c, s, l));
    run := [l] + more;
    assert run[1..] == more;
  }

  lemma SomeRunReturns(c: Command) returns (run: seq<Label>)
    requires c.capacity >= 1
    ensures CanRun(c, Start(c), run) && EndOf(c, Start(c), run).phase == Returned
  {
    StartIsInv(c);
    run := WayOut(c, Start(c));
    ReturnsIffUndisturbed(c, run);
  }

  /** Until it is out of its first two waits, `run` may be cancelled and its drains may fail. */
  lemma MayBeDisturbed(c: Command, run: seq<Label>)
    requires CanRun(c, Start(c), run)
    ensures var s := EndOf(c, Start(c), run);
      s.phase == Gathering || s.phase == Waiting ==>
        && Enabled(c, s, CancellationArrives)
        && (s.out.drain.Active? ==> Enabled(c, s, DrainFails(Stdout)))
        && (s.err.drain.Active? ==> Enabled(c, s, DrainFails(Stderr)))
  {
    StartIsInv(c);
    RunKeepsInv(c, Start(c), run);
  }

  // --- What the child sends and the pipes hold -----------------------------------------------------

  /** A script's bytes are those of its writes to the stream, one after the other. */
  lemma {:induction false} BytesToIsWhatIsWritten(a: seq<Op>, op: Op, x: Stream)
    ensures BytesTo(a + [op], x) == BytesTo(a, x) + if op.stream == x then op.bytes else []
    ensures BytesTo([], x) == []
  {
    if a == [] {
      assert a + [op] == [op] && [op][1..] == [];
    } else {
      assert (a + [op])[1..] == a[1..] + [op];
      BytesToIsWhatIsWritten(a[1..], op, x);
      var (here, last) := (if a[0].stream == x then a[0].bytes else [], if op.stream == x then op.bytes else []);
      Associate(here, BytesTo(a[1..], x), last);
    }
  }

  predicate Bounded(c: Command, p: Pipe) {
    |p.buffer| <= c.capacity && forall chunk :: chunk in p.chunks ==> 1 <= |chunk| <= 65536
  }

  /** In every reachable state no pipe holds more than its capacity and no read gave more than asked. */
  lemma {:induction false} PipesAreBounded(c: Command, s: State, run: seq<Label>)
    requires CanRun(c, s, run) && Bounded(c, s.out) && Bounded(c, s.err)
    ensures Bounded(c, EndOf(c, s, run).out) && Bounded(c, EndOf(c, s, run).err)
    decreases |run|
  {
    if run == [] {
    } else {
      StepStaysBounded(c, s, run[0]);
      PipesAreBounded(c, Apply(c, s, run[0]), run[1..]);
    }
  }

  lemma StepStaysBounded(c: Command, s: State, l: Label)
    requires Enabled(c, s, l) && Bounded(c, s.out) && Bounded(c, s.err)
    ensures Bounded(c, Apply(c, s, l).out) && Bounded(c, Apply(c, s, l).err)
  {
    match l {
      case ChildWrites(n) =>
      case DrainReads(x, n) =>
      case _ =>
    }
  }
}
