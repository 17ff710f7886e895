/** The base flavors' build, smoke, push, pull, digest, smoke pipelines over one Docker daemon and
    one registry: every interleaving, any call failing, an outside publisher moving registry tags. */
module BaseTargets {
  import opened BaseImage
  import opened BuildBudget
  import opened DockerBuild
  import opened Seqs
  import opened Wrappers

  // --- State -----------------------------------------------------------------------------------

  type ImageId = nat

  /** A registry digest: the image it names and the manifest that carries it. */
  datatype Digest = Digest(image: ImageId, manifest: nat)

  /** The call a pipeline is in. */
  datatype Pc = Pending | Building | Inspecting | LocalSmoke | Pushing | Pulling | Resolving | PublishedSmoke
              | Finished | Failed(at: Pc)

  /** A pipeline: what its calls have returned so far, and the digests its push and pull recorded. */
  datatype Flow = Flow(pc: Pc, built: Option<ImageId>, localId: Option<ImageId>, smoked: Option<ImageId>,
                       pushed: Option<Digest>, pulled: Option<Digest>, reference: Option<Digest>,
                       recorded: set<Digest>)

  /** What happened, in order. */
  datatype Entry = SmokePassed(flow: nat, image: ImageId)
                 | Pushed(flow: nat, image: ImageId)
                 | PublicationSmokePassed(flow: nat, digest: Digest)
                 | Published(flow: nat, digest: Digest)

  /** `turn` is the index of the sequential loop; an exception ends the loop, so it moves no further. */
  datatype State = State(tags: map<string, ImageId>, known: set<Digest>, registry: map<string, Digest>,
                         flows: seq<Flow>, turn: nat, log: seq<Entry>)

  datatype Target = Target(tag: string, smokeTag: string, spec: BuildSpec)

  /** How a push ends: accepted under a manifest, or raised, perhaps after the manifest was uploaded. */
  datatype PushOutcome = Accepted(manifest: nat) | Uploaded(manifest: nat) | Rejected

  /** How each call of a pipeline will end: `None` or `false` is a failure. */
  datatype Outcomes = Outcomes(build: Option<ImageId>, inspect: bool, localSmoke: Option<ImageId>,
                               push: PushOutcome, pull: bool, resolve: bool, publishedSmoke: Option<ImageId>)

  datatype Run = Run(work: seq<Target>, outcomes: seq<Outcomes>, publish: bool, sequential: bool) {
    /** No pipeline writes another's tag: tags differ, and no smoke build is tagged as a base image. */
    ghost predicate Apart() {
      && |outcomes| == |work|
      && (forall i, j :: 0 <= i < j < |work| ==> work[i].tag != work[j].tag)
      && (forall i, j :: 0 <= i < |work| && 0 <= j < |work| ==> work[i].tag != work[j].smokeTag)
    }
  }

  /** A pipeline's call ends (or its first one begins), or the outside publisher moves a tag. */
  datatype Event = Advance(flow: nat) | Outside(tag: string, digest: Digest)

  const FRESH := Flow(Pending, None, None, None, None, None, None, {})

  ghost predicate Initial(run: Run, s: State) {
    && |s.flows| == |run.work| && s.turn == 0 && s.log == []
    && forall i :: 0 <= i < |s.flows| ==> s.flows[i] == FRESH
  }

  // --- Steps -----------------------------------------------------------------------------------

  /** The call raised, and its pipeline with it. */
  function Fail(f: Flow): Flow { f.(pc := Failed(f.pc)) }

  function With(s: State, i: nat, f: Flow): State
    requires i < |s.flows|
  {
    s.(flows := s.flows[i := f])
  }

  /** The pipeline returns: the sequential loop goes on to the next. */
  function Return(s: State, i: nat, f: Flow): State
    requires i < |s.flows|
  {
    With(s, i, f.(pc := Finished)).(turn := i + 1)
  }

  /** The digests under which the daemon knows the image. */
  function RepoDigests(s: State, image: ImageId): set<Digest> {
    set d | d in s.known && d.image == image
  }

  ghost function TheOne(digests: set<Digest>): Digest
    requires |digests| == 1
  {
    var d :| d in digests; d
  }

  ghost function AdvanceFlow(run: Run, s: State, i: nat): (t: State)
    requires run.Apart() && |s.flows| == |run.work| && i < |s.flows|
    ensures |t.flows| == |s.flows|
  {
    var f, o, tag := s.flows[i], run.outcomes[i], run.work[i].tag;
    match f.pc
    case Pending => if !run.sequential || s.turn == i then With(s, i, f.(pc := Building)) else s
    case Building =>
      if o.build.None? then With(s, i, Fail(f))
      else
        var (t, g) := (s.(tags := s.tags[tag := o.build.value]), f.(built := o.build));
        if run.publish then With(t, i, g.(pc := Inspecting)) else Return(t, i, g)
    case Inspecting =>
      if !o.inspect || tag !in s.tags then With(s, i, Fail(f))
      else With(s, i, f.(pc := LocalSmoke, localId := Some(s.tags[tag])))
    case LocalSmoke =>
      if o.localSmoke.None? || f.localId.None? then With(s, i, Fail(f))
      else With(s.(tags := s.tags[run.work[i].smokeTag := o.localSmoke.value],
                   log := s.log + [SmokePassed(i, f.localId.value)]),
                i, f.(pc := Pushing, smoked := f.localId))
    case Pushing =>
      if o.push.Rejected? || tag !in s.tags then With(s, i, Fail(f))
      else if o.push.Uploaded? then
        var d := Digest(s.tags[tag], o.push.manifest);
        With(s.(registry := s.registry[tag := d], log := s.log + [Pushed(i, d.image)]), i, Fail(f))
      else
        var d := Digest(s.tags[tag], o.push.manifest);
        With(s.(registry := s.registry[tag := d], known := s.known + {d}, log := s.log + [Pushed(i, d.image)]),
             i, f.(pc := Pulling, pushed := Some(d), recorded := f.recorded + {d}))
    case Pulling =>
      if !o.pull || tag !in s.registry then With(s, i, Fail(f))
      else
        var d := s.registry[tag];
        With(s.(tags := s.tags[tag := d.image], known := s.known + {d}),
             i, f.(pc := Resolving, pulled := Some(d), recorded := f.recorded + {d}))
    case Resolving =>
      if !o.resolve || tag !in s.tags || |RepoDigests(s, s.tags[tag])| != 1 then With(s, i, Fail(f))
      else With(s, i, f.(pc := PublishedSmoke, reference := Some(TheOne(RepoDigests(s, s.tags[tag])))))
    case PublishedSmoke =>
      if o.publishedSmoke.None? || f.reference.None? then With(s, i, Fail(f))
      else Return(s.(tags := s.tags[run.work[i].smokeTag := o.publishedSmoke.value],
                     log := s.log + [PublicationSmokePassed(i, f.reference.value)] + [Published(i, f.reference.value)]),
                  i, f)
    case Finished => s
    case Failed(_) => s
  }

  ghost function Step(run: Run, s: State, e: Event): (t: State)
    requires run.Apart() && |s.flows| == |run.work|
    ensures |t.flows| == |s.flows|
  {
    match e
    case Advance(i) => if i < |s.flows| then AdvanceFlow(run, s, i) else s
    case Outside(tag, digest) => s.(registry := s.registry[tag := digest])
  }

  /** The state after a run's events; every prefix gives a reachable state. */
  ghost function After(run: Run, s: State, events: seq<Event>): (t: State)
    requires run.Apart() && |s.flows| == |run.work|
    ensures |t.flows| == |run.work|
  {
    if events == [] then s else Step(run, After(run, s, events[..|events| - 1]), events[|events| - 1])
  }

  // --- Safety of publication -------------------------------------------------------------------

  ghost predicate FlowOk(run: Run, s: State, i: nat)
    requires run.Apart() && |s.flows| == |run.work| && i < |s.flows|
  {
    var f, tag := s.flows[i], run.work[i].tag;
    match f.pc
    case Inspecting => f.built.Some? && tag in s.tags && s.tags[tag] == f.built.value
    case LocalSmoke => f.built.Some? && f.localId == f.built && tag in s.tags && s.tags[tag] == f.built.value
    case Pushing =>
      && f.built.Some? && f.smoked == f.localId == f.built && tag in s.tags && s.tags[tag] == f.built.value
      && SmokePassed(i, f.built.value) in s.log
    case Pulling => PushedWhatItSmoked(f, s.known) && tag in s.registry
    case Resolving =>
      && PushedWhatItSmoked(f, s.known)
      && f.pulled.Some? && f.pulled.value in s.known * f.recorded
      && tag in s.tags && s.tags[tag] == f.pulled.value.image
    case PublishedSmoke => ReferenceIsPulled(f)
    case Finished => run.publish ==> ReferenceIsPulled(f) && Published(i, f.reference.value) in s.log
    case _ => true
  }

  predicate PushedWhatItSmoked(f: Flow, known: set<Digest>) {
    f.pushed.Some? && f.smoked == Some(f.pushed.value.image) && f.pushed.value in known
  }

  /** The reference is what was pulled; it is of the image that was smoked before the push only if
      it is the very digest that was pushed. */
  predicate ReferenceIsPulled(f: Flow) {
    && f.reference.Some? && f.reference == f.pulled && f.pushed.Some?
    && f.smoked == Some(f.pushed.value.image)
    && (f.reference.value.image == f.pushed.value.image ==> f.reference == f.pushed)
  }

  /** A push follows a smoke of the very image it pushes; a publication, a smoke of the very digest. */
  ghost predicate LogOk(log: seq<Entry>) {
    forall k :: 0 <= k < |log| ==> EntryOk(log, k)
  }

  ghost predicate Safe(run: Run, s: State) {
    && run.Apart() && |s.flows| == |run.work| && LogOk(s.log)
    && forall i :: 0 <= i < |s.flows| ==> FlowOk(run, s, i)
  }

  ghost predicate EntryOk(log: seq<Entry>, k: nat)
    requires k < |log|
  {
    && (log[k].Pushed? ==> SmokePassed(log[k].flow, log[k].image) in log[..k])
    && (log[k].Published? ==> PublicationSmokePassed(log[k].flow, log[k].digest) in log[..k])
  }

  lemma LogGrows(log: seq<Entry>, entry: Entry)
    requires LogOk(log)
    requires entry.Pushed? ==> SmokePassed(entry.flow, entry.image) in log
    requires entry.Published? ==> PublicationSmokePassed(entry.flow, entry.digest) in log
    ensures LogOk(log + [entry])
  {
    var all := log + [entry];
    forall k | 0 <= k < |all| ensures EntryOk(all, k) {
      if k < |log| {
        assert EntryOk(log, k);
        assert all[..k] == log[..k];
      } else {
        assert all[..k] == log;
      }
    }
  }

  lemma SingletonIs(digests: set<Digest>, d: Digest)
    requires |digests| == 1 && d in digests
    ensures TheOne(digests) == d
  {
    assert |digests - {d}| == 0;
    assert digests == {d};
  }

  /** All that a step of pipeline `i` touches of what another relies on. */
  ghost predicate StepOf(run: Run, s: State, t: State, i: nat)
    requires run.Apart() && |s.flows| == |run.work|
  {
    && i < |s.flows| == |t.flows|
    && (forall j :: 0 <= j < |s.flows| && j != i ==> t.flows[j] == s.flows[j])
    && (forall tag :: tag !in {run.work[i].tag, run.work[i].smokeTag} ==>
          (tag in t.tags <==> tag in s.tags) && (tag in s.tags ==> t.tags[tag] == s.tags[tag]))
    && (forall tag :: tag != run.work[i].tag ==>
          (tag in t.registry <==> tag in s.registry) && (tag in s.registry ==> t.registry[tag] == s.registry[tag]))
    && s.registry.Keys <= t.registry.Keys && s.known <= t.known && s.log <= t.log
  }

  lemma AdvanceIsStepOf(run: Run, s: State, i: nat)
    requires run.Apart() && |s.flows| == |run.work| && i < |s.flows|
    ensures StepOf(run, s, AdvanceFlow(run, s, i), i)
  {
    match s.flows[i].pc {
      case Building =>
      case LocalSmoke =>
      case Pushing =>
      case Pulling =>
      case PublishedSmoke =>
      case _ =>
    }
  }

  /** What happens elsewhere leaves a pipeline's own state alone. */
  lemma ElsewhereIsNoConcern(run: Run, s: State, e: Event, i: nat)
    requires run.Apart() && |s.flows| == |run.work| && i < |run.work| && e != Advance(i)
    ensures Step(run, s, e).flows[i] == s.flows[i]
  {
    if e.Advance? && e.flow < |s.flows| {
      AdvanceIsStepOf(run, s, e.flow);
    }
  }

  lemma OthersStayOk(run: Run, s: State, t: State, i: nat, j: nat)
    requires run.Apart() && |s.flows| == |run.work| && StepOf(run, s, t, i)
    requires j < |s.flows| && j != i && FlowOk(run, s, j)
    ensures FlowOk(run, t, j)
  {
    assert run.work[j].tag != run.work[i].tag && run.work[j].tag != run.work[i].smokeTag;
  }

  lemma AdvancedFlowIsOk(run: Run, s: State, i: nat)
    requires Safe(run, s) && i < |s.flows|
    ensures FlowOk(run, AdvanceFlow(run, s, i), i)
  {
    var f, tag := s.flows[i], run.work[i].tag;
    assert FlowOk(run, s, i);
    assert tag != run.work[i].smokeTag;
    if f.pc == Resolving && |RepoDigests(s, s.tags[tag])| == 1 {
      SingletonIs(RepoDigests(s, s.tags[tag]), f.pulled.value);
      if f.pushed.value.image == s.tags[tag] {
        SingletonIs(RepoDigests(s, s.tags[tag]), f.pushed.value);
      }
    }
    var t := AdvanceFlow(run, s, i);
    if f.pc == LocalSmoke && t.flows[i].pc == Pushing {
      assert t.log[|s.log|] == SmokePassed(i, f.localId.value);
    } else if f.pc == PublishedSmoke && t.flows[i].pc == Finished {
      assert t.log[|s.log| + 1] == Published(i, f.reference.value);
    }
  }

  lemma AdvancedLogIsOk(run: Run, s: State, i: nat)
    requires Safe(run, s) && i < |s.flows|
    ensures LogOk(AdvanceFlow(run, s, i).log)
  {
    assert FlowOk(run, s, i);
    var f, log := s.flows[i], AdvanceFlow(run, s, i).log;
    if f.pc == LocalSmoke && log != s.log {
      LogGrows(s.log, SmokePassed(i, f.localId.value));
    } else if f.pc == Pushing && log != s.log {
      LogGrows(s.log, Pushed(i, s.tags[run.work[i].tag]));
    } else if f.pc == PublishedSmoke && log != s.log {
      var passed := PublicationSmokePassed(i, f.reference.value);
      LogGrows(s.log, passed);
      assert (s.log + [passed])[|s.log|] == passed;
      LogGrows(s.log + [passed], Published(i, f.reference.value));
    }
  }

  lemma StepKeepsSafe(run: Run, s: State, e: Event)
    requires Safe(run, s)
    ensures Safe(run, Step(run, s, e))
  {
    var t := Step(run, s, e);
    if e.Advance? && e.flow < |s.flows| {
      AdvanceIsStepOf(run, s, e.flow);
      AdvancedFlowIsOk(run, s, e.flow);
      AdvancedLogIsOk(run, s, e.flow);
    }
    forall j | 0 <= j < |t.flows| ensures FlowOk(run, t, j) {
      assert FlowOk(run, s, j);
      if e.Advance? && e.flow < |s.flows| && j != e.flow {
        OthersStayOk(run, s, t, e.flow, j);
      }
    }
  }

  lemma {:induction false} RunIsSafe(run: Run, s: State, events: seq<Event>)
    requires run.Apart() && Initial(run, s)
    ensures Safe(run, After(run, s, events))
  {
    if events == [] {
    } else {
      RunIsSafe(run, s, events[..|events| - 1]);
      StepKeepsSafe(run, After(run, s, events[..|events| - 1]), events[|events| - 1]);
    }
  }

  /** In every reachable state: a pipeline about to push has its tag on the very image that passed
      its local smoke, every push was of such an image, and a finished publication names the very
      digest its published smoke was built against. */
  lemma PublicationIsSmoked(run: Run, s: State, events: seq<Event>)
    requires run.Apart() && Initial(run, s)
    ensures var t := After(run, s, events);
      && (forall i :: 0 <= i < |t.flows| && t.flows[i].pc == Pushing ==>
            run.work[i].tag in t.tags && t.flows[i].smoked == Some(t.tags[run.work[i].tag]))
      && (forall k :: 0 <= k < |t.log| && t.log[k].Pushed? ==>
            SmokePassed(t.log[k].flow, t.log[k].image) in t.log[..k])
      && (forall i :: 0 <= i < |t.flows| && t.flows[i].pc == Finished && run.publish ==>
            t.flows[i].reference.Some? && Published(i, t.flows[i].reference.value) in t.log
            && PublicationSmokePassed(i, t.flows[i].reference.value) in t.log)
  {
    RunIsSafe(run, s, events);
    var t := After(run, s, events);
    forall k | 0 <= k < |t.log| && t.log[k].Pushed?
      ensures SmokePassed(t.log[k].flow, t.log[k].image) in t.log[..k]
    {
      assert EntryOk(t.log, k);
    }
    forall i | 0 <= i < |t.flows| && t.flows[i].pc == Finished && run.publish
      ensures t.flows[i].reference.Some? && Published(i, t.flows[i].reference.value) in t.log
      ensures PublicationSmokePassed(i, t.flows[i].reference.value) in t.log
    {
      assert FlowOk(run, t, i);
      var k :| 0 <= k < |t.log| && t.log[k] == Published(i, t.flows[i].reference.value);
      assert EntryOk(t.log, k);
    }
    forall i | 0 <= i < |t.flows| && t.flows[i].pc == Pushing
      ensures run.work[i].tag in t.tags && t.flows[i].smoked == Some(t.tags[run.work[i].tag])
    {
      assert FlowOk(run, t, i);
    }
  }

  predicate Pulled(f: Flow) {
    f.pc in {Resolving, PublishedSmoke, Finished, Failed(Resolving), Failed(PublishedSmoke)}
  }

  lemma {:induction false} PullIsNotRepeated(run: Run, s: State, events: seq<Event>, i: nat)
    requires run.Apart() && |s.flows| == |run.work| && i < |s.flows| && Pulled(s.flows[i])
    ensures PulledAlike(After(run, s, events).flows[i], s.flows[i])
  {
    if events == [] {
    } else {
      var before, e := After(run, s, events[..|events| - 1]), events[|events| - 1];
      PullIsNotRepeated(run, s, events[..|events| - 1], i);
      if e == Advance(i) {
        AdvanceBehindPull(run, before, i);
      } else {
        ElsewhereIsNoConcern(run, before, e, i);
      }
    }
  }

  predicate PulledAlike(f: Flow, g: Flow) {
    Pulled(f) && f.pulled == g.pulled && f.pushed == g.pushed && f.smoked == g.smoked
  }

  lemma AdvanceBehindPull(run: Run, s: State, i: nat)
    requires run.Apart() && |s.flows| == |run.work| && i < |s.flows| && Pulled(s.flows[i])
    ensures PulledAlike(AdvanceFlow(run, s, i).flows[i], s.flows[i])
  {
    match s.flows[i].pc {
      case Resolving =>
      case PublishedSmoke =>
      case _ =>
    }
  }

  lemma {:induction false} AfterOfTwo(run: Run, s: State, a: seq<Event>, b: seq<Event>)
    requires run.Apart() && |s.flows| == |run.work|
    ensures After(run, s, a + b) == After(run, After(run, s, a), b)
    decreases |b|
  {
    if b == [] {
      assert a + b == a;
    } else {
      assert (a + b)[..|a + b| - 1] == a + b[..|b| - 1];
      AfterOfTwo(run, s, a, b[..|b| - 1]);
    }
  }

  /** A publication names the image that was smoked before the push exactly when it names the digest
      that was pushed, and that exactly when the registry tag still named it when it was pulled. Had
      the tag moved to another manifest of the image, the query would have met two digests. */
  lemma PublishesWhatItPushedIffUnmoved(run: Run, s: State, before: seq<Event>, i: nat, more: seq<Event>)
    requires run.Apart() && Initial(run, s) && run.publish && i < |run.work|
    requires After(run, s, before).flows[i].pc == Pulling
    requires After(run, s, before + [Advance(i)] + more).flows[i].pc == Finished
    ensures var atPull := After(run, s, before);
      var end := After(run, s, before + [Advance(i)] + more).flows[i];
      && run.work[i].tag in atPull.registry && atPull.flows[i].pushed.Some?
      && (end.reference == atPull.flows[i].pushed <==> atPull.registry[run.work[i].tag] == atPull.flows[i].pushed.value)
      && end.reference.Some?
      && (end.smoked == Some(end.reference.value.image) <==> end.reference == atPull.flows[i].pushed)
  {
    var atPull := After(run, s, before);
    RunIsSafe(run, s, before);
    assert FlowOk(run, atPull, i);
    AfterOfTwo(run, s, before, [Advance(i)]);
    var pulled := After(run, s, before + [Advance(i)]);
    assert [Advance(i)][..0] == [];
    assert pulled == AdvanceFlow(run, atPull, i);
    AfterOfTwo(run, s, before + [Advance(i)], more);
    if !Pulled(pulled.flows[i]) {
      FailureIsFinal(run, pulled, more, i);
    } else {
      PullIsNotRepeated(run, pulled, more, i);
    }
    RunIsSafe(run, s, before + [Advance(i)] + more);
    assert FlowOk(run, After(run, s, before + [Advance(i)] + more), i);
  }

  lemma {:induction false} FailureIsFinal(run: Run, s: State, events: seq<Event>, i: nat)
    requires run.Apart() && |s.flows| == |run.work| && i < |s.flows| && s.flows[i].pc.Failed?
    ensures After(run, s, events).flows[i] == s.flows[i]
  {
    if events == [] {
    } else {
      FailureIsFinal(run, s, events[..|events| - 1], i);
      if events[|events| - 1] != Advance(i) {
        ElsewhereIsNoConcern(run, After(run, s, events[..|events| - 1]), events[|events| - 1], i);
      }
    }
  }

  // --- A moved tag ------------------------------------------------------------------------------

  lemma AfterOneMore(run: Run, s: State, events: seq<Event>, e: Event)
    requires run.Apart() && |s.flows| == |run.work|
    ensures After(run, s, events + [e]) == Step(run, After(run, s, events), e)
  {
    assert (events + [e])[..|events|] == events;
  }

  ghost function Advanced(run: Run, s: State, i: nat, times: nat): (t: State)
    requires run.Apart() && |s.flows| == |run.work| && i < |run.work|
    ensures |t.flows| == |run.work|
  {
    if times == 0 then s else AdvanceFlow(run, Advanced(run, s, i, times - 1), i)
  }

  function Advances(i: nat, times: nat): (events: seq<Event>)
    ensures |events| == times && forall k :: 0 <= k < times ==> events[k] == Advance(i)
  {
    seq(times, _ => Advance(i))
  }

  lemma {:induction false} AfterAdvances(run: Run, s: State, i: nat, events: seq<Event>)
    requires run.Apart() && |s.flows| == |run.work| && i < |run.work|
    requires forall k :: 0 <= k < |events| ==> events[k] == Advance(i)
    ensures After(run, s, events) == Advanced(run, s, i, |events|)
  {
    if events == [] {
    } else {
      AfterAdvances(run, s, i, events[..|events| - 1]);
    }
  }

  predicate IsBehindPush(f: Flow, d: Digest) {
    f.pc == Pulling && f.recorded == {d} && f.pushed == Some(d) && f.smoked == Some(d.image)
  }

  /** Five advances take a pipeline whose calls succeed from its start past its push. */
  lemma FiveAdvances(run: Run, s: State, i: nat, image: ImageId, manifest: nat)
    requires run.Apart() && run.publish && |s.flows| == |run.work| && i < |run.work|
    requires s.flows[i] == FRESH && (run.sequential ==> s.turn == i)
    requires var o := run.outcomes[i];
      o.build == Some(image) && o.inspect && o.localSmoke.Some? && o.push == Accepted(manifest)
    ensures var (t, d) := (Advanced(run, s, i, 5), Digest(image, manifest));
      && t.flows == s.flows[i := t.flows[i]] && IsBehindPush(t.flows[i], d)
      && t.registry == s.registry[run.work[i].tag := d] && t.known == s.known + {d}
      && t.tags == s.tags[run.work[i].tag := image][run.work[i].smokeTag := run.outcomes[i].localSmoke.value]
      && run.work[i].tag in t.tags && t.tags[run.work[i].tag] == image
      && t.log == s.log + [SmokePassed(i, image)] + [Pushed(i, image)]
  {
    var t := Advanced(run, s, i, 3);
    assert Advanced(run, s, i, 0) == s;
    ThreeAdvances(run, s, AdvanceFlow(run, s, i), AdvanceFlow(run, AdvanceFlow(run, s, i), i), i, image);
    assert Advanced(run, s, i, 1) == AdvanceFlow(run, s, i);
    assert Advanced(run, s, i, 2) == AdvanceFlow(run, AdvanceFlow(run, s, i), i);
    assert t == AdvanceFlow(run, Advanced(run, s, i, 2), i);
    TwoMoreAdvances(run, t, i, image, manifest);
    assert Advanced(run, s, i, 4) == AdvanceFlow(run, t, i);
    assert t.registry == s.registry && t.known == s.known && t.log == s.log;
  }

  lemma ThreeAdvances(run: Run, s: State, s1: State, s2: State, i: nat, image: ImageId)
    requires run.Apart() && run.publish && |s.flows| == |run.work| && i < |run.work|
    requires s.flows[i] == FRESH && (run.sequential ==> s.turn == i)
    requires run.outcomes[i].build == Some(image) && run.outcomes[i].inspect
    requires s1 == AdvanceFlow(run, s, i) && s2 == AdvanceFlow(run, s1, i)
    ensures var t := AdvanceFlow(run, s2, i);
      && t.flows == s.flows[i := t.flows[i]] && t.registry == s.registry && t.known == s.known && t.log == s.log
      && t.tags == s.tags[run.work[i].tag := image]
      && t.flows[i].pc == LocalSmoke && t.flows[i].localId == Some(image) && t.flows[i].recorded == {}
  {
    assert s1.flows[i].pc == Building && s2.flows[i].pc == Inspecting;
  }

  lemma TwoMoreAdvances(run: Run, s: State, i: nat, image: ImageId, manifest: nat)
    requires run.Apart() && |s.flows| == |run.work| && i < |run.work|
    requires s.flows[i].pc == LocalSmoke && s.flows[i].localId == Some(image) && s.flows[i].recorded == {}
    requires run.work[i].tag in s.tags && s.tags[run.work[i].tag] == image
    requires run.outcomes[i].localSmoke.Some? && run.outcomes[i].push == Accepted(manifest)
    ensures var (t, d) := (AdvanceFlow(run, AdvanceFlow(run, s, i), i), Digest(image, manifest));
      && t.flows == s.flows[i := t.flows[i]] && IsBehindPush(t.flows[i], d)
      && t.registry == s.registry[run.work[i].tag := d] && t.known == s.known + {d}
      && t.tags == s.tags[run.work[i].smokeTag := run.outcomes[i].localSmoke.value]
      && run.work[i].tag in t.tags && t.tags[run.work[i].tag] == image
      && t.log == s.log + [SmokePassed(i, image)] + [Pushed(i, image)]
  {
    assert run.work[i].tag != run.work[i].smokeTag;
    var u := AdvanceFlow(run, s, i);
    assert u.flows[i].pc == Pushing && u.tags[run.work[i].tag] == image;
  }

  /** The gap, at its input: everything succeeds, and between a pipeline's push and its pull an
      outside publisher moves the tag. What it then publishes and validates is not what it pushed,
      nor the image it smoked before the push. */
  lemma MovedTagIsPublished(run: Run, s: State, i: nat, image: ImageId, manifest: nat, moved: Digest)
    requires run.Apart() && run.publish && Initial(run, s) && i < |run.work| && (run.sequential ==> i == 0)
    requires var o := run.outcomes[i];
      && o.build == Some(image) && o.inspect && o.localSmoke.Some? && o.push == Accepted(manifest)
      && o.pull && o.resolve && o.publishedSmoke.Some?
    requires moved.image != image && forall d :: d in s.known ==> d.image != moved.image
    ensures var f := After(run, s, Advances(i, 5) + [Outside(run.work[i].tag, moved)] + Advances(i, 3)).flows[i];
      && f.pc == Finished && f.reference == Some(moved)
      && f.pushed == Some(Digest(image, manifest)) && f.smoked == Some(image)
  {
    var (before, e) := (Advances(i, 5), Outside(run.work[i].tag, moved));
    FiveAdvances(run, s, i, image, manifest);
    AfterAdvances(run, s, i, before);
    AfterOneMore(run, s, before, e);
    var atPull := After(run, s, before + [e]);
    AfterOfTwo(run, s, before + [e], Advances(i, 3));
    AfterAdvances(run, atPull, i, Advances(i, 3));
    ThreeMoreAdvances(run, atPull, i, Digest(image, manifest), moved);
  }

  lemma ThreeMoreAdvances(run: Run, s: State, i: nat, pushed: Digest, moved: Digest)
    requires run.Apart() && |s.flows| == |run.work| && i < |run.work|
    requires run.outcomes[i].pull && run.outcomes[i].resolve && run.outcomes[i].publishedSmoke.Some?
    requires IsBehindPush(s.flows[i], pushed)
    requires run.work[i].tag in s.registry && s.registry[run.work[i].tag] == moved
    requires forall d :: d in s.known ==> d.image != moved.image
    ensures var f := Advanced(run, s, i, 3).flows[i];
      f.pc == Finished && f.reference == Some(moved) && f.pushed == Some(pushed) && f.smoked == Some(pushed.image)
  {
    var t := AdvanceFlow(run, s, i);
    assert RepoDigests(t, moved.image) == {moved};
    SingletonIs(RepoDigests(t, moved.image), moved);
    var u := AdvanceFlow(run, t, i);
    assert u.flows[i].reference == Some(moved);
    assert Advanced(run, s, i, 0) == s;
    assert Advanced(run, s, i, 1) == t;
    assert Advanced(run, s, i, 2) == u;
  }

  // --- Sequential mode -------------------------------------------------------------------------

  /** Just those before the loop's index have returned, and those behind it have not begun. */
  ghost predicate LoopAt(s: State) {
    && s.turn <= |s.flows|
    && (forall j :: 0 <= j < |s.flows| ==> (j < s.turn <==> s.flows[j].pc == Finished))
    && (forall j :: 0 <= j < |s.flows| && s.turn < j ==> s.flows[j].pc == Pending)
  }

  lemma StepKeepsLoopAt(run: Run, s: State, e: Event)
    requires run.Apart() && run.sequential && |s.flows| == |run.work| && LoopAt(s)
    ensures LoopAt(Step(run, s, e))
  {
    if e.Advance? && e.flow < |s.flows| {
      AdvanceIsStepOf(run, s, e.flow);
      if e.flow == s.turn {
        TurnMovesOnReturn(run, s, e.flow);
      }
    }
  }

  lemma TurnMovesOnReturn(run: Run, s: State, i: nat)
    requires run.Apart() && |s.flows| == |run.work| && i < |s.flows|
    ensures var t := AdvanceFlow(run, s, i);
      if t.flows[i].pc == Finished && s.flows[i].pc != Finished then t.turn == i + 1 else t.turn == s.turn
  {
    match s.flows[i].pc {
      case Building =>
      case PublishedSmoke =>
      case _ =>
    }
  }

  lemma {:induction false} LoopIsInOrder(run: Run, s: State, events: seq<Event>)
    requires run.Apart() && run.sequential && Initial(run, s)
    ensures LoopAt(After(run, s, events))
  {
    if events == [] {
    } else {
      LoopIsInOrder(run, s, events[..|events| - 1]);
      StepKeepsLoopAt(run, After(run, s, events[..|events| - 1]), events[|events| - 1]);
    }
  }

  /** `--sequential`: a pipeline that has begun stands behind returned ones only, one behind a failed
      one has not begun, and the next one to begin is the first that has not. */
  lemma SequentialStopsAtFailure(run: Run, s: State, events: seq<Event>)
    requires run.Apart() && run.sequential && Initial(run, s)
    ensures var flows := After(run, s, events).flows;
      && (forall i, j :: 0 <= j < i < |flows| && flows[i].pc != Pending ==> flows[j].pc == Finished)
      && (forall i, j :: 0 <= j < i < |flows| && flows[j].pc.Failed? ==> flows[i].pc == Pending)
      && (forall i :: 0 <= i < |flows| && flows[i].pc == Pending ==>
            (Step(run, After(run, s, events), Advance(i)).flows[i].pc == Building
             <==> forall j :: 0 <= j < i ==> flows[j].pc == Finished))
  {
    LoopIsInOrder(run, s, events);
    var t := After(run, s, events);
    forall i | 0 <= i < |t.flows| && t.flows[i].pc == Pending
      ensures Step(run, t, Advance(i)).flows[i].pc == Building <==> forall j :: 0 <= j < i ==> t.flows[j].pc == Finished
    {
      assert i != t.turn ==> t.flows[t.turn].pc != Finished;
    }
  }

  // --- Resources of the builds in flight -------------------------------------------------------

  /** What the base builds under way are allowed together. Smoke builds carry no cap. */
  function InFlight(flows: seq<Flow>, each: nat): nat {
    if flows == [] then 0
    else InFlight(flows[..|flows| - 1], each) + if flows[|flows| - 1].pc == Building then each else 0
  }

  lemma {:induction false} InFlightIsAMultiple(flows: seq<Flow>, each: nat)
    ensures InFlight(flows, each) == InFlight(flows, 1) * each
    ensures InFlight(flows, 1) <= |flows|
  {
    if flows == [] {
    } else {
      InFlightIsAMultiple(flows[..|flows| - 1], each);
    }
  }

  lemma {:induction false} NoneInFlight(flows: seq<Flow>)
    requires forall j :: 0 <= j < |flows| ==> flows[j].pc == Finished
    ensures InFlight(flows, 1) == 0
  {
    if flows == [] {
    } else {
      NoneInFlight(flows[..|flows| - 1]);
    }
  }

  lemma {:induction false} AtMostOneInFlight(flows: seq<Flow>)
    requires forall i, j :: 0 <= j < i < |flows| && flows[i].pc != Pending ==> flows[j].pc == Finished
    ensures InFlight(flows, 1) <= 1
  {
    if flows == [] {
    } else {
      var last := |flows| - 1;
      if flows[last].pc == Building {
        NoneInFlight(flows[..last]);
      } else {
        AtMostOneInFlight(flows[..last]);
      }
    }
  }

  /** Every target's build has the caps of the host's budget for that many builds at a time, and a
      context that Docker does not take for an option. */
  predicate BuiltUnder(work: seq<Target>, res: HostResources, concurrency: nat) {
    forall t :: t in work ==>
      && t.spec.builder == BuilderFor(Some(ComputeBuildBudget(res, concurrency)))
      && t.spec.context !in VALUED && t.spec.context !in SWITCHES
  }

  /** The options Docker reads from a build's command line. */
  function OptionsRead(spec: BuildSpec): seq<Opt> {
    if ReadableCpus(spec.builder) then Parse(Render(Options(spec)) + [spec.context]).0 else []
  }

  predicate CapsRead(work: seq<Target>, memory: nat, quota: nat) {
    forall t :: t in work ==> HasCaps(OptionsRead(t.spec), memory, quota)
  }

  lemma CapsAreRead(work: seq<Target>, res: HostResources, c: nat)
    requires BuiltUnder(work, res, c)
    ensures CapsRead(work, CapBytes(res, c), CpuBudget(res, c) * CPU_PERIOD_US)
  {
    forall t | t in work
      ensures HasCaps(OptionsRead(t.spec), CapBytes(res, c), CpuBudget(res, c) * CPU_PERIOD_US)
    {
      BudgetReachesDocker(t.spec, res, c);
    }
  }

  lemma BuiltUnderFits(run: Run, s: State, events: seq<Event>, res: HostResources)
    requires run.Apart() && Initial(run, s) && 1 <= |run.work| <= 2
    requires MeetsMinimums(res) && BuiltUnder(run.work, res, Concurrency(|run.work|, run.sequential))
    ensures FitsTheHost(run, After(run, s, events), res)
  {
    CapsAreRead(run.work, res, Concurrency(|run.work|, run.sequential));
    NoMoreThanBudgeted(run, s, events);
    InFlightFits(After(run, s, events).flows, res, Concurrency(|run.work|, run.sequential));
  }

  /** Docker reads the same caps from every target's command, and those of the base builds under way
      add up to no more than the host can spare. */
  predicate FitsTheHost(run: Run, s: State, res: HostResources)
    requires |run.work| == |s.flows|
  {
    var c := Concurrency(|run.work|, run.sequential);
    && CapsRead(run.work, CapBytes(res, c), CpuBudget(res, c) * CPU_PERIOD_US)
    && InFlight(s.flows, CapBytes(res, c)) <= Allowance(res)
    && InFlight(s.flows, CpuBudget(res, c) * CPU_PERIOD_US) <= (res.cpuCount - 1) * CPU_PERIOD_US
  }

  lemma NoMoreThanBudgeted(run: Run, s: State, events: seq<Event>)
    requires run.Apart() && Initial(run, s) && 1 <= |run.work|
    ensures InFlight(After(run, s, events).flows, 1) <= Concurrency(|run.work|, run.sequential)
  {
    var flows := After(run, s, events).flows;
    if run.sequential {
      SequentialStopsAtFailure(run, s, events);
      AtMostOneInFlight(flows);
    }
    InFlightIsAMultiple(flows, 1);
  }

  lemma InFlightFits(flows: seq<Flow>, res: HostResources, c: nat)
    requires MeetsMinimums(res) && 1 <= c <= 2 && InFlight(flows, 1) <= c
    ensures InFlight(flows, CapBytes(res, c)) <= Allowance(res)
    ensures InFlight(flows, CpuBudget(res, c) * CPU_PERIOD_US) <= (res.cpuCount - 1) * CPU_PERIOD_US
  {
    InFlightIsAMultiple(flows, CapBytes(res, c));
    InFlightIsAMultiple(flows, CpuBudget(res, c) * CPU_PERIOD_US);
    ConcurrentBuildsFit(res, c, InFlight(flows, 1));
    assert InFlight(flows, 1) * (CpuBudget(res, c) * CPU_PERIOD_US)
        == InFlight(flows, 1) * CpuBudget(res, c) * CPU_PERIOD_US;
  }

  // --- The report of a concurrent run ----------------------------------------------------------

  /** What a pipeline's task ended with: nothing, or an exception with its friendly message, if
      there is one for it. */
  datatype Outcome = Returned | Raised(message: Option<string>)

  /** What the run raises: nothing, the exception of one pipeline, or the listed messages. */
  datatype Report = Silent | Reraise(flow: nat) | Listing(failures: seq<(nat, string)>)

  predicate Unfriendly(o: Outcome) {
    o.Raised? && o.message.None?
  }

  function Friendly(outcomes: seq<Outcome>): seq<(nat, string)> {
    if outcomes == [] then []
    else
      var last := outcomes[|outcomes| - 1];
      Friendly(outcomes[..|outcomes| - 1])
      + if last.Raised? && last.message.Some? then [(|outcomes| - 1, last.message.value)] else []
  }

  method ReportFailures(outcomes: seq<Outcome>) returns (r: Report)
    ensures r.Reraise? ==> r.flow < |outcomes| && Unfriendly(outcomes[r.flow])
    ensures r.Reraise? ==> forall k :: 0 <= k < r.flow ==> !Unfriendly(outcomes[k])
    ensures (exists k :: 0 <= k < |outcomes| && Unfriendly(outcomes[k])) <==> r.Reraise?
    ensures r.Silent? <==> forall o :: o in outcomes ==> o.Returned?
    ensures r.Listing? ==> r.failures == Friendly(outcomes)
  {
    var failures: seq<(nat, string)> := [];
    for i := 0 to |outcomes|
      invariant failures == Friendly(outcomes[..i])
      invariant forall k :: 0 <= k < i ==> !Unfriendly(outcomes[k])
      invariant failures == [] <==> forall k :: 0 <= k < i ==> outcomes[k].Returned?
    {
      assert outcomes[..i + 1][..i] == outcomes[..i];
      if outcomes[i].Raised? {
        if outcomes[i].message.None? {
          assert outcomes[i] in outcomes;
          return Reraise(i);
        }
        failures := failures + [(i, outcomes[i].message.value)];
      }
    }
    assert outcomes[..|outcomes|] == outcomes;
    r := if failures == [] then Silent else Listing(failures);
  }

  /** A list of failures in work order: every one with a friendly message, and nothing else. */
  predicate ListsFriendly(list: seq<(nat, string)>, outcomes: seq<Outcome>) {
    && (forall k :: 0 <= k < |list| ==> list[k].0 < |outcomes| && outcomes[list[k].0] == Raised(Some(list[k].1)))
    && (forall j, k :: 0 <= j < k < |list| ==> list[j].0 < list[k].0)
    && (forall i :: 0 <= i < |outcomes| && outcomes[i].Raised? && outcomes[i].message.Some? ==>
          (i, outcomes[i].message.value) in list)
  }

  lemma OneMoreOutcome(list: seq<(nat, string)>, outcomes: seq<Outcome>, last: Outcome)
    requires ListsFriendly(list, outcomes)
    ensures var more := if last.Raised? && last.message.Some? then [(|outcomes|, last.message.value)] else [];
      ListsFriendly(list + more, outcomes + [last])
  {
    var more := if last.Raised? && last.message.Some? then [(|outcomes|, last.message.value)] else [];
    assert forall i :: 0 <= i < |outcomes| ==> (outcomes + [last])[i] == outcomes[i];
    assert forall x :: x in list ==> x in list + more;
    assert more != [] ==> (list + more)[|list|] == more[0];
  }

  /** The listed failures are the friendly ones, each once, in work order. */
  lemma {:induction false} FriendlyInOrder(outcomes: seq<Outcome>)
    ensures ListsFriendly(Friendly(outcomes), outcomes)
  {
    if outcomes == [] {
    } else {
      var front := outcomes[..|outcomes| - 1];
      FriendlyInOrder(front);
      OneMoreOutcome(Friendly(front), front, outcomes[|outcomes| - 1]);
      FrontAndLast(outcomes);
    }
  }

  // --- The actual targets ----------------------------------------------------------------------

  /** `_base_targets`: both flavors, or the one asked for. */
  function Flavors(flavor: Option<Flavor>): seq<Flavor> {
    if flavor.None? then [Cpu, Cuda] else [flavor.value]
  }

  /** `_base_work`: one target a flavor, appended in a loop; without a CUDA parent a CUDA target raises. */
  method BaseWork(flavor: Option<Flavor>, q: Request) returns (r: Result<seq<Target>, Flavor>)
    requires q.Valid()
    ensures r.Err? <==> q.cuda.None? && Cuda in Flavors(flavor)
    ensures r.Ok? ==> AreTargetsOf(r.value, Flavors(flavor), q)
    ensures r.Ok? ==> forall outcomes, publish, sequential ::
      |outcomes| == |r.value| ==> Run(r.value, outcomes, publish, sequential).Apart()
  {
    var work: seq<Target> := [];
    for i := 0 to |Flavors(flavor)|
      invariant |work| == i
      invariant Cuda in Flavors(flavor)[..i] ==> q.cuda.Some?
      invariant AreTargetsOf(work, Flavors(flavor)[..i], q)
    {
      var f := Flavors(flavor)[i];
      assert Flavors(flavor)[..i + 1] == Flavors(flavor)[..i] + [f];
      if f.Cuda? && q.cuda.None? {
        return Err(f);
      }
      var target := ResolveTarget(f, q);
      OneMoreTarget(work, Flavors(flavor)[..i], target, f, q);
      work := work + [target];
    }
    assert Flavors(flavor)[..|Flavors(flavor)|] == Flavors(flavor);
    TargetsAreApart(work, flavor, q);
    return Ok(work);
  }

  method ResolveTarget(f: Flavor, q: Request) returns (t: Target)
    requires q.Valid() && (f.Cuda? ==> q.cuda.Some?)
    ensures IsTargetOf(t, f, q)
  {
    var args := ComputeBuildArgs(f, q.cuda, q.versions(f)).value;
    BuildSpecIsBaseBuild(f, q);
    t := Target(BaseImageRef(f, q.arch), SmokeTag(f, q.arch), BuildSpecFor(f, q.arch, q.context, args, q.budget));
  }

  predicate IsTargetOf(t: Target, f: Flavor, q: Request) {
    && t.tag == BaseImageRef(f, q.arch) && t.smokeTag == SmokeTag(f, q.arch)
    && (f.Cuda? ==> q.cuda.Some?) && IsBaseBuild(t.spec, f, ParentOf(f, q.cuda), q)
  }

  predicate AreTargetsOf(work: seq<Target>, flavors: seq<Flavor>, q: Request) {
    |work| == |flavors| && forall i :: 0 <= i < |work| ==> IsTargetOf(work[i], flavors[i], q)
  }

  lemma OneMoreTarget(work: seq<Target>, flavors: seq<Flavor>, t: Target, f: Flavor, q: Request)
    requires AreTargetsOf(work, flavors, q) && IsTargetOf(t, f, q)
    ensures AreTargetsOf(work + [t], flavors + [f], q)
  {
  }

  lemma TargetNames(t: Target, f: Flavor, q: Request)
    requires IsTargetOf(t, f, q)
    ensures t.tag == BaseImageRef(f, q.arch) && t.smokeTag == SmokeTag(f, q.arch)
  {
  }

  lemma TargetsAreApart(work: seq<Target>, flavor: Option<Flavor>, q: Request)
    requires AreTargetsOf(work, Flavors(flavor), q)
    ensures forall outcomes, publish, sequential ::
      |outcomes| == |work| ==> Run(work, outcomes, publish, sequential).Apart()
  {
    forall i | 0 <= i < |work|
      ensures work[i].tag == BaseImageRef(Flavors(flavor)[i], q.arch)
      ensures work[i].smokeTag == SmokeTag(Flavors(flavor)[i], q.arch)
    {
      TargetNames(work[i], Flavors(flavor)[i], q);
    }
    NamesAreApart(work, Flavors(flavor), q.arch);
  }

  lemma NamesAreApart(work: seq<Target>, flavors: seq<Flavor>, arch: Arch)
    requires |work| == |flavors| && forall i, j :: 0 <= i < j < |flavors| ==> flavors[i] != flavors[j]
    requires forall i :: 0 <= i < |work| ==> work[i].tag == BaseImageRef(flavors[i], arch)
    requires forall i :: 0 <= i < |work| ==> work[i].smokeTag == SmokeTag(flavors[i], arch)
    ensures forall outcomes, publish, sequential ::
      |outcomes| == |work| ==> Run(work, outcomes, publish, sequential).Apart()
  {
    TagsAreApart();
    forall i, j | 0 <= i < |work| && 0 <= j < |work|
      ensures work[i].tag != work[j].smokeTag && (i != j ==> work[i].tag != work[j].tag)
    {
      assert BaseImageRef(flavors[i], arch) != SmokeTag(flavors[j], arch);
    }
  }

  // --- The command -----------------------------------------------------------------------------

  lemma TargetsAreBuiltUnder(work: seq<Target>, flavors: seq<Flavor>, q: Request, res: HostResources, concurrency: nat)
    requires AreTargetsOf(work, flavors, q) && q.budget == Some(ComputeBuildBudget(res, concurrency))
    requires q.context !in VALUED && q.context !in SWITCHES
    ensures BuiltUnder(work, res, concurrency)
  {
    forall t | t in work
      ensures t.spec.builder == BuilderFor(q.budget) && t.spec.context == q.context
    {
      var i :| 0 <= i < |work| && work[i] == t;
      assert IsTargetOf(work[i], flavors[i], q);
    }
  }

  /** Base builds under way, concurrent or sequential, never sum past the host, in any state of a run
      over the targets: the budget behind their caps is that of the scheduler's own concurrency. */
  lemma BuildsInFlightFitTheHost(run: Run, s: State, events: seq<Event>, res: HostResources, flavor: Option<Flavor>,
                                 q: Request)
    requires AreTargetsOf(run.work, Flavors(flavor), q)
    requires q.budget == Some(ComputeBuildBudget(res, Concurrency(|Flavors(flavor)|, run.sequential)))
    requires q.context !in VALUED && q.context !in SWITCHES
    requires MeetsMinimums(res) && |run.outcomes| == |run.work| && Initial(run, s)
    ensures run.Apart() && FitsTheHost(run, After(run, s, events), res)
  {
    var c := Concurrency(|run.work|, run.sequential);
    TargetsAreBuiltUnder(run.work, Flavors(flavor), q, res, c);
    TargetsAreApart(run.work, flavor, q);
    assert Run(run.work, run.outcomes, run.publish, run.sequential).Apart();
    BuiltUnderFits(run, s, events, res);
  }

  datatype Refused = BelowFloor(shortfalls: seq<Shortfall>) | NoParent(flavor: Flavor)

  /** `base build` and `base build-and-push` up to the run: measure, budget, resolve the targets.
      Whatever run they are given to, its base builds fit the measured host. */
  method PrepareTargets(measured: Option<HostResources>, flavor: Option<Flavor>, arch: Arch, context: string,
                        cuda: Option<string>, versions: Flavor -> seq<(string, string)>, sequential: bool)
    returns (r: Result<seq<Target>, Refused>, ghost q: Request)
    requires cuda.Some? ==> CUDA_REPOSITORY <= cuda.value
    ensures r.Ok? <==> (measured.Some? ==> MeetsMinimums(measured.value)) && (Cuda in Flavors(flavor) ==> cuda.Some?)
    ensures q.arch == arch && q.context == context && q.cuda == cuda && q.versions == versions
    ensures q.budget == if measured.None? then None
      else Some(ComputeBuildBudget(measured.value, Concurrency(|Flavors(flavor)|, sequential)))
    ensures r.Ok? ==> AreTargetsOf(r.value, Flavors(flavor), q)
    ensures r.Ok? && measured.Some? && context !in VALUED && context !in SWITCHES ==>
      forall outcomes, publish, s, events ::
        |outcomes| == |r.value| ==> RunFits(Run(r.value, outcomes, publish, sequential), s, events, measured.value)
  {
    ghost var c := Concurrency(|Flavors(flavor)|, sequential);
    q := Request(arch, context, cuda, versions,
                 if measured.None? then None else Some(ComputeBuildBudget(measured.value, c)));
    var budget := ResolveBuildBudget(measured, |Flavors(flavor)|, sequential);
    if budget.Err? {
      return Err(BelowFloor(budget.error)), q;
    }
    BudgetIsReadable(budget.value, measured, c);
    var request := Request(arch, context, cuda, versions, budget.value);
    var work := BaseWork(flavor, request);
    if work.Err? {
      return Err(NoParent(work.error)), q;
    }
    r := Ok(work.value);
    if measured.Some? && context !in VALUED && context !in SWITCHES {
      EveryRunFits(work.value, sequential, measured.value, flavor, q);
    }
  }

  lemma EveryRunFits(work: seq<Target>, sequential: bool, res: HostResources, flavor: Option<Flavor>, q: Request)
    requires AreTargetsOf(work, Flavors(flavor), q)
    requires q.budget == Some(ComputeBuildBudget(res, Concurrency(|Flavors(flavor)|, sequential)))
    requires q.context !in VALUED && q.context !in SWITCHES && MeetsMinimums(res)
    ensures forall outcomes, publish, s, events ::
      |outcomes| == |work| ==> RunFits(Run(work, outcomes, publish, sequential), s, events, res)
  {
    forall outcomes, publish, s, events | |outcomes| == |work|
      ensures RunFits(Run(work, outcomes, publish, sequential), s, events, res)
    {
      var run := Run(work, outcomes, publish, sequential);
      if Initial(run, s) {
        BuildsInFlightFitTheHost(run, s, events, res, flavor, q);
      }
    }
  }

  /** In the state behind these events the base builds under way fit the host. */
  ghost predicate RunFits(run: Run, s: State, events: seq<Event>, res: HostResources) {
    Initial(run, s) ==> run.Apart() && FitsTheHost(run, After(run, s, events), res)
  }

  lemma BudgetIsReadable(budget: Option<Budget>, measured: Option<HostResources>, concurrency: nat)
    requires budget == if measured.None? then None else Some(ComputeBuildBudget(measured.value, concurrency))
    ensures ReadableCpus(BuilderFor(budget))
  {
    if measured.Some? {
      BudgetReadsBack(measured.value, concurrency);
      FloatOfWhole(budget.value.dockerCpus);
    }
  }

  // --- How many builds there can be ----------------------------------------------------------------

  /** The first call of each of the first `n` pipelines. */
  function Starts(n: nat): (events: seq<Event>)
    ensures |events| == n
  {
    if n == 0 then [] else Starts(n - 1) + [Advance(n - 1)]
  }

  ghost predicate Begun(s: State, n: nat) {
    s.turn == 0 && forall i :: 0 <= i < |s.flows| ==> s.flows[i] == if i < n then FRESH.(pc := Building) else FRESH
  }

  lemma OneMoreBegins(run: Run, s: State, n: nat)
    requires run.Apart() && |s.flows| == |run.work| && n < |run.work| && (run.sequential ==> n == 0) && Begun(s, n)
    ensures Begun(AdvanceFlow(run, s, n), n + 1)
  {
    assert s.flows[n] == FRESH;
  }

  lemma {:induction false} AfterStarts(run: Run, s: State, n: nat)
    requires run.Apart() && Initial(run, s) && n <= |run.work| && (run.sequential ==> n <= 1)
    ensures Begun(After(run, s, Starts(n)), n)
  {
    if n == 0 {
    } else {
      AfterStarts(run, s, n - 1);
      AfterOneMore(run, s, Starts(n - 1), Advance(n - 1));
      OneMoreBegins(run, After(run, s, Starts(n - 1)), n - 1);
    }
  }

  lemma {:induction false} FirstOnesInFlight(flows: seq<Flow>, n: nat)
    requires n <= |flows| && forall i :: 0 <= i < |flows| ==> (flows[i].pc.Building? <==> i < n)
    ensures InFlight(flows, 1) == n
  {
    if flows == [] {
    } else {
      FirstOnesInFlight(flows[..|flows| - 1], if n == |flows| then n - 1 else n);
    }
  }

  /** The concurrency a budget is computed for is the most builds the scheduler ever has under way:
      no more are reached, and so many are. */
  lemma ConcurrencyIsReached(run: Run, s: State)
    requires run.Apart() && Initial(run, s) && 1 <= |run.work|
    ensures forall events :: InFlight(After(run, s, events).flows, 1) <= Concurrency(|run.work|, run.sequential)
    ensures exists events :: InFlight(After(run, s, events).flows, 1) == Concurrency(|run.work|, run.sequential)
  {
    forall events ensures InFlight(After(run, s, events).flows, 1) <= Concurrency(|run.work|, run.sequential) {
      NoMoreThanBudgeted(run, s, events);
    }
    var n := Concurrency(|run.work|, run.sequential);
    AfterStarts(run, s, n);
    FirstOnesInFlight(After(run, s, Starts(n)).flows, n);
  }
}
