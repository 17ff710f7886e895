/** How a pipeline's end, and what the log says of it, follow from how its calls end. */
module PipelineEnds {
  import opened BaseTargets
  import opened Seqs
  import opened Wrappers

  /** The first `n` of a publishing pipeline's seven calls succeed, in the order they are made. */
  predicate Passed(o: Outcomes, n: nat) {
    && (n > 0 ==> o.build.Some?)
    && (n > 1 ==> o.inspect)
    && (n > 2 ==> o.localSmoke.Some?)
    && (n > 3 ==> o.push.Accepted?)
    && (n > 4 ==> o.pull)
    && (n > 5 ==> o.resolve)
    && (n > 6 ==> o.publishedSmoke.Some?)
  }

  /** How many calls are behind a pipeline that is in, or failed in, the given one. */
  function Behind(pc: Pc): nat {
    match pc
    case Inspecting => 1
    case LocalSmoke => 2
    case Pushing => 3
    case Pulling => 4
    case Resolving => 5
    case PublishedSmoke => 6
    case Finished => 7
    case Failed(at) => Behind(at)
    case _ => 0
  }

  predicate IsCall(pc: Pc) {
    pc in {Building, Inspecting, LocalSmoke, Pushing, Pulling, Resolving, PublishedSmoke}
  }

  /** A pipeline is where its calls have taken it: all behind it succeeded; it failed in a call that
      failed, or at the digest query; without `publish` there is only the build. */
  predicate FlowMeans(run: Run, f: Flow, o: Outcomes) {
    && (f.built.Some? ==> f.built == o.build)
    && (run.publish ==> Passed(o, Behind(f.pc)))
    && (!run.publish ==> f.pc in {Pending, Building, Finished, Failed(Building)} && (f.pc.Finished? ==> Passed(o, 1)))
    && (f.pc.Failed? ==> IsCall(f.pc.at) && (f.pc.at.Resolving? || !Passed(o, Behind(f.pc.at) + 1)))
  }

  /** What the log says happened did: the calls up to it succeeded, on the image that was built. */
  predicate EntryMeans(run: Run, entry: Entry)
    requires |run.outcomes| == |run.work|
  {
    && run.publish && entry.flow < |run.work|
    && var o := run.outcomes[entry.flow];
       match entry
       case SmokePassed(_, image) => Passed(o, 3) && o.build == Some(image)
       case Pushed(_, image) => Passed(o, 3) && o.build == Some(image) && !o.push.Rejected?
       case PublicationSmokePassed(_, _) => Passed(o, 7)
       case Published(_, _) => Passed(o, 7)
  }

  ghost predicate Means(run: Run, s: State)
    requires run.Apart() && |s.flows| == |run.work|
  {
    && (forall i :: 0 <= i < |s.flows| ==> FlowMeans(run, s.flows[i], run.outcomes[i]))
    && (forall entry :: entry in s.log ==> EntryMeans(run, entry))
  }

  lemma AdvancedFlowMeans(run: Run, s: State, i: nat)
    requires Safe(run, s) && i < |s.flows| && FlowMeans(run, s.flows[i], run.outcomes[i])
    ensures FlowMeans(run, AdvanceFlow(run, s, i).flows[i], run.outcomes[i])
  {
    if s.flows[i].pc in {Building, Inspecting, LocalSmoke} {
      LocalFlowMeans(run, s, i);
    } else if s.flows[i].pc in {Pushing, Pulling} {
      ExchangedFlowMeans(run, s, i);
    } else {
      assert FlowOk(run, s, i);
    }
  }

  lemma LocalFlowMeans(run: Run, s: State, i: nat)
    requires Safe(run, s) && i < |s.flows| && FlowMeans(run, s.flows[i], run.outcomes[i])
    requires s.flows[i].pc in {Building, Inspecting, LocalSmoke}
    ensures FlowMeans(run, AdvanceFlow(run, s, i).flows[i], run.outcomes[i])
  {
    assert FlowOk(run, s, i);
    match s.flows[i].pc {
      case Building =>
      case Inspecting =>
      case LocalSmoke =>
    }
  }

  lemma ExchangedFlowMeans(run: Run, s: State, i: nat)
    requires Safe(run, s) && i < |s.flows| && FlowMeans(run, s.flows[i], run.outcomes[i])
    requires s.flows[i].pc in {Pushing, Pulling}
    ensures FlowMeans(run, AdvanceFlow(run, s, i).flows[i], run.outcomes[i])
  {
    assert FlowOk(run, s, i);
    match s.flows[i].pc {
      case Pushing =>
      case Pulling =>
    }
  }

  lemma AdvancedLogMeans(run: Run, s: State, i: nat)
    requires Safe(run, s) && i < |s.flows| && FlowMeans(run, s.flows[i], run.outcomes[i])
    ensures forall entry :: entry in AdvanceFlow(run, s, i).log && entry !in s.log ==> EntryMeans(run, entry)
  {
    assert FlowOk(run, s, i);
    match s.flows[i].pc {
      case LocalSmoke =>
      case Pushing =>
      case PublishedSmoke =>
      case _ =>
    }
  }

  /** In every reachable state of every interleaving: a smoke that is logged as passed, and a push,
      are of a pipeline whose calls up to there succeeded; a publication, of one all of whose calls
      succeeded; so is a pipeline that finished; and one that failed did so in its first call that
      failed, or at the digest query. */
  lemma {:induction false} LogMeansOutcomes(run: Run, s: State, events: seq<Event>)
    requires run.Apart() && Initial(run, s)
    ensures Means(run, After(run, s, events))
  {
    if events == [] {
    } else {
      var before, e := After(run, s, events[..|events| - 1]), events[|events| - 1];
      LogMeansOutcomes(run, s, events[..|events| - 1]);
      RunIsSafe(run, s, events[..|events| - 1]);
      StepKeepsMeans(run, before, e);
    }
  }

  lemma StepKeepsMeans(run: Run, s: State, e: Event)
    requires Safe(run, s) && Means(run, s)
    ensures Means(run, Step(run, s, e))
  {
    if e.Advance? && e.flow < |s.flows| {
      AdvanceIsStepOf(run, s, e.flow);
      AdvancedFlowMeans(run, s, e.flow);
      AdvancedLogMeans(run, s, e.flow);
    }
  }

  predicate PushesNow(run: Run, s: State, t: State, i: nat, image: ImageId)
    requires i < |run.work| == |run.outcomes|
  {
    && t.log == s.log + [Pushed(i, image)] && !run.outcomes[i].push.Rejected?
    && t.registry == s.registry[run.work[i].tag := Digest(image, run.outcomes[i].push.manifest)]
  }

  /** Only an outside publisher and a logged push move a registry tag, and a push moves its own tag,
      to the image it is logged for under the manifest the push ended with. */
  lemma OnlyPushesMoveTheRegistry(run: Run, s: State, e: Event)
    requires run.Apart() && |s.flows| == |run.work|
    ensures var t := Step(run, s, e);
      match e
      case Outside(tag, digest) => t.registry == s.registry[tag := digest] && t.log == s.log
      case Advance(i) =>
        || (t.registry == s.registry && forall x: ImageId :: t.log != s.log + [Pushed(i, x)])
        || (i < |run.work| && exists x: ImageId :: PushesNow(run, s, t, i, x))
  {
    if e.Advance? && e.flow < |s.flows| {
      PushMovesTheRegistry(run, s, e.flow);
    } else if e.Advance? {
      assert forall x: ImageId :: |s.log + [Pushed(e.flow, x)]| > |s.log|;
    }
  }

  lemma PushMovesTheRegistry(run: Run, s: State, i: nat)
    requires run.Apart() && |s.flows| == |run.work| && i < |s.flows|
    ensures var t := AdvanceFlow(run, s, i);
      || (t.registry == s.registry && forall x: ImageId :: t.log != s.log + [Pushed(i, x)])
      || exists x: ImageId :: PushesNow(run, s, t, i, x)
  {
    var (t, n) := (AdvanceFlow(run, s, i), |s.log|);
    assert forall x: ImageId :: |s.log + [Pushed(i, x)]| == n + 1 && (s.log + [Pushed(i, x)])[n] == Pushed(i, x);
    match s.flows[i].pc {
      case LocalSmoke => assert |t.log| > n ==> t.log[n].SmokePassed?;
      case Pushing =>
        if t.log != s.log {
          assert PushesNow(run, s, t, i, s.tags[run.work[i].tag]);
        }
      case PublishedSmoke =>
      case _ =>
    }
  }

  // --- A pipeline alone ------------------------------------------------------------------------

  predicate Over(pc: Pc) { pc.Finished? || pc.Failed? }

  /** How far a pipeline has come, counting the call it is in. */
  function Progress(pc: Pc): nat {
    if pc.Pending? then 0 else if Over(pc) then 8 else 1 + Behind(pc)
  }

  lemma AdvanceGoesOn(run: Run, s: State, i: nat)
    requires run.Apart() && |s.flows| == |run.work| && i < |s.flows| && (run.sequential ==> s.turn == i)
    ensures var t := AdvanceFlow(run, s, i);
      && (Over(s.flows[i].pc) || Progress(t.flows[i].pc) > Progress(s.flows[i].pc))
      && (Over(s.flows[i].pc) ==> t.flows[i] == s.flows[i])
      && (run.sequential ==> t.turn == i || Over(t.flows[i].pc))
  {
    match s.flows[i].pc {
      case Building =>
      case Resolving =>
      case PublishedSmoke =>
      case _ =>
    }
  }

  /** At least so many advances behind its start, or over. */
  predicate HasCome(run: Run, s: State, i: nat, times: nat)
    requires i < |s.flows|
  {
    && (Over(s.flows[i].pc) || Progress(s.flows[i].pc) >= times)
    && (run.sequential ==> s.turn == i || Over(s.flows[i].pc))
  }

  lemma OneMoreAdvance(run: Run, s: State, i: nat, times: nat)
    requires run.Apart() && |s.flows| == |run.work| && i < |s.flows| && HasCome(run, s, i, times)
    ensures HasCome(run, AdvanceFlow(run, s, i), i, times + 1)
  {
    if Over(s.flows[i].pc) {
      OverStaysOver(run, s, i);
    } else {
      AdvanceGoesOn(run, s, i);
    }
  }

  lemma {:induction false} AdvancesGoOn(run: Run, s: State, i: nat, times: nat)
    requires run.Apart() && |s.flows| == |run.work| && i < |s.flows| && (run.sequential ==> s.turn == i)
    ensures HasCome(run, Advanced(run, s, i, times), i, times)
  {
    if times == 0 {
    } else {
      AdvancesGoOn(run, s, i, times - 1);
      OneMoreAdvance(run, Advanced(run, s, i, times - 1), i, times - 1);
    }
  }

  lemma OverStaysOver(run: Run, s: State, i: nat)
    requires run.Apart() && |s.flows| == |run.work| && i < |s.flows| && Over(s.flows[i].pc)
    ensures AdvanceFlow(run, s, i) == s
  {
  }

  /** What the registry and the daemon hold, and what is logged, once everything went well. */
  ghost predicate PublishedAll(run: Run, s: State, t: State, i: nat, image: ImageId)
    requires run.Apart() && |s.flows| == |run.work| == |t.flows| && i < |run.work| && Passed(run.outcomes[i], 7)
  {
    var (o, d) := (run.outcomes[i], Digest(image, run.outcomes[i].push.manifest));
    && t.flows[i] == Flow(Finished, Some(image), Some(image), Some(image), Some(d), Some(d), Some(d), {d})
    && t.registry == s.registry[run.work[i].tag := d] && t.known == s.known + {d}
    && run.work[i].tag in t.tags && t.tags[run.work[i].tag] == image
    && run.work[i].smokeTag in t.tags && t.tags[run.work[i].smokeTag] == o.publishedSmoke.value
    && t.log == s.log + [SmokePassed(i, image)] + [Pushed(i, image)]
                + [PublicationSmokePassed(i, d)] + [Published(i, d)]
  }

  lemma SucceedsAlone(run: Run, s: State, i: nat, image: ImageId)
    requires run.Apart() && run.publish && |s.flows| == |run.work| && i < |run.work|
    requires s.flows[i] == FRESH && (run.sequential ==> s.turn == i)
    requires Passed(run.outcomes[i], 7) && run.outcomes[i].build == Some(image)
    requires forall d :: d in s.known && d.image == image ==> d == Digest(image, run.outcomes[i].push.manifest)
    ensures PublishedAll(run, s, Advanced(run, s, i, 8), i, image)
  {
    var d := Digest(image, run.outcomes[i].push.manifest);
    FiveAdvances(run, s, i, image, d.manifest);
    FiveAdvancesFlow(run, s, i, image);
    var t, u, v := Advanced(run, s, i, 5), Advanced(run, s, i, 6), Advanced(run, s, i, 7);
    PullsAlone(run, t, u, i, d);
    ResolvesAlone(run, u, v, i, d);
    FinishesAlone(run, v, i, d);
  }

  function FlowAt(pc: Pc, d: Digest, pulled: Option<Digest>, reference: Option<Digest>): Flow {
    Flow(pc, Some(d.image), Some(d.image), Some(d.image), Some(d), pulled, reference, {d})
  }

  lemma PullsAlone(run: Run, t: State, u: State, i: nat, d: Digest)
    requires run.Apart() && |t.flows| == |run.work| && i < |run.work| && u == AdvanceFlow(run, t, i)
    requires t.flows[i] == FlowAt(Pulling, d, None, None) && run.outcomes[i].pull
    requires run.work[i].tag in t.registry && t.registry[run.work[i].tag] == d && d in t.known
    ensures u.flows[i] == FlowAt(Resolving, d, Some(d), None)
    ensures u.registry == t.registry && u.known == t.known && u.log == t.log
    ensures u.tags == t.tags[run.work[i].tag := d.image]
  {
  }

  lemma ResolvesAlone(run: Run, u: State, v: State, i: nat, d: Digest)
    requires run.Apart() && |u.flows| == |run.work| && i < |run.work| && v == AdvanceFlow(run, u, i)
    requires u.flows[i] == FlowAt(Resolving, d, Some(d), None) && run.outcomes[i].resolve
    requires run.work[i].tag in u.tags && u.tags[run.work[i].tag] == d.image
    requires d in u.known && forall x :: x in u.known && x.image == d.image ==> x == d
    ensures v.flows[i] == FlowAt(PublishedSmoke, d, Some(d), Some(d))
    ensures v.registry == u.registry && v.known == u.known && v.log == u.log && v.tags == u.tags
  {
    assert RepoDigests(u, d.image) == {d};
    SingletonIs(RepoDigests(u, d.image), d);
  }

  lemma FinishesAlone(run: Run, v: State, i: nat, d: Digest)
    requires run.Apart() && |v.flows| == |run.work| && i < |run.work|
    requires v.flows[i] == FlowAt(PublishedSmoke, d, Some(d), Some(d)) && run.outcomes[i].publishedSmoke.Some?
    ensures var t := AdvanceFlow(run, v, i);
      && t.flows[i] == FlowAt(Finished, d, Some(d), Some(d)) && t.registry == v.registry && t.known == v.known
      && t.tags == v.tags[run.work[i].smokeTag := run.outcomes[i].publishedSmoke.value]
      && t.log == v.log + [PublicationSmokePassed(i, d)] + [Published(i, d)]
  {
    Associate(v.log, [PublicationSmokePassed(i, d)], [Published(i, d)]);
  }

  /** With another digest of its image known to the daemon, the query refuses. */
  lemma RefusedAlone(run: Run, s: State, i: nat, image: ImageId, other: Digest)
    requires run.Apart() && run.publish && |s.flows| == |run.work| && i < |run.work|
    requires s.flows[i] == FRESH && (run.sequential ==> s.turn == i)
    requires Passed(run.outcomes[i], 7) && run.outcomes[i].build == Some(image)
    requires other in s.known && other.image == image && other != Digest(image, run.outcomes[i].push.manifest)
    ensures Advanced(run, s, i, 8).flows[i].pc == Failed(Resolving)
  {
    var d := Digest(image, run.outcomes[i].push.manifest);
    FiveAdvances(run, s, i, image, d.manifest);
    FiveAdvancesFlow(run, s, i, image);
    var t, u, v := Advanced(run, s, i, 5), Advanced(run, s, i, 6), Advanced(run, s, i, 7);
    PullsAlone(run, t, u, i, d);
    TwoAreNotOne(RepoDigests(u, image), d, other);
    assert v == AdvanceFlow(run, u, i) && v.flows[i].pc == Failed(Resolving);
    OverStaysOver(run, v, i);
  }

  lemma TwoAreNotOne(digests: set<Digest>, a: Digest, b: Digest)
    requires a in digests && b in digests && a != b
    ensures |digests| != 1
  {
    if |digests| == 1 {
      SingletonIs(digests, a);
      SingletonIs(digests, b);
      assert false;
    }
  }

  /** A pipeline alone, with nobody moving tags, is over after eight advances. It publishes, exactly
      what it built, if and only if every call succeeds and the daemon knows no further digest of
      its image; and a build that is not to be published ends, with nothing pushed or logged, as its
      one call does. */
  lemma AloneEnds(run: Run, s: State, i: nat)
    requires run.Apart() && Initial(run, s) && i < |run.work| && (run.sequential ==> i == 0)
    ensures var (o, t) := (run.outcomes[i], After(run, s, Advances(i, 8)));
      && Over(t.flows[i].pc)
      && (run.publish ==>
            (t.flows[i].pc.Finished? <==> Passed(o, 7) && NoOtherDigest(s.known, o))
            && (t.flows[i].pc.Finished? ==> PublishedAll(run, s, t, i, o.build.value)))
      && (!run.publish ==>
            t.flows[i].pc == (if o.build.Some? then Finished else Failed(Building)) && t.log == [])
  {
    var o := run.outcomes[i];
    AfterAdvances(run, s, i, Advances(i, 8));
    AdvancesGoOn(run, s, i, 8);
    LogMeansOutcomes(run, s, Advances(i, 8));
    var t := After(run, s, Advances(i, 8));
    assert FlowMeans(run, t.flows[i], o);
    if !run.publish {
      assert t.log != [] ==> EntryMeans(run, t.log[0]);
      if o.build.Some? {
        BuildsAlone(run, s, i);
      }
    } else if Passed(o, 7) {
      if NoOtherDigest(s.known, o) {
        SucceedsAlone(run, s, i, o.build.value);
      } else {
        var d := Digest(o.build.value, o.push.manifest);
        var other :| other in s.known && other.image == o.build.value && other != d;
        RefusedAlone(run, s, i, o.build.value, other);
      }
    }
  }

  ghost predicate NoOtherDigest(known: set<Digest>, o: Outcomes)
    requires o.build.Some? && o.push.Accepted?
  {
    forall d :: d in known && d.image == o.build.value ==> d == Digest(o.build.value, o.push.manifest)
  }

  lemma BuildsAlone(run: Run, s: State, i: nat)
    requires run.Apart() && !run.publish && |s.flows| == |run.work| && i < |run.work|
    requires s.flows[i] == FRESH && (run.sequential ==> s.turn == i) && run.outcomes[i].build.Some?
    ensures Advanced(run, s, i, 8).flows[i].pc == Finished
  {
    var t, u := AdvanceFlow(run, s, i), AdvanceFlow(run, AdvanceFlow(run, s, i), i);
    assert Advanced(run, s, i, 0) == s;
    assert Advanced(run, s, i, 1) == t;
    assert Advanced(run, s, i, 2) == u;
    OverStaysOver(run, u, i);
    assert Advanced(run, s, i, 3) == u;
    assert Advanced(run, s, i, 4) == u;
    assert Advanced(run, s, i, 5) == u;
    assert Advanced(run, s, i, 6) == u;
    assert Advanced(run, s, i, 7) == u;
  }

  lemma FiveAdvancesFlow(run: Run, s: State, i: nat, image: ImageId)
    requires run.Apart() && run.publish && |s.flows| == |run.work| && i < |run.work|
    requires s.flows[i] == FRESH && (run.sequential ==> s.turn == i)
    requires Passed(run.outcomes[i], 4) && run.outcomes[i].build == Some(image)
    ensures var d := Digest(image, run.outcomes[i].push.manifest);
      Advanced(run, s, i, 5).flows[i] == Flow(Pulling, Some(image), Some(image), Some(image), Some(d), None, None, {d})
  {
    var t := AdvanceFlow(run, s, i);
    assert t == Advanced(run, s, i, 1) by { assert Advanced(run, s, i, 0) == s; }
    var u := AdvanceFlow(run, t, i);
    assert u == Advanced(run, s, i, 2);
    var v := AdvanceFlow(run, u, i);
    assert v == Advanced(run, s, i, 3);
    assert v.flows[i] == FRESH.(pc := LocalSmoke, built := Some(image), localId := Some(image));
    var w := AdvanceFlow(run, v, i);
    assert w == Advanced(run, s, i, 4);
    FiveAdvances(run, s, i, image, run.outcomes[i].push.manifest);
  }
}
