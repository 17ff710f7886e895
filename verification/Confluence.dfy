/** Confluence: in what sense the base pipelines, run concurrently, do not see each other. */
module Confluence {
  import opened BaseImage
  import opened BaseTargets
  import opened Seqs
  import opened Wrappers

  /** A call of the pipeline, or an outside move of its tag. */
  predicate Concerns(run: Run, e: Event, i: nat)
    requires i < |run.work|
  {
    e == Advance(i) || (e.Outside? && e.tag == run.work[i].tag)
  }

  /** The events that concern pipeline `i`, in order. */
  function Own(run: Run, events: seq<Event>, i: nat): seq<Event>
    requires i < |run.work|
  {
    if events == [] then []
    else
      var last := events[|events| - 1];
      Own(run, events[..|events| - 1], i)
      + if Concerns(run, last, i) then [last] else []
  }

  /** The pipeline, its tag and its registry entry are the same. */
  ghost predicate Agree(run: Run, c: State, s: State, i: nat)
    requires |c.flows| == |run.work| == |s.flows| && i < |run.work|
  {
    var tag := run.work[i].tag;
    && c.flows[i] == s.flows[i]
    && (tag in c.tags <==> tag in s.tags) && (tag in c.tags ==> c.tags[tag] == s.tags[tag])
    && (tag in c.registry <==> tag in s.registry) && (tag in c.registry ==> c.registry[tag] == s.registry[tag])
  }

  /** About to resolve its one digest, which on its own it would. */
  ghost predicate WouldResolve(run: Run, known: set<Digest>, c: State, i: nat)
    requires |c.flows| == |run.work| == |run.outcomes| && i < |run.work|
  {
    var f, tag := c.flows[i], run.work[i].tag;
    && f.pc == Resolving && run.outcomes[i].resolve && tag in c.tags
    && |set d | d in known + f.recorded && d.image == c.tags[tag]| == 1
  }

  /** A digest of the image about to be resolved that the pipeline does not know of itself. */
  ghost predicate IsForeign(run: Run, known: set<Digest>, c: State, i: nat, d: Digest)
    requires |c.flows| == |run.work| && i < |run.work|
  {
    && run.work[i].tag in c.tags && d.image == c.tags[run.work[i].tag]
    && d !in known + c.flows[i].recorded
  }

  /** At the query the pipeline meets another digest of its image, which a different pipeline
      recorded: the query that expects exactly one match refuses. */
  ghost predicate Clash(run: Run, known: set<Digest>, c: State, i: nat)
    requires |c.flows| == |run.work| == |run.outcomes| && i < |run.work|
  {
    && WouldResolve(run, known, c, i)
    && exists d, j :: 0 <= j < |c.flows| && d in c.flows[j].recorded && IsForeign(run, known, c, i, d)
  }

  ghost predicate Clashes(run: Run, s: State, events: seq<Event>, i: nat)
    requires run.Apart() && |s.flows| == |run.work| && i < |run.work|
  {
    events != [] &&
      var before := events[..|events| - 1];
      Clashes(run, s, before, i)
      || (events[|events| - 1] == Advance(i) && Clash(run, s.known, After(run, s, before), i))
  }

  /** What the daemon knows is what it knew and what the pipelines recorded. */
  ghost predicate KnownIsRecorded(known: set<Digest>, s: State) {
    && known <= s.known
    && (forall j, d :: 0 <= j < |s.flows| && d in s.flows[j].recorded ==> d in s.known)
    && (forall d :: d in s.known && d !in known ==> exists j :: 0 <= j < |s.flows| && d in s.flows[j].recorded)
  }

  lemma StepKeepsKnown(run: Run, known: set<Digest>, s: State, e: Event)
    requires run.Apart() && |s.flows| == |run.work| && KnownIsRecorded(known, s)
    ensures KnownIsRecorded(known, Step(run, s, e))
  {
    var t := Step(run, s, e);
    if e.Advance? && e.flow < |s.flows| {
      var i := e.flow;
      AdvanceIsStepOf(run, s, i);
      AdvanceRecords(run, s, i);
      forall d | d in t.known && d !in known
        ensures exists j :: 0 <= j < |t.flows| && d in t.flows[j].recorded
      {
        if d in s.known {
          var j :| 0 <= j < |s.flows| && d in s.flows[j].recorded;
          assert d in t.flows[j].recorded;
        } else {
          assert d in t.flows[i].recorded;
        }
      }
    }
  }

  lemma AdvanceRecords(run: Run, s: State, i: nat)
    requires run.Apart() && |s.flows| == |run.work| && i < |s.flows|
    ensures var t := AdvanceFlow(run, s, i);
      && s.flows[i].recorded <= t.flows[i].recorded && s.known <= t.known
      && t.known <= s.known + t.flows[i].recorded && t.flows[i].recorded <= s.flows[i].recorded + t.known
  {
    match s.flows[i].pc {
      case Pushing =>
      case Pulling =>
      case _ =>
    }
  }

  /** Running alone, only the pipeline's own digests are recorded. */
  ghost predicate Alone(known: set<Digest>, s: State, i: nat)
    requires i < |s.flows|
  {
    s.known == known + s.flows[i].recorded
  }

  ghost predicate Diverged(c: Flow, s: Flow) {
    && c.pc == Failed(Resolving) && s.pc in {PublishedSmoke, Finished, Failed(PublishedSmoke)}
    && c.recorded == s.recorded
  }

  lemma OtherStepKeepsAgreement(run: Run, c: State, s: State, i: nat, j: nat)
    requires run.Apart() && |c.flows| == |run.work| == |s.flows| && i < |run.work| && j < |run.work| && j != i
    requires Agree(run, c, s, i)
    ensures Agree(run, AdvanceFlow(run, c, j), s, i)
  {
    AdvanceIsStepOf(run, c, j);
    assert run.work[i].tag != run.work[j].tag && run.work[i].tag != run.work[j].smokeTag;
  }

  lemma ResolvingAgrees(run: Run, known: set<Digest>, c: State, s: State, i: nat)
    requires run.Apart() && |c.flows| == |run.work| == |s.flows| && i < |run.work|
    requires Agree(run, c, s, i) && KnownIsRecorded(known, c) && Alone(known, s, i)
    requires c.flows[i].pc == Resolving && run.outcomes[i].resolve && run.work[i].tag in c.tags
    requires FlowOk(run, c, i)
    ensures var image := c.tags[run.work[i].tag];
      var (mine, all) := (RepoDigests(s, image), RepoDigests(c, image));
      if Clash(run, known, c, i) then |mine| == 1 && |all| != 1
      else |mine| == 1 <==> |all| == 1
    ensures !Clash(run, known, c, i) && |RepoDigests(c, c.tags[run.work[i].tag])| == 1 ==>
      RepoDigests(c, c.tags[run.work[i].tag]) == RepoDigests(s, c.tags[run.work[i].tag])
  {
    var image, f := c.tags[run.work[i].tag], c.flows[i];
    var (mine, all) := (RepoDigests(s, image), RepoDigests(c, image));
    assert mine == set d | d in known + f.recorded && d.image == image;
    assert mine <= all;
    assert s.known <= c.known;
    if Clash(run, known, c, i) {
      var d, j :| 0 <= j < |c.flows| && d in c.flows[j].recorded && IsForeign(run, known, c, i, d);
      assert d in all && d !in mine;
      SubsetSizes(mine, all);
    } else {
      SubsetSizes(mine, all);
      assert forall d :: d in all && d !in known + f.recorded ==> IsForeign(run, known, c, i, d);
      assert forall d ::
        d in all && d !in known + f.recorded ==> exists j :: 0 <= j < |c.flows| && d in c.flows[j].recorded;
      assert |mine| == 1 ==> forall d :: d in all ==> d in mine;
      assert |mine| == 1 ==> all == mine;
      assert f.pulled.value in mine;
    }
  }

  lemma SubsetSizes<T>(a: set<T>, b: set<T>)
    requires a <= b
    ensures |a| <= |b| && (|a| == |b| ==> a == b)
  {
    assert b == a + (b - a);
    assert |b| == |a| + |b - a|;
  }

  /** One of the pipeline's own events keeps the two runs in agreement, or is the clash. */
  lemma OwnStepKeepsAgreement(run: Run, known: set<Digest>, c: State, s: State, i: nat)
    requires run.Apart() && !run.sequential && |c.flows| == |run.work| == |s.flows| && i < |run.work|
    requires Agree(run, c, s, i) && KnownIsRecorded(known, c) && Alone(known, s, i) && FlowOk(run, c, i)
    ensures var (d, t) := (AdvanceFlow(run, c, i), AdvanceFlow(run, s, i));
      if Clash(run, known, c, i) then Diverged(d.flows[i], t.flows[i]) else Agree(run, d, t, i)
    ensures Alone(known, AdvanceFlow(run, s, i), i)
  {
    if c.flows[i].pc == Resolving {
      ResolvingStep(run, known, c, s, i);
    } else {
      AgreeingStep(run, c, s, i);
      AloneStaysAlone(run, known, s, i);
    }
  }

  lemma AgreeingStep(run: Run, c: State, s: State, i: nat)
    requires run.Apart() && !run.sequential && |c.flows| == |run.work| == |s.flows| && i < |run.work|
    requires Agree(run, c, s, i) && c.flows[i].pc != Resolving
    ensures Agree(run, AdvanceFlow(run, c, i), AdvanceFlow(run, s, i), i)
  {
    match c.flows[i].pc {
      case Building => AgreeingBuild(run, c, s, i);
      case LocalSmoke => AgreeingSmoke(run, c, s, i);
      case Pushing => AgreeingExchange(run, c, s, i);
      case Pulling => AgreeingExchange(run, c, s, i);
      case PublishedSmoke => AgreeingSmoke(run, c, s, i);
      case _ =>
    }
  }

  lemma AgreeingBuild(run: Run, c: State, s: State, i: nat)
    requires run.Apart() && |c.flows| == |run.work| == |s.flows| && i < |run.work|
    requires Agree(run, c, s, i) && c.flows[i].pc == Building
    ensures Agree(run, AdvanceFlow(run, c, i), AdvanceFlow(run, s, i), i)
  {
  }

  lemma AgreeingSmoke(run: Run, c: State, s: State, i: nat)
    requires run.Apart() && |c.flows| == |run.work| == |s.flows| && i < |run.work|
    requires Agree(run, c, s, i) && c.flows[i].pc in {LocalSmoke, PublishedSmoke}
    ensures Agree(run, AdvanceFlow(run, c, i), AdvanceFlow(run, s, i), i)
  {
    assert run.work[i].tag != run.work[i].smokeTag;
  }

  lemma AgreeingExchange(run: Run, c: State, s: State, i: nat)
    requires run.Apart() && |c.flows| == |run.work| == |s.flows| && i < |run.work|
    requires Agree(run, c, s, i) && c.flows[i].pc in {Pushing, Pulling}
    ensures Agree(run, AdvanceFlow(run, c, i), AdvanceFlow(run, s, i), i)
  {
  }

  lemma AloneStaysAlone(run: Run, known: set<Digest>, s: State, i: nat)
    requires run.Apart() && |s.flows| == |run.work| && i < |run.work| && Alone(known, s, i)
    ensures Alone(known, AdvanceFlow(run, s, i), i)
  {
  }

  lemma ResolvingStep(run: Run, known: set<Digest>, c: State, s: State, i: nat)
    requires run.Apart() && |c.flows| == |run.work| == |s.flows| && i < |run.work| && c.flows[i].pc == Resolving
    requires Agree(run, c, s, i) && KnownIsRecorded(known, c) && Alone(known, s, i) && FlowOk(run, c, i)
    ensures var (d, t) := (AdvanceFlow(run, c, i), AdvanceFlow(run, s, i));
      if Clash(run, known, c, i) then Diverged(d.flows[i], t.flows[i]) else Agree(run, d, t, i)
    ensures Alone(known, AdvanceFlow(run, s, i), i)
  {
    if run.outcomes[i].resolve {
      ResolvingAgrees(run, known, c, s, i);
    }
  }

  lemma DivergenceStays(run: Run, c: State, s: State, i: nat)
    requires run.Apart() && |c.flows| == |run.work| == |s.flows| && i < |run.work|
    requires Diverged(c.flows[i], s.flows[i])
    ensures Diverged(AdvanceFlow(run, c, i).flows[i], s.flows[i])
    ensures Diverged(AdvanceFlow(run, c, i).flows[i], AdvanceFlow(run, s, i).flows[i])
    ensures AdvanceFlow(run, s, i).flows[i].recorded == s.flows[i].recorded
    ensures AdvanceFlow(run, s, i).known == s.known
  {
  }

  lemma OtherEvent(run: Run, c: State, s: State, i: nat, e: Event)
    requires run.Apart() && |c.flows| == |run.work| == |s.flows| && i < |run.work|
    requires e != Advance(i) && (e.Outside? ==> e.tag != run.work[i].tag)
    ensures Step(run, c, e).flows[i] == c.flows[i]
    ensures Agree(run, c, s, i) ==> Agree(run, Step(run, c, e), s, i)
  {
    if e.Advance? && e.flow < |c.flows| {
      AdvanceIsStepOf(run, c, e.flow);
      if Agree(run, c, s, i) {
        OtherStepKeepsAgreement(run, c, s, i, e.flow);
      }
    }
  }

  /** How a run and the run of the pipeline's own events compare, before and after a clash. */
  ghost predicate Compared(run: Run, known: set<Digest>, c: State, solo: State, clashed: bool, i: nat)
    requires run.Apart() && |c.flows| == |run.work| == |solo.flows| && i < |run.work|
  {
    && KnownIsRecorded(known, c) && Alone(known, solo, i)
    && if clashed then Diverged(c.flows[i], solo.flows[i]) else Agree(run, c, solo, i)
  }

  lemma StepsCompared(run: Run, known: set<Digest>, c: State, solo: State, clashed: bool, e: Event, i: nat)
    requires run.Apart() && !run.sequential && |c.flows| == |run.work| == |solo.flows| && i < |run.work|
    requires Compared(run, known, c, solo, clashed, i) && FlowOk(run, c, i)
    ensures Compared(run, known, Step(run, c, e), if Concerns(run, e, i) then Step(run, solo, e) else solo,
                     clashed || (e == Advance(i) && Clash(run, known, c, i)), i)
  {
    StepKeepsKnown(run, known, c, e);
    if e == Advance(i) {
      if clashed {
        DivergenceStays(run, c, solo, i);
      } else {
        OwnStepKeepsAgreement(run, known, c, solo, i);
      }
    } else if !Concerns(run, e, i) {
      OtherEvent(run, c, solo, i, e);
    }
  }

  lemma {:induction false} RunsCompared(run: Run, s: State, events: seq<Event>, i: nat)
    requires run.Apart() && !run.sequential && Initial(run, s) && i < |run.work|
    ensures Compared(run, s.known, After(run, s, events), After(run, s, Own(run, events, i)),
                     Clashes(run, s, events, i), i)
  {
    if events == [] {
    } else {
      var before, e := events[..|events| - 1], events[|events| - 1];
      RunsCompared(run, s, before, i);
      var c, own := After(run, s, before), Own(run, before, i);
      RunIsSafe(run, s, before);
      assert FlowOk(run, c, i);
      StepsCompared(run, s.known, c, After(run, s, own), Clashes(run, s, before, i), e, i);
      AfterOneMore(run, s, own, e);
      assert Own(run, events, i) == if Concerns(run, e, i) then own + [e] else own;
    }
  }

  /** Confluence: in any concurrent schedule a pipeline's outcome, tag and published digest are
      those of the run in which only its own events occur, exactly when no other pipeline had
      recorded another digest of its image before it resolved its own. */
  lemma ConcurrentIsSolo(run: Run, s: State, events: seq<Event>, i: nat)
    requires run.Apart() && !run.sequential && Initial(run, s) && i < |run.work|
    ensures Agree(run, After(run, s, events), After(run, s, Own(run, events, i)), i) <==> !Clashes(run, s, events, i)
    ensures Clashes(run, s, events, i) ==> After(run, s, events).flows[i].pc == Failed(Resolving)
  {
    RunsCompared(run, s, events, i);
  }

  // --- Pipelines that share no image -------------------------------------------------------------

  /** An image that a pipeline's tag may come to name: what its build gives, and what outside
      publishers move it to. What the registry starts with does not matter: a pull follows the
      pipeline's own push. */
  ghost predicate MayName(run: Run, events: seq<Event>, i: nat, image: ImageId)
    requires i < |run.work| == |run.outcomes|
  {
    || run.outcomes[i].build == Some(image)
    || (exists d :: Outside(run.work[i].tag, d) in events && d.image == image)
  }

  /** The pipeline has recorded, and is about to pull, only such images. */
  ghost predicate Within(run: Run, c: State, i: nat, may: ImageId -> bool)
    requires |c.flows| == |run.work| == |run.outcomes| && i < |run.work|
  {
    var (f, tag) := (c.flows[i], run.work[i].tag);
    && (f.pc == Pulling && tag in c.registry ==> may(c.registry[tag].image))
    && (f.built.Some? ==> may(f.built.value))
    && (forall d :: d in f.recorded ==> may(d.image))
  }

  /** What an advance may add is its build's image, the image its tag names, or what the registry has. */
  lemma AdvanceStaysWithin(run: Run, c: State, i: nat, may: ImageId -> bool)
    requires run.Apart() && |c.flows| == |run.work| && i < |run.work| && Within(run, c, i, may)
    requires run.outcomes[i].build.Some? ==> may(run.outcomes[i].build.value)
    requires c.flows[i].pc == Pushing && run.work[i].tag in c.tags ==> may(c.tags[run.work[i].tag])
    ensures Within(run, AdvanceFlow(run, c, i), i, may)
  {
    match c.flows[i].pc {
      case Building =>
      case Pushing =>
      case Pulling =>
      case _ =>
    }
  }

  lemma StepStaysWithin(run: Run, c: State, e: Event, i: nat, may: ImageId -> bool)
    requires Safe(run, c) && i < |run.work| && Within(run, c, i, may)
    requires run.outcomes[i].build.Some? ==> may(run.outcomes[i].build.value)
    requires e.Outside? && e.tag == run.work[i].tag ==> may(e.digest.image)
    ensures Within(run, Step(run, c, e), i, may)
  {
    if e == Advance(i) {
      assert FlowOk(run, c, i);
      AdvanceStaysWithin(run, c, i, may);
    } else if e.Advance? && e.flow < |c.flows| {
      AdvanceIsStepOf(run, c, e.flow);
      assert run.work[i].tag != run.work[e.flow].tag;
    }
  }

  lemma {:induction false} RunStaysWithin(run: Run, s: State, events: seq<Event>, i: nat, may: ImageId -> bool)
    requires run.Apart() && Initial(run, s) && i < |run.work|
    requires forall image :: MayName(run, events, i, image) ==> may(image)
    ensures Within(run, After(run, s, events), i, may)
  {
    if events == [] {
    } else {
      var (before, e) := (events[..|events| - 1], events[|events| - 1]);
      assert forall image :: MayName(run, before, i, image) ==> MayName(run, events, i, image);
      RunStaysWithin(run, s, before, i, may);
      RunIsSafe(run, s, before);
      if e.Outside? && e.tag == run.work[i].tag {
        assert Outside(run.work[i].tag, e.digest) in events;
        assert MayName(run, events, i, e.digest.image);
      }
      assert run.outcomes[i].build.Some? ==> MayName(run, events, i, run.outcomes[i].build.value);
      StepStaysWithin(run, After(run, s, before), e, i, may);
    }
  }

  /** No image may be named both under this pipeline's tag and under another's. */
  ghost predicate SharesNoImage(run: Run, events: seq<Event>, i: nat)
    requires i < |run.work| == |run.outcomes|
  {
    forall j, image :: 0 <= j < |run.work| && j != i ==>
      !(MayName(run, events, i, image) && MayName(run, events, j, image))
  }

  lemma {:induction false} NoClashWithoutSharing(run: Run, s: State, events: seq<Event>, i: nat)
    requires run.Apart() && Initial(run, s) && i < |run.work| && SharesNoImage(run, events, i)
    ensures !Clashes(run, s, events, i)
  {
    if events == [] {
    } else {
      var before := events[..|events| - 1];
      assert forall j: nat, image | j < |run.work| ::
        MayName(run, before, j, image) ==> MayName(run, events, j, image);
      NoClashWithoutSharing(run, s, before, i);
      if Clash(run, s.known, After(run, s, before), i) {
        ClashShares(run, s, before, i);
      }
    }
  }

  lemma ClashShares(run: Run, s: State, events: seq<Event>, i: nat)
    requires run.Apart() && Initial(run, s) && i < |run.work|
    requires Clash(run, s.known, After(run, s, events), i)
    ensures !SharesNoImage(run, events, i)
  {
    var c := After(run, s, events);
    var f, image := c.flows[i], c.tags[run.work[i].tag];
    var d, j :| 0 <= j < |c.flows| && d in c.flows[j].recorded && IsForeign(run, s.known, c, i, d);
    RunIsSafe(run, s, events);
    assert FlowOk(run, c, i);
    RunStaysWithin(run, s, events, i, (x: ImageId) => MayName(run, events, i, x));
    RunStaysWithin(run, s, events, j, (x: ImageId) => MayName(run, events, j, x));
    assert MayName(run, events, i, f.pulled.value.image) && MayName(run, events, j, d.image);
  }

  /** Confluence: a pipeline that shares no image with another ends, with its tag and its registry
      entry, as it does with its own events alone, in every concurrent schedule. */
  lemma DisjointImagesAreIndependent(run: Run, s: State, events: seq<Event>, i: nat)
    requires run.Apart() && !run.sequential && Initial(run, s) && i < |run.work|
    requires SharesNoImage(run, events, i)
    ensures Agree(run, After(run, s, events), After(run, s, Own(run, events, i)), i)
  {
    NoClashWithoutSharing(run, s, events, i);
    ConcurrentIsSolo(run, s, events, i);
  }

  /** A build's image is built on the command's `BASE_IMAGE`, and what outside publishers put under a
      flavor's tag is some build of that flavor. `origin` is what an image was built on. */
  ghost predicate TagsKeepToFlavors(run: Run, events: seq<Event>, flavors: seq<Flavor>, origin: ImageId -> string)
    requires |flavors| == |run.work| == |run.outcomes|
  {
    forall j :: 0 <= j < |run.work| ==>
      var tag := run.work[j].tag;
      && (run.outcomes[j].build.Some? ==> BuiltOn(run.work[j].spec, origin(run.outcomes[j].build.value)))
      && (forall d :: Outside(tag, d) in events ==> IsParent(flavors[j], origin(d.image)))
  }

  lemma NamedImageHasOrigin(run: Run, events: seq<Event>, j: nat, image: ImageId,
                            flavors: seq<Flavor>, origin: ImageId -> string, parent: string)
    requires run.Apart() && j < |run.work| == |flavors| && MayName(run, events, j, image)
    requires TagsKeepToFlavors(run, events, flavors, origin)
    requires BuiltOn(run.work[j].spec, parent) && IsParent(flavors[j], parent)
    ensures IsParent(flavors[j], origin(image))
  {
  }

  /** The two flavors meet that: no image is built both on Ubuntu and on a CUDA image. */
  lemma FlavorsAreIndependent(run: Run, s: State, events: seq<Event>, i: nat, origin: ImageId -> string,
                              flavor: Option<Flavor>, q: Request)
    requires AreTargetsOf(run.work, Flavors(flavor), q) && |run.outcomes| == |run.work|
    requires !run.sequential && Initial(run, s) && i < |run.work|
    requires TagsKeepToFlavors(run, events, Flavors(flavor), origin)
    ensures run.Apart()
    ensures Agree(run, After(run, s, events), After(run, s, Own(run, events, i)), i)
  {
    TargetsAreApart(run.work, flavor, q);
    assert Run(run.work, run.outcomes, run.publish, run.sequential).Apart();
    forall j, image | 0 <= j < |run.work| && j != i
      ensures !(MayName(run, events, i, image) && MayName(run, events, j, image))
    {
      if MayName(run, events, i, image) && MayName(run, events, j, image) {
        TargetHasParent(run.work, Flavors(flavor), i, q);
        TargetHasParent(run.work, Flavors(flavor), j, q);
        NamedImageHasOrigin(run, events, i, image, Flavors(flavor), origin, ParentOf(Flavors(flavor)[i], q.cuda));
        NamedImageHasOrigin(run, events, j, image, Flavors(flavor), origin, ParentOf(Flavors(flavor)[j], q.cuda));
        ParentsAreApart(Flavors(flavor)[i], Flavors(flavor)[j], origin(image));
        assert false;
      }
    }
    DisjointImagesAreIndependent(run, s, events, i);
  }

  lemma TargetHasParent(work: seq<Target>, flavors: seq<Flavor>, j: nat, q: Request)
    requires AreTargetsOf(work, flavors, q) && j < |work|
    ensures (flavors[j].Cuda? ==> q.cuda.Some?)
    ensures BuiltOn(work[j].spec, ParentOf(flavors[j], q.cuda)) && IsParent(flavors[j], ParentOf(flavors[j], q.cuda))
  {
    assert IsTargetOf(work[j], flavors[j], q);
  }

  // --- Every schedule of the same events ---------------------------------------------------------

  predicate IsOwn(run: Run, events: seq<Event>, i: nat)
    requires i < |run.work|
  {
    forall k :: 0 <= k < |events| ==> Concerns(run, events[k], i)
  }

  /** The events interleave what happens to each pipeline. */
  predicate Interleaves(run: Run, events: seq<Event>, own: seq<seq<Event>>) {
    |own| == |run.work| && forall j :: 0 <= j < |own| ==> Own(run, events, j) == own[j]
  }

  /** Alone, the pipeline would resolve its digest in its `k`th event, while some other one, alone,
      records a further digest of that image. */
  ghost predicate MeetsAnother(run: Run, s: State, own: seq<seq<Event>>, i: nat, k: nat)
    requires run.Apart() && |s.flows| == |run.work| == |own| && i < |own|
  {
    && k < |own[i]| && own[i][k] == Advance(i)
    && var c := After(run, s, own[i][..k]);
    && WouldResolve(run, s.known, c, i)
    && exists d, j ::
         0 <= j < |own| && j != i && d in After(run, s, own[j]).flows[j].recorded && IsForeign(run, s.known, c, i, d)
  }

  lemma {:induction false} OwnOfTwo(run: Run, a: seq<Event>, b: seq<Event>, i: nat)
    requires i < |run.work|
    ensures Own(run, a + b, i) == Own(run, a, i) + Own(run, b, i)
    decreases |b|
  {
    if b == [] {
      assert a + b == a;
    } else {
      var last := [b[|b| - 1]];
      assert (a + b)[..|a + b| - 1] == a + b[..|b| - 1];
      OwnOfTwo(run, a, b[..|b| - 1], i);
    }
  }

  lemma {:induction false} OwnOfOwn(run: Run, events: seq<Event>, i: nat, j: nat)
    requires run.Apart() && i < |run.work| && j < |run.work| && IsOwn(run, events, j)
    ensures Own(run, events, i) == if i == j then events else []
  {
    if events == [] {
    } else {
      OwnOfOwn(run, events[..|events| - 1], i, j);
      assert Concerns(run, events[|events| - 1], j);
      assert events == events[..|events| - 1] + [events[|events| - 1]];
    }
  }

  /** The first `n` pipelines' events, one pipeline after the other. */
  function InTurn(own: seq<seq<Event>>, n: nat): seq<Event>
    requires n <= |own|
  {
    if n == 0 then [] else InTurn(own, n - 1) + own[n - 1]
  }

  lemma {:induction false} OwnOfInTurn(run: Run, own: seq<seq<Event>>, n: nat, j: nat)
    requires run.Apart() && n <= |own| == |run.work| && j < |own|
    requires forall m :: 0 <= m < |own| ==> IsOwn(run, own[m], m)
    ensures j < n ==> Own(run, InTurn(own, n), j) == own[j]
    ensures n <= j ==> Own(run, InTurn(own, n), j) == []
  {
    if n == 0 {
    } else {
      OwnOfInTurn(run, own, n - 1, j);
      OneMoreInTurn(own, n);
      OwnOfOneMore(run, InTurn(own, n - 1), own[n - 1], n - 1, j);
    }
  }

  lemma OneMoreInTurn(own: seq<seq<Event>>, n: nat)
    requires 0 < n <= |own|
    ensures InTurn(own, n) == InTurn(own, n - 1) + own[n - 1]
  {
  }

  lemma OwnOfOneMore(run: Run, events: seq<Event>, more: seq<Event>, m: nat, j: nat)
    requires run.Apart() && m < |run.work| && j < |run.work| && IsOwn(run, more, m)
    ensures j == m && Own(run, events, j) == [] ==> Own(run, events + more, j) == more
    ensures j != m ==> Own(run, events + more, j) == Own(run, events, j)
  {
    OwnOfTwo(run, events, more, j);
    OwnOfOwn(run, more, j, m);
  }

  /** All other pipelines' events. */
  function Others(own: seq<seq<Event>>, i: nat): seq<Event>
    requires i < |own|
  {
    InTurn(own[i := []], |own|)
  }

  lemma OwnOfOthersFirst(run: Run, own: seq<seq<Event>>, i: nat, front: seq<Event>, j: nat)
    requires run.Apart() && |own| == |run.work| && i < |own| && j < |own| && IsOwn(run, front, i)
    requires forall m :: 0 <= m < |own| ==> IsOwn(run, own[m], m)
    ensures Own(run, Others(own, i) + front, j) == if j == i then front else own[j]
  {
    OwnOfInTurn(run, own[i := []], |own|, j);
    OwnOfOneMore(run, Others(own, i), front, i, j);
  }

  lemma {:induction false} RecordedGrows(run: Run, s: State, a: seq<Event>, b: seq<Event>, j: nat)
    requires run.Apart() && |s.flows| == |run.work| && j < |run.work|
    ensures After(run, s, a).flows[j].recorded <= After(run, s, a + b).flows[j].recorded
    decreases |b|
  {
    if b == [] {
      assert a + b == a;
    } else {
      RecordedGrows(run, s, a, b[..|b| - 1], j);
      assert (a + b)[..|a + b| - 1] == a + b[..|b| - 1];
      var before, e := After(run, s, a + b[..|b| - 1]), b[|b| - 1];
      if e == Advance(j) {
        AdvanceRecords(run, before, j);
      } else {
        ElsewhereIsNoConcern(run, before, e, j);
      }
    }
  }

  lemma {:induction false} ClashRemains(run: Run, s: State, a: seq<Event>, b: seq<Event>, i: nat)
    requires run.Apart() && |s.flows| == |run.work| && i < |run.work| && Clashes(run, s, a, i)
    ensures Clashes(run, s, a + b, i)
    decreases |b|
  {
    if b == [] {
      assert a + b == a;
    } else {
      assert (a + b)[..|a + b| - 1] == a + b[..|b| - 1];
      ClashRemains(run, s, a, b[..|b| - 1], i);
    }
  }

  /** The event at which the pipeline clashes. */
  lemma {:induction false} FirstClash(run: Run, s: State, events: seq<Event>, i: nat) returns (n: nat)
    requires run.Apart() && |s.flows| == |run.work| && i < |run.work| && Clashes(run, s, events, i)
    ensures n < |events| && events[n] == Advance(i) && !Clashes(run, s, events[..n], i)
    ensures Clash(run, s.known, After(run, s, events[..n]), i)
  {
    n := |events| - 1;
    if Clashes(run, s, events[..n], i) {
      var m := FirstClash(run, s, events[..n], i);
      assert events[..n][..m] == events[..m];
      n := m;
    }
  }

  lemma ClashMeetsAnother(run: Run, s: State, events: seq<Event>, own: seq<seq<Event>>, i: nat) returns (k: nat)
    requires run.Apart() && !run.sequential && Initial(run, s) && i < |run.work|
    requires Interleaves(run, events, own) && Clashes(run, s, events, i)
    ensures MeetsAnother(run, s, own, i, k)
  {
    var n := FirstClash(run, s, events, i);
    var (before, rest) := (events[..n], events[n + 1..]);
    assert events == before + ([Advance(i)] + rest);
    k := |Own(run, before, i)|;
    OwnOfTwo(run, before, [Advance(i)] + rest, i);
    OwnOfTwo(run, [Advance(i)], rest, i);
    OwnOfOwn(run, [Advance(i)], i, i);
    assert own[i] == Own(run, before, i) + ([Advance(i)] + Own(run, rest, i));
    assert own[i][..k] == Own(run, before, i);
    var c, solo := After(run, s, before), After(run, s, own[i][..k]);
    RunsCompared(run, s, before, i);
    var d, j :| 0 <= j < |c.flows| && d in c.flows[j].recorded && IsForeign(run, s.known, c, i, d);
    RunsCompared(run, s, before, j);
    OwnOfTwo(run, before, [Advance(i)] + rest, j);
    RecordedGrows(run, s, Own(run, before, j), Own(run, [Advance(i)] + rest, j), j);
    assert d in After(run, s, own[j]).flows[j].recorded && IsForeign(run, s.known, solo, i, d);
  }

  /** All others first, then the pipeline: that schedule clashes if any does. */
  lemma OthersFirstClashes(run: Run, s: State, own: seq<seq<Event>>, i: nat, k: nat)
    requires run.Apart() && !run.sequential && Initial(run, s) && i < |run.work| == |own|
    requires forall m :: 0 <= m < |own| ==> IsOwn(run, own[m], m)
    requires MeetsAnother(run, s, own, i, k)
    ensures Clashes(run, s, Others(own, i) + own[i], i)
  {
    var front := own[i][..k];
    var before, solo := Others(own, i) + front, After(run, s, front);
    var d, j :|
      0 <= j < |own| && j != i && d in After(run, s, own[j]).flows[j].recorded && IsForeign(run, s.known, solo, i, d);
    OwnOfOthersFirst(run, own, i, front, i);
    OwnOfOthersFirst(run, own, i, front, j);
    RunsCompared(run, s, before, i);
    RunsCompared(run, s, before, j);
    if !Clashes(run, s, before, i) {
      var c := After(run, s, before);
      assert d in c.flows[j].recorded && IsForeign(run, s.known, c, i, d);
      ClashAtNext(run, s, before, i);
    } else {
      ClashRemains(run, s, before, [Advance(i)], i);
    }
    CutAround(Others(own, i), own[i], k);
    ClashRemains(run, s, before + [Advance(i)], own[i][k + 1..], i);
  }

  lemma ClashAtNext(run: Run, s: State, before: seq<Event>, i: nat)
    requires run.Apart() && |s.flows| == |run.work| && i < |run.work|
    requires Clash(run, s.known, After(run, s, before), i)
    ensures Clashes(run, s, before + [Advance(i)], i)
  {
    assert (before + [Advance(i)])[..|before|] == before;
  }

  /** Given what happens to each pipeline, every schedule of it ends a pipeline as if it were alone
      exactly when, each of them taken alone, it resolves no digest of an image of which another
      records a further digest. */
  lemma EveryScheduleAgreesIff(run: Run, s: State, own: seq<seq<Event>>, i: nat)
    requires run.Apart() && !run.sequential && Initial(run, s) && i < |run.work| == |own|
    requires forall j :: 0 <= j < |own| ==> IsOwn(run, own[j], j)
    ensures (forall events ::
               Interleaves(run, events, own) ==> Agree(run, After(run, s, events), After(run, s, own[i]), i))
      <==> !exists k :: MeetsAnother(run, s, own, i, k)
  {
    if k :| MeetsAnother(run, s, own, i, k) {
      var events := Others(own, i) + own[i];
      OthersFirstClashes(run, s, own, i, k);
      forall j | 0 <= j < |own| ensures Own(run, events, j) == own[j] {
        OwnOfOthersFirst(run, own, i, own[i], j);
      }
      ConcurrentIsSolo(run, s, events, i);
      assert Interleaves(run, events, own);
    } else {
      forall events | Interleaves(run, events, own)
        ensures Agree(run, After(run, s, events), After(run, s, own[i]), i)
      {
        ConcurrentIsSolo(run, s, events, i);
        if Clashes(run, s, events, i) {
          var k := ClashMeetsAnother(run, s, events, own, i);
          assert false;
        }
      }
    }
  }

  /** Where they do not: an outside publisher puts another manifest of the first pipeline's image
      under the second one's tag between its push and its pull. If the second pulls before the
      first queries, the query meets two digests of its image and refuses. */
  lemma RetaggedImageClashes(run: Run, s: State, own: seq<seq<Event>>, image: ImageId, other: ImageId)
    requires run.Apart() && !run.sequential && run.publish && Initial(run, s) && |run.work| == 2 && s.known == {}
    requires run.outcomes[0] == Outcomes(Some(image), true, Some(0), Accepted(0), true, true, Some(0))
    requires run.outcomes[1] == Outcomes(Some(other), true, Some(0), Accepted(0), true, true, Some(0))
    requires own == [Advances(0, 7), Advances(1, 5) + [Outside(run.work[1].tag, Digest(image, 1))] + Advances(1, 1)]
    ensures MeetsAnother(run, s, own, 0, 6)
    ensures exists events ::
      Interleaves(run, events, own) && !Agree(run, After(run, s, events), After(run, s, own[0]), 0)
  {
    FirstWouldResolve(run, s, image);
    AdvancesFront(0, 7, 6);
    SecondRecords(run, s, image, other);
    FirstMeetsSecond(run, s, own, image);
    AdvancesAreOwn(run, 0, 7);
    RetaggingIsOwn(run, 1, Digest(image, 1));
    EveryScheduleAgreesIff(run, s, own, 0);
  }

  lemma AdvancesFront(i: nat, times: nat, n: nat)
    requires n <= times
    ensures Advances(i, times)[..n] == Advances(i, n)
  {
  }

  lemma AdvancesAreOwn(run: Run, i: nat, times: nat)
    requires i < |run.work|
    ensures IsOwn(run, Advances(i, times), i)
  {
  }

  lemma RetaggingIsOwn(run: Run, i: nat, d: Digest)
    requires i < |run.work|
    ensures IsOwn(run, Advances(i, 5) + [Outside(run.work[i].tag, d)] + Advances(i, 1), i)
  {
  }

  lemma FirstMeetsSecond(run: Run, s: State, own: seq<seq<Event>>, image: ImageId)
    requires run.Apart() && |run.work| == |own| == 2 && |s.flows| == 2 && s.known == {}
    requires 6 < |own[0]| && own[0][6] == Advance(0)
    requires var c := After(run, s, own[0][..6]);
      && WouldResolve(run, s.known, c, 0) && c.flows[0].recorded == {Digest(image, 0)}
      && run.work[0].tag in c.tags && c.tags[run.work[0].tag] == image
    requires Digest(image, 1) in After(run, s, own[1]).flows[1].recorded
    ensures MeetsAnother(run, s, own, 0, 6)
  {
    assert IsForeign(run, s.known, After(run, s, own[0][..6]), 0, Digest(image, 1));
  }

  lemma FirstWouldResolve(run: Run, s: State, image: ImageId)
    requires run.Apart() && !run.sequential && run.publish && Initial(run, s) && 0 < |run.work| && s.known == {}
    requires run.outcomes[0] == Outcomes(Some(image), true, Some(0), Accepted(0), true, true, Some(0))
    ensures var c := After(run, s, Advances(0, 6));
      && WouldResolve(run, s.known, c, 0) && c.flows[0].recorded == {Digest(image, 0)}
      && run.work[0].tag in c.tags && c.tags[run.work[0].tag] == image
  {
    var d := Digest(image, 0);
    FiveAdvances(run, s, 0, image, 0);
    AfterAdvances(run, s, 0, Advances(0, 6));
    var c := AdvanceFlow(run, Advanced(run, s, 0, 5), 0);
    assert c == Advanced(run, s, 0, 6);
    assert c.flows[0].recorded == {d} && c.tags[run.work[0].tag] == image;
    assert (set x | x in s.known + c.flows[0].recorded && x.image == image) == {d};
  }

  lemma SecondRecords(run: Run, s: State, image: ImageId, other: ImageId)
    requires run.Apart() && !run.sequential && run.publish && Initial(run, s) && 1 < |run.work|
    requires run.outcomes[1] == Outcomes(Some(other), true, Some(0), Accepted(0), true, true, Some(0))
    ensures var d := Digest(image, 1);
      d in After(run, s, Advances(1, 5) + [Outside(run.work[1].tag, d)] + Advances(1, 1)).flows[1].recorded
  {
    var (before, e) := (Advances(1, 5), Outside(run.work[1].tag, Digest(image, 1)));
    FiveAdvances(run, s, 1, other, 0);
    AfterAdvances(run, s, 1, before);
    AfterOneMore(run, s, before, e);
    assert Advances(1, 1) == [Advance(1)];
    AfterOneMore(run, s, before + [e], Advance(1));
  }
}
