/** Ensuring the host build toolchain and building, online and offline. */
module Toolchain {
  import opened Seqs
  import opened Wrappers

  /** A probe is named by what it looks for; `LIBRARIES` is the C build libraries' all-of probe. */
  type Probe = nat
  const LIBRARIES: Probe := 0

  /** A step's tool is installed by its command or, without one, from a pinned verified download. */
  datatype ToolStep = ToolStep(probe: Probe, hasCommand: bool)

  datatype IndexState = Missing | Stale | Fresh

  datatype Command = RunProbe(probe: Probe) | AptUpdate | AptInstall | Download(probe: Probe) | Install(probe: Probe)
                   | CabalUpdate | CabalBuild(offline: bool) | ListBin | InstallIdentity

  predicate InstallsTools(c: Command) {
    c.AptUpdate? || c.AptInstall? || c.Download? || c.Install?
  }

  /** Commands that fetch from the network or install what was fetched. */
  predicate Fetches(c: Command) {
    InstallsTools(c) || c.CabalUpdate?
  }

  /** How a command fares: it runs; it cannot start because its file is in use; or it fails. */
  datatype Luck = Runs | InUse | Fails

  /** How the next command fares and what is left after it; commands run when nothing is foretold. */
  function Next(luck: seq<Luck>): Luck { if luck == [] then Runs else luck[0] }
  function Later(luck: seq<Luck>): seq<Luck> { if luck == [] then [] else luck[1..] }

  predicate AllRun(luck: seq<Luck>) {
    forall k :: 0 <= k < |luck| ==> luck[k].Runs?
  }

  datatype Failure = CommandFailed(command: Command) | NotPreinstalled(probe: Probe) | DigestMismatch | NoIndex

  /** A host at one moment: the probes it satisfies, its package index, the commands issued on it,
      and how the commands to come will fare. */
  datatype Snapshot = Snapshot(present: set<Probe>, index: IndexState, issued: seq<Command>, luck: seq<Luck>) {
    predicate Satisfies(wanted: seq<Probe>) {
      forall p :: p in wanted ==> p in present
    }

    function Behind(commands: seq<Command>, rest: seq<Luck>): Snapshot {
      this.(issued := issued + commands, luck := rest)
    }
  }

  /** The host. An installation that succeeds establishes its probe and undoes no other. */
  class Host {
    var present: set<Probe>
    var index: IndexState
    var issued: seq<Command>
    var luck: seq<Luck>

    constructor (present: set<Probe>, index: IndexState, luck: seq<Luck>)
      ensures Now() == Snapshot(present, index, [], luck)
    {
      this.present, this.index, this.luck, issued := present, index, luck, [];
    }

    ghost function Now(): Snapshot
      reads this
    {
      Snapshot(present, index, issued, luck)
    }

    method Issue(command: Command) returns (fate: Luck)
      modifies this`issued, this`luck
      ensures fate == Next(old(luck)) && Now() == old(Now()).Behind([command], Later(old(luck)))
    {
      issued := issued + [command];
      if luck == [] {
        return Runs;
      }
      fate, luck := luck[0], luck[1..];
    }

    /** Whether the downloaded file has the pinned SHA-256. */
    method DigestMatches() returns (genuine: bool)
      modifies this`luck
      ensures genuine == Next(old(luck)).Runs? && luck == Later(old(luck))
    {
      if luck == [] {
        return true;
      }
      genuine, luck := luck[0].Runs?, luck[1..];
    }
  }

  // --- Asking probes ---------------------------------------------------------------------------

  datatype Answer = Answered | StillBusy | Broken

  /** How far asking comes: its answer, the commands it issued, and the luck that is left. */
  datatype Asking = Asking(answer: Answer, commands: seq<Command>, rest: seq<Luck>)

  /** Asking for the wanted probes in turn, as long as each is present. On Windows a probe whose
      file is in use is tried six times; `tries` of the first one's attempts have been made. */
  function Ask(luck: seq<Luck>, windows: bool, wanted: seq<Probe>, tries: nat): Asking
    requires tries <= 6
    decreases |wanted|, 6 - tries
  {
    if wanted == [] then Asking(Answered, [], luck)
    else if tries == 6 then Asking(StillBusy, [], luck)
    else
      var more :=
        if Next(luck).Runs? then Ask(Later(luck), windows, wanted[1..], 0)
        else if Next(luck).InUse? && windows then Ask(Later(luck), windows, wanted, tries + 1)
        else Asking(Broken, [], Later(luck));
      more.(commands := [RunProbe(wanted[0])] + more.commands)
  }

  predicate AllProbes(commands: seq<Command>) {
    forall k :: 0 <= k < |commands| ==> commands[k].RunProbe?
  }

  lemma {:induction false} AskIssuesProbes(luck: seq<Luck>, windows: bool, wanted: seq<Probe>, tries: nat)
    requires tries <= 6
    ensures AllProbes(Ask(luck, windows, wanted, tries).commands)
    ensures Ask(luck, windows, wanted, tries).answer.StillBusy? ==> windows || tries == 6
    decreases |wanted|, 6 - tries
  {
    if wanted != [] && tries < 6 {
      if Next(luck).Runs? {
        AskIssuesProbes(Later(luck), windows, wanted[1..], 0);
      } else if Next(luck).InUse? && windows {
        AskIssuesProbes(Later(luck), windows, wanted, tries + 1);
      }
    }
  }

  /** Asking for some probes and then for others is asking for all of them. */
  lemma {:induction false} AskInTwo(luck: seq<Luck>, windows: bool, a: seq<Probe>, b: seq<Probe>, tries: nat)
    requires tries <= 6 && (a == [] ==> tries == 0)
    ensures AskedInTwo(luck, windows, a, b, tries)
    decreases |a|, 6 - tries
  {
    if a == [] {
      assert a + b == b;
    } else if tries < 6 {
      assert (a + b)[1..] == a[1..] + b;
      if Next(luck).Runs? {
        AskInTwo(Later(luck), windows, a[1..], b, 0);
      } else if Next(luck).InUse? && windows {
        AskInTwo(Later(luck), windows, a, b, tries + 1);
      }
      AskStep(luck, windows, a, b, tries);
    }
  }

  lemma AskStep(luck: seq<Luck>, windows: bool, a: seq<Probe>, b: seq<Probe>, tries: nat)
    requires tries < 6 && a != [] && (a + b)[1..] == a[1..] + b
    requires Next(luck).Runs? ==> AskedInTwo(Later(luck), windows, a[1..], b, 0)
    requires Next(luck).InUse? && windows ==> AskedInTwo(Later(luck), windows, a, b, tries + 1)
    ensures AskedInTwo(luck, windows, a, b, tries)
  {
    var first := Ask(luck, windows, a, tries);
    if first.answer.Answered? {
      var second := Ask(first.rest, windows, b, 0);
      Associate([RunProbe(a[0])], first.commands[1..], second.commands);
    }
  }

  predicate AskedInTwo(luck: seq<Luck>, windows: bool, a: seq<Probe>, b: seq<Probe>, tries: nat)
    requires tries <= 6
  {
    var first := Ask(luck, windows, a, tries);
    Ask(luck, windows, a + b, tries) ==
      if first.answer.Answered? then
        var second := Ask(first.rest, windows, b, 0);
        Asking(second.answer, first.commands + second.commands, second.rest)
      else first
  }

  function Answers(luck: seq<Luck>): nat {
    if luck == [] then 0 else (if luck[0].Runs? then 1 else 0) + Answers(luck[1..])
  }

  /** From `q` on the file is in use six times in a row, before any failure and before `n` answers. */
  predicate BusyFrom(luck: seq<Luck>, n: nat, q: nat) {
    && q + 6 <= |luck| && (forall k :: q <= k < q + 6 ==> luck[k].InUse?)
    && (forall k :: 0 <= k < q ==> !luck[k].Fails?)
    && Answers(luck[..q]) < n
  }

  ghost predicate StaysBusy(luck: seq<Luck>, n: nat) {
    exists q: nat :: BusyFrom(luck, n, q)
  }

  function Busy(n: nat): seq<Luck> { seq(n, _ => InUse) }

  /** A probe that is present is found missing exactly when, before any failure and before the last
      probe answers, six attempts in a row meet a file in use. */
  lemma {:induction false} StillBusyIff(luck: seq<Luck>, wanted: seq<Probe>, tries: nat)
    requires tries <= 6
    ensures Ask(luck, true, wanted, tries).answer.StillBusy? <==> StaysBusy(Busy(tries) + luck, |wanted|)
    decreases |wanted|, 6 - tries
  {
    var all := Busy(tries) + luck;
    if wanted == [] {
    } else if tries == 6 {
      assert all[..0] == [];
      assert BusyFrom(all, |wanted|, 0);
    } else if luck == [] {
      StillBusyIff([], wanted[1..], 0);
    } else if luck[0].InUse? {
      StillBusyIff(luck[1..], wanted, tries + 1);
      assert Busy(tries + 1) + luck[1..] == all;
    } else if luck[0].Runs? {
      StillBusyIff(luck[1..], wanted[1..], 0);
      assert Busy(0) + luck[1..] == luck[1..];
      BusyBehindAnswer(luck, |wanted|, tries);
    } else {
      assert all[tries].Fails?;
    }
  }

  lemma BusyBehindAnswer(luck: seq<Luck>, n: nat, tries: nat)
    requires tries < 6 && luck != [] && luck[0].Runs? && n > 0
    ensures StaysBusy(luck[1..], n - 1) <==> StaysBusy(Busy(tries) + luck, n)
  {
    var all, front := Busy(tries) + luck, tries + 1;
    assert all[tries].Runs? && all[front..] == luck[1..];
    forall q | front <= q <= |all| ensures Answers(all[..q]) == 1 + Answers(luck[1..][..q - front]) {
      assert all[..q] == Busy(tries) + ([Runs] + luck[1..][..q - front]);
      AnswersOfBusy(tries, [Runs] + luck[1..][..q - front]);
      assert ([Runs] + luck[1..][..q - front])[1..] == luck[1..][..q - front];
    }
    assert forall k :: front <= k < |all| ==> all[k] == luck[1..][k - front];
    if StaysBusy(luck[1..], n - 1) {
      var q: nat :| BusyFrom(luck[1..], n - 1, q);
      assert BusyFrom(all, n, q + front);
    }
    if StaysBusy(all, n) {
      var q: nat :| BusyFrom(all, n, q);
      assert q >= front;
      assert forall k :: 0 <= k < |luck| - 1 ==> luck[1..][k] == all[k + front];
      assert BusyFrom(luck[1..], n - 1, q - front);
    }
  }

  lemma {:induction false} AnswersOfBusy(n: nat, luck: seq<Luck>)
    ensures Answers(Busy(n) + luck) == Answers(luck)
  {
    if n == 0 {
      assert Busy(0) + luck == luck;
    } else {
      AnswersOfBusy(n - 1, luck);
      assert (Busy(n) + luck)[1..] == Busy(n - 1) + luck;
    }
  }

  /** The input at which a tool that is present is installed again: its file is in use at all six
      attempts. */
  lemma BusyToolIsMissed(probe: Probe)
    ensures StaysBusy(Busy(6), 1)
    ensures Ask(Busy(6), true, [probe], 0) == Asking(StillBusy, seq(6, _ => RunProbe(probe)), [])
  {
    StillBusyIff(Busy(6), [probe], 0);
    assert Busy(0) + Busy(6) == Busy(6);
    BusyAttempts(probe, 6);
  }

  lemma {:induction false} BusyAttempts(probe: Probe, left: nat)
    requires left <= 6
    ensures Ask(Busy(left), true, [probe], 6 - left) == Asking(StillBusy, seq(left, _ => RunProbe(probe)), [])
    ensures left == 6 ==> BusyFrom(Busy(6), 1, 0)
  {
    if left == 0 {
    } else {
      BusyAttempts(probe, left - 1);
      assert Busy(left)[1..] == Busy(left - 1);
      assert [RunProbe(probe)] + seq(left - 1, _ => RunProbe(probe)) == seq(left, _ => RunProbe(probe));
    }
  }

  // --- Ensuring the toolchain --------------------------------------------------------------------

  /** What was issued since then, if nothing before was touched. */
  predicate Since(before: seq<Command>, after: seq<Command>, allowed: Command -> bool) {
    before <= after && forall k :: |before| <= k < |after| ==> allowed(after[k])
  }

  predicate OnlyProbes(before: seq<Command>, after: seq<Command>) {
    Since(before, after, (c: Command) => c.RunProbe?)
  }

  /** Up to six attempts while the probe's file is in use on Windows: it answers whether it is
      present, and while busy that it is not. */
  method AlreadyPresent(host: Host, probe: Probe, windows: bool) returns (r: Result<bool, Failure>)
    modifies host`issued, host`luck
    ensures var a := Ask(old(host.luck), windows, [probe], 0);
      && host.Now() == old(host.Now()).Behind(a.commands, a.rest)
      && match a.answer
         case Answered => r == Ok(probe in host.present)
         case StillBusy => r == Ok(false)
         case Broken => r == Err(CommandFailed(RunProbe(probe)))
    ensures r == Ok(false) && probe in host.present ==> windows && StaysBusy(old(host.luck), 1)
  {
    BusyMeansSixInUse(host.luck, windows, probe);
    ghost var asked: seq<Command> := [];
    for attempt := 0 to 6
      invariant Ask(old(host.luck), windows, [probe], 0) == Behind(asked, Ask(host.luck, windows, [probe], attempt))
      invariant host.Now() == old(host.Now()).Behind(asked, host.luck)
    {
      AskOnce(asked, host.luck, windows, probe, attempt);
      var fate := host.Issue(RunProbe(probe));
      asked := asked + [RunProbe(probe)];
      if fate.InUse? && windows {
        continue;
      }
      if !fate.Runs? {
        return Err(CommandFailed(RunProbe(probe)));
      }
      return Ok(probe in host.present);
    }
    return Ok(false);
  }

  function Behind(commands: seq<Command>, a: Asking): Asking {
    a.(commands := commands + a.commands)
  }

  lemma AskOnce(asked: seq<Command>, luck: seq<Luck>, windows: bool, probe: Probe, tries: nat)
    requires tries < 6
    ensures var (now, fate, rest) := (asked + [RunProbe(probe)], Next(luck), Later(luck));
      Behind(asked, Ask(luck, windows, [probe], tries)) ==
        if fate.Runs? then Asking(Answered, now, rest)
        else if fate.InUse? && windows then Behind(now, Ask(rest, windows, [probe], tries + 1))
        else Asking(Broken, now, rest)
  {
    assert [probe][1..] == [];
    var more := if Next(luck).InUse? && windows then Ask(Later(luck), windows, [probe], tries + 1).commands else [];
    Associate(asked, [RunProbe(probe)], more);
    assert asked + ([RunProbe(probe)] + []) == asked + [RunProbe(probe)];
  }

  lemma BusyMeansSixInUse(luck: seq<Luck>, windows: bool, probe: Probe)
    ensures Ask(luck, windows, [probe], 0).answer.StillBusy? <==> windows && StaysBusy(luck, 1)
  {
    AskIssuesProbes(luck, windows, [probe], 0);
    StillBusyIff(luck, [probe], 0);
    assert Busy(0) + luck == luck;
  }

  predicate AllowedToolCommand(offline: bool, c: Command) {
    c.RunProbe? || (!offline && InstallsTools(c))
  }

  /** A host that satisfies every probe is asked them and no more, whatever fails, unless one stays
      busy: then it is taken for missing, and online the next command installs it. */
  predicate LeftAlone(offline: bool, r: Result<(), Failure>, before: Snapshot, after: Snapshot, a: Asking) {
    if a.answer.StillBusy? && !offline then
      && before.issued + a.commands < after.issued
      && InstallsTools(after.issued[|before.issued + a.commands|])
    else
      (r.Ok? <==> a.answer.Answered?) && after == before.Behind(a.commands, a.rest)
  }

  /** An error is about the last command issued, or, offline, about a probe that was asked for. */
  predicate Blames(offline: bool, wanted: seq<Probe>, e: Failure, before: Snapshot, after: Snapshot) {
    match e
    case NotPreinstalled(p) => offline && p in wanted && OnlyProbes(before.issued, after.issued)
    case CommandFailed(c) => |before.issued| < |after.issued| && after.issued[|after.issued| - 1] == c
    case DigestMismatch => |before.issued| < |after.issued| && after.issued[|after.issued| - 1].Download?
    case NoIndex => false
  }

  /** What each part of ensuring the toolchain promises for the probes it is to establish. */
  predicate Ensured(offline: bool, windows: bool, wanted: seq<Probe>, r: Result<(), Failure>,
                    before: Snapshot, after: Snapshot) {
    && Since(before.issued, after.issued, c => AllowedToolCommand(offline, c))
    && before.present <= after.present && after.index == before.index
    && (r.Ok? ==> after.Satisfies(wanted))
    && (offline ==> after.present == before.present)
    && (r.Err? ==> Blames(offline, wanted, r.error, before, after))
    && (AllRun(before.luck) ==> AllRun(after.luck) && (r.Ok? <==> !offline || before.Satisfies(wanted)))
    && (before.Satisfies(wanted) ==> LeftAlone(offline, r, before, after, Ask(before.luck, windows, wanted, 0)))
  }

  predicate FoundPresent(s: Snapshot, windows: bool, probe: Probe) {
    Ask(s.luck, windows, [probe], 0).answer.Answered? && probe in s.present
  }

  predicate FoundMissing(s: Snapshot, windows: bool, probe: Probe) {
    var answer := Ask(s.luck, windows, [probe], 0).answer;
    answer.StillBusy? || (answer.Answered? && probe !in s.present)
  }

  /** The commands of success: the probe, and those that install what it found missing. Offline a
      missing probe is what is complained of, and nothing else is called missing. */
  predicate Traced(offline: bool, windows: bool, probe: Probe, installing: seq<Command>, r: Result<(), Failure>,
                   before: Snapshot, after: Snapshot) {
    var asked := Ask(before.luck, windows, [probe], 0).commands;
    && (r.Ok? ==> !FoundMissing(before, windows, probe) || !offline)
    && (r.Ok? && FoundPresent(before, windows, probe) ==> after.issued == before.issued + asked)
    && (r.Ok? && FoundMissing(before, windows, probe) ==> after.issued == before.issued + asked + installing)
    && (r.Ok? ==> FoundPresent(before, windows, probe) || FoundMissing(before, windows, probe))
    && (offline ==> (r == Err(NotPreinstalled(probe)) <==> FoundMissing(before, windows, probe)))
  }

  lemma {:induction false} AskOneProbe(luck: seq<Luck>, windows: bool, probe: Probe, tries: nat)
    requires tries < 6
    ensures var a := Ask(luck, windows, [probe], tries);
      && 1 <= |a.commands| <= 6 - tries && (forall k :: 0 <= k < |a.commands| ==> a.commands[k] == RunProbe(probe))
      && (AllRun(luck) ==> a.answer.Answered? && AllRun(a.rest))
    decreases 6 - tries
  {
    AskOnce([], luck, windows, probe, tries);
    var a := Ask(luck, windows, [probe], tries);
    assert [] + a.commands == a.commands;
    if Next(luck).InUse? && windows && tries < 5 {
      AskOneProbe(Later(luck), windows, probe, tries + 1);
    }
  }

  /** The probe answered that all is well, or could not be asked. */
  lemma ProbedOnly(offline: bool, windows: bool, probe: Probe, installing: seq<Command>, r: Result<(), Failure>,
                   before: Snapshot, after: Snapshot)
    requires var a := Ask(before.luck, windows, [probe], 0); after == before.Behind(a.commands, a.rest)
    requires r == if Ask(before.luck, windows, [probe], 0).answer.Broken? then Err(CommandFailed(RunProbe(probe)))
                  else if FoundPresent(before, windows, probe) then Ok(()) else Err(NotPreinstalled(probe))
    requires r.Err? && r.error.NotPreinstalled? ==> offline
    ensures Ensured(offline, windows, [probe], r, before, after)
    ensures Traced(offline, windows, probe, installing, r, before, after)
  {
    AskOneProbe(before.luck, windows, probe, 0);
  }

  /** Something was installed behind the probe, or its installation failed. */
  lemma ProbedAndInstalled(windows: bool, probe: Probe, installing: seq<Command>, r: Result<(), Failure>,
                           before: Snapshot, after: Snapshot, done: seq<Command>)
    requires FoundMissing(before, windows, probe) && done != [] && forall c :: c in done ==> InstallsTools(c)
    requires after.issued == before.issued + Ask(before.luck, windows, [probe], 0).commands + done
    requires after.index == before.index && after.present == before.present + if r.Ok? then {probe} else {}
    requires r.Ok? ==> done == installing
    requires r.Err? ==>
      r.error == CommandFailed(done[|done| - 1]) || (r.error.DigestMismatch? && done[|done| - 1].Download?)
    requires AllRun(Ask(before.luck, windows, [probe], 0).rest) ==> r.Ok? && AllRun(after.luck)
    ensures Ensured(false, windows, [probe], r, before, after)
    ensures Traced(false, windows, probe, installing, r, before, after)
  {
    AskOneProbe(before.luck, windows, probe, 0);
    var asked := before.issued + Ask(before.luck, windows, [probe], 0).commands;
    assert after.issued[|asked|] == done[0];
    assert after.issued[|after.issued| - 1] == done[|done| - 1];
    assert forall k :: |asked| <= k < |after.issued| ==> after.issued[k] == done[k - |asked|];
  }

  /** Nothing became present, or one probe did, by the last command. */
  predicate Grew(probe: Probe, c: Command, before: Snapshot, after: Snapshot) {
    || after.present == before.present
    || (after.present == before.present + {probe} && |before.issued| < |after.issued|
        && after.issued[|after.issued| - 1] == c)
  }

  method EnsureLinuxBuildLibraries(host: Host, offline: bool, windows: bool) returns (r: Result<(), Failure>)
    modifies host
    ensures Ensured(offline, windows, [LIBRARIES], r, old(host.Now()), host.Now())
    ensures Traced(offline, windows, LIBRARIES, [AptUpdate, AptInstall], r, old(host.Now()), host.Now())
    ensures Grew(LIBRARIES, AptInstall, old(host.Now()), host.Now())
  {
    ghost var before := host.Now();
    var found := AlreadyPresent(host, LIBRARIES, windows);
    if found.Err? || found.value || offline {
      r := if found.Err? then Err(found.error) else if found.value then Ok(()) else Err(NotPreinstalled(LIBRARIES));
      ProbedOnly(offline, windows, LIBRARIES, [AptUpdate, AptInstall], r, before, host.Now());
      return;
    }
    ghost var asked := host.issued;
    var fate := host.Issue(AptUpdate);
    if !fate.Runs? {
      r := Err(CommandFailed(AptUpdate));
      ProbedAndInstalled(windows, LIBRARIES, [AptUpdate, AptInstall], r, before, host.Now(), [AptUpdate]);
      return;
    }
    fate := host.Issue(AptInstall);
    assert host.issued == asked + [AptUpdate, AptInstall];
    if !fate.Runs? {
      r := Err(CommandFailed(AptInstall));
    } else {
      host.present := host.present + {LIBRARIES};
      r := Ok(());
    }
    ProbedAndInstalled(windows, LIBRARIES, [AptUpdate, AptInstall], r, before, host.Now(), [AptUpdate, AptInstall]);
  }

  function InstallOf(step: ToolStep): Command {
    if step.hasCommand then Install(step.probe) else Download(step.probe)
  }

  /** One step. A missing tool is there afterwards only if its command ran or, for a pinned download,
      the download ran and its digest matched. */
  method EnsureStep(host: Host, step: ToolStep, offline: bool, windows: bool) returns (r: Result<(), Failure>)
    modifies host
    ensures Ensured(offline, windows, [step.probe], r, old(host.Now()), host.Now())
    ensures Traced(offline, windows, step.probe,
                   [if step.hasCommand then Install(step.probe) else Download(step.probe)],
                   r, old(host.Now()), host.Now())
    ensures Grew(step.probe, InstallOf(step), old(host.Now()), host.Now())
    ensures var rest := Ask(old(host.luck), windows, [step.probe], 0).rest;
      r.Ok? && step.probe !in old(host.present) ==>
        !offline && Next(rest).Runs? && (!step.hasCommand ==> Next(Later(rest)).Runs?)
  {
    ghost var before := host.Now();
    var found := AlreadyPresent(host, step.probe, windows);
    if found.Err? || found.value || offline {
      r := if found.Err? then Err(found.error) else if found.value then Ok(()) else Err(NotPreinstalled(step.probe));
      ProbedOnly(offline, windows, step.probe, [InstallOf(step)], r, before, host.Now());
      return;
    }
    r := InstallStep(host, step);
    ProbedAndInstalled(windows, step.probe, [InstallOf(step)], r, before, host.Now(), [InstallOf(step)]);
  }

  /** The step's command, or the pinned download and its verification. */
  method InstallStep(host: Host, step: ToolStep) returns (r: Result<(), Failure>)
    modifies host
    ensures host.index == old(host.index) && host.issued == old(host.issued) + [InstallOf(step)]
    ensures host.present == old(host.present) + if r.Ok? then {step.probe} else {}
    ensures AllRun(old(host.luck)) ==> AllRun(host.luck)
    ensures r.Ok? <==> Next(old(host.luck)).Runs? && (step.hasCommand || Next(Later(old(host.luck))).Runs?)
    ensures r.Err? ==>
      r.error == CommandFailed(InstallOf(step)) || (r.error.DigestMismatch? && InstallOf(step).Download?)
  {
    var command := if step.hasCommand then Install(step.probe) else Download(step.probe);
    var fate := host.Issue(command);
    if !fate.Runs? {
      return Err(CommandFailed(command));
    }
    if !step.hasCommand {
      var genuine := host.DigestMatches();
      if !genuine {
        return Err(DigestMismatch);
      }
    }
    host.present := host.present + {step.probe};
    return Ok(());
  }

  function Wanted(steps: seq<ToolStep>, libraries: bool): seq<Probe> {
    (if libraries then [LIBRARIES] else []) + seq(|steps|, i requires 0 <= i < |steps| => steps[i].probe)
  }

  /** Ensuring some probes and, after success, others is ensuring all of them. */
  lemma EnsuredInTwo(offline: bool, windows: bool, a: seq<Probe>, b: seq<Probe>, r: Result<(), Failure>,
                     s: Result<(), Failure>, before: Snapshot, between: Snapshot, after: Snapshot)
    requires Ensured(offline, windows, a, r, before, between) && r.Ok?
    requires Ensured(offline, windows, b, s, between, after)
    ensures Ensured(offline, windows, a + b, s, before, after)
  {
    if before.Satisfies(a + b) {
      assert forall p :: p in a ==> p in a + b;
      assert forall p :: p in b ==> p in a + b;
      AskInTwo(before.luck, windows, a, b, 0);
      LeftAloneInTwo(offline, windows, a, b, r, s, before, between, after);
    }
  }

  lemma LeftAloneInTwo(offline: bool, windows: bool, a: seq<Probe>, b: seq<Probe>, r: Result<(), Failure>,
                       s: Result<(), Failure>, before: Snapshot, between: Snapshot, after: Snapshot)
    requires r.Ok? && between.issued <= after.issued && AskedInTwo(before.luck, windows, a, b, 0)
    requires LeftAlone(offline, r, before, between, Ask(before.luck, windows, a, 0))
    requires LeftAlone(offline, s, between, after, Ask(between.luck, windows, b, 0))
    ensures LeftAlone(offline, s, before, after, Ask(before.luck, windows, a + b, 0))
  {
    var (first, second) := (Ask(before.luck, windows, a, 0), Ask(between.luck, windows, b, 0));
    Associate(before.issued, first.commands, second.commands);
  }

  /** The first failure ends it: the probes behind it are not asked. */
  lemma EnsuredAtFailure(offline: bool, windows: bool, a: seq<Probe>, b: seq<Probe>, r: Result<(), Failure>,
                         before: Snapshot, after: Snapshot)
    requires Ensured(offline, windows, a, r, before, after) && r.Err?
    ensures Ensured(offline, windows, a + b, r, before, after)
  {
    if before.Satisfies(a + b) {
      assert forall p :: p in a ==> p in a + b;
      AskInTwo(before.luck, windows, a, b, 0);
    }
  }

  lemma WantedInTwo(steps: seq<ToolStep>, n: nat, libraries: bool)
    requires n <= |steps|
    ensures Wanted(steps, libraries) == Wanted(steps[..n], libraries) + Wanted(steps[n..], false)
  {
  }

  /** Only probes are issued since then exactly when none of the wanted ones stays busy, or when
      nothing may be fetched. */
  ghost predicate ProbedOnlyIffNotBusy(offline: bool, windows: bool, wanted: seq<Probe>,
                                       before: Snapshot, after: Snapshot) {
    OnlyProbes(before.issued, after.issued) <==> offline || !windows || !StaysBusy(before.luck, |wanted|)
  }

  lemma SatisfiedIsLeftAlone(offline: bool, windows: bool, wanted: seq<Probe>, r: Result<(), Failure>,
                             before: Snapshot, after: Snapshot)
    requires Ensured(offline, windows, wanted, r, before, after)
    ensures before.Satisfies(wanted) ==> ProbedOnlyIffNotBusy(offline, windows, wanted, before, after)
  {
    if before.Satisfies(wanted) {
      var a := Ask(before.luck, windows, wanted, 0);
      AskIssuesProbes(before.luck, windows, wanted, 0);
      if windows {
        StillBusyIff(before.luck, wanted, 0);
        assert Busy(0) + before.luck == before.luck;
      }
      if a.answer.StillBusy? && !offline {
        assert InstallsTools(after.issued[|before.issued + a.commands|]);
      }
    }
  }

  /** The commands that establish a probe. */
  predicate Installs(steps: seq<ToolStep>, libraries: bool, p: Probe, c: Command) {
    || (libraries && p == LIBRARIES && c == AptInstall)
    || exists i ::
         0 <= i < |steps| && steps[i].probe == p && c == if steps[i].hasCommand then Install(p) else Download(p)
  }

  /** What became present did so by a command of its own. */
  ghost predicate AllInstalled(steps: seq<ToolStep>, libraries: bool, before: Snapshot, after: Snapshot) {
    && before.issued <= after.issued
    && forall p :: p in after.present && p !in before.present ==>
         exists k :: |before.issued| <= k < |after.issued| && Installs(steps, libraries, p, after.issued[k])
  }

  lemma OneMoreInstalled(steps: seq<ToolStep>, libraries: bool, i: nat,
                         before: Snapshot, between: Snapshot, after: Snapshot)
    requires i < |steps| && AllInstalled(steps, libraries, before, between) && between.issued <= after.issued
    requires Grew(steps[i].probe, InstallOf(steps[i]), between, after)
    ensures AllInstalled(steps, libraries, before, after)
  {
    forall p | p in after.present && p !in before.present
      ensures exists k :: |before.issued| <= k < |after.issued| && Installs(steps, libraries, p, after.issued[k])
    {
      if p in between.present {
        var k :| |before.issued| <= k < |between.issued| && Installs(steps, libraries, p, between.issued[k]);
        assert after.issued[k] == between.issued[k];
      } else {
        assert Installs(steps, libraries, p, after.issued[|after.issued| - 1]);
      }
    }
  }

  /** The libraries first on Linux, then every step in order. */
  method EnsureToolchain(host: Host, steps: seq<ToolStep>, libraries: bool, offline: bool, windows: bool)
    returns (r: Result<(), Failure>)
    modifies host
    ensures Ensured(offline, windows, Wanted(steps, libraries), r, old(host.Now()), host.Now())
    ensures AllInstalled(steps, libraries, old(host.Now()), host.Now())
    ensures old(host.Now()).Satisfies(Wanted(steps, libraries)) ==>
      ProbedOnlyIffNotBusy(offline, windows, Wanted(steps, libraries), old(host.Now()), host.Now())
  {
    ghost var start := host.Now();
    r := EnsureLibraries(host, libraries, offline, windows);
    assert steps[..0] == [];
    if r.Err? {
      EndAtFailure(steps, 0, libraries, offline, windows, r, start, host.Now());
      return;
    }
    for i := 0 to |steps|
      invariant r.Ok? && Ensured(offline, windows, Wanted(steps[..i], libraries), r, start, host.Now())
      invariant AllInstalled(steps, libraries, start, host.Now())
    {
      ghost var between, before := host.Now(), r;
      r := EnsureStep(host, steps[i], offline, windows);
      OneMoreStep(steps, i, libraries, offline, windows, before, r, start, between, host.Now());
      OneMoreInstalled(steps, libraries, i, start, between, host.Now());
      if r.Err? {
        EndAtFailure(steps, i + 1, libraries, offline, windows, r, start, host.Now());
        return;
      }
    }
    assert steps[..|steps|] == steps;
    SatisfiedIsLeftAlone(offline, windows, Wanted(steps, libraries), r, start, host.Now());
  }

  method EnsureLibraries(host: Host, libraries: bool, offline: bool, windows: bool) returns (r: Result<(), Failure>)
    modifies host
    ensures Ensured(offline, windows, Wanted([], libraries), r, old(host.Now()), host.Now())
    ensures forall steps :: AllInstalled(steps, libraries, old(host.Now()), host.Now())
  {
    assert Wanted([], libraries) == if libraries then [LIBRARIES] else [];
    if libraries {
      r := EnsureLinuxBuildLibraries(host, offline, windows);
    } else {
      assert host.issued + [] == host.issued;
      r := Ok(());
    }
  }

  lemma OneMoreStep(steps: seq<ToolStep>, i: nat, libraries: bool, offline: bool, windows: bool,
                    r: Result<(), Failure>, s: Result<(), Failure>,
                    before: Snapshot, between: Snapshot, after: Snapshot)
    requires i < |steps| && r.Ok?
    requires Ensured(offline, windows, Wanted(steps[..i], libraries), r, before, between)
    requires Ensured(offline, windows, [steps[i].probe], s, between, after)
    ensures Ensured(offline, windows, Wanted(steps[..i + 1], libraries), s, before, after)
  {
    assert Wanted(steps[..i + 1], libraries) == Wanted(steps[..i], libraries) + [steps[i].probe];
    EnsuredInTwo(offline, windows, Wanted(steps[..i], libraries), [steps[i].probe], r, s, before, between, after);
  }

  lemma EndAtFailure(steps: seq<ToolStep>, n: nat, libraries: bool, offline: bool, windows: bool,
                     r: Result<(), Failure>, before: Snapshot, after: Snapshot)
    requires n <= |steps| && Ensured(offline, windows, Wanted(steps[..n], libraries), r, before, after) && r.Err?
    ensures Ensured(offline, windows, Wanted(steps, libraries), r, before, after)
    ensures before.Satisfies(Wanted(steps, libraries)) ==>
      ProbedOnlyIffNotBusy(offline, windows, Wanted(steps, libraries), before, after)
  {
    WantedInTwo(steps, n, libraries);
    EnsuredAtFailure(offline, windows, Wanted(steps[..n], libraries), Wanted(steps[n..], false), r, before, after);
    SatisfiedIsLeftAlone(offline, windows, Wanted(steps, libraries), r, before, after);
  }

  /** A run that succeeds leaves every probe satisfied; a second one, right behind it, issues probes
      only, whatever fails, exactly when none of them stays busy or nothing may be fetched. */
  lemma SecondRunOnlyProbes(wanted: seq<Probe>, windows: bool, offline: bool, again: bool, r: Result<(), Failure>,
                            s: Result<(), Failure>, before: Snapshot, between: Snapshot, after: Snapshot)
    requires Ensured(offline, windows, wanted, r, before, between) && r.Ok?
    requires Ensured(again, windows, wanted, s, between, after)
    ensures between.Satisfies(wanted) && ProbedOnlyIffNotBusy(again, windows, wanted, between, after)
  {
    SatisfiedIsLeftAlone(again, windows, wanted, s, between, after);
  }

  // --- Building ----------------------------------------------------------------------------------

  /** Commands of a build run: none that fetches when offline, and Cabal builds in that same mode. */
  predicate AllowedCommand(offline: bool, c: Command) {
    (offline ==> !Fetches(c)) && (c.CabalBuild? ==> c.offline == offline)
  }

  /** Commands of the build proper; the index is refreshed only online and only if it is not fresh. */
  predicate BuildCommand(offline: bool, index: IndexState, c: Command) {
    || c == CabalBuild(offline) || c == ListBin || c == InstallIdentity
    || (c == CabalUpdate && !offline && !index.Fresh?)
  }

  /** The package index is refreshed online unless it is fresh; offline it must exist. */
  method RefreshIndex(host: Host, offline: bool) returns (r: Result<(), Failure>)
    modifies host`issued, host`luck, host`index
    ensures r == Err(NoIndex) <==> offline && old(host.index).Missing?
    ensures host.issued == old(host.issued) + if offline || old(host.index).Fresh? then [] else [CabalUpdate]
    ensures host.index == if !offline && r.Ok? then Fresh else old(host.index)
    ensures r.Ok? ==> !host.index.Missing?
    ensures r.Err? && r.error != NoIndex ==>
      r.error == CommandFailed(CabalUpdate) && !offline && !old(host.index).Fresh?
    ensures AllRun(old(host.luck)) ==> AllRun(host.luck) && (r.Ok? || r.error == NoIndex)
  {
    if offline && host.index.Missing? {
      return Err(NoIndex);
    }
    if !offline && !host.index.Fresh? {
      var fate := host.Issue(CabalUpdate);
      if !fate.Runs? {
        return Err(CommandFailed(CabalUpdate));
      }
      host.index := Fresh;
    }
    return Ok(());
  }

  /** Refresh, build, locate, install the identity; the first failure ends it. */
  method BuildNative(host: Host, offline: bool) returns (r: Result<(), Failure>)
    modifies host`issued, host`luck, host`index
    ensures Since(old(host.issued), host.issued, c => BuildCommand(offline, old(host.index), c))
    ensures r == Err(NoIndex) <==> offline && old(host.index).Missing?
    ensures r == Err(NoIndex) ==> host.issued == old(host.issued)
    ensures offline ==> host.index == old(host.index)
    ensures !offline && r.Ok? ==> host.index.Fresh?
    ensures r.Err? && r.error != NoIndex ==>
      && |old(host.issued)| < |host.issued| && r.error == CommandFailed(host.issued[|host.issued| - 1])
    ensures AllRun(old(host.luck)) ==> r.Ok? || r.error == NoIndex
    ensures r.Ok? ==>
      && !host.index.Missing?
      && host.issued == old(host.issued) + (if offline || old(host.index).Fresh? then [] else [CabalUpdate])
                        + [CabalBuild(offline)] + [ListBin] + [InstallIdentity]
  {
    r := RefreshIndex(host, offline);
    if r.Ok? {
      r := BuildAndInstall(host, offline);
    }
  }

  method BuildAndInstall(host: Host, offline: bool) returns (r: Result<(), Failure>)
    modifies host`issued, host`luck
    ensures Since(old(host.issued), host.issued, c => c == CabalBuild(offline) || c == ListBin || c == InstallIdentity)
    ensures r.Ok? ==> host.issued == old(host.issued) + [CabalBuild(offline)] + [ListBin] + [InstallIdentity]
    ensures r.Err? ==> |old(host.issued)| < |host.issued| && r.error == CommandFailed(host.issued[|host.issued| - 1])
    ensures AllRun(old(host.luck)) ==> r.Ok?
  {
    var fate := host.Issue(CabalBuild(offline));
    if !fate.Runs? {
      return Err(CommandFailed(CabalBuild(offline)));
    }
    fate := host.Issue(ListBin);
    if !fate.Runs? {
      return Err(CommandFailed(ListBin));
    }
    fate := host.Issue(InstallIdentity);
    return if fate.Runs? then Ok(()) else Err(CommandFailed(InstallIdentity));
  }

  /** Probes, and then commands of the build. */
  ghost predicate ProbesThenBuild(offline: bool, index: IndexState, before: seq<Command>, after: seq<Command>) {
    exists middle :: OnlyProbes(before, middle) && Since(middle, after, c => BuildCommand(offline, index, c))
  }

  lemma InstallationIsNoBuild(offline: bool, index: IndexState, before: seq<Command>,
                              middle: seq<Command>, after: seq<Command>)
    requires before <= middle <= after && !OnlyProbes(before, middle)
    requires Since(before, middle, c => AllowedToolCommand(offline, c))
    ensures !ProbesThenBuild(offline, index, before, after)
  {
    var k :| |before| <= k < |middle| && !middle[k].RunProbe?;
    assert after[k] == middle[k] && InstallsTools(after[k]);
  }

  /** Toolchain, then build. Offline nothing is fetched and Cabal is told so; success means every
      probe is satisfied; and on a host that satisfies them only probes precede the build, whatever
      fails, exactly when none of them stays busy or nothing may be fetched. */
  method BuildBinary(host: Host, steps: seq<ToolStep>, libraries: bool, offline: bool, windows: bool)
    returns (r: Result<(), Failure>)
    modifies host
    ensures Since(old(host.issued), host.issued, c => AllowedCommand(offline, c))
    ensures r.Ok? ==> host.Now().Satisfies(Wanted(steps, libraries)) && (!offline ==> host.index.Fresh?)
    ensures offline ==> host.present == old(host.present) && host.index == old(host.index)
    ensures AllRun(old(host.luck)) ==>
      (r.Ok? <==> !offline || (old(host.Now()).Satisfies(Wanted(steps, libraries)) && !old(host.index).Missing?))
    ensures old(host.Now()).Satisfies(Wanted(steps, libraries)) ==>
      (ProbesThenBuild(offline, old(host.index), old(host.issued), host.issued)
       <==> offline || !windows || !StaysBusy(old(host.luck), |Wanted(steps, libraries)|))
  {
    r := EnsureToolchain(host, steps, libraries, offline, windows);
    ghost var between := host.Now();
    if r.Ok? {
      r := BuildNative(host, offline);
    }
    if !OnlyProbes(old(host.issued), between.issued) {
      InstallationIsNoBuild(offline, old(host.index), old(host.issued), between.issued, host.issued);
    }
  }
}
