# A Dafny model of hostbootstrap's Python layer

The parts of hostbootstrap's Python layer that other code relies on, modelled in Dafny 4.11, with proofs.
`dafny verify dfyconfig.toml` checks everything.

| module | models | question it answers |
|---|---|---|
| `Utf8`, `Drain` | `_drain` in `hostbootstrap/process.py` | Does captured output depend on how reads split the bytes? |
| `ProcessRun` | `run` in `hostbootstrap/process.py` | Can the child, two bounded pipes and two drains deadlock; when does `run` return; what is left behind after a failure? |
| `BaseImage`, `BaseTargets` | `_build_then_publish`, `_run_base_targets`, `_base_work` in `hostbootstrap/cli.py`, the builds of `hostbootstrap/base_image.py` | What is published when pipelines interleave, any call fails, and the registry moves? |
| `PipelineEnds` | the same pipelines | Does a logged smoke, push or publication mean that its call succeeded, and when does a pipeline finish? |
| `Confluence` | the same pipelines | Does a flavor end as it would alone, whatever the schedule? |
| `BuildBudget`, `DockerBuild` | `hostbootstrap/resources.py`, `build_command` | Do concurrent builds fit the host, and does Docker see those numbers? |
| `BinaryCopy` | `_copy_if_changed` in `hostbootstrap/bootstrap.py` | What may a failed or interrupted publication leave at the destination? |
| `Toolchain` | `_ensure_toolchain`, `_build_native` in `hostbootstrap/bootstrap.py` | What is fetched offline, and what does success establish? |
| `Regex`, `HaskellComments` | `_strip_haskell_comments` in `tests/test_packaging.py` | Does the scanner match what the token expression matches, is stripping idempotent, and are offsets and line numbers kept? |
| `CommandLine` | `rendered_windows_commandline_length` in `hostbootstrap/process.py` | What does a Windows program read out of the rendered command line? |
| `StyleGates` | `_style_gates` in `hostbootstrap/cli.py` | Are the greedy chunks as few as the argument budget allows? |
| `ReloadOrder` | `_package_reload_order` in `hostbootstrap/test_all.py` | In what sense do dependencies come first when there are cycles? |
| `DigestReference`, `CudaBase` | `parse_digest_reference`, `resolve_cuda_base_image` | Which entry, which tag, and when none? |

`Seqs` and `Wrappers` hold sequence facts and the `Option` and `Result` types.

## How the host, Docker and the event loop appear

- Every file call draws its outcome from an arbitrary list of faults, and the state after each call is recorded,
  so a claim about every recorded state is a claim about every crash point.
- The child, the pipes, the drains and `run` are one transition system; a run is any sequence of enabled steps.
  `wait()` is taken to return once the loop has seen the child exit.
- A base run is a sequence of events: a pipeline's current call ends, or an outside publisher moves a registry tag.
  Each pipeline's call outcomes are arbitrary and fixed in advance. Image IDs and digests are opaque; a digest
  determines its image, and one image may have several manifests.
- SHA-256 equality is taken as equality of bytes.
- The UTF-8 decoder follows sections 3 and 4 of RFC 3629, and section 3.9 of the Unicode Standard for U+FFFD substitution.
  Like Python's codec it keeps back half a surrogate at the end of a chunk.
- The token expression is a syntax tree whose matches are listed in the order a backtracking matcher tries them; the
  first one is the match. A rendered command line is read by the rules of Microsoft's C runtime.
- A push that raises may have moved the registry tag or not. A running Windows image may be renamed, but its name may be
  neither replaced nor removed.

## Where the code does less than its text says

- `hostbootstrap/bootstrap.py:518-519` calls the set-aside copy uniquely named. `with_suffix` replaces everything
  after the last dot, so the name is unique exactly when the destination's name has no dot (`PreviousNameIsUnique`);
  for `project.exe` every publication uses the same `.project.previous`. A second set-aside then takes the first
  one's name (`SecondSetAsideReplacesFirst`), or is refused while that first image still runs, and the publication
  raises (`RunningSetAsideIsInTheWay`, `CopyIfChanged`).
- `hostbootstrap/cli.py:413` promises to smoke the exact publication. It does, but that is the image smoked before
  the push exactly if the registry tag had not moved when it was pulled (`PublishesWhatItPushedIffUnmoved`, with the
  moved tag in `MovedTagIsPublished`).
- `hostbootstrap/bootstrap.py:430-445` leaves a satisfied host alone except on Windows: a probe whose file is in use at
  all six attempts is taken for missing, and its tool is installed again (`EnsureToolchain`, with the input in
  `BusyToolIsMissed`).

## Where it keeps its word under a stated condition

`hostbootstrap/cli.py:667` calls the flavors' builds fully independent, though they share the daemon's digest list. They
are: no image is named under both flavors' tags, since the flavors are built on different parents
(`FlavorsAreIndependent`, from `DisjointImagesAreIndependent`). `EveryScheduleAgreesIff` is the exact condition for any
pipelines, read off each of them alone. For the flavors only an outside publisher that puts a build of one under the
other's tag breaks it, as when it does so under another manifest (`RetaggedImageClashes`); what the registry holds
before the run does not matter.

## Model

| member | source | states |
|---|---|---|
| Utf8.EncodeThenDecode | hostbootstrap/process.py:182 | Any text written as UTF-8 decodes to itself, whatever bytes follow: decoding inverts RFC 3629 encoding |
| Utf8.EncodeIsTheTable | hostbootstrap/process.py:182 | The encoding is the bit table of section 3 of RFC 3629, length by length |
| Utf8.DecodesPartByPart | hostbootstrap/process.py:182 | Any bytes at all are parts, one for each character of their decoding: the encoding of that character, or a maximal ill-formed part (also one cut off by the end) whose character is U+FFFD |
| Utf8.MalformedIsMaximalSubpart | hostbootstrap/process.py:182 | A replaced subpart is maximal: beyond one byte it begins some encoding, and with one byte more it begins none |
| Utf8.TruncatedStartsEncoding | hostbootstrap/process.py:195 | A sequence whose end has not arrived begins some encoding, so replacing it by one character replaces one maximal subpart |
| Utf8.DecodeInTwoCalls | hostbootstrap/process.py:199 | Decoding in two calls that carry the undecoded suffix, half surrogates included, is decoding in one, wherever the split falls |
| Utf8.FlushReplacesTheRest | hostbootstrap/process.py:195 | The kept suffix is under four bytes; it is nothing, the beginning of an encoding, or half a surrogate (`ED` and `A0` to `BF`), and its final flush is respectively empty, one or two U+FFFD |
| Utf8.HalfSurrogateIsKept | hostbootstrap/process.py:182-195 | Half a surrogate begins no encoding, yet at the end of a chunk it is kept; at the end of the stream it gives two U+FFFD |
| Utf8.IncrementalDecoder.Feed | hostbootstrap/process.py:182-199 | The texts of all calls so far join to what one call on all their bytes decodes; a final call completes that text and starts afresh |
| Drain.CutInTwoPieces | hostbootstrap/process.py:199-202 | Cutting text that arrives in pieces behind the previous tail gives the lines and tail of the whole |
| Drain.CaptureJoins | hostbootstrap/process.py:200-202 | The captured pieces join to the text with CR LF turned into LF, as read character by character |
| Drain.NormalAlready | hostbootstrap/process.py:200-202 | A text without CR LF is its own normal form |
| Drain.NormalAroundCrLf | hostbootstrap/process.py:200-202 | A CR LF becomes LF and parts the text into two that are normalised by themselves |
| Drain.CaptureIsLines | hostbootstrap/process.py:195-202 | Each piece ends in its only newline; only the last may have none |
| Drain.Finish | hostbootstrap/process.py:194-198 | At end of file the tail with what the flush adds is one piece: it holds no newline |
| Drain.DrainStream | hostbootstrap/process.py:174-202 | For every split into non-empty chunks the sink gains exactly the capture of the whole stream, the mirror the same pieces labelled; an unpiped stream gives nothing |
| Drain.LabelledAt | hostbootstrap/process.py:185-190 | The mirror gets each piece behind the label, in the same order |
| Drain.EncodedTextIsCaptured | hostbootstrap/process.py:182-202 | Text a child writes as UTF-8 is captured as that text with normalised line endings |
| ProcessRun.RunKeepsInv | hostbootstrap/process.py:239-257 | In every reachable state bytes are conserved between script, pipe and reads, and child, return code, drains, kill and sinks agree |
| ProcessRun.NeverDeadlocks | hostbootstrap/process.py:239-257 | With pipes of any capacity at least 1, every reachable state short of the exit has an enabled step that is neither a failure nor a cancellation |
| ProcessRun.RunsTerminate | hostbootstrap/process.py:239-257 | Every run, whatever the interleaving and failures, is no longer than the work it starts with |
| ProcessRun.ReturnsIffUndisturbed | hostbootstrap/process.py:239-264 | A run that has got out returned, and did not raise, iff no drain failed and no cancellation arrived in it |
| ProcessRun.SomeRunReturns | hostbootstrap/process.py:239-264 | With pipes of any capacity at least 1, every command has a run that returns |
| ProcessRun.MayBeDisturbed | hostbootstrap/process.py:243-257 | While it gathers or waits `run` may be cancelled, and any drain still reading may fail |
| ProcessRun.ReturnsTheWholeOutput | hostbootstrap/process.py:243-264 | A returning run has the child's exit code and, per stream, the decoding of exactly the bytes sent with CR LF as LF |
| ProcessRun.BytesToIsWhatIsWritten | hostbootstrap/process.py:239-242 | The bytes sent to a stream are those of the writes to it, in order |
| ProcessRun.PipesAreBounded | hostbootstrap/process.py:193 | In every reachable state no pipe holds more than its capacity, and no read gave more than was asked for |
| ProcessRun.LeavesNothingBehind | hostbootstrap/process.py:243-257 | On every exit the child has exited and been waited for, both drains ended before the sinks closed, sinks closed exactly when quiet, at most one kill |
| ProcessRun.KillsOnceAndOnlyUnreaped | hostbootstrap/process.py:249-250 | A kill is issued only while the return code is unset, and only once |
| BaseTargets.AdvancedFlowIsOk | hostbootstrap/cli.py:414-435 | Each call of a pipeline keeps its claim on its tag, image, smoke and digest |
| BaseTargets.StepKeepsSafe | hostbootstrap/cli.py:404-435 | A call of any pipeline, or an outside move of a registry tag, keeps the claims of every pipeline and of the log |
| BaseTargets.RunIsSafe | hostbootstrap/cli.py:404-435 | Every reachable state of every interleaving satisfies all claims |
| BaseTargets.PublicationIsSmoked | hostbootstrap/cli.py:414-435 | A tag about to be pushed names the image that passed the local smoke, every push was of such an image, and a finished publication names the digest its published smoke was built against |
| PipelineEnds.LogMeansOutcomes | hostbootstrap/cli.py:414-435 | In every reachable state a logged local smoke or push means that every call up to it succeeded, on the image that was built; a logged published smoke or publication, and a finished publication, that all seven did; a failed pipeline stands at its first failed call or at a digest query; an unpublished one logs nothing |
| PipelineEnds.OnlyPushesMoveTheRegistry | hostbootstrap/cli.py:424 | A registry tag moves only by an outside publisher or by a push, which puts the smoked image and its manifest there |
| PipelineEnds.AloneEnds | hostbootstrap/cli.py:404-435 | Left to itself a pipeline is over after eight events; it finishes a publication iff all seven calls succeed and no other digest of the image is known, and then daemon, registry and log are exactly those of the published image; unpublished, it finishes iff the build succeeds |
| BaseTargets.PublishesWhatItPushedIffUnmoved | hostbootstrap/cli.py:424-435 | The published reference is the pushed digest iff the registry tag still named it at the pull, and is of the image smoked before the push iff it is the pushed digest |
| BaseTargets.MovedTagIsPublished | hostbootstrap/cli.py:424-435 | One outside move between push and pull, everything else succeeding: another digest, of another image, is published |
| Confluence.DisjointImagesAreIndependent | hostbootstrap/cli.py:698-701 | In every concurrent schedule, from any registry, a pipeline, its tag and its registry entry end as with its own events alone, if no image can be named both under its tag and under another's, by its build or by outside moves |
| Confluence.FlavorsAreIndependent | hostbootstrap/cli.py:667-669 | So it is for the base targets, whose builds are on different parents, from any registry, as long as outside publishers put only builds of a flavor under its tag |
| Confluence.EveryScheduleAgreesIff | hostbootstrap/cli.py:698-701 | For given events of each pipeline, every schedule of them agrees with the pipeline alone iff, each run alone, it resolves no digest of an image of which another records a further digest |
| Confluence.ConcurrentIsSolo | hostbootstrap/cli.py:698-701 | Schedule by schedule: agreement iff no other pipeline had recorded another digest of its image before its query; otherwise it fails at that query |
| Confluence.RetaggedImageClashes | hostbootstrap/docker_ops.py:208-211 | An outside publisher puts another manifest of one pipeline's image under the other's tag: some schedule makes the first one's query refuse |
| BaseTargets.SequentialStopsAtFailure | hostbootstrap/cli.py:693-696 | The sequential loop is an index that an exception stops: a pipeline that has begun stands behind returned ones only, none behind a failed one has begun, and a call begins one iff all before it returned |
| BaseTargets.ConcurrencyIsReached | hostbootstrap/cli.py:693-701 | The concurrency the budget is split by is the most builds ever in flight: no schedule exceeds it and some schedule reaches it |
| BaseTargets.BuildsInFlightFitTheHost | hostbootstrap/cli.py:693-701 | On a host above the floors, targets resolved with the budget of the scheduler's concurrency: Docker reads the budget's caps from every target's command, and in every reachable state those of the base builds in flight stay within available memory minus headroom and leave one CPU's quota |
| BaseTargets.PrepareTargets | hostbootstrap/cli.py:768-769 | Measuring, budgeting and resolving the targets is refused iff a floor is missed or a CUDA target has no parent; on a measured host every run of the targets it returns, published or not, has its base builds fit the host |
| BaseTargets.ReportFailures | hostbootstrap/cli.py:702-710 | Re-raises the first outcome without a friendly message in work order, else lists the friendly failures, silent iff all returned |
| BaseTargets.FriendlyInOrder | hostbootstrap/cli.py:702-710 | The list holds every friendly failure once, in work order, and nothing else |
| BaseTargets.BaseWork | hostbootstrap/cli.py:628-654 | One target a flavor, with the build that flavor needs on this architecture, context, parent, versions and budget; refused iff a CUDA target has no parent; tags and smoke tags are apart |
| BaseImage.TagsAreApart | hostbootstrap/base_image.py:48-53 | Base references are injective in flavor and architecture and never a smoke tag |
| BaseImage.TheReferences | hostbootstrap/base_image.py:29-53 | The four base references, written out |
| BaseImage.TheSmokeTags | hostbootstrap/base_image.py:408 | The four smoke tags, written out |
| BaseImage.BuildSpecIsBaseBuild | hostbootstrap/base_image.py:264-372 | Docker is asked for the one tag from the base Dockerfile of the context, pulled and uncached, on a parent of the flavor, with exactly the build arguments that name parent, flavor, versions, the budget's jobs and the runtime options, by the builder that honours its caps |
| BuildBudget.DecimalRoundTrip | hostbootstrap/resources.py:183-186 | A rendered number reads back as itself |
| BuildBudget.BudgetReadsBack | hostbootstrap/resources.py:183-189 | The rendered memory, swap and CPU values mean the computed cap and CPU share |
| BuildBudget.AssertBuildMinimums | hostbootstrap/resources.py:140-159 | The shortfalls are exactly the missed floors of 8 CPUs, 14 GiB in all and 8 GiB available, each once, in order |
| BuildBudget.HeadroomIsAQuarter | hostbootstrap/resources.py:171-174 | The headroom is a quarter of the available memory rounded down, and never less than two gibibytes |
| BuildBudget.MemBudgetIsLargest | hostbootstrap/resources.py:171-176 | The memory budget is the largest number c of which fit the allowance, if one job's memory each fits; otherwise it is one job's memory |
| BuildBudget.CpuBudgetIsLargest | hostbootstrap/resources.py:178-179 | The CPU share is the largest number c of which leave one CPU, and at least 1 |
| BuildBudget.CapIsWholeMebibytes | hostbootstrap/resources.py:183 | The cap is the memory budget rounded down to whole mebibytes |
| BuildBudget.ABudget | hostbootstrap/resources.py:162-189 | Nine CPUs and sixteen gibibytes shared by two builds: 4 CPUs, 6144m of memory and swap, 2 jobs each |
| BuildBudget.ResolveBuildBudget | hostbootstrap/cli.py:607-625 | No budget off Linux, refused iff a floor is missed, else the budget for the scheduler's concurrency |
| BuildBudget.CapsFitIff | hostbootstrap/resources.py:169-183 | For any concurrency c, c memory budgets (and c rounded caps) fit available minus headroom iff it holds c jobs' memory |
| BuildBudget.CapHoldsJobs | hostbootstrap/resources.py:176-183 | The jobs' memory fits under the cap rounded to mebibytes, and no larger count within the CPU share does |
| BuildBudget.SplitJobsDoNotExceedWhole | hostbootstrap/resources.py:178-181 | With c at most cpu_count - 1, c times the jobs of a c-way split is at most the unsplit jobs iff c is 1 or the allowance holds c jobs' memory |
| BuildBudget.BudgetIsMonotone | hostbootstrap/resources.py:169-181 | Memory, CPU share and jobs grow with the host and shrink with concurrency |
| BuildBudget.ConcurrentBuildsFit | hostbootstrap/resources.py:165-183 | Above the floors, up to two builds fit the memory allowance and the CPUs but one |
| DockerBuild.BuildCommand | hostbootstrap/docker_ops.py:80-102 | The command built option by option is the rendering of the spec's options followed by the context; it raises iff the CPU count is no number |
| DockerBuild.ParseReadsBack | hostbootstrap/docker_ops.py:80-102 | Reading the rendered options gives the same options whatever their values look like, and the context as the one argument left |
| DockerBuild.OptionsAskForTheSpec | hostbootstrap/docker_ops.py:80-102 | Under every option name, the values Docker reads are the spec's values for it, in its order, and no others |
| DockerBuild.SwitchesAskForTheSpec | hostbootstrap/docker_ops.py:88-91 | `--pull` and `--no-cache` are given iff the spec sets them |
| DockerBuild.AFraction | hostbootstrap/docker_ops.py:97-99 | 2.5 CPUs are a quota of 250000 microseconds |
| DockerBuild.BudgetReachesDocker | hostbootstrap/docker_ops.py:92-99 | The memory cap and CPU quota Docker reads from a budgeted base build are the budget's numbers |
| BinaryCopy.LastDotOfTemporary | hostbootstrap/bootstrap.py:498 | A random token has no dot, so a temporary name's last dot is the destination's own, or its first character |
| BinaryCopy.PreviousNameForm | hostbootstrap/bootstrap.py:498-511 | The set-aside name, written out: the temporary name with `.previous` behind it, or in place of the destination's last dot and all behind it |
| BinaryCopy.PreviousNameIsUnique | hostbootstrap/bootstrap.py:511-519 | The set-aside name differs for every temporary file iff the destination's name has no dot |
| BinaryCopy.SecondSetAsideReplacesFirst | hostbootstrap/bootstrap.py:511-519 | Setting a binary aside a second time, where the rename succeeds, leaves the first set-aside one its name iff the destination's name has no dot |
| BinaryCopy.RunningSetAsideIsInTheWay | hostbootstrap/bootstrap.py:511-521 | While the first set-aside image still runs, a running destination can be replaced again iff its name has no dot |
| BinaryCopy.NamesAreApart | hostbootstrap/bootstrap.py:498-511 | Destination, temporary and set-aside names are three names, for every destination |
| BinaryCopy.FilesIdentical | hostbootstrap/bootstrap.py:486-491 | Answers true iff both names exist and hold equal bytes; an error is that of one of its own calls, and no failed call is passed over |
| BinaryCopy.FillTemporary | hostbootstrap/bootstrap.py:501-505 | On success the temporary inode holds all source bytes, flushed, under the source's mode and times; on any failure, which is always of one of its calls, the destination is still old |
| BinaryCopy.Exchange | hostbootstrap/bootstrap.py:513-521 | From the set-aside state the new bytes go in or the old come back, unless the rollback rename fails; without faults it succeeds, even while the old image runs; success means every call but cleanup succeeded |
| BinaryCopy.PutInPlace | hostbootstrap/bootstrap.py:506-521 | The publication with its Windows rename-aside path ends new, old, or set aside exactly when the rollback failed; without faults it succeeds iff the destination does not run, or it is Windows and the set-aside name is not a running image's |
| BinaryCopy.CopyIfChanged | hostbootstrap/bootstrap.py:494-524 | Whenever it answers, changed or not, the destination holds the source's bytes, and an answer or error tells what the calls did; every intermediate state holds old or new bytes whole at the destination, or the old ones set aside; earlier inodes and other names are untouched; after an error old or new unless the rollback failed; no temporary name is left unless its unlink failed; identical files change nothing; fault-free calls succeed iff nothing changed or the destination may be replaced, running images considered |
| Toolchain.AlreadyPresent | hostbootstrap/bootstrap.py:394-410 | Only the probe is run, up to six times while busy on Windows; a present tool is reported missing only when all six attempts met a file in use |
| Toolchain.StillBusyIff | hostbootstrap/bootstrap.py:396-410 | Asking present probes in turn finds one missing iff six attempts in a row meet a file in use, before any failure and before the last probe answers |
| Toolchain.BusyToolIsMissed | hostbootstrap/bootstrap.py:396-410 | The input: a present tool whose file is in use at six attempts is asked six times and taken for missing |
| Toolchain.EnsureLinuxBuildLibraries | hostbootstrap/bootstrap.py:413-427 | Success means the libraries are present; offline nothing is fetched; a host that has them is only probed, whatever fails, unless the probe stays busy online, and then the next command installs; a host that lacks them gets exactly the probe, the index update and the installation, and an error names the command that failed |
| Toolchain.EnsureStep | hostbootstrap/bootstrap.py:434-484 | A missing tool is established only online, by exactly the probe and its command, or the probe and a download whose digest matches the pinned one; an error names the command that failed |
| Toolchain.EnsureToolchain | hostbootstrap/bootstrap.py:430-445 | For any steps: success means every probe is satisfied, offline nothing is fetched or changed; a tool that was missing is added only by its own installing command; an error names the command that failed; a satisfied host is issued exactly the probes asked in turn, whatever fails, iff it is offline, not Windows, or no probe stays busy |
| Toolchain.SecondRunOnlyProbes | hostbootstrap/bootstrap.py:430-445 | Right behind a run that succeeded, a second run issues only probes, whatever fails, iff it is offline, not Windows, or no probe stays busy |
| Toolchain.BuildNative | hostbootstrap/bootstrap.py:527-566 | Offline without an index nothing is issued; otherwise an index refresh only online and only when not fresh, then the Cabal build in the run's mode, the location and the installation; an error names the last command issued, and a run in which every command works returns |
| Toolchain.BuildBinary | hostbootstrap/bootstrap.py:569-577 | Offline issues no fetching command and builds only offline; success satisfies every probe; if every command works, it succeeds iff it is online or nothing is missing; on a satisfied host only probes precede the build commands, whatever fails, iff it is offline, not Windows, or no probe stays busy |
| HaskellComments.StripHaskellComments | tests/test_packaging.py:12-33 | Blanking the character list in place with token search and depth count yields the stripped text |
| HaskellComments.TokenIsTheMatch | tests/test_packaging.py:14 | At every offset the scanner finds a token iff the token expression, read as a backtracking matcher reads it, matches there, with the width of its match (a block comment's match is its opening) |
| HaskellComments.CharacterLiterals | tests/test_packaging.py:14 | A tick begins a literal of three characters, or of four with an escape, or nothing |
| HaskellComments.FindBlockEnd | tests/test_packaging.py:22-29 | The delimiter loop finds the end of the nested block, or of the file if unterminated |
| HaskellComments.StripIsTheAutomaton | tests/test_packaging.py:14-33 | The stripper equals a character-by-character automaton with nesting depth, which takes its literals and line comments from the expression and not from the scanner |
| HaskellComments.StripPointwise | tests/test_packaging.py:30-32 | Length is kept, a character changes only to a space, and no newline changes |
| HaskellComments.LineNumbersAreOriginal | tests/test_packaging.py:49-55 | The line number of any offset of the stripped text is that of the source |
| HaskellComments.LineNumberCountsNewlines | tests/test_packaging.py:51-54 | A line number is one more than the newlines in front of the offset |
| HaskellComments.UnclosedStaysUnclosed | tests/test_packaging.py:14 | A quote whose scan fails across comments, escapes and character literals still fails after they are blanked |
| HaskellComments.StripIsIdempotent | tests/test_packaging.py:14-33 | A second pass finds the same literals at the same offsets, no comment, and changes nothing |
| CommandLine.LengthIsCost | hostbootstrap/process.py:112-114 | The rendered length is the sum of the quoted arguments and their separators |
| CommandLine.RenderedReadsBack | hostbootstrap/process.py:112-114 | A Windows program that splits its rendered command line by the C runtime's rules gets back exactly the arguments, whatever quotes, blanks and backslashes they hold |
| CommandLine.PlainIsRenderedAsItIs | hostbootstrap/process.py:112-114 | An argument with nothing to quote is rendered as itself |
| CommandLine.BlankIsQuoted | hostbootstrap/process.py:112-114 | An empty argument, or one with a blank and nothing to escape, is rendered between two quotes |
| StyleGates.GreedyStaysAhead | hostbootstrap/cli.py:500-515 | After any number of chunks the greedy cut is at least as far as any other cut that fits |
| StyleGates.GreedyIsMinimal | hostbootstrap/cli.py:500-515 | No order-preserving cut into chunks that fit has fewer chunks |
| StyleGates.ChunkSources | hostbootstrap/cli.py:500-515 | Refuses iff some source alone exceeds the budget, naming the first; else non-empty fitting chunks that join to the sources in order, as few as can be |
| StyleGates.FormatterGates | hostbootstrap/cli.py:492-524 | Over all roots, the numbered gates of each root's fewest chunks, root by root; refused iff some source exceeds the budget |
| StyleGates.GatesCoverSources | hostbootstrap/cli.py:495-524 | The gates' files are the sources of all roots, each once and in order, in runs that are not empty and fit the budget |
| StyleGates.StyleGates | hostbootstrap/cli.py:490-524 | For the committed formatter: refused iff its command over some source alone exceeds 16,384 characters; else every source is checked once, in order, by commands within that length, numbered from 1 in each root |
| ReloadOrder.Reloader.ReloadModule | hostbootstrap/test_all.py:70-83 | The recursive visit keeps the order claim, only extends the list, and leaves the call stack as it found it |
| ReloadOrder.PackageReloadOrder | hostbootstrap/test_all.py:66-87 | On any graph every module is listed, none twice and nothing else, each dependency before its user unless it depends on the user in turn |
| ReloadOrder.AcyclicOrderIsTopological | hostbootstrap/test_all.py:66-87 | Without cycles through two modules the order is topological |
| DigestReference.RepositoryIsRecovered | hostbootstrap/docker_ops.py:189-191 | For any repository, port or not, and any plain tag name, the repository is recovered |
| DigestReference.UntaggedIsItself | hostbootstrap/docker_ops.py:189-191 | A reference without a tag name is its own repository, even behind a host with a port |
| DigestReference.DockerNameForms | hostbootstrap/docker_ops.py:193-199 | Either Docker Hub prefix is taken off, and any other name is left as it is |
| DigestReference.PulledTagResolves | hostbootstrap/docker_ops.py:189-213 | The one entry Docker records for a pulled tag resolves to that repository's digest, with and without `docker.io/` on the tag |
| DigestReference.MatchesIff | hostbootstrap/docker_ops.py:200-207 | Any entry, however many marks: it matches iff 64 characters follow its first `@sha256:` and the text before its first `@` names the repository |
| DigestReference.OnlyListsResolve | hostbootstrap/docker_ops.py:182-187 | An answer that is no JSON, or no list, is refused as such |
| DigestReference.SingleMarkMatches | hostbootstrap/docker_ops.py:203-206 | A single-`@` entry matches iff its name is the repository's up to the Docker Hub prefixes and a 64-character sha256 digest follows |
| DigestReference.ReferenceNamesTheDigest | hostbootstrap/docker_ops.py:208-213 | If the items match at one place only, the reference is the repository with the digest of the item there, which names the repository up to the Docker Hub prefixes |
| DigestReference.SucceedsIffOneMatch | hostbootstrap/docker_ops.py:208-213 | Success iff exactly one place of the list matches |
| DigestReference.OrderDoesNotMatter | hostbootstrap/docker_ops.py:200-213 | Reordering the entries changes neither success nor the reference |
| DigestReference.ForeignEntriesDoNotMatter | hostbootstrap/docker_ops.py:200-213 | A non-matching entry anywhere changes nothing |
| CudaBase.SortDescending | hostbootstrap/base_image.py:193 | The same candidates, descending by version triple, those of one version in the order listed |
| CudaBase.LessIsTheOrder | hostbootstrap/base_image.py:193 | Versions are in a strict total order, by major, minor and patch in turn |
| CudaBase.FirstOfStableSortIsBest | hostbootstrap/base_image.py:193-196 | In any stable descending sort, the first candidate with the architecture is the newest such candidate, the earliest listed among equals |
| CudaBase.ResolveCudaBaseImage | hostbootstrap/base_image.py:156-199 | Over any page chain: none iff no tag with a version and the architecture is listed, else such a tag of the newest version, the first listed of it, under `nvidia/cuda` |

## Left out

- The Haskell core, its lifecycle, journal, ownership and handoff protocols: not Python; left out.
- HTTP resolvers and the URLs among the build arguments in `base_image.py`: network calls and string formatting.
- Click commands, help text, error hints, quality-gate running and maintainer authority: user interface and environment checks.
- `prereqs.py`, `substrate.py`, `self_update.py`, `check_code.py`, `_pytest_args`, Cabal-file discovery, `_parse_meminfo`: short dispatch and parsing.
- A second cancellation during `run`'s own cleanup, a grandchild holding a pipe open, and a child that cannot be started.
- The mirror's own encoding: the mirror is given the labelled text as it is.
- `_bare_literal_process_targets` beyond its line numbers: the word-boundary regular expression over the stripped text.
- Reading the version triple from a CUDA tag name: a tag carries the result of the pattern; malformed pages and entries raise before selection.
- JSON parsing of Docker's answers: the digest list arrives as items that are strings or are not.
- DockerBuild.BuildCommand: CPU counts are read as digits with or without a decimal point, exactly; other spellings that Python's `float` reads raise here, and its rounding of a fraction can differ by one microsecond of quota.
- DockerBuild.ParseReadsBack: the context is not itself spelled like an option; base commands pass a resolved directory.
- BuildBudget.CapsFitIff: memory sizes are exact integers; the source's float product and quotient are exact below 2^53 bytes.
- BaseTargets.BuildsInFlightFitTheHost: smoke builds carry no caps in the source and are not summed.
- BaseTargets.BaseWork: the resolved release versions and the CUDA parent arrive as values; resolving them is network access.
- Confluence.ConcurrentIsSolo: sequential mode orders the pipelines, and is the subject of `SequentialStopsAtFailure`.
- BinaryCopy.CopyIfChanged: which images run does not change during the call; all names are in one namespace, every entry is a regular file, and `mkstemp`'s retries are the one token it settles on; a file's mode and times are one value; other processes do not touch these names meanwhile.
- BinaryCopy.PreviousNameIsUnique: the suffix rule is that of Python 3.12 and 3.13; 3.14 treats leading dots differently.
- Toolchain.EnsureToolchain: an installation that succeeds establishes its probe and undoes no other; the five seconds between attempts are not modelled.
- StyleGates.StyleGates: the linter gates, the texts of the labels and the search for source files are not modelled; roots arrive with their sources.
- CommandLine.RenderedReadsBack: a pair of quotes inside a quoted part, which the C runtime reads as one, is never rendered, and its reading is not modelled; and the program's name is read like any other argument.
- Toolchain.BuildNative: the copy between locating and installing the identity is `BinaryCopy`'s subject.
