/** The `docker build` command line and what Docker reads from it. */
module DockerBuild {
  import opened BuildBudget
  import opened Seqs
  import opened Wrappers

  const CPU_PERIOD_US := 100_000

  /** Only the classic builder has caps, each of them optional. */
  datatype Builder = BuildKit | Classic(memory: Option<string>, memorySwap: Option<string>, cpus: Option<string>)

  datatype BuildSpec = BuildSpec(
    dockerfile: string, context: string, tags: seq<string>, buildArgs: seq<(string, string)>,
    target: Option<string>, pull: bool, noCache: bool, builder: Builder)

  // --- CPU counts ------------------------------------------------------------------------------

  function PowerOfTen(n: nat): (p: nat)
    ensures p > 0
  {
    if n == 0 then 1 else 10 * PowerOfTen(n - 1)
  }

  /** The number a text of digits, with or without a decimal point, means. */
  function FloatOf(text: string): (r: Option<real>)
    ensures r.Some? ==> r.value >= 0.0
  {
    var dot := IndexOf(text, '.');
    if text == "" || text == "." || !IsDecimal(text[..dot]) then None
    else if dot == |text| then Some(ParseDecimal(text) as real)
    else if !IsDecimal(text[dot + 1..]) then None
    else
      var fraction := text[dot + 1..];
      Some(ParseDecimal(text[..dot]) as real + ParseDecimal(fraction) as real / PowerOfTen(|fraction|) as real)
  }

  /** The CFS quota of a CPU count: its share of the period, cut to whole microseconds. */
  function Quota(cpus: real): (quota: nat)
    requires cpus >= 0.0
  {
    (cpus * CPU_PERIOD_US as real).Floor
  }

  lemma FloatOfWhole(text: string)
    requires text != "" && IsDecimal(text)
    ensures FloatOf(text) == Some(ParseDecimal(text) as real)
    ensures Quota(ParseDecimal(text) as real) == ParseDecimal(text) * CPU_PERIOD_US
  {
    var dot := IndexOf(text, '.');
    assert dot == |text| && text[..dot] == text;
    assert ParseDecimal(text) as real * CPU_PERIOD_US as real == (ParseDecimal(text) * CPU_PERIOD_US) as real;
  }

  predicate ReadableCpus(builder: Builder) {
    builder.Classic? && builder.cpus.Some? ==> FloatOf(builder.cpus.value).Some?
  }

  // --- The command -----------------------------------------------------------------------------

  /** The command as a list that is extended option by option; a CPU count that is no number
      raises. */
  method BuildCommand(spec: BuildSpec) returns (r: Result<seq<string>, string>)
    ensures r.Ok? <==> ReadableCpus(spec.builder)
    ensures r.Ok? ==> r.value == ["docker", "build"] + Render(Options(spec)) + [spec.context]
  {
    var cmd := ["docker", "build"];
    ghost var given: seq<Opt> := [];
    for i := 0 to |spec.buildArgs|
      invariant given == BuildArgs(spec.buildArgs[..i])
      invariant cmd == ["docker", "build"] + Render(given)
    {
      var (key, value) := spec.buildArgs[i];
      assert spec.buildArgs[..i + 1] == spec.buildArgs[..i] + [(key, value)];
      RenderMore(given, Pair("--build-arg", key + "=" + value));
      given := given + [Pair("--build-arg", key + "=" + value)];
      cmd := cmd + ["--build-arg", key + "=" + value];
    }
    assert spec.buildArgs[..|spec.buildArgs|] == spec.buildArgs;
    ghost var args := given;
    for i := 0 to |spec.tags|
      invariant given == args + Tags(spec.tags[..i])
      invariant cmd == ["docker", "build"] + Render(given)
    {
      assert spec.tags[..i + 1] == spec.tags[..i] + [spec.tags[i]];
      RenderMore(given, Pair("--tag", spec.tags[i]));
      given := given + [Pair("--tag", spec.tags[i])];
      cmd := cmd + ["--tag", spec.tags[i]];
    }
    assert spec.tags[..|spec.tags|] == spec.tags;
    r := RestOfCommand(spec, cmd, given);
  }

  method RestOfCommand(spec: BuildSpec, start: seq<string>, ghost given: seq<Opt>)
    returns (r: Result<seq<string>, string>)
    requires given == BuildArgs(spec.buildArgs) + Tags(spec.tags) && start == ["docker", "build"] + Render(given)
    ensures r.Ok? <==> ReadableCpus(spec.builder)
    ensures r.Ok? ==> r.value == ["docker", "build"] + Render(Options(spec)) + [spec.context]
  {
    var selection := SelectionArguments(spec);
    var limits := CapArguments(spec.builder);
    if limits.Err? {
      return limits;
    }
    var caps := limits.value;
    r := Ok(start + selection + caps + ["--file", spec.dockerfile] + [spec.context]);
    var file := [Pair("--file", spec.dockerfile)];
    RenderOfFour(given, Selection(spec), Caps(spec.builder), file);
    RenderOfOne("--file", spec.dockerfile);
    Assemble(["docker", "build"], Render(given), selection, caps, Render(file), [spec.context]);
  }

  lemma Assemble<T>(a: seq<T>, b: seq<T>, c: seq<T>, d: seq<T>, e: seq<T>, f: seq<T>)
    ensures a + b + c + d + e + f == a + (b + c + d + e) + f
  {
  }

  method SelectionArguments(spec: BuildSpec) returns (cmd: seq<string>)
    ensures cmd == Render(Selection(spec))
  {
    cmd := [];
    if spec.target.Some? {
      cmd := cmd + ["--target", spec.target.value];
    }
    if spec.pull {
      cmd := cmd + ["--pull"];
    }
    if spec.noCache {
      cmd := cmd + ["--no-cache"];
    }
    var target, pull := OptionalPair("--target", spec.target), OptionalSwitch("--pull", spec.pull);
    RenderOfTwo(target, pull);
    RenderOfTwo(target + pull, OptionalSwitch("--no-cache", spec.noCache));
  }

  method CapArguments(builder: Builder) returns (r: Result<seq<string>, string>)
    ensures r.Ok? <==> ReadableCpus(builder)
    ensures r.Ok? ==> r.value == Render(Caps(builder))
  {
    if builder.BuildKit? {
      return Ok([]);
    }
    var memory := MemoryArguments(builder);
    r := CpuArguments(builder.cpus);
    if r.Ok? {
      RenderOfTwo(OptionalPair("--memory", builder.memory) + OptionalPair("--memory-swap", builder.memorySwap),
                  CpuPairs(builder.cpus));
      r := Ok(memory + r.value);
    }
  }

  method MemoryArguments(builder: Builder) returns (cmd: seq<string>)
    requires builder.Classic?
    ensures cmd == Render(OptionalPair("--memory", builder.memory) + OptionalPair("--memory-swap", builder.memorySwap))
  {
    cmd := [];
    if builder.memory.Some? {
      cmd := cmd + ["--memory", builder.memory.value];
    }
    if builder.memorySwap.Some? {
      cmd := cmd + ["--memory-swap", builder.memorySwap.value];
    }
    RenderOfTwo(OptionalPair("--memory", builder.memory), OptionalPair("--memory-swap", builder.memorySwap));
  }

  method CpuArguments(cpus: Option<string>) returns (r: Result<seq<string>, string>)
    ensures r.Ok? <==> cpus.None? || FloatOf(cpus.value).Some?
    ensures r.Ok? ==> r.value == Render(CpuPairs(cpus))
  {
    if cpus.None? {
      return Ok([]);
    }
    var number := FloatOf(cpus.value);
    if number.None? {
      return Err(cpus.value);
    }
    var quota := Quota(number.value);
    RenderMore([Pair("--cpu-period", Decimal(CPU_PERIOD_US))], Pair("--cpu-quota", Decimal(quota)));
    RenderOfOne("--cpu-period", Decimal(CPU_PERIOD_US));
    return Ok(["--cpu-period", Decimal(CPU_PERIOD_US), "--cpu-quota", Decimal(quota)]);
  }

  // --- Options as Docker reads them ------------------------------------------------------------

  /** An option with its value, or a switch. */
  datatype Opt = Pair(name: string, value: string) | Switch(name: string)

  const VALUED: set<string> := {"--build-arg", "--tag", "--target", "--memory", "--memory-swap",
                                "--cpu-period", "--cpu-quota", "--file"}
  const SWITCHES: set<string> := {"--pull", "--no-cache"}

  function Render(opts: seq<Opt>): seq<string> {
    if opts == [] then []
    else (match opts[0] case Pair(n, v) => [n, v] case Switch(n) => [n]) + Render(opts[1..])
  }

  function BuildArgs(args: seq<(string, string)>): seq<Opt> {
    seq(|args|, i requires 0 <= i < |args| => Pair("--build-arg", args[i].0 + "=" + args[i].1))
  }

  function Tags(tags: seq<string>): seq<Opt> {
    seq(|tags|, i requires 0 <= i < |tags| => Pair("--tag", tags[i]))
  }

  function OptionalSwitch(name: string, given: bool): seq<Opt> {
    if given then [Switch(name)] else []
  }

  function Selection(spec: BuildSpec): seq<Opt> {
    OptionalPair("--target", spec.target) + OptionalSwitch("--pull", spec.pull)
    + OptionalSwitch("--no-cache", spec.noCache)
  }

  function OptionalPair(name: string, value: Option<string>): seq<Opt> {
    if value.Some? then [Pair(name, value.value)] else []
  }

  function CpuPairs(cpus: Option<string>): seq<Opt>
    requires cpus.Some? ==> FloatOf(cpus.value).Some?
  {
    if cpus.None? then []
    else
      [Pair("--cpu-period", Decimal(CPU_PERIOD_US)),
       Pair("--cpu-quota", Decimal(Quota(FloatOf(cpus.value).value)))]
  }

  function Caps(builder: Builder): seq<Opt>
    requires ReadableCpus(builder)
  {
    if builder.BuildKit? then []
    else
      OptionalPair("--memory", builder.memory) + OptionalPair("--memory-swap", builder.memorySwap)
      + CpuPairs(builder.cpus)
  }

  function Options(spec: BuildSpec): seq<Opt>
    requires ReadableCpus(spec.builder)
  {
    BuildArgs(spec.buildArgs) + Tags(spec.tags) + Selection(spec) + Caps(spec.builder)
    + [Pair("--file", spec.dockerfile)]
  }

  /** Docker's reading of the arguments: options up to the first argument that is none. */
  function Parse(args: seq<string>): (seq<Opt>, seq<string>) {
    if args == [] then ([], [])
    else if args[0] in SWITCHES then
      var (opts, rest) := Parse(args[1..]); ([Switch(args[0])] + opts, rest)
    else if args[0] in VALUED && |args| > 1 then
      var (opts, rest) := Parse(args[2..]); ([Pair(args[0], args[1])] + opts, rest)
    else ([], args)
  }

  predicate Known(opt: Opt) {
    match opt case Pair(n, _) => n in VALUED case Switch(n) => n in SWITCHES
  }

  /** Docker reads back exactly the options that were rendered, whatever their values look like,
      and the build context as the one argument left. */
  lemma {:induction false} ParseReadsBack(opts: seq<Opt>, context: string)
    requires AllKnown(opts)
    requires context !in VALUED && context !in SWITCHES
    ensures Parse(Render(opts) + [context]) == (opts, [context])
  {
    var args := Render(opts) + [context];
    if opts == [] {
      assert args == [context];
    } else {
      var opt := opts[0];
      assert Known(opt);
      ParseReadsBack(opts[1..], context);
      var n := if opt.Pair? then 2 else 1;
      assert args[n..] == Render(opts[1..]) + [context];
      assert args[0] == opt.name && (opt.Pair? ==> args[1] == opt.value);
      assert opts == [opt] + opts[1..];
    }
  }

  lemma {:induction false} RenderOfTwo(a: seq<Opt>, b: seq<Opt>)
    ensures Render(a + b) == Render(a) + Render(b)
  {
    if a == [] {
      assert a + b == b;
    } else {
      assert (a + b)[1..] == a[1..] + b;
      RenderOfTwo(a[1..], b);
    }
  }

  lemma RenderMore(given: seq<Opt>, more: Opt)
    requires more.Pair?
    ensures Render(given + [more]) == Render(given) + [more.name, more.value]
  {
    RenderOfTwo(given, [more]);
    assert Render([more]) == [more.name, more.value] + Render([]);
  }

  lemma RenderOfOne(name: string, value: string)
    ensures Render([Pair(name, value)]) == [name, value]
  {
    assert Render([Pair(name, value)]) == [name, value] + Render([]);
  }

  lemma RenderOfFour(a: seq<Opt>, b: seq<Opt>, c: seq<Opt>, d: seq<Opt>)
    ensures Render(a + b + c + d) == Render(a) + Render(b) + Render(c) + Render(d)
  {
    RenderOfTwo(a, b);
    RenderOfTwo(a + b, c);
    RenderOfTwo(a + b + c, d);
  }

  predicate AllKnown(opts: seq<Opt>) {
    forall k :: 0 <= k < |opts| ==> Known(opts[k])
  }

  lemma AllKnownOfTwo(a: seq<Opt>, b: seq<Opt>)
    requires AllKnown(a) && AllKnown(b)
    ensures AllKnown(a + b)
  {
  }

  lemma OptionsAreKnown(spec: BuildSpec)
    requires ReadableCpus(spec.builder)
    ensures AllKnown(Options(spec))
  {
    AllKnownOfTwo(BuildArgs(spec.buildArgs), Tags(spec.tags));
    AllKnownOfTwo(BuildArgs(spec.buildArgs) + Tags(spec.tags), Selection(spec));
    AllKnownOfTwo(BuildArgs(spec.buildArgs) + Tags(spec.tags) + Selection(spec), Caps(spec.builder));
    AllKnownOfTwo(BuildArgs(spec.buildArgs) + Tags(spec.tags) + Selection(spec) + Caps(spec.builder),
                  [Pair("--file", spec.dockerfile)]);
  }

  /** The value an option has for Docker: the last one given. */
  function ValueOf(opts: seq<Opt>, name: string): Option<string> {
    if opts == [] then None
    else
      var last := opts[|opts| - 1];
      if last.Pair? && last.name == name then Some(last.value) else ValueOf(opts[..|opts| - 1], name)
  }

  lemma ValueOfAppended(opts: seq<Opt>, last: Opt, name: string)
    ensures ValueOf(opts + [last], name)
      == if last.Pair? && last.name == name then Some(last.value) else ValueOf(opts, name)
  {
    assert (opts + [last])[..|opts|] == opts;
  }

  lemma ValueOfCapped(front: seq<Opt>, a: Opt, b: Opt, c: Opt, d: Opt, e: Opt)
    requires a.Pair? && b.Pair? && c.Pair? && d.Pair? && e.Pair?
    requires b.name != a.name && c.name != a.name && d.name != a.name && e.name != a.name && e.name != d.name
    ensures ValueOf(front + [a, b, c, d] + [e], a.name) == Some(a.value)
    ensures ValueOf(front + [a, b, c, d] + [e], d.name) == Some(d.value)
  {
    forall name | name == a.name || name == d.name
      ensures ValueOf(front + [a, b, c, d] + [e], name) == if name == a.name then Some(a.value) else Some(d.value)
    {
      ValueOfAppended(front, a, name);
      ValueOfAppended(front + [a], b, name);
      ValueOfAppended(front + [a] + [b], c, name);
      ValueOfAppended(front + [a] + [b] + [c], d, name);
      ValueOfAppended(front + [a, b, c, d], e, name);
      assert front + [a, b, c, d] == front + [a] + [b] + [c] + [d];
    }
  }

  predicate IsMemory(value: Option<string>, bytes: nat) {
    && value.Some? && value.value != "" && value.value[|value.value| - 1] == 'm'
    && IsDecimal(value.value[..|value.value| - 1]) && MemoryBytes(value.value) == bytes
  }

  predicate IsCount(value: Option<string>, n: nat) {
    value.Some? && IsDecimal(value.value) && ParseDecimal(value.value) == n
  }

  /** The memory cap and the CPU quota that Docker reads. */
  predicate HasCaps(opts: seq<Opt>, memory: nat, quota: nat) {
    IsMemory(ValueOf(opts, "--memory"), memory) && IsCount(ValueOf(opts, "--cpu-quota"), quota)
  }

  /** The builder a budget asks for. */
  function BuilderFor(budget: Option<Budget>): Builder {
    if budget.None? then BuildKit
    else Classic(Some(budget.value.dockerMemory), Some(budget.value.dockerMemorySwap), Some(budget.value.dockerCpus))
  }

  /** A base build under a budget: the memory cap and CPU quota Docker reads from the command are
      the budget's numbers. */
  lemma BudgetReachesDocker(spec: BuildSpec, res: HostResources, concurrency: nat)
    requires spec.context !in VALUED && spec.context !in SWITCHES
    requires spec.builder == BuilderFor(Some(ComputeBuildBudget(res, concurrency)))
    ensures ReadableCpus(spec.builder)
    ensures var (opts, rest) := Parse(Render(Options(spec)) + [spec.context]);
      rest == [spec.context] && HasCaps(opts, CapBytes(res, concurrency), CpuBudget(res, concurrency) * CPU_PERIOD_US)
  {
    var quota := CpuBudget(res, concurrency) * CPU_PERIOD_US;
    DecimalRoundTrip(quota);
    BudgetReadsBack(res, concurrency);
    FloatOfWhole(spec.builder.cpus.value);
    OptionsAreKnown(spec);
    ParseReadsBack(Options(spec), spec.context);
    CapsAreLast(spec, Decimal(quota));
  }

  /** The values Docker reads for the caps are those of the cap options, which only the Dockerfile's
      follows. */
  lemma CapsAreLast(spec: BuildSpec, quota: string)
    requires spec.builder.Classic? && ReadableCpus(spec.builder)
    requires spec.builder.memory.Some? && spec.builder.memorySwap.Some? && spec.builder.cpus.Some?
    requires Decimal(Quota(FloatOf(spec.builder.cpus.value).value)) == quota
    ensures ValueOf(Options(spec), "--memory") == spec.builder.memory
    ensures ValueOf(Options(spec), "--cpu-quota") == Some(quota)
  {
    var front := BuildArgs(spec.buildArgs) + Tags(spec.tags) + Selection(spec);
    var memory := Pair("--memory", spec.builder.memory.value);
    var swap := Pair("--memory-swap", spec.builder.memorySwap.value);
    var period, limit := Pair("--cpu-period", Decimal(CPU_PERIOD_US)), Pair("--cpu-quota", quota);
    CapsInOrder(spec.builder, memory, swap, period, limit);
    ValueOfCapped(front, memory, swap, period, limit, Pair("--file", spec.dockerfile));
  }

  lemma CapsInOrder(builder: Builder, memory: Opt, swap: Opt, period: Opt, limit: Opt)
    requires builder.Classic? && ReadableCpus(builder)
    requires OptionalPair("--memory", builder.memory) == [memory]
    requires OptionalPair("--memory-swap", builder.memorySwap) == [swap]
    requires CpuPairs(builder.cpus) == [period, limit]
    ensures Caps(builder) == [memory, swap, period, limit]
  {
  }

  // --- What a spec asks Docker for ---------------------------------------------------------------

  /** The values given to an option, in order. */
  function ValuesOf(opts: seq<Opt>, name: string): seq<string> {
    if opts == [] then []
    else (if opts[0].Pair? && opts[0].name == name then [opts[0].value] else []) + ValuesOf(opts[1..], name)
  }

  lemma {:induction false} ValuesOfTwo(a: seq<Opt>, b: seq<Opt>, name: string)
    ensures ValuesOf(a + b, name) == ValuesOf(a, name) + ValuesOf(b, name)
  {
    if a == [] {
      assert a + b == b;
    } else {
      assert (a + b)[1..] == a[1..] + b;
      ValuesOfTwo(a[1..], b, name);
      var here := if a[0].Pair? && a[0].name == name then [a[0].value] else [];
      Associate(here, ValuesOf(a[1..], name), ValuesOf(b, name));
    }
  }

  lemma {:induction false} ValuesOfTags(tags: seq<string>, name: string)
    ensures ValuesOf(Tags(tags), name) == if name == "--tag" then tags else []
  {
    if tags == [] {
    } else {
      assert Tags(tags)[1..] == Tags(tags[1..]);
      ValuesOfTags(tags[1..], name);
      HeadAndTail(tags);
    }
  }

  function KeyValues(args: seq<(string, string)>): seq<string> {
    seq(|args|, i requires 0 <= i < |args| => args[i].0 + "=" + args[i].1)
  }

  lemma {:induction false} ValuesOfBuildArgs(args: seq<(string, string)>, name: string)
    ensures ValuesOf(BuildArgs(args), name) == if name == "--build-arg" then KeyValues(args) else []
  {
    if args == [] {
    } else {
      assert BuildArgs(args)[1..] == BuildArgs(args[1..]);
      ValuesOfBuildArgs(args[1..], name);
      assert KeyValues(args) == [args[0].0 + "=" + args[0].1] + KeyValues(args[1..]);
    }
  }

  lemma ValuesOfOne(opt: Opt, name: string)
    ensures ValuesOf([opt], name) == if opt.Pair? && opt.name == name then [opt.value] else []
  {
    assert [opt][1..] == [];
  }

  function Given(value: Option<string>): seq<string> {
    if value.Some? then [value.value] else []
  }

  lemma ValuesOfOptionalPair(option: string, value: Option<string>, name: string)
    ensures ValuesOf(OptionalPair(option, value), name) == if name == option then Given(value) else []
  {
    if value.Some? {
      ValuesOfOne(Pair(option, value.value), name);
    }
  }

  lemma ValuesOfSwitch(option: string, given: bool, name: string)
    ensures ValuesOf(OptionalSwitch(option, given), name) == []
  {
    if given {
      ValuesOfOne(Switch(option), name);
    }
  }

  lemma ValuesOfSelection(spec: BuildSpec, name: string)
    ensures ValuesOf(Selection(spec), name) == if name == "--target" then Given(spec.target) else []
  {
    var target, pull := OptionalPair("--target", spec.target), OptionalSwitch("--pull", spec.pull);
    var noCache := OptionalSwitch("--no-cache", spec.noCache);
    ValuesOfTwo(target + pull, noCache, name);
    ValuesOfTwo(target, pull, name);
    ValuesOfOptionalPair("--target", spec.target, name);
    ValuesOfSwitch("--pull", spec.pull, name);
    ValuesOfSwitch("--no-cache", spec.noCache, name);
  }

  function QuotaGiven(cpus: Option<string>): Option<string>
    requires cpus.Some? ==> FloatOf(cpus.value).Some?
  {
    if cpus.None? then None else Some(Decimal((FloatOf(cpus.value).value * 100_000.0).Floor))
  }

  lemma ValuesOfCpuPairs(cpus: Option<string>, name: string)
    requires cpus.Some? ==> FloatOf(cpus.value).Some?
    ensures ValuesOf(CpuPairs(cpus), name) ==
      if name == "--cpu-period" && cpus.Some? then [Decimal(100_000)]
      else if name == "--cpu-quota" then Given(QuotaGiven(cpus)) else []
  {
    if cpus.Some? {
      var period, quota := Pair("--cpu-period", Decimal(CPU_PERIOD_US)), Pair("--cpu-quota", QuotaGiven(cpus).value);
      assert CpuPairs(cpus) == [period] + [quota];
      ValuesOfTwo([period], [quota], name);
      ValuesOfOne(period, name);
      ValuesOfOne(quota, name);
    }
  }

  /** Every value a spec's options give, by option. */
  function ValuesAsked(spec: BuildSpec, name: string): seq<string>
    requires ReadableCpus(spec.builder)
  {
    if name == "--build-arg" then KeyValues(spec.buildArgs)
    else if name == "--tag" then spec.tags
    else if name == "--target" then Given(spec.target)
    else if name == "--file" then [spec.dockerfile]
    else if spec.builder.BuildKit? then []
    else if name == "--memory" then Given(spec.builder.memory)
    else if name == "--memory-swap" then Given(spec.builder.memorySwap)
    else if name == "--cpu-period" && spec.builder.cpus.Some? then ["100000"]
    else if name == "--cpu-quota" then Given(QuotaGiven(spec.builder.cpus))
    else []
  }

  lemma ValuesOfCaps(builder: Builder, name: string)
    requires ReadableCpus(builder)
    ensures ValuesOf(Caps(builder), name) ==
      if builder.BuildKit? then []
      else if name == "--memory" then Given(builder.memory)
      else if name == "--memory-swap" then Given(builder.memorySwap)
      else if name == "--cpu-period" && builder.cpus.Some? then [Decimal(100_000)]
      else if name == "--cpu-quota" then Given(QuotaGiven(builder.cpus))
      else []
  {
    if builder.Classic? {
      var memory, swap := OptionalPair("--memory", builder.memory), OptionalPair("--memory-swap", builder.memorySwap);
      ValuesOfTwo(memory + swap, CpuPairs(builder.cpus), name);
      ValuesOfTwo(memory, swap, name);
      ValuesOfOptionalPair("--memory", builder.memory, name);
      ValuesOfOptionalPair("--memory-swap", builder.memorySwap, name);
      ValuesOfCpuPairs(builder.cpus, name);
    }
  }

  lemma PeriodIsWritten()
    ensures Decimal(100_000) == "100000"
  {
    assert Decimal(10) == Decimal(1) + "0";
    assert Decimal(100) == Decimal(10) + "0";
    assert Decimal(1000) == Decimal(100) + "0";
    assert Decimal(10_000) == Decimal(1000) + "0";
    assert Decimal(100_000) == Decimal(10_000) + "0";
    assert Decimal(1) == "1";
  }

  /** The options of a spec give Docker its values, in its order, and no others. */
  lemma OptionsAskForTheSpec(spec: BuildSpec, name: string)
    requires ReadableCpus(spec.builder)
    ensures ValuesOf(Options(spec), name) == ValuesAsked(spec, name)
  {
    var args, tags, file := BuildArgs(spec.buildArgs), Tags(spec.tags), Pair("--file", spec.dockerfile);
    ValuesOfFive(args, tags, Selection(spec), Caps(spec.builder), [file], name);
    ValuesOfBuildArgs(spec.buildArgs, name);
    ValuesOfTags(spec.tags, name);
    ValuesOfSelection(spec, name);
    ValuesOfCaps(spec.builder, name);
    ValuesOfOne(file, name);
    PeriodIsWritten();
    OneOfFive(KeyValues(spec.buildArgs), spec.tags, Given(spec.target), ValuesOf(Caps(spec.builder), name),
              [spec.dockerfile], name);
  }

  lemma ValuesOfFive(a: seq<Opt>, b: seq<Opt>, c: seq<Opt>, d: seq<Opt>, e: seq<Opt>, name: string)
    ensures ValuesOf(a + b + c + d + e, name)
         == ValuesOf(a, name) + ValuesOf(b, name) + ValuesOf(c, name) + ValuesOf(d, name) + ValuesOf(e, name)
  {
    ValuesOfTwo(a, b, name);
    ValuesOfTwo(a + b, c, name);
    ValuesOfTwo(a + b + c, d, name);
    ValuesOfTwo(a + b + c + d, e, name);
  }

  lemma OneOfFive<T>(a: seq<T>, b: seq<T>, c: seq<T>, d: seq<T>, e: seq<T>, name: string)
    requires name in {"--build-arg", "--tag", "--target", "--file"} ==> d == []
    ensures (if name == "--build-arg" then a else []) + (if name == "--tag" then b else [])
          + (if name == "--target" then c else []) + d + (if name == "--file" then e else [])
         == if name == "--build-arg" then a else if name == "--tag" then b else if name == "--target" then c
            else if name == "--file" then e else d
  {
    assert [] + d == d && [] + a == a;
  }

  /** And the switches it sets, and no others. */
  lemma SwitchesAskForTheSpec(spec: BuildSpec)
    requires ReadableCpus(spec.builder)
    ensures Switch("--pull") in Options(spec) <==> spec.pull
    ensures Switch("--no-cache") in Options(spec) <==> spec.noCache
  {
    CapsArePairs(spec.builder);
    OnlyThere(BuildArgs(spec.buildArgs) + Tags(spec.tags), Selection(spec), Caps(spec.builder),
              [Pair("--file", spec.dockerfile)]);
    SwitchesSelected(spec);
  }

  lemma SwitchesSelected(spec: BuildSpec)
    ensures Switch("--pull") in Selection(spec) <==> spec.pull
    ensures Switch("--no-cache") in Selection(spec) <==> spec.noCache
  {
    var target, pull := OptionalPair("--target", spec.target), OptionalSwitch("--pull", spec.pull);
    var noCache := OptionalSwitch("--no-cache", spec.noCache);
    assert spec.pull ==> pull[0] == Switch("--pull");
    assert spec.noCache ==> noCache[0] == Switch("--no-cache");
    assert "--pull" != "--no-cache" by { assert "--pull"[2] != "--no-cache"[2]; }
    assert forall opt :: opt in target + pull + noCache <==> opt in target || opt in pull || opt in noCache;
  }

  lemma CapsArePairs(builder: Builder)
    requires ReadableCpus(builder)
    ensures forall opt :: opt in Caps(builder) ==> opt.Pair?
  {
  }

  lemma OnlyThere(front: seq<Opt>, selection: seq<Opt>, caps: seq<Opt>, file: seq<Opt>)
    requires forall opt :: opt in front || opt in caps || opt in file ==> opt.Pair?
    ensures forall opt: Opt :: opt.Switch? ==> (opt in front + selection + caps + file <==> opt in selection)
  {
  }

  /** Two and a half CPUs. */
  lemma AFraction()
    ensures FloatOf("2.5") == Some(2.5) && Quota(2.5) == 250_000
  {
    assert IndexOf("2.5", '.') == 1;
    assert "2.5"[..1] == "2" && "2.5"[2..] == "5";
    assert ParseDecimal("2") == 2 && ParseDecimal("5") == 5 by {
      assert "2"[..0] == "" && "5"[..0] == "";
    }
    assert PowerOfTen(1) == 10;
  }
}
