/** The base images: their references, what they are built from, and the build that makes one. */
module BaseImage {
  import opened BuildBudget
  import opened DockerBuild
  import opened Seqs
  import opened Wrappers

  datatype Flavor = Cpu | Cuda
  datatype Arch = Amd64 | Arm64

  function FlavorName(f: Flavor): string { match f case Cpu => "cpu" case Cuda => "cuda" }
  function ArchName(a: Arch): string { match a case Amd64 => "amd64" case Arm64 => "arm64" }

  const REPOSITORY := "docker.io/tuee22/hostbootstrap"

  function BaseTag(f: Flavor, a: Arch): string {
    "basecontainer-" + FlavorName(f) + "-" + ArchName(a)
  }

  function BaseImageRef(f: Flavor, a: Arch): string {
    REPOSITORY + ":" + BaseTag(f, a)
  }

  function SmokeTag(f: Flavor, a: Arch): string {
    "hostbootstrap-base-compatibility:" + FlavorName(f) + "-" + ArchName(a)
  }

  lemma TheTags()
    ensures BaseTag(Cpu, Amd64) == "basecontainer-cpu-amd64" && BaseTag(Cpu, Arm64) == "basecontainer-cpu-arm64"
    ensures BaseTag(Cuda, Amd64) == "basecontainer-cuda-amd64" && BaseTag(Cuda, Arm64) == "basecontainer-cuda-arm64"
  {
  }

  lemma TheSmokeTags()
    ensures SmokeTag(Cpu, Amd64) == "hostbootstrap-base-compatibility:cpu-amd64"
    ensures SmokeTag(Cpu, Arm64) == "hostbootstrap-base-compatibility:cpu-arm64"
    ensures SmokeTag(Cuda, Amd64) == "hostbootstrap-base-compatibility:cuda-amd64"
    ensures SmokeTag(Cuda, Arm64) == "hostbootstrap-base-compatibility:cuda-arm64"
  {
  }

  /** The four references there are. */
  lemma TheReferences()
    ensures forall f, a :: BaseImageRef(f, a) == "docker.io/tuee22/hostbootstrap" + ":" + BaseTag(f, a)
    ensures BaseTag(Cpu, Amd64) == "basecontainer-cpu-amd64" && BaseTag(Cpu, Arm64) == "basecontainer-cpu-arm64"
    ensures BaseTag(Cuda, Amd64) == "basecontainer-cuda-amd64" && BaseTag(Cuda, Arm64) == "basecontainer-cuda-arm64"
  {
    TheTags();
  }

  lemma TagsAreApart()
    ensures forall f, a, g, b :: BaseImageRef(f, a) == BaseImageRef(g, b) ==> f == g && a == b
    ensures forall f, a, g, b :: BaseImageRef(f, a) != SmokeTag(g, b)
  {
    forall f, a, g, b
      ensures BaseImageRef(f, a) == BaseImageRef(g, b) ==> f == g && a == b
      ensures BaseImageRef(f, a) != SmokeTag(g, b)
    {
      assert BaseImageRef(f, a)[0] == 'd' && SmokeTag(g, b)[0] == 'h';
      var n := |REPOSITORY| + 16;
      assert BaseImageRef(f, a)[n] == FlavorName(f)[1];
      assert BaseImageRef(f, a)[|BaseImageRef(f, a)| - 3] == ArchName(a)[2];
    }
  }

  // --- Parents ---------------------------------------------------------------------------------

  const CPU_BASE_IMAGE := "ubuntu:24.04"
  const CUDA_REPOSITORY := "nvidia/cuda:"

  /** The images a flavor may be built on: the one Ubuntu release, or any tag of the CUDA repository. */
  predicate IsParent(f: Flavor, parent: string) {
    match f case Cpu => parent == CPU_BASE_IMAGE case Cuda => CUDA_REPOSITORY <= parent
  }

  /** What a flavor is built on; `cuda` is the resolved CUDA parent. */
  function ParentOf(f: Flavor, cuda: Option<string>): string
    requires f.Cuda? ==> cuda.Some?
  {
    match f case Cpu => CPU_BASE_IMAGE case Cuda => cuda.value
  }

  lemma ParentsAreApart(f: Flavor, g: Flavor, parent: string)
    requires IsParent(f, parent) && IsParent(g, parent)
    ensures f == g
  {
    assert CPU_BASE_IMAGE[0] != CUDA_REPOSITORY[0];
  }

  // --- The build -------------------------------------------------------------------------------

  /** The Dockerfile's arguments; `versions` are the resolved releases between flavor and jobs. */
  datatype BaseArgs = BaseArgs(baseImage: string, flavor: string, versions: seq<(string, string)>,
                               cabalJobs: string, rtsOpts: string)

  function AsBuildArgs(args: BaseArgs): seq<(string, string)> {
    [("BASE_IMAGE", args.baseImage), ("IMAGE_FLAVOR", args.flavor)] + args.versions
    + [("CABAL_BUILD_JOBS", args.cabalJobs), ("GHC_RTS_OPTS", args.rtsOpts)]
  }

  /** `cuda` is the resolved CUDA parent, if there is one for the architecture. */
  function ComputeBuildArgs(f: Flavor, cuda: Option<string>, versions: seq<(string, string)>): Option<BaseArgs> {
    if f.Cuda? && cuda.None? then None
    else Some(BaseArgs(ParentOf(f, cuda), FlavorName(f), versions, "1", ""))
  }

  function BuildSpecFor(f: Flavor, a: Arch, context: string, args: BaseArgs, budget: Option<Budget>): BuildSpec {
    var resolved := if budget.None? then args else args.(cabalJobs := Decimal(budget.value.cabalJobs));
    BuildSpec(context + "/docker/basecontainer.Dockerfile", context, [BaseImageRef(f, a)], AsBuildArgs(resolved),
              None, true, true, BuilderFor(budget))
  }

  /** What a base build is asked for: the architecture, the context, the resolved CUDA parent, the
      releases each flavor resolved, and the budget. */
  datatype Request = Request(arch: Arch, context: string, cuda: Option<string>,
                             versions: Flavor -> seq<(string, string)>, budget: Option<Budget>) {
    /** The budget's CPU count is a number and the parent is of the CUDA repository. */
    ghost predicate Valid() {
      ReadableCpus(BuilderFor(budget)) && (cuda.Some? ==> CUDA_REPOSITORY <= cuda.value)
    }

    function Jobs(): string { if budget.None? then "1" else Decimal(budget.value.cabalJobs) }
  }

  /** What Docker is asked for a base image: its one tag, from scratch and fresh from a parent of its
      own flavor, with the resolved releases, the budget's jobs and the builder that honours the
      budget's caps. */
  predicate IsBaseBuild(spec: BuildSpec, f: Flavor, parent: string, q: Request) {
    && IsParent(f, parent) && BuiltOn(spec, parent) && spec.context == q.context
    && spec.builder == BuilderFor(q.budget) && ReadableCpus(spec.builder)
    && ValuesOf(Options(spec), "--tag") == [BaseImageRef(f, q.arch)]
    && ValuesOf(Options(spec), "--file") == [q.context + "/docker/basecontainer.Dockerfile"]
    && ValuesOf(Options(spec), "--target") == []
    && ValuesOf(Options(spec), "--build-arg") == BaseArguments(f, parent, q)
    && Switch("--pull") in Options(spec) && Switch("--no-cache") in Options(spec)
  }

  function BaseArguments(f: Flavor, parent: string, q: Request): seq<string> {
    ["BASE_IMAGE=" + parent, if f.Cpu? then "IMAGE_FLAVOR=cpu" else "IMAGE_FLAVOR=cuda"] + KeyValues(q.versions(f))
    + ["CABAL_BUILD_JOBS=" + q.Jobs(), "GHC_RTS_OPTS="]
  }

  /** The build's `BASE_IMAGE`, its first argument. */
  predicate BuiltOn(spec: BuildSpec, parent: string) {
    spec.buildArgs != [] && spec.buildArgs[0] == ("BASE_IMAGE", parent)
  }

  lemma KeyValuesOfTwo(a: seq<(string, string)>, b: seq<(string, string)>)
    ensures KeyValues(a + b) == KeyValues(a) + KeyValues(b)
  {
  }

  lemma ArgumentsAreBase(f: Flavor, parent: string, q: Request)
    ensures KeyValues(AsBuildArgs(BaseArgs(parent, FlavorName(f), q.versions(f), q.Jobs(), "")))
         == BaseArguments(f, parent, q)
  {
    var front := [("BASE_IMAGE", parent), ("IMAGE_FLAVOR", FlavorName(f))];
    var back := [("CABAL_BUILD_JOBS", q.Jobs()), ("GHC_RTS_OPTS", "")];
    KeyValuesOfTwo(front + q.versions(f), back);
    KeyValuesOfTwo(front, q.versions(f));
    assert "BASE_IMAGE" + "=" == "BASE_IMAGE=" && "IMAGE_FLAVOR" + "=" == "IMAGE_FLAVOR=";
    assert "CABAL_BUILD_JOBS" + "=" == "CABAL_BUILD_JOBS=" && "GHC_RTS_OPTS" + "=" + "" == "GHC_RTS_OPTS=";
    assert "IMAGE_FLAVOR=" + "cpu" == "IMAGE_FLAVOR=cpu" && "IMAGE_FLAVOR=" + "cuda" == "IMAGE_FLAVOR=cuda";
    assert KeyValues(front) == ["BASE_IMAGE=" + parent, if f.Cpu? then "IMAGE_FLAVOR=cpu" else "IMAGE_FLAVOR=cuda"];
    assert KeyValues(back) == ["CABAL_BUILD_JOBS=" + q.Jobs(), "GHC_RTS_OPTS="];
  }

  lemma BuildSpecIsBaseBuild(f: Flavor, q: Request)
    requires q.Valid() && ComputeBuildArgs(f, q.cuda, q.versions(f)).Some?
    ensures var args := ComputeBuildArgs(f, q.cuda, q.versions(f)).value;
      IsBaseBuild(BuildSpecFor(f, q.arch, q.context, args, q.budget), f, ParentOf(f, q.cuda), q)
  {
    var spec := BuildSpecFor(f, q.arch, q.context, ComputeBuildArgs(f, q.cuda, q.versions(f)).value, q.budget);
    OptionsAskForTheSpec(spec, "--tag");
    OptionsAskForTheSpec(spec, "--file");
    OptionsAskForTheSpec(spec, "--target");
    OptionsAskForTheSpec(spec, "--build-arg");
    SwitchesAskForTheSpec(spec);
    ArgumentsAreBase(f, ParentOf(f, q.cuda), q);
  }
}
