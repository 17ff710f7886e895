/** The argument budget of the formatter gates. */
module StyleGates {
  import opened CommandLine
  import opened Seqs
  import opened Wrappers

  // --- Chunking ------------------------------------------------------------------------------

  /** A command that files are appended to, and the longest rendering it may have. */
  datatype Tool = Tool(command: seq<string>, budget: nat)

  const FORMATTER := Tool(["fourmolu", "--mode", "check"], 16_384)

  predicate Fits(tool: Tool, files: seq<string>) {
    RenderedLength(tool.command + files) <= tool.budget
  }

  predicate AllFit(tool: Tool, chunks: seq<seq<string>>) {
    forall k :: 0 <= k < |chunks| ==> Fits(tool, chunks[k])
  }

  predicate NoneEmpty(chunks: seq<seq<string>>) {
    forall k :: 0 <= k < |chunks| ==> chunks[k] != []
  }

  lemma FitsByCost(tool: Tool, files: seq<string>)
    requires files != []
    ensures Fits(tool, files) <==> Cost(tool.command) + Cost(files) <= tool.budget + 1
  {
    LengthIsCost(tool.command + files);
    CostOfTwo(tool.command, files);
  }

  /** Part of what fits, fits. */
  lemma PartFits(tool: Tool, before: seq<string>, part: seq<string>, after: seq<string>)
    requires part != [] && Fits(tool, before + part + after)
    ensures Fits(tool, part)
  {
    CostOfTwo(before + part, after);
    CostOfTwo(before, part);
    FitsByCost(tool, before + part + after);
    FitsByCost(tool, part);
  }

  /** Each chunk is full: the first file of the next one would exceed the budget. */
  predicate Greedy(tool: Tool, chunks: seq<seq<string>>) {
    forall k :: 0 <= k < |chunks| - 1 ==> IsFull(tool, chunks, k)
  }

  predicate IsFull(tool: Tool, chunks: seq<seq<string>>, k: nat)
    requires k < |chunks| - 1
  {
    chunks[k + 1] != [] && !Fits(tool, chunks[k] + [chunks[k + 1][0]])
  }

  /** Chunks that cut the given files greedily; only a sole chunk may be empty. */
  ghost predicate Chunking(tool: Tool, chunks: seq<seq<string>>, files: seq<string>) {
    && chunks != [] && Concat(chunks) == files
    && (chunks == [[]] || (NoneEmpty(chunks) && AllFit(tool, chunks))) && Greedy(tool, chunks)
  }

  /** No cut of the same files in the same order into runnable chunks has fewer. */
  ghost predicate FewestChunks(tool: Tool, chunks: seq<seq<string>>) {
    forall other :: Concat(other) == Concat(chunks) && AllFit(tool, other) ==> |chunks| <= |other|
  }

  /** The chunks of one source root, or the first file that exceeds the budget by itself. */
  method ChunkSources(tool: Tool, sources: seq<string>) returns (r: Result<seq<seq<string>>, string>)
    requires sources != []
    ensures r.Ok? <==> forall s :: s in sources ==> Fits(tool, [s])
    ensures r.Err? ==> exists k :: 0 <= k < |sources| && sources[k] == r.error && !Fits(tool, [sources[k]])
                                   && forall j :: 0 <= j < k ==> Fits(tool, [sources[j]])
    ensures r.Ok? ==> Concat(r.value) == sources && NoneEmpty(r.value) && AllFit(tool, r.value)
    ensures r.Ok? ==> FewestChunks(tool, r.value)
  {
    var chunks: seq<seq<string>> := [[]];
    ConcatOfOne<string>([]);
    for i := 0 to |sources|
      invariant Chunking(tool, chunks, sources[..i])
      invariant forall k :: 0 <= k < i ==> Fits(tool, [sources[k]])
    {
      var source := sources[i];
      if !Fits(tool, [source]) {
        return Err(source);
      }
      assert sources[..i + 1] == sources[..i] + [source];
      var last := |chunks| - 1;
      if chunks[last] != [] && !Fits(tool, chunks[last] + [source]) {
        OpenChunk(tool, chunks, sources[..i], source);
        chunks := chunks + [[source]];
      } else {
        FillChunk(tool, chunks, sources[..i], source);
        chunks := chunks[last := chunks[last] + [source]];
      }
    }
    assert sources[..|sources|] == sources;
    forall other | Concat(other) == Concat(chunks) && AllFit(tool, other) ensures |chunks| <= |other| {
      GreedyIsMinimal(tool, chunks, other);
    }
    return Ok(chunks);
  }

  lemma OpenChunk(tool: Tool, chunks: seq<seq<string>>, files: seq<string>, source: string)
    requires Chunking(tool, chunks, files) && Fits(tool, [source])
    requires var last := chunks[|chunks| - 1]; last != [] && !Fits(tool, last + [source])
    ensures Chunking(tool, chunks + [[source]], files + [source])
  {
    ConcatAppend(chunks, [source]);
    GreedyGrows(tool, chunks, chunks + [[source]], source);
  }

  lemma FillChunk(tool: Tool, chunks: seq<seq<string>>, files: seq<string>, source: string)
    requires Chunking(tool, chunks, files) && Fits(tool, [source])
    requires var last := chunks[|chunks| - 1]; last == [] || Fits(tool, last + [source])
    ensures Chunking(tool, chunks[|chunks| - 1 := chunks[|chunks| - 1] + [source]], files + [source])
  {
    var n := |chunks| - 1;
    var front, last := chunks[..n], chunks[n];
    var after := chunks[n := last + [source]];
    assert chunks == front + [last] && after == front + [last + [source]];
    ConcatAppend(front, last);
    ConcatAppend(front, last + [source]);
    Associate(Concat(front), last, [source]);
    if last == [] {
      assert last + [source] == [source];
    }
    GreedyGrows(tool, chunks, after, source);
  }

  lemma GreedyGrows(tool: Tool, before: seq<seq<string>>, after: seq<seq<string>>, source: string)
    requires before != [] && Greedy(tool, before)
    requires var n := |before| - 1;
      if before[n] != [] && !Fits(tool, before[n] + [source]) then after == before + [[source]]
      else after == before[..n] + [before[n] + [source]] && (n == 0 || before[n] != [])
    ensures Greedy(tool, after)
  {
    var n := |before| - 1;
    forall k | 0 <= k < |after| - 1
      ensures IsFull(tool, after, k)
    {
      if k + 1 <= n {
        assert IsFull(tool, before, k);
        assert after[k + 1][0] == before[k + 1][0];
      }
    }
  }

  /** Where the chunk `k` begins in the list they cut. */
  function Start(chunks: seq<seq<string>>, k: nat): nat
    requires k <= |chunks|
  {
    |Concat(chunks[..k])|
  }

  lemma ChunkAt(chunks: seq<seq<string>>, k: nat)
    requires k < |chunks|
    ensures Start(chunks, k + 1) == Start(chunks, k) + |chunks[k]| <= |Concat(chunks)|
    ensures Concat(chunks)[Start(chunks, k)..Start(chunks, k + 1)] == chunks[k]
  {
    var front, back := chunks[..k + 1], chunks[k + 1..];
    assert front == chunks[..k] + [chunks[k]] && chunks == front + back;
    ConcatAppend(chunks[..k], chunks[k]);
    ConcatOfTwo(front, back);
  }

  /** Greedy chunks stay ahead of those of any other cut that fits. */
  lemma {:induction false} GreedyStaysAhead(tool: Tool, chunks: seq<seq<string>>, other: seq<seq<string>>, k: nat)
    requires Concat(chunks) == Concat(other)
    requires Greedy(tool, chunks) && AllFit(tool, other)
    requires k <= |other| && k < |chunks|
    ensures Start(other, k) <= Start(chunks, k)
  {
    if k == 0 {
    } else {
      GreedyStaysAhead(tool, chunks, other, k - 1);
      ChunkAt(chunks, k - 1);
      ChunkAt(chunks, k);
      ChunkAt(other, k - 1);
      assert IsFull(tool, chunks, k - 1);
      if Start(other, k) > Start(chunks, k) {
        FirstOfSlice(Concat(chunks), Start(chunks, k), Start(chunks, k + 1));
        Overrun(tool, Concat(chunks), Start(other, k - 1), Start(chunks, k - 1), Start(chunks, k), Start(other, k));
      }
    }
  }

  lemma FirstOfSlice<T>(all: seq<T>, from: nat, to: nat)
    requires from < to <= |all|
    ensures all[from..to][0] == all[from]
  {
  }

  lemma Overrun(tool: Tool, all: seq<string>, from: nat, mine: nat, next: nat, to: nat)
    requires from <= mine <= next < to <= |all| && Fits(tool, all[from..to])
    ensures Fits(tool, all[mine..next] + [all[next]])
  {
    var crowded := all[mine..next] + [all[next]];
    assert all[from..to] == all[from..mine] + crowded + all[next + 1..to];
    PartFits(tool, all[from..mine], crowded, all[next + 1..to]);
  }

  lemma GreedyIsMinimal(tool: Tool, chunks: seq<seq<string>>, other: seq<seq<string>>)
    requires Concat(chunks) == Concat(other)
    requires Greedy(tool, chunks) && NoneEmpty(chunks) && AllFit(tool, other)
    ensures |chunks| <= |other|
  {
    if |other| < |chunks| {
      GreedyStaysAhead(tool, chunks, other, |other|);
      WholeCutReachesEnd(chunks, other);
    }
  }

  lemma WholeCutReachesEnd(chunks: seq<seq<string>>, other: seq<seq<string>>)
    requires |other| < |chunks| && chunks[|other|] != [] && Concat(chunks) == Concat(other)
    ensures Start(other, |other|) > Start(chunks, |other|)
  {
    ChunkAt(chunks, |other|);
    assert other[..|other|] == other;
  }

  // --- The gates -----------------------------------------------------------------------------

  /** One run of the tool: part `part` of `parts` over a source root, on these files. */
  datatype Gate = Gate(root: string, part: nat, parts: nat, files: seq<string>)

  datatype Root = Root(name: string, sources: seq<string>)

  /** The gates of a root cut into chunks: one a chunk, numbered from 1. */
  function GatesOf(root: string, chunks: seq<seq<string>>): seq<Gate> {
    seq(|chunks|, i requires 0 <= i < |chunks| => Gate(root, i + 1, |chunks|, chunks[i]))
  }

  /** Chunks fit for the sources of one root: every source once and in order, within the budget,
      and as few chunks as can be; none for no sources. */
  ghost predicate GoodChunks(tool: Tool, sources: seq<string>, chunks: seq<seq<string>>) {
    && (sources == [] ==> chunks == [])
    && Concat(chunks) == sources && NoneEmpty(chunks) && AllFit(tool, chunks) && FewestChunks(tool, chunks)
  }

  ghost function AllGates(roots: seq<Root>, blocks: seq<seq<seq<string>>>): seq<Gate>
    requires |roots| == |blocks|
  {
    if roots == [] then []
    else
      var n := |roots| - 1;
      AllGates(roots[..n], blocks[..n]) + GatesOf(roots[n].name, blocks[n])
  }

  lemma OneMoreRoot(roots: seq<Root>, i: nat, blocks: seq<seq<seq<string>>>, chunks: seq<seq<string>>)
    requires i < |roots| && |blocks| == i
    ensures AllGates(roots[..i + 1], blocks + [chunks])
         == AllGates(roots[..i], blocks) + GatesOf(roots[i].name, chunks)
  {
    assert roots[..i + 1][..i] == roots[..i] && (blocks + [chunks])[..i] == blocks;
  }

  predicate EachFits(tool: Tool, sources: seq<string>) {
    forall s :: s in sources ==> Fits(tool, [s])
  }

  /** The first roots' chunks, each fit for its root's sources. */
  ghost predicate GoodBlocks(tool: Tool, roots: seq<Root>, blocks: seq<seq<seq<string>>>) {
    |blocks| <= |roots| && forall i :: 0 <= i < |blocks| ==> GoodChunks(tool, roots[i].sources, blocks[i])
  }

  lemma OneMoreBlock(tool: Tool, roots: seq<Root>, blocks: seq<seq<seq<string>>>, chunks: seq<seq<string>>)
    requires GoodBlocks(tool, roots, blocks) && |blocks| < |roots|
    requires GoodChunks(tool, roots[|blocks|].sources, chunks)
    ensures GoodBlocks(tool, roots, blocks + [chunks])
  {
    var good := (i: int, block: seq<seq<string>>) => 0 <= i < |roots| && GoodChunks(tool, roots[i].sources, block);
    OneMoreOf(good, blocks, chunks);
    assert forall i :: 0 <= i < |blocks| + 1 ==> good(i, (blocks + [chunks])[i]);
  }

  lemma OneMoreOf<T>(good: (int, T) -> bool, blocks: seq<T>, last: T)
    requires forall i :: 0 <= i < |blocks| ==> good(i, blocks[i])
    requires good(|blocks|, last)
    ensures forall i :: 0 <= i < |blocks| + 1 ==> good(i, (blocks + [last])[i])
  {
  }

  method ChunkRoot(tool: Tool, sources: seq<string>) returns (r: Result<seq<seq<string>>, string>)
    ensures r.Ok? <==> EachFits(tool, sources)
    ensures r.Err? ==> r.error in sources && !Fits(tool, [r.error])
    ensures r.Ok? ==> GoodChunks(tool, sources, r.value)
  {
    if sources == [] {
      NoChunks(tool);
      return Ok([]);
    }
    r := ChunkSources(tool, sources);
  }

  /** The formatter gates: root by root, as few runs as the budget allows, over every source once
      and in order; refused iff some source alone exceeds the budget, naming such a source. */
  method FormatterGates(tool: Tool, roots: seq<Root>)
    returns (r: Result<seq<Gate>, string>, ghost blocks: seq<seq<seq<string>>>)
    ensures r.Ok? <==> forall root :: root in roots ==> EachFits(tool, root.sources)
    ensures r.Err? ==> !Fits(tool, [r.error]) && exists root :: root in roots && r.error in root.sources
    ensures r.Ok? ==> |blocks| == |roots| && GoodBlocks(tool, roots, blocks) && r.value == AllGates(roots, blocks)
  {
    var formatter: seq<Gate> := [];
    blocks := [];
    for i := 0 to |roots|
      invariant |blocks| == i && formatter == AllGates(roots[..i], blocks)
      invariant GoodBlocks(tool, roots, blocks)
      invariant forall j :: 0 <= j < i ==> EachFits(tool, roots[j].sources)
    {
      var chunked := ChunkRoot(tool, roots[i].sources);
      if chunked.Err? {
        assert roots[i] in roots;
        return Err(chunked.error), blocks;
      }
      OneMoreBlock(tool, roots, blocks, chunked.value);
      OneMoreRoot(roots, i, blocks, chunked.value);
      var gates := GatesOfChunks(roots[i].name, chunked.value);
      formatter := formatter + gates;
      blocks := blocks + [chunked.value];
    }
    assert roots[..|roots|] == roots;
    return Ok(formatter), blocks;
  }

  lemma NoChunks(tool: Tool)
    ensures GoodChunks(tool, [], [])
  {
  }

  method GatesOfChunks(root: string, chunks: seq<seq<string>>) returns (gates: seq<Gate>)
    ensures gates == GatesOf(root, chunks)
  {
    gates := [];
    for i := 0 to |chunks|
      invariant gates == GatesOf(root, chunks)[..i]
    {
      gates := gates + [Gate(root, i + 1, |chunks|, chunks[i])];
    }
  }

  function FilesOf(gates: seq<Gate>): seq<seq<string>> {
    seq(|gates|, i requires 0 <= i < |gates| => gates[i].files)
  }

  function SourcesOf(roots: seq<Root>): seq<seq<string>> {
    seq(|roots|, i requires 0 <= i < |roots| => roots[i].sources)
  }

  ghost predicate Covers(tool: Tool, gates: seq<Gate>, roots: seq<Root>) {
    && Concat(FilesOf(gates)) == Concat(SourcesOf(roots))
    && AllFit(tool, FilesOf(gates)) && NoneEmpty(FilesOf(gates))
  }

  /** The gates run the tool over every source of the roots once, root by root, never over nothing
      and never past the budget. */
  lemma {:induction false} GatesCoverSources(tool: Tool, roots: seq<Root>, blocks: seq<seq<seq<string>>>)
    requires |blocks| == |roots| && GoodBlocks(tool, roots, blocks)
    ensures Covers(tool, AllGates(roots, blocks), roots)
  {
    if roots == [] {
    } else {
      var n := |roots| - 1;
      var front, last, gates := roots[..n], roots[n], AllGates(roots[..n], blocks[..n]);
      GatesCoverSources(tool, front, blocks[..n]);
      assert GoodChunks(tool, last.sources, blocks[n]);
      FrontAndLast(roots);
      OneMoreCovered(tool, gates, front, last, blocks[n]);
    }
  }

  lemma OneMoreCovered(tool: Tool, gates: seq<Gate>, roots: seq<Root>, last: Root, chunks: seq<seq<string>>)
    requires Covers(tool, gates, roots)
    requires Concat(chunks) == last.sources && AllFit(tool, chunks) && NoneEmpty(chunks)
    ensures Covers(tool, gates + GatesOf(last.name, chunks), roots + [last])
  {
    FilesOfMore(gates, last.name, chunks);
    ConcatOfTwo(FilesOf(gates), chunks);
    OneMoreFits(tool, FilesOf(gates), chunks);
    SourcesOfOneMore(roots, last);
    ConcatAppend(SourcesOf(roots), last.sources);
  }

  lemma FilesOfMore(gates: seq<Gate>, root: string, chunks: seq<seq<string>>)
    ensures FilesOf(gates + GatesOf(root, chunks)) == FilesOf(gates) + chunks
  {
  }

  lemma SourcesOfOneMore(roots: seq<Root>, last: Root)
    ensures SourcesOf(roots + [last]) == SourcesOf(roots) + [last.sources]
  {
  }

  lemma OneMoreFits(tool: Tool, front: seq<seq<string>>, back: seq<seq<string>>)
    requires AllFit(tool, front) && NoneEmpty(front) && AllFit(tool, back) && NoneEmpty(back)
    ensures AllFit(tool, front + back) && NoneEmpty(front + back)
  {
    forall k | 0 <= k < |front + back| ensures Fits(tool, (front + back)[k]) && (front + back)[k] != [] {
      if k < |front| {
        assert (front + back)[k] == front[k];
      } else {
        assert (front + back)[k] == back[k - |front|];
      }
    }
  }

  /** The gates of a root stand together and are numbered from 1 to as many as there are. */
  predicate Numbered(gates: seq<Gate>) {
    forall k :: 0 <= k < |gates| ==> NumberedAt(gates, k)
  }

  predicate NumberedAt(gates: seq<Gate>, k: nat)
    requires k < |gates|
  {
    var g := gates[k];
    && 1 <= g.part <= g.parts
    && (g.part > 1 ==> k > 0 && gates[k - 1].root == g.root && gates[k - 1].parts == g.parts
                       && gates[k - 1].part == g.part - 1)
    && (g.part < g.parts ==> k + 1 < |gates| && gates[k + 1].part == g.part + 1)
  }

  lemma NumberedOfTwo(a: seq<Gate>, b: seq<Gate>)
    requires Numbered(a) && Numbered(b)
    ensures Numbered(a + b)
  {
    forall k | 0 <= k < |a + b| ensures NumberedAt(a + b, k) {
      if k < |a| {
        assert NumberedAt(a, k);
      } else {
        assert NumberedAt(b, k - |a|);
      }
    }
  }

  lemma {:induction false} GatesAreNumbered(roots: seq<Root>, blocks: seq<seq<seq<string>>>)
    requires |roots| == |blocks|
    ensures Numbered(AllGates(roots, blocks))
  {
    if roots == [] {
    } else {
      var n := |roots| - 1;
      GatesAreNumbered(roots[..n], blocks[..n]);
      RootIsNumbered(roots[n].name, blocks[n]);
      NumberedOfTwo(AllGates(roots[..n], blocks[..n]), GatesOf(roots[n].name, blocks[n]));
    }
  }

  lemma RootIsNumbered(root: string, chunks: seq<seq<string>>)
    ensures Numbered(GatesOf(root, chunks))
  {
  }

  /** The committed formatter: its commands keep to 16,384 characters as Windows renders them. */
  method StyleGates(roots: seq<Root>) returns (r: Result<seq<Gate>, string>)
    ensures r.Ok? <==> forall root, source :: root in roots && source in root.sources ==>
      RenderedLength(["fourmolu", "--mode", "check", source]) <= 16_384
    ensures r.Ok? ==> Concat(FilesOf(r.value)) == Concat(SourcesOf(roots)) && Numbered(r.value)
    ensures r.Ok? ==> forall k :: 0 <= k < |r.value| ==>
      r.value[k].files != [] && RenderedLength(["fourmolu", "--mode", "check"] + r.value[k].files) <= 16_384
  {
    ghost var blocks;
    r, blocks := FormatterGates(FORMATTER, roots);
    assert forall source :: FORMATTER.command + [source] == ["fourmolu", "--mode", "check", source];
    if r.Ok? {
      GatesCoverSources(FORMATTER, roots, blocks);
      GatesAreNumbered(roots, blocks);
      assert forall k :: 0 <= k < |r.value| ==> FilesOf(r.value)[k] == r.value[k].files;
    }
  }
}
