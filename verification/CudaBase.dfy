/** Choosing the newest CUDA parent image that has the wanted architecture. */
module CudaBase {
  import opened Seqs
  import opened Wrappers

  datatype Version = Version(major: nat, minor: nat, patch: nat)

  predicate Less(a: Version, b: Version) {
    || a.major < b.major
    || (a.major == b.major && (a.minor < b.minor || (a.minor == b.minor && a.patch < b.patch)))
  }

  /** Versions are in one order, by their parts from left to right. */
  lemma LessIsTheOrder(a: Version, b: Version, c: Version)
    ensures !Less(a, a)
    ensures Less(a, b) && Less(b, c) ==> Less(a, c)
    ensures a == b || Less(a, b) || Less(b, a)
    ensures !(Less(a, b) && Less(b, a))
    ensures a.major < b.major ==> Less(a, b)
    ensures a.major == b.major && a.minor < b.minor ==> Less(a, b)
    ensures a.major == b.major && a.minor == b.minor && a.patch < b.patch ==> Less(a, b)
  {
  }

  /** A listed tag: its name, the version the tag pattern reads from it, if it matches, and the
      architectures of its images. */
  datatype Tag = Tag(name: string, version: Option<Version>, architectures: set<string>)

  datatype Candidate = Candidate(version: Version, name: string, architectures: set<string>)

  predicate Has(c: Candidate, arch: string) { arch in c.architectures }

  function Candidates(tags: seq<Tag>): seq<Candidate> {
    if tags == [] then []
    else
      var last := tags[|tags| - 1];
      Candidates(tags[..|tags| - 1])
      + if last.version.Some? then [Candidate(last.version.value, last.name, last.architectures)] else []
  }

  // --- A stable descending sort ----------------------------------------------------------------

  predicate Descending(s: seq<Candidate>) {
    forall i, j :: 0 <= i < j < |s| ==> !Less(s[i].version, s[j].version)
  }

  /** A candidate that arrived later goes behind all that are not older than it. */
  function Insert(s: seq<Candidate>, c: Candidate): (r: seq<Candidate>)
    ensures multiset(r) == multiset(s) + multiset{c}
  {
    if s == [] then [c]
    else
      var front, last := s[..|s| - 1], s[|s| - 1];
      assert s == front + [last];
      if Less(last.version, c.version) then Insert(front, c) + [last] else s + [c]
  }

  /** The candidates of one version, in order. */
  function OfVersion(s: seq<Candidate>, v: Version): seq<Candidate> {
    if s == [] then []
    else OfVersion(s[..|s| - 1], v) + if s[|s| - 1].version == v then [s[|s| - 1]] else []
  }

  lemma OfVersionAppended(s: seq<Candidate>, c: Candidate, v: Version)
    ensures OfVersion(s + [c], v) == OfVersion(s, v) + if c.version == v then [c] else []
  {
    assert (s + [c])[..|s|] == s;
  }

  /** A stable descending sort: the same candidates, newest first, those of one version in the order
      in which they were. */
  ghost predicate IsStableSort(s: seq<Candidate>, r: seq<Candidate>) {
    && Descending(r) && multiset(r) == multiset(s)
    && forall v: Version :: OfVersion(r, v) == OfVersion(s, v)
  }

  lemma InsertedMembers(s: seq<Candidate>, c: Candidate)
    ensures forall x :: x in Insert(s, c) ==> x in s || x == c
  {
    forall x | x in Insert(s, c) ensures x in s || x == c {
      assert x in multiset(Insert(s, c));
    }
  }

  lemma {:induction false} InsertKeepsDescending(s: seq<Candidate>, c: Candidate)
    requires Descending(s)
    ensures Descending(Insert(s, c))
  {
    if s == [] {
    } else {
      var front, last := s[..|s| - 1], s[|s| - 1];
      if Less(last.version, c.version) {
        InsertKeepsDescending(front, c);
        InsertedMembers(front, c);
        NoneIsOlderThanLast(s);
        OlderBehind(Insert(front, c), last);
      }
    }
  }

  lemma NoneIsOlderThanLast(s: seq<Candidate>)
    requires s != [] && Descending(s)
    ensures forall x :: x in s[..|s| - 1] ==> !Less(x.version, s[|s| - 1].version)
  {
  }

  lemma OlderBehind(s: seq<Candidate>, last: Candidate)
    requires Descending(s) && forall x :: x in s ==> !Less(x.version, last.version)
    ensures Descending(s + [last])
  {
  }

  lemma {:induction false} InsertIsStable(s: seq<Candidate>, c: Candidate, v: Version)
    ensures OfVersion(Insert(s, c), v) == OfVersion(s, v) + if c.version == v then [c] else []
  {
    if s == [] {
      OfVersionAppended([], c, v);
      assert [] + [c] == [c];
    } else {
      var front, last := s[..|s| - 1], s[|s| - 1];
      if Less(last.version, c.version) {
        InsertIsStable(front, c, v);
        OlderStaysBehind(front, Insert(front, c), last, c, v);
      } else {
        OfVersionAppended(s, c, v);
      }
    }
  }

  lemma OlderStaysBehind(front: seq<Candidate>, inserted: seq<Candidate>, last: Candidate, c: Candidate, v: Version)
    requires Less(last.version, c.version)
    requires OfVersion(inserted, v) == OfVersion(front, v) + if c.version == v then [c] else []
    ensures OfVersion(inserted + [last], v)
      == OfVersion(front, v) + (if last.version == v then [last] else []) + if c.version == v then [c] else []
  {
    OfVersionAppended(inserted, last, v);
  }

  method SortDescending(s: seq<Candidate>) returns (r: seq<Candidate>)
    ensures IsStableSort(s, r)
  {
    r := [];
    for i := 0 to |s|
      invariant IsStableSort(s[..i], r)
    {
      InsertKeepsStableSort(s[..i], r, s[i]);
      assert s[..i + 1] == s[..i] + [s[i]];
      r := Insert(r, s[i]);
    }
    assert s[..|s|] == s;
  }

  lemma InsertKeepsStableSort(s: seq<Candidate>, r: seq<Candidate>, c: Candidate)
    requires IsStableSort(s, r)
    ensures IsStableSort(s + [c], Insert(r, c))
  {
    InsertKeepsDescending(r, c);
    forall v: Version ensures OfVersion(Insert(r, c), v) == OfVersion(s + [c], v) {
      InsertIsStable(r, c, v);
      OfVersionAppended(s, c, v);
    }
  }

  // --- Scanning the sorted list is taking the maximum --------------------------------------------

  /** The first entry with the architecture. */
  function First(s: seq<Candidate>, arch: string): Option<Candidate> {
    if s == [] then None
    else
      var f := First(s[..|s| - 1], arch);
      if f.Some? then f else if Has(s[|s| - 1], arch) then Some(s[|s| - 1]) else None
  }

  lemma FirstOfAppended(s: seq<Candidate>, c: Candidate, arch: string)
    ensures First(s + [c], arch) ==
      if First(s, arch).Some? then First(s, arch) else if Has(c, arch) then Some(c) else None
  {
    assert (s + [c])[..|s|] == s;
  }

  lemma {:induction false} FirstIsMember(s: seq<Candidate>, arch: string)
    ensures First(s, arch).Some? ==> First(s, arch).value in s && Has(First(s, arch).value, arch)
    ensures First(s, arch).None? ==> forall c :: c in s ==> !Has(c, arch)
  {
    if s == [] {
    } else {
      FirstIsMember(s[..|s| - 1], arch);
      assert s == s[..|s| - 1] + [s[|s| - 1]];
    }
  }

  /** In a descending list nothing with the architecture is newer than the first of it. */
  lemma {:induction false} FirstIsNewest(s: seq<Candidate>, arch: string)
    requires Descending(s) && First(s, arch).Some?
    ensures forall c :: c in s && Has(c, arch) ==> !Less(First(s, arch).value.version, c.version)
  {
    var front, last := s[..|s| - 1], s[|s| - 1];
    assert s == front + [last];
    if First(front, arch).Some? {
      FirstIsNewest(front, arch);
      FirstIsMember(front, arch);
      var k :| 0 <= k < |front| && front[k] == First(front, arch).value;
      assert !Less(s[k].version, s[|s| - 1].version);
    } else {
      FirstIsMember(front, arch);
    }
  }

  /** The first with the architecture is the first of its version with it. */
  lemma {:induction false} FirstOfItsVersion(s: seq<Candidate>, arch: string)
    requires First(s, arch).Some?
    ensures First(OfVersion(s, First(s, arch).value.version), arch) == First(s, arch)
  {
    var front, last, v := s[..|s| - 1], s[|s| - 1], First(s, arch).value.version;
    if First(front, arch).Some? {
      FirstOfItsVersion(front, arch);
    } else {
      NoneOfVersion(front, arch, v);
    }
    FirstOfOneMore(OfVersion(front, v), last, v, arch);
  }

  lemma FirstOfOneMore(s: seq<Candidate>, c: Candidate, v: Version, arch: string)
    ensures First(s + if c.version == v then [c] else [], arch) ==
      if First(s, arch).Some? then First(s, arch) else if c.version == v && Has(c, arch) then Some(c) else None
  {
    FirstOfAppended(s, c, arch);
    assert s + [] == s;
  }

  lemma NoneOfVersion(s: seq<Candidate>, arch: string, v: Version)
    requires First(s, arch).None?
    ensures First(OfVersion(s, v), arch).None?
  {
    FirstIsMember(s, arch);
    OfVersionAreMembers(s, v);
    FirstIsMember(OfVersion(s, v), arch);
  }

  lemma {:induction false} OfVersionAreMembers(s: seq<Candidate>, v: Version)
    ensures forall c :: c in OfVersion(s, v) ==> c in s && c.version == v
  {
    if s == [] {
    } else {
      OfVersionAreMembers(s[..|s| - 1], v);
    }
  }

  /** Where the first of a version with the architecture stands in the whole list. */
  lemma {:induction false} PlaceOfFirst(s: seq<Candidate>, v: Version, arch: string) returns (k: nat)
    requires First(OfVersion(s, v), arch).Some?
    ensures k < |s| && s[k] == First(OfVersion(s, v), arch).value && s[k].version == v && Has(s[k], arch)
    ensures forall j :: 0 <= j < k && Has(s[j], arch) ==> s[j].version != v
  {
    var front, last := s[..|s| - 1], s[|s| - 1];
    FirstOfOneMore(OfVersion(front, v), last, v, arch);
    if First(OfVersion(front, v), arch).Some? {
      k := PlaceOfFirst(front, v, arch);
    } else {
      k := |front|;
      NoneOfVersionHas(front, arch, v);
    }
  }

  lemma {:induction false} NoneOfVersionHas(s: seq<Candidate>, arch: string, v: Version)
    requires First(OfVersion(s, v), arch).None?
    ensures forall j :: 0 <= j < |s| && Has(s[j], arch) ==> s[j].version != v
  {
    if s == [] {
    } else {
      FirstOfOneMore(OfVersion(s[..|s| - 1], v), s[|s| - 1], v, arch);
      NoneOfVersionHas(s[..|s| - 1], arch, v);
    }
  }

  /** The newest candidate with the architecture, the earliest listed among equals. */
  ghost predicate IsBest(s: seq<Candidate>, arch: string, k: nat)
    requires k < |s|
  {
    && Has(s[k], arch)
    && (forall j :: 0 <= j < |s| && Has(s[j], arch) ==> !Less(s[k].version, s[j].version))
    && (forall j :: 0 <= j < k && Has(s[j], arch) ==> s[j].version != s[k].version)
  }

  /** Scanning any stable descending sort finds the best candidate of the list, at its place there. */
  lemma FirstOfStableSortIsBest(s: seq<Candidate>, r: seq<Candidate>, arch: string) returns (k: nat)
    requires IsStableSort(s, r)
    ensures First(r, arch).None? <==> forall c :: c in s ==> !Has(c, arch)
    ensures First(r, arch).Some? ==> k < |s| && IsBest(s, arch, k) && First(r, arch).value == s[k]
  {
    FirstIsMember(r, arch);
    SameMembers(s, r);
    k := 0;
    if First(r, arch).Some? {
      FirstIsNewest(r, arch);
      FirstOfItsVersion(r, arch);
      k := PlaceOfFirst(s, First(r, arch).value.version, arch);
    }
  }

  // --- The resolution --------------------------------------------------------------------------

  /** Every page of the listing, in order. */
  method IterCudaTags(pages: seq<seq<Tag>>) returns (tags: seq<Tag>)
    ensures tags == Concat(pages)
  {
    tags := [];
    for i := 0 to |pages|
      invariant tags == Concat(pages[..i])
    {
      assert pages[..i + 1] == pages[..i] + [pages[i]];
      ConcatAppend(pages[..i], pages[i]);
      tags := tags + pages[i];
    }
    assert pages[..|pages|] == pages;
  }

  /** A tag that can be chosen: its name has a version and it has an image of the architecture. */
  predicate Fits(tag: Tag, arch: string) {
    tag.version.Some? && arch in tag.architectures
  }

  /** Of the tags that can be chosen, the newest; of those of its version, the first listed. */
  ghost predicate IsChoice(tags: seq<Tag>, arch: string, k: nat)
    requires k < |tags|
  {
    && Fits(tags[k], arch)
    && (forall j :: 0 <= j < |tags| && Fits(tags[j], arch) ==> !Less(tags[k].version.value, tags[j].version.value))
    && (forall j :: 0 <= j < k && Fits(tags[j], arch) ==> tags[j].version != tags[k].version)
  }

  /** Where the candidates stand among the tags, in order. */
  function PlacesOf(tags: seq<Tag>): (places: seq<nat>)
    ensures |places| == |Candidates(tags)|
    ensures forall i :: 0 <= i < |places| ==> places[i] < |tags|
  {
    if tags == [] then []
    else
      PlacesOf(tags[..|tags| - 1]) + if tags[|tags| - 1].version.Some? then [|tags| - 1] else []
  }

  predicate IsCandidate(tag: Tag, c: Candidate) {
    tag.version == Some(c.version) && tag.name == c.name && tag.architectures == c.architectures
  }

  ghost predicate ArePlaces(tags: seq<Tag>, candidates: seq<Candidate>, places: seq<nat>) {
    && |places| == |candidates|
    && (forall i :: 0 <= i < |places| ==> places[i] < |tags| && IsCandidate(tags[places[i]], candidates[i]))
    && (forall i, j :: 0 <= i < j < |places| ==> places[i] < places[j])
    && (forall k :: 0 <= k < |tags| && tags[k].version.Some? ==> k in places)
  }

  lemma OneMoreTag(tags: seq<Tag>, last: Tag, candidates: seq<Candidate>, places: seq<nat>)
    requires ArePlaces(tags, candidates, places)
    ensures ArePlaces(tags + [last],
      candidates + (if last.version.Some? then [Candidate(last.version.value, last.name, last.architectures)] else []),
      places + if last.version.Some? then [|tags|] else [])
  {
    var all, more := tags + [last], places + if last.version.Some? then [|tags|] else [];
    assert forall k :: 0 <= k < |tags| ==> all[k] == tags[k];
    assert forall k :: k in places ==> k in more;
    assert last.version.Some? ==> more[|places|] == |tags|;
  }

  lemma {:induction false} CandidatesHavePlaces(tags: seq<Tag>)
    ensures ArePlaces(tags, Candidates(tags), PlacesOf(tags))
  {
    if tags == [] {
    } else {
      var front := tags[..|tags| - 1];
      CandidatesHavePlaces(front);
      OneMoreTag(front, tags[|tags| - 1], Candidates(front), PlacesOf(front));
      FrontAndLast(tags);
    }
  }

  /** The best candidate is the best tag. */
  lemma BestIsChoice(tags: seq<Tag>, candidates: seq<Candidate>, places: seq<nat>, arch: string, i: nat)
    requires ArePlaces(tags, candidates, places) && i < |candidates| && IsBest(candidates, arch, i)
    ensures IsChoice(tags, arch, places[i]) && tags[places[i]].name == candidates[i].name
  {
    forall k | 0 <= k < |tags| && Fits(tags[k], arch)
      ensures !Less(tags[places[i]].version.value, tags[k].version.value)
      ensures k < places[i] ==> tags[k].version != tags[places[i]].version
    {
      var j :| 0 <= j < |places| && places[j] == k;
      assert Has(candidates[j], arch);
      assert k < places[i] ==> j < i;
    }
  }

  lemma NoCandidateNoChoice(tags: seq<Tag>, candidates: seq<Candidate>, places: seq<nat>, arch: string)
    requires ArePlaces(tags, candidates, places) && forall c :: c in candidates ==> !Has(c, arch)
    ensures forall tag :: tag in tags ==> !Fits(tag, arch)
  {
    forall k | 0 <= k < |tags| ensures !Fits(tags[k], arch) {
      if tags[k].version.Some? {
        var j :| 0 <= j < |places| && places[j] == k;
        assert candidates[j] in candidates;
      }
    }
  }

  /** Over all pages, the newest tag that fits, the first listed of its version; refused iff none fits. */
  method ResolveCudaBaseImage(pages: seq<seq<Tag>>, arch: string) returns (r: Option<string>)
    ensures var all := Concat(pages);
      if r.None? then forall tag :: tag in all ==> !Fits(tag, arch)
      else exists k :: 0 <= k < |all| && IsChoice(all, arch, k) && r.value == "nvidia/cuda:" + all[k].name
  {
    var tags := IterCudaTags(pages);
    var candidates: seq<Candidate> := [];
    for i := 0 to |tags|
      invariant candidates == Candidates(tags[..i])
    {
      assert tags[..i + 1][..i] == tags[..i];
      if tags[i].version.Some? {
        candidates := candidates + [Candidate(tags[i].version.value, tags[i].name, tags[i].architectures)];
      }
    }
    assert tags[..|tags|] == tags;
    var sorted := SortDescending(candidates);
    ghost var best := FirstOfStableSortIsBest(candidates, sorted, arch);
    CandidatesHavePlaces(tags);
    r := Scan(sorted, arch);
    if r.Some? {
      BestIsChoice(tags, candidates, PlacesOf(tags), arch, best);
    } else {
      NoCandidateNoChoice(tags, candidates, PlacesOf(tags), arch);
    }
  }

  /** The scan of the sorted candidates. */
  method Scan(sorted: seq<Candidate>, arch: string) returns (r: Option<string>)
    ensures r == match First(sorted, arch) case None => None case Some(c) => Some("nvidia/cuda:" + c.name)
  {
    for i := 0 to |sorted|
      invariant First(sorted[..i], arch).None?
    {
      assert sorted[..i + 1][..i] == sorted[..i];
      if Has(sorted[i], arch) {
        FirstOfPrefix(sorted, i + 1, arch);
        return Some("nvidia/cuda:" + sorted[i].name);
      }
    }
    assert sorted[..|sorted|] == sorted;
    return None;
  }

  lemma {:induction false} FirstOfPrefix(s: seq<Candidate>, n: nat, arch: string)
    requires n <= |s| && First(s[..n], arch).Some?
    ensures First(s, arch) == First(s[..n], arch)
  {
    if n < |s| {
      assert s[..|s| - 1][..n] == s[..n];
      FirstOfPrefix(s[..|s| - 1], n, arch);
    } else {
      assert s[..n] == s;
    }
  }
}
