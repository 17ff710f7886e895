/** Reading the one repository digest of a pulled tag. */
module DigestReference {
  import opened Seqs
  import opened Wrappers

  /** What `docker image inspect` rendered: no JSON, no list, or a list some of whose items are strings. */
  datatype Item = Text(value: string) | NoText
  datatype Rendered = Malformed | NoList | Items(items: seq<Item>)

  datatype Refusal = Unparsable | Unexpected | NotExactlyOne(matches: seq<string>)

  /** The tag without its `:name`; a colon before the last slash belongs to the registry's port. */
  function Repository(tag: string): string {
    var colon := LastIndexOf(tag, ':');
    if colon > LastIndexOf(tag, '/') then tag[..colon] else tag
  }

  /** Docker Hub's own names are left unqualified in what the daemon records. */
  function DockerName(value: string): string {
    if "docker.io/" <= value then value[10..]
    else if "index.docker.io/" <= value then value[16..]
    else value
  }

  const MARK := "@sha256:"

  /** First place of the digest mark, or the length. */
  function MarkOf(value: string): (i: nat)
    ensures i <= |value|
    ensures i < |value| ==> MARK <= value[i..] && value[i] == '@'
  {
    if value == "" || MARK <= value then 0 else 1 + MarkOf(value[1..])
  }

  predicate Matches(item: Item, repository: string) {
    && item.Text?
    && var mark := MarkOf(item.value);
       && mark < |item.value|
       && DockerName(item.value[..IndexOf(item.value, '@')]) == repository
       && |item.value| - mark - |MARK| == 64
  }

  function Matching(items: seq<Item>, repository: string): (r: seq<string>)
    ensures forall k :: 0 <= k < |r| ==> Matches(Text(r[k]), repository)
  {
    if items == [] then []
    else
      Matching(items[..|items| - 1], repository)
      + if Matches(items[|items| - 1], repository) then [items[|items| - 1].value] else []
  }

  function ParseDigestReference(rendered: Rendered, tag: string): Result<string, Refusal> {
    match rendered
    case Malformed => Err(Unparsable)
    case NoList => Err(Unexpected)
    case Items(items) =>
      var matches := Matching(items, DockerName(Repository(tag)));
      if |matches| != 1 then Err(NotExactlyOne(matches))
      else Ok(Repository(tag) + "@" + AfterAt(matches[0]))
  }

  /** What follows the first `@`. */
  function AfterAt(value: string): string {
    var at := IndexOf(value, '@');
    if at < |value| then value[at + 1..] else ""
  }

  /** The repository is recovered from any reference to it, port or no port. */
  lemma RepositoryIsRecovered(repository: string, name: string)
    requires '/' !in name && ':' !in name
    ensures Repository(repository + ":" + name) == repository
  {
    var tag := repository + ":" + name;
    assert tag[|repository|] == ':';
    assert forall k :: |repository| < k < |tag| ==> tag[k] == name[k - |repository| - 1];
  }

  /** An entry with a single `@`: it matches exactly when its name is the repository's, up to the
      Docker Hub prefixes, and a 64-character digest follows. */
  lemma SingleMarkMatches(name: string, digest: string, repository: string)
    requires '@' !in name && '@' !in digest
    ensures var value := name + "@" + digest;
      && IndexOf(value, '@') == |name|
      && (Matches(Text(value), repository) <==>
            DockerName(name) == repository && "sha256:" <= digest && |digest| == 71)
  {
    var value := name + "@" + digest;
    FirstAt(name, digest);
    MarkAt(name, digest);
    assert value[..|name|] == name;
    assert |"sha256:"| == 7;
  }

  lemma FirstAt(name: string, digest: string)
    requires '@' !in name
    ensures IndexOf(name + "@" + digest, '@') == |name|
  {
    var value := name + "@" + digest;
    assert value[|name|] == '@';
    assert forall k :: 0 <= k < |name| ==> value[k] == name[k];
  }

  lemma {:induction false} MarkAt(name: string, digest: string)
    requires '@' !in name && '@' !in digest
    ensures MarkOf(name + "@" + digest) == if "sha256:" <= digest then |name| else |name + "@" + digest|
  {
    var value := name + "@" + digest;
    if name == "" {
      assert value[1..] == digest;
      assert MARK <= value <==> "sha256:" <= digest;
      NoAtNoMark(digest);
    } else {
      assert value[1..] == name[1..] + "@" + digest;
      assert value[0] != '@';
      MarkAt(name[1..], digest);
    }
  }

  lemma {:induction false} NoAtNoMark(value: string)
    requires '@' !in value
    ensures MarkOf(value) == |value|
  {
    if value == "" {
    } else {
      assert value[0] != '@';
      NoAtNoMark(value[1..]);
    }
  }

  lemma {:induction false} MatchingCounts(items: seq<Item>, repository: string, value: string)
    ensures multiset(Matching(items, repository))[value]
         == if Matches(Text(value), repository) then multiset(items)[Text(value)] else 0
  {
    if items == [] {
    } else {
      var front, last := items[..|items| - 1], items[|items| - 1];
      assert items == front + [last];
      MatchingCounts(front, repository, value);
    }
  }

  /** The number of matches, hence success, is the number of matching items, in any order. */
  lemma OrderDoesNotMatter(a: seq<Item>, b: seq<Item>, tag: string)
    requires multiset(a) == multiset(b)
    ensures ParseDigestReference(Items(a), tag).Ok? <==> ParseDigestReference(Items(b), tag).Ok?
    ensures ParseDigestReference(Items(a), tag).Ok? ==>
      ParseDigestReference(Items(a), tag) == ParseDigestReference(Items(b), tag)
  {
    var repository := DockerName(Repository(tag));
    var (x, y) := (Matching(a, repository), Matching(b, repository));
    forall value ensures multiset(x)[value] == multiset(y)[value] {
      MatchingCounts(a, repository, value);
      MatchingCounts(b, repository, value);
    }
    assert multiset(x) == multiset(y);
    assert |x| == |multiset(x)| && |y| == |multiset(y)|;
    if |x| == 1 {
      assert x == [x[0]] && y == [y[0]];
      assert y[0] in multiset(y);
    }
  }

  lemma {:induction false} MatchingOfTwo(a: seq<Item>, b: seq<Item>, repository: string)
    ensures Matching(a + b, repository) == Matching(a, repository) + Matching(b, repository)
    decreases |b|
  {
    if b == [] {
      assert a + b == a;
    } else {
      var front := b[..|b| - 1];
      assert (a + b)[..|a + b| - 1] == a + front;
      MatchingOfTwo(a, front, repository);
    }
  }

  /** Entries of other repositories, wherever they stand, change nothing. */
  lemma ForeignEntriesDoNotMatter(a: seq<Item>, foreign: Item, b: seq<Item>, tag: string)
    requires !Matches(foreign, DockerName(Repository(tag)))
    ensures ParseDigestReference(Items(a + [foreign] + b), tag) == ParseDigestReference(Items(a + b), tag)
  {
    var repository := DockerName(Repository(tag));
    MatchingOfTwo(a + [foreign], b, repository);
    MatchingOfTwo(a, b, repository);
    MatchingOfForeign(a, foreign, repository);
  }

  lemma MatchingOfForeign(a: seq<Item>, foreign: Item, repository: string)
    requires !Matches(foreign, repository)
    ensures Matching(a + [foreign], repository) == Matching(a, repository)
  {
    assert (a + [foreign])[..|a|] == a;
  }

  /** The places of the items that match. */
  function Places(items: seq<Item>, repository: string): set<nat> {
    set k: nat | k < |items| && Matches(items[k], repository)
  }

  /** Success is exactly one matching item. */
  lemma SucceedsIffOneMatch(items: seq<Item>, tag: string)
    ensures ParseDigestReference(Items(items), tag).Ok? <==> |Places(items, DockerName(Repository(tag)))| == 1
  {
    PlacesAreCounted(items, DockerName(Repository(tag)));
  }

  lemma {:induction false} PlacesAreCounted(items: seq<Item>, repository: string)
    ensures |Places(items, repository)| == |Matching(items, repository)|
  {
    if items == [] {
      assert Places(items, repository) == {};
    } else {
      var front, last := items[..|items| - 1], items[|items| - 1];
      PlacesAreCounted(front, repository);
      assert items == front + [last];
      PlacesOfOneMore(front, last, repository);
      OneMorePlace(Places(front, repository), |front|);
    }
  }

  lemma OneMorePlace(places: set<nat>, n: nat)
    requires n !in places
    ensures |places + {n}| == |places| + 1
  {
  }

  lemma PlacesOfOneMore(items: seq<Item>, last: Item, repository: string)
    ensures Places(items + [last], repository)
         == Places(items, repository) + if Matches(last, repository) then {|items|} else {}
    ensures |items| !in Places(items, repository)
  {
    var all := items + [last];
    forall k: nat | k < |all|
      ensures k in Places(all, repository) <==>
        k in Places(items, repository) || (k == |items| && Matches(last, repository))
    {
      assert k < |items| ==> all[k] == items[k];
    }
  }

  /** On success the reference is the repository with the digest of the item at the one matching
      place, which names the repository up to the Docker Hub prefixes. */
  lemma ReferenceNamesTheDigest(items: seq<Item>, tag: string, k: nat, name: string, digest: string)
    requires '@' !in name && '@' !in digest
    requires k < |items| && items[k] == Text(name + "@" + digest)
    requires Places(items, DockerName(Repository(tag))) == {k}
    ensures ParseDigestReference(Items(items), tag) == Ok(Repository(tag) + "@" + digest)
    ensures DockerName(name) == DockerName(Repository(tag)) && "sha256:" <= digest && |digest| == 71
  {
    var repository := DockerName(Repository(tag));
    assert k in Places(items, repository);
    OnePlaceOneMatch(items, repository, k);
    SingleMarkMatches(name, digest, repository);
    FirstAt(name, digest);
    assert AfterAt(name + "@" + digest) == digest;
  }

  lemma OnePlaceOneMatch(items: seq<Item>, repository: string, k: nat)
    requires Places(items, repository) == {k}
    ensures k < |items| && Matching(items, repository) == [items[k].value]
  {
    assert k in Places(items, repository);
    PlacesAreCounted(items, repository);
    MatchIsCollected(items, repository, k);
    OnlyMember(Matching(items, repository), items[k].value);
  }

  lemma {:induction false} MatchIsCollected(items: seq<Item>, repository: string, k: nat)
    requires k < |items| && Matches(items[k], repository)
    ensures items[k].value in Matching(items, repository)
  {
    if k < |items| - 1 {
      MatchIsCollected(items[..|items| - 1], repository, k);
    }
  }

  // --- Laws of names -------------------------------------------------------------------------------

  /** Docker Hub's two spellings stand for the bare name; any other name is itself. */
  lemma DockerNameForms(value: string)
    ensures DockerName("docker.io/" + value) == value
    ensures DockerName("index.docker.io/" + value) == value
    ensures !("docker.io/" <= value) && !("index.docker.io/" <= value) ==> DockerName(value) == value
  {
    assert ("docker.io/" + value)[10..] == value;
    assert ("index.docker.io/" + value)[16..] == value;
    assert !("docker.io/" <= "index.docker.io/" + value) by { assert ("index.docker.io/" + value)[0] == 'i'; }
  }

  /** A reference without a name is its own repository, whatever port its host has. */
  lemma UntaggedIsItself(host: string, path: string)
    requires ':' !in path
    ensures Repository(path) == path
    ensures Repository(host + "/" + path) == host + "/" + path
  {
    var tag := host + "/" + path;
    assert tag[|host|] == '/' && forall k :: |host| < k < |tag| ==> tag[k] == path[k - |host| - 1];
    assert LastIndexOf(path, ':') == -1;
    assert LastIndexOf(path, '/') >= -1;
  }

  /** What answers for a pulled tag of a Docker Hub repository, by either spelling or none: the entry
      that names the repository with a digest. */
  lemma PulledTagResolves(repository: string, name: string, hex: string)
    requires '@' !in repository && '@' !in hex && |hex| == 64 && '/' !in name && ':' !in name
    requires !("docker.io/" <= repository) && !("index.docker.io/" <= repository)
    ensures ParseDigestReference(Items([Text(repository + "@sha256:" + hex)]), "docker.io/" + repository + ":" + name)
         == Ok("docker.io/" + repository + "@sha256:" + hex)
    ensures ParseDigestReference(Items([Text(repository + "@sha256:" + hex)]), repository + ":" + name)
         == Ok(repository + "@sha256:" + hex)
  {
    DockerNameForms(repository);
    RepositoryIsRecovered("docker.io/" + repository, name);
    RepositoryIsRecovered(repository, name);
    OneEntryResolves(repository, "docker.io/" + repository + ":" + name, "docker.io/" + repository, hex);
    OneEntryResolves(repository, repository + ":" + name, repository, hex);
  }

  lemma OneEntryResolves(repository: string, tag: string, reference: string, hex: string)
    requires '@' !in repository && '@' !in hex && |hex| == 64
    requires Repository(tag) == reference && DockerName(reference) == repository && DockerName(repository) == repository
    ensures ParseDigestReference(Items([Text(repository + "@sha256:" + hex)]), tag) == Ok(reference + "@sha256:" + hex)
  {
    var digest := "sha256:" + hex;
    var value := repository + "@" + digest;
    assert repository + "@sha256:" + hex == value && reference + "@sha256:" + hex == reference + "@" + digest;
    assert '@' !in digest;
    SingleMarkMatches(repository, digest, repository);
    assert Places([Text(value)], repository) == {0};
    ReferenceNamesTheDigest([Text(value)], tag, 0, repository, digest);
  }

  predicate HasMarkAt(value: string, k: nat) {
    k + 8 <= |value| && value[k..k + 8] == "@sha256:"
  }

  ghost predicate IsFirstMark(value: string, k: nat) {
    HasMarkAt(value, k) && forall j: nat :: j < k ==> !HasMarkAt(value, j)
  }

  /** What matches, whatever the entry: up to its first `@` it names the repository, and behind its
      first `@sha256:` it has 64 characters. */
  lemma MatchesIff(value: string, repository: string)
    ensures Matches(Text(value), repository) <==> exists k: nat ::
      IsFirstMark(value, k) && |value| - k == 72 && DockerName(value[..IndexOf(value, '@')]) == repository
    ensures !Matches(NoText, repository)
  {
    MarkIsFirst(value);
    if k: nat :| IsFirstMark(value, k) {
      FirstMarkIsMark(value, k);
    } else {
      assert MarkOf(value) < |value| ==> IsFirstMark(value, MarkOf(value));
    }
  }

  lemma FirstMarkIsMark(value: string, k: nat)
    requires IsFirstMark(value, k)
    ensures MarkOf(value) == k < |value|
  {
    MarkIsFirst(value);
  }

  lemma {:induction false} MarkIsFirst(value: string)
    ensures MarkOf(value) < |value| ==> HasMarkAt(value, MarkOf(value))
    ensures forall j: nat :: j < MarkOf(value) ==> !HasMarkAt(value, j)
    ensures MarkOf(value) == |value| ==> forall j: nat :: !HasMarkAt(value, j)
  {
    if value == "" {
    } else if MARK <= value {
      assert value[0..8] == MARK;
    } else {
      var rest := value[1..];
      MarkIsFirst(rest);
      forall j: nat | 0 < j ensures HasMarkAt(value, j) == HasMarkAt(rest, j - 1) {
        assert j + 8 <= |value| ==> value[j..j + 8] == rest[j - 1..j + 7];
      }
      assert |value| >= 8 ==> value[..8] == value[0..8];
    }
  }

  /** An answer that is no JSON, or no list, is refused. */
  lemma OnlyListsResolve(rendered: Rendered, tag: string)
    ensures ParseDigestReference(rendered, tag).Ok? ==> rendered.Items?
    ensures rendered == Malformed ==> ParseDigestReference(rendered, tag) == Err(Unparsable)
    ensures rendered == NoList ==> ParseDigestReference(rendered, tag) == Err(Unexpected)
  {
  }
}
