/** Publishing a built binary through a flushed sibling, with any file call allowed to fail. */
module BinaryCopy {
  import opened Seqs
  import opened Utf8
  import opened Wrappers

  // --- Names -----------------------------------------------------------------------------------

  /** `PurePath.with_suffix`: what follows the last dot is replaced, unless that dot is the first
      or the last character. */
  function WithSuffix(name: string, suffix: string): string {
    var i := LastIndexOf(name, '.');
    if 0 < i < |name| - 1 then name[..i] + suffix else name + suffix
  }

  /** The random part of a temporary name. */
  predicate IsToken(token: string) {
    |token| == 8 && forall k :: 0 <= k < 8 ==> token[k] == '_' || '0' <= token[k] <= '9' || 'a' <= token[k] <= 'z'
  }

  function TemporaryName(destination: string, token: string): string {
    "." + destination + "-" + token
  }

  function PreviousName(destination: string, token: string): string {
    WithSuffix(TemporaryName(destination, token), ".previous")
  }

  lemma PreviousNameForm(destination: string, token: string)
    requires IsToken(token)
    ensures var dot := LastIndexOf(destination, '.');
      PreviousName(destination, token) ==
        if dot < 0 then TemporaryName(destination, token) + ".previous"
        else "." + destination[..dot] + ".previous"
  {
    var dot := LastIndexOf(destination, '.');
    LastDotOfTemporary(destination, token);
    if dot >= 0 {
      assert TemporaryName(destination, token)[..dot + 1] == "." + destination[..dot];
    }
  }

  /** A token has no dot, so the last dot of a temporary name is the destination's, or the first. */
  lemma LastDotOfTemporary(destination: string, token: string)
    requires IsToken(token)
    ensures LastIndexOf(TemporaryName(destination, token), '.') == LastIndexOf(destination, '.') + 1
  {
    var temporary := TemporaryName(destination, token);
    var dot := LastIndexOf(destination, '.');
    assert temporary[dot + 1] == '.';
    forall k | dot + 1 < k < |temporary| ensures temporary[k] != '.' {
      if k <= |destination| {
        assert temporary[k] == destination[k - 1];
      } else if k > |destination| + 1 {
        assert temporary[k] == token[k - |destination| - 2];
      }
    }
  }

  /** Two temporary files of one destination share their set-aside name exactly when it has a dot. */
  lemma PreviousNamesDiffer(destination: string, a: string, b: string)
    requires IsToken(a) && IsToken(b) && a != b
    ensures PreviousName(destination, a) == PreviousName(destination, b) <==> '.' in destination
  {
    PreviousNameForm(destination, a);
    PreviousNameForm(destination, b);
    if '.' !in destination {
      var (x, y) := (PreviousName(destination, a), PreviousName(destination, b));
      var n := |destination| + 2;
      assert x[n..n + 8] == a && y[n..n + 8] == b;
    }
  }

  /** The set-aside name differs for every temporary file exactly when the destination's name has
      no dot; with one, as in `project.exe`, it is the same name each time. */
  lemma PreviousNameIsUnique(destination: string)
    ensures '.' !in destination <==>
      forall a, b :: IsToken(a) && IsToken(b) && a != b ==> PreviousName(destination, a) != PreviousName(destination, b)
  {
    forall a, b | IsToken(a) && IsToken(b) && a != b
      ensures PreviousName(destination, a) == PreviousName(destination, b) <==> '.' in destination
    {
      PreviousNamesDiffer(destination, a, b);
    }
    assert "00000000"[7] != "00000001"[7];
    assert IsToken("00000000") && IsToken("00000001");
  }

  lemma NamesAreApart(destination: string, token: string)
    requires IsToken(token)
    ensures TemporaryName(destination, token) != destination
    ensures PreviousName(destination, token) != destination
    ensures PreviousName(destination, token) != TemporaryName(destination, token)
  {
    PreviousNameForm(destination, token);
    var dot := LastIndexOf(destination, '.');
    var previous, temporary := PreviousName(destination, token), TemporaryName(destination, token);
    assert temporary[|temporary| - 9] == '-';
    if dot >= 0 {
      assert previous[dot + 1] == '.' && |previous| == dot + 10;
    }
  }

  // --- The file system -------------------------------------------------------------------------

  type Bytes = seq<Byte>

  /** A file: its bytes, its mode and times as one number, and whether its bytes are known to have
      reached the disk. */
  datatype File = File(bytes: Bytes, stat: nat, flushed: bool)

  /** A directory of names and the inodes they refer to. */
  datatype Disk = Disk(names: map<string, nat>, inodes: map<nat, File>)

  function Content(disk: Disk, name: string): Option<File> {
    if name in disk.names && disk.names[name] in disk.inodes then Some(disk.inodes[disk.names[name]]) else None
  }

  predicate Identical(disk: Disk, left: string, right: string) {
    && left in disk.names && disk.names[left] in disk.inodes
    && right in disk.names && disk.names[right] in disk.inodes
    && disk.inodes[disk.names[left]].bytes == disk.inodes[disk.names[right]].bytes
  }

  function Renamed(disk: Disk, from: string, to: string): Disk
    requires from in disk.names
  {
    disk.(names := (disk.names - {from})[to := disk.names[from]])
  }

  predicate IsNamed(disk: Disk, inode: nat) {
    exists name :: name in disk.names && disk.names[name] == inode
  }

  /** What the shared name costs: with a dot in the destination's name, and only then, setting a
      binary aside a second time takes the first set-aside binary's only name. */
  lemma SecondSetAsideReplacesFirst(disk: Disk, destination: string, a: string, b: string)
    requires IsToken(a) && IsToken(b) && a != b
    requires destination in disk.names && PreviousName(destination, a) in disk.names
    requires forall name :: name in disk.names && disk.names[name] == disk.names[PreviousName(destination, a)] ==>
      name == PreviousName(destination, a)
    ensures IsNamed(Renamed(disk, destination, PreviousName(destination, b)), disk.names[PreviousName(destination, a)])
      <==> '.' !in destination
  {
    var (first, e) := (PreviousName(destination, a), Renamed(disk, destination, PreviousName(destination, b)));
    NamesAreApart(destination, a);
    PreviousNamesDiffer(destination, a, b);
    if '.' !in destination {
      assert first in e.names && e.names[first] == disk.names[first];
    }
  }

  /** And while the first set-aside image still runs, a running destination cannot be replaced again,
      exactly when its name has a dot. */
  lemma RunningSetAsideIsInTheWay(disk: Disk, held: set<nat>, destination: string, a: string, b: string)
    requires IsToken(a) && IsToken(b) && a != b
    requires IsHeld(disk, held, PreviousName(destination, a)) && IsHeld(disk, held, destination)
    requires '.' !in destination ==> PreviousName(destination, b) !in disk.names
    ensures MayReplace(disk, held, destination, PreviousName(destination, b), true) <==> '.' !in destination
  {
    PreviousNamesDiffer(destination, a, b);
  }

  predicate WellFormed(disk: Disk) {
    forall name :: name in disk.names ==> disk.names[name] in disk.inodes
  }

  /** How one file call ends: well, with PermissionError, or with another OSError. */
  datatype Fault = Fine | Denied | Broken

  /** The name is that of a running image. */
  predicate IsHeld(disk: Disk, held: set<nat>, name: string) {
    name in disk.names && disk.names[name] in held
  }

  /** What becomes of a rename that meets no other fault. */
  function MoveVerdict(disk: Disk, held: set<nat>, from: string, to: string): Fault {
    if from !in disk.names then Broken else if IsHeld(disk, held, to) then Denied else Fine
  }

  function RemovalVerdict(disk: Disk, held: set<nat>, name: string, missingOk: bool): Fault {
    if IsHeld(disk, held, name) then Denied else if name in disk.names || missingOk then Fine else Broken
  }

  predicate NoFaults(faults: seq<Fault>) {
    forall k :: 0 <= k < |faults| ==> faults[k].Fine?
  }

  datatype Call = Stat | Read | MakeTemporary | Open | Write | Sync | CopyStat
                | Publish | SetAside | Retry | RollBack | DropPrevious | DropTemporary

  /** A call that was made and how it ended. */
  datatype Made = Made(call: Call, fault: Fault)

  /** What a publication that returns may have met: on Windows a refused replacement, and a refusal to
      remove the set-aside copy. */
  predicate Tolerated(m: Made, windows: bool) {
    m.fault.Fine? || (m.fault.Denied? && ((windows && m.call.Publish?) || m.call.DropPrevious?))
  }

  /** Every call since then was fine or is tolerated. */
  predicate AllTolerated(before: seq<Made>, after: seq<Made>, windows: bool) {
    forall k :: |before| <= k < |after| ==> Tolerated(after[k], windows)
  }

  /** The error is that of a call made since then that failed. */
  predicate IsOfACall(e: Raised, before: seq<Made>, after: seq<Made>) {
    !e.fault.Fine? && exists k :: |before| <= k < |after| && after[k] == Made(e.call, e.fault)
  }

  /** No failure is swallowed and none is made up. */
  predicate Answers<T>(r: Result<T, Raised>, before: seq<Made>, after: seq<Made>, windows: bool) {
    && before <= after
    && match r
       case Ok(_) => AllTolerated(before, after, windows)
       case Err(e) => IsOfACall(e, before, after)
  }

  lemma FailedCall<T>(e: Raised, before: seq<Made>, between: seq<Made>, windows: bool)
    requires before <= between && !e.fault.Fine?
    ensures Answers<T>(Err(e), before, between + [Made(e.call, e.fault)], windows)
  {
    assert (between + [Made(e.call, e.fault)])[|between|] == Made(e.call, e.fault);
  }

  lemma ToleratedCall<T>(r: Result<T, Raised>, m: Made, before: seq<Made>, after: seq<Made>, windows: bool)
    requires Tolerated(m, windows) && Answers(r, before + [m], after, windows)
    ensures Answers(r, before, after, windows)
  {
    assert before + [m] <= after && after[|before|] == (before + [m])[|before|];
  }

  /** A raised OSError: the call, its kind, and the error it was raised while handling. */
  datatype Raised = Raised(call: Call, fault: Fault, during: Option<Raised>)

  predicate RolledBackInVain(e: Raised) {
    e.call.RollBack? || (e.during.Some? && RolledBackInVain(e.during.value))
  }

  /** The file calls. `held` are the images that Windows runs: such a file may be renamed, but the
      name it has may be neither given to another nor removed. `faults` are the outcomes of the calls
      to come (all fine after its end); `calls` are those made; `history` holds the disk after every
      call that may change it. */
  class FileSystem {
    const held: set<nat>
    var disk: Disk
    var nextInode: nat
    var faults: seq<Fault>
    ghost var calls: seq<Made>
    ghost var history: seq<Disk>

    constructor (disk: Disk, held: set<nat>, nextInode: nat, faults: seq<Fault>)
      requires WellFormed(disk)
      requires forall inode :: inode in disk.inodes || inode in held ==> inode < nextInode
      ensures Valid() && this.disk == disk && this.held == held && this.faults == faults && history == [] && calls == []
    {
      this.disk, this.held, this.nextInode, this.faults, history, calls := disk, held, nextInode, faults, [], [];
    }

    ghost predicate Valid()
      reads this
    {
      WellFormed(disk) && forall inode :: inode in disk.inodes || inode in held ==> inode < nextInode
    }

    method Draw() returns (fault: Fault)
      modifies this`faults
      ensures NoFaults(old(faults)) ==> fault.Fine? && NoFaults(faults)
    {
      if faults == [] {
        return Fine;
      }
      fault, faults := faults[0], faults[1..];
    }

    /** A call that changes nothing. */
    method Attempt(call: Call) returns (fault: Fault)
      modifies this`faults, this`calls
      ensures calls == old(calls) + [Made(call, fault)]
      ensures NoFaults(old(faults)) ==> fault.Fine? && NoFaults(faults)
    {
      fault := Draw();
      calls := calls + [Made(call, fault)];
    }

    /** Opens an existing file. */
    method OpenExisting(name: string) returns (fault: Fault)
      modifies this`faults, this`calls
      ensures calls == old(calls) + [Made(Open, fault)]
      ensures fault.Fine? ==> name in disk.names
      ensures NoFaults(old(faults)) ==> NoFaults(faults) && (fault.Fine? <==> name in disk.names)
    {
      fault := Draw();
      if fault.Fine? && name !in disk.names {
        fault := Broken;
      }
      calls := calls + [Made(Open, fault)];
    }

    method Create(name: string) returns (fault: Fault, inode: nat)
      requires Valid()
      modifies this
      ensures Valid() && history == old(history) + [disk] && calls == old(calls) + [Made(MakeTemporary, fault)]
      ensures !fault.Fine? ==> disk == old(disk)
      ensures fault.Fine? ==>
        && name !in old(disk).names && inode !in old(disk).inodes && inode !in held
        && disk == Disk(old(disk).names[name := inode], old(disk).inodes[inode := File([], 0, false)])
      ensures NoFaults(old(faults)) ==> NoFaults(faults) && (fault.Fine? <==> name !in old(disk).names)
    {
      inode := nextInode;
      fault := Draw();
      if fault.Fine? && name in disk.names {
        fault := Broken;
      }
      if fault.Fine? {
        disk := Disk(disk.names[name := inode], disk.inodes[inode := File([], 0, false)]);
        nextInode := nextInode + 1;
      }
      history, calls := history + [disk], calls + [Made(MakeTemporary, fault)];
    }

    /** What becomes of one inode; every other stays, and so do the names. */
    ghost predicate Changed(before: Disk, inode: nat, file: File)
      reads this
    {
      inode in before.inodes && disk == before.(inodes := before.inodes[inode := file])
    }

    /** A write that fails may leave anything of the block behind, none of it flushed. */
    method Append(inode: nat, block: Bytes) returns (fault: Fault)
      requires Valid() && inode in disk.inodes
      modifies this`disk, this`faults, this`history, this`calls
      ensures Valid() && history == old(history) + [disk] && calls == old(calls) + [Made(Write, fault)]
      ensures inode in disk.inodes && Changed(old(disk), inode, disk.inodes[inode]) && !disk.inodes[inode].flushed
      ensures fault.Fine? ==> disk.inodes[inode].bytes == old(disk).inodes[inode].bytes + block
      ensures NoFaults(old(faults)) ==> NoFaults(faults) && fault.Fine?
    {
      fault := Draw();
      var written := if fault.Fine? then block else block[..|block| / 2];
      var file := disk.inodes[inode];
      disk := disk.(inodes := disk.inodes[inode := file.(bytes := file.bytes + written, flushed := false)]);
      history, calls := history + [disk], calls + [Made(Write, fault)];
    }

    /** `fsync`: what was written has reached the disk. */
    method Flush(inode: nat) returns (fault: Fault)
      requires Valid() && inode in disk.inodes
      modifies this`disk, this`faults, this`history, this`calls
      ensures Valid() && history == old(history) + [disk] && calls == old(calls) + [Made(Sync, fault)]
      ensures fault.Fine? ==> Changed(old(disk), inode, old(disk).inodes[inode].(flushed := true))
      ensures !fault.Fine? ==> disk == old(disk)
      ensures NoFaults(old(faults)) ==> NoFaults(faults) && fault.Fine?
    {
      fault := Draw();
      if fault.Fine? {
        disk := disk.(inodes := disk.inodes[inode := disk.inodes[inode].(flushed := true)]);
      }
      history, calls := history + [disk], calls + [Made(Sync, fault)];
    }

    /** `copystat`: mode and times of one name's file for another's. */
    method CopyStatOf(from: string, to: string) returns (fault: Fault)
      requires Valid() && to in disk.names
      modifies this`disk, this`faults, this`history, this`calls
      ensures Valid() && history == old(history) + [disk] && calls == old(calls) + [Made(CopyStat, fault)]
      ensures fault.Fine? ==> from in old(disk).names && Changed(old(disk), old(disk).names[to],
        old(disk).inodes[old(disk).names[to]].(stat := old(disk).inodes[old(disk).names[from]].stat))
      ensures !fault.Fine? ==> disk == old(disk)
      ensures NoFaults(old(faults)) ==> NoFaults(faults) && (fault.Fine? <==> from in old(disk).names)
    {
      fault := Draw();
      if fault.Fine? && from !in disk.names {
        fault := Broken;
      }
      if fault.Fine? {
        var inode, stat := disk.names[to], disk.inodes[disk.names[from]].stat;
        disk := disk.(inodes := disk.inodes[inode := disk.inodes[inode].(stat := stat)]);
      }
      history, calls := history + [disk], calls + [Made(CopyStat, fault)];
    }

    method Replace(call: Call, from: string, to: string) returns (fault: Fault)
      requires Valid()
      modifies this`disk, this`faults, this`history, this`calls
      ensures Valid() && history == old(history) + [disk] && calls == old(calls) + [Made(call, fault)]
      ensures !fault.Fine? ==> disk == old(disk)
      ensures fault.Fine? ==> from in old(disk).names && disk == Renamed(old(disk), from, to)
      ensures NoFaults(old(faults)) ==> NoFaults(faults)
      ensures NoFaults(old(faults)) ==> fault == MoveVerdict(old(disk), held, from, to)
    {
      fault := Draw();
      if fault.Fine? {
        fault := MoveVerdict(disk, held, from, to);
      }
      if fault.Fine? {
        disk := Renamed(disk, from, to);
      }
      history, calls := history + [disk], calls + [Made(call, fault)];
    }

    method Unlink(call: Call, name: string, missingOk: bool) returns (fault: Fault)
      requires Valid()
      modifies this`disk, this`faults, this`history, this`calls
      ensures Valid() && history == old(history) + [disk] && calls == old(calls) + [Made(call, fault)]
      ensures disk == if fault.Fine? then old(disk).(names := old(disk).names - {name}) else old(disk)
      ensures NoFaults(old(faults)) ==> NoFaults(faults)
      ensures NoFaults(old(faults)) ==> fault == RemovalVerdict(old(disk), held, name, missingOk)
    {
      fault := Draw();
      if fault.Fine? {
        fault := RemovalVerdict(disk, held, name, missingOk);
      }
      if fault.Fine? {
        disk := disk.(names := disk.names - {name});
      }
      history, calls := history + [disk], calls + [Made(call, fault)];
    }
  }

  // --- The publication -------------------------------------------------------------------------

  /** The names a publication uses and the disk it starts from. */
  datatype Plan = Plan(start: Disk, source: string, destination: string, temporary: string, previous: string) {
    /** The source's bytes; a source that is missing has none to give. */
    function NewBytes(): Bytes {
      var content := Content(start, source);
      if content.Some? then content.value.bytes else []
    }

    /** A whole copy of the source: its bytes, flushed, and its mode and times. */
    predicate IsCopy(file: File) {
      && file.bytes == NewBytes() && file.flushed
      && (Content(start, source).Some? ==> file.stat == Content(start, source).value.stat)
    }

    predicate Apart() {
      temporary != destination && previous != destination && previous != temporary
    }
  }

  predicate IsOld(p: Plan, d: Disk) {
    Content(d, p.destination) == Content(p.start, p.destination)
  }

  predicate IsNew(p: Plan, d: Disk) {
    Content(d, p.destination).Some? && p.IsCopy(Content(d, p.destination).value)
  }

  /** Between setting the old binary aside and putting one in its place. */
  predicate IsSetAside(p: Plan, d: Disk) {
    && p.destination in p.start.names && p.destination !in d.names
    && Content(d, p.previous) == Content(p.start, p.destination)
  }

  /** What a crash may leave: the old or the new bytes, whole, at the destination, or the old ones
      set aside. Bytes behind open handles and other names are as they were. */
  ghost predicate Safe(p: Plan, d: Disk) {
    && (IsOld(p, d) || IsNew(p, d) || IsSetAside(p, d))
    && (forall inode :: inode in p.start.inodes ==> inode in d.inodes && d.inodes[inode] == p.start.inodes[inode])
    && (forall name :: name !in {p.destination, p.temporary, p.previous} ==>
          (name in d.names <==> name in p.start.names)
          && (name in d.names ==> d.names[name] == p.start.names[name]))
  }

  /** How a call leaves the disk at its exit: new if it returns; old or new if it raises, unless
      the rollback rename failed, and then the old bytes are set aside. */
  ghost predicate EndsWell<T>(p: Plan, r: Result<T, Raised>, d: Disk) {
    && Safe(p, d)
    && match r
       case Ok(_) => IsNew(p, d)
       case Err(e) => if RolledBackInVain(e) then IsSetAside(p, d) else IsOld(p, d) || IsNew(p, d)
  }

  /** Every disk of the history from `mark` on is safe. */
  ghost predicate SafeSince(fs: FileSystem, mark: nat, p: Plan)
    reads fs
  {
    mark <= |fs.history| && forall k :: mark <= k < |fs.history| ==> Safe(p, fs.history[k])
  }

  method FilesIdentical(fs: FileSystem, left: string, right: string) returns (r: Result<bool, Raised>)
    requires fs.Valid()
    modifies fs`faults, fs`calls
    ensures r.Ok? ==> (r.value <==>
      && left in fs.disk.names && right in fs.disk.names
      && fs.disk.inodes[fs.disk.names[left]].bytes == fs.disk.inodes[fs.disk.names[right]].bytes)
    ensures Answers(r, old(fs.calls), fs.calls, false)
    ensures r.Err? ==> r.error.during.None? && r.error.call in {Stat, Read}
    ensures NoFaults(old(fs.faults)) ==> r.Ok? && NoFaults(fs.faults)
  {
    if left !in fs.disk.names || right !in fs.disk.names {
      return Ok(false);
    }
    var a, b := fs.disk.inodes[fs.disk.names[left]].bytes, fs.disk.inodes[fs.disk.names[right]].bytes;
    var fault := AttemptTwice(fs, Stat);
    if !fault.Fine? {
      return Err(Raised(Stat, fault, None));
    }
    if |a| != |b| {
      return Ok(false);
    }
    fault := AttemptTwice(fs, Read);
    if !fault.Fine? {
      return Err(Raised(Read, fault, None));
    }
    return Ok(a == b);
  }

  /** The same call on both files, the second only if the first was fine. */
  method AttemptTwice(fs: FileSystem, call: Call) returns (fault: Fault)
    modifies fs`faults, fs`calls
    ensures Answers(if fault.Fine? then Ok(()) else Err(Raised(call, fault, None)), old(fs.calls), fs.calls, false)
    ensures NoFaults(old(fs.faults)) ==> fault.Fine? && NoFaults(fs.faults)
  {
    fault := fs.Attempt(call);
    if fault.Fine? {
      fault := fs.Attempt(call);
    }
    assert fs.calls[|fs.calls| - 1] == Made(call, fault);
  }

  const BLOCK: nat := 65536

  /** While the temporary file is written, every disk is safe and the destination old. */
  ghost predicate Filling(fs: FileSystem, p: Plan, names: map<string, nat>, inode: nat, mark: nat)
    reads fs
  {
    && fs.Valid() && SafeSince(fs, mark, p) && Safe(p, fs.disk) && IsOld(p, fs.disk)
    && fs.disk.names == names && inode in fs.disk.inodes && inode !in p.start.inodes
    && names == p.start.names[p.temporary := inode] && p.temporary !in p.start.names
    && p.temporary != p.destination && WellFormed(p.start)
  }

  /** Whatever becomes of the temporary inode, the disk is as safe as it was. */
  lemma WritingIsSafe(p: Plan, d: Disk, inode: nat, file: File)
    requires Safe(p, d) && IsOld(p, d) && WellFormed(d) && WellFormed(p.start)
    requires inode in d.inodes && inode !in p.start.inodes
    requires p.temporary != p.destination && d.names == p.start.names[p.temporary := inode]
    ensures var e := d.(inodes := d.inodes[inode := file]); Safe(p, e) && IsOld(p, e) && WellFormed(e)
  {
  }

  /** Writes the input, block by block, through the handle `mkstemp` opened. */
  method CopyBlocks(fs: FileSystem, p: Plan, inode: nat, input: Bytes, ghost mark: nat) returns (r: Result<(), Raised>)
    requires Filling(fs, p, fs.disk.names, inode, mark) && fs.disk.inodes[inode].bytes == []
    modifies fs
    ensures old(fs.history) <= fs.history && Filling(fs, p, old(fs.disk.names), inode, mark)
    ensures Answers(r, old(fs.calls), fs.calls, false)
    ensures r.Ok? ==> fs.disk.inodes[inode].bytes == input
    ensures r.Err? ==> r.error.during.None? && r.error.call in {Read, Write}
    ensures NoFaults(old(fs.faults)) ==> NoFaults(fs.faults) && r.Ok?
  {
    var done := 0;
    while done < |input|
      invariant done <= |input|
      invariant old(fs.history) <= fs.history && Filling(fs, p, old(fs.disk.names), inode, mark)
      invariant fs.disk.inodes[inode].bytes == input[..done]
      invariant old(fs.calls) <= fs.calls && AllTolerated(old(fs.calls), fs.calls, false)
      invariant NoFaults(old(fs.faults)) ==> NoFaults(fs.faults)
    {
      var next := if |input| - done <= BLOCK then |input| else done + BLOCK;
      assert input[..next] == input[..done] + input[done..next];
      ghost var before := fs.calls;
      var fault := fs.Attempt(Read);
      if !fault.Fine? {
        FailedCall<()>(Raised(Read, fault, None), old(fs.calls), before, false);
        return Err(Raised(Read, fault, None));
      }
      before := fs.calls;
      ghost var disk := fs.disk;
      fault := fs.Append(inode, input[done..next]);
      WritingIsSafe(p, disk, inode, fs.disk.inodes[inode]);
      if !fault.Fine? {
        FailedCall<()>(Raised(Write, fault, None), old(fs.calls), before, false);
        return Err(Raised(Write, fault, None));
      }
      done := next;
    }
    assert input[..done] == input;
    return Ok(());
  }

  /** Fills the temporary file, flushes it and gives it the source's mode and times. */
  method FillTemporary(fs: FileSystem, p: Plan, inode: nat, ghost mark: nat) returns (r: Result<(), Raised>)
    requires p.Apart() && Filling(fs, p, fs.disk.names, inode, mark) && fs.disk.inodes[inode].bytes == []
    modifies fs
    ensures old(fs.history) <= fs.history && Filling(fs, p, old(fs.disk.names), inode, mark)
    ensures Answers(r, old(fs.calls), fs.calls, false)
    ensures r.Ok? ==> p.IsCopy(fs.disk.inodes[inode])
    ensures r.Ok? ==> p.source in p.start.names || p.source == p.temporary
    ensures r.Err? ==> r.error.during.None? && r.error.call in {Open, Read, Write, Sync, CopyStat}
    ensures NoFaults(old(fs.faults)) ==> NoFaults(fs.faults) && (r.Ok? <==> p.source in old(fs.disk).names)
  {
    var fault := fs.OpenExisting(p.source);
    if !fault.Fine? {
      FailedCall<()>(Raised(Open, fault, None), old(fs.calls), old(fs.calls), false);
      return Err(Raised(Open, fault, None));
    }
    var input := Content(fs.disk, p.source).value.bytes;
    assert input == p.NewBytes();
    ghost var start := fs.calls;
    r := CopyBlocks(fs, p, inode, input, mark);
    ghost var copied := fs.calls;
    if r.Ok? {
      r := FinishTemporary(fs, p, inode, mark);
      AnswersInTwo(r, start, copied, fs.calls, false);
    }
    ToleratedCall(r, Made(Open, fault), old(fs.calls), fs.calls, false);
  }

  method FinishTemporary(fs: FileSystem, p: Plan, inode: nat, ghost mark: nat) returns (r: Result<(), Raised>)
    requires p.Apart() && Filling(fs, p, fs.disk.names, inode, mark) && fs.disk.inodes[inode].bytes == p.NewBytes()
    modifies fs
    ensures old(fs.history) <= fs.history && Filling(fs, p, old(fs.disk.names), inode, mark)
    ensures Answers(r, old(fs.calls), fs.calls, false)
    ensures r.Ok? ==> p.IsCopy(fs.disk.inodes[inode])
    ensures r.Err? ==> r.error.during.None? && r.error.call in {Sync, CopyStat}
    ensures NoFaults(old(fs.faults)) ==> NoFaults(fs.faults) && (r.Ok? <==> p.source in old(fs.disk).names)
  {
    ghost var disk := fs.disk;
    var fault := fs.Flush(inode);
    if !fault.Fine? {
      FailedCall<()>(Raised(Sync, fault, None), old(fs.calls), old(fs.calls), false);
      return Err(Raised(Sync, fault, None));
    }
    WritingIsSafe(p, disk, inode, fs.disk.inodes[inode]);
    r := CopyTimes(fs, p, inode, mark);
    ToleratedCall(r, Made(Sync, fault), old(fs.calls), fs.calls, false);
  }

  method CopyTimes(fs: FileSystem, p: Plan, inode: nat, ghost mark: nat) returns (r: Result<(), Raised>)
    requires p.Apart() && Filling(fs, p, fs.disk.names, inode, mark)
    requires fs.disk.inodes[inode].bytes == p.NewBytes() && fs.disk.inodes[inode].flushed
    modifies fs
    ensures old(fs.history) <= fs.history && Filling(fs, p, old(fs.disk.names), inode, mark)
    ensures Answers(r, old(fs.calls), fs.calls, false)
    ensures r.Ok? ==> p.IsCopy(fs.disk.inodes[inode])
    ensures r.Err? ==> r.error.during.None? && r.error.call == CopyStat
    ensures NoFaults(old(fs.faults)) ==> NoFaults(fs.faults) && (r.Ok? <==> p.source in old(fs.disk).names)
  {
    ghost var disk := fs.disk;
    var fault := fs.CopyStatOf(p.source, p.temporary);
    if !fault.Fine? {
      FailedCall<()>(Raised(CopyStat, fault, None), old(fs.calls), old(fs.calls), false);
      return Err(Raised(CopyStat, fault, None));
    }
    WritingIsSafe(p, disk, inode, fs.disk.inodes[inode]);
    return Ok(());
  }

  /** The temporary file is filled and the destination still old. */
  ghost predicate Ready(p: Plan, d: Disk) {
    && p.Apart() && WellFormed(d) && Safe(p, d) && IsOld(p, d)
    && Content(d, p.temporary).Some? && p.IsCopy(Content(d, p.temporary).value)
  }

  /** The old binary is set aside, the temporary file waits to take its place. */
  ghost predicate Exchanging(p: Plan, d: Disk) {
    && p.Apart() && WellFormed(d) && Safe(p, d) && IsSetAside(p, d)
    && Content(d, p.temporary).Some? && p.IsCopy(Content(d, p.temporary).value)
  }

  lemma PublishingIsSafe(p: Plan, d: Disk)
    requires Ready(p, d) || Exchanging(p, d)
    ensures var e := Renamed(d, p.temporary, p.destination); Safe(p, e) && IsNew(p, e)
  {
  }

  lemma SettingAsideIsSafe(p: Plan, d: Disk)
    requires Ready(p, d) && p.destination in d.names && WellFormed(p.start)
    ensures Exchanging(p, Renamed(d, p.destination, p.previous))
  {
    var e := Renamed(d, p.destination, p.previous);
    assert Content(e, p.previous) == Content(d, p.destination);
    assert Content(e, p.temporary) == Content(d, p.temporary);
  }

  lemma RollingBackIsSafe(p: Plan, d: Disk)
    requires Exchanging(p, d) && p.previous in d.names
    ensures var e := Renamed(d, p.previous, p.destination); Safe(p, e) && IsOld(p, e)
  {
  }

  lemma DroppingIsSafe(p: Plan, d: Disk, name: string)
    requires p.Apart() && Safe(p, d)
    requires name == p.temporary || (name == p.previous && (IsOld(p, d) || IsNew(p, d)))
    ensures var e := d.(names := d.names - {name});
      && Safe(p, e) && (IsOld(p, d) ==> IsOld(p, e)) && (IsNew(p, d) ==> IsNew(p, e))
      && (name == p.temporary && IsSetAside(p, d) ==> IsSetAside(p, e))
  {
  }

  /** A running destination can be replaced on Windows only by setting it aside, and not under the name
      of another running image. */
  predicate MayReplace(disk: Disk, held: set<nat>, destination: string, previous: string, windows: bool) {
    IsHeld(disk, held, destination) ==> windows && !IsHeld(disk, held, previous)
  }

  /** Puts the filled temporary file in the destination's place, on Windows by way of setting a
      busy destination aside. */
  method PutInPlace(fs: FileSystem, p: Plan, windows: bool, ghost mark: nat) returns (r: Result<(), Raised>)
    requires fs.Valid() && WellFormed(p.start) && SafeSince(fs, mark, p) && Ready(p, fs.disk)
    modifies fs
    ensures old(fs.history) <= fs.history && Answers(r, old(fs.calls), fs.calls, windows)
    ensures fs.Valid() && SafeSince(fs, mark, p) && EndsWell(p, r, fs.disk)
    ensures r.Err? ==> !r.error.call.DropTemporary?
    ensures r.Ok? ==> p.temporary !in fs.disk.names
    ensures NoFaults(old(fs.faults)) ==> NoFaults(fs.faults)
    ensures NoFaults(old(fs.faults)) ==>
      (r.Ok? <==> MayReplace(old(fs.disk), fs.held, p.destination, p.previous, windows))
  {
    PublishingIsSafe(p, fs.disk);
    var fault := fs.Replace(Publish, p.temporary, p.destination);
    if fault.Fine? {
      return Ok(());
    }
    var refused := Raised(Publish, fault, None);
    if !fault.Denied? || !windows || p.destination !in fs.disk.names {
      FailedCall<()>(refused, old(fs.calls), old(fs.calls), windows);
      return Err(refused);
    }
    r := PutAsideFirst(fs, p, refused, mark);
    ToleratedCall(r, Made(Publish, fault), old(fs.calls), fs.calls, windows);
  }

  /** Sets the busy destination aside and tries again. */
  method PutAsideFirst(fs: FileSystem, p: Plan, refused: Raised, ghost mark: nat) returns (r: Result<(), Raised>)
    requires fs.Valid() && WellFormed(p.start) && SafeSince(fs, mark, p)
    requires Ready(p, fs.disk) && p.destination in fs.disk.names && !RolledBackInVain(refused)
    modifies fs
    ensures old(fs.history) <= fs.history && Answers(r, old(fs.calls), fs.calls, true)
    ensures fs.Valid() && SafeSince(fs, mark, p) && EndsWell(p, r, fs.disk)
    ensures r.Err? ==> !r.error.call.DropTemporary?
    ensures r.Ok? ==> p.temporary !in fs.disk.names
    ensures NoFaults(old(fs.faults)) ==>
      NoFaults(fs.faults) && (r.Ok? <==> !IsHeld(old(fs.disk), fs.held, p.previous))
  {
    SettingAsideIsSafe(p, fs.disk);
    var fault := fs.Replace(SetAside, p.destination, p.previous);
    if !fault.Fine? {
      FailedCall<()>(Raised(SetAside, fault, Some(refused)), old(fs.calls), old(fs.calls), true);
      return Err(Raised(SetAside, fault, Some(refused)));
    }
    r := Exchange(fs, p, refused, mark);
    ToleratedCall(r, Made(SetAside, fault), old(fs.calls), fs.calls, true);
  }

  /** The destination is set aside: the new binary goes in, or the old one back. */
  method Exchange(fs: FileSystem, p: Plan, refused: Raised, ghost mark: nat) returns (r: Result<(), Raised>)
    requires fs.Valid() && WellFormed(p.start) && SafeSince(fs, mark, p)
    requires Exchanging(p, fs.disk) && !RolledBackInVain(refused)
    modifies fs
    ensures old(fs.history) <= fs.history && Answers(r, old(fs.calls), fs.calls, true)
    ensures fs.Valid() && SafeSince(fs, mark, p) && EndsWell(p, r, fs.disk)
    ensures r.Err? ==> !r.error.call.DropTemporary?
    ensures r.Ok? ==> p.temporary !in fs.disk.names
    ensures NoFaults(old(fs.faults)) ==> NoFaults(fs.faults) && r.Ok?
  {
    PublishingIsSafe(p, fs.disk);
    var fault := fs.Replace(Retry, p.temporary, p.destination);
    if fault.Fine? {
      r := DropSetAside(fs, p, refused, mark);
      ToleratedCall(r, Made(Retry, fault), old(fs.calls), fs.calls, true);
    } else {
      var failed := Raised(Retry, fault, Some(refused));
      ghost var between := fs.calls;
      r := PutBack(fs, p, failed, mark);
      FailureOrEarlier(r, failed, old(fs.calls), between, fs.calls);
    }
  }

  lemma FailureOrEarlier<T>(r: Result<T, Raised>, failed: Raised, before: seq<Made>, between: seq<Made>,
                            after: seq<Made>)
    requires between == before + [Made(failed.call, failed.fault)] && between <= after && !failed.fault.Fine?
    requires r.Err? && (r.error == failed || IsOfACall(r.error, between, after))
    ensures Answers(r, before, after, true)
  {
    if r.error == failed {
      assert after[|before|] == between[|before|];
    } else {
      var k :| |between| <= k < |after| && after[k] == Made(r.error.call, r.error.fault);
    }
  }

  /** The new binary is in place; the old one may go, unless it still runs. */
  method DropSetAside(fs: FileSystem, p: Plan, refused: Raised, ghost mark: nat) returns (r: Result<(), Raised>)
    requires fs.Valid() && p.Apart() && SafeSince(fs, mark, p) && Safe(p, fs.disk) && IsNew(p, fs.disk)
    requires p.temporary !in fs.disk.names && !RolledBackInVain(refused)
    modifies fs
    ensures old(fs.history) <= fs.history && Answers(r, old(fs.calls), fs.calls, true)
    ensures fs.Valid() && SafeSince(fs, mark, p) && EndsWell(p, r, fs.disk)
    ensures r.Err? ==> r.error.call.DropPrevious?
    ensures p.temporary !in fs.disk.names
    ensures NoFaults(old(fs.faults)) && p.previous in old(fs.disk).names ==> NoFaults(fs.faults) && r.Ok?
  {
    DroppingIsSafe(p, fs.disk, p.previous);
    var fault := fs.Unlink(DropPrevious, p.previous, false);
    if fault.Broken? {
      FailedCall<()>(Raised(DropPrevious, fault, Some(refused)), old(fs.calls), old(fs.calls), true);
      return Err(Raised(DropPrevious, fault, Some(refused)));
    }
    return Ok(());
  }

  method PutBack(fs: FileSystem, p: Plan, failed: Raised, ghost mark: nat) returns (r: Result<(), Raised>)
    requires fs.Valid() && SafeSince(fs, mark, p) && Exchanging(p, fs.disk)
    requires !RolledBackInVain(failed) && !failed.call.DropTemporary?
    modifies fs
    ensures old(fs.history) <= fs.history && old(fs.calls) <= fs.calls
    ensures r.Err? && (r.error == failed || IsOfACall(r.error, old(fs.calls), fs.calls))
    ensures fs.Valid() && SafeSince(fs, mark, p) && EndsWell(p, r, fs.disk)
    ensures r.Err? && !r.error.call.DropTemporary?
  {
    if p.previous in fs.disk.names {
      RollingBackIsSafe(p, fs.disk);
    }
    var fault := fs.Replace(RollBack, p.previous, p.destination);
    if !fault.Fine? {
      FailedCall<()>(Raised(RollBack, fault, Some(failed)), old(fs.calls), old(fs.calls), true);
      return Err(Raised(RollBack, fault, Some(failed)));
    }
    return Err(failed);
  }

  /** The `try` and its `finally`: whatever came of the publication, the temporary file goes. */
  method PublishAndCleanUp(fs: FileSystem, p: Plan, inode: nat, windows: bool, ghost mark: nat)
    returns (r: Result<bool, Raised>)
    requires p.Apart() && Filling(fs, p, fs.disk.names, inode, mark) && fs.disk.inodes[inode].bytes == []
    modifies fs
    ensures old(fs.history) <= fs.history && Answers(r, old(fs.calls), fs.calls, windows)
    ensures fs.Valid() && SafeSince(fs, mark, p) && EndsWell(p, r, fs.disk)
    ensures r != Ok(false)
    ensures r.Ok? || !r.error.call.DropTemporary? ==> p.temporary !in fs.disk.names
    ensures r.Ok? ==> p.source in p.start.names || p.source == p.temporary
    ensures NoFaults(old(fs.faults)) && p.source in old(fs.disk).names ==>
      (r.Ok? <==> MayReplace(p.start, fs.held, p.destination, p.previous, windows))
  {
    var outcome := FillTemporary(fs, p, inode, mark);
    ghost var between := fs.calls;
    if outcome.Ok? {
      outcome := PutInPlace(fs, p, windows, mark);
      AnswersInTwo(outcome, old(fs.calls), between, fs.calls, windows);
    }
    between := fs.calls;
    r := CleanUp(fs, p, outcome, mark);
    AnswersAtLast(outcome, r, old(fs.calls), between, fs.calls, windows);
  }

  lemma AnswersInTwo<T>(r: Result<T, Raised>, before: seq<Made>, between: seq<Made>, after: seq<Made>, windows: bool)
    requires Answers(Ok(()), before, between, false) && Answers(r, between, after, windows)
    ensures Answers(r, before, after, windows)
  {
    if r.Err? {
      var k :| |between| <= k < |after| && after[k] == Made(r.error.call, r.error.fault);
    }
  }

  lemma AnswersAtLast(r: Result<(), Raised>, s: Result<bool, Raised>, before: seq<Made>, between: seq<Made>,
                      after: seq<Made>, windows: bool)
    requires between <= after && (s.Ok? ==> r.Ok? && AllTolerated(between, after, windows))
    requires (r.Err? || windows || AllTolerated(before, between, false)) && Answers(r, before, between, windows)
    requires s.Err? ==> (r.Err? && s.error == r.error) || IsOfACall(s.error, between, after)
    ensures Answers(s, before, after, windows)
  {
    if s.Err? {
      if r.Err? && s.error == r.error {
        var k :| |before| <= k < |between| && between[k] == Made(r.error.call, r.error.fault);
        assert after[k] == between[k];
      } else {
        var k :| |between| <= k < |after| && after[k] == Made(s.error.call, s.error.fault);
      }
    }
  }

  /** Whatever came of it, the temporary name goes; if it cannot, that is raised instead. */
  method CleanUp(fs: FileSystem, p: Plan, outcome: Result<(), Raised>, ghost mark: nat)
    returns (r: Result<bool, Raised>)
    requires fs.Valid() && p.Apart() && SafeSince(fs, mark, p) && EndsWell(p, outcome, fs.disk)
    requires outcome.Err? ==> !outcome.error.call.DropTemporary?
    modifies fs
    ensures old(fs.history) <= fs.history && old(fs.calls) <= fs.calls
    ensures r.Ok? ==> AllTolerated(old(fs.calls), fs.calls, false)
    ensures r.Err? ==> (outcome.Err? && r.error == outcome.error) || IsOfACall(r.error, old(fs.calls), fs.calls)
    ensures fs.Valid() && SafeSince(fs, mark, p) && EndsWell(p, r, fs.disk)
    ensures r != Ok(false) && (r.Ok? ==> outcome.Ok?)
    ensures r.Ok? || !r.error.call.DropTemporary? ==> p.temporary !in fs.disk.names
    ensures NoFaults(old(fs.faults)) && p.temporary !in old(fs.disk).names ==> (r.Ok? <==> outcome.Ok?)
  {
    DroppingIsSafe(p, fs.disk, p.temporary);
    var fault := fs.Unlink(DropTemporary, p.temporary, true);
    if !fault.Fine? {
      FailedCall<()>(Raised(DropTemporary, fault, None), old(fs.calls), old(fs.calls), false);
      var context := if outcome.Err? then Some(outcome.error) else None;
      var error := Raised(DropTemporary, fault, context);
      assert RolledBackInVain(error) <==> outcome.Err? && RolledBackInVain(outcome.error);
      return Err(error);
    }
    return if outcome.Ok? then Ok(true) else Err(outcome.error);
  }

  /** Publishes changed bytes. `token` is the random part of the temporary name it ends up with.
      Whatever fails, every disk on the way is safe, and at the exit the destination holds its old
      bytes or all of the new ones, unless the rollback rename itself failed. */
  method CopyIfChanged(fs: FileSystem, source: string, destination: string, token: string, windows: bool)
    returns (r: Result<bool, Raised>, ghost p: Plan)
    requires fs.Valid() && IsToken(token)
    modifies fs
    ensures p == Plan(old(fs.disk), source, destination,
                      TemporaryName(destination, token), PreviousName(destination, token))
    ensures fs.Valid() && old(fs.history) <= fs.history && Answers(r, old(fs.calls), fs.calls, windows)
    ensures SafeSince(fs, |old(fs.history)|, p)
    ensures r == Ok(false) <==> r.Ok? && Identical(old(fs.disk), source, destination)
    ensures Identical(old(fs.disk), source, destination) ==> fs.disk == old(fs.disk) && fs.history == old(fs.history)
    ensures r != Ok(false) ==> EndsWell(p, r, fs.disk)
    ensures r.Ok? && source in old(fs.disk).names ==>
      && destination in fs.disk.names
      && fs.disk.inodes[fs.disk.names[destination]].bytes == old(fs.disk).inodes[old(fs.disk).names[source]].bytes
    ensures r.Ok? ==> source in old(fs.disk).names || source == p.temporary
    ensures r.Err? && destination in old(fs.disk).names ==>
      HoldsEither(old(fs.disk), fs.disk, source, destination)
      || (RolledBackInVain(r.error) && p.previous in fs.disk.names
          && fs.disk.inodes[fs.disk.names[p.previous]] == old(fs.disk).inodes[old(fs.disk).names[destination]])
    ensures p.temporary !in old(fs.disk).names && (r.Ok? || !r.error.call.DropTemporary?) ==>
      p.temporary !in fs.disk.names
    ensures NoFaults(old(fs.faults)) && source in old(fs.disk).names && p.temporary !in old(fs.disk).names ==>
      (r.Ok? <==> Identical(old(fs.disk), source, destination)
                  || MayReplace(old(fs.disk), fs.held, destination, p.previous, windows))
  {
    var plan := Plan(fs.disk, source, destination, TemporaryName(destination, token), PreviousName(destination, token));
    p := plan;
    ghost var mark := |fs.history|;
    NamesAreApart(destination, token);
    var same := FilesIdentical(fs, source, destination);
    if same.Err? {
      return Err(same.error), p;
    }
    if same.value {
      return Ok(false), p;
    }
    ghost var between := fs.calls;
    r := MakeAndPublish(fs, plan, windows, mark);
    AnswersInTwo(r, old(fs.calls), between, fs.calls, windows);
  }

  /** The destination's file is the old one, or has the source's old bytes. */
  predicate HoldsEither(before: Disk, after: Disk, source: string, destination: string) {
    && destination in after.names && after.names[destination] in after.inodes
    && (Content(after, destination) == Content(before, destination)
        || (Content(before, source).Some?
            && after.inodes[after.names[destination]].bytes == Content(before, source).value.bytes)
        || (Content(before, source).None? && after.inodes[after.names[destination]].bytes == []))
  }

  method MakeAndPublish(fs: FileSystem, p: Plan, windows: bool, ghost mark: nat) returns (r: Result<bool, Raised>)
    requires fs.Valid() && p.Apart() && p.start == fs.disk && mark == |fs.history|
    modifies fs
    ensures old(fs.history) <= fs.history && Answers(r, old(fs.calls), fs.calls, windows)
    ensures fs.Valid() && SafeSince(fs, mark, p) && EndsWell(p, r, fs.disk)
    ensures r != Ok(false)
    ensures p.temporary !in old(fs.disk).names && (r.Ok? || !r.error.call.DropTemporary?) ==>
      p.temporary !in fs.disk.names
    ensures r.Ok? ==> p.source in p.start.names || p.source == p.temporary
    ensures NoFaults(old(fs.faults)) && p.source in old(fs.disk).names && p.temporary !in old(fs.disk).names ==>
      (r.Ok? <==> MayReplace(p.start, fs.held, p.destination, p.previous, windows))
  {
    var fault, inode := fs.Create(p.temporary);
    if !fault.Fine? {
      FailedCall<bool>(Raised(MakeTemporary, fault, None), old(fs.calls), old(fs.calls), windows);
      return Err(Raised(MakeTemporary, fault, None));
    }
    r := PublishAndCleanUp(fs, p, inode, windows, mark);
    ToleratedCall(r, Made(MakeTemporary, fault), old(fs.calls), fs.calls, windows);
  }
}
