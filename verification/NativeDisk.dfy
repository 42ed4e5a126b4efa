/**
  The guarded disk write (apps/host/src/native-disk.ts): one optimistic transaction on an open file,
  with short reads, short writes and failures at any system call, and no other writer.
*/
module NativeDisk {
  import opened Basics

  type Byte = b: int | 0 <= b < 256
  type Bytes = seq<Byte>

  /** An absolute path as its segments. */
  type Path = seq<string>

  const MAX_BYTES := 8 * 1024 * 1024

  /** `within`: the path is the root or lies below it. */
  predicate Within(root: Path, path: Path) { root <= path }

  // ------------------------------------------------------------- the environment

  /** What the next system call does: fail, or move at most this many bytes. */
  datatype Outcome = Fails | Moves(count: nat)

  datatype Stat = Stat(isFile: bool, identity: nat)

  /** What the file system answers about paths; `None` is an exception. */
  datatype Paths = Paths(
    root: Option<Path>,
    rootIsDirectory: Option<bool>,
    target: Option<Path>,
    expected: Option<Path>,
    before: Option<Stat>,
    opens: bool,
    descriptor: Option<Stat>,
    targetAgain: Option<Path>,
    current: Option<Stat>,
    after: Option<Stat>,
    closes: bool)

  /** `path` is non-empty when `hasPath`; texts are their UTF-8 bytes. */
  datatype Request = Request(hasPath: bool, isAbsolute: bool, expectedPath: Path, expectedText: Bytes, content: Bytes)

  datatype DiskError = DiskError(mayHaveApplied: bool)

  /** No call fails, and every call makes progress. */
  ghost predicate Smooth(script: seq<Outcome>) {
    forall o :: o in script ==> o.Moves? && o.count > 0
  }

  /** Bytes written over a file at an offset. */
  function Overlay(file: Bytes, offset: nat, data: Bytes): (r: Bytes)
    requires offset <= |file|
    ensures offset + |data| <= |r| && r[offset..offset + |data|] == data && r[..offset] == file[..offset]
  {
    file[..offset] + data + if offset + |data| < |file| then file[offset + |data|..] else []
  }

  /** The open file and the system calls on its descriptor. */
  class Disk {
    var file: Bytes
    var script: seq<Outcome>
    /** Calls so far that could change the file, whether they succeeded or not. */
    ghost var effects: nat

    constructor (file: Bytes, script: seq<Outcome>)
      ensures this.file == file && this.script == script && effects == 0
    {
      this.file, this.script, effects := file, script, 0;
    }

    /** The next outcome of the script; calls beyond it move everything they are asked to. */
    method Next(all: nat) returns (outcome: Outcome)
      modifies this`script
      ensures outcome.Moves? ==> outcome.count <= all
      ensures Smooth(old(script)) ==> Smooth(script) && outcome.Moves? && (all > 0 ==> outcome.count > 0)
    {
      if script == [] { return Moves(all); }
      outcome := script[0];
      script := script[1..];
      if outcome.Moves? && outcome.count > all {
        outcome := Moves(all);
      }
    }

    /** `readSync`: some bytes at the offset, perhaps fewer than asked for. */
    method Read(length: nat, offset: nat) returns (r: Option<Bytes>)
      modifies this`script
      ensures r.Some? ==> |r.value| <= length
      ensures r.Some? && |r.value| > 0 ==> (offset + |r.value| <= |file| && r.value == file[offset..offset + |r.value|])
      ensures Smooth(old(script)) ==> Smooth(script) && r.Some? && (length > 0 && offset < |file| ==> |r.value| > 0)
    {
      var available := if offset >= |file| then 0 else if offset + length <= |file| then length else |file| - offset;
      var outcome := Next(available);
      if outcome.Fails? { return None; }
      if outcome.count == 0 { return Some([]); }
      return Some(file[offset..offset + outcome.count]);
    }

    /** `writeSync`: a prefix of the data at the offset. */
    method Write(data: Bytes, offset: nat) returns (r: Option<nat>)
      requires offset <= |file|
      modifies this
      ensures effects == old(effects) + 1
      ensures r.None? ==> file == old(file)
      ensures r.Some? ==> r.value <= |data| && file == Overlay(old(file), offset, data[..r.value])
      ensures Smooth(old(script)) ==> Smooth(script) && r.Some? && (data != [] ==> r.value > 0)
    {
      effects := effects + 1;
      var outcome := Next(|data|);
      if outcome.Fails? { return None; }
      file := Overlay(file, offset, data[..outcome.count]);
      return Some(outcome.count);
    }

    /** `ftruncateSync`. */
    method Truncate(length: nat) returns (ok: bool)
      requires length <= |file|
      modifies this
      ensures effects == old(effects) + 1
      ensures file == if ok then old(file)[..length] else old(file)
      ensures Smooth(old(script)) ==> Smooth(script) && ok
    {
      effects := effects + 1;
      var outcome := Next(0);
      if outcome.Fails? { return false; }
      file := file[..length];
      return true;
    }

    /** `fsyncSync`, and `fstatSync` with the size it reports. */
    method Succeeds() returns (ok: bool)
      modifies this`script
      ensures Smooth(old(script)) ==> Smooth(script) && ok
    {
      var outcome := Next(0);
      return outcome.Moves?;
    }

    method Size() returns (r: Option<nat>)
      modifies this`script
      ensures r.Some? ==> r.value == |file|
      ensures Smooth(old(script)) ==> Smooth(script) && r.Some?
    {
      var outcome := Next(0);
      return if outcome.Moves? then Some(|file|) else None;
    }

    /** `readBounded`: one byte more than expected tells a longer file from an equal one. */
    method ReadBounded(length: nat) returns (r: Option<Bytes>)
      modifies this`script
      ensures r.Some? ==> r.value <= file && |r.value| <= length + 1
      ensures Smooth(old(script)) ==> Smooth(script) && r.Some? && (length <= MAX_BYTES ==> r.value == file || |r.value| == length + 1)
    {
      var target := if length + 1 <= MAX_BYTES + 1 then length + 1 else MAX_BYTES + 1;
      var output: Bytes := [];
      while |output| < target
        invariant |output| <= target && output <= file
        invariant Smooth(old(script)) ==> Smooth(script)
        decreases target - |output|
      {
        var chunk := Read(target - |output|, |output|);
        if chunk.None? { return None; }
        if |chunk.value| == 0 { break; }
        assert output + chunk.value == file[..|output| + |chunk.value|];
        output := output + chunk.value;
      }
      return Some(output);
    }

    /** `writeAll`: false when a write failed or made no progress. */
    method WriteAll(content: Bytes) returns (ok: bool)
      modifies this
      ensures effects >= old(effects) && (content != [] ==> effects > old(effects)) && (!ok ==> content != [])
      ensures ok ==> file == Overlay(old(file), 0, content)
      ensures Overlaid(old(file), content, file)
      ensures Smooth(old(script)) ==> Smooth(script) && ok
    {
      ghost var before := file;
      var offset := 0;
      StartOverlay(before, content);
      while offset < |content|
        invariant offset <= |content| && effects >= old(effects) && (offset > 0 ==> effects > old(effects))
        invariant file == Overlay(before, 0, content[..offset])
        invariant Smooth(old(script)) ==> Smooth(script)
      {
        var count := Write(content[offset..], offset);
        if count.None? {
          ShowOverlaid(before, content, offset);
          return false;
        }
        NextOverlay(before, content, offset, count.value);
        if count.value == 0 {
          ShowOverlaid(before, content, offset);
          return false;
        }
        offset := offset + count.value;
      }
      ShowOverlaid(before, content, offset);
      assert content[..offset] == content;
      return true;
    }
  }

  /** A prefix of the content was written over the old file. */
  ghost predicate Overlaid(before: Bytes, content: Bytes, after: Bytes) {
    exists k :: 0 <= k <= |content| && after == Overlay(before, 0, content[..k])
  }

  lemma ShowOverlaid(before: Bytes, content: Bytes, k: nat)
    requires k <= |content|
    ensures Overlaid(before, content, Overlay(before, 0, content[..k]))
  {
  }

  lemma StartOverlay(file: Bytes, content: Bytes)
    ensures Overlay(file, 0, content[..0]) == file
  {
  }

  lemma NextOverlay(file: Bytes, content: Bytes, m: nat, count: nat)
    requires m + count <= |content|
    ensures Overlay(Overlay(file, 0, content[..m]), m, content[m..][..count]) == Overlay(file, 0, content[..m + count])
  {
    assert content[..m + count] == content[..m] + content[m..][..count];
  }

  // ------------------------------------------------------------- the transaction

  /** Everything the transaction demands of the paths before it opens the file. */
  predicate Authorized(request: Request, paths: Paths) {
    && request.hasPath && request.isAbsolute
    && |request.expectedText| <= MAX_BYTES && |request.content| <= MAX_BYTES
    && paths.root.Some? && paths.rootIsDirectory == Some(true)
    && Within(paths.root.value, request.expectedPath)
    && paths.target == Some(request.expectedPath) && paths.expected == Some(request.expectedPath)
    && paths.before.Some? && paths.before.value.isFile
    && paths.opens
  }

  /** The descriptor and, just before the first write, the path still name the same regular file. */
  predicate SameFile(request: Request, paths: Paths) {
    && paths.before.Some?
    && paths.descriptor.Some? && paths.descriptor.value.isFile && paths.descriptor.value.identity == paths.before.value.identity
    && paths.targetAgain == Some(request.expectedPath)
    && paths.current.Some? && paths.current.value.isFile && paths.current.value.identity == paths.descriptor.value.identity
  }

  /** After the effect the descriptor still names that regular file. */
  predicate StillSameFile(paths: Paths)
    requires paths.descriptor.Some?
  {
    paths.after.Some? && paths.after.value.isFile && paths.after.value.identity == paths.descriptor.value.identity
  }

  /** Both are regular files, and the same one. */
  predicate SameIdentity(a: Option<Stat>, b: Option<Stat>) {
    a.Some? && b.Some? && a.value.isFile && b.value.isFile && a.value.identity == b.value.identity
  }

  predicate Undisturbed(request: Request, paths: Paths) {
    Authorized(request, paths) && SameFile(request, paths) && StillSameFile(paths) && paths.closes
  }

  /** The checks before the effect: true when the write may start. */
  method Preflight(request: Request, paths: Paths, disk: Disk) returns (ok: bool)
    requires Authorized(request, paths)
    modifies disk`script
    ensures ok ==> SameFile(request, paths) && disk.file == request.expectedText
    ensures Smooth(old(disk.script)) && SameFile(request, paths) && disk.file == request.expectedText ==> Smooth(disk.script) && ok
  {
    if paths.descriptor.None? || !paths.descriptor.value.isFile { return false; }
    if paths.descriptor.value.identity != paths.before.value.identity { return false; }
    var size := disk.Size();
    if size.None? || size.value != |request.expectedText| { return false; }
    var observed := disk.ReadBounded(|request.expectedText|);
    if observed.None? || observed.value != request.expectedText { return false; }
    assert disk.file[..|disk.file|] == disk.file;
    if paths.targetAgain != Some(request.expectedPath) { return false; }
    if paths.current.None? || !paths.current.value.isFile || paths.current.value.identity != paths.descriptor.value.identity { return false; }
    return true;
  }

  /** The effect and its postconditions: true when everything was verified. */
  method Effect(request: Request, paths: Paths, disk: Disk) returns (ok: bool)
    requires SameFile(request, paths)
    modifies disk
    ensures disk.effects > old(disk.effects)
    ensures ok ==> disk.file == request.content && StillSameFile(paths)
    ensures Overlaid(old(disk.file), request.content, disk.file) || disk.file == request.content
    ensures Smooth(old(disk.script)) && StillSameFile(paths) && |request.content| <= MAX_BYTES ==> ok
  {
    var written := disk.WriteAll(request.content);
    if !written { return false; }
    assert request.content[..|request.content|] == request.content;
    var truncated := disk.Truncate(|request.content|);
    if !truncated { return false; }
    assert disk.file == request.content;
    var synced := disk.Succeeds();
    if !synced { return false; }
    var size := disk.Size();
    if size.None? || paths.after.None? || !paths.after.value.isFile || size.value != |request.content|
       || paths.after.value.identity != paths.descriptor.value.identity {
      return false;
    }
    var readback := disk.ReadBounded(|request.content|);
    if readback.None? || readback.value != request.content { return false; }
    return true;
  }

  /**
    `applyNativeDisk`.  Success: the file held the expected bytes and now holds the content, exactly.
    An error without `mayHaveApplied`: the file is byte for byte what it was and no write was tried.
    An error with it: the write did start, on the expected bytes of the authorized file.  And it does
  succeed when no system call fails, however short the reads and writes are.
  */
  method ApplyNativeDisk(request: Request, paths: Paths, disk: Disk) returns (r: Result<Path, DiskError>)
    modifies disk
    ensures r.Success? ==>
      old(disk.file) == request.expectedText && disk.file == request.content && r.value == request.expectedPath
    ensures r.Failure? && !r.error.mayHaveApplied ==> disk.file == old(disk.file)
    ensures (r.Success? || r.error.mayHaveApplied) <==> disk.effects > old(disk.effects)
    ensures disk.effects > old(disk.effects) ==>
      && request.hasPath && request.isAbsolute && |request.expectedText| <= 8_388_608 && |request.content| <= 8_388_608
      && paths.root.Some? && paths.rootIsDirectory == Some(true) && paths.root.value <= request.expectedPath
      && paths.target == paths.expected == paths.targetAgain == Some(request.expectedPath)
      && paths.opens && SameIdentity(paths.before, paths.descriptor) && SameIdentity(paths.descriptor, paths.current)
      && old(disk.file) == request.expectedText
      && (Overlaid(request.expectedText, request.content, disk.file) || disk.file == request.content)
    ensures r.Success? ==> paths.closes && SameIdentity(paths.descriptor, paths.after)
    ensures Smooth(old(disk.script)) && Undisturbed(request, paths) && old(disk.file) == request.expectedText ==> r.Success?
  {
    if !request.hasPath || !request.isAbsolute { return Failure(DiskError(false)); }
    if |request.expectedText| > MAX_BYTES || |request.content| > MAX_BYTES { return Failure(DiskError(false)); }
    if paths.root.None? || paths.rootIsDirectory != Some(true) { return Failure(DiskError(false)); }
    if !Within(paths.root.value, request.expectedPath) { return Failure(DiskError(false)); }
    if paths.target.None? || paths.expected.None? { return Failure(DiskError(false)); }
    if paths.expected.value != request.expectedPath || paths.target.value != paths.expected.value { return Failure(DiskError(false)); }
    if paths.before.None? || !paths.before.value.isFile || !paths.opens { return Failure(DiskError(false)); }
    var effectStarted := false;
    var operationError: Option<DiskError> := None;
    var admitted := Preflight(request, paths, disk);
    if !admitted {
      operationError := Some(DiskError(false));
    } else {
      effectStarted := true;
      var applied := Effect(request, paths, disk);
      if !applied {
        operationError := Some(DiskError(effectStarted));
      }
    }
    if !paths.closes && operationError.None? {
      operationError := Some(DiskError(true));
    }
    if operationError.Some? { return Failure(operationError.value); }
    return Success(request.expectedPath);
  }

  ghost predicate SameFrom(before: Bytes, after: Bytes, k: nat) {
    forall i :: k <= i < |before| ==> i < |after| && after[i] == before[i]
  }

  /** What an interrupted write leaves: a prefix of the content, then what the file held before. */
  lemma InterruptedWrite(before: Bytes, content: Bytes, after: Bytes)
    requires Overlaid(before, content, after)
    ensures exists k :: 0 <= k <= |content| && k <= |after| && after[..k] == content[..k] && SameFrom(before, after, k)
    ensures |before| <= |after| <= if |before| > |content| then |before| else |content|
  {
    var k :| 0 <= k <= |content| && after == Overlay(before, 0, content[..k]);
    assert after[0..k] == content[..k];
    assert after[..k] == after[0..k];
  }
}
