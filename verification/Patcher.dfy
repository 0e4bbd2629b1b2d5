/** The patcher's file operations: patch the program in place, copy a file
    with its timestamps (backup and restore), and create or remove the support
    files. Every .NET call inside a try block may throw; which calls throw is
    not something the patcher controls, so each operation takes the outcome of
    its risky calls as a parameter (a fault) and is specified by a function of
    the file system before the call, the arguments and that fault. */
module Patcher {
  import opened Files
  import opened PatchTable

  const BACKUP_NAME: string := "layout60.bck"
  const PROGRAM_NAME: string := "layout60.exe"

  /** How File.Copy and the two timestamp updates went: all completed, or one
      threw and left the target untouched (None) or holding some residue
      (a truncated copy, a copy with fresh timestamps, ...). */
  datatype CopyFault = CopyCompletes | CopyThrows(residue: Option<File>)

  /** How the exclusive open and the four writes went: all completed, or an
      exception was raised after `written` edits had reached the file
      (0: the open itself failed, for instance because the file is locked;
      4 or more: every edit was written and closing the stream threw). */
  datatype PatchFault = PatchCompletes | PatchThrows(written: nat)

  /** The result of an operation and the file system it leaves behind. */
  datatype Effect = Effect(ok: bool, files: Directory)

  /** How many edits reach the file under a fault. */
  function Written(fault: PatchFault): nat {
    match fault
    case PatchCompletes => 4
    case PatchThrows(k) => if k < 4 then k else 4
  }

  /** Specification of Copy. A copy onto the source's own path makes File.Copy
      throw before anything is written. */
  function CopyStep(files: Directory, source: string, target: string, fault: CopyFault): Effect {
    if IsNullOrWhiteSpace(source) || IsNullOrWhiteSpace(target) || !Exists(files, source) then Effect(false, files)
    else if source == target then Effect(false, files)
    else match fault
      case CopyCompletes => Effect(true, files[target := files[source]])
      case CopyThrows(None) => Effect(false, files)
      case CopyThrows(Some(residue)) => Effect(false, files[target := residue])
  }

  /** Specification of Patch: the edits that reached the file are in place and
      the file carries the time of the writes; without any write nothing changes. */
  function PatchStep(files: Directory, hash: string, path: string, fault: PatchFault, now: DateTime): Effect {
    if !IsCompatibleHash(hash) || !Exists(files, path) then Effect(false, files)
    else
      var n := Written(fault);
      var f := files[path];
      Effect(fault.PatchCompletes?,
             if n == 0 then files else files[path := File(ApplyEdits(f.data, Edits(hash)[..n]), f.created, now)])
  }

  /** Specification of RemoveFiles: the backup in `path` is gone, unless the
      call threw. */
  function RemoveStep(files: Directory, hash: string, path: string, throws: bool): Effect {
    if !IsCompatibleHash(hash) || throws then Effect(false, files)
    else Effect(true, files - {Combine(path, BACKUP_NAME)})
  }

  /** Patches the program at `path` in place for the build identified by `hash`. */
  method Patch(fs: FileSystem, hash: string, path: string, fault: PatchFault, now: DateTime) returns (ok: bool)
    modifies fs
    ensures Effect(ok, fs.files) == PatchStep(old(fs.files), hash, path, fault, now)
  {
    if hash != HASH_2020_02_11 && hash != HASH_2021_01_19 {
      return false;
    }
    if !Exists(fs.files, path) {
      return false;
    }
    ghost var es := Edits(hash);
    ghost var f := fs.files[path];
    var n := Written(fault);
    if n == 0 {
      return false;
    }
    fs.WriteAt(path, if hash == HASH_2020_02_11 then 0x2b6d92 else 0x2b7dba, CHECKED, now);
    assert es[..1][..0] == [];
    assert fs.files == old(fs.files)[path := File(ApplyEdits(f.data, es[..1]), f.created, now)];
    if n == 1 {
      return false;
    }
    fs.WriteAt(path, if hash == HASH_2020_02_11 then 0x2b6df1 else 0x2b7e19, CHECKED, now);
    assert es[..2][..1] == es[..1];
    assert fs.files == old(fs.files)[path := File(ApplyEdits(f.data, es[..2]), f.created, now)];
    if n == 2 {
      return false;
    }
    if hash == HASH_2020_02_11 {
      fs.WriteAt(path, 0x2c18ce, DIGITS_20, now);
      assert es[..3][..2] == es[..2];
      assert fs.files == old(fs.files)[path := File(ApplyEdits(f.data, es[..3]), f.created, now)];
      if n == 3 {
        return false;
      }
      fs.WriteAt(path, 0x316aef, DIGITS_20, now);
    } else {
      fs.WriteAt(path, 0x2c2976, DIGITS_21, now);
      assert es[..3][..2] == es[..2];
      assert fs.files == old(fs.files)[path := File(ApplyEdits(f.data, es[..3]), f.created, now)];
      if n == 3 {
        return false;
      }
      fs.WriteAt(path, 0x317a9f, DIGITS_21, now);
    }
    assert es[..4][..3] == es[..3];
    assert fs.files == old(fs.files)[path := File(ApplyEdits(f.data, es[..4]), f.created, now)];
    ok := fault.PatchCompletes?;
  }

  /** Copies `sourcePath` over `targetPath` and gives the copy the source's
      creation and last-write times. */
  method Copy(fs: FileSystem, sourcePath: string, targetPath: string, fault: CopyFault, now: DateTime)
    returns (ok: bool)
    modifies fs
    ensures Effect(ok, fs.files) == CopyStep(old(fs.files), sourcePath, targetPath, fault)
  {
    if IsNullOrWhiteSpace(sourcePath) || IsNullOrWhiteSpace(targetPath) || !Exists(fs.files, sourcePath) {
      return false;
    }
    if sourcePath == targetPath {
      return false;
    }
    match fault {
      case CopyThrows(residue) =>
        if residue.Some? {
          fs.files := fs.files[targetPath := residue.value];
        }
        return false;
      case CopyCompletes =>
    }
    fs.CopyFile(sourcePath, targetPath, now);
    var creation, modification := fs.files[sourcePath].created, fs.files[sourcePath].modified;
    fs.SetCreationTimeUtc(targetPath, creation);
    fs.SetLastWriteTimeUtc(targetPath, modification);
    ok := true;
  }

  /** Creates the support files for a build: there are none yet, so a known
      digest succeeds and nothing on disk changes. */
  method CreateFiles(hash: string, path: string) returns (ok: bool)
    ensures ok <==> hash == HASH_2020_02_11 || hash == HASH_2021_01_19
  {
    if hash != HASH_2020_02_11 && hash != HASH_2021_01_19 {
      return false;
    }
    ok := true;
  }

  /** Removes the support files of a build from `path`: the backup, if present. */
  method RemoveFiles(fs: FileSystem, hash: string, path: string, throws: bool) returns (ok: bool)
    modifies fs
    ensures Effect(ok, fs.files) == RemoveStep(old(fs.files), hash, path, throws)
  {
    if hash != HASH_2020_02_11 && hash != HASH_2021_01_19 {
      return false;
    }
    if throws {
      return false;
    }
    var file := Combine(path, BACKUP_NAME);
    if Exists(fs.files, file) {
      fs.Delete(file);
    } else {
      CombineNotBlank(path, BACKUP_NAME, 0);
    }
    ok := true;
  }

  /** Copy fails without touching anything on blank paths or a missing
      source; it succeeds exactly when the fault lets it, and then the target,
      whether it existed or not, is indistinguishable from the source (bytes,
      creation and last-write time) while every other path is untouched. */
  lemma CopyStepSpec(files: Directory, source: string, target: string, fault: CopyFault)
    ensures var e := CopyStep(files, source, target, fault);
      (e.ok <==> !IsNullOrWhiteSpace(source) && !IsNullOrWhiteSpace(target) && Exists(files, source)
                 && source != target && fault == CopyCompletes)
      && (e.ok ==> target in e.files && e.files[target] == files[source]
                   && e.files[target].created == files[source].created
                   && e.files[target].modified == files[source].modified)
      && (forall p :: p != target ==> (p in e.files <==> p in files) && (p in files ==> e.files[p] == files[p]))
      && ((IsNullOrWhiteSpace(source) || IsNullOrWhiteSpace(target) || !Exists(files, source)) ==> e.files == files)
  {
  }

  /** Patch fails without touching anything for an unknown digest, a missing
      file, or an exclusive open that fails; otherwise only `path` changes, its
      length is kept when the file extends past the last edit, and on success
      its bytes are exactly the patched contents. */
  lemma PatchStepSpec(files: Directory, hash: string, path: string, fault: PatchFault, now: DateTime)
    ensures var e := PatchStep(files, hash, path, fault, now);
      (e.ok <==> IsCompatibleHash(hash) && Exists(files, path) && fault == PatchCompletes)
      && ((!IsCompatibleHash(hash) || !Exists(files, path) || fault == PatchThrows(0)) ==> e.files == files)
      && e.files.Keys == files.Keys
      && (forall p :: p in files && p != path ==> e.files[p] == files[p])
      && (path in files && |files[path].data| >= Reach(Edits(hash)) ==> |e.files[path].data| == |files[path].data|)
      && (e.ok ==> e.files[path].data == ApplyEdits(files[path].data, Edits(hash))
                   && e.files[path].created == files[path].created)
  {
    var e := PatchStep(files, hash, path, fault, now);
    if IsCompatibleHash(hash) && Exists(files, path) && Written(fault) > 0 {
      var es := Edits(hash);
      var n := Written(fault);
      assert es[..4] == es;
      if |files[path].data| >= Reach(es) {
        EditsDisjoint(hash);
        ApplyEditsLength(files[path].data, es[..n]);
        if n < 4 {
          forall j | 0 <= j < n ensures End(es[..n][j]) <= Reach(es) {
            ReachCoversEach(es, j);
          }
          ReachAtMost(es[..n], Reach(es));
        }
      }
    }
  }

  lemma {:induction false} ReachAtMost(es: seq<Edit>, bound: nat)
    requires forall j :: 0 <= j < |es| ==> End(es[j]) <= bound
    ensures Reach(es) <= bound
    decreases |es|
  {
    if es != [] {
      var prefix := es[..|es| - 1];
      forall j | 0 <= j < |prefix| ensures End(prefix[j]) <= bound {
        assert prefix[j] == es[j];
      }
      ReachAtMost(prefix, bound);
    }
  }

  /** Patching an already patched file again leaves its bytes as they are. */
  lemma PatchStepIdempotent(files: Directory, hash: string, path: string, now1: DateTime, now2: DateTime)
    requires PatchStep(files, hash, path, PatchCompletes, now1).ok
    ensures var once := PatchStep(files, hash, path, PatchCompletes, now1).files;
      var twice := PatchStep(once, hash, path, PatchCompletes, now2);
      twice.ok && twice.files[path].data == once[path].data
  {
    var es := Edits(hash);
    assert es[..4] == es;
    EditsDisjoint(hash);
    ApplyEditsIdempotent(files[path].data, es);
  }

  /** RemoveFiles with a known digest deletes the backup and nothing else, and
      a second call also succeeds and finds nothing more to delete. */
  lemma RemoveStepTwice(files: Directory, hash: string, path: string)
    requires IsCompatibleHash(hash)
    ensures var once := RemoveStep(files, hash, path, false);
      var twice := RemoveStep(once.files, hash, path, false);
      once.ok && twice.ok && twice.files == once.files
      && Combine(path, BACKUP_NAME) !in once.files
      && (forall p :: p != Combine(path, BACKUP_NAME) ==> (p in once.files <==> p in files))
      && (forall p :: p in files && p != Combine(path, BACKUP_NAME) ==> once.files[p] == files[p])
  {
  }

  /** Backup, patch, restore and remove, each succeeding, leave the file
      system exactly as it was: the program's bytes and timestamps are the
      original ones and no backup remains. */
  lemma BackupRoundTrip(files: Directory, dir: string, hash: string, now: DateTime)
    requires Exists(files, Combine(dir, PROGRAM_NAME)) && Combine(dir, BACKUP_NAME) !in files
    requires IsCompatibleHash(hash)
    ensures var exe, bck := Combine(dir, PROGRAM_NAME), Combine(dir, BACKUP_NAME);
      var backup := CopyStep(files, exe, bck, CopyCompletes);
      var patch := PatchStep(backup.files, hash, exe, PatchCompletes, now);
      var restore := CopyStep(patch.files, bck, exe, CopyCompletes);
      var remove := RemoveStep(restore.files, hash, dir, false);
      backup.ok && patch.ok && restore.ok && remove.ok && remove.files == files
  {
    var exe, bck := Combine(dir, PROGRAM_NAME), Combine(dir, BACKUP_NAME);
    CombineInjective(dir, PROGRAM_NAME, BACKUP_NAME);
    CombineNotBlank(dir, BACKUP_NAME, 0);
    var backup := CopyStep(files, exe, bck, CopyCompletes);
    var patch := PatchStep(backup.files, hash, exe, PatchCompletes, now);
    var restore := CopyStep(patch.files, bck, exe, CopyCompletes);
    assert restore.files == files[bck := files[exe]];
  }
}
