/** The dialog's state machine, apart from its widgets: choosing an
    installation directory derives the mode (patch or undo) from whether a
    backup is present, the source and target paths, and the patch button's
    caption and availability; clicking the button runs the forward sequence
    (backup, patch, create files) or the reverse one (restore, remove files)
    and then derives everything again from the file system. */
module Admin {
  import opened Files
  import opened PatchTable
  import opened Patcher

  /** What the form remembers between choosing a directory and a click. */
  datatype FormState = FormState(revertChanges: bool, sourcePath: string, targetPath: string,
                                 sourceHash: string, installPath: string)

  /** The form's state together with the patch button's caption and enabledness. */
  datatype View = View(state: FormState, caption: string, enabled: bool)

  /** What a click did: nothing, or which steps of the sequence it ran succeeded. */
  datatype Outcome =
    | Ignored
    | Reverted(restored: bool, removed: bool)
    | Applied(backedUp: bool, patched: bool, created: bool)
  {
    /** The message the form shows is the success message. */
    predicate Succeeded() {
      match this
      case Ignored => false
      case Reverted(restored, removed) => restored && removed
      case Applied(backedUp, patched, created) => backedUp && patched && created
    }
  }

  /** A blank directory is treated as the empty path. */
  function Normalize(path: string): string {
    if IsNullOrWhiteSpace(path) then "" else path
  }

  /** Everything choosing `path` derives from the file system. `digest` is the
      SHA-1 digest rendered as text. When the source file is missing the
      previously computed digest stays in place. */
  function Scan(files: Directory, digest: seq<byte> -> string, path: string, previousHash: string): View {
    var install := Normalize(path);
    var revert := Exists(files, Combine(install, BACKUP_NAME));
    var target := Combine(install, if revert then PROGRAM_NAME else BACKUP_NAME);
    var source := Combine(install, if revert then BACKUP_NAME else PROGRAM_NAME);
    if !Exists(files, source) then
      View(FormState(revert, source, target, previousHash, install), "Unsupported", false)
    else
      var hash := digest(files[source].data);
      var state := FormState(revert, source, target, hash, install);
      if !IsCompatible(files[source].modified, hash) then
        View(state, if revert then "Invalid Backup" else "Unsupported", false)
      else
        View(state, if revert then "Undo" else "Patch", true)
  }

  /** Whether a click returns at once, before touching anything. */
  predicate ClickIgnored(s: FormState, files: Directory) {
    IsNullOrWhiteSpace(s.sourcePath) || IsNullOrWhiteSpace(s.targetPath)
    || IsNullOrWhiteSpace(s.sourceHash) || IsNullOrWhiteSpace(s.installPath)
    || !Exists(files, s.sourcePath) || !IsCompatibleHash(s.sourceHash)
  }

  /** What a click does to the file system, given how each step's risky calls go.
      Every step of a sequence runs whatever happened to the previous ones. */
  function Run(s: FormState, files: Directory, copyFault: CopyFault, patchFault: PatchFault,
               removeThrows: bool, now: DateTime): (Outcome, Directory)
  {
    if ClickIgnored(s, files) then (Ignored, files)
    else if s.revertChanges then
      var restore := CopyStep(files, s.sourcePath, s.targetPath, copyFault);
      var remove := RemoveStep(restore.files, s.sourceHash, s.installPath, removeThrows);
      (Reverted(restore.ok, remove.ok), remove.files)
    else
      var backup := CopyStep(files, s.sourcePath, s.targetPath, copyFault);
      var patch := PatchStep(backup.files, s.sourceHash, s.sourcePath, patchFault, now);
      (Applied(backup.ok, patch.ok, IsCompatibleHash(s.sourceHash)), patch.files)
  }

  lemma KnownHashNotBlank(hash: string)
    requires IsCompatibleHash(hash)
    ensures !IsNullOrWhiteSpace(hash)
  {
    assert HASH_2020_02_11[58] == '1' && HASH_2021_01_19[58] == '6';
  }

  /** The mode is "undo" exactly when a backup exists; source and target are
      the backup and the program in that mode and the other way round
      otherwise, and never the same path. */
  lemma ScanPaths(files: Directory, digest: seq<byte> -> string, path: string, previousHash: string)
    ensures var v := Scan(files, digest, path, previousHash);
      var bck, exe := Combine(Normalize(path), BACKUP_NAME), Combine(Normalize(path), PROGRAM_NAME);
      v.state.installPath == Normalize(path)
      && (v.state.revertChanges <==> Exists(files, bck))
      && (v.state.revertChanges ==> v.state.sourcePath == bck && v.state.targetPath == exe)
      && (!v.state.revertChanges ==> v.state.sourcePath == exe && v.state.targetPath == bck)
      && v.state.sourcePath != v.state.targetPath
  {
    CombineInjective(Normalize(path), BACKUP_NAME, PROGRAM_NAME);
  }

  /** The button is enabled exactly when the source exists with a compatible
      date and digest, captioned "Patch" or "Undo" by mode; otherwise it is
      disabled, and since in undo mode the source (the backup) always exists,
      a disabled undo is always an "Invalid Backup". */
  lemma ScanButton(files: Directory, digest: seq<byte> -> string, path: string, previousHash: string)
    ensures var v := Scan(files, digest, path, previousHash);
      var source := v.state.sourcePath;
      (v.enabled <==> Exists(files, source) && IsCompatible(files[source].modified, digest(files[source].data)))
      && (v.enabled ==> v.caption == if v.state.revertChanges then "Undo" else "Patch")
      && (!v.enabled && v.state.revertChanges ==> v.caption == "Invalid Backup")
      && (!v.enabled && !v.state.revertChanges ==> v.caption == "Unsupported")
      && (Exists(files, source) ==> v.state.sourceHash == digest(files[source].data))
      && (!Exists(files, source) ==> v.state.sourceHash == previousHash)
  {
  }

  /** A click on an enabled button is never ignored, as long as the chosen
      directory is not blank and the file system has not changed since. */
  lemma EnabledClickActs(files: Directory, digest: seq<byte> -> string, path: string, previousHash: string,
                         copyFault: CopyFault, patchFault: PatchFault, removeThrows: bool, now: DateTime)
    requires !IsNullOrWhiteSpace(path)
    requires Scan(files, digest, path, previousHash).enabled
    ensures !Run(Scan(files, digest, path, previousHash).state, files, copyFault, patchFault, removeThrows, now).0.Ignored?
  {
    var v := Scan(files, digest, path, previousHash);
    CombineNotBlank(path, BACKUP_NAME, 0);
    CombineNotBlank(path, PROGRAM_NAME, 0);
    CompatibilityNeedsDateAndHash(files[v.state.sourcePath].modified, v.state.sourceHash);
    KnownHashNotBlank(v.state.sourceHash);
  }

  /** A blank directory is remembered as "", so a click after choosing it is
      ignored and changes nothing, whatever the button shows. */
  lemma BlankDirectoryClickIgnored(files: Directory, digest: seq<byte> -> string, path: string, previousHash: string,
                                   copyFault: CopyFault, patchFault: PatchFault, removeThrows: bool, now: DateTime)
    requires IsNullOrWhiteSpace(path)
    ensures Scan(files, digest, path, previousHash).state.installPath == ""
    ensures Run(Scan(files, digest, path, previousHash).state, files, copyFault, patchFault, removeThrows, now) == (Ignored, files)
  {
  }

  /** Choosing the blank directory resolves the program against the current
      directory, so a supported `layout60.exe` there shows an enabled "Patch",
      although a click on it is ignored: the requirement of `EnabledClickActs`
      that the directory is not blank cannot be dropped. */
  lemma BlankDirectoryCanEnable(digest: seq<byte> -> string, modified: DateTime, previousHash: string,
                                copyFault: CopyFault, patchFault: PatchFault, removeThrows: bool, now: DateTime)
    requires digest([]) == HASH_2020_02_11
    requires modified.year == 2020 && modified.month == 2 && modified.day == 11
    ensures var files := map[PROGRAM_NAME := File([], modified, modified)];
      var v := Scan(files, digest, "", previousHash);
      v.enabled && v.caption == "Patch" && !v.state.revertChanges
      && Run(v.state, files, copyFault, patchFault, removeThrows, now).0.Ignored?
  {
    CombineNotBlank("", PROGRAM_NAME, 0);
    assert Combine("", BACKUP_NAME) != PROGRAM_NAME by {
      CombineInjective("", BACKUP_NAME, PROGRAM_NAME);
    }
  }

  /** Patching and then undoing, each step succeeding, brings the file system
      back to what it was: after the patch a rescan shows an enabled "Undo",
      and after the undo the program has its original bytes and timestamps,
      no backup remains, and a rescan shows what the first scan showed. */
  lemma PatchThenUndoRestores(files: Directory, digest: seq<byte> -> string, dir: string,
                              previousHash: string, patchNow: DateTime, undoNow: DateTime)
    requires !IsNullOrWhiteSpace(dir)
    requires Scan(files, digest, dir, previousHash).enabled
    requires !Scan(files, digest, dir, previousHash).state.revertChanges
    ensures var v0 := Scan(files, digest, dir, previousHash);
      var first := Run(v0.state, files, CopyCompletes, PatchCompletes, false, patchNow);
      var v1 := Scan(first.1, digest, dir, v0.state.sourceHash);
      var second := Run(v1.state, first.1, CopyCompletes, PatchCompletes, false, undoNow);
      first.0 == Applied(true, true, true) && first.0.Succeeded()
      && v1.state.revertChanges && v1.enabled && v1.caption == "Undo"
      && second.0 == Reverted(true, true) && second.0.Succeeded()
      && second.1 == files
      && Scan(second.1, digest, dir, v1.state.sourceHash) == v0
  {
    var exe, bck := Combine(dir, PROGRAM_NAME), Combine(dir, BACKUP_NAME);
    var v0 := Scan(files, digest, dir, previousHash);
    var hash := v0.state.sourceHash;
    CombineInjective(dir, PROGRAM_NAME, BACKUP_NAME);
    CombineNotBlank(dir, BACKUP_NAME, 0);
    CombineNotBlank(dir, PROGRAM_NAME, 0);
    CompatibilityNeedsDateAndHash(files[exe].modified, hash);
    KnownHashNotBlank(hash);
    BackupRoundTrip(files, dir, hash, patchNow);
    var backup := CopyStep(files, exe, bck, CopyCompletes);
    var patch := PatchStep(backup.files, hash, exe, PatchCompletes, patchNow);
    assert patch.files[bck] == files[exe];
    var v1 := Scan(patch.files, digest, dir, hash);
    assert v1.state == FormState(true, bck, exe, hash, dir);
  }

  /** A directory holding only a valid backup is in undo mode, and undoing
      there puts the backup in the program's place and removes it. */
  lemma UndoWithoutProgram(files: Directory, digest: seq<byte> -> string, dir: string,
                           previousHash: string, now: DateTime)
    requires !IsNullOrWhiteSpace(dir)
    requires Exists(files, Combine(dir, BACKUP_NAME)) && Combine(dir, PROGRAM_NAME) !in files
    requires IsCompatible(files[Combine(dir, BACKUP_NAME)].modified, digest(files[Combine(dir, BACKUP_NAME)].data))
    ensures var exe, bck := Combine(dir, PROGRAM_NAME), Combine(dir, BACKUP_NAME);
      var v := Scan(files, digest, dir, previousHash);
      var r := Run(v.state, files, CopyCompletes, PatchCompletes, false, now);
      v.state.revertChanges && v.enabled && v.caption == "Undo"
      && r.0 == Reverted(true, true)
      && r.1 == (files - {bck})[exe := files[bck]]
  {
    var exe, bck := Combine(dir, PROGRAM_NAME), Combine(dir, BACKUP_NAME);
    CombineInjective(dir, PROGRAM_NAME, BACKUP_NAME);
    CombineNotBlank(dir, PROGRAM_NAME, 0);
    var v := Scan(files, digest, dir, previousHash);
    assert v.state == FormState(true, bck, exe, digest(files[bck].data), dir);
    CompatibilityNeedsDateAndHash(files[bck].modified, v.state.sourceHash);
    KnownHashNotBlank(v.state.sourceHash);
  }

  /** The dialog. `fs` is the file system it works on and `digest` the SHA-1
      computation, both supplied from outside. */
  class AdminForm {
    const fs: FileSystem
    const digest: seq<byte> -> string
    var revertChanges: bool
    var sourcePath: string
    var targetPath: string
    var sourceHash: string
    var installPath: string
    var buttonText: string
    var buttonEnabled: bool

    /** The derived state as the form currently holds it. */
    function Current(): View
      reads this
    {
      View(FormState(revertChanges, sourcePath, targetPath, sourceHash, installPath), buttonText, buttonEnabled)
    }

    /** A new dialog: empty paths and digest, and the designer's enabled "Patch" button. */
    constructor (fs: FileSystem, digest: seq<byte> -> string)
      ensures this.fs == fs && this.digest == digest
      ensures Current() == View(FormState(false, "", "", "", ""), "Patch", true)
    {
      this.fs := fs;
      this.digest := digest;
      revertChanges := false;
      sourcePath, targetPath, sourceHash, installPath := "", "", "", "";
      buttonText, buttonEnabled := "Patch", true;
    }

    /** Chooses an installation directory and derives the form's state from it. */
    method Choose(path: string)
      modifies this
      ensures Current() == Scan(fs.files, digest, path, old(sourceHash))
    {
      var p := path;
      if IsNullOrWhiteSpace(p) {
        p := "";
      }
      revertChanges := Exists(fs.files, Combine(p, BACKUP_NAME));
      installPath := p;
      targetPath := Combine(p, if revertChanges then PROGRAM_NAME else BACKUP_NAME);
      sourcePath := Combine(p, if revertChanges then BACKUP_NAME else PROGRAM_NAME);
      if !Exists(fs.files, sourcePath) {
        buttonText, buttonEnabled := "Unsupported", false;
        return;
      }
      var modified := fs.files[sourcePath].modified;
      sourceHash := digest(fs.files[sourcePath].data);
      if !IsCompatible(modified, sourceHash) {
        buttonText, buttonEnabled := if revertChanges then "Invalid Backup" else "Unsupported", false;
        return;
      }
      buttonText, buttonEnabled := if revertChanges then "Undo" else "Patch", true;
    }

    /** The patch button: checks the remembered state, runs the undo or the
      patch sequence, and rescans the directory. */
    method Click(copyFault: CopyFault, patchFault: PatchFault, removeThrows: bool, now: DateTime)
      returns (outcome: Outcome)
      modifies this, fs
      ensures (outcome, fs.files) == Run(old(Current()).state, old(fs.files), copyFault, patchFault, removeThrows, now)
      ensures outcome.Ignored? ==> Current() == old(Current())
      ensures !outcome.Ignored? ==> Current() == Scan(fs.files, digest, old(installPath), old(sourceHash))
    {
      ghost var s, files := Current().state, fs.files;
      if IsNullOrWhiteSpace(sourcePath) || IsNullOrWhiteSpace(targetPath)
        || IsNullOrWhiteSpace(sourceHash) || IsNullOrWhiteSpace(installPath) {
        return Ignored;
      }
      if !Exists(fs.files, sourcePath) || !(sourceHash == HASH_2020_02_11 || sourceHash == HASH_2021_01_19) {
        return Ignored;
      }
      assert !ClickIgnored(s, files);
      if revertChanges {
        var restored := Copy(fs, sourcePath, targetPath, copyFault, now);
        ghost var restore := CopyStep(files, s.sourcePath, s.targetPath, copyFault);
        assert restore == Effect(restored, fs.files);
        var removed := RemoveFiles(fs, sourceHash, installPath, removeThrows);
        outcome := Reverted(restored, removed);
        assert (outcome, fs.files) == Run(s, files, copyFault, patchFault, removeThrows, now);
        Choose(installPath);
        return;
      }
      var backedUp := Copy(fs, sourcePath, targetPath, copyFault, now);
      ghost var backup := CopyStep(files, s.sourcePath, s.targetPath, copyFault);
      assert backup == Effect(backedUp, fs.files);
      var patched := Patch(fs, sourceHash, sourcePath, patchFault, now);
      var created := CreateFiles(sourceHash, installPath);
      outcome := Applied(backedUp, patched, created);
      assert (outcome, fs.files) == Run(s, files, copyFault, patchFault, removeThrows, now);
      Choose(installPath);
    }
  }

  /** A user's session: choose a directory holding an unpatched supported
      program, click "Patch", then click "Undo", with every step succeeding.
      The files end as they started and the dialog offers "Patch" again. */
  method PatchThenUndo(form: AdminForm, dir: string, patchNow: DateTime, undoNow: DateTime)
    returns (applied: Outcome, reverted: Outcome)
    requires !IsNullOrWhiteSpace(dir)
    requires Scan(form.fs.files, form.digest, dir, form.sourceHash).enabled
    requires !Scan(form.fs.files, form.digest, dir, form.sourceHash).state.revertChanges
    modifies form, form.fs
    ensures applied == Applied(true, true, true) && reverted == Reverted(true, true)
    ensures applied.Succeeded() && reverted.Succeeded()
    ensures form.fs.files == old(form.fs.files)
    ensures form.Current() == Scan(old(form.fs.files), form.digest, dir, old(form.sourceHash))
    ensures form.buttonText == "Patch" && form.buttonEnabled
  {
    PatchThenUndoRestores(form.fs.files, form.digest, dir, form.sourceHash, patchNow, undoNow);
    form.Choose(dir);
    applied := form.Click(CopyCompletes, PatchCompletes, false, patchNow);
    reverted := form.Click(CopyCompletes, PatchCompletes, false, undoNow);
  }
}
