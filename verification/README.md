# SprintPreview patcher: a Dafny model

SprintPreview unlocks preview features of SprintLayout 6.0. It recognises two
builds of `layout60.exe` by their UTC modification date and SHA-1 digest. For
each build it overwrites four fixed byte ranges: "Checked" twice and a
two-digit year twice. Before patching it keeps a sibling copy,
`layout60.bck`, so that the change can be undone. This project models that
core and proves its properties:

- `Files.dfy` (module `Files`): the abstract file system. A file is its bytes
  plus creation and last-write times. A directory is a map from full paths to
  files. It also gives the .NET behaviour the patcher relies on:
  `string.IsNullOrWhiteSpace`, `Path.Combine`, `File.Exists`, `File.Copy`,
  the timestamp setters, `File.Delete` and a positioned `FileStream.Write`.
  A write past the end grows the file, and the gap reads as zero bytes.
- `PatchTable.dfy` (module `PatchTable`): the two digest constants and both
  `IsCompatible` overloads. It holds the edit list `Patch` writes for each
  digest, and the same knowledge written as a table of profiles, which serves
  as an independent reference. `ApplyEdits` is the meaning of writing a list
  of edits. Lemmas cover the bytes at each offset, the untouched bytes, the
  length, disjointness and idempotence.
- `Patcher.dfy` (module `Patcher`): `Patch`, `Copy`, `CreateFiles` and
  `RemoveFiles` as methods on a `FileSystem` object. Each is proved against a
  pure specification (`PatchStep`, `CopyStep`, `RemoveStep`) that gives the
  result and the new file system. A .NET call inside a `try` can throw, and
  the patcher does not control whether it does. So each method takes the
  outcome of its risky calls as a fault parameter. `PatchThrows(k)` means the
  exception came after `k` of the four edits had been written; the code does
  not roll back. `CopyThrows(r)` means the target was left untouched or
  holding residue `r`.
- `AdminForm.dfy` (module `Admin`): the dialog's state machine, apart from its
  widgets. `Scan` is what choosing a directory derives: the mode, the source
  and target paths, the digest, and the button's caption and enabledness.
  `Run` is what a click does. The class `AdminForm` holds the dialog's fields,
  and `Choose` and `Click` are proved against `Scan` and `Run`. The SHA-1
  computation is an uninterpreted function `digest` given to the form.
  The current time (`now`) is a parameter.

Two facts about the code shape the model:

- Writes go through a `FileStream`, so a file shorter than the last edit
  grows. The length is kept only when the file already reaches past the last
  edit (`Patched2020`, `Patched2021`, `PatchStepSpec`).
- `Choose` applies the date-and-digest check in both modes. The click handler
  applies only the digest check.

## Model

| member | source | states |
|---|---|---|
| `PatchTable.HashesDiffer` | SprintPreview/Patcher.cs:17-22 | The constants `HASH_2020_02_11` and `HASH_2021_01_19` hold the two digest literals of the code, and they are different strings, so no digest belongs to both builds. |
| `PatchTable.IsCompatibleIsTableLookup` | SprintPreview/Patcher.cs:30-34 | The date-and-digest check accepts a pair exactly when one profile of the table has that year, month, day and digest. |
| `PatchTable.IsCompatibleHashIsTableLookup` | SprintPreview/Patcher.cs:41-44 | The digest-only check accepts exactly the digests of the table. |
| `PatchTable.CompatibilityNeedsDateAndHash` | SprintPreview/Patcher.cs:30-44 | The date-and-digest check implies the digest-only check. A known digest is accepted only with its own build's date, so a digest paired with the other build's date is refused. |
| `PatchTable.EditsAreTableEdits` | SprintPreview/Patcher.cs:69-92 | For each known digest, the offsets and bytes `Patch` writes are the ones the profile table lists for it. |
| `PatchTable.EditsDisjoint` | SprintPreview/Patcher.cs:69-92 | Within each build the four edit ranges do not overlap. The furthest edit ends at 0x316af1 for 2020-02-11 and at 0x317aa1 for 2021-01-19. |
| `PatchTable.ApplyEditsLength` | SprintPreview/Patcher.cs:66-94 | Writing edits never shrinks a file. Its length becomes the larger of the old length and the furthest edit end. |
| `PatchTable.ApplyEditsWrites` | SprintPreview/Patcher.cs:66-94 | With disjoint edits, every byte of every edit range holds that edit's byte afterwards. |
| `PatchTable.ApplyEditsKeeps` | SprintPreview/Patcher.cs:66-94 | A byte that no edit covers keeps its old value, or reads zero where the file grew. |
| `PatchTable.ApplyEditsRange` | SprintPreview/Patcher.cs:66-94 | With disjoint edits, each edit's whole range equals its bytes afterwards. |
| `PatchTable.ApplyEditsIdempotent` | SprintPreview/Patcher.cs:66-94 | Writing disjoint edits a second time over their own result changes nothing. |
| `PatchTable.PatchedContents` | SprintPreview/Patcher.cs:69-92 | For either digest, every edit's bytes are at its offset and every other original byte is unchanged. The length is the larger of the old length and the last edit's end. |
| `PatchTable.Patched2020` | SprintPreview/Patcher.cs:69-84 | 2020-02-11: "Checked" is at 0x2b6d92 and 0x2b6df1, and "20" is at 0x2c18ce and 0x316aef. All other bytes are unchanged. The length is unchanged when the file extends to 0x316af1. |
| `PatchTable.Patched2021` | SprintPreview/Patcher.cs:69-93 | 2021-01-19: "Checked" is at 0x2b7dba and 0x2b7e19, and "21" is at 0x2c2976 and 0x317a9f. All other bytes are unchanged. The length is unchanged when the file extends to 0x317aa1. |
| `Patcher.Patch` | SprintPreview/Patcher.cs:52-102 | The result and the new file system are those of `PatchStep`. With an unknown digest or a missing file it fails and changes nothing. Otherwise the edits written before any exception are in place, the file is stamped with the write time, and only a fully completed run succeeds. |
| `Patcher.Copy` | SprintPreview/Patcher.cs:110-131 | The result and the new file system are those of `CopyStep`. It fails with no change for blank paths, a missing source or a copy onto itself. On success the target, existing or not, equals the source. |
| `Patcher.CreateFiles` | SprintPreview/Patcher.cs:139-156 | It succeeds exactly for the two known digests. It takes no file system, so nothing on disk can change. |
| `Patcher.RemoveFiles` | SprintPreview/Patcher.cs:164-184 | The result and the new file system are those of `RemoveStep`. It fails for an unknown digest, and otherwise deletes `layout60.bck` in the given directory if it is present. |
| `Patcher.CopyStepSpec` | SprintPreview/Patcher.cs:113-123 | Copy succeeds if and only if both paths are non-blank, the source exists, the paths differ and nothing throws. On success the target's bytes, creation time and last-write time are the source's. No other path ever changes. A failed guard leaves everything unchanged. |
| `Patcher.PatchStepSpec` | SprintPreview/Patcher.cs:55-99 | Patch succeeds if and only if the digest is known, the file exists and nothing throws. An unknown digest, a missing file or a failed exclusive open changes nothing. No path but the target changes. The length is kept when the file extends past the last edit. On success the bytes are the patched contents and the creation time is kept. |
| `Patcher.PatchStepIdempotent` | SprintPreview/Patcher.cs:66-93 | Patching a successfully patched file again also succeeds and leaves its bytes as they were. |
| `Patcher.RemoveStepTwice` | SprintPreview/Patcher.cs:167-183 | With a known digest, removal deletes the backup and changes no other path: every other file keeps its contents. A second removal also succeeds and changes nothing. |
| `Patcher.BackupRoundTrip` | SprintPreview/AdminForm.cs:144-165 | Backup, patch, restore and removal, each succeeding from a directory without a backup, leave the file system exactly as it was. |
| `Admin.ScanPaths` | SprintPreview/AdminForm.cs:45-59 | A blank path becomes "". The form is in undo mode if and only if `layout60.bck` exists. In undo mode the source is the backup and the target the program, and the other way round otherwise. The two paths always differ. |
| `Admin.ScanButton` | SprintPreview/AdminForm.cs:61-94 | The button is enabled if and only if the source exists and its date and digest are compatible, and is then captioned "Undo" or "Patch" by mode. When disabled it reads "Invalid Backup" in undo mode and "Unsupported" otherwise. The remembered digest is the source's, or the previous one when the source is missing. |
| `Admin.EnabledClickActs` | SprintPreview/AdminForm.cs:122-130 | When the chosen directory is not blank and nothing changed on disk, a click on an enabled button passes the handler's checks. |
| `Admin.BlankDirectoryClickIgnored` | SprintPreview/AdminForm.cs:46-54 | Choosing a blank directory remembers "" as the installation path, and a click that follows is ignored and leaves the files unchanged, whatever the button shows (AdminForm.cs:125-126). |
| `Admin.BlankDirectoryCanEnable` | SprintPreview/AdminForm.cs:27-36 | When no installation folder is found the dialog chooses "". A supported `layout60.exe` in the current directory then shows an enabled "Patch", and a click on it is ignored. So an enabled button does not guarantee that the click acts. |
| `Admin.PatchThenUndoRestores` | SprintPreview/AdminForm.cs:122-180 | From an enabled "Patch", a fully successful click, whose outcome is the success message, is followed by a rescan that shows an enabled "Undo". A fully successful undo click then restores the original file system: the program's bytes and timestamps are back and no backup is left. A rescan then shows what the first scan showed. |
| `Admin.UndoWithoutProgram` | SprintPreview/AdminForm.cs:141-158 | A directory holding only a compatible backup is in undo mode with "Undo" enabled. Undoing puts the backup in the program's place and removes the backup. |
| `Admin.AdminForm.constructor` | SprintPreview/AdminForm.cs:16-22 | A new dialog has empty paths and digest, is not in undo mode and shows an enabled "Patch" button. |
| `Admin.AdminForm.Choose` | SprintPreview/AdminForm.cs:43-95 | The form's fields and button become exactly what `Scan` derives from the file system, and the file system is not modified. |
| `Admin.AdminForm.Click` | SprintPreview/AdminForm.cs:122-180 | The outcome flags and the new file system are those of `Run`. An ignored click changes nothing. Otherwise every step of the chosen sequence is attempted, and the form is rescanned from the chosen directory. |
| `Admin.PatchThenUndo` | SprintPreview/AdminForm.cs:141-179 | A session that chooses a supported unpatched directory, clicks "Patch", then clicks "Undo", with every step succeeding, gets two outcomes that show the success message. The file system ends unchanged and the dialog again offers an enabled "Patch". |

## Left out

- The SHA-1 computation and its hex rendering (`SHA1CryptoServiceProvider`, `BitConverter.ToString`) are not modelled. The digest is a function supplied to the form.
- `GetLayoutPath` and `AdminForm_Load` are not modelled because they depend on the environment's program-files folders. The model starts from `Choose`; the load's fallback to the blank directory is covered by `BlankDirectoryCanEnable`.
- `Program.cs` (the administrator check and start-up) and `AdminForm.Designer.cs` (layout) are not part of this model. Only the designer's initial "Patch" caption is used.
- UI presentation is not modelled: the version label, the path box with `Path.GetFullPath`, focus changes, `Application.DoEvents`, the cancel button's caption, and disabling the button while a click runs. The message boxes are reduced to the step flags in `Outcome`, which decide which message and which wording appear.
- Exceptions are not derived from file locks, permissions or disk space. The caller chooses them through the fault parameters, and `RemoveFiles` takes a single "throws" flag.
- `Admin.AdminForm.Choose`: does not model the exceptions of the calls it makes outside any `try`: `Path.GetFullPath` and `Path.Combine` on invalid path characters, and `File.GetLastWriteTimeUtc` and `File.ReadAllBytes` on a locked or unreadable source (AdminForm.cs:50-76). A throw at the last two would leave `revertChanges` and the three paths updated while the digest and the button keep the previous scan's values. Because `Click` ends with `Choose` (AdminForm.cs:158, 179), the exception would also escape the click after the file operations ran. The model's `Choose` and `Click` always complete with the form equal to `Scan`.
- Paths are compared as strings. Windows' case-insensitive names, different spellings of one file, and the current directory behind relative paths are not modelled.
- .NET `null` strings have no counterpart: every path and digest is a string.
- Other programs changing the files between `Choose` and `Click` are not modelled as a step of their own. The click re-checks only what the code re-checks: the remembered paths and digest, and that the source still exists.
- Timestamps have no clock of their own. Writes stamp the file with the `now` given to the call, `File.Copy` gives the copy `now` as its creation time, and the time of day is kept opaque.
