/** The slice of the .NET file API that the patcher relies on, over an abstract
    file system: a map from full path strings to files. A file is its bytes plus
    the two timestamps the patcher reads and writes. */
module Files {

  newtype byte = x: int | 0 <= x < 256

  datatype Option<T> = None | Some(value: T)

  /** A UTC point in time (System.DateTime). Only the calendar date takes part in
      the compatibility check; the time of day is kept opaque. */
  datatype DateTime = DateTime(year: int, month: int, day: int, timeOfDay: nat)

  /** A file on disk: contents, creation time and last-write time (both UTC). */
  datatype File = File(data: seq<byte>, created: DateTime, modified: DateTime)

  type Directory = map<string, File>

  function Max(a: int, b: int): int { if a < b then b else a }

  /** The characters System.Char.IsWhiteSpace accepts: the control characters
      U+0009..U+000D, U+0085, and the Unicode space, line and paragraph separators. */
  predicate IsWhiteSpace(c: char) {
    ('\t' <= c <= '\r') || c == ' ' || c == '\U{85}' || c == '\U{A0}' || c == '\U{1680}'
    || ('\U{2000}' <= c <= '\U{200A}') || c == '\U{2028}' || c == '\U{2029}'
    || c == '\U{202F}' || c == '\U{205F}' || c == '\U{3000}'
  }

  /** string.IsNullOrWhiteSpace; a .NET null string has no counterpart here. */
  predicate IsNullOrWhiteSpace(s: string) {
    forall i :: 0 <= i < |s| ==> IsWhiteSpace(s[i])
  }

  /** File.Exists: false for a blank path, otherwise whether the file is there. */
  predicate Exists(files: Directory, path: string) {
    !IsNullOrWhiteSpace(path) && path in files
  }

  /** The prefix Path.Combine puts in front of a relative second component. */
  function CombinePrefix(dir: string): string {
    if dir == "" then ""
    else if dir[|dir| - 1] in {'\\', '/', ':'} then dir
    else dir + "\\"
  }

  /** Path.Combine(dir, name) for a relative, non-empty file name: an empty
      directory yields the name itself, and a separator is inserted unless the
      directory already ends in one (or in a volume separator). */
  function Combine(dir: string, name: string): (r: string)
    ensures r == CombinePrefix(dir) + name
  {
    if dir == "" then name
    else if dir[|dir| - 1] in {'\\', '/', ':'} then dir + name
    else dir + "\\" + name
  }

  /** Two different names of equal length stay different under one directory. */
  lemma CombineInjective(dir: string, a: string, b: string)
    requires |a| == |b| && a != b
    ensures Combine(dir, a) != Combine(dir, b)
  {
    var p := CombinePrefix(dir);
    assert (p + a)[|p|..] == a;
    assert (p + b)[|p|..] == b;
  }

  /** A combined path with a name that holds a non-blank character is never blank. */
  lemma CombineNotBlank(dir: string, name: string, k: nat)
    requires k < |name| && !IsWhiteSpace(name[k])
    ensures !IsNullOrWhiteSpace(Combine(dir, name))
  {
    var p := CombinePrefix(dir);
    assert (p + name)[|p| + k] == name[k];
  }

  /** What FileStream.Write leaves in a file after seeking to `offset` and
      writing `bytes`: the written range holds `bytes`, earlier contents
      elsewhere are kept, and a write beyond the end grows the file, the gap
      reading as zero bytes. */
  function Overwrite(data: seq<byte>, offset: nat, bytes: seq<byte>): (r: seq<byte>)
    ensures |r| == Max(|data|, offset + |bytes|)
  {
    seq(Max(|data|, offset + |bytes|), i requires 0 <= i < Max(|data|, offset + |bytes|) =>
      if offset <= i < offset + |bytes| then bytes[i - offset]
      else if i < |data| then data[i]
      else 0)
  }

  /** The file system the patcher works on. Each method is one .NET call that
      completes; the ways such a call can throw are chosen by the patcher's
      callers (see module Patcher). */
  class FileSystem {
    var files: Directory

    constructor (initial: Directory)
      ensures files == initial
    {
      files := initial;
    }

    /** File.Copy(source, target, true): the target gets the source's bytes and
        last-write time, and the current time as its creation time. */
    method CopyFile(source: string, target: string, now: DateTime)
      requires source in files
      modifies this
      ensures files == old(files)[target := File(old(files)[source].data, now, old(files)[source].modified)]
    {
      var f := files[source];
      files := files[target := File(f.data, now, f.modified)];
    }

    /** File.SetCreationTimeUtc. */
    method SetCreationTimeUtc(path: string, t: DateTime)
      requires path in files
      modifies this
      ensures files == old(files)[path := old(files)[path].(created := t)]
    {
      files := files[path := files[path].(created := t)];
    }

    /** File.SetLastWriteTimeUtc. */
    method SetLastWriteTimeUtc(path: string, t: DateTime)
      requires path in files
      modifies this
      ensures files == old(files)[path := old(files)[path].(modified := t)]
    {
      files := files[path := files[path].(modified := t)];
    }

    /** File.Delete. */
    method Delete(path: string)
      modifies this
      ensures files == old(files) - {path}
    {
      files := files - {path};
    }

    /** Setting FileStream.Position to `offset` and writing `bytes`; the write
        stamps the file with the current time. */
    method WriteAt(path: string, offset: nat, bytes: seq<byte>, now: DateTime)
      requires path in files
      modifies this
      ensures files == old(files)[path := File(Overwrite(old(files)[path].data, offset, bytes),
                                                old(files)[path].created, now)]
    {
      var f := files[path];
      files := files[path := File(Overwrite(f.data, offset, bytes), f.created, now)];
    }
  }
}
