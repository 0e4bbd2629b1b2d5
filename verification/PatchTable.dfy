/** The fingerprints the patcher recognises and the byte edits it makes for
    each: two known builds of layout60.exe, each identified by its UTC
    modification date and its SHA-1 digest (rendered as dash-separated hex),
    each patched by four fixed-offset overwrites. */
module PatchTable {
  import opened Files

  const HASH_2020_02_11: string := "58-8D-0E-E6-06-BC-F6-E9-66-01-80-26-9A-6A-39-DE-34-8F-6D-81"
  const HASH_2021_01_19: string := "F1-F8-F0-45-E0-4D-0E-59-A1-48-06-D4-BF-86-47-48-6C-60-A7-66"

  /** The ASCII text "Checked". */
  const CHECKED: seq<byte> := [0x43, 0x68, 0x65, 0x63, 0x6b, 0x65, 0x64]
  /** The ASCII digits "20" and "21". */
  const DIGITS_20: seq<byte> := [0x32, 0x30]
  const DIGITS_21: seq<byte> := [0x32, 0x31]

  /** Whether a file with this modification time and digest may be patched:
      date and digest must both belong to the same known build. */
  predicate IsCompatible(modTimeUtc: DateTime, hash: string) {
    (modTimeUtc.year == 2020 && modTimeUtc.month == 2 && modTimeUtc.day == 11 && hash == HASH_2020_02_11)
    || (modTimeUtc.year == 2021 && modTimeUtc.month == 1 && modTimeUtc.day == 19 && hash == HASH_2021_01_19)
  }

  /** The digest-only overload: the digest belongs to some known build. */
  predicate IsCompatibleHash(hash: string) {
    hash == HASH_2020_02_11 || hash == HASH_2021_01_19
  }

  /** One overwrite: `bytes` written starting at byte position `offset`. */
  datatype Edit = Edit(offset: nat, bytes: seq<byte>)

  function End(e: Edit): nat { e.offset + |e.bytes| }

  predicate Within(e: Edit, i: int) { e.offset <= i < End(e) }

  /** The edits Patch makes for a digest, in the order it makes them. The
      first two offsets depend on whether the digest is the 2020 one; every
      other digest takes the 2021 branch, as in the code. */
  function Edits(hash: string): seq<Edit> {
    [Edit(if hash == HASH_2020_02_11 then 0x2b6d92 else 0x2b7dba, CHECKED),
     Edit(if hash == HASH_2020_02_11 then 0x2b6df1 else 0x2b7e19, CHECKED)]
    + if hash == HASH_2020_02_11 then [Edit(0x2c18ce, DIGITS_20), Edit(0x316aef, DIGITS_20)]
      else [Edit(0x2c2976, DIGITS_21), Edit(0x317a9f, DIGITS_21)]
  }

  /** The same knowledge written as data: one record per supported build. */
  datatype Profile = Profile(year: int, month: int, day: int, hash: string, edits: seq<Edit>)

  const PROFILES: seq<Profile> := [
    Profile(2020, 2, 11, HASH_2020_02_11,
      [Edit(0x2b6d92, CHECKED), Edit(0x2b6df1, CHECKED), Edit(0x2c18ce, DIGITS_20), Edit(0x316aef, DIGITS_20)]),
    Profile(2021, 1, 19, HASH_2021_01_19,
      [Edit(0x2b7dba, CHECKED), Edit(0x2b7e19, CHECKED), Edit(0x2c2976, DIGITS_21), Edit(0x317a9f, DIGITS_21)])
  ]

  predicate Matches(p: Profile, modTimeUtc: DateTime, hash: string) {
    p.year == modTimeUtc.year && p.month == modTimeUtc.month && p.day == modTimeUtc.day && p.hash == hash
  }

  lemma HashesDiffer()
    ensures HASH_2020_02_11 != HASH_2021_01_19
  {
    assert HASH_2020_02_11 == "58-8D-0E-E6-06-BC-F6-E9-66-01-80-26-9A-6A-39-DE-34-8F-6D-81";
  }

  /** IsCompatible accepts exactly the (date, digest) pairs of one table record. */
  lemma IsCompatibleIsTableLookup(modTimeUtc: DateTime, hash: string)
    ensures IsCompatible(modTimeUtc, hash) <==> exists p :: p in PROFILES && Matches(p, modTimeUtc, hash)
  {
    if IsCompatible(modTimeUtc, hash) {
      if hash == HASH_2020_02_11 && modTimeUtc.year == 2020 {
        assert Matches(PROFILES[0], modTimeUtc, hash);
      } else {
        assert Matches(PROFILES[1], modTimeUtc, hash);
      }
    }
  }

  /** IsCompatibleHash accepts exactly the digests of the table. */
  lemma IsCompatibleHashIsTableLookup(hash: string)
    ensures IsCompatibleHash(hash) <==> exists p :: p in PROFILES && p.hash == hash
  {
    if hash == HASH_2020_02_11 {
      assert PROFILES[0].hash == hash;
    } else if hash == HASH_2021_01_19 {
      assert PROFILES[1].hash == hash;
    }
  }

  /** The edits the code makes for a known digest are the table's edits. */
  lemma EditsAreTableEdits(p: Profile)
    requires p in PROFILES
    ensures Edits(p.hash) == p.edits
  {
    HashesDiffer();
  }

  /** A date-and-digest match implies a digest match; a known digest paired
      with any date but its own build's is refused. */
  lemma CompatibilityNeedsDateAndHash(modTimeUtc: DateTime, hash: string)
    ensures IsCompatible(modTimeUtc, hash) ==> IsCompatibleHash(hash)
    ensures hash == HASH_2020_02_11 ==>
      (IsCompatible(modTimeUtc, hash) <==> modTimeUtc.year == 2020 && modTimeUtc.month == 2 && modTimeUtc.day == 11)
    ensures hash == HASH_2021_01_19 ==>
      (IsCompatible(modTimeUtc, hash) <==> modTimeUtc.year == 2021 && modTimeUtc.month == 1 && modTimeUtc.day == 19)
  {
    HashesDiffer();
  }

  /** No two edits of the list share a byte position. */
  predicate Disjoint(es: seq<Edit>) {
    forall j, k :: 0 <= j < k < |es| ==> End(es[j]) <= es[k].offset || End(es[k]) <= es[j].offset
  }

  /** Some edit of the list writes byte position i. */
  predicate Covered(es: seq<Edit>, i: int) {
    exists j :: 0 <= j < |es| && Within(es[j], i)
  }

  /** The end of the furthest-reaching edit. */
  function Reach(es: seq<Edit>): nat
    decreases |es|
  {
    if es == [] then 0 else Max(Reach(es[..|es| - 1]), End(es[|es| - 1]))
  }

  /** The contents after the edits have been written one after the other. */
  function ApplyEdits(data: seq<byte>, es: seq<Edit>): seq<byte>
    decreases |es|
  {
    if es == [] then data
    else Overwrite(ApplyEdits(data, es[..|es| - 1]), es[|es| - 1].offset, es[|es| - 1].bytes)
  }

  lemma {:induction false} ReachCoversEach(es: seq<Edit>, j: int)
    requires 0 <= j < |es|
    ensures End(es[j]) <= Reach(es)
  {
    if j < |es| - 1 {
      ReachCoversEach(es[..|es| - 1], j);
    }
  }

  /** Writing never shrinks a file; it grows exactly to the furthest edit. */
  lemma {:induction false} ApplyEditsLength(data: seq<byte>, es: seq<Edit>)
    ensures |ApplyEdits(data, es)| == Max(|data|, Reach(es))
    decreases |es|
  {
    if es != [] {
      ApplyEditsLength(data, es[..|es| - 1]);
    }
  }

  /** With disjoint edits, every edit's bytes are in place afterwards. */
  lemma {:induction false} ApplyEditsWrites(data: seq<byte>, es: seq<Edit>, j: int, i: int)
    requires Disjoint(es) && 0 <= j < |es| && Within(es[j], i)
    ensures i < |ApplyEdits(data, es)|
    ensures ApplyEdits(data, es)[i] == es[j].bytes[i - es[j].offset]
    decreases |es|
  {
    ApplyEditsLength(data, es);
    ReachCoversEach(es, j);
    var n := |es| - 1;
    if j < n {
      var prefix := es[..n];
      assert prefix[j] == es[j];
      assert Disjoint(prefix);
      ApplyEditsWrites(data, prefix, j, i);
      assert !Within(es[n], i);
    }
  }

  /** A byte no edit covers keeps its old value, or reads zero if the file grew past it. */
  lemma {:induction false} ApplyEditsKeeps(data: seq<byte>, es: seq<Edit>, i: int)
    requires 0 <= i < |ApplyEdits(data, es)| && !Covered(es, i)
    ensures ApplyEdits(data, es)[i] == if i < |data| then data[i] else 0
    decreases |es|
  {
    if es != [] {
      var n := |es| - 1;
      var prefix := es[..n];
      assert !Within(es[n], i);
      ApplyEditsLength(data, prefix);
      ApplyEditsLength(data, es);
      if i < |ApplyEdits(data, prefix)| {
        forall j | 0 <= j < |prefix| ensures !Within(prefix[j], i) {
          assert prefix[j] == es[j];
        }
        ApplyEditsKeeps(data, prefix, i);
      } else {
        assert i >= |data|;
      }
    }
  }

  /** Rewriting disjoint edits over their own result changes nothing. */
  lemma ApplyEditsIdempotent(data: seq<byte>, es: seq<Edit>)
    requires Disjoint(es)
    ensures ApplyEdits(ApplyEdits(data, es), es) == ApplyEdits(data, es)
  {
    var once := ApplyEdits(data, es);
    var twice := ApplyEdits(once, es);
    ApplyEditsLength(data, es);
    ApplyEditsLength(once, es);
    forall i | 0 <= i < |twice| ensures twice[i] == once[i] {
      if Covered(es, i) {
        var j :| 0 <= j < |es| && Within(es[j], i);
        ApplyEditsWrites(data, es, j, i);
        ApplyEditsWrites(once, es, j, i);
      } else {
        ApplyEditsKeeps(once, es, i);
      }
    }
  }

  /** An edit's whole range holds its bytes afterwards. */
  lemma ApplyEditsRange(data: seq<byte>, es: seq<Edit>, j: int)
    requires Disjoint(es) && 0 <= j < |es|
    ensures End(es[j]) <= |ApplyEdits(data, es)|
    ensures ApplyEdits(data, es)[es[j].offset..End(es[j])] == es[j].bytes
  {
    var r := ApplyEdits(data, es);
    ApplyEditsLength(data, es);
    ReachCoversEach(es, j);
    forall k | 0 <= k < |es[j].bytes| ensures r[es[j].offset + k] == es[j].bytes[k] {
      ApplyEditsWrites(data, es, j, es[j].offset + k);
    }
  }

  /** Both builds' edit lists are disjoint, and neither reaches past the last edit's end. */
  lemma EditsDisjoint(hash: string)
    ensures Disjoint(Edits(hash))
    ensures Reach(Edits(hash)) == if hash == HASH_2020_02_11 then 0x316af1 else 0x317aa1
  {
    var es := Edits(hash);
    assert Reach(es[..1]) == End(es[0]) by { assert es[..1][..0] == []; }
    assert Reach(es[..2]) == End(es[1]) by { assert es[..2][..1] == es[..1]; }
    assert Reach(es[..3]) == End(es[2]) by { assert es[..3][..2] == es[..2]; }
    assert es[..|es| - 1] == es[..3];
  }

  /** What patching a known build's contents yields: every edit's bytes at its
      offset, every other byte as before, and the length unchanged when the
      file already extends past the last edit. */
  lemma PatchedContents(hash: string, data: seq<byte>)
    ensures var r := ApplyEdits(data, Edits(hash));
      |r| == Max(|data|, Reach(Edits(hash)))
      && (forall j :: 0 <= j < 4 ==> End(Edits(hash)[j]) <= |r| && r[Edits(hash)[j].offset..End(Edits(hash)[j])] == Edits(hash)[j].bytes)
      && (forall i :: 0 <= i < |data| && !Covered(Edits(hash), i) ==> r[i] == data[i])
  {
    var es := Edits(hash);
    var r := ApplyEdits(data, es);
    EditsDisjoint(hash);
    ApplyEditsLength(data, es);
    forall j | 0 <= j < 4 ensures End(es[j]) <= |r| && r[es[j].offset..End(es[j])] == es[j].bytes {
      ApplyEditsRange(data, es, j);
    }
    forall i | 0 <= i < |data| && !Covered(es, i) ensures r[i] == data[i] {
      ApplyEditsKeeps(data, es, i);
    }
  }

  /** The 2020-02-11 build: "Checked" at 0x2b6d92 and 0x2b6df1, "20" at
      0x2c18ce and 0x316aef, nothing else changed, and no growth when the
      file extends past 0x316af1. */
  lemma Patched2020(data: seq<byte>)
    ensures var r := ApplyEdits(data, Edits(HASH_2020_02_11));
      |r| == Max(|data|, 0x316af1)
      && r[0x2b6d92..0x2b6d99] == CHECKED && r[0x2b6df1..0x2b6df8] == CHECKED
      && r[0x2c18ce..0x2c18d0] == DIGITS_20 && r[0x316aef..0x316af1] == DIGITS_20
      && (forall i :: (0 <= i < |data| && !(0x2b6d92 <= i < 0x2b6d99) && !(0x2b6df1 <= i < 0x2b6df8)
                       && !(0x2c18ce <= i < 0x2c18d0) && !(0x316aef <= i < 0x316af1)) ==> r[i] == data[i])
      && (|data| >= 0x316af1 ==> |r| == |data|)
  {
    var es := Edits(HASH_2020_02_11);
    PatchedContents(HASH_2020_02_11, data);
    EditsDisjoint(HASH_2020_02_11);
    assert es[0] == Edit(0x2b6d92, CHECKED) && es[1] == Edit(0x2b6df1, CHECKED);
    assert es[2] == Edit(0x2c18ce, DIGITS_20) && es[3] == Edit(0x316aef, DIGITS_20);
    assert ApplyEdits(data, es)[es[1].offset..End(es[1])] == CHECKED;
  }

  /** The 2021-01-19 build: "Checked" at 0x2b7dba and 0x2b7e19, "21" at
      0x2c2976 and 0x317a9f, nothing else changed, and no growth when the
      file extends past 0x317aa1. */
  lemma Patched2021(data: seq<byte>)
    ensures var r := ApplyEdits(data, Edits(HASH_2021_01_19));
      |r| == Max(|data|, 0x317aa1)
      && r[0x2b7dba..0x2b7dc1] == CHECKED && r[0x2b7e19..0x2b7e20] == CHECKED
      && r[0x2c2976..0x2c2978] == DIGITS_21 && r[0x317a9f..0x317aa1] == DIGITS_21
      && (forall i :: (0 <= i < |data| && !(0x2b7dba <= i < 0x2b7dc1) && !(0x2b7e19 <= i < 0x2b7e20)
                       && !(0x2c2976 <= i < 0x2c2978) && !(0x317a9f <= i < 0x317aa1)) ==> r[i] == data[i])
      && (|data| >= 0x317aa1 ==> |r| == |data|)
  {
    var es := Edits(HASH_2021_01_19);
    HashesDiffer();
    PatchedContents(HASH_2021_01_19, data);
    EditsDisjoint(HASH_2021_01_19);
    assert es[0] == Edit(0x2b7dba, CHECKED) && es[1] == Edit(0x2b7e19, CHECKED);
    assert es[2] == Edit(0x2c2976, DIGITS_21) && es[3] == Edit(0x317a9f, DIGITS_21);
    assert ApplyEdits(data, es)[es[1].offset..End(es[1])] == CHECKED;
  }
}
