/** The bounded log and its numbered files: shared/operations.js. */
module BoundedLog {
  import opened Units
  import opened Bytes
  import opened Sequences

  /** A line as it is appended: its UTF-8 bytes, line feed included. */
  type Line = seq<Byte>

  /** The files of one log by slot: 0 is the active file, k is the file with suffix .k; each holds lines. */
  type Files = map<nat, seq<Line>>

  function Size(lines: seq<Line>): nat {
    if lines == [] then 0 else Size(lines[..|lines| - 1]) + |lines[|lines| - 1]|
  }

  predicate Full(files: Files, maxBytes: int) {
    0 in files && Size(files[0]) >= maxBytes
  }

  /** Every slot below the limit moved up by one, the oldest gone, the active slot empty, slots beyond the limit untouched. */
  function Shifted(files: Files, maxFiles: nat): (r: Files)
    ensures 0 !in r
    ensures forall k: nat :: 1 <= k <= maxFiles ==> (k in r <==> k - 1 in files)
    ensures forall k: nat :: 1 <= k <= maxFiles && k in r ==> r[k] == files[k - 1]
    ensures forall k: nat :: k > maxFiles ==> (k in r <==> k in files)
    ensures forall k: nat :: k > maxFiles && k in r ==> r[k] == files[k]
  {
    var moved: set<nat> := set j: nat | j in files.Keys && j < maxFiles :: j + 1;
    var kept: set<nat> := set j: nat | j in files.Keys && j > maxFiles;
    map k: nat | k in moved + kept :: if k <= maxFiles then files[k - 1] else files[k]
  }

  function Rotated(files: Files, maxBytes: int, maxFiles: int): Files {
    if !Full(files, maxBytes) then files
    else if maxFiles <= 0 then files - {0}
    else Shifted(files, maxFiles)
  }

  function Appended(files: Files, line: Line): Files {
    files[0 := (if 0 in files then files[0] else []) + [line]]
  }

  function Written(files: Files, maxBytes: int, maxFiles: int, line: Line): Files {
    Appended(Rotated(files, maxBytes, maxFiles), line)
  }

  function Slot(files: Files, k: nat): Option<seq<Line>> {
    if k in files then Some(files[k]) else None
  }

  /** What slot k holds in the middle of a rotation: up to `index` is still to be renamed, the next one is free. */
  function Midway(before: Files, index: nat, maxFiles: nat, k: nat): Option<seq<Line>> {
    if k <= index || k > maxFiles then Slot(before, k)
    else if k == index + 1 then None
    else Slot(before, k - 1)
  }

  ghost predicate Partway(now: Files, before: Files, index: nat, maxFiles: nat) {
    index < maxFiles && forall k: nat :: Slot(now, k) == Midway(before, index, maxFiles, k)
  }

  /** renameSync: the target takes the contents of the source, whether or not it was there. */
  function Renamed(files: Files, source: nat, target: nat): Files
    requires source in files
  {
    files[target := files[source]] - {source}
  }

  lemma RotationStarts(now: Files, before: Files, maxFiles: nat)
    requires maxFiles > 0 && now == before - {maxFiles}
    ensures Partway(now, before, maxFiles - 1, maxFiles)
  {
  }

  lemma RotationStep(now: Files, before: Files, index: nat, maxFiles: nat)
    requires index >= 1 && Partway(now, before, index, maxFiles)
    ensures Partway(if index in now then Renamed(now, index, index + 1) else now, before, index - 1, maxFiles)
  {
    var next := if index in now then Renamed(now, index, index + 1) else now;
    assert Slot(now, index) == Slot(before, index) && Slot(now, index + 1) == None;
    forall k: nat ensures Slot(next, k) == Midway(before, index - 1, maxFiles, k) {
      assert Slot(now, k) == Midway(before, index, maxFiles, k);
    }
  }

  lemma RotationEnds(now: Files, before: Files, maxFiles: nat)
    requires Partway(now, before, 0, maxFiles) && 0 in before
    ensures 0 in now && Renamed(now, 0, 1) == Shifted(before, maxFiles)
  {
    assert Slot(now, 0) == Slot(before, 0) && Slot(now, 1) == None;
    var done, shifted := Renamed(now, 0, 1), Shifted(before, maxFiles);
    forall k: nat ensures Slot(done, k) == Slot(shifted, k) {
      assert Slot(now, k) == Midway(before, 0, maxFiles, k);
    }
    SameSlots(done, shifted);
  }

  lemma SameSlots(a: Files, b: Files)
    requires forall k: nat :: Slot(a, k) == Slot(b, k)
    ensures a == b
  {
    forall k: nat ensures (k in a <==> k in b) && (k in a ==> a[k] == b[k]) {
      assert Slot(a, k) == Slot(b, k);
    }
    assert a.Keys == b.Keys;
  }

  /** A directory with the files of one log. */
  class LogDirectory {
    var files: Files

    constructor ()
      ensures files == map[]
    {
      files := map[];
    }

    method Rename(source: nat, target: nat)
      requires source in files && source != target
      modifies this
      ensures files == Renamed(old(files), source, target)
    {
      files := files[target := files[source]] - {source};
    }

    method Unlink(slot: nat)
      requires slot in files
      modifies this
      ensures files == old(files) - {slot}
    {
      files := files - {slot};
    }

    /** rotateFile: the oldest file is deleted, and a descending loop renames the others. */
    method RotateFile(maxBytes: int, maxFiles: int) returns (rotated: bool)
      modifies this
      ensures files == Rotated(old(files), maxBytes, maxFiles)
      ensures rotated == Full(old(files), maxBytes)
    {
      if 0 !in files || Size(files[0]) < maxBytes { return false; }
      if maxFiles <= 0 {
        Unlink(0);
        return true;
      }
      hide Shifted, Partway;
      ghost var before := files;
      if maxFiles in files { Unlink(maxFiles); }
      RotationStarts(files, before, maxFiles);
      var index := maxFiles - 1;
      while index >= 1
        invariant 0 <= index <= maxFiles - 1
        invariant Partway(files, before, index, maxFiles)
      {
        RotationStep(files, before, index, maxFiles);
        if index in files { Rename(index, index + 1); }
        index := index - 1;
      }
      RotationEnds(files, before, maxFiles);
      Rename(0, 1);
      rotated := true;
    }

    /** writeBoundedLog: rotate if the active file is full, then append. */
    method WriteBoundedLog(maxBytes: int, maxFiles: int, line: Line)
      modifies this
      ensures files == Written(old(files), maxBytes, maxFiles, line)
    {
      var _ := RotateFile(maxBytes, maxFiles);
      files := files[0 := (if 0 in files then files[0] else []) + [line]];
    }
  }

  // ----- What a log keeps -----

  /** The lines of slots k down to 0: oldest first. */
  function Contents(files: Files, k: nat): seq<Line> {
    (if k in files then files[k] else []) + (if k == 0 then [] else Contents(files, k - 1))
  }

  /** The highest slot a log uses. */
  function Top(maxFiles: int): nat {
    if maxFiles <= 0 then 0 else maxFiles
  }

  /** A log after any number of writes into an empty directory. */
  function After(lines: seq<Line>, maxBytes: int, maxFiles: int): Files {
    if lines == [] then map[]
    else Written(After(lines[..|lines| - 1], maxBytes, maxFiles), maxBytes, maxFiles, lines[|lines| - 1])
  }

  predicate IsSuffix(s: seq<Line>, t: seq<Line>) {
    |s| <= |t| && s == t[|t| - |s|..]
  }

  lemma {:induction false} AppendedContents(files: Files, line: Line, k: nat)
    ensures Contents(Appended(files, line), k) == Contents(files, k) + [line]
  {
    if k == 0 {
      assert forall s: seq<Line> :: s + [] == s;
    } else {
      AppendedContents(files, line, k - 1);
      var slot := if k in files then files[k] else [];
      Assoc(slot, Contents(files, k - 1), [line]);
    }
  }

  lemma {:induction false} ShiftedContents(files: Files, maxFiles: nat, k: nat)
    requires k <= maxFiles
    ensures Contents(Shifted(files, maxFiles), k) == if k == 0 then [] else Contents(files, k - 1)
  {
    hide Shifted;
    if k > 0 {
      ShiftedContents(files, maxFiles, k - 1);
      if k == 1 { assert forall s: seq<Line> :: s + [] == s; }
    }
  }

  /**
   * One write, exactly: the new line is added at the end, and what goes is nothing, or the oldest slot when the active file
   * was full.
   */
  lemma WriteDropsOldestOnly(files: Files, maxBytes: int, maxFiles: int, line: Line)
    ensures Contents(Written(files, maxBytes, maxFiles, line), Top(maxFiles)) ==
            (if !Full(files, maxBytes) then Contents(files, Top(maxFiles))
             else if maxFiles <= 0 then []
             else Contents(files, maxFiles - 1)) + [line]
  {
    hide Shifted, Full;
    AppendedContents(Rotated(files, maxBytes, maxFiles), line, Top(maxFiles));
    if Full(files, maxBytes) && maxFiles > 0 { ShiftedContents(files, maxFiles, maxFiles); }
  }

  lemma SuffixExtended(s: seq<Line>, dropped: seq<Line>, t: seq<Line>, line: Line)
    requires IsSuffix(dropped + s, t)
    ensures IsSuffix(s + [line], t + [line])
    ensures IsSuffix(s, t)
  {
    var n := |t| - |dropped + s|;
    assert s == (dropped + s)[|dropped|..] == t[n..][|dropped|..];
    assert t[n..][|dropped|..] == t[n + |dropped|..];
    assert (t + [line])[n + |dropped|..] == t[n + |dropped|..] + [line];
  }

  /** Over any number of writes the files, oldest first, hold a suffix of all lines written. */
  lemma {:induction false} LogIsSuffix(lines: seq<Line>, maxBytes: int, maxFiles: int)
    ensures IsSuffix(Contents(After(lines, maxBytes, maxFiles), Top(maxFiles)), lines)
  {
    hide Written, Contents, IsSuffix;
    if lines == [] {
      NothingKept(Top(maxFiles));
      assert IsSuffix([], []) by { EmptySuffix([]); }
    } else {
      var n := |lines| - 1;
      LogIsSuffix(lines[..n], maxBytes, maxFiles);
      var files := After(lines[..n], maxBytes, maxFiles);
      WriteDropsOldestOnly(files, maxBytes, maxFiles, lines[n]);
      var old_, top := Contents(files, Top(maxFiles)), Top(maxFiles);
      assert lines == lines[..n] + [lines[n]];
      if !Full(files, maxBytes) {
        assert [] + old_ == old_;
        SuffixExtended(old_, [], lines[..n], lines[n]);
      } else if maxFiles <= 0 {
        assert old_ + [] == old_;
        SuffixExtended([], old_, lines[..n], lines[n]);
      } else {
        OldestFirst(files, top);
        SuffixExtended(Contents(files, top - 1), if top in files then files[top] else [], lines[..n], lines[n]);
      }
    }
  }

  lemma EmptySuffix(t: seq<Line>)
    ensures IsSuffix([], t)
  {
  }

  lemma OldestFirst(files: Files, k: nat)
    requires k > 0
    ensures Contents(files, k) == (if k in files then files[k] else []) + Contents(files, k - 1)
  {
  }

  lemma {:induction false} NothingKept(k: nat)
    ensures Contents(map[], k) == []
  {
    if k > 0 { NothingKept(k - 1); }
  }

  // ----- How much it keeps -----

  /** A file without its last line is below the limit. */
  predicate Bounded(file: seq<Line>, maxBytes: int) {
    file != [] && Size(file[..|file| - 1]) < maxBytes
  }

  /** The files in use: slots 0 to n without a gap, none beyond the limit, each bounded, the archived ones full. */
  predicate Orderly(files: Files, maxBytes: int, maxFiles: nat) {
    && (forall k: nat :: k in files ==> k <= maxFiles && Bounded(files[k], maxBytes))
    && (forall j: nat, k: nat :: j < k && k in files ==> j in files)
    && (forall k: nat :: k in files && k >= 1 ==> Size(files[k]) >= maxBytes)
  }

  lemma SizeAppended(file: seq<Line>, line: Line)
    ensures Size(file + [line]) == Size(file) + |line|
  {
    assert (file + [line])[..|file|] == file;
  }

  lemma WriteKeepsOrder(files: Files, maxBytes: int, maxFiles: nat, line: Line)
    requires maxBytes > 0 && maxFiles > 0
    requires Orderly(files, maxBytes, maxFiles)
    ensures Orderly(Written(files, maxBytes, maxFiles, line), maxBytes, maxFiles)
    ensures 0 in Written(files, maxBytes, maxFiles, line)
  {
    hide Shifted, Size;
    var rotated := Rotated(files, maxBytes, maxFiles);
    assert Size([]) == 0 by { NoLines(); }
    var active := if 0 in rotated then rotated[0] else [];
    assert Size(active) < maxBytes;
    assert (active + [line])[..|active|] == active;
    assert Bounded(active + [line], maxBytes);
  }

  lemma NoLines()
    ensures Size([]) == 0
  {
  }

  /** Slots 1 up to the limit are all in use. */
  predicate AllUsed(files: Files, maxFiles: nat) {
    forall k: nat :: 1 <= k <= maxFiles ==> k in files
  }

  /**
   * Every reachable log is orderly, and lines have been dropped only if all numbered slots are in use.
   */
  lemma {:induction false} DropsOnlyWhenFull(lines: seq<Line>, maxBytes: int, maxFiles: nat)
    requires maxBytes > 0 && maxFiles > 0
    ensures Orderly(After(lines, maxBytes, maxFiles), maxBytes, maxFiles)
    ensures Contents(After(lines, maxBytes, maxFiles), maxFiles) == lines || AllUsed(After(lines, maxBytes, maxFiles), maxFiles)
  {
    hide Contents, Shifted, Size, Bounded;
    if lines == [] {
      NothingKept(maxFiles);
    } else {
      var n := |lines| - 1;
      var files := After(lines[..n], maxBytes, maxFiles);
      DropsOnlyWhenFull(lines[..n], maxBytes, maxFiles);
      WriteKeepsOrder(files, maxBytes, maxFiles, lines[n]);
      WriteDropsOldestOnly(files, maxBytes, maxFiles, lines[n]);
      assert lines == lines[..n] + [lines[n]];
      OldestFirst(files, maxFiles);
      if Full(files, maxBytes) && maxFiles !in files {
        assert [] + Contents(files, maxFiles - 1) == Contents(files, maxFiles - 1);
      }
    }
  }

  lemma {:induction false} SizeConcat(a: seq<Line>, b: seq<Line>)
    ensures Size(a + b) == Size(a) + Size(b)
  {
    if b == [] {
      assert a + b == a;
    } else {
      var n := |b| - 1;
      SizeConcat(a, b[..n]);
      assert (a + b)[..|a + b| - 1] == a + b[..n];
    }
  }

  predicate LinesUpTo(lines: seq<Line>, longest: nat) {
    forall i :: 0 <= i < |lines| ==> |lines[i]| <= longest
  }

  /** The size of slots k to 0: at least k full files when all are in use, and at most k + 1 files of the limit and one line. */
  lemma {:induction false} ContentsSize(files: Files, maxBytes: int, maxFiles: nat, k: nat, longest: nat)
    requires maxBytes > 0 && k <= maxFiles
    requires Orderly(files, maxBytes, maxFiles)
    requires LinesUpTo(Contents(files, k), longest)
    ensures AllUsed(files, k) ==> Size(Contents(files, k)) >= k * maxBytes
    ensures Size(Contents(files, k)) <= (k + 1) * (maxBytes - 1 + longest)
  {
    hide Size;
    var slot := if k in files then files[k] else [];
    var rest := if k == 0 then [] else Contents(files, k - 1);
    assert LinesUpTo(slot, longest) && LinesUpTo(rest, longest) by { LinesParts(slot, rest, longest); }
    NoLines();
    SizeConcat(slot, rest);
    assert Size(slot) <= maxBytes - 1 + longest by {
      if k in files {
        var n := |slot| - 1;
        assert slot == slot[..n] + [slot[n]];
        SizeAppended(slot[..n], slot[n]);
      }
    }
    if k > 0 {
      ContentsSize(files, maxBytes, maxFiles, k - 1, longest);
      Spread(k, maxBytes, maxBytes - 1 + longest);
    }
  }

  lemma Spread(k: nat, a: int, b: int)
    ensures k * a == (k - 1) * a + a && (k + 1) * b == k * b + b
  {
  }

  lemma LinesParts(a: seq<Line>, b: seq<Line>, longest: nat)
    requires LinesUpTo(a + b, longest)
    ensures LinesUpTo(a, longest) && LinesUpTo(b, longest)
  {
    forall i | 0 <= i < |a| ensures |a[i]| <= longest { assert (a + b)[i] == a[i]; }
    forall i | 0 <= i < |b| ensures |b[i]| <= longest { assert (a + b)[|a| + i] == b[i]; }
  }

  /**
   * How much a reachable log keeps: everything, or at least max_files times max_bytes; and in either case at most
   * (max_files + 1) files of max_bytes and one line.
   */
  lemma Retention(lines: seq<Line>, maxBytes: int, maxFiles: nat, longest: nat)
    requires maxBytes > 0 && maxFiles > 0 && LinesUpTo(lines, longest)
    ensures var kept := Contents(After(lines, maxBytes, maxFiles), maxFiles);
            && IsSuffix(kept, lines)
            && (kept == lines || Size(kept) >= maxFiles * maxBytes)
            && Size(kept) <= (maxFiles + 1) * (maxBytes - 1 + longest)
  {
    hide After, Contents, Size, Orderly, AllUsed;
    LogIsSuffix(lines, maxBytes, maxFiles);
    DropsOnlyWhenFull(lines, maxBytes, maxFiles);
    var files := After(lines, maxBytes, maxFiles);
    var kept := Contents(files, maxFiles);
    assert lines == lines[..|lines| - |kept|] + kept;
    LinesParts(lines[..|lines| - |kept|], kept, longest);
    ContentsSize(files, maxBytes, maxFiles, maxFiles, longest);
  }
}
