/**
 * The size-bounded log file of src/logger.cpp (write_log_entry, gzip_file): one
 * line is appended, and when the active file has grown over the limit the
 * numbered backups shift by one and the active file becomes backup 1. File
 * operations succeed; decompressing a .gz file gives back what went in.
 */
module LogRotation {
  import opened Basics

  /** One printed line, without its newline. */
  datatype Line = Line(text: string)

  /** The file names in play: the log, `log.i` and `log.i.gz`. */
  datatype Name = Log | Numbered(i: nat) | Gz(i: nat)

  /** A directory: the lines each file holds. */
  type Files = map<Name, seq<Line>>

  /** Bytes on disk: every line ends with a newline. */
  function Size(lines: seq<Line>): nat {
    if lines == [] then 0 else Size(lines[..|lines| - 1]) + |lines[|lines| - 1].text| + 1
  }

  /** What a file that holds these lines contains. */
  function Contents(lines: seq<Line>): string {
    if lines == [] then "" else Contents(lines[..|lines| - 1]) + lines[|lines| - 1].text + "\n"
  }

  lemma {:induction false} SizeIsLength(lines: seq<Line>)
    ensures Size(lines) == |Contents(lines)|
  {
    if lines != [] { SizeIsLength(lines[..|lines| - 1]); }
  }

  function Concat(chunks: seq<seq<Line>>): seq<Line> {
    if chunks == [] then [] else Concat(chunks[..|chunks| - 1]) + chunks[|chunks| - 1]
  }

  // ---------------------------------------------------------------- the history of a log

  /** The lines written so far, cut where a rotation happened: finished chunks and the open one. */
  datatype Cut = Cut(closed: seq<seq<Line>>, open: seq<Line>)

  /** A chunk is closed by the line that takes it over the limit; a limit of 0 never rotates. */
  function CutLines(lines: seq<Line>, maxSize: nat): Cut {
    if lines == [] then Cut([], [])
    else Extend(CutLines(lines[..|lines| - 1], maxSize), lines[|lines| - 1], maxSize)
  }

  lemma CutSnoc(lines: seq<Line>, line: Line, maxSize: nat)
    ensures CutLines(lines + [line], maxSize) == Extend(CutLines(lines, maxSize), line, maxSize)
  {
    assert (lines + [line])[..|lines|] == lines;
  }

  function Extend(c: Cut, line: Line, maxSize: nat): Cut {
    var grown := c.open + [line];
    if maxSize > 0 && Size(grown) > maxSize then Cut(c.closed + [grown], []) else Cut(c.closed, grown)
  }

  lemma Assoc<T>(a: seq<T>, b: seq<T>, c: seq<T>)
    ensures (a + b) + c == a + (b + c)
  {
  }

  lemma Snoc<T>(s: seq<T>)
    requires s != []
    ensures s == s[..|s| - 1] + [s[|s| - 1]]
  {
  }

  lemma ConcatSnoc(chunks: seq<seq<Line>>, chunk: seq<Line>)
    ensures Concat(chunks + [chunk]) == Concat(chunks) + chunk
  {
    assert (chunks + [chunk])[..|chunks|] == chunks;
  }

  /** Nothing is lost or reordered by cutting. */
  lemma {:induction false} CutKeepsLines(lines: seq<Line>, maxSize: nat)
    ensures var c := CutLines(lines, maxSize); Concat(c.closed) + c.open == lines
  {
    if lines != [] {
      var n := |lines| - 1;
      CutKeepsLines(lines[..n], maxSize);
      var before := CutLines(lines[..n], maxSize);
      var grown := before.open + [lines[n]];
      ConcatSnoc(before.closed, grown);
      Snoc(lines);
      Assoc(Concat(before.closed), before.open, [lines[n]]);
    }
  }

  /** A chunk over the limit by at most its last line. */
  predicate JustOver(chunk: seq<Line>, maxSize: nat) {
    chunk != [] && Size(chunk) > maxSize && Size(chunk[..|chunk| - 1]) <= maxSize
  }

  /** Every closed chunk is just over the limit, and the open one is within it; without a limit nothing is closed. */
  lemma {:induction false} CutRespectsLimit(lines: seq<Line>, maxSize: nat)
    ensures var c := CutLines(lines, maxSize);
            && (if maxSize > 0 then Size(c.open) <= maxSize else c.closed == [])
            && forall k :: 0 <= k < |c.closed| ==> JustOver(c.closed[k], maxSize)
  {
    if lines != [] {
      var n := |lines| - 1;
      CutRespectsLimit(lines[..n], maxSize);
      var before := CutLines(lines[..n], maxSize);
      var grown := before.open + [lines[n]];
      assert grown[..|grown| - 1] == before.open;
    }
  }

  // ---------------------------------------------------------------- the files of a history

  /** Backup i is the i-th last closed chunk; there are as many as were closed, up to maxFiles. */
  function Backup(closed: seq<seq<Line>>, i: nat): seq<Line>
    requires 1 <= i <= |closed|
  {
    closed[|closed| - i]
  }

  function Slot(compress: bool, i: nat): Name {
    if compress then Gz(i) else Numbered(i)
  }

  /** The naming the other mode would use. */
  function OtherSlot(compress: bool, i: nat): Name {
    if compress then Numbered(i) else Gz(i)
  }

  ghost predicate Shows(files: Files, c: Cut, maxFiles: nat, compress: bool) {
    Log in files && files[Log] == c.open && Filled(files, c.closed, maxFiles, compress)
  }

  ghost predicate Filled(files: Files, closed: seq<seq<Line>>, maxFiles: nat, compress: bool) {
    && (forall i: nat :: Slot(compress, i) in files <==> 1 <= i <= Min(maxFiles, |closed|))
    && (forall i: nat :: 1 <= i <= Min(maxFiles, |closed|) ==> files[Slot(compress, i)] == Backup(closed, i))
    && (forall i: nat :: OtherSlot(compress, i) !in files)
  }

  /** The backups have moved up by one and slot 1 is free. */
  ghost predicate Shifted(files: Files, closed: seq<seq<Line>>, maxFiles: nat, compress: bool) {
    && (forall i: nat :: Slot(compress, i) in files <==> 2 <= i <= Min(maxFiles, |closed| + 1))
    && (forall i: nat :: 2 <= i <= Min(maxFiles, |closed| + 1) ==> files[Slot(compress, i)] == Backup(closed, i - 1))
    && (forall i: nat :: OtherSlot(compress, i) !in files)
  }

  /** On the way there: slots 1..i are still in place, the next one is free, those above have moved up. */
  ghost predicate HalfShifted(files: Files, closed: seq<seq<Line>>, maxFiles: nat, compress: bool, i: nat) {
    var filled := Min(maxFiles, |closed|);
    && (forall j: nat :: Slot(compress, j) in files <==>
          (1 <= j <= Min(i, filled)) || (i + 2 <= j <= Min(maxFiles, filled + 1)))
    && (forall j: nat :: 1 <= j <= Min(i, filled) ==> files[Slot(compress, j)] == Backup(closed, j))
    && (forall j: nat :: i + 2 <= j <= Min(maxFiles, filled + 1) ==> files[Slot(compress, j)] == Backup(closed, j - 1))
    && (forall j: nat :: OtherSlot(compress, j) !in files)
  }

  /** Putting the finished chunk into slot 1 and truncating the log completes a rotation. */
  lemma RotationDone(files: Files, closed: seq<seq<Line>>, chunk: seq<Line>, maxFiles: nat, compress: bool)
    requires maxFiles > 0 && Shifted(files, closed, maxFiles, compress)
    ensures Filled(files[Slot(compress, 1) := chunk][Log := []], closed + [chunk], maxFiles, compress)
  {
    var after := closed + [chunk];
    var files2 := files[Slot(compress, 1) := chunk][Log := []];
    forall i: nat ensures Slot(compress, i) in files2 <==> 1 <= i <= Min(maxFiles, |after|) {
    }
    forall i: nat | 1 <= i <= Min(maxFiles, |after|) ensures files2[Slot(compress, i)] == Backup(after, i) {
      if i > 1 {
        assert Backup(after, i) == Backup(closed, i - 1);
        assert files2[Slot(compress, i)] == files[Slot(compress, i)];
      }
    }
    forall i: nat ensures OtherSlot(compress, i) !in files2 {
    }
  }

  function FileOr(files: Files, name: Name): seq<Line> {
    if name in files then files[name] else []
  }

  /** Backup n, ..., backup 1, then the active file, read in a row. */
  function Retained(files: Files, n: nat, compress: bool): seq<Line> {
    if n == 0 then FileOr(files, Log)
    else FileOr(files, Slot(compress, n)) + Retained(files, n - 1, compress)
  }

  /** The last n closed chunks, or all of them. */
  function LastChunks(c: Cut, n: nat): seq<seq<Line>> {
    c.closed[|c.closed| - Min(n, |c.closed|)..]
  }

  lemma Cons<T>(s: seq<T>, k: nat)
    requires k < |s|
    ensures s[k..] == [s[k]] + s[k + 1..]
  {
  }

  lemma SlotHolds(files: Files, c: Cut, maxFiles: nat, compress: bool, n: nat)
    requires Shows(files, c, maxFiles, compress) && 1 <= n <= maxFiles
    ensures FileOr(files, Slot(compress, n)) == if n <= |c.closed| then Backup(c.closed, n) else []
  {
  }

  lemma NoChunks(c: Cut)
    ensures Concat(LastChunks(c, 0)) + c.open == c.open
  {
    assert LastChunks(c, 0) == [];
    assert [] + c.open == c.open;
  }

  lemma Nil<T>(s: seq<T>)
    ensures [] + s == s
  {
  }

  /** The files down from backup n hold the last n chunks and the open one. */
  predicate Holds(files: Files, c: Cut, compress: bool, n: nat) {
    Retained(files, n, compress) == Concat(LastChunks(c, n)) + c.open
  }

  lemma HoldsMore(files: Files, c: Cut, compress: bool, n: nat)
    requires 1 <= n <= |c.closed| && Holds(files, c, compress, n - 1)
    requires FileOr(files, Slot(compress, n)) == Backup(c.closed, n)
    ensures Holds(files, c, compress, n)
  {
    RetainedMore(c, n);
  }

  lemma HoldsStill(files: Files, c: Cut, compress: bool, n: nat)
    requires n > |c.closed| && Holds(files, c, compress, n - 1)
    requires FileOr(files, Slot(compress, n)) == []
    ensures Holds(files, c, compress, n)
  {
    NoMoreChunks(c, n);
    Nil(Retained(files, n - 1, compress));
  }

  lemma HoldsNext(files: Files, c: Cut, maxFiles: nat, compress: bool, n: nat)
    requires Shows(files, c, maxFiles, compress) && 1 <= n <= maxFiles && Holds(files, c, compress, n - 1)
    ensures Holds(files, c, compress, n)
  {
    SlotHolds(files, c, maxFiles, compress, n);
    if n <= |c.closed| {
      HoldsMore(files, c, compress, n);
    } else {
      HoldsStill(files, c, compress, n);
    }
  }

  lemma RetainedIs(files: Files, c: Cut, maxFiles: nat, compress: bool, n: nat)
    requires Shows(files, c, maxFiles, compress) && n <= maxFiles
    ensures Holds(files, c, compress, n)
  {
    NoChunks(c);
    for i := 0 to n
      invariant Holds(files, c, compress, i)
    {
      HoldsNext(files, c, maxFiles, compress, i + 1);
    }
  }

  lemma NoMoreChunks(c: Cut, n: nat)
    requires n > |c.closed|
    ensures LastChunks(c, n) == LastChunks(c, n - 1)
  {
    assert Min(n, |c.closed|) == Min(n - 1, |c.closed|);
  }

  lemma RetainedMore(c: Cut, n: nat)
    requires 1 <= n <= |c.closed|
    ensures Concat(LastChunks(c, n)) + c.open == Backup(c.closed, n) + (Concat(LastChunks(c, n - 1)) + c.open)
  {
    var rest := LastChunks(c, n - 1);
    Cons(c.closed, |c.closed| - n);
    ConcatCons(Backup(c.closed, n), rest);
    Assoc(Backup(c.closed, n), Concat(rest), c.open);
  }

  lemma {:induction false} ConcatCons(chunk: seq<Line>, chunks: seq<seq<Line>>)
    ensures Concat([chunk] + chunks) == chunk + Concat(chunks)
  {
    var all := [chunk] + chunks;
    if chunks == [] {
      assert all[..0] == [] && Concat([chunk]) == Concat([]) + chunk;
    } else {
      var n := |chunks| - 1;
      ConcatCons(chunk, chunks[..n]);
      assert all[..|all| - 1] == [chunk] + chunks[..n];
      assert all[|all| - 1] == chunks[n];
    }
  }

  lemma {:induction false} ConcatSplit(a: seq<seq<Line>>, b: seq<seq<Line>>)
    ensures Concat(a + b) == Concat(a) + Concat(b)
  {
    if b == [] {
      assert a + b == a;
    } else {
      var n := |b| - 1;
      ConcatSplit(a, b[..n]);
      assert (a + b)[..|a + b| - 1] == a + b[..n];
      assert (a + b)[|a + b| - 1] == b[n];
    }
  }

  lemma TailOf(a: seq<Line>, b: seq<Line>)
    ensures SuffixOf(b, a + b)
  {
    assert (a + b)[|a|..] == b;
  }

  ghost predicate SuffixOf(tail: seq<Line>, lines: seq<Line>) {
    exists k :: 0 <= k <= |lines| && tail == lines[k..]
  }

  /**
   * What is on disk after any run from an empty log: the retained files read
   * in a row are the end of everything ever written, and all of it as long as
   * there were no more rotations than slots.
   */
  lemma RetainedIsSuffix(files: Files, lines: seq<Line>, maxSize: nat, maxFiles: nat, compress: bool)
    requires Shows(files, CutLines(lines, maxSize), maxFiles, compress)
    ensures SuffixOf(Retained(files, maxFiles, compress), lines)
    ensures |CutLines(lines, maxSize).closed| <= maxFiles ==> Retained(files, maxFiles, compress) == lines
  {
    var c := CutLines(lines, maxSize);
    CutKeepsLines(lines, maxSize);
    RetainedIs(files, c, maxFiles, compress, maxFiles);
    var kept := LastChunks(c, maxFiles);
    var lost := c.closed[..|c.closed| - |kept|];
    assert c.closed == lost + kept;
    ConcatSplit(lost, kept);
    Assoc(Concat(lost), Concat(kept), c.open);
    TailOf(Concat(lost), Concat(kept) + c.open);
    if |c.closed| <= maxFiles {
      assert lost == [];
    }
  }

  /**
   * The sizes on disk: the active file is within the limit; the backups fill
   * exactly the slots up to min(maxFiles, rotations), and each is over the
   * limit by at most its last line.
   */
  lemma SizesOnDisk(files: Files, lines: seq<Line>, maxSize: nat, maxFiles: nat, compress: bool)
    requires Shows(files, CutLines(lines, maxSize), maxFiles, compress)
    ensures maxSize > 0 ==> Log in files && Size(files[Log]) <= maxSize
    ensures forall i: nat :: Slot(compress, i) in files <==> 1 <= i <= Min(maxFiles, |CutLines(lines, maxSize).closed|)
    ensures forall i: nat :: Slot(compress, i) in files ==> JustOver(files[Slot(compress, i)], maxSize)
  {
    CutRespectsLimit(lines, maxSize);
  }

  // ---------------------------------------------------------------- the file operations

  function Remove(files: Files, n: Name): Files { files - {n} }

  /** fs::rename: nothing happens when the source is missing, the target is overwritten. */
  function Rename(files: Files, from: Name, to: Name): Files {
    if from in files && from != to then (files - {from})[to := files[from]] else files
  }

  lemma RemoveOldest(files: Files, closed: seq<seq<Line>>, maxFiles: nat, compress: bool)
    requires maxFiles > 0 && HalfShifted(files, closed, maxFiles, compress, maxFiles)
    ensures HalfShifted(Remove(files, Slot(compress, maxFiles)), closed, maxFiles, compress, maxFiles - 1)
  {
  }

  /** The slot above is free, so the rename overwrites nothing. */
  lemma MoveUp(files: Files, closed: seq<seq<Line>>, maxFiles: nat, compress: bool, i: nat)
    requires 0 < i < maxFiles && HalfShifted(files, closed, maxFiles, compress, i)
    ensures HalfShifted(Rename(files, Slot(compress, i), Slot(compress, i + 1)), closed, maxFiles, compress, i - 1)
  {
    var files2 := Rename(files, Slot(compress, i), Slot(compress, i + 1));
    assert forall j: nat :: j != i && j != i + 1 ==> (Slot(compress, j) in files2 <==> Slot(compress, j) in files);
  }

  class LogFile {
    const maxSize: nat
    const maxFiles: nat
    const compress: bool
    const minLevel: int
    var files: Files
    ghost var written: seq<Line>     // every line ever appended

    ghost predicate Valid()
      reads this
    {
      Shows(files, CutLines(written, maxSize), maxFiles, compress)
    }

    /** init_logger on an empty directory. */
    constructor (maxSize: nat, maxFiles: nat, compress: bool, minLevel: int)
      ensures Valid() && written == []
      ensures this.maxSize == maxSize && this.maxFiles == maxFiles && this.compress == compress && this.minLevel == minLevel
    {
      this.maxSize, this.maxFiles, this.compress, this.minLevel := maxSize, maxFiles, compress, minLevel;
      files := map[Log := []];
      written := [];
    }

    /** write_log_entry, after the line has been formatted. */
    method WriteEntry(level: int, line: Line)
      requires Valid()
      modifies this
      ensures Valid()
      ensures written == if level < minLevel then old(written) else old(written) + [line]
    {
      if level < minLevel {
        return;
      }
      ghost var before := CutLines(written, maxSize);
      CutSnoc(written, line, maxSize);
      written := written + [line];
      Append(line, before.closed);
      if maxSize > 0 && Size(files[Log]) > maxSize {
        Rotate(before.closed);
      }
    }

    method Append(line: Line, ghost closed: seq<seq<Line>>)
      requires Log in files && Filled(files, closed, maxFiles, compress)
      modifies this`files
      ensures Log in files && files[Log] == old(files)[Log] + [line] && Filled(files, closed, maxFiles, compress)
    {
      files := files[Log := files[Log] + [line]];
    }

    /** The active file becomes backup 1 and an empty one takes its place. */
    method Rotate(ghost closed: seq<seq<Line>>)
      requires Log in files && Filled(files, closed, maxFiles, compress)
      modifies this`files
      ensures Log in files && files[Log] == []
      ensures Filled(files, closed + [old(files)[Log]], maxFiles, compress)
    {
      if maxFiles > 0 {
        ShiftBackups(closed);
        ghost var shifted := files;
        assert Slot(compress, 1) !in shifted && OtherSlot(compress, 1) !in shifted;
        if compress {
          files := Rename(files, Log, Numbered(1));
          files := files[Gz(1) := files[Numbered(1)]];
          files := Remove(files, Numbered(1));
        } else {
          files := Rename(files, Log, Numbered(1));
        }
        files := files[Log := []];
        assert files == shifted[Slot(compress, 1) := shifted[Log]][Log := []];
        RotationDone(shifted, closed, shifted[Log], maxFiles, compress);
      } else {
        files := files[Log := []];
      }
    }

    /** The downward loop: the oldest slot is removed, every other one moves up by one. */
    method ShiftBackups(ghost closed: seq<seq<Line>>)
      requires maxFiles > 0 && Log in files && Filled(files, closed, maxFiles, compress)
      modifies this`files
      ensures Log in files && files[Log] == old(files)[Log] && Shifted(files, closed, maxFiles, compress)
    {
      var i := maxFiles;
      while i > 0
        invariant 0 <= i <= maxFiles
        invariant Log in files && files[Log] == old(files)[Log]
        invariant HalfShifted(files, closed, maxFiles, compress, i)
      {
        if i == maxFiles {
          RemoveOldest(files, closed, maxFiles, compress);
          files := Remove(files, Slot(compress, i));
        } else {
          MoveUp(files, closed, maxFiles, compress, i);
          files := Rename(files, Slot(compress, i), Slot(compress, i + 1));
        }
        i := i - 1;
      }
    }

    /** A whole run of the log. */
    method WriteAll(entries: seq<(int, Line)>)
      requires Valid()
      modifies this
      ensures Valid()
      ensures written == old(written) + Accepted(entries, minLevel)
    {
      for k := 0 to |entries|
        invariant Valid()
        invariant written == old(written) + Accepted(entries[..k], minLevel)
      {
        assert entries[..k + 1][..k] == entries[..k];
        WriteEntry(entries[k].0, entries[k].1);
      }
      assert entries[..|entries|] == entries;
    }
  }

  /** The lines whose level passes the threshold. */
  function Accepted(entries: seq<(int, Line)>, minLevel: int): seq<Line> {
    if entries == [] then []
    else
      var last := entries[|entries| - 1];
      Accepted(entries[..|entries| - 1], minLevel) + if last.0 < minLevel then [] else [last.1]
  }
}
