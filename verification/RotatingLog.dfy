/**
 The broker's rotating raw log and the reader that streams its history: numbered files shifted
 on rotation, and a ring buffer that keeps the last lines of all of them.
 */
module RotatingLog {
  import opened Results
  import opened Faults

  // ------------------------------------------------------------------
  // Lines and files
  // ------------------------------------------------------------------

  /** Text is a sequence of bytes, of which only the line ends matter. */
  type Line = s: seq<char> | '\n' !in s witness []

  function Text(lines: seq<Line>): seq<char> {
    if lines == [] then [] else Text(lines[..|lines| - 1]) + lines[|lines| - 1] + ['\n']
  }

  function TrimCr(line: Line): Line {
    if line != [] && line[|line| - 1] == '\r' then line[..|line| - 1] else line
  }

  /** The scanner drops one carriage return before the line end, and the caller another. */
  function Scanned(line: Line): Line {
    TrimCr(TrimCr(line))
  }

  function ScannedAll(lines: seq<Line>): seq<Line> {
    seq(|lines|, i requires 0 <= i < |lines| => Scanned(lines[i]))
  }

  /** The end of the first line, or of the text. */
  function LineEnd(text: seq<char>): (n: nat)
    ensures n <= |text| && '\n' !in text[..n] && (n < |text| ==> text[n] == '\n')
  {
    if text == [] || text[0] == '\n' then 0
    else
      assert forall n :: 0 < n <= |text| ==> text[..n] == [text[0]] + text[1..][..n - 1];
      1 + LineEnd(text[1..])
  }

  /** What the line scanner yields; a text that ends without a line end still yields its rest. */
  function Scan(text: seq<char>): seq<Line>
    decreases |text|
  {
    if text == [] then []
    else
      var n := LineEnd(text);
      [Scanned(text[..n])] + Scan(text[if n < |text| then n + 1 else n..])
  }

  lemma FirstLineEnd(line: Line, rest: seq<char>)
    ensures LineEnd(line + ['\n'] + rest) == |line|
  {
    var text := line + ['\n'] + rest;
    var n := LineEnd(text);
    assert text[|line|] == '\n';
    assert forall k :: 0 <= k < |line| ==> text[k] == line[k] && line[k] != '\n';
    assert forall k :: 0 <= k < n ==> text[k] == text[..n][k];
  }

  lemma ScanFirst(line: Line, rest: seq<char>)
    ensures Scan(line + ['\n'] + rest) == [Scanned(line)] + Scan(rest)
  {
    var text := line + ['\n'] + rest;
    FirstLineEnd(line, rest);
    assert text[..|line|] == line && text[|line| + 1..] == rest;
  }

  lemma {:induction false} ScanAppend(lines: seq<Line>, rest: seq<char>)
    ensures Scan(Text(lines) + rest) == ScannedAll(lines) + Scan(rest)
    decreases |lines|
  {
    hide Scan, Scanned;
    if lines == [] {
      assert Text(lines) + rest == rest;
      assert ScannedAll(lines) == [];
    } else {
      var shorter, last := lines[..|lines| - 1], lines[|lines| - 1];
      ScanAppend(shorter, last + ['\n'] + rest);
      assert Text(lines) + rest == Text(shorter) + (last + ['\n'] + rest);
      ScanFirst(last, rest);
      assert ScannedAll(lines) == ScannedAll(shorter) + [Scanned(last)];
    }
  }

  /** A file of whole lines is read back line by line, less carriage returns at line ends. */
  lemma ScanText(lines: seq<Line>)
    ensures Scan(Text(lines)) == ScannedAll(lines)
  {
    ScanAppend(lines, []);
    assert Text(lines) + [] == Text(lines);
  }

  // ------------------------------------------------------------------
  // The history a set of numbered files holds
  // ------------------------------------------------------------------

  type Segments = map<nat, seq<Line>>

  function Segment(segments: Segments, n: nat): seq<Line> {
    if n in segments then segments[n] else []
  }

  /** From file `top` down to the current file, which has number 0. */
  function History(segments: Segments, top: nat): seq<Line> {
    if top == 0 then Segment(segments, 0) else Segment(segments, top) + History(segments, top - 1)
  }

  lemma {:induction false} HistoryIgnores(segments: Segments, other: Segments, top: nat)
    requires forall n: nat :: n <= top ==> Segment(segments, n) == Segment(other, n)
    ensures History(segments, top) == History(other, top)
  {
    if top > 0 {
      HistoryIgnores(segments, other, top - 1);
    }
  }

  /** Renaming a file to the free number above it keeps the history. */
  lemma {:induction false} RenameKeeps(segments: Segments, n: nat, top: nat)
    requires 1 <= n <= top && n - 1 in segments && n !in segments
    ensures History(Renamed(segments, n - 1), top) == History(segments, top)
  {
    var renamed := Renamed(segments, n - 1);
    if n < top {
      RenameKeeps(segments, n, top - 1);
    } else if n > 1 {
      HistoryIgnores(renamed, segments, n - 2);
      assert History(segments, n) == [] + (segments[n - 1] + History(segments, n - 2));
      assert History(renamed, n) == segments[n - 1] + ([] + History(segments, n - 2));
    }
  }

  /** Losing the highest file loses the beginning of the history. */
  lemma TopGoes(segments: Segments, top: nat)
    ensures History(segments, top) == Segment(segments, top) + History(segments - {top}, top)
  {
    if top > 0 {
      HistoryIgnores(segments, segments - {top}, top - 1);
      assert [] + History(segments, top - 1) == History(segments, top - 1);
    } else {
      assert Segment(segments, 0) + [] == Segment(segments, 0);
    }
  }

  lemma {:induction false} AppendGrows(segments: Segments, line: Line, top: nat)
    ensures History(segments[0 := Segment(segments, 0) + [line]], top) == History(segments, top) + [line]
  {
    if top > 0 {
      AppendGrows(segments, line, top - 1);
    }
  }

  predicate Suffix(h: seq<Line>, all: seq<Line>) {
    |h| <= |all| && all[|all| - |h|..] == h
  }

  lemma SuffixDrops(h: seq<Line>, dropped: seq<Line>, all: seq<Line>)
    requires Suffix(dropped + h, all)
    ensures Suffix(h, all)
  {
    assert all[|all| - |h|..] == all[|all| - |dropped + h|..][|dropped|..];
  }

  function Renamed<T>(m: map<nat, T>, from: nat): map<nat, T>
    requires from in m
  {
    (m - {from})[from + 1 := m[from]]
  }

  /** The files hold whole lines, are numbered up to the limit, and exceed the size only with a single line. */
  ghost predicate Fits(files: map<nat, seq<char>>, segments: Segments, maxBytes: nat, backups: nat) {
    && files.Keys == segments.Keys
    && (forall n :: n in files ==> n <= backups && files[n] == Text(segments[n]) && segments[n] != [])
    && (forall n :: n in files ==> |files[n]| <= maxBytes || |segments[n]| == 1)
  }

  lemma RenameFits(files: map<nat, seq<char>>, segments: Segments, maxBytes: nat, backups: nat, from: nat)
    requires Fits(files, segments, maxBytes, backups) && from in files && from < backups
    ensures Fits(Renamed(files, from), Renamed(segments, from), maxBytes, backups)
  {
  }

  /** What a rename does to the history: only the highest file can be overwritten. */
  lemma RenameDrops(segments: Segments, from: nat, top: nat)
    requires from in segments && from < top && (from + 1 in segments ==> from + 1 == top)
    ensures Loses(History(segments, top), History(Renamed(segments, from), top), Segment(segments, top))
    ensures from + 1 < top ==> History(Renamed(segments, from), top) == History(segments, top)
  {
    hide History;
    var rest := segments - {from + 1};
    assert Renamed(segments, from) == Renamed(rest, from);
    RenameKeeps(rest, from + 1, top);
    if from + 1 in segments {
      TopGoes(segments, top);
    } else {
      assert rest == segments;
    }
  }

  /** The history `kept` is `was`, or `was` without the lines of its oldest file. */
  predicate Loses(was: seq<Line>, kept: seq<Line>, oldest: seq<Line>) {
    kept == was || was == oldest + kept
  }

  lemma LosesNothing(was: seq<Line>, oldest: seq<Line>)
    ensures Loses(was, was, oldest)
  {
  }

  lemma LosesThenGrows(was: seq<Line>, kept: seq<Line>, oldest: seq<Line>, line: Line)
    requires Loses(was, kept, oldest)
    ensures Loses(was + [line], kept + [line], oldest)
  {
    assert (oldest + kept) + [line] == oldest + (kept + [line]);
  }

  lemma SuffixLoses(was: seq<Line>, kept: seq<Line>, oldest: seq<Line>, all: seq<Line>)
    requires Loses(was, kept, oldest) && Suffix(was, all)
    ensures Suffix(kept, all)
  {
    if was != kept {
      SuffixDrops(kept, oldest, all);
    }
  }

  lemma {:induction false} EmptyHistory(top: nat)
    ensures History(map[], top) == []
  {
    if top > 0 {
      EmptyHistory(top - 1);
    }
  }

  lemma EmptyLog(maxBytes: nat, backups: nat)
    ensures Fits(map[], map[], maxBytes, backups) && Suffix(History(map[], backups), [])
  {
    EmptyHistory(backups);
  }

  type Files = map<nat, seq<char>>

  /**
   What a rotation leaves under a number: the file from one number below, and at the top the old one if there
   was none.
   */
  function ShiftedTo(files: Files, backups: nat, k: nat): Option<seq<char>> {
    if k > backups then Lookup(files, k)
    else if k == 0 then None
    else if k - 1 in files then Some(files[k - 1])
    else if k == backups then Lookup(files, k)
    else None
  }

  /** The current file is not empty and would grow beyond the limit. */
  predicate Rotates(files: Files, line: Line, maxBytes: nat) {
    0 in files && files[0] != [] && |files[0]| + |line| + 1 > maxBytes
  }

  ghost predicate Shifted(files: Files, files': Files, backups: nat) {
    forall k: nat :: Lookup(files', k) == ShiftedTo(files, backups, k)
  }

  /** The files above `index` have been shifted, and the one there has been moved away. */
  ghost predicate ShiftedAbove(files: Files, files': Files, backups: nat, index: nat) {
    forall k: nat :: Lookup(files', k) ==
      if k > index || k > backups then ShiftedTo(files, backups, k)
      else if k == index < backups then None
      else Lookup(files, k)
  }

  /** A file takes the next number if it is there. */
  function MovedUp(files: Files, from: nat): Files {
    if from in files then Renamed(files, from) else files
  }

  lemma ShiftsOn(files: Files, files': Files, backups: nat, index: nat)
    requires 0 < index <= backups && ShiftedAbove(files, files', backups, index)
    ensures ShiftedAbove(files, MovedUp(files', index - 1), backups, index - 1)
  {
    var moved := MovedUp(files', index - 1);
    var from: nat := index - 1;
    assert Lookup(files', from) == Lookup(files, from);
    forall k: nat ensures Lookup(moved, k) == if k == index - 1 then None
      else if k == index && index - 1 in files' then Some(files'[index - 1]) else Lookup(files', k)
    {
    }
  }

  lemma NotShifted(files: Files, backups: nat)
    ensures ShiftedAbove(files, files, backups, backups)
  {
  }

  lemma ShiftsAll(files: Files, files': Files, backups: nat)
    requires backups > 0 && ShiftedAbove(files, files', backups, 0)
    ensures Shifted(files, files', backups)
  {
  }

  class Log {
    const maxBytes: nat
    const backups: nat
    // file 0 is the current one
    var files: map<nat, seq<char>>
    ghost var segments: Segments
    ghost var written: seq<Line>

    constructor (maxBytes: nat, backups: nat)
      ensures Valid() && files == map[] && written == []
      ensures this.maxBytes == maxBytes && this.backups == backups
    {
      this.maxBytes, this.backups := maxBytes, backups;
      files, segments, written := map[], map[], [];
      new;
      EmptyLog(maxBytes, backups);
      hide Fits, History, Suffix;
    }

    ghost predicate Valid()
      reads this
    {
      Fits(files, segments, maxBytes, backups) && Suffix(History(segments, backups), written)
    }

    ghost function Kept(): seq<Line>
      reads this
    {
      History(segments, backups)
    }

    ghost function Oldest(): seq<Line>
      reads this
    {
      Segment(segments, backups)
    }

    /** Renames a file to the next number; a file that is not there is passed over. */
    method Rename(from: nat, env: Environment) returns (outcome: Outcome)
      requires Valid() && from < backups && (from + 1 in files ==> from + 1 == backups)
      modifies this`files, this`segments, env
      ensures Valid()
      ensures outcome == Done ==> from !in files
      ensures Loses(old(Kept()), Kept(), old(Oldest())) && (from + 1 < backups ==> Kept() == old(Kept()))
      ensures forall n: nat :: n != from && n != from + 1 ==> (n in files <==> n in old(files))
      ensures outcome != Done ==> files == old(files) && segments == old(segments)
      ensures outcome == Done ==> files == MovedUp(old(files), from)
      ensures outcome != Refused && env.trouble == old(env.trouble) - (if outcome == Done then 0 else 1)
    {
      outcome := env.Step();
      if outcome != Done || from !in files {
        return;
      }
      RenameFits(files, segments, maxBytes, backups, from);
      assert from in segments && (from + 1 in segments <==> from + 1 in files);
      hide Fits, History, Suffix, Loses;
      RenameDrops(segments, from, backups);
      SuffixLoses(Kept(), History(Renamed(segments, from), backups), Oldest(), written);
      files, segments := Renamed(files, from), Renamed(segments, from);
    }

    /** Shifts the backups up by one and the current file to number 1, or drops it where no backups are kept. */
    method Rotate(env: Environment) returns (outcome: Outcome)
      requires Valid()
      modifies this`files, this`segments, env
      ensures Valid()
      ensures outcome == Done ==> 0 !in files && Shifted(old(files), files, backups)
      ensures Loses(old(Kept()), Kept(), old(Oldest()))
      ensures outcome != Refused && env.trouble == old(env.trouble) - (if outcome == Done then 0 else 1)
    {
      if backups == 0 {
        outcome := env.Step();
        if outcome == Done {
          assert Kept() == Segment(segments, 0) + [];
          SuffixDrops([], Kept(), written);
          files, segments := files - {0}, segments - {0};
          assert forall k: nat :: Lookup(files, k) == if k == 0 then None else Lookup(old(files), k);
        }
        return;
      }
      hide Fits, History, Suffix, Segment, ShiftedAbove, Shifted, ShiftedTo, Renamed;
      ghost var was, top, before := Kept(), Oldest(), files;
      NotShifted(before, backups);
      var index := backups;
      while index > 1
        invariant 1 <= index <= backups && Valid() && env.trouble == old(env.trouble)
        invariant index < backups ==> index !in files
        invariant index == backups ==> segments == old(segments)
        invariant Loses(was, Kept(), top)
        invariant ShiftedAbove(before, files, backups, index)
      {
        ShiftsOn(before, files, backups, index);
        outcome := Rename(index - 1, env);
        if outcome != Done {
          return;
        }
        index := index - 1;
      }
      ShiftsOn(before, files, backups, 1);
      outcome := Rename(0, env);
      if outcome == Done {
        ShiftsAll(before, files, backups);
      }
    }

    method Append(line: Line, env: Environment) returns (outcome: Outcome)
      requires Valid() && (0 in files ==> |files[0]| + |line| + 1 <= maxBytes)
      modifies this, env
      ensures Valid()
      ensures written == if outcome == Done then old(written) + [line] else old(written)
      ensures Kept() == if outcome == Done then old(Kept()) + [line] else old(Kept())
      ensures files == if outcome == Done
              then old(files)[0 := (if 0 in old(files) then old(files)[0] else []) + (line + ['\n'])] else old(files)
      ensures outcome != Refused && env.trouble == old(env.trouble) - (if outcome == Done then 0 else 1)
    {
      hide Fits, History, Suffix;
      outcome := env.Step();
      if outcome != Done {
        return;
      }
      AppendFits(files, segments, maxBytes, backups, line);
      AppendGrows(segments, line, backups);
      SuffixGrows(Kept(), written, line);
      files := files[0 := (if 0 in files then files[0] else []) + (line + ['\n'])];
      segments := segments[0 := Segment(segments, 0) + [line]];
      written := written + [line];
    }

    /** Appends a line, after rotating if the current file is not empty and would grow beyond the limit. */
    method Write(line: Line, env: Environment) returns (outcome: Outcome)
      requires Valid()
      modifies this, env
      ensures Valid()
      ensures written == if outcome == Done then old(written) + [line] else old(written)
      ensures Loses(old(Kept()) + (if outcome == Done then [line] else []), Kept(), old(Oldest()))
      ensures outcome == Done && !Rotates(old(files), line, maxBytes) ==>
                && Kept() == old(Kept()) + [line]
                && files == old(files)[0 := (if 0 in old(files) then old(files)[0] else []) + (line + ['\n'])]
      ensures outcome == Done && Rotates(old(files), line, maxBytes) ==>
                forall k: nat :: Lookup(files, k) ==
                  if k == 0 then Some(line + ['\n']) else ShiftedTo(old(files), backups, k)
      ensures outcome != Refused && env.trouble == old(env.trouble) - (if outcome == Done then 0 else 1)
    {
      FilesNotEmpty(files, segments, maxBytes, backups);
      hide Fits, History, Suffix, Segment, Loses, ShiftedTo;
      ghost var was, top := Kept(), Oldest();
      assert was + [] == was;
      LosesNothing(was, top);
      if 0 in files && |files[0]| > 0 && |files[0]| + |line| + 1 > maxBytes {
        outcome := Rotate(env);
        if outcome != Done {
          return;
        }
      }
      LosesThenGrows(was, Kept(), top, line);
      assert [] + (line + ['\n']) == line + ['\n'];
      outcome := Append(line, env);
    }
  }

  lemma SuffixGrows(h: seq<Line>, all: seq<Line>, line: Line)
    requires Suffix(h, all)
    ensures Suffix(h + [line], all + [line])
  {
    var k := |all| - |h|;
    assert (all + [line])[k..] == all[k..] + [line];
  }

  lemma AppendFits(files: map<nat, seq<char>>, segments: Segments, maxBytes: nat, backups: nat, line: Line)
    requires Fits(files, segments, maxBytes, backups)
    requires 0 in files ==> |files[0]| + |line| + 1 <= maxBytes
    ensures Fits(files[0 := (if 0 in files then files[0] else []) + (line + ['\n'])],
            segments[0 := Segment(segments, 0) + [line]], maxBytes, backups)
  {
    var lines := Segment(segments, 0) + [line];
    assert lines[..|lines| - 1] == Segment(segments, 0);
    assert Text(lines) == Text(Segment(segments, 0)) + (line + ['\n']);
  }

  /** A file that is there is not empty. */
  lemma FilesNotEmpty(files: map<nat, seq<char>>, segments: Segments, maxBytes: nat, backups: nat)
    requires Fits(files, segments, maxBytes, backups)
    ensures forall n :: n in files ==> |files[n]| > 0
  {
  }

  // ------------------------------------------------------------------
  // Reading back
  // ------------------------------------------------------------------

  /** The last `count` lines, or all if there are fewer. */
  function Last(lines: seq<Line>, count: nat): seq<Line> {
    if |lines| <= count then lines else lines[|lines| - count..]
  }

  lemma LastMeaning(lines: seq<Line>, count: nat)
    ensures |Last(lines, count)| == if |lines| < count then |lines| else count
    ensures forall i :: 0 <= i < |Last(lines, count)| ==>
              Last(lines, count)[i] == lines[|lines| - |Last(lines, count)| + i]
  {
  }

  lemma LastGrows(lines: seq<Line>, count: nat, line: Line)
    requires |lines| >= count > 0
    ensures Last(lines + [line], count) == Last(lines, count)[1..] + [line]
  {
  }

  /** The slots of a ring from its oldest one on. */
  function Unrolled(slots: seq<Line>, next: nat): seq<Line>
    requires next <= |slots|
  {
    slots[next..] + slots[..next]
  }

  lemma Wraps(next: nat, length: nat)
    requires next < length
    ensures (next + 1) % length == if next + 1 == length then 0 else next + 1
  {
  }

  /** Overwriting the oldest slot of a full ring. */
  lemma Overwrites(slots: seq<Line>, next: nat, value: Line)
    requires next < |slots|
    ensures var after := slots[next := value];
            Unrolled(after, if next + 1 == |slots| then 0 else next + 1) == Unrolled(slots, next)[1..] + [value]
  {
    var after := slots[next := value];
    assert after[..next + 1] == slots[..next] + [value];
    assert slots[next..] == [slots[next]] + slots[next + 1..];
    assert Unrolled(slots, next) == [slots[next]] + (slots[next + 1..] + slots[..next]);
    if next + 1 == |slots| {
      assert after == after[..next + 1];
      assert Unrolled(after, 0) == after;
      assert slots[next + 1..] + slots[..next] == slots[..next];
    } else {
      assert after[next + 1..] == slots[next + 1..];
      assert Unrolled(after, next + 1) == slots[next + 1..] + (slots[..next] + [value]);
    }
  }

  lemma LastOfNone()
    ensures forall all: seq<Line> :: Last(all, 0) == []
  {
  }

  class Ring {
    const queue: array<Line>
    var length: nat
    var next: nat
    // everything appended so far
    ghost var seen: seq<Line>

    ghost predicate Valid()
      reads this, queue
    {
      && length <= queue.Length
      && (if length < queue.Length || queue.Length == 0 then next == 0 else next < queue.Length)
      && next <= length && Unrolled(queue[..length], next) == Last(seen, queue.Length)
      && (length < queue.Length ==> |seen| == length)
      && (length == queue.Length ==> |seen| >= length)
    }

    constructor (lines: nat)
      ensures Valid() && fresh(queue) && queue.Length == lines && seen == []
    {
      queue := new Line[lines](_ => []);
      length, next, seen := 0, 0, [];
    }

    method AppendLine(value: Line)
      requires Valid()
      modifies this, queue
      ensures Valid() && seen == old(seen) + [value]
    {
      ghost var slots, before := queue[..length], seen;
      seen := seen + [value];
      if queue.Length == 0 {
        return;
      }
      if length == queue.Length {
        LastGrows(before, queue.Length, value);
        Overwrites(slots, next, value);
        Wraps(next, queue.Length);
        hide Unrolled, Last;
        queue[next] := value;
        assert queue[..length] == slots[next := value];
        next := (next + 1) % queue.Length;
        return;
      }
      queue[length] := value;
      length := length + 1;
      assert queue[..length] == slots + [value];
      assert Unrolled(slots, 0) == slots && Unrolled(slots + [value], 0) == slots + [value];
    }

    method Ordered() returns (values: seq<Line>)
      requires Valid()
      ensures values == Last(seen, queue.Length)
      ensures |values| == (if |seen| < queue.Length then |seen| else queue.Length) && Suffix(values, seen)
    {
      LastMeaning(seen, queue.Length);
      if next == 0 {
        assert Unrolled(queue[..length], 0) == queue[..length];
        return queue[..length];
      }
      assert queue[..length][..next] == queue[..next];
      return queue[next..length] + queue[..next];
    }
  }

  predicate Descending(paths: seq<nat>) {
    forall i, j :: 0 <= i < j < |paths| ==> paths[i] > paths[j]
  }

  /** All numbers among the keys from 1 to `top`, highest first. */
  predicate Enumerates(paths: seq<nat>, keys: set<nat>, top: nat) {
    && Descending(paths)
    && (forall i :: 0 <= i < |paths| ==> paths[i] in keys && 0 < paths[i] <= top)
    && (forall n :: n in keys && 0 < n <= top ==> n in paths)
  }

  lemma PrependDescending(n: nat, rest: seq<nat>)
    requires Descending(rest) && forall j :: 0 <= j < |rest| ==> rest[j] < n
    ensures Descending([n] + rest)
  {
  }

  /** The highest number comes first, and the rest enumerates what is left. */
  lemma DropHighest(paths: seq<nat>, keys: set<nat>, top: nat)
    requires Enumerates(paths, keys, top) && 0 < top && top in keys
    ensures paths != [] && paths[0] == top && Enumerates(paths[1..], keys, top - 1)
  {
    assert top in paths;
    assert forall n :: n in paths <==> n == paths[0] || n in paths[1..];
    assert forall j :: 0 < j < |paths| ==> paths[j] < paths[0];
  }

  function Insert(paths: seq<nat>, n: nat): (r: seq<nat>)
    requires Descending(paths) && n !in paths
    ensures Descending(r) && (forall k :: k in r <==> k in paths || k == n)
  {
    if paths == [] then [n]
    else if n > paths[0] then [n] + paths
    else
      var rest := Insert(paths[1..], n);
      assert forall k :: k in paths <==> k == paths[0] || k in paths[1..];
      assert forall j :: 0 <= j < |rest| ==> rest[j] in rest;
      assert forall k :: k in rest ==> k < paths[0];
      assert Descending([paths[0]] + rest) by {
        PrependDescending(paths[0], rest);
      }
      [paths[0]] + rest
  }

  /** The numbers of the backups, highest first. */
  method RotationPaths(files: map<nat, seq<char>>) returns (paths: seq<nat>)
    ensures Descending(paths)
    ensures forall n :: n in paths <==> n in files && n > 0
  {
    paths := [];
    var entries := files.Keys;
    while entries != {}
      invariant entries <= files.Keys && Descending(paths)
      invariant forall n :: n in paths <==> n in files && n !in entries && n > 0
    {
      var n :| n in entries;
      if n > 0 {
        paths := Insert(paths, n);
      }
      entries := entries - {n};
    }
  }

  function Contents(files: map<nat, seq<char>>, n: nat): seq<Line> {
    if n in files then Scan(files[n]) else []
  }

  /** The lines of the given files, one file after the other. */
  function Scans(files: map<nat, seq<char>>, paths: seq<nat>): seq<Line> {
    if paths == [] then [] else Contents(files, paths[0]) + Scans(files, paths[1..])
  }

  lemma {:induction false} ScansAppend(files: map<nat, seq<char>>, paths: seq<nat>, n: nat)
    ensures Scans(files, paths + [n]) == Scans(files, paths) + Contents(files, n)
  {
    hide Contents;
    if paths == [] {
      assert [n][1..] == [];
    } else {
      ScansAppend(files, paths[1..], n);
      assert (paths + [n])[1..] == paths[1..] + [n];
    }
  }

  /** All lines in the files from number `top` down to the current one. */
  function Downwards(files: map<nat, seq<char>>, top: nat): seq<Line> {
    if top == 0 then Contents(files, 0) else Contents(files, top) + Downwards(files, top - 1)
  }

  /** Going through the backups from the highest number and then the current file is going down all numbers. */
  lemma {:induction false} PathsGoDown(files: map<nat, seq<char>>, paths: seq<nat>, top: nat)
    requires Enumerates(paths, files.Keys, top)
    ensures Scans(files, paths) + Contents(files, 0) == Downwards(files, top)
    decreases top
  {
    hide Scan, Descending;
    if top == 0 {
      assert paths == [];
      assert [] + Contents(files, 0) == Contents(files, 0);
    } else if top in files {
      DropHighest(paths, files.Keys, top);
      PathsGoDown(files, paths[1..], top - 1);
      hide Contents;
    } else {
      PathsGoDown(files, paths, top - 1);
      assert [] + Downwards(files, top - 1) == Downwards(files, top - 1);
    }
  }

  /** Read downwards, the files of a log are its history. */
  lemma {:induction false} DownwardsIsHistory(files: map<nat, seq<char>>, segments: Segments, maxBytes: nat,
      backups: nat, top: nat)
    requires Fits(files, segments, maxBytes, backups)
    ensures Downwards(files, top) == ScannedAll(History(segments, top))
  {
    hide ScannedAll, Fits, Contents, Segment;
    SegmentScanned(files, segments, maxBytes, backups, top);
    if top > 0 {
      DownwardsIsHistory(files, segments, maxBytes, backups, top - 1);
      ScannedConcat(Segment(segments, top), History(segments, top - 1));
    }
  }

  lemma SegmentScanned(files: map<nat, seq<char>>, segments: Segments, maxBytes: nat, backups: nat, n: nat)
    requires Fits(files, segments, maxBytes, backups)
    ensures Contents(files, n) == ScannedAll(Segment(segments, n))
  {
    if n in files {
      ScanText(segments[n]);
    }
  }

  lemma ScannedConcat(a: seq<Line>, b: seq<Line>)
    ensures ScannedAll(a + b) == ScannedAll(a) + ScannedAll(b)
  {
  }

  method AppendFile(ring: Ring, lines: seq<Line>)
    requires ring.Valid()
    modifies ring, ring.queue
    ensures ring.Valid() && ring.seen == old(ring.seen) + lines
  {
    hide Last, Unrolled;
    var index := 0;
    assert lines[..0] == [];
    while index < |lines|
      invariant 0 <= index <= |lines| && ring.Valid()
      invariant ring.seen == old(ring.seen) + lines[..index]
    {
      ring.AppendLine(lines[index]);
      assert lines[..index + 1] == lines[..index] + [lines[index]];
      index := index + 1;
    }
    assert lines[..index] == lines;
  }

  /** Reads the current file, after the backups if they are wanted, through a ring of `lines` lines. */
  method StreamHistory(files: map<nat, seq<char>>, rotated: bool, lines: nat, ghost top: nat)
      returns (values: seq<Line>)
    requires forall n :: n in files ==> n <= top
    ensures values == Last(Downwards(files, if rotated then top else 0), lines)
  {
    LastOfNone();
    hide Scan, Last, Unrolled, Downwards, Enumerates, Descending;
    var ring := new Ring(lines);
    if lines == 0 {
      values := ring.Ordered();
      return;
    }
    assert Downwards(files, 0) == Contents(files, 0) by { DownTo0(files); }
    if rotated {
      var paths := RotationPaths(files);
      AllEnumerated(files, paths, top);
      PathsGoDown(files, paths, top);
      var index := 0;
      assert paths[..0] == [];
      while index < |paths|
        invariant 0 <= index <= |paths| && ring.Valid() && fresh(ring) && fresh(ring.queue) &&
                  ring.queue.Length == lines
        invariant ring.seen == Scans(files, paths[..index])
      {
        AppendFile(ring, Contents(files, paths[index]));
        ScansAppend(files, paths[..index], paths[index]);
        assert paths[..index + 1] == paths[..index] + [paths[index]];
        index := index + 1;
      }
      assert paths[..index] == paths;
    }
    if 0 in files {
      AppendFile(ring, Contents(files, 0));
    }
    assert ring.seen == Downwards(files, if rotated then top else 0);
    values := ring.Ordered();
  }

  lemma AllEnumerated(files: map<nat, seq<char>>, paths: seq<nat>, top: nat)
    requires Descending(paths) && (forall n :: n in paths <==> n in files && n > 0) &&
             (forall n :: n in files ==> n <= top)
    ensures Enumerates(paths, files.Keys, top)
  {
    assert forall i :: 0 <= i < |paths| ==> paths[i] in paths;
  }

  lemma DownTo0(files: map<nat, seq<char>>)
    ensures Downwards(files, 0) == Contents(files, 0)
  {
  }

  /** What a reader gets from a log: the last lines of its history, and so the last lines ever written. */
  method Tail(log: Log, lines: nat) returns (values: seq<Line>)
    requires log.Valid()
    ensures values == Last(ScannedAll(log.Kept()), lines)
    ensures lines <= |log.Kept()| ==> values == Last(ScannedAll(log.written), lines)
  {
    LogFits(log);
    hide *;
    values := StreamHistory(log.files, true, lines, log.backups);
    if lines <= |log.Kept()| {
      LogSuffix(log, lines);
    }
  }

  lemma LogFits(log: Log)
    requires log.Valid()
    ensures forall n :: n in log.files ==> n <= log.backups
    ensures Downwards(log.files, log.backups) == ScannedAll(log.Kept())
  {
    DownwardsIsHistory(log.files, log.segments, log.maxBytes, log.backups, log.backups);
  }

  lemma LogSuffix(log: Log, lines: nat)
    requires log.Valid() && lines <= |log.Kept()|
    ensures Last(ScannedAll(log.Kept()), lines) == Last(ScannedAll(log.written), lines)
  {
    SameLast(log.Kept(), log.written, lines);
  }

  lemma SameLast(h: seq<Line>, all: seq<Line>, count: nat)
    requires Suffix(h, all) && count <= |h|
    ensures Last(ScannedAll(h), count) == Last(ScannedAll(all), count)
  {
    var k := |all| - |h|;
    forall i | 0 <= i < |h| ensures ScannedAll(all)[k + i] == ScannedAll(h)[i] {
      assert all[k..][i] == all[k + i];
    }
  }
}
