/**
 * The mutant session of src/mutant_mode.cpp: a pull timeout that adapts to the
 * results, and per-repository commit times that are kept in a text file across
 * restarts. Integers are unbounded; file writes succeed.
 */
module Mutant {
  import opened Basics
  import opened RepoScan

  // ---------------------------------------------------------------- the adaptive timeout

  /** mutant_record_result: the timeout after a result that took `duration` seconds. */
  function Adjust(timeout: int, status: Status, duration: int): int {
    if status == Timeout then timeout + 5
    else if (status == PullOk || status == PkgLockFixed) && duration > 0 then
      if duration >= timeout then timeout + 5
      else if duration * 2 < timeout && timeout > 10 then timeout - 5
      else timeout
    else timeout
  }

  function AdjustAll(timeout: int, results: seq<(Status, int)>): int {
    if results == [] then timeout
    else
      var n := |results| - 1;
      Adjust(AdjustAll(timeout, results[..n]), results[n].0, results[n].1)
  }

  /** Over any results the timeout keeps its remainder modulo 5 and never falls below min(start, 6). */
  lemma {:induction false} TimeoutStaysSane(start: int, results: seq<(Status, int)>)
    ensures (AdjustAll(start, results) - start) % 5 == 0
    ensures AdjustAll(start, results) >= if start < 6 then start else 6
  {
    if results != [] { TimeoutStaysSane(start, results[..|results| - 1]); }
  }

  /** Timeouts, and successful pulls that took any time, are the only results that count. */
  predicate Counts(r: (Status, int)) {
    r.0 == Timeout || (r.0 in {PullOk, PkgLockFixed} && r.1 > 0)
  }

  function Counted(results: seq<(Status, int)>): seq<(Status, int)> {
    if results == [] then []
    else
      var r := results[|results| - 1];
      Counted(results[..|results| - 1]) +
      if !Counts(r) then [] else if r.0 == PkgLockFixed then [(PullOk, r.1)] else [r]
  }

  lemma AdjustLast(start: int, results: seq<(Status, int)>, r: (Status, int))
    ensures AdjustAll(start, results + [r]) == Adjust(AdjustAll(start, results), r.0, r.1)
  {
    assert (results + [r])[..|results|] == results;
  }

  /** Dropping all other results, and reading a repaired package lock as a plain pull, changes nothing. */
  lemma {:induction false} OnlyTheseCount(start: int, results: seq<(Status, int)>)
    ensures AdjustAll(start, results) == AdjustAll(start, Counted(results))
  {
    if results != [] {
      var n := |results| - 1;
      var r := results[n];
      OnlyTheseCount(start, results[..n]);
      AdjustLast(start, Counted(results[..n]), if r.0 == PkgLockFixed then (PullOk, r.1) else r);
      assert Counted(results[..n]) + [] == Counted(results[..n]);
    }
  }

  /** Every timeout adds five seconds. */
  lemma {:induction false} TimeoutsAddUp(start: int, results: seq<(Status, int)>)
    requires forall i :: 0 <= i < |results| ==> results[i].0 == Timeout
    ensures AdjustAll(start, results) == start + 5 * |results|
  {
    if results != [] { TimeoutsAddUp(start, results[..|results| - 1]); }
  }

  /** n successful pulls of the same duration in a row. */
  function Successes(timeout: int, duration: int, n: nat): int {
    if n == 0 then timeout else Adjust(Successes(timeout, duration, n - 1), PullOk, duration)
  }

  function BandTop(duration: int): int { if 2 * duration > 10 then 2 * duration else 10 }

  predicate InBand(timeout: int, duration: int) { duration < timeout <= BandTop(duration) }

  /** How many steps of 5 lie between a timeout and the band. */
  function StepsToBand(timeout: int, duration: int): nat {
    if timeout <= duration then (duration - timeout) / 5 + 1
    else if timeout > BandTop(duration) then (timeout - BandTop(duration) - 1) / 5 + 1
    else 0
  }

  /**
   * Under repeated successes of constant duration the timeout walks in 5-second
   * steps straight into the band duration < T <= max(2 * duration, 10), does
   * not step over it, and then never changes.
   */
  lemma {:induction false} TimeoutConverges(start: int, duration: int, n: nat)
    requires duration >= 1
    ensures n < StepsToBand(start, duration) ==> !InBand(Successes(start, duration, n), duration)
    ensures n >= StepsToBand(start, duration) ==> InBand(Successes(start, duration, n), duration)
    ensures var m := Min(n, StepsToBand(start, duration));
            Successes(start, duration, n) == if start <= duration then start + 5 * m else start - 5 * m
  {
    if n > 0 { TimeoutConverges(start, duration, n - 1); }
  }

  // ---------------------------------------------------------------- the text file

  predicate Space(c: char) {
    c == ' ' || c == '\t' || c == '\n' || c == '\r' || c as int == 11 || c as int == 12
  }

  predicate Digit(c: char) { '0' <= c <= '9' }

  function DigitChar(d: nat): char
    requires d < 10
  {
    ('0' as int + d) as char
  }

  function ShowNat(n: nat): string {
    if n < 10 then [DigitChar(n)] else ShowNat(n / 10) + [DigitChar(n % 10)]
  }

  function ShowInt(i: int): string {
    if i < 0 then "-" + ShowNat(-i) else ShowNat(i)
  }

  function EntryLine(path: string, time: int): string {
    path + (" " + (ShowInt(time) + "\n"))
  }

  function EntryLines(entries: seq<(string, int)>): string {
    if entries == [] then "" else EntryLine(entries[0].0, entries[0].1) + EntryLines(entries[1..])
  }

  /** save_config: the two settings, then one line per repository. */
  function SaveText(interval: int, timeout: int, entries: seq<(string, int)>): string {
    ShowInt(interval) + (" " + (ShowInt(timeout) + ("\n" + EntryLines(entries))))
  }

  /** The look of the file. */
  lemma SavedSpelledOut(path: string)
    ensures SaveText(60, -5, [(path, 17)]) == "60 -5\n" + path + " 17\n"
  {
    assert ShowNat(6) == "6" && ShowNat(60) == "60" && ShowNat(5) == "5" && ShowNat(1) == "1" && ShowNat(17) == "17";
    var entries := [(path, 17)];
    assert entries[1..] == [];
    assert EntryLines(entries) == path + (" " + ("17" + "\n")) + "";
    assert "60" + (" " + ("-5" + ("\n" + (path + " 17\n")))) == "60 -5\n" + path + " 17\n";
  }

  function SkipSpace(s: string): (r: string)
    ensures |r| <= |s|
  {
    if s != "" && Space(s[0]) then SkipSpace(s[1..]) else s
  }

  /** A word and what follows it. */
  function TakeWord(s: string): (r: (string, string))
    ensures |r.1| <= |s| && |r.0| <= |s|
  {
    if s == "" || Space(s[0]) then ("", s)
    else
      var (word, rest) := TakeWord(s[1..]);
      ([s[0]] + word, rest)
  }

  function TakeDigits(acc: nat, s: string): (r: (nat, string))
    ensures |r.1| <= |s|
    decreases |s|
  {
    if s != "" && Digit(s[0]) then TakeDigits(acc * 10 + (s[0] as int - '0' as int), s[1..]) else (acc, s)
  }

  datatype Read<T> = Failed | Got(value: T, rest: string)

  /** `stream >> integer`. */
  function ReadInt(s: string): Read<int> {
    var t := SkipSpace(s);
    var negative := t != "" && t[0] == '-';
    var body := if t != "" && t[0] in "+-" then t[1..] else t;
    if body == "" || !Digit(body[0]) then Failed
    else
      var (n, rest) := TakeDigits(0, body);
      Got(if negative then 0 - n else n, rest)
  }

  /** `stream >> string`. */
  function ReadWord(s: string): Read<string> {
    var (word, rest) := TakeWord(SkipSpace(s));
    if word == "" then Failed else Got(word, rest)
  }

  /** std::getline: up to the newline, which is consumed. */
  function TakeLine(s: string): (r: (string, string))
    ensures |r.1| <= |s| && (s != "" ==> |r.1| < |s|)
  {
    if s == "" then ("", "")
    else if s[0] == '\n' then ("", s[1..])
    else
      var (line, rest) := TakeLine(s[1..]);
      ([s[0]] + line, rest)
  }

  function LoadLine(line: string, times: map<string, int>): map<string, int> {
    var p := ReadWord(line);
    if p.Failed? then times
    else
      var t := ReadInt(p.rest);
      if t.Failed? then times else times[p.value := t.value]
  }

  function LoadLines(text: string, times: map<string, int>): map<string, int>
    decreases |text|
  {
    if text == "" then times
    else
      var (line, rest) := TakeLine(text);
      LoadLines(rest, LoadLine(line, times))
  }

  datatype Settings = Settings(interval: int, timeout: int, skipTimeout: bool)

  datatype Loaded = Loaded(settings: Settings, times: map<string, int>)

  /** load_config on an existing file; a first line that cannot be read leaves the stream failed. */
  function Load(text: string, settings: Settings, times: map<string, int>): Loaded {
    var i := ReadInt(text);
    var t := if i.Failed? then Failed else ReadInt(i.rest);
    var s1 := if i.Got? && i.value > 0 then settings.(interval := i.value) else settings;
    var s2 := if t.Got? && t.value > 0 then s1.(timeout := t.value, skipTimeout := false) else s1;
    Loaded(s2, if t.Failed? then times else LoadLines(TakeLine(t.rest).1, times))
  }

  // ---------------------------------------------------------------- round trip

  /** What a path must look like to survive the file. */
  predicate Word(path: string) {
    path != "" && forall i :: 0 <= i < |path| ==> !Space(path[i])
  }

  lemma {:induction false} ShowNatReads(n: nat, rest: string)
    ensures TakeDigits(0, ShowNat(n) + rest) == TakeDigits(n, rest)
    ensures ShowNat(n) != "" && forall i :: 0 <= i < |ShowNat(n)| ==> Digit(ShowNat(n)[i])
  {
    if n < 10 {
      assert ([DigitChar(n)] + rest)[1..] == rest;
    } else {
      var last := [DigitChar(n % 10)];
      ShowNatReads(n / 10, last + rest);
      assert ShowNat(n) + rest == ShowNat(n / 10) + (last + rest);
      assert (last + rest)[1..] == rest;
      assert n / 10 * 10 + n % 10 == n;
    }
  }

  lemma ReadShownInt(i: int, rest: string)
    requires rest == "" || !Digit(rest[0])
    ensures ReadInt(ShowInt(i) + rest) == Got(i, rest)
    ensures ReadInt(" " + (ShowInt(i) + rest)) == Got(i, rest)
    ensures !Space(ShowInt(i)[0])
  {
    ShownIntReads(i, rest);
    var text := ShowInt(i) + rest;
    assert text[0] == ShowInt(i)[0];
    assert (" " + text)[1..] == text;
    assert SkipSpace(" " + text) == SkipSpace(text);
  }

  lemma ShownIntReads(i: int, rest: string)
    requires rest == "" || !Digit(rest[0])
    ensures ReadInt(ShowInt(i) + rest) == Got(i, rest) && !Space(ShowInt(i)[0])
  {
    var n := if i < 0 then -i else i;
    ShowNatReads(n, rest);
    if i < 0 {
      assert ShowInt(i) + rest == "-" + (ShowNat(n) + rest);
      SignIsRead(n, ShowNat(n) + rest, rest);
    } else {
      var text := ShowNat(n) + rest;
      assert text[0] == ShowNat(n)[0];
      assert SkipSpace(text) == text;
    }
  }

  lemma SignIsRead(n: int, digits: string, rest: string)
    requires digits != "" && Digit(digits[0]) && TakeDigits(0, digits) == (n, rest)
    ensures ReadInt("-" + digits) == Got(0 - n, rest)
  {
    var text := "-" + digits;
    assert text[1..] == digits && SkipSpace(text) == text;
  }

  lemma {:induction false} WordIsTaken(path: string, rest: string)
    requires Word(path) && rest != "" && Space(rest[0])
    ensures TakeWord(path + rest) == (path, rest)
  {
    var text := path + rest;
    assert text[1..] == path[1..] + rest;
    if |path| == 1 {
      assert path[1..] + rest == rest;
      assert [path[0]] + "" == path;
    } else {
      WordIsTaken(path[1..], rest);
      assert [path[0]] + path[1..] == path;
    }
  }

  lemma {:induction false} LineIsTaken(line: string, rest: string)
    requires '\n' !in line
    ensures TakeLine(line + ("\n" + rest)) == (line, rest)
  {
    var text := line + ("\n" + rest);
    if line == "" {
      assert text == "\n" + rest && text[1..] == rest;
    } else {
      assert text[1..] == line[1..] + ("\n" + rest);
      LineIsTaken(line[1..], rest);
      assert [line[0]] + line[1..] == line;
    }
  }

  lemma ShownIntHasNoNewline(i: int)
    ensures '\n' !in ShowInt(i)
  {
    ShowNatReads(if i < 0 then -i else i, "");
  }

  lemma LoadSavedLine(path: string, time: int, times: map<string, int>)
    requires Word(path)
    ensures LoadLine(path + (" " + ShowInt(time)), times) == times[path := time]
  {
    var rest := " " + ShowInt(time);
    WordIsTaken(path, rest);
    assert SkipSpace(path + rest) == path + rest by { assert (path + rest)[0] == path[0]; }
    ReadShownInt(time, "");
    assert ShowInt(time) + "" == ShowInt(time);
  }

  function PutAll(entries: seq<(string, int)>, times: map<string, int>): map<string, int> {
    if entries == [] then times else PutAll(entries[1..], times[entries[0].0 := entries[0].1])
  }

  lemma {:induction false} LoadSavedLines(entries: seq<(string, int)>, times: map<string, int>)
    requires forall i :: 0 <= i < |entries| ==> Word(entries[i].0)
    ensures LoadLines(EntryLines(entries), times) == PutAll(entries, times)
    decreases |entries|
  {
    if entries != [] {
      var (path, time) := entries[0];
      assert Word(path);
      var line, rest := path + (" " + ShowInt(time)), EntryLines(entries[1..]);
      assert EntryLines(entries) == line + ("\n" + rest);
      ShownIntHasNoNewline(time);
      LineIsTaken(line, rest);
      LoadSavedLine(path, time, times);
      LoadSavedLines(entries[1..], times[path := time]);
    }
  }

  predicate HasKey(entries: seq<(string, int)>, p: string) {
    exists i :: 0 <= i < |entries| && entries[i].0 == p
  }

  /** The entries list the map, in some order. */
  ghost predicate Lists(entries: seq<(string, int)>, times: map<string, int>) {
    && (forall i :: 0 <= i < |entries| ==> entries[i].0 in times && times[entries[i].0] == entries[i].1)
    && (forall p :: p in times ==> HasKey(entries, p))
  }

  lemma {:induction false} PutAllIs(entries: seq<(string, int)>, start: map<string, int>, times: map<string, int>)
    requires forall i :: 0 <= i < |entries| ==> entries[i].0 in times && times[entries[i].0] == entries[i].1
    ensures forall p :: p in PutAll(entries, start) <==> p in start || HasKey(entries, p)
    ensures forall p :: p in PutAll(entries, start) ==>
              PutAll(entries, start)[p] == if HasKey(entries, p) then times[p] else start[p]
    decreases |entries|
  {
    if entries != [] {
      var rest, next := entries[1..], start[entries[0].0 := entries[0].1];
      PutAllIs(rest, next, times);
      forall p ensures HasKey(entries, p) <==> p == entries[0].0 || HasKey(rest, p) {
        if i :| 0 <= i < |entries| && entries[i].0 == p {
          if i > 0 { assert rest[i - 1].0 == p; }
        }
        if i :| 0 <= i < |rest| && rest[i].0 == p {
          assert entries[i + 1].0 == p;
        }
      }
    }
  }

  lemma LoadSaved(interval: int, timeout: int, entries: seq<(string, int)>, settings: Settings, start: map<string, int>)
    ensures Load(SaveText(interval, timeout, entries), settings, start) ==
            Loaded(Settings(if interval > 0 then interval else settings.interval,
                            if timeout > 0 then timeout else settings.timeout,
                            settings.skipTimeout && timeout <= 0),
                   LoadLines(EntryLines(entries), start))
  {
    var lines := EntryLines(entries);
    var second := " " + (ShowInt(timeout) + ("\n" + lines));
    ReadShownInt(interval, second);
    ReadShownInt(timeout, "\n" + lines);
    assert ("\n" + lines)[1..] == lines;
  }

  /** A file that does not begin with a number gives nothing, however good its other lines are. */
  lemma BadStartLoadsNothing(text: string, settings: Settings, times: map<string, int>)
    requires text != "" && !Space(text[0]) && !Digit(text[0]) && text[0] != '-' && text[0] != '+'
    ensures Load(text, settings, times) == Loaded(settings, times)
  {
    assert SkipSpace(text) == text;
  }

  /**
   * A saved session loads back: both settings when they are positive, and the
   * commit times exactly when every path is a non-empty word without spaces.
   */
  lemma SaveLoad(interval: int, timeout: int, entries: seq<(string, int)>, times: map<string, int>, settings: Settings)
    requires interval > 0 && timeout > 0 && Lists(entries, times)
    ensures var r := Load(SaveText(interval, timeout, entries), settings, map[]);
            && r.settings == Settings(interval, timeout, false)
            && (r.times == times <==> forall p :: p in times ==> Word(p))
  {
    LoadSaved(interval, timeout, entries, settings, map[]);
    TimesSurvive(entries, times);
  }

  lemma TimesSurvive(entries: seq<(string, int)>, times: map<string, int>)
    requires Lists(entries, times)
    ensures LoadLines(EntryLines(entries), map[]) == times <==> forall p :: p in times ==> Word(p)
  {
    if forall p :: p in times ==> Word(p) {
      LoadSavedLines(entries, map[]);
      PutAllIs(entries, map[], times);
      assert PutAll(entries, map[]) == times;
    } else {
      OnlyWordsLoad(EntryLines(entries), map[]);
    }
  }

  lemma {:induction false} TakenWordIsWord(s: string)
    ensures TakeWord(s).0 != "" ==> Word(TakeWord(s).0)
  {
    if s != "" && !Space(s[0]) { TakenWordIsWord(s[1..]); }
  }

  lemma {:induction false} OnlyWordsLoad(text: string, times: map<string, int>)
    requires forall p :: p in times ==> Word(p)
    ensures forall p :: p in LoadLines(text, times) ==> Word(p)
    decreases |text|
  {
    if text != "" {
      var (line, rest) := TakeLine(text);
      TakenWordIsWord(SkipSpace(line));
      OnlyWordsLoad(rest, LoadLine(line, times));
    }
  }

  /** No other path comes back: whatever was saved, a load does not know it. */
  lemma OtherPathsAreForgotten(path: string, text: string, settings: Settings)
    requires !Word(path)
    ensures path !in Load(text, settings, map[]).times
  {
    var i := ReadInt(text);
    var t := if i.Failed? then Failed else ReadInt(i.rest);
    if t.Got? {
      OnlyWordsLoad(TakeLine(t.rest).1, map[]);
    }
  }

  /** The text is what save_config writes for this table, in some order. */
  ghost predicate IsSaved(text: string, times: map<string, int>) {
    exists interval, timeout, entries :: SavedAs(text, times, interval, timeout, entries)
  }

  ghost predicate SavedAs(text: string, times: map<string, int>, interval: int, timeout: int, entries: seq<(string, int)>) {
    Lists(entries, times) && text == SaveText(interval, timeout, entries)
  }

  /** A load of a saved table gives it back exactly when it lists words only. */
  lemma SavedTimesReturn(text: string, times: map<string, int>, settings: Settings)
    requires IsSaved(text, times)
    ensures Load(text, settings, map[]).times == times <==> forall p :: p in times ==> Word(p)
  {
    var interval, timeout, entries :| SavedAs(text, times, interval, timeout, entries);
    LoadSaved(interval, timeout, entries, settings, map[]);
    TimesSurvive(entries, times);
  }

  // ---------------------------------------------------------------- the session

  /** The commit time a repository is judged by. */
  function CommitTimeOf(remoteTime: int, localTime: int): int {
    if remoteTime != 0 then remoteTime else localTime
  }

  predicate Approves(times: map<string, int>, repo: string, ct: int, now: int, updatedSince: int) {
    && !(updatedSince > 0 && (ct == 0 || now - ct > updatedSince))
    && !(repo in times && times[repo] == ct)
  }

  /** What a session remembers: in memory and on disk. */
  datatype Memory = Memory(times: map<string, int>, file: Option<string>)

  /** A request to pull, a result that changes the timeout, or a new process; `written` is the text saved by it, if it saves. */
  datatype Event =
    | Asked(repo: string, ct: int, now: int, written: string)
    | Adjusted(written: string)
    | Restarted(settings: Settings, written: string)

  predicate Saves(m: Memory, updatedSince: int, e: Event) {
    e.Asked? ==> Approves(m.times, e.repo, e.ct, e.now, updatedSince)
  }

  function TimesOnDisk(file: Option<string>, settings: Settings): map<string, int> {
    if file.None? then map[] else Load(file.value, settings, map[]).times
  }

  function After(m: Memory, updatedSince: int, e: Event): Memory {
    if !Saves(m, updatedSince, e) then m
    else
      match e
      case Asked(repo, ct, _, written) => Memory(m.times[repo := ct], Some(written))
      case Adjusted(written) => Memory(m.times, Some(written))
      case Restarted(settings, written) => Memory(TimesOnDisk(m.file, settings), Some(written))
  }

  /** apply_mutant_mode's lower bounds. */
  function Clamped(s: Settings): Settings {
    var s1 := if s.interval < 5 then s.(interval := 5) else s;
    if s1.timeout == 0 then s1.(timeout := 30, skipTimeout := false) else s1
  }

  class Session {
    var settings: Settings
    var updatedSince: int
    var retrySkipped: bool
    var skipUnavailable: bool
    var repoTimes: map<string, int>
    var file: Option<string>

    ghost function Now(): Memory
      reads this
    {
      Memory(repoTimes, file)
    }

    /** The file is a listing of the table. */
    ghost predicate Saved()
      reads this
    {
      file.Some? && IsSaved(file.value, repoTimes)
    }

    constructor (settings: Settings, updatedSince: int, retrySkipped: bool, skipUnavailable: bool, file: Option<string>)
      ensures this.settings == settings && this.updatedSince == updatedSince
      ensures this.retrySkipped == retrySkipped && this.skipUnavailable == skipUnavailable
      ensures this.file == file && repoTimes == map[]
    {
      this.settings, this.updatedSince, this.file, repoTimes := settings, updatedSince, file, map[];
      this.retrySkipped, this.skipUnavailable := retrySkipped, skipUnavailable;
    }

    method LoadConfig()
      modifies this`settings, this`repoTimes
      ensures file.None? ==> settings == old(settings) && repoTimes == old(repoTimes)
      ensures file.Some? ==> Loaded(settings, repoTimes) == Load(file.value, old(settings), old(repoTimes))
    {
      if file.None? {
        return;
      }
      var text := file.value;
      var first := ReadInt(text);
      var second := if first.Failed? then Failed else ReadInt(first.rest);
      if first.Got? && first.value > 0 {
        settings := settings.(interval := first.value);
      }
      if second.Got? && second.value > 0 {
        settings := settings.(timeout := second.value, skipTimeout := false);
      }
      if second.Failed? {
        return;
      }
      var rest := TakeLine(second.rest).1;
      ghost var goal := LoadLines(rest, repoTimes);
      ghost var loaded := settings;
      while rest != ""
        invariant settings == loaded && LoadLines(rest, repoTimes) == goal
        decreases |rest|
      {
        var (line, more) := TakeLine(rest);
        var p := ReadWord(line);
        if p.Got? {
          var t := ReadInt(p.rest);
          if t.Got? {
            repoTimes := repoTimes[p.value := t.value];
          }
        }
        rest := more;
      }
    }

    method SaveConfig()
      modifies this`file
      ensures Saved()
    {
      var text := ShowInt(settings.interval) + (" " + (ShowInt(settings.timeout) + "\n"));
      var todo := repoTimes.Keys;
      var body := "";
      ghost var entries: seq<(string, int)> := [];
      while todo != {}
        invariant todo <= repoTimes.Keys
        invariant body == EntryLines(entries)
        invariant forall i :: 0 <= i < |entries| ==> entries[i].0 in repoTimes && repoTimes[entries[i].0] == entries[i].1
        invariant forall p :: p in repoTimes && p !in todo ==> HasKey(entries, p)
        decreases todo
      {
        var p :| p in todo;
        EntryLinesSnoc(entries, (p, repoTimes[p]));
        ghost var grown := entries + [(p, repoTimes[p])];
        forall q | q in repoTimes && q !in todo - {p} ensures HasKey(grown, q) {
          if q == p {
            assert grown[|entries|].0 == q;
          } else {
            var i :| 0 <= i < |entries| && entries[i].0 == q;
            assert grown[i].0 == q;
          }
        }
        body := body + EntryLine(p, repoTimes[p]);
        entries := grown;
        todo := todo - {p};
      }
      file := Some(text + body);
      SaveTextIs(settings.interval, settings.timeout, entries);
      assert SavedAs(file.value, repoTimes, settings.interval, settings.timeout, entries);
    }

    /** apply_mutant_mode at process start. */
    method ApplyMutantMode()
      modifies this
      ensures Saved()
      ensures settings == Clamped(if old(file).None? then old(settings)
                                  else Load(old(file).value, old(settings), old(repoTimes)).settings)
      ensures repoTimes == if old(file).None? then old(repoTimes)
                           else Load(old(file).value, old(settings), old(repoTimes)).times
      ensures settings.interval >= 5 && settings.timeout != 0
      ensures old(file).None? ==>
                && settings.interval == (if old(settings).interval < 5 then 5 else old(settings).interval)
                && settings.timeout == (if old(settings).timeout == 0 then 30 else old(settings).timeout)
                && (settings.skipTimeout <==> old(settings).skipTimeout && old(settings).timeout != 0)
      ensures updatedSince == if old(updatedSince) == 0 then 3600 else old(updatedSince)
      ensures retrySkipped && !skipUnavailable
      // in a new process it is the restart of the event model
      ensures old(repoTimes) == map[] ==>
                Now() == After(old(Now()), updatedSince, Restarted(old(settings), file.value))
    {
      LoadConfig();
      if settings.interval < 5 {
        settings := settings.(interval := 5);
      }
      if settings.timeout == 0 {
        settings := settings.(timeout := 30, skipTimeout := false);
      }
      retrySkipped := true;
      skipUnavailable := false;
      if updatedSince == 0 {
        updatedSince := 3600;
      }
      SaveConfig();
    }

    method ShouldPull(repo: string, remoteTime: int, localTime: int, now: int) returns (pull: bool)
      modifies this`repoTimes, this`file
      ensures var ct := CommitTimeOf(remoteTime, localTime);
              && pull == Approves(old(repoTimes), repo, ct, now, updatedSince)
              && Now() == After(old(Now()), updatedSince, Asked(repo, ct, now, file.GetOr("")))
      // the repository is asked for when its commit is young enough and not the one approved last
      ensures var ct := if remoteTime != 0 then remoteTime else localTime;
              && (pull <==> && (updatedSince <= 0 || (ct != 0 && now - ct <= updatedSince))
                            && !(repo in old(repoTimes) && old(repoTimes)[repo] == ct))
              && repoTimes == if pull then old(repoTimes)[repo := ct] else old(repoTimes)
      ensures if pull then Saved() else file == old(file)
    {
      var ct := remoteTime;
      if ct == 0 {
        ct := localTime;
      }
      if updatedSince > 0 && (ct == 0 || now - ct > updatedSince) {
        return false;
      }
      if repo in repoTimes && repoTimes[repo] == ct {
        return false;
      }
      repoTimes := repoTimes[repo := ct];
      SaveConfig();
      pull := true;
    }

    method RecordResult(status: Status, duration: int)
      modifies this`settings, this`file
      ensures settings == old(settings).(timeout := Adjust(old(settings).timeout, status, duration))
      ensures if settings.timeout != old(settings).timeout
              then Saved() && Now() == After(old(Now()), updatedSince, Adjusted(file.value))
              else file == old(file)
    {
      var timeout := settings.timeout;
      if status == Timeout {
        timeout := timeout + 5;
      } else if (status == PullOk || status == PkgLockFixed) && duration > 0 {
        if duration >= timeout {
          timeout := timeout + 5;
        } else if duration * 2 < timeout && timeout > 10 {
          timeout := timeout - 5;
        }
      }
      var changed := timeout != settings.timeout;
      settings := settings.(timeout := timeout);
      if changed {
        SaveConfig();
      }
    }
  }

  lemma {:induction false} EntryLinesSnoc(entries: seq<(string, int)>, e: (string, int))
    ensures EntryLines(entries + [e]) == EntryLines(entries) + EntryLine(e.0, e.1)
  {
    var all := entries + [e];
    if entries == [] {
      assert all[1..] == [];
      assert EntryLines([]) + EntryLine(e.0, e.1) == EntryLine(e.0, e.1) + "";
    } else {
      assert all[1..] == entries[1..] + [e];
      EntryLinesSnoc(entries[1..], e);
      assert (EntryLine(entries[0].0, entries[0].1) + EntryLines(entries[1..])) + EntryLine(e.0, e.1) ==
             EntryLine(entries[0].0, entries[0].1) + (EntryLines(entries[1..]) + EntryLine(e.0, e.1));
    }
  }

  lemma SaveTextIs(interval: int, timeout: int, entries: seq<(string, int)>)
    ensures (ShowInt(interval) + (" " + (ShowInt(timeout) + "\n"))) + EntryLines(entries) == SaveText(interval, timeout, entries)
  {
    var a, b, c := ShowInt(interval), ShowInt(timeout), EntryLines(entries);
    assert (a + (" " + (b + "\n"))) + c == a + (" " + (b + ("\n" + c)));
  }
}
