/**
 * Whole sessions of the mutant mode: requests, timeout adjustments and process
 * restarts in any order. Every event is one that Mutant.Session performs, and
 * what it saves is what Mutant.Session.Saved says.
 */
module MutantRuns {
  import opened Basics
  import opened Mutant

  /** The memory when the first k events have happened. */
  function MemoryAfter(start: Memory, updatedSince: int, events: seq<Event>, k: nat): Memory
    requires k <= |events|
  {
    if k == 0 then start else After(MemoryAfter(start, updatedSince, events, k - 1), updatedSince, events[k - 1])
  }

  /** A session that asks for these paths only, from a saved start on; whatever is saved is a listing of the table. */
  ghost predicate IsSession(start: Memory, updatedSince: int, events: seq<Event>, paths: set<string>) {
    && Listed(start) && start.times.Keys <= paths
    && forall k :: 0 <= k < |events| ==> Fits(start, updatedSince, events, k, paths)
  }

  ghost predicate Fits(start: Memory, updatedSince: int, events: seq<Event>, k: nat, paths: set<string>)
    requires k < |events|
  {
    var before := MemoryAfter(start, updatedSince, events, k);
    && (events[k].Asked? ==> events[k].repo in paths)
    && (Saves(before, updatedSince, events[k]) ==>
          IsSaved(events[k].written, After(before, updatedSince, events[k]).times))
  }

  ghost predicate Listed(m: Memory) { m.file.Some? && IsSaved(m.file.value, m.times) }

  /** At every moment the file is a listing of the table. */
  lemma FileFollowsTable(start: Memory, updatedSince: int, events: seq<Event>, paths: set<string>, k: nat)
    requires IsSession(start, updatedSince, events, paths) && k <= |events|
    ensures Listed(MemoryAfter(start, updatedSince, events, k))
  {
    for i := 0 to k
      invariant Listed(MemoryAfter(start, updatedSince, events, i))
    {
      FitFollows(start, updatedSince, events, paths, i);
    }
  }

  lemma FitFollows(start: Memory, updatedSince: int, events: seq<Event>, paths: set<string>, k: nat)
    requires k < |events| && Fits(start, updatedSince, events, k, paths)
    requires Listed(MemoryAfter(start, updatedSince, events, k))
    ensures Listed(MemoryAfter(start, updatedSince, events, k + 1))
  {
    SaveFollows(MemoryAfter(start, updatedSince, events, k), updatedSince, events[k]);
  }

  lemma SaveFollows(m: Memory, updatedSince: int, e: Event)
    requires Listed(m) && (Saves(m, updatedSince, e) ==> IsSaved(e.written, After(m, updatedSince, e).times))
    ensures Listed(After(m, updatedSince, e))
  {
  }

  predicate AllWords(paths: set<string>) { forall p :: p in paths ==> Word(p) }

  /** As long as only words are asked for, every restart brings back the table it interrupted. */
  lemma {:induction false} RestartsKeepTimes(start: Memory, updatedSince: int, events: seq<Event>, paths: set<string>, k: nat)
    requires IsSession(start, updatedSince, events, paths) && AllWords(paths) && k <= |events|
    ensures MemoryAfter(start, updatedSince, events, k).times.Keys <= paths
    ensures k < |events| && events[k].Restarted? ==>
              MemoryAfter(start, updatedSince, events, k + 1).times == MemoryAfter(start, updatedSince, events, k).times
  {
    if k > 0 {
      RestartsKeepTimes(start, updatedSince, events, paths, k - 1);
      assert Fits(start, updatedSince, events, k - 1, paths);
    }
    if k < |events| && events[k].Restarted? {
      var m := MemoryAfter(start, updatedSince, events, k);
      FileFollowsTable(start, updatedSince, events, paths, k);
      SavedTimesReturn(m.file.value, m.times, events[k].settings);
    }
  }

  /** The request at index k is an approval of repo. */
  predicate ApprovedAt(start: Memory, updatedSince: int, events: seq<Event>, k: nat, repo: string)
    requires k < |events|
  {
    && events[k].Asked? && events[k].repo == repo
    && Approves(MemoryAfter(start, updatedSince, events, k).times, repo, events[k].ct, events[k].now, updatedSince)
  }

  /** Two approvals of one repository with no approval of it in between. */
  ghost predicate Consecutive(start: Memory, updatedSince: int, events: seq<Event>, j: nat, k: nat, repo: string)
    requires j < k < |events|
  {
    && ApprovedAt(start, updatedSince, events, j, repo) && ApprovedAt(start, updatedSince, events, k, repo)
    && forall m :: j < m < k ==> !ApprovedAt(start, updatedSince, events, m, repo)
  }

  /** What is remembered of an approval until the next one. */
  lemma {:induction false} ApprovalIsRemembered(start: Memory, updatedSince: int, events: seq<Event>, paths: set<string>, j: nat, k: nat, repo: string)
    requires IsSession(start, updatedSince, events, paths) && AllWords(paths) && j < k <= |events|
    requires ApprovedAt(start, updatedSince, events, j, repo)
    requires forall m :: j < m < k ==> !ApprovedAt(start, updatedSince, events, m, repo)
    ensures var m := MemoryAfter(start, updatedSince, events, k); repo in m.times && m.times[repo] == events[j].ct
    decreases k
  {
    if j < k - 1 {
      ApprovalIsRemembered(start, updatedSince, events, paths, j, k - 1, repo);
      RestartsKeepTimes(start, updatedSince, events, paths, k - 1);
      assert !ApprovedAt(start, updatedSince, events, k - 1, repo);
      RefusalKeeps(MemoryAfter(start, updatedSince, events, k - 1), updatedSince, events[k - 1], repo);
    }
  }

  /** A request that is not an approval of repo, or a new timeout, leaves its time. */
  lemma RefusalKeeps(m: Memory, updatedSince: int, e: Event, repo: string)
    requires repo in m.times && !(e.Asked? && e.repo == repo && Approves(m.times, repo, e.ct, e.now, updatedSince))
    ensures !e.Restarted? ==> var m2 := After(m, updatedSince, e); repo in m2.times && m2.times[repo] == m.times[repo]
  {
  }

  /**
   * Two consecutive approvals of a repository see different commit times,
   * whatever else is asked and however often the process restarts in between.
   */
  lemma ApprovalsDiffer(start: Memory, updatedSince: int, events: seq<Event>, paths: set<string>, j: nat, k: nat, repo: string)
    requires IsSession(start, updatedSince, events, paths) && AllWords(paths)
    requires j < k < |events| && Consecutive(start, updatedSince, events, j, k, repo)
    ensures events[j].ct != events[k].ct
  {
    ApprovalIsRemembered(start, updatedSince, events, paths, j, k, repo);
  }

  // ---------------------------------------------------------------- and exactly for words

  /** Every table has a listing. */
  lemma Listing(times: map<string, int>) returns (entries: seq<(string, int)>)
    ensures Lists(entries, times)
    decreases |times|
  {
    if times == map[] {
      entries := [];
    } else {
      var p :| p in times;
      var rest := Listing(times - {p});
      entries := [(p, times[p])] + rest;
      forall q | q in times ensures HasKey(entries, q) {
        if q == p {
          assert entries[0].0 == q;
        } else {
          assert q in times - {p};
          var i :| 0 <= i < |rest| && rest[i].0 == q;
          assert entries[i + 1].0 == q;
        }
      }
    }
  }

  lemma SavedText(times: map<string, int>) returns (text: string)
    ensures IsSaved(text, times)
  {
    var entries := Listing(times);
    text := SaveText(5, 30, entries);
    assert SavedAs(text, times, 5, 30, entries);
  }

  /** The path is asked with one and the same commit before and after a restart. */
  function AskedTwice(path: string, settings: Settings, text1: string, text2: string, text3: string): seq<Event> {
    [Asked(path, 7, 8, text1), Restarted(settings, text2), Asked(path, 7, 8, text3)]
  }

  lemma TwiceMemory(path: string, settings: Settings, text0: string, text1: string, text2: string, text3: string)
    ensures var events := AskedTwice(path, settings, text1, text2, text3);
            var start := Memory(map[], Some(text0));
            && MemoryAfter(start, 60, events, 0) == start
            && MemoryAfter(start, 60, events, 1) == Memory(map[path := 7], Some(text1))
            && MemoryAfter(start, 60, events, 2) == Memory(Load(text1, settings, map[]).times, Some(text2))
  {
    var events := AskedTwice(path, settings, text1, text2, text3);
    var start := Memory(map[], Some(text0));
    assert MemoryAfter(start, 60, events, 0) == start;
    assert MemoryAfter(start, 60, events, 1) == After(start, 60, events[0]);
    assert MemoryAfter(start, 60, events, 2) == After(Memory(map[path := 7], Some(text1)), 60, events[1]);
  }

  /** Any path that is not a word, asked before and after a restart: the same commit is approved twice. */
  lemma ApprovedTwice(path: string, paths: set<string>, settings: Settings) returns (start: Memory, events: seq<Event>)
    requires path in paths && !Word(path)
    ensures IsSession(start, 60, events, paths) && |events| == 3
    ensures Consecutive(start, 60, events, 0, 2, path) && events[0].ct == events[2].ct
  {
    var empty: map<string, int> := map[];
    var text0 := SavedText(empty);
    var text1 := SavedText(empty[path := 7]);
    var loaded := Load(text1, settings, map[]).times;
    var text2 := SavedText(loaded);
    var text3 := SavedText(loaded[path := 7]);
    start, events := Memory(empty, Some(text0)), AskedTwice(path, settings, text1, text2, text3);
    OtherPathsAreForgotten(path, text1, settings);
    TwiceMemory(path, settings, text0, text1, text2, text3);
    TwiceFits(start, events, paths, Memory(empty[path := 7], Some(text1)), Memory(loaded, Some(text2)));
  }

  lemma TwiceFits(start: Memory, events: seq<Event>, paths: set<string>, one: Memory, two: Memory)
    requires |events| == 3 && events[0].Asked? && events[1].Restarted? && events[2].Asked?
    requires events[0].repo in paths && events[2].repo in paths
    requires one == MemoryAfter(start, 60, events, 1) && two == MemoryAfter(start, 60, events, 2)
    requires IsSaved(events[0].written, After(start, 60, events[0]).times)
    requires IsSaved(events[1].written, After(one, 60, events[1]).times)
    requires IsSaved(events[2].written, After(two, 60, events[2]).times)
    ensures forall k :: 0 <= k < |events| ==> Fits(start, 60, events, k, paths)
  {
    assert MemoryAfter(start, 60, events, 0) == start;
    assert Fits(start, 60, events, 0, paths) && Fits(start, 60, events, 1, paths) && Fits(start, 60, events, 2, paths);
  }

  ghost predicate Differs(start: Memory, updatedSince: int, events: seq<Event>, paths: set<string>, j: nat, k: nat, repo: string) {
    IsSession(start, updatedSince, events, paths) && j < k < |events| && Consecutive(start, updatedSince, events, j, k, repo) ==>
      events[j].ct != events[k].ct
  }

  /** For these paths the promise holds in every session. */
  ghost predicate Promised(paths: set<string>) {
    forall start, updatedSince, events, j: nat, k: nat, repo :: Differs(start, updatedSince, events, paths, j, k, repo)
  }

  /** The promise holds for exactly the sets of paths that are non-empty words without white space. */
  lemma PromisedExactlyForWords(paths: set<string>)
    ensures Promised(paths) <==> AllWords(paths)
  {
    if AllWords(paths) {
      forall start, updatedSince, events, j: nat, k: nat, repo
        ensures Differs(start, updatedSince, events, paths, j, k, repo)
      {
        if IsSession(start, updatedSince, events, paths) && j < k < |events|
           && Consecutive(start, updatedSince, events, j, k, repo) {
          ApprovalsDiffer(start, updatedSince, events, paths, j, k, repo);
        }
      }
    } else {
      var path :| path in paths && !Word(path);
      var start, events := ApprovedTwice(path, paths, Settings(5, 30, false));
      assert !Differs(start, 60, events, paths, 0, 2, path);
    }
  }
}
