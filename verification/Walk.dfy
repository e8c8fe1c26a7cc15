/**
 * The directory walk of src/scanner/list.cpp (build_repo_list): a
 * recursive_directory_iterator over a finite tree, told entry by entry not to
 * descend. The iterator is its stack of directories still to be read; it never
 * follows a symbolic link. Directory reads succeed.
 */
module Walk {
  import opened Basics

  /** A normalised path, by its components. */
  datatype Path = Path(parts: seq<string>)

  /** What a link resolves to, if it resolves. */
  datatype Target = Target(path: Path, directory: bool)

  datatype Entry =
    | File(path: Path)
    | Dir(path: Path, children: seq<Entry>)
    | Link(path: Path, target: Option<Target>)

  datatype Rules = Rules(root: Path, ignored: Path -> bool, maxDepth: nat)

  /** within_root: component by component, the root is a prefix. */
  method WithinRoot(root: Path, p: Path) returns (inside: bool)
    ensures inside <==> root.parts <= p.parts
  {
    var i := 0;
    while i < |root.parts| && i < |p.parts|
      invariant 0 <= i <= |root.parts| && i <= |p.parts| && root.parts[..i] == p.parts[..i]
    {
      if root.parts[i] != p.parts[i] {
        return false;
      }
      i := i + 1;
    }
    inside := i == |root.parts|;
    if inside { assert root.parts == root.parts[..i]; }
  }

  predicate TooDeep(r: Rules, depth: nat) { r.maxDepth > 0 && depth >= r.maxDepth }

  // ---------------------------------------------------------------- which directories are wanted

  /**
   * One entry of the tree, with the directories on the way to it: `chain` lists
   * the paths from the first level down to the entry itself.
   */
  datatype Visit = Visit(path: Path, directory: bool, chain: seq<Path>)

  /** The path an entry is judged by, and whether it is a directory the walk may list. */
  function Judged(r: Rules, e: Entry): (Path, bool) {
    match e
    case File(path) => (path, false)
    case Dir(path, _) => (path, true)
    case Link(path, target) =>
      if target.None? || !(r.root.parts <= target.value.path.parts) then (path, false)
      else (target.value.path, target.value.directory)
  }

  /** Everything in the tree in preorder, pruned nowhere. */
  function Preorder(r: Rules, entries: seq<Entry>, above: seq<Path>): seq<Visit> {
    if entries == [] then []
    else
      var e := entries[0];
      var chain := above + [Judged(r, e).0];
      [Visit(Judged(r, e).0, Judged(r, e).1, chain)] +
      (if e.Dir? then Preorder(r, e.children, chain) else []) +
      Preorder(r, entries[1..], above)
  }

  /** Below the depth limit, and neither it nor a directory on the way to it is ignored. */
  predicate Wanted(r: Rules, v: Visit) {
    v.directory && v.chain != [] && !TooDeep(r, |v.chain| - 1) &&
    forall i :: 0 <= i < |v.chain| ==> !r.ignored(v.chain[i])
  }

  function Select(r: Rules, visits: seq<Visit>): seq<Path> {
    if visits == [] then []
    else (if Wanted(r, visits[0]) then [visits[0].path] else []) + Select(r, visits[1..])
  }

  // ---------------------------------------------------------------- membership, outright

  /** An entry met at this depth puts p on the list: a directory, or a link that resolves to one inside the root. */
  predicate Shows(r: Rules, e: Entry, depth: nat, p: Path) {
    && (r.maxDepth == 0 || depth < r.maxDepth) && !r.ignored(p)
    && (|| (e.Dir? && p == e.path)
        || (e.Link? && e.target.Some? && e.target.value.directory && p == e.target.value.path
            && r.root.parts <= p.parts))
  }

  /** The walk of these entries meets e at this depth: on the way down no directory is ignored or too deep. */
  predicate Meets(r: Rules, entries: seq<Entry>, above: nat, e: Entry, depth: nat)
    decreases entries
  {
    entries != [] &&
    var first := entries[0];
    || (first == e && depth == above)
    || (first.Dir? && (r.maxDepth == 0 || above < r.maxDepth) && !r.ignored(first.path) &&
        Meets(r, first.children, above + 1, e, depth))
    || Meets(r, entries[1..], above, e, depth)
  }

  ghost predicate Finds(r: Rules, entries: seq<Entry>, above: nat, p: Path) {
    exists e, depth: nat :: Meets(r, entries, above, e, depth) && Shows(r, e, depth, p)
  }

  /** Every real directory lies under the root. */
  predicate TreeUnder(root: Path, entries: seq<Entry>)
    decreases entries
  {
    entries == [] ||
    ((entries[0].Dir? ==> root.parts <= entries[0].path.parts && TreeUnder(root, entries[0].children)) &&
     TreeUnder(root, entries[1..]))
  }

  // ---------------------------------------------------------------- the iterator

  /** Directories being read: each frame holds its entries not yet left behind, the current one first. */
  type Stack = seq<seq<Entry>>

  function Count(entries: seq<Entry>): nat {
    if entries == [] then 0
    else 1 + (if entries[0].Dir? then Count(entries[0].children) else 0) + Count(entries[1..])
  }

  function CountAll(stack: Stack): nat {
    if stack == [] then 0 else CountAll(stack[..|stack| - 1]) + Count(stack[|stack| - 1])
  }

  /** Leaves finished directories. */
  function Popped(stack: Stack): (s: Stack)
    ensures s != [] ==> s[|s| - 1] != []
    ensures CountAll(s) == CountAll(stack)
  {
    if stack != [] && stack[|stack| - 1] == [] then Popped(stack[..|stack| - 1]) else stack
  }

  /** The stack with the current entry left behind. */
  function Advanced(stack: Stack): (s: Stack)
    requires stack != [] && stack[|stack| - 1] != []
    ensures CountAll(s) < CountAll(stack)
  {
    var n := |stack| - 1;
    var s := stack[..n] + [stack[n][1..]];
    assert s[..n] == stack[..n];
    s
  }

  /** it.increment: into the current directory when recursion is pending, else to the next entry. */
  function Increment(stack: Stack, pending: bool): (s: Stack)
    requires stack != [] && stack[|stack| - 1] != []
    ensures s != [] ==> s[|s| - 1] != []
    ensures CountAll(s) < CountAll(stack)
  {
    var e := stack[|stack| - 1][0];
    if pending && e.Dir? then
      var deeper := Advanced(stack) + [e.children];
      assert deeper[..|stack|] == Advanced(stack);
      assert Advanced(stack)[..|stack| - 1] == stack[..|stack| - 1];
      Popped(deeper)
    else Popped(Advanced(stack))
  }

  /** Whether the walk lists this entry of a directory at this depth. */
  predicate Listed(r: Rules, e: Entry, depth: nat) {
    Judged(r, e).1 && !TooDeep(r, depth) && !r.ignored(Judged(r, e).0)
  }

  function Listing(r: Rules, e: Entry, depth: nat): seq<Path> {
    if Listed(r, e, depth) then [Judged(r, e).0] else []
  }

  /** The pruned walk of one directory's entries at a depth. */
  function Keep(r: Rules, entries: seq<Entry>, depth: nat): seq<Path> {
    if entries == [] then []
    else
      Listing(r, entries[0], depth) +
      ((if Listed(r, entries[0], depth) && entries[0].Dir? then Keep(r, entries[0].children, depth + 1) else []) +
       Keep(r, entries[1..], depth))
  }

  /** What is still to come: the innermost directory first. */
  function Pending(r: Rules, stack: Stack): seq<Path> {
    if stack == [] then []
    else Keep(r, stack[|stack| - 1], |stack| - 1) + Pending(r, stack[..|stack| - 1])
  }

  lemma PendingPopped(r: Rules, stack: Stack)
    ensures Pending(r, Popped(stack)) == Pending(r, stack)
  {
    if stack != [] && stack[|stack| - 1] == [] {
      PendingPopped(r, stack[..|stack| - 1]);
      assert [] + Pending(r, stack[..|stack| - 1]) == Pending(r, stack[..|stack| - 1]);
    }
  }

  lemma Assoc<T>(a: seq<T>, b: seq<T>, c: seq<T>)
    ensures (a + b) + c == a + (b + c)
  {
  }

  lemma PendingDeeper(r: Rules, stack: Stack, entries: seq<Entry>)
    ensures Pending(r, stack + [entries]) == Keep(r, entries, |stack|) + Pending(r, stack)
  {
    assert (stack + [entries])[..|stack|] == stack;
  }

  /** Listing the current entry, if it is wanted, and moving on leaves the rest of the walk to do. */
  lemma PendingStep(r: Rules, stack: Stack, pending: bool)
    requires stack != [] && stack[|stack| - 1] != []
    requires stack[|stack| - 1][0].Dir? ==> pending == Listed(r, stack[|stack| - 1][0], |stack| - 1)
    ensures Pending(r, stack) ==
            Listing(r, stack[|stack| - 1][0], |stack| - 1) + Pending(r, Increment(stack, pending))
  {
    var n := |stack| - 1;
    var e := stack[n][0];
    var inner := if Listed(r, e, n) && e.Dir? then Keep(r, e.children, n + 1) else [];
    var siblings := Keep(r, stack[n][1..], n);
    var below := Pending(r, stack[..n]);
    Assoc(Listing(r, e, n), inner + siblings, below);
    Assoc(inner, siblings, below);
    PendingDeeper(r, stack[..n], stack[n][1..]);
    if pending && e.Dir? {
      PendingDeeper(r, Advanced(stack), e.children);
      PendingPopped(r, Advanced(stack) + [e.children]);
    } else {
      assert inner == [] && [] + siblings == siblings;
      PendingPopped(r, Advanced(stack));
    }
  }

  /** One entry lists what it shows, and nothing twice. */
  lemma ListingShows(r: Rules, e: Entry, depth: nat, p: Path)
    ensures p in Listing(r, e, depth) <==> Shows(r, e, depth, p)
    ensures |Listing(r, e, depth)| <= 1
  {
  }

  lemma FindsCons(r: Rules, entries: seq<Entry>, above: nat, p: Path)
    requires entries != []
    ensures Finds(r, entries, above, p) <==>
            || Shows(r, entries[0], above, p)
            || (entries[0].Dir? && (r.maxDepth == 0 || above < r.maxDepth) && !r.ignored(entries[0].path) &&
                Finds(r, entries[0].children, above + 1, p))
            || Finds(r, entries[1..], above, p)
  {
    if e, depth: nat :| Meets(r, entries, above, e, depth) && Shows(r, e, depth, p) {
      if Meets(r, entries[1..], above, e, depth) {
        assert Finds(r, entries[1..], above, p);
      } else if entries[0].Dir? && Meets(r, entries[0].children, above + 1, e, depth) {
        assert Finds(r, entries[0].children, above + 1, p);
      }
    }
    if Shows(r, entries[0], above, p) {
      assert Meets(r, entries, above, entries[0], above);
    }
    if entries[0].Dir? && (r.maxDepth == 0 || above < r.maxDepth) && !r.ignored(entries[0].path)
       && Finds(r, entries[0].children, above + 1, p) {
      var e, depth: nat :| Meets(r, entries[0].children, above + 1, e, depth) && Shows(r, e, depth, p);
      assert Meets(r, entries, above, e, depth);
    }
    if Finds(r, entries[1..], above, p) {
      var e, depth: nat :| Meets(r, entries[1..], above, e, depth) && Shows(r, e, depth, p);
      assert Meets(r, entries, above, e, depth);
    }
  }

  /**
   * A path is listed if and only if the walk meets a directory of that path,
   * or a link that resolves to a directory of that path inside the root, not
   * too deep and not ignored.
   */
  lemma {:induction false} KeepFinds(r: Rules, entries: seq<Entry>, above: nat, p: Path)
    ensures p in Keep(r, entries, above) <==> Finds(r, entries, above, p)
    decreases entries
  {
    if entries == [] {
      assert forall e, depth: nat :: !Meets(r, entries, above, e, depth);
    } else {
      var e := entries[0];
      KeepFinds(r, entries[1..], above, p);
      if e.Dir? { KeepFinds(r, e.children, above + 1, p); }
      FindsCons(r, entries, above, p);
      KeepCons(r, entries, above, p);
    }
  }

  lemma KeepCons(r: Rules, entries: seq<Entry>, above: nat, p: Path)
    requires entries != []
    ensures p in Keep(r, entries, above) <==>
            || Shows(r, entries[0], above, p)
            || (entries[0].Dir? && (r.maxDepth == 0 || above < r.maxDepth) && !r.ignored(entries[0].path) &&
                p in Keep(r, entries[0].children, above + 1))
            || p in Keep(r, entries[1..], above)
  {
    ListingShows(r, entries[0], above, p);
  }

  /** Whatever is found lies under the root, links included. */
  lemma {:induction false} KeepStaysInside(r: Rules, entries: seq<Entry>, above: nat)
    requires TreeUnder(r.root, entries)
    ensures forall p :: p in Keep(r, entries, above) ==> r.root.parts <= p.parts
    decreases entries
  {
    if entries != [] {
      KeepStaysInside(r, entries[1..], above);
      if entries[0].Dir? { KeepStaysInside(r, entries[0].children, above + 1); }
    }
  }

  /** The body of the recursive loop: what it lists, and whether recursion stays pending. */
  method VisitEntry(r: Rules, e: Entry, depth: nat) returns (listing: seq<Path>, pending: bool)
    ensures listing == Listing(r, e, depth)
    ensures forall p :: p in listing <==> Shows(r, e, depth, p)
    ensures e.Dir? ==> pending == Listed(r, e, depth)
  {
    var p := e.path;
    listing := [];
    if e.Link? {
      var inside := false;
      if e.target.Some? {
        inside := WithinRoot(r.root, e.target.value.path);
      }
      if !inside {
        return [], false;
      }
      p := e.target.value.path;
    }
    if r.maxDepth > 0 && depth >= r.maxDepth {
      return [], false;
    }
    if !(e.Dir? || (e.Link? && e.target.value.directory)) {
      return [], true;
    }
    if r.ignored(p) {
      return [], false;
    }
    return [p], true;
  }

  /** The iterator loop of the recursive mode. */
  method WalkRecursive(r: Rules, entries: seq<Entry>) returns (result: seq<Path>)
    ensures result == Select(r, Preorder(r, entries, []))
    ensures forall p :: p in result <==> Finds(r, entries, 0, p)
    ensures TreeUnder(r.root, entries) ==> forall p :: p in result ==> r.root.parts <= p.parts
  {
    result := [];
    var stack: Stack := Popped([entries]);
    PendingPopped(r, [entries]);
    PendingDeeper(r, [], entries);
    assert [] + [entries] == [entries];
    while stack != []
      invariant stack != [] ==> stack[|stack| - 1] != []
      invariant result + Pending(r, stack) == Keep(r, entries, 0)
      decreases CountAll(stack)
    {
      var listing, pending := VisitEntry(r, stack[|stack| - 1][0], |stack| - 1);
      PendingStep(r, stack, pending);
      Assoc(result, listing, Pending(r, Increment(stack, pending)));
      result := result + listing;
      stack := Increment(stack, pending);
    }
    WalkedPaths(r, entries);
  }

  lemma WalkedPaths(r: Rules, entries: seq<Entry>)
    ensures Keep(r, entries, 0) == Select(r, Preorder(r, entries, []))
    ensures forall p :: p in Keep(r, entries, 0) <==> Finds(r, entries, 0, p)
    ensures TreeUnder(r.root, entries) ==> forall p :: p in Keep(r, entries, 0) ==> r.root.parts <= p.parts
  {
    KeepIsSelect(r, entries, []);
    forall p ensures p in Keep(r, entries, 0) <==> Finds(r, entries, 0, p) {
      KeepFinds(r, entries, 0, p);
    }
    if TreeUnder(r.root, entries) { KeepStaysInside(r, entries, 0); }
  }

  // ---------------------------------------------------------------- pruning loses nothing wanted

  lemma {:induction false} SelectConcat(r: Rules, a: seq<Visit>, b: seq<Visit>)
    ensures Select(r, a + b) == Select(r, a) + Select(r, b)
  {
    if a == [] {
      assert a + b == b;
    } else {
      assert (a + b)[1..] == a[1..] + b;
      SelectConcat(r, a[1..], b);
    }
  }

  /** Below an ignored or too deep directory nothing is wanted. */
  lemma {:induction false} NothingBelow(r: Rules, entries: seq<Entry>, above: seq<Path>)
    requires (exists i :: 0 <= i < |above| && r.ignored(above[i])) || TooDeep(r, |above|)
    ensures Select(r, Preorder(r, entries, above)) == []
    decreases entries
  {
    if entries != [] {
      var e := entries[0];
      var chain := above + [Judged(r, e).0];
      var first := [Visit(Judged(r, e).0, Judged(r, e).1, chain)];
      var inner := if e.Dir? then Preorder(r, e.children, chain) else [];
      if i :| 0 <= i < |above| && r.ignored(above[i]) {
        assert chain[i] == above[i];
      }
      assert !Wanted(r, first[0]);
      if e.Dir? { NothingBelow(r, e.children, chain); }
      NothingBelow(r, entries[1..], above);
      SelectConcat(r, first + inner, Preorder(r, entries[1..], above));
      SelectConcat(r, first, inner);
    }
  }

  /** Under directories that are not ignored, wanted and listed are the same. */
  lemma WantedIsListed(r: Rules, e: Entry, above: seq<Path>)
    requires forall i :: 0 <= i < |above| ==> !r.ignored(above[i])
    ensures var (path, directory) := Judged(r, e);
            Select(r, [Visit(path, directory, above + [path])]) == Listing(r, e, |above|)
  {
    var (path, directory) := Judged(r, e);
    var chain := above + [path];
    var v := Visit(path, directory, chain);
    assert chain[|above|] == path;
    assert forall i :: 0 <= i < |above| ==> chain[i] == above[i];
    assert Wanted(r, v) <==> Listed(r, e, |above|);
    assert [v][1..] == [];
  }

  /**
   * The pruned walk is the full preorder filtered: the directories below the
   * depth limit such that neither they nor a directory on the way to them is
   * ignored. Links that resolve inside the root are listed and not entered,
   * others dropped.
   */
  lemma {:induction false} KeepIsSelect(r: Rules, entries: seq<Entry>, above: seq<Path>)
    requires forall i :: 0 <= i < |above| ==> !r.ignored(above[i])
    ensures Keep(r, entries, |above|) == Select(r, Preorder(r, entries, above))
    decreases entries
  {
    if entries != [] {
      var e := entries[0];
      var (path, directory) := Judged(r, e);
      var chain := above + [path];
      var first := [Visit(path, directory, chain)];
      var inner := if e.Dir? then Preorder(r, e.children, chain) else [];
      KeepIsSelect(r, entries[1..], above);
      SelectConcat(r, first + inner, Preorder(r, entries[1..], above));
      SelectConcat(r, first, inner);
      Assoc(Select(r, first), Select(r, inner), Keep(r, entries[1..], |above|));
      WantedIsListed(r, e, above);
      if e.Dir? {
        if Listed(r, e, |above|) {
          KeepIsSelect(r, e.children, chain);
        } else {
          if r.ignored(path) { assert r.ignored(chain[|above|]); }
          NothingBelow(r, e.children, chain);
        }
      }
    }
  }

  // ---------------------------------------------------------------- the whole list

  /** One level; the flat mode has no depth limit. */
  function Flat(r: Rules, entries: seq<Entry>): seq<Path> {
    if entries == [] then []
    else Flat(r, entries[..|entries| - 1]) + Listing(r.(maxDepth := 0), entries[|entries| - 1], 0)
  }

  /** One of the entries shows the path, at no particular depth. */
  ghost predicate FlatFinds(r: Rules, entries: seq<Entry>, p: Path) {
    exists i :: 0 <= i < |entries| && Shows(r.(maxDepth := 0), entries[i], 0, p)
  }

  /** The directory_iterator loop of the flat mode. */
  method WalkFlat(r: Rules, entries: seq<Entry>) returns (result: seq<Path>)
    ensures result == Flat(r, entries)
    ensures forall p :: p in result <==> FlatFinds(r, entries, p)
  {
    result := [];
    for i := 0 to |entries|
      invariant result == Flat(r, entries[..i])
    {
      assert entries[..i + 1][..i] == entries[..i];
      var e := entries[i];
      var p := e.path;
      if e.Link? {
        var inside := false;
        if e.target.Some? {
          inside := WithinRoot(r.root, e.target.value.path);
        }
        if !inside {
          continue;
        }
        p := e.target.value.path;
      }
      if !(e.Dir? || (e.Link? && e.target.value.directory)) {
        continue;
      }
      if r.ignored(p) {
        continue;
      }
      result := result + [p];
    }
    assert entries[..|entries|] == entries;
    forall p ensures p in result <==> FlatFinds(r, entries, p) {
      FlatShows(r, entries, p);
    }
  }

  lemma {:induction false} FlatShows(r: Rules, entries: seq<Entry>, p: Path)
    ensures p in Flat(r, entries) <==> FlatFinds(r, entries, p)
  {
    if entries != [] {
      var n := |entries| - 1;
      FlatShows(r, entries[..n], p);
      ListingShows(r.(maxDepth := 0), entries[n], 0, p);
      if FlatFinds(r, entries[..n], p) {
        var i :| 0 <= i < n && Shows(r.(maxDepth := 0), entries[..n][i], 0, p);
        assert entries[i] == entries[..n][i];
      }
      if i :| 0 <= i < |entries| && Shows(r.(maxDepth := 0), entries[i], 0, p) {
        if i < n { assert entries[..n][i] == entries[i]; }
      }
    }
  }

  lemma {:induction false} FlatSplit(r: Rules, entries: seq<Entry>)
    requires entries != []
    ensures Flat(r, entries) == Listing(r.(maxDepth := 0), entries[0], 0) + Flat(r, entries[1..])
  {
    var n := |entries| - 1;
    if n == 0 {
      assert Flat(r, entries[..0]) == [] && Flat(r, entries[1..]) == [];
    } else {
      FlatSplit(r, entries[..n]);
      assert entries[..n][1..] == entries[1..][..n - 1];
      Assoc(Listing(r.(maxDepth := 0), entries[0], 0), Flat(r, entries[1..][..n - 1]),
            Listing(r.(maxDepth := 0), entries[n], 0));
    }
  }

  /** The flat mode is the recursive mode with a depth limit of one. */
  lemma {:induction false} FlatIsDepthOne(r: Rules, entries: seq<Entry>)
    ensures Flat(r, entries) == Keep(r.(maxDepth := 1), entries, 0)
  {
    if entries != [] {
      var one := r.(maxDepth := 1);
      FlatSplit(r, entries);
      FlatIsDepthOne(r, entries[1..]);
      if entries[0].Dir? { KeepTooDeep(one, entries[0].children, 1); }
      assert Judged(r, entries[0]) == Judged(one, entries[0]) == Judged(r.(maxDepth := 0), entries[0]);
      assert [] + Keep(one, entries[1..], 0) == Keep(one, entries[1..], 0);
    }
  }

  lemma {:induction false} KeepTooDeep(r: Rules, entries: seq<Entry>, depth: nat)
    requires TooDeep(r, depth)
    ensures Keep(r, entries, depth) == []
  {
    if entries != [] { KeepTooDeep(r, entries[1..], depth); }
  }

  /** A root argument: None for an empty path. */
  datatype Root = Root(canonical: Path, entries: seq<Entry>)

  function RulesFor(root: Root, ignored: Path -> bool, recursive: bool, maxDepth: nat): Rules {
    Rules(root.canonical, ignored, if recursive then maxDepth else 1)
  }

  /** The wanted directories of every root, root by root. */
  function RepoList(roots: seq<Option<Root>>, ignored: Path -> bool, recursive: bool, maxDepth: nat): seq<Path> {
    if roots == [] then []
    else
      var n := |roots| - 1;
      RepoList(roots[..n], ignored, recursive, maxDepth) +
      if roots[n].None? then []
      else Select(RulesFor(roots[n].value, ignored, recursive, maxDepth),
                  Preorder(RulesFor(roots[n].value, ignored, recursive, maxDepth), roots[n].value.entries, []))
  }

  /** The i-th root is not empty and its walk finds the path. */
  ghost predicate FoundAt(roots: seq<Option<Root>>, i: nat, ignored: Path -> bool, recursive: bool, maxDepth: nat, p: Path)
    requires i < |roots|
  {
    roots[i].Some? &&
    var root := roots[i].value;
    if recursive then Finds(Rules(root.canonical, ignored, maxDepth), root.entries, 0, p)
    else FlatFinds(Rules(root.canonical, ignored, maxDepth), root.entries, p)
  }

  /** In any mode the walk of a root finds directories inside it only. */
  lemma FoundInside(roots: seq<Option<Root>>, i: nat, ignored: Path -> bool, recursive: bool, maxDepth: nat, p: Path)
    requires i < |roots| && FoundAt(roots, i, ignored, recursive, maxDepth, p)
    requires TreeUnder(roots[i].value.canonical, roots[i].value.entries)
    ensures roots[i].value.canonical.parts <= p.parts
  {
    var root := roots[i].value;
    var r := Rules(root.canonical, ignored, maxDepth);
    if recursive {
      KeepFinds(r, root.entries, 0, p);
      KeepStaysInside(r, root.entries, 0);
    } else {
      FlatShows(r, root.entries, p);
      FlatIsDepthOne(r, root.entries);
      KeepStaysInside(r.(maxDepth := 1), root.entries, 0);
    }
  }

  ghost predicate FoundBelow(roots: seq<Option<Root>>, n: nat, ignored: Path -> bool, recursive: bool, maxDepth: nat, p: Path)
    requires n <= |roots|
  {
    exists i :: 0 <= i < n && FoundAt(roots, i, ignored, recursive, maxDepth, p)
  }

  lemma RepoListFinds(roots: seq<Option<Root>>, ignored: Path -> bool, recursive: bool, maxDepth: nat, p: Path)
    ensures p in RepoList(roots, ignored, recursive, maxDepth) <==> FoundBelow(roots, |roots|, ignored, recursive, maxDepth, p)
  {
    for i := 0 to |roots|
      invariant p in RepoList(roots[..i], ignored, recursive, maxDepth) <==> FoundBelow(roots, i, ignored, recursive, maxDepth, p)
    {
      RepoListNext(roots, i, ignored, recursive, maxDepth, p);
    }
    assert roots[..|roots|] == roots;
  }

  lemma RepoListNext(roots: seq<Option<Root>>, i: nat, ignored: Path -> bool, recursive: bool, maxDepth: nat, p: Path)
    requires i < |roots|
    requires p in RepoList(roots[..i], ignored, recursive, maxDepth) <==> FoundBelow(roots, i, ignored, recursive, maxDepth, p)
    ensures p in RepoList(roots[..i + 1], ignored, recursive, maxDepth) <==>
            FoundBelow(roots, i + 1, ignored, recursive, maxDepth, p)
  {
    assert roots[..i + 1][..i] == roots[..i];
    if roots[i].Some? { RootFinds(roots, i, ignored, recursive, maxDepth, p); }
    FoundNext(roots, i, ignored, recursive, maxDepth, p);
  }

  lemma FoundNext(roots: seq<Option<Root>>, i: nat, ignored: Path -> bool, recursive: bool, maxDepth: nat, p: Path)
    requires i < |roots|
    ensures FoundBelow(roots, i + 1, ignored, recursive, maxDepth, p) <==>
            FoundBelow(roots, i, ignored, recursive, maxDepth, p) || FoundAt(roots, i, ignored, recursive, maxDepth, p)
  {
  }

  lemma RootFinds(roots: seq<Option<Root>>, i: nat, ignored: Path -> bool, recursive: bool, maxDepth: nat, p: Path)
    requires i < |roots| && roots[i].Some?
    ensures var r := RulesFor(roots[i].value, ignored, recursive, maxDepth);
            p in Select(r, Preorder(r, roots[i].value.entries, [])) <==> FoundAt(roots, i, ignored, recursive, maxDepth, p)
  {
    var root := roots[i].value;
    KeepIsSelect(RulesFor(root, ignored, recursive, maxDepth), root.entries, []);
    if recursive {
      KeepFinds(Rules(root.canonical, ignored, maxDepth), root.entries, 0, p);
    } else {
      FlatIsDepthOne(Rules(root.canonical, ignored, maxDepth), root.entries);
      FlatShows(Rules(root.canonical, ignored, maxDepth), root.entries, p);
    }
  }

  /** No root has a real directory outside itself. */
  ghost predicate TreesUnder(roots: seq<Option<Root>>) {
    forall i :: 0 <= i < |roots| && roots[i].Some? ==> TreeUnder(roots[i].value.canonical, roots[i].value.entries)
  }

  ghost predicate UnderSome(roots: seq<Option<Root>>, p: Path) {
    exists i :: 0 <= i < |roots| && roots[i].Some? && roots[i].value.canonical.parts <= p.parts
  }

  lemma FoundUnderSome(roots: seq<Option<Root>>, ignored: Path -> bool, recursive: bool, maxDepth: nat, p: Path)
    requires TreesUnder(roots) && FoundBelow(roots, |roots|, ignored, recursive, maxDepth, p)
    ensures UnderSome(roots, p)
  {
    var i :| 0 <= i < |roots| && FoundAt(roots, i, ignored, recursive, maxDepth, p);
    FoundInside(roots, i, ignored, recursive, maxDepth, p);
  }

  /** build_repo_list: every path it lists is found under some root, and all of these are listed. */
  method BuildRepoList(roots: seq<Option<Root>>, ignored: Path -> bool, recursive: bool, maxDepth: nat)
    returns (result: seq<Path>)
    ensures result == RepoList(roots, ignored, recursive, maxDepth)
    ensures forall p :: p in result <==> FoundBelow(roots, |roots|, ignored, recursive, maxDepth, p)
    ensures TreesUnder(roots) ==> forall p :: p in result ==> UnderSome(roots, p)
  {
    result := [];
    for i := 0 to |roots|
      invariant result == RepoList(roots[..i], ignored, recursive, maxDepth)
    {
      assert roots[..i + 1][..i] == roots[..i];
      if roots[i].Some? {
        var root := roots[i].value;
        var found;
        if recursive {
          found := WalkRecursive(Rules(root.canonical, ignored, maxDepth), root.entries);
        } else {
          found := WalkFlat(Rules(root.canonical, ignored, maxDepth), root.entries);
          FlatIsDepthOne(Rules(root.canonical, ignored, maxDepth), root.entries);
          KeepIsSelect(RulesFor(root, ignored, recursive, maxDepth), root.entries, []);
        }
        result := result + found;
      }
    }
    assert roots[..|roots|] == roots;
    forall p ensures p in result <==> FoundBelow(roots, |roots|, ignored, recursive, maxDepth, p) {
      RepoListFinds(roots, ignored, recursive, maxDepth, p);
    }
    if TreesUnder(roots) {
      forall p | p in result ensures UnderSome(roots, p) {
        FoundUnderSome(roots, ignored, recursive, maxDepth, p);
      }
    }
  }
}
