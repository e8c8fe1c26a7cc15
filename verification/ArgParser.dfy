/**
 * The command-line parser of include/arg_parser.hpp: long options with values,
 * clusters of short options with look-ahead, and filtering by known names.
 *
 * What the tokens mean is a list of findings that does not depend on the known
 * names; the parser's containers are what it collects from that list.
 */
module ArgParsing {
  import opened Basics

  type Shorts = map<char, string>

  /** One thing found on the command line. */
  datatype Finding =
    | Valued(key: string, value: string)
    | Bare(key: string)
    | BadShort(text: string)
    | Positional(arg: string)

  predicate IsLong(arg: string) { "--" <= arg }

  predicate Dashed(arg: string) { "-" <= arg }

  predicate IsShort(arg: string) { Dashed(arg) && !IsLong(arg) && |arg| >= 2 }

  /** std::string::find; the length when there is none. */
  function Find(s: string, c: char): (i: nat)
    ensures i <= |s| && (i < |s| ==> s[i] == c) && (c in s <==> i < |s|)
    ensures forall j :: 0 <= j < i ==> s[j] != c
  {
    if s == "" then 0 else if s[0] == c then 0 else Find(s[1..], c) + 1
  }

  function Before(arg: string): string
    requires IsShort(arg)
  {
    if '=' in arg && Find(arg, '=') >= 1 then arg[1..Find(arg, '=')] else arg[1..]
  }

  function After(arg: string): string {
    if '=' in arg then arg[Find(arg, '=') + 1..] else ""
  }

  /** What is found in one token, and whether the next one was taken as a value. */
  datatype Reading = Reading(found: seq<Finding>, tookNext: bool)

  /** A run of short options: all but the last take the rest of the run as value if it is no option. */
  function ReadCluster(run: string, after: string, next: Option<string>, shorts: Shorts): (r: Reading)
    ensures r.tookNext ==> next.Some?
  {
    if run == "" || run[0] !in shorts then Reading([], false)
    else
      var key := shorts[run[0]];
      if |run| == 1 then
        if after != "" then Reading([Valued(key, after)], false)
        else if next.Some? && !Dashed(next.value) then
          Reading([if next.value != "" then Valued(key, next.value) else Bare(key)], true)
        else Reading([Bare(key)], false)
      else if run[1] !in shorts then Reading([Valued(key, run[1..] + after)], false)
      else
        var rest := ReadCluster(run[1..], after, next, shorts);
        Reading([Bare(key)] + rest.found, rest.tookNext)
  }

  function Head(args: seq<string>): Option<string> {
    if args == [] then None else Some(args[0])
  }

  function ReadToken(arg: string, next: Option<string>, shorts: Shorts): (r: Reading)
    ensures r.tookNext ==> next.Some?
  {
    if IsLong(arg) then
      if '=' in arg then Reading([Valued(arg[..Find(arg, '=')], arg[Find(arg, '=') + 1..])], false)
      else if next.Some? && !IsLong(next.value) then Reading([Valued(arg, next.value)], true)
      else Reading([Bare(arg)], false)
    else if IsShort(arg) then
      if arg[1] !in shorts then Reading([BadShort("-" + [arg[1]])], false)
      else ReadCluster(Before(arg), After(arg), next, shorts)
    else Reading([Positional(arg)], false)
  }

  /** Everything found in the tokens after the program name. */
  function Findings(args: seq<string>, shorts: Shorts): seq<Finding>
    decreases |args|
  {
    if args == [] then []
    else
      var t := ReadToken(args[0], Head(args[1..]), shorts);
      t.found + Findings(if t.tookNext then args[2..] else args[1..], shorts)
  }

  // ---------------------------------------------------------------- collecting

  datatype Parsed = Parsed(
    flags: set<string>,
    options: map<string, string>,
    multi: map<string, seq<string>>,
    positional: seq<string>,
    unknown: seq<string>)

  const NOTHING := Parsed({}, map[], map[], [], [])

  predicate Accepts(known: set<string>, key: string) { known == {} || key in known }

  function Values(multi: map<string, seq<string>>, key: string): seq<string> {
    if key in multi then multi[key] else []
  }

  function Record(p: Parsed, f: Finding, known: set<string>): Parsed {
    match f
    case Valued(key, value) =>
      if Accepts(known, key) then
        p.(flags := p.flags + {key}, options := p.options[key := value],
           multi := p.multi[key := Values(p.multi, key) + [value]])
      else p.(unknown := p.unknown + [key])
    case Bare(key) =>
      if Accepts(known, key) then p.(flags := p.flags + {key}) else p.(unknown := p.unknown + [key])
    case BadShort(text) => p.(unknown := p.unknown + [text])
    case Positional(arg) => p.(positional := p.positional + [arg])
  }

  function Collect(p: Parsed, found: seq<Finding>, known: set<string>): Parsed
    decreases |found|
  {
    if found == [] then p else Collect(Record(p, found[0], known), found[1..], known)
  }

  function Parse(args: seq<string>, known: set<string>, shorts: Shorts): Parsed {
    Collect(NOTHING, Findings(args, shorts), known)
  }

  lemma {:induction false} CollectConcat(p: Parsed, a: seq<Finding>, b: seq<Finding>, known: set<string>)
    ensures Collect(p, a + b, known) == Collect(Collect(p, a, known), b, known)
    decreases |a|
  {
    if a == [] {
      assert a + b == b;
    } else {
      assert (a + b)[1..] == a[1..] + b;
      CollectConcat(Record(p, a[0], known), a[1..], b, known);
    }
  }

  // ---------------------------------------------------------------- the parser

  class ArgParser {
    var flags: set<string>
    var options: map<string, string>
    var multiOptions: map<string, seq<string>>
    var positional: seq<string>
    var unknownFlags: seq<string>
    const knownFlags: set<string>
    const shortMap: Shorts

    ghost function View(): Parsed
      reads this
    {
      Parsed(flags, options, multiOptions, positional, unknownFlags)
    }

    constructor (argv: seq<string>, knownFlags: set<string>, shortMap: Shorts)
      ensures this.knownFlags == knownFlags && this.shortMap == shortMap
      ensures View() == Parse(if argv == [] then [] else argv[1..], knownFlags, shortMap)
    {
      this.knownFlags, this.shortMap := knownFlags, shortMap;
      flags, options, multiOptions, positional, unknownFlags := {}, map[], map[], [], [];
      new;
      var i := 1;
      ghost var goal := Parse(if argv == [] then [] else argv[1..], knownFlags, shortMap);
      while i < |argv|
        invariant 1 <= i && (argv != [] ==> i <= |argv|)
        invariant this.knownFlags == knownFlags && this.shortMap == shortMap
        invariant argv == [] ==> View() == goal
        invariant argv != [] ==> Collect(View(), Findings(argv[i..], shortMap), knownFlags) == goal
        decreases |argv| - i
      {
        assert argv[i..][1..] == argv[i + 1..];
        assert i + 1 < |argv| ==> argv[i..][2..] == argv[i + 2..];
        ghost var before := View();
        var next := if i + 1 < |argv| then Some(argv[i + 1]) else None;
        var took := Token(argv[i], next);
        i := i + if took then 2 else 1;
        CollectConcat(before, ReadToken(argv[i - if took then 2 else 1], next, shortMap).found,
                      Findings(argv[i..], shortMap), knownFlags);
      }
    }

    /** One turn of the loop; true when the next token was taken as a value. */
    method Token(arg: string, next: Option<string>) returns (took: bool)
      modifies this
      ensures took == ReadToken(arg, next, shortMap).tookNext
      ensures View() == Collect(old(View()), ReadToken(arg, next, shortMap).found, knownFlags)
    {
      took := false;
      if IsLong(arg) {
        var eq := Find(arg, '=');
        if eq < |arg| {
          Add(arg[..eq], Some(arg[eq + 1..]));
        } else if next.Some? && !IsLong(next.value) {
          Add(arg, next);
          took := true;
        } else {
          Add(arg, None);
        }
      } else if Dashed(arg) && |arg| >= 2 {
        if arg[1] !in shortMap {
          unknownFlags := unknownFlags + ["-" + [arg[1]]];
          return;
        }
        took := Run(Before(arg), After(arg), next);
      } else {
        positional := positional + [arg];
      }
    }

    /** The inner loop over a run of short options. */
    method Run(before: string, after: string, next: Option<string>) returns (took: bool)
      modifies this
      ensures took ==> next.Some?
      ensures var c := ReadCluster(before, after, next, shortMap);
              took == c.tookNext && View() == Collect(old(View()), c.found, knownFlags)
    {
      took := false;
      var j := 0;
      ghost var goal := ReadCluster(before, after, next, shortMap);
      while j < |before|
        invariant 0 <= j <= |before| && !took
        invariant Collect(View(), ReadCluster(before[j..], after, next, shortMap).found, knownFlags)
                  == Collect(old(View()), goal.found, knownFlags)
        invariant ReadCluster(before[j..], after, next, shortMap).tookNext == goal.tookNext
        decreases |before| - j
      {
        ghost var run := before[j..];
        assert run[1..] == before[j + 1..];
        var c := before[j];
        if c !in shortMap {
          break;
        }
        var key := shortMap[c];
        var val := "";
        var stop := false;
        if j == |before| - 1 {
          if after != "" {
            val := after;
          } else if next.Some? && !Dashed(next.value) {
            val := next.value;
            took := true;
          }
          stop := true;
        } else if before[j + 1] !in shortMap {
          val := before[j + 1..];
          if after != "" {
            val := val + after;
          }
          assert run[1..] + after == val;
          stop := true;
        }
        if val != "" {
          assert ReadCluster(run, after, next, shortMap).found == [Valued(key, val)];
          Add(key, Some(val));
          return;
        }
        ghost var found := ReadCluster(run, after, next, shortMap).found;
        assert found[0] == Bare(key);
        Add(key, None);
        if stop {
          assert found == [Bare(key)];
          return;
        }
        assert found[1..] == ReadCluster(before[j + 1..], after, next, shortMap).found;
        j := j + 1;
      }
    }

    /** Records an option with or without a value, or an unknown name. */
    method Add(key: string, value: Option<string>)
      modifies this`flags, this`options, this`multiOptions, this`unknownFlags
      ensures View() == Record(old(View()), if value.Some? then Valued(key, value.value) else Bare(key), knownFlags)
    {
      if knownFlags == {} || key in knownFlags {
        flags := flags + {key};
        if value.Some? {
          options := options[key := value.value];
          multiOptions := multiOptions[key := (if key in multiOptions then multiOptions[key] else []) + [value.value]];
        }
      } else {
        unknownFlags := unknownFlags + [key];
      }
    }

    function GetOption(opt: string): (r: string)
      reads this
    {
      if opt in options then options[opt] else ""
    }
  }

  // ---------------------------------------------------------------- known names only filter

  /** q is p with the names outside K taken out of everything but the positionals. */
  ghost predicate IsFiltered(p: Parsed, q: Parsed, known: set<string>) {
    && q.flags == p.flags * known
    && q.options == (map k | k in p.options && k in known :: p.options[k])
    && q.multi == (map k | k in p.multi && k in known :: p.multi[k])
    && q.positional == p.positional
  }

  lemma RecordFiltered(p: Parsed, q: Parsed, f: Finding, known: set<string>)
    requires known != {} && IsFiltered(p, q, known)
    ensures IsFiltered(Record(p, f, {}), Record(q, f, known), known)
  {
    if f.Valued? {
      ValuedFiltered(p, q, f, known);
    }
  }

  lemma ValuedFiltered(p: Parsed, q: Parsed, f: Finding, known: set<string>)
    requires known != {} && IsFiltered(p, q, known) && f.Valued?
    ensures IsFiltered(Record(p, f, {}), Record(q, f, known), known)
  {
    var p2, q2 := Record(p, f, {}), Record(q, f, known);
    assert f.key in known ==> Values(p.multi, f.key) == Values(q.multi, f.key);
    assert q2.flags == p2.flags * known;
    assert q2.options == (map k | k in p2.options && k in known :: p2.options[k]);
    assert q2.multi == (map k | k in p2.multi && k in known :: p2.multi[k]);
  }

  lemma {:induction false} CollectFiltered(p: Parsed, q: Parsed, found: seq<Finding>, known: set<string>)
    requires known != {} && IsFiltered(p, q, known)
    ensures IsFiltered(Collect(p, found, {}), Collect(q, found, known), known)
    decreases |found|
  {
    if found != [] {
      RecordFiltered(p, q, found[0], known);
      CollectFiltered(Record(p, found[0], {}), Record(q, found[0], known), found[1..], known);
    }
  }

  /**
   * Filtering by known names commutes with parsing: same positionals, and
   * flags, options and repeated options are those of the unfiltered parse
   * restricted to the known names.
   */
  lemma KnownNamesOnlyFilter(args: seq<string>, known: set<string>, shorts: Shorts)
    requires known != {}
    ensures IsFiltered(Parse(args, {}, shorts), Parse(args, known, shorts), known)
  {
    CollectFiltered(NOTHING, NOTHING, Findings(args, shorts), known);
  }

  /** The value of an option is the last of its repeated values; every option is a flag. */
  ghost predicate LastWins(p: Parsed) {
    && p.options.Keys == p.multi.Keys
    && p.options.Keys <= p.flags
    && forall k :: k in p.options ==> p.multi[k] != [] && p.options[k] == p.multi[k][|p.multi[k]| - 1]
  }

  lemma {:induction false} CollectLastWins(p: Parsed, found: seq<Finding>, known: set<string>)
    requires LastWins(p)
    ensures LastWins(Collect(p, found, known))
    decreases |found|
  {
    if found != [] {
      CollectLastWins(Record(p, found[0], known), found[1..], known);
    }
  }

  lemma OptionIsLastValue(args: seq<string>, known: set<string>, shorts: Shorts)
    ensures LastWins(Parse(args, known, shorts))
  {
    CollectLastWins(NOTHING, Findings(args, shorts), known);
  }

  /** Every name found is in the flags or, when it is not known, among the unknown ones: nothing is dropped. */
  lemma {:induction false} NothingIsDropped(p: Parsed, found: seq<Finding>, known: set<string>)
    ensures var r := Collect(p, found, known);
            && p.flags <= r.flags && (forall k :: k in p.unknown ==> k in r.unknown)
            && forall f :: f in found ==>
                 match f
                 case Positional(arg) => arg in r.positional
                 case BadShort(text) => text in r.unknown
                 case Valued(key, _) => if Accepts(known, key) then key in r.flags else key in r.unknown
                 case Bare(key) => if Accepts(known, key) then key in r.flags else key in r.unknown
    ensures forall a :: a in p.positional ==> a in Collect(p, found, known).positional
    decreases |found|
  {
    if found != [] {
      NothingIsDropped(Record(p, found[0], known), found[1..], known);
      forall f | f in found ensures f == found[0] || f in found[1..] { }
    }
  }

  // ---------------------------------------------------------------- several parsers on one command line

  /** Without short tokens the short map does not matter. */
  lemma {:induction false} ShortMapIrrelevant(args: seq<string>, s1: Shorts, s2: Shorts)
    requires forall i :: 0 <= i < |args| ==> !IsShort(args[i])
    ensures Findings(args, s1) == Findings(args, s2)
    decreases |args|
  {
    if args != [] {
      ShortMapIrrelevant(args[1..], s1, s2);
      if |args| > 1 { ShortMapIrrelevant(args[2..], s1, s2); }
    }
  }

  /**
   * The pre-parse, the auto-parse and the final parse of one command line
   * without short tokens agree on every name they share, and on all positionals.
   */
  lemma ParsersAgree(args: seq<string>, k1: set<string>, s1: Shorts, k2: set<string>, s2: Shorts, key: string)
    requires forall i :: 0 <= i < |args| ==> !IsShort(args[i])
    requires k1 != {} && k2 != {} && key in k1 && key in k2
    ensures var p, q := Parse(args, k1, s1), Parse(args, k2, s2);
            && (key in p.flags <==> key in q.flags)
            && (key in p.options <==> key in q.options)
            && (key in p.options && key in q.options ==> p.options[key] == q.options[key])
            && Values(p.multi, key) == Values(q.multi, key)
            && p.positional == q.positional
  {
    ShortMapIrrelevant(args, s1, s2);
    KnownNamesOnlyFilter(args, k1, s1);
    KnownNamesOnlyFilter(args, k2, s2);
    OptionIsLastValue(args, k1, s1);
    OptionIsLastValue(args, k2, s2);
    var all, p, q := Parse(args, {}, s1), Parse(args, k1, s1), Parse(args, k2, s2);
    assert key in p.flags <==> key in all.flags;
    assert key in p.options <==> key in all.options;
  }

  // ---------------------------------------------------------------- what a spelling records

  lemma LastTokens(args: seq<string>, shorts: Shorts)
    requires args != []
    ensures var t := ReadToken(args[0], Head(args[1..]), shorts);
            Findings(args, shorts) == t.found + Findings(if t.tookNext then args[2..] else args[1..], shorts)
  {
  }

  lemma LongWithEquals(key: string, value: string)
    requires IsLong(key) && '=' !in key
    ensures var arg := key + "=" + value;
            IsLong(arg) && '=' in arg && arg[..Find(arg, '=')] == key && arg[Find(arg, '=') + 1..] == value
  {
    var arg := key + "=" + value;
    assert arg[|key|] == '=';
    assert forall i :: 0 <= i < |key| ==> arg[i] == key[i];
    assert Find(arg, '=') == |key|;
  }

  /** `--key=value` records the value, and the parse goes on behind it. */
  lemma LongEqualsValue(key: string, value: string, rest: seq<string>, shorts: Shorts)
    requires IsLong(key) && '=' !in key
    ensures Findings([key + "=" + value] + rest, shorts) == [Valued(key, value)] + Findings(rest, shorts)
  {
    var args := [key + "=" + value] + rest;
    LongWithEquals(key, value);
    LastTokens(args, shorts);
    assert args[1..] == rest;
  }

  /** `--key value` does the same, whatever the value is but another long option. */
  lemma LongTakesNext(key: string, value: string, rest: seq<string>, shorts: Shorts)
    requires IsLong(key) && '=' !in key && !IsLong(value)
    ensures Findings([key, value] + rest, shorts) == [Valued(key, value)] + Findings(rest, shorts)
  {
    var args := [key, value] + rest;
    LastTokens(args, shorts);
    assert args[1..][0] == value && args[2..] == rest;
  }

  /** `--key` before another long option or at the end is a flag. */
  lemma LongFlag(key: string, rest: seq<string>, shorts: Shorts)
    requires IsLong(key) && '=' !in key && (rest == [] || IsLong(rest[0]))
    ensures Findings([key] + rest, shorts) == [Bare(key)] + Findings(rest, shorts)
  {
    var args := [key] + rest;
    LastTokens(args, shorts);
    assert args[1..] == rest;
  }

  /** The two spellings of a long option leave the parser in the same state. */
  lemma SpellingsAgree(key: string, value: string, rest: seq<string>, known: set<string>, shorts: Shorts)
    requires IsLong(key) && '=' !in key && !IsLong(value)
    ensures Parse([key, value] + rest, known, shorts) == Parse([key + "=" + value] + rest, known, shorts)
  {
    LongTakesNext(key, value, rest, shorts);
    LongEqualsValue(key, value, rest, shorts);
  }

  /** A token that does not start with a dash, and a lone dash, are positional. */
  lemma PlainToken(arg: string, rest: seq<string>, shorts: Shorts)
    requires arg == "" || arg[0] != '-' || arg == "-"
    ensures Findings([arg] + rest, shorts) == [Positional(arg)] + Findings(rest, shorts)
  {
    var args := [arg] + rest;
    LastTokens(args, shorts);
    assert args[1..] == rest;
  }

  /** A letter of its own, as an option can use it. */
  predicate Letter(c: char) { c != '-' && c != '=' }

  /** `-cTEXT=AFTER` falls apart into the run and what follows the first equals sign. */
  lemma ShortParts(c: char, text: string, after: string)
    requires Letter(c) && '=' !in text
    ensures var plain, full := "-" + ([c] + text), "-" + ([c] + text) + "=" + after;
            && IsShort(plain) && plain[1] == c && Before(plain) == [c] + text && After(plain) == ""
            && IsShort(full) && full[1] == c && Before(full) == [c] + text && After(full) == after
  {
    var run := [c] + text;
    var plain, full := "-" + run, "-" + run + "=" + after;
    assert plain[0] == '-' && plain[1] == c && plain[1..] == run;
    assert forall i :: 0 < i < |plain| ==> plain[i] == run[i - 1];
    assert forall i :: 0 < i < |run| ==> run[i] == text[i - 1];
    assert '=' !in plain;
    assert full[|plain|] == '=' && forall i :: 0 <= i < |plain| ==> full[i] == plain[i];
    assert Find(full, '=') == |plain|;
    assert full[1..|plain|] == run && full[|plain| + 1..] == after;
  }

  /** `-c value`, unless the value starts with a dash; an empty one is swallowed and leaves a flag. */
  lemma ShortTakesNext(c: char, value: string, rest: seq<string>, shorts: Shorts)
    requires Letter(c) && c in shorts && (value == "" || value[0] != '-')
    ensures Findings(["-" + ([c] + ""), value] + rest, shorts) ==
            [if value != "" then Valued(shorts[c], value) else Bare(shorts[c])] + Findings(rest, shorts)
  {
    var args := ["-" + ([c] + ""), value] + rest;
    ShortParts(c, "", "");
    LastTokens(args, shorts);
    assert args[1..][0] == value && args[2..] == rest;
  }

  /** `-c` before a token that starts with a dash, or at the end, is a flag. */
  lemma ShortFlag(c: char, rest: seq<string>, shorts: Shorts)
    requires Letter(c) && c in shorts && (rest == [] || Dashed(rest[0]))
    ensures Findings(["-" + ([c] + "")] + rest, shorts) == [Bare(shorts[c])] + Findings(rest, shorts)
  {
    var args := ["-" + ([c] + "")] + rest;
    ShortParts(c, "", "");
    LastTokens(args, shorts);
    assert args[1..] == rest;
  }

  /** `-cTEXT`: if TEXT does not start with an option letter it is the value. */
  lemma ShortTakesRun(c: char, text: string, rest: seq<string>, shorts: Shorts)
    requires Letter(c) && c in shorts && text != "" && text[0] !in shorts && '=' !in text
    ensures Findings(["-" + ([c] + text)] + rest, shorts) == [Valued(shorts[c], text)] + Findings(rest, shorts)
  {
    var args := ["-" + ([c] + text)] + rest;
    ShortParts(c, text, "");
    LastTokens(args, shorts);
    assert args[1..] == rest && ([c] + text)[1..] == text && text + "" == text;
  }

  /** `-c=value`; and in `-cTEXT=value` the equals sign is lost between TEXT and value. */
  lemma ShortTakesEquals(c: char, text: string, value: string, rest: seq<string>, shorts: Shorts)
    requires Letter(c) && c in shorts && '=' !in text
    requires if text == "" then value != "" else text[0] !in shorts
    ensures Findings(["-" + ([c] + text) + "=" + value] + rest, shorts) ==
            [Valued(shorts[c], text + value)] + Findings(rest, shorts)
  {
    var args := ["-" + ([c] + text) + "=" + value] + rest;
    ShortParts(c, text, value);
    LastTokens(args, shorts);
    assert args[1..] == rest && ([c] + text)[1..] == text && "" + value == value;
  }

  /** A letter that is no option. */
  lemma ShortUnknown(c: char, text: string, rest: seq<string>, shorts: Shorts)
    requires Letter(c) && c !in shorts && '=' !in text
    ensures Findings(["-" + ([c] + text)] + rest, shorts) == [BadShort("-" + [c])] + Findings(rest, shorts)
  {
    var args := ["-" + ([c] + text)] + rest;
    ShortParts(c, text, "");
    LastTokens(args, shorts);
    assert args[1..] == rest;
  }

  /** What a first finding puts into empty containers, with and without known names. */
  lemma FirstRecord(f: Finding, known: set<string>)
    ensures Record(NOTHING, f, known) ==
            match f
            case Valued(key, value) =>
              if known == {} || key in known then Parsed({key}, map[key := value], map[key := [value]], [], [])
              else Parsed({}, map[], map[], [], [key])
            case Bare(key) =>
              if known == {} || key in known then Parsed({key}, map[], map[], [], []) else Parsed({}, map[], map[], [], [key])
            case BadShort(text) => Parsed({}, map[], map[], [], [text])
            case Positional(arg) => Parsed({}, map[], map[], [arg], [])
  {
    assert NOTHING.unknown == [] && NOTHING.positional == [] && NOTHING.flags == {} && NOTHING.options == map[];
    match f
    case Valued(key, value) =>
      assert {} + {key} == {key} && [] + [value] == [value] && [] + [key] == [key];
      assert map[][key := value] == map[key := value];
      assert Values(NOTHING.multi, key) == [];
      assert map[][key := [value]] == map[key := [value]];
    case Bare(key) => assert {} + {key} == {key} && [] + [key] == [key];
    case BadShort(text) => assert [] + [text] == [text];
    case Positional(arg) => assert [] + [arg] == [arg];
  }

  lemma CollectOne(p: Parsed, f: Finding, known: set<string>)
    ensures Collect(p, [f], known) == Record(p, f, known)
  {
    assert [f][1..] == [];
  }

  /** What a command line with a single finding records, in full. */
  lemma OneFinding(args: seq<string>, f: Finding, known: set<string>, shorts: Shorts)
    requires Findings(args, shorts) == [f]
    ensures Parse(args, known, shorts) ==
            match f
            case Valued(key, value) =>
              if known == {} || key in known then Parsed({key}, map[key := value], map[key := [value]], [], [])
              else Parsed({}, map[], map[], [], [key])
            case Bare(key) =>
              if known == {} || key in known then Parsed({key}, map[], map[], [], []) else Parsed({}, map[], map[], [], [key])
            case BadShort(text) => Parsed({}, map[], map[], [], [text])
            case Positional(arg) => Parsed({}, map[], map[], [arg], [])
  {
    CollectOne(NOTHING, f, known);
    FirstRecord(f, known);
  }

  lemma SecondRecord(key: string, v1: string, v2: string)
    ensures Record(Parsed({key}, map[key := v1], map[key := [v1]], [], []), Valued(key, v2), {}) ==
            Parsed({key}, map[key := v2], map[key := [v1, v2]], [], [])
  {
    var multi := map[key := [v1]];
    assert Values(multi, key) == [v1] && [v1] + [v2] == [v1, v2];
    assert multi[key := [v1, v2]] == map[key := [v1, v2]];
    assert map[key := v1][key := v2] == map[key := v2];
    assert {key} + {key} == {key};
  }

  lemma CollectTwo(p: Parsed, f: Finding, g: Finding, known: set<string>)
    ensures Collect(p, [f] + [g], known) == Record(Record(p, f, known), g, known)
  {
    var found := [f] + [g];
    assert found[0] == f && found[1..] == [g];
    CollectOne(Record(p, f, known), g, known);
  }

  /** A repeated option keeps all its values in order and answers with the last. */
  lemma RepeatedOption(key: string, v1: string, v2: string, shorts: Shorts)
    requires IsLong(key) && '=' !in key
    ensures Parse([key + "=" + v1] + [key + "=" + v2], {}, shorts) ==
            Parsed({key}, map[key := v2], map[key := [v1, v2]], [], [])
  {
    LongEqualsValue(key, v1, [key + "=" + v2], shorts);
    LongEqualsValue(key, v2, [], shorts);
    assert [key + "=" + v2] + [] == [key + "=" + v2];
    assert [Valued(key, v2)] + [] == [Valued(key, v2)];
    CollectTwo(NOTHING, Valued(key, v1), Valued(key, v2), {});
    FirstRecord(Valued(key, v1), {});
    SecondRecord(key, v1, v2);
  }

  // ---------------------------------------------------------------- clusters

  /** Mapped characters that can stand in a cluster of their own. */
  predicate Letters(run: string, shorts: Shorts) {
    forall i :: 0 <= i < |run| ==> run[i] in shorts && run[i] != '-' && run[i] != '='
  }

  function Exploded(run: string): seq<string> {
    if run == "" then [] else ["-" + [run[0]]] + Exploded(run[1..])
  }

  lemma ShortToken(run: string)
    requires run != "" && forall i :: 0 <= i < |run| ==> run[i] != '-' && run[i] != '='
    ensures var arg := "-" + run;
            IsShort(arg) && arg[1] == run[0] && Before(arg) == run && After(arg) == ""
  {
    var arg := "-" + run;
    assert arg[0] == '-' && arg[1] == run[0];
    assert arg[1..] == run;
    forall i | 0 <= i < |arg| ensures arg[i] != '=' {
      if i > 0 { assert arg[i] == run[i - 1]; }
    }
  }

  /** A token that starts a cluster, read with what follows it. */
  lemma ClusterToken(run: string, rest: seq<string>, shorts: Shorts)
    requires run != "" && Letters(run, shorts)
    ensures var c := ReadCluster(run, "", Head(rest), shorts);
            Findings(["-" + run] + rest, shorts) ==
            c.found + Findings(if c.tookNext then rest[1..] else rest, shorts)
  {
    ShortToken(run);
    var args := ["-" + run] + rest;
    assert args[1..] == rest;
    if rest != [] { assert args[2..] == rest[1..]; }
  }

  /** The first letter of a longer cluster is a bare option before the rest of it. */
  lemma ClusterUnrolls(run: string, rest: seq<string>, shorts: Shorts)
    requires |run| > 1 && Letters(run, shorts)
    ensures Findings(["-" + run] + rest, shorts) == [Bare(shorts[run[0]])] + Findings(["-" + run[1..]] + rest, shorts)
  {
    var tail := run[1..];
    assert run[1] in shorts && Letters(tail, shorts);
    ClusterToken(run, rest, shorts);
    ClusterToken(tail, rest, shorts);
    var c := ReadCluster(tail, "", Head(rest), shorts);
    Assoc([Bare(shorts[run[0]])], c.found, Findings(if c.tookNext then rest[1..] else rest, shorts));
  }

  lemma Assoc<T>(a: seq<T>, b: seq<T>, c: seq<T>)
    ensures (a + b) + c == a + (b + c)
  {
  }

  /** A single letter takes no value from a token that starts with a dash. */
  lemma LetterBeforeDash(letter: char, rest: seq<string>, shorts: Shorts)
    requires letter in shorts && Letters([letter], shorts) && rest != [] && Dashed(rest[0])
    ensures Findings(["-" + [letter]] + rest, shorts) == [Bare(shorts[letter])] + Findings(rest, shorts)
  {
    ClusterToken([letter], rest, shorts);
    assert ReadCluster([letter], "", Head(rest), shorts) == Reading([Bare(shorts[letter])], false);
  }

  /**
   * `-abc...` of mapped letters means exactly what the separate tokens `-a`,
   * `-b`, `-c`... mean, including the last one's look-ahead for a value and
   * everything that follows.
   */
  lemma {:induction false} ClusterExpands(run: string, rest: seq<string>, shorts: Shorts)
    requires run != "" && Letters(run, shorts)
    ensures Findings(["-" + run] + rest, shorts) == Findings(Exploded(run) + rest, shorts)
    decreases |run|
  {
    if |run| == 1 {
      assert run[1..] == "" && run == [run[0]];
      assert Exploded(run) == ["-" + run];
    } else {
      var tail := run[1..];
      var others := Exploded(tail) + rest;
      assert Exploded(run) + rest == ["-" + [run[0]]] + others;
      ClusterUnrolls(run, rest, shorts);
      ClusterExpands(tail, rest, shorts);
      assert others[0] == "-" + [tail[0]];
      LetterBeforeDash(run[0], others, shorts);
    }
  }

  /** So a parser with any known names ends in the same state on both spellings. */
  lemma ClusterParsesAlike(run: string, rest: seq<string>, known: set<string>, shorts: Shorts)
    requires run != "" && Letters(run, shorts)
    ensures Parse(["-" + run] + rest, known, shorts) == Parse(Exploded(run) + rest, known, shorts)
  {
    ClusterExpands(run, rest, shorts);
  }
}
