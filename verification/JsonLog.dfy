/**
 * The JSON line printer of src/logger.cpp (json_escape, format_extra_json and
 * the JSON branch of write_log_entry), with a decoder that inverts it.
 */
module JsonLog {
  import opened Basics

  datatype Record = Record(timestamp: string, level: string, msg: string, fields: seq<(string, string)>)

  /** The labels log_event passes; they are printed without escaping. */
  const LABELS := ["DEBUG", "INFO", "WARNING", "ERROR"]

  function EscapeChar(c: char): string {
    if c == '"' then "\\\""
    else if c == '\\' then "\\\\"
    else if c == '\n' then "\\n"
    else if c == '\r' then "\\r"
    else if c == '\t' then "\\t"
    else [c]
  }

  function Escape(s: string): string {
    if s == "" then "" else EscapeChar(s[0]) + Escape(s[1..])
  }

  const TIMESTAMP := "{\"timestamp\":\""
  const LEVEL := ",\"level\":\""
  const MSG := ",\"msg\":\""
  const KEY := ",\""
  const VALUE := ":\""
  const QUOTE := "\""

  /** `"k":"v"`. */
  function Pair(k: string, v: string): string {
    QUOTE + (Escape(k) + (QUOTE + (VALUE + (Escape(v) + QUOTE))))
  }

  /** The pairs separated by commas. */
  function Extras(fields: seq<(string, string)>): string {
    if fields == [] then ""
    else
      var n := |fields| - 1;
      Extras(fields[..n]) + ((if n == 0 then "" else ",") + Pair(fields[n].0, fields[n].1))
  }

  function Print(r: Record): string {
    TIMESTAMP + (Escape(r.timestamp) + (QUOTE + (LEVEL + (r.level + (QUOTE + (MSG + (Escape(r.msg) + (QUOTE +
    ((if r.fields == [] then "" else "," + Extras(r.fields)) + "}")))))))))
  }

  // ---------------------------------------------------------------- the printed text

  /** Two texts in front of a third, read as one. */
  lemma Glue(a: string, b: string, ab: string, c: string)
    requires a + b == ab
    ensures a + (b + c) == ab + c
  {
    Assoc(a, b, c);
  }

  /** The line, label by label. */
  lemma LineSpelledOut(ts: string, level: string, msg: string, fields: seq<(string, string)>)
    ensures Print(Record(ts, level, msg, fields)) ==
            "{\"timestamp\":\"" + (Escape(ts) + ("\",\"level\":\"" + (level + ("\",\"msg\":\"" + (Escape(msg) + ("\"" +
            ((if fields == [] then "" else "," + Extras(fields)) + "}")))))))
  {
    var end := (if fields == [] then "" else "," + Extras(fields)) + "}";
    var afterMsg := Escape(msg) + (QUOTE + end);
    Glue(QUOTE, MSG, "\",\"msg\":\"", afterMsg);
    Glue(QUOTE, LEVEL, "\",\"level\":\"", level + (QUOTE + (MSG + afterMsg)));
  }

  /** One field, and one more after others. */
  lemma FieldsSpelledOut(k: string, v: string, fields: seq<(string, string)>)
    ensures Extras([(k, v)]) == "\"" + (Escape(k) + ("\":\"" + (Escape(v) + "\"")))
    ensures fields != [] ==> Extras(fields + [(k, v)]) == Extras(fields) + ("," + Extras([(k, v)]))
  {
    var one, all := [(k, v)], fields + [(k, v)];
    assert one[..0] == [] && all[..|fields|] == fields;
    assert Extras([]) + ("" + Pair(k, v)) == Pair(k, v);
    Glue(QUOTE, VALUE, "\":\"", Escape(v) + QUOTE);
  }

  /** Quote, backslash, newline, return and tab become two characters each. */
  lemma EscapesSpelledOut()
    ensures Escape("\"") == "\\\"" && Escape("\\") == "\\\\"
    ensures Escape("\n") == "\\n" && Escape("\r") == "\\r" && Escape("\t") == "\\t"
  {
    assert "\""[1..] == "" && "\\"[1..] == "" && "\n"[1..] == "" && "\r"[1..] == "" && "\t"[1..] == "";
  }

  /** Escaping goes piece by piece. */
  lemma {:induction false} EscapeJoins(a: string, b: string)
    ensures Escape(a + b) == Escape(a) + Escape(b)
  {
    if a == "" {
      assert a + b == b;
    } else {
      assert (a + b)[1..] == a[1..] + b;
      EscapeJoins(a[1..], b);
      Assoc(EscapeChar(a[0]), Escape(a[1..]), Escape(b));
    }
  }

  // ---------------------------------------------------------------- the printer's loops

  lemma Assoc(a: string, b: string, c: string)
    ensures (a + b) + c == a + (b + c)
  {
  }

  lemma {:induction false} EscapeSnoc(s: string, c: char)
    ensures Escape(s + [c]) == Escape(s) + EscapeChar(c)
  {
    var t := s + [c];
    if s == "" {
      assert t[1..] == "";
    } else {
      assert t[1..] == s[1..] + [c];
      EscapeSnoc(s[1..], c);
      Assoc(EscapeChar(s[0]), Escape(s[1..]), EscapeChar(c));
    }
  }

  method JsonEscape(s: string) returns (out: string)
    ensures out == Escape(s)
  {
    out := "";
    for i := 0 to |s|
      invariant out == Escape(s[..i])
    {
      assert s[..i + 1] == s[..i] + [s[i]];
      EscapeSnoc(s[..i], s[i]);
      var c := s[i];
      if c == '"' {
        out := out + "\\\"";
      } else if c == '\\' {
        out := out + "\\\\";
      } else if c == '\n' {
        out := out + "\\n";
      } else if c == '\r' {
        out := out + "\\r";
      } else if c == '\t' {
        out := out + "\\t";
      } else {
        out := out + [c];
      }
    }
    assert s[..|s|] == s;
  }

  method FormatExtraJson(fields: seq<(string, string)>) returns (out: string)
    ensures out == Extras(fields)
  {
    if fields == [] {
      return "";
    }
    out := "";
    var first := true;
    for i := 0 to |fields|
      invariant out == Extras(fields[..i]) && first == (i == 0)
    {
      assert fields[..i + 1][..i] == fields[..i];
      ghost var before := out;
      if !first {
        out := out + ",";
      }
      var k := JsonEscape(fields[i].0);
      var v := JsonEscape(fields[i].1);
      var pair := QUOTE + (k + (QUOTE + (VALUE + (v + QUOTE))));
      Assoc(before, if first then "" else ",", pair);
      out := out + pair;
      first := false;
    }
    assert fields[..|fields|] == fields;
  }

  method FormatLine(r: Record) returns (line: string)
    ensures line == Print(r)
  {
    var ts := JsonEscape(r.timestamp);
    var msg := JsonEscape(r.msg);
    var extras := FormatExtraJson(r.fields);
    var end := "";
    if r.fields != [] {
      end := "," + extras;
    }
    line := TIMESTAMP + (ts + (QUOTE + (LEVEL + (r.level + (QUOTE + (MSG + (msg + (QUOTE + (end + "}")))))))));
  }

  // ---------------------------------------------------------------- the decoder

  datatype Decoded<T> = Bad | Good(value: T, rest: string)

  function Unescape(c: char): Option<char> {
    if c == '"' then Some('"')
    else if c == '\\' then Some('\\')
    else if c == 'n' then Some('\n')
    else if c == 'r' then Some('\r')
    else if c == 't' then Some('\t')
    else None
  }

  /** The contents of a string up to its closing quote. */
  function ReadString(text: string): Decoded<string> {
    if text == "" then Bad
    else if text[0] == '"' then Good("", text[1..])
    else if text[0] == '\\' then
      if |text| < 2 || Unescape(text[1]).None? then Bad
      else
        var tail := ReadString(text[2..]);
        if tail.Bad? then Bad else Good([Unescape(text[1]).value] + tail.value, tail.rest)
    else
      var tail := ReadString(text[1..]);
      if tail.Bad? then Bad else Good([text[0]] + tail.value, tail.rest)
  }

  /** A string after a fixed text that ends with its opening quote. */
  function ReadAfter(text: string, prefix: string): Decoded<string> {
    if prefix <= text then ReadString(text[|prefix|..]) else Bad
  }

  function ReadFields(text: string): Decoded<seq<(string, string)>>
    decreases |text|
  {
    if text == "}" then Good([], "")
    else
      var key := ReadAfter(text, KEY);
      if key.Bad? then Bad
      else
        var value := ReadAfter(key.rest, VALUE);
        if value.Bad? || |value.rest| >= |text| then Bad
        else
          var more := ReadFields(value.rest);
          if more.Bad? then Bad else Good([(key.value, value.value)] + more.value, more.rest)
  }

  function Decode(line: string): Option<Record> {
    var ts := ReadAfter(line, TIMESTAMP);
    if ts.Bad? then None
    else
      var level := ReadAfter(ts.rest, LEVEL);
      if level.Bad? then None
      else
        var msg := ReadAfter(level.rest, MSG);
        if msg.Bad? then None
        else
          var fields := ReadFields(msg.rest);
          if fields.Bad? then None else Some(Record(ts.value, level.value, msg.value, fields.value))
  }

  // ---------------------------------------------------------------- round trips

  lemma {:induction false} ReadEscaped(s: string, rest: string)
    ensures ReadString(Escape(s) + (QUOTE + rest)) == Good(s, rest)
  {
    var text := Escape(s) + (QUOTE + rest);
    if s == "" {
      assert text == QUOTE + rest && text[1..] == rest;
    } else {
      var tail := Escape(s[1..]) + (QUOTE + rest);
      ReadEscaped(s[1..], rest);
      Assoc(EscapeChar(s[0]), Escape(s[1..]), QUOTE + rest);
      ReadOne(s[0], tail);
      assert [s[0]] + s[1..] == s;
    }
  }

  lemma ReadOne(c: char, tail: string)
    ensures var one := ReadString(EscapeChar(c) + tail);
            one == match ReadString(tail)
                   case Bad => Bad
                   case Good(value, rest) => Good([c] + value, rest)
  {
    var text := EscapeChar(c) + tail;
    if |EscapeChar(c)| == 2 {
      assert text[2..] == tail;
    } else {
      assert text[1..] == tail;
    }
  }

  lemma ReadQuoted(prefix: string, s: string, rest: string)
    ensures ReadAfter(prefix + (Escape(s) + (QUOTE + rest)), prefix) == Good(s, rest)
  {
    assert (prefix + (Escape(s) + (QUOTE + rest)))[|prefix|..] == Escape(s) + (QUOTE + rest);
    ReadEscaped(s, rest);
  }

  /** The pairs, each after a comma. */
  function CommaPairs(fields: seq<(string, string)>): string {
    if fields == [] then "" else ("," + Pair(fields[0].0, fields[0].1)) + CommaPairs(fields[1..])
  }

  lemma {:induction false} CommaPairsSnoc(fields: seq<(string, string)>, f: (string, string))
    ensures CommaPairs(fields + [f]) == CommaPairs(fields) + ("," + Pair(f.0, f.1))
  {
    var all := fields + [f];
    if fields == [] {
      assert all[1..] == [];
    } else {
      assert all[1..] == fields[1..] + [f];
      CommaPairsSnoc(fields[1..], f);
      Assoc("," + Pair(fields[0].0, fields[0].1), CommaPairs(fields[1..]), "," + Pair(f.0, f.1));
    }
  }

  lemma {:induction false} ExtrasAreCommaPairs(fields: seq<(string, string)>)
    requires fields != []
    ensures "," + Extras(fields) == CommaPairs(fields)
  {
    var n := |fields| - 1;
    var last := Pair(fields[n].0, fields[n].1);
    assert fields == fields[..n] + [fields[n]];
    CommaPairsSnoc(fields[..n], fields[n]);
    if n == 0 {
      assert fields[..0] == [];
      assert "" + ("" + last) == last && "" + ("," + last) == "," + last;
    } else {
      ExtrasAreCommaPairs(fields[..n]);
      Assoc(",", Extras(fields[..n]), "," + last);
    }
  }

  lemma OpenPair(k: string, v: string, rest: string)
    ensures ("," + Pair(k, v)) + rest == KEY + (Escape(k) + (QUOTE + (VALUE + (Escape(v) + (QUOTE + rest)))))
  {
    var a := Escape(v) + QUOTE;
    Assoc(Escape(v), QUOTE, rest);
    Assoc(VALUE, a, rest);
    Assoc(QUOTE, VALUE + a, rest);
    Assoc(Escape(k), QUOTE + (VALUE + a), rest);
    Assoc(QUOTE, Escape(k) + (QUOTE + (VALUE + a)), rest);
    Assoc(",", Pair(k, v), rest);
    Assoc(",", QUOTE, (Escape(k) + (QUOTE + (VALUE + a))) + rest);
    assert "," + QUOTE == KEY;
  }

  lemma {:induction false} ReadPrintedFields(fields: seq<(string, string)>)
    ensures ReadFields(CommaPairs(fields) + "}") == Good(fields, "")
  {
    var text := CommaPairs(fields) + "}";
    if fields == [] {
      assert text == "}";
    } else {
      var (k, v) := fields[0];
      var rest := CommaPairs(fields[1..]) + "}";
      Assoc("," + Pair(k, v), CommaPairs(fields[1..]), "}");
      OpenPair(k, v, rest);
      var afterKey := VALUE + (Escape(v) + (QUOTE + rest));
      assert text == KEY + (Escape(k) + (QUOTE + afterKey));
      ReadQuoted(KEY, k, afterKey);
      ReadQuoted(VALUE, v, rest);
      ReadPrintedFields(fields[1..]);
      assert text[0] == ',';
      assert [(k, v)] + fields[1..] == fields;
    }
  }

  lemma LabelIsPlain(level: string)
    requires level in LABELS
    ensures Escape(level) == level
  {
    assert level == "DEBUG" || level == "INFO" || level == "WARNING" || level == "ERROR";
    EscapePlain(level);
  }

  predicate NeedsEscape(c: char) { c in "\"\\\n\r\t" }

  lemma {:induction false} EscapePlain(s: string)
    requires forall i :: 0 <= i < |s| ==> !NeedsEscape(s[i])
    ensures Escape(s) == s
  {
    if s != "" {
      EscapePlain(s[1..]);
      assert s == [s[0]] + s[1..];
    }
  }

  /** Every record is recovered from its printed line, whatever its strings hold. */
  lemma RoundTrip(r: Record)
    requires r.level in LABELS
    ensures Decode(Print(r)) == Some(r)
  {
    LabelIsPlain(r.level);
    var end := (if r.fields == [] then "" else "," + Extras(r.fields)) + "}";
    if r.fields != [] { ExtrasAreCommaPairs(r.fields); }
    ReadPrintedFields(r.fields);
    var afterLevel := MSG + (Escape(r.msg) + (QUOTE + end));
    var afterTs := LEVEL + (r.level + (QUOTE + afterLevel));
    ReadQuoted(TIMESTAMP, r.timestamp, afterTs);
    ReadQuoted(LEVEL, r.level, afterLevel);
    ReadQuoted(MSG, r.msg, end);
  }

  // ---------------------------------------------------------------- one record, one line

  predicate NoNewline(s: string) { '\n' !in s }

  lemma {:induction false} EscapeNoNewline(s: string)
    ensures NoNewline(Escape(s))
  {
    if s != "" { EscapeNoNewline(s[1..]); }
  }

  lemma NoNewlineJoin(a: string, b: string)
    requires NoNewline(a) && NoNewline(b)
    ensures NoNewline(a + b)
  {
  }

  lemma PairNoNewline(k: string, v: string)
    ensures NoNewline(Pair(k, v))
  {
    EscapeNoNewline(k);
    EscapeNoNewline(v);
    NoNewlineJoin(Escape(v), QUOTE);
    NoNewlineJoin(VALUE, Escape(v) + QUOTE);
    NoNewlineJoin(QUOTE, VALUE + (Escape(v) + QUOTE));
    NoNewlineJoin(Escape(k), QUOTE + (VALUE + (Escape(v) + QUOTE)));
    NoNewlineJoin(QUOTE, Escape(k) + (QUOTE + (VALUE + (Escape(v) + QUOTE))));
  }

  lemma {:induction false} ExtrasNoNewline(fields: seq<(string, string)>)
    ensures NoNewline(Extras(fields))
  {
    if fields != [] {
      var n := |fields| - 1;
      ExtrasNoNewline(fields[..n]);
      PairNoNewline(fields[n].0, fields[n].1);
      var comma := if n == 0 then "" else ",";
      NoNewlineJoin(comma, Pair(fields[n].0, fields[n].1));
      NoNewlineJoin(Extras(fields[..n]), comma + Pair(fields[n].0, fields[n].1));
    }
  }

  /** No printed record contains a raw newline, whatever its strings hold. */
  lemma PrintNoNewline(r: Record)
    requires r.level in LABELS
    ensures NoNewline(Print(r))
  {
    EscapeNoNewline(r.timestamp);
    LevelNoNewline(r);
    var t0 := if r.fields == [] then "" else "," + Extras(r.fields);
    var t3 := LEVEL + (r.level + (QUOTE + (MSG + (Escape(r.msg) + (QUOTE + (t0 + "}"))))));
    NoNewlineJoin(QUOTE, t3);
    NoNewlineJoin(Escape(r.timestamp), QUOTE + t3);
    NoNewlineJoin(TIMESTAMP, Escape(r.timestamp) + (QUOTE + t3));
  }

  /** From the level on. */
  lemma LevelNoNewline(r: Record)
    requires r.level in LABELS
    ensures var t0 := if r.fields == [] then "" else "," + Extras(r.fields);
            NoNewline(LEVEL + (r.level + (QUOTE + (MSG + (Escape(r.msg) + (QUOTE + (t0 + "}")))))))
  {
    LabelIsPlain(r.level);
    EscapeNoNewline(r.level);
    TailNoNewline(r);
    var t0 := if r.fields == [] then "" else "," + Extras(r.fields);
    var t2 := MSG + (Escape(r.msg) + (QUOTE + (t0 + "}")));
    NoNewlineJoin(QUOTE, t2);
    NoNewlineJoin(r.level, QUOTE + t2);
    NoNewlineJoin(LEVEL, r.level + (QUOTE + t2));
  }

  /** From the message on. */
  lemma TailNoNewline(r: Record)
    ensures var t0 := if r.fields == [] then "" else "," + Extras(r.fields);
            NoNewline(MSG + (Escape(r.msg) + (QUOTE + (t0 + "}"))))
  {
    EscapeNoNewline(r.msg);
    ExtrasNoNewline(r.fields);
    var t0 := if r.fields == [] then "" else "," + Extras(r.fields);
    NoNewlineJoin(",", Extras(r.fields));
    NoNewlineJoin(t0, "}");
    var t1 := QUOTE + (t0 + "}");
    NoNewlineJoin(QUOTE, t0 + "}");
    NoNewlineJoin(Escape(r.msg), t1);
    NoNewlineJoin(MSG, Escape(r.msg) + t1);
  }

  /** The log file: every record's line, each ended by a newline. */
  function LogText(records: seq<Record>): string {
    if records == [] then "" else Print(records[0]) + "\n" + LogText(records[1..])
  }

  /** The text before the first newline, and the text after it. */
  function FirstLine(text: string): Decoded<string> {
    if text == "" then Bad
    else if text[0] == '\n' then Good("", text[1..])
    else
      var tail := FirstLine(text[1..]);
      if tail.Bad? then Bad else Good([text[0]] + tail.value, tail.rest)
  }

  function DecodeLog(text: string): Option<seq<Record>>
    decreases |text|
  {
    if text == "" then Some([])
    else
      var line := FirstLine(text);
      if line.Bad? || |line.rest| >= |text| then None
      else
        var r, more := Decode(line.value), DecodeLog(line.rest);
        if r.None? || more.None? then None else Some([r.value] + more.value)
  }

  lemma {:induction false} FirstLineOf(line: string, rest: string)
    requires NoNewline(line)
    ensures FirstLine(line + "\n" + rest) == Good(line, rest)
  {
    var text := line + "\n" + rest;
    if line == "" {
      assert text == "\n" + rest && text[1..] == rest;
    } else {
      assert text[1..] == line[1..] + "\n" + rest;
      FirstLineOf(line[1..], rest);
      assert [line[0]] + line[1..] == line;
    }
  }

  lemma DecodeFirst(line: string, rest: string, r: Record, more: seq<Record>)
    requires NoNewline(line) && Decode(line) == Some(r) && DecodeLog(rest) == Some(more)
    ensures DecodeLog(line + "\n" + rest) == Some([r] + more)
  {
    FirstLineOf(line, rest);
  }

  lemma FirstRecord(r: Record, rest: string, more: seq<Record>)
    requires r.level in LABELS && DecodeLog(rest) == Some(more)
    ensures DecodeLog(Print(r) + "\n" + rest) == Some([r] + more)
  {
    PrintNoNewline(r);
    RoundTrip(r);
    DecodeFirst(Print(r), rest, r, more);
  }

  /** Splitting a log at its newlines and decoding each line gives back exactly the records, in order. */
  lemma {:induction false} LogRoundTrip(records: seq<Record>)
    requires forall i :: 0 <= i < |records| ==> records[i].level in LABELS
    ensures DecodeLog(LogText(records)) == Some(records)
  {
    if records != [] {
      assert records[0].level in LABELS;
      LogRoundTrip(records[1..]);
      FirstRecord(records[0], LogText(records[1..]), records[1..]);
      assert [records[0]] + records[1..] == records;
    }
  }

  // ---------------------------------------------------------------- RFC 8259, section 7

  /** chars of a JSON string: an unescaped character is not a control character, a quote or a backslash. */
  predicate Rfc8259Chars(text: string) {
    if text == "" then true
    else if text[0] == '\\' then |text| >= 2 && text[1] in "\"\\/bfnrt" && Rfc8259Chars(text[2..])
    else text[0] as int >= 0x20 && text[0] != '"' && Rfc8259Chars(text[1..])
  }

  /** The printer escapes only these three control characters. */
  predicate Printable(c: char) { c as int >= 0x20 || c in "\t\n\r" }

  predicate OnlyEscapedControls(s: string) {
    forall i :: 0 <= i < |s| ==> Printable(s[i])
  }

  lemma CharIsRfc8259(c: char, tail: string)
    ensures Rfc8259Chars(EscapeChar(c) + tail) <==> Printable(c) && Rfc8259Chars(tail)
  {
    var text := EscapeChar(c) + tail;
    if |EscapeChar(c)| == 2 {
      assert text[2..] == tail;
    } else {
      assert text[1..] == tail;
    }
  }

  lemma ControlsCons(s: string)
    requires s != ""
    ensures OnlyEscapedControls(s) <==> Printable(s[0]) && OnlyEscapedControls(s[1..])
  {
    assert forall i :: 1 <= i < |s| ==> s[i] == s[1..][i - 1];
  }

  /** An escaped string is a legal JSON string exactly when its only control characters are tab, LF and CR. */
  lemma {:induction false} EscapeIsRfc8259(s: string)
    ensures Rfc8259Chars(Escape(s)) <==> OnlyEscapedControls(s)
  {
    if s != "" {
      EscapeIsRfc8259(s[1..]);
      CharIsRfc8259(s[0], Escape(s[1..]));
      ControlsCons(s);
    }
  }
}
