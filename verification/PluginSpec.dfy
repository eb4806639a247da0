/**
  Plugin descriptions on the build command line, `name@version=path`: parsing and printing.
*/
module PluginSpec {
  datatype PluginInfo = PluginInfo(name: string, version: string, path: string)

  /** Unicode white space, as trimming uses it. */
  predicate IsSpace(c: char) {
    var n := c as int;
    || 9 <= n <= 13 || n == 32 || n == 0x85 || n == 0xA0 || n == 0x1680 || 0x2000 <= n <= 0x200A
    || n == 0x2028 || n == 0x2029 || n == 0x202F || n == 0x205F || n == 0x3000
  }

  function TrimLeft(s: string): string {
    if s != "" && IsSpace(s[0]) then TrimLeft(s[1..]) else s
  }

  function TrimRight(s: string): string {
    if s != "" && IsSpace(s[|s| - 1]) then TrimRight(s[..|s| - 1]) else s
  }

  function Trim(s: string): string {
    TrimRight(TrimLeft(s))
  }

  /** The text before and after the first separator, or all of it and nothing. */
  function Cut(s: string, sep: char): (string, string) {
    if s == "" then ("", "")
    else if s[0] == sep then ("", s[1..])
    else
      var (before, after) := Cut(s[1..], sep);
      ([s[0]] + before, after)
  }

  function Parse(s: string): PluginInfo {
    var (spec, path) := Cut(Trim(s), '=');
    var (name, version) := Cut(spec, '@');
    PluginInfo(name, version, path)
  }

  /** The replacement argument that the build passes on. */
  function Print(i: PluginInfo): string {
    i.name + "@" + i.version + "=" + i.path
  }

  method FormatPlugins(plugins: seq<string>) returns (formatted: seq<PluginInfo>)
    ensures |formatted| == |plugins| && forall i :: 0 <= i < |plugins| ==> formatted[i] == Parse(plugins[i])
    ensures forall i :: 0 <= i < |plugins| ==> Says(plugins[i], formatted[i])
  {
    formatted := [];
    for i := 0 to |plugins|
      invariant |formatted| == i && forall j :: 0 <= j < i ==> formatted[j] == Parse(plugins[j])
    {
      var cut := Cut(Trim(plugins[i]), '=');
      var spec := Cut(cut.0, '@');
      formatted := formatted + [PluginInfo(spec.0, spec.1, cut.1)];
    }
    forall i | 0 <= i < |plugins|
      ensures Says(plugins[i], formatted[i])
    {
      ParseSays(plugins[i]);
    }
  }

  /** A cut loses at most the first separator, and leaves none before it. */
  lemma {:induction false} CutIs(s: string, sep: char)
    ensures sep !in Cut(s, sep).0
    ensures sep in s ==> s == Cut(s, sep).0 + [sep] + Cut(s, sep).1
    ensures sep !in s ==> Cut(s, sep) == (s, "")
  {
    if s != "" {
      var head, rest := [s[0]], s[1..];
      assert s == head + rest;
      if s[0] != sep {
        CutIs(rest, sep);
        var cut := Cut(rest, sep);
        assert Cut(s, sep) == (head + cut.0, cut.1);
        assert head + (cut.0 + [sep] + cut.1) == (head + cut.0) + [sep] + cut.1;
      }
    }
  }

  lemma {:induction false} CutJoined(before: string, sep: char, after: string)
    requires sep !in before
    ensures Cut(before + [sep] + after, sep) == (before, after)
  {
    var s := before + [sep] + after;
    if before != "" {
      CutJoined(before[1..], sep, after);
      assert s[1..] == before[1..] + [sep] + after && s[0] == before[0] && before[0] in before;
      assert [before[0]] + before[1..] == before;
    } else {
      assert s[1..] == after;
    }
  }

  predicate Trimmed(s: string) {
    s == "" || (!IsSpace(s[0]) && !IsSpace(s[|s| - 1]))
  }

  predicate Blank(s: string) {
    forall i :: 0 <= i < |s| ==> IsSpace(s[i])
  }

  /** Of ASCII, the tab to the carriage return and the blank are trimmed. */
  lemma AsciiSpaces(c: char)
    requires c as int < 127
    ensures IsSpace(c) <==> '\t' <= c <= '\r' || c == ' '
  {
  }

  lemma {:induction false} TrimLeftIs(s: string) returns (left: string)
    ensures var t := TrimLeft(s); s == left + t && Blank(left) && (t == "" || !IsSpace(t[0]))
  {
    if s != "" && IsSpace(s[0]) {
      var rest := TrimLeftIs(s[1..]);
      left := [s[0]] + rest;
      assert s == [s[0]] + (rest + TrimLeft(s));
    } else {
      left := "";
    }
  }

  lemma {:induction false} TrimRightIs(s: string) returns (right: string)
    ensures var t := TrimRight(s); s == t + right && Blank(right) && (t == "" || !IsSpace(t[|t| - 1]))
  {
    if s != "" && IsSpace(s[|s| - 1]) {
      var rest := TrimRightIs(s[..|s| - 1]);
      right := rest + [s[|s| - 1]];
      assert s == (TrimRight(s) + rest) + [s[|s| - 1]];
    } else {
      right := "";
    }
  }

  /** Trimming takes away white space at both ends, and nothing else, until there is none. */
  lemma TrimIs(s: string) returns (left: string, right: string)
    ensures s == left + Trim(s) + right && Blank(left) && Blank(right)
    ensures Trimmed(Trim(s)) && (Trimmed(s) ==> Trim(s) == s)
  {
    left := TrimLeftIs(s);
    right := TrimRightIs(TrimLeft(s));
    assert s == left + (Trim(s) + right);
    if Trim(s) != "" {
      assert TrimLeft(s)[0] == Trim(s)[0];
    }
  }

  /**
    What a description says. Around white space it is a name, then a version after the first
    '@' before the first '=', then a path after that '='; either may be missing and is then empty.
  */
  ghost predicate Says(s: string, i: PluginInfo) {
    exists left, right, t :: s == left + t + right && Blank(left) && Blank(right) && Trimmed(t) && SaysTrimmed(t, i)
  }

  predicate SaysTrimmed(t: string, i: PluginInfo) {
    && '@' !in i.name && '=' !in i.name && '=' !in i.version
    && (|| t == i.name + "@" + i.version + "=" + i.path
        || (t == i.name + "=" + i.path && i.version == "")
        || (t == i.name + "@" + i.version && i.path == "")
        || (t == i.name && i.version == "" && i.path == ""))
  }

  lemma ParseSays(s: string)
    ensures Says(s, Parse(s))
  {
    var t := Trim(s);
    var left, right := TrimIs(s);
    CutIs(t, '=');
    CutIs(Cut(t, '=').0, '@');
    CutsSay(t, Cut(t, '='), Cut(Cut(t, '=').0, '@'));
  }

  lemma CutsSay(t: string, outer: (string, string), inner: (string, string))
    requires '=' !in outer.0 && (if '=' in t then t == outer.0 + ['='] + outer.1 else outer == (t, ""))
    requires '@' !in inner.0 && (if '@' in outer.0 then outer.0 == inner.0 + ['@'] + inner.1 else inner == (outer.0, ""))
    ensures SaysTrimmed(t, PluginInfo(inner.0, inner.1, outer.1))
  {
    assert forall c :: c in inner.0 || c in inner.1 ==> c in outer.0;
  }

  lemma SaysPrintable(t: string, i: PluginInfo)
    requires Trimmed(t) && SaysTrimmed(t, i)
    ensures Printable(i)
  {
    assert i.name != "" ==> t[0] == i.name[0];
    assert i.path != "" ==> t[|t| - 1] == i.path[|i.path| - 1];
  }

  /** The triples that have a printed form of their own. */
  predicate Printable(i: PluginInfo) {
    && '@' !in i.name && '=' !in i.name && '=' !in i.version
    && (i.name != "" ==> !IsSpace(i.name[0]))
    && (i.path != "" ==> !IsSpace(i.path[|i.path| - 1]))
  }

  lemma PrintedIsTrimmed(i: PluginInfo)
    requires Printable(i)
    ensures Trimmed(Print(i))
  {
    var s := Print(i);
    assert s[0] == if i.name != "" then i.name[0] else '@';
    assert s[|s| - 1] == if i.path != "" then i.path[|i.path| - 1] else '=';
  }

  lemma ParsePrinted(i: PluginInfo)
    requires Printable(i)
    ensures Parse(Print(i)) == i
  {
    PrintedIsTrimmed(i);
    var _, _ := TrimIs(Print(i));
    var spec := i.name + "@" + i.version;
    assert spec == i.name + ['@'] + i.version && Print(i) == spec + ['='] + i.path;
    CutJoined(spec, '=', i.path);
    CutJoined(i.name, '@', i.version);
  }

  lemma ParsedIsPrintable(s: string)
    ensures Printable(Parse(s))
  {
    ParseSays(s);
    var left, right, t :| s == left + t + right && Blank(left) && Blank(right) && Trimmed(t) && SaysTrimmed(t, Parse(s));
    SaysPrintable(t, Parse(s));
  }

  /** Parsing the printed form gives the triple back iff the triple is printable. */
  lemma RoundTripIff(i: PluginInfo)
    ensures Parse(Print(i)) == i <==> Printable(i)
  {
    ParsedIsPrintable(Print(i));
    if Printable(i) {
      ParsePrinted(i);
    }
  }

  /** Printing a parsed text gives the trimmed text back iff it has an '@' before its first '='. */
  lemma PrintParsedIff(s: string)
    ensures Print(Parse(s)) == Trim(s) <==> '=' in Trim(s) && '@' in Cut(Trim(s), '=').0
  {
    var t := Trim(s);
    var (spec, path) := Cut(t, '=');
    var (name, version) := Cut(spec, '@');
    CutIs(t, '=');
    CutIs(spec, '@');
    assert |Print(Parse(s))| == |name| + |version| + |path| + 2;
    if '=' in t && '@' in spec {
      assert Print(Parse(s)) == (name + ['@'] + version) + ['='] + path;
    }
  }
}
