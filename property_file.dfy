/**
 * The server's settings file: one `key=value` entry per line. Empty lines, comment lines
 * (starting with `;`, `#` or `'`) and lines without `=` are skipped; key and value are
 * trimmed, one pair of matching quotes around the value is removed, and the first entry
 * for a key wins. The handler keeps the entries in a dictionary, answers lookups (storing
 * the default for a missing key), and writes one `key=value` line per entry when saved.
 * The file system is a parameter: the lines read (or no file), and the lines to write.
 */
module PropertyFile {
  import opened Wrappers

  /** `Char.IsWhiteSpace`: the characters `String.Trim()` removes from both ends. */
  predicate IsWhiteSpace(c: char) {
    ('\t' <= c <= '\r') || c == ' ' || c == '\U{85}' || c == '\U{A0}' || c == '\U{1680}'
    || ('\U{2000}' <= c <= '\U{200A}') || c == '\U{2028}' || c == '\U{2029}'
    || c == '\U{202F}' || c == '\U{205F}' || c == '\U{3000}'
  }

  /** `String.Trim()`. */
  function Trim(s: string): (t: string)
    ensures |t| <= |s|
    ensures forall c :: c in t ==> c in s
    ensures |t| > 0 ==> !IsWhiteSpace(t[0]) && !IsWhiteSpace(t[|t| - 1])
    ensures (|s| == 0 || (!IsWhiteSpace(s[0]) && !IsWhiteSpace(s[|s| - 1]))) ==> t == s
  {
    if |s| == 0 then s
    else if IsWhiteSpace(s[0]) then Trim(s[1..])
    else if IsWhiteSpace(s[|s| - 1]) then Trim(s[..|s| - 1])
    else s
  }

  /** A line that holds an entry: not empty, not a comment, and with an `=` in it. */
  predicate IsEntryLine(line: string) {
    |line| > 0 && line[0] != ';' && line[0] != '#' && line[0] != '\'' && '=' in line
  }

  /** `IndexOf(c)` for a character that occurs: the position of its first occurrence. */
  function IndexOf(s: string, c: char): (i: nat)
    requires c in s
    ensures i < |s| && s[i] == c && c !in s[..i]
  {
    if s[0] == c then 0
    else
      assert c in s[1..];
      var j := IndexOf(s[1..], c);
      assert s[..j + 1] == [s[0]] + s[1..][..j];
      1 + j
  }

  /** The trimmed text before the first `=`. */
  function KeyOf(line: string): string
    requires '=' in line
  {
    Trim(line[..IndexOf(line, '=')])
  }

  /** The trimmed text after the first `=`, quotes not yet removed. */
  function RawValueOf(line: string): string
    requires '=' in line
  {
    Trim(line[IndexOf(line, '=') + 1..])
  }

  /** Starts and ends with `"`, or starts and ends with `'`. */
  predicate Quoted(v: string) {
    |v| > 0 && ((v[0] == '"' && v[|v| - 1] == '"') || (v[0] == '\'' && v[|v| - 1] == '\''))
  }

  /** What a line contributes: nothing, or one entry. */
  datatype Line = Skip | Entry(key: string, value: string)

  /**
   * The line parser as written: for a quoted value it takes `Substring(1, Length - 2)`,
   * which throws when the value is a single quote character, because the one character
   * both starts and ends the value.
   */
  function ParseLineAsWritten(line: string): Result<Line, string> {
    if !IsEntryLine(line) then Success(Skip)
    else
      var v := RawValueOf(line);
      if Quoted(v) then
        if |v| - 2 < 0 then Failure("ArgumentOutOfRangeException")
        else Success(Entry(KeyOf(line), v[1..|v| - 1]))
      else Success(Entry(KeyOf(line), v))
  }

  /** The value with one pair of matching quotes removed, when there is a pair. */
  function Unquote(v: string): string {
    if Quoted(v) && |v| >= 2 then v[1..|v| - 1] else v
  }

  /** The line parser, with a lone quote character kept as the value. */
  function ParseLine(line: string): (r: Line)
    ensures r.Entry? <==> IsEntryLine(line)
    ensures r.Entry? ==> '=' !in r.key && r.key == Trim(r.key)
  {
    if !IsEntryLine(line) then Skip
    else
      var k := KeyOf(line);
      assert '=' !in k by {
        var i := IndexOf(line, '=');
        assert forall c :: c in k ==> c in line[..i];
      }
      Entry(k, Unquote(RawValueOf(line)))
  }

  /** The lone quote is the only line on which the two parsers differ. */
  lemma AsWrittenAgrees(line: string)
    ensures ParseLineAsWritten(line).Failure? <==>
      IsEntryLine(line) && (RawValueOf(line) == "\"" || RawValueOf(line) == "'")
    ensures ParseLineAsWritten(line).Success? ==> ParseLineAsWritten(line).value == ParseLine(line)
  {
  }

  /** `a="` is an entry whose value is a quote; the parser as written throws on it. */
  lemma LoneQuoteThrows()
    ensures ParseLineAsWritten("a=\"").Failure?
    ensures ParseLine("a=\"") == Entry("a", "\"")
  {
    var line := "a=\"";
    assert IsEntryLine(line) by { assert line[1] == '='; }
    assert IndexOf(line, '=') == 1;
    assert line[..1] == "a" && line[2..] == "\"";
  }

  /** A `Dictionary<string, string>`: the keys in insertion order, and the map. */
  datatype PropertyMap = PropertyMap(keys: seq<string>, values: map<string, string>) {
    ghost predicate Valid() {
      (forall i, j :: 0 <= i < j < |keys| ==> keys[i] != keys[j])
      && (forall k :: k in values <==> k in keys)
    }

    /** `getPropertyValue(name)`: the value, or none (`null`). */
    function Get(name: string): Option<string> {
      if name in values then Some(values[name]) else None
    }

    /** `setPropertyValue`: an existing key keeps its place, a new key goes last. */
    function Set(name: string, value: string): (r: PropertyMap)
      ensures Valid() ==> r.Valid()
    {
      var r := PropertyMap(if name in values then keys else keys + [name], values[name := value]);
      assert Valid() ==> forall k :: k in r.values <==> k in r.keys;
      r
    }
  }

  const EMPTY := PropertyMap([], map[])

  /** Setting one key keeps the map well formed, and changes only that key's value. */
  lemma SetGet(m: PropertyMap, name: string, value: string, other: string)
    requires m.Valid()
    ensures m.Set(name, value).Valid()
    ensures m.Set(name, value).Get(name) == Some(value)
    ensures other != name ==> m.Set(name, value).Get(other) == m.Get(other)
    ensures forall k :: k in m.keys ==> k in m.Set(name, value).keys
  {
    var s := m.Set(name, value);
    if name !in m.values {
      assert forall i :: 0 <= i < |m.keys| ==> m.keys[i] != name;
    }
    assert forall k :: k in s.values <==> k in s.keys;
  }

  /** Setting a key to the value it already has changes nothing. */
  lemma SetSame(m: PropertyMap, name: string)
    requires name in m.values
    ensures m.Set(name, m.values[name]) == m
  {
  }

  /** `Dictionary.Add` inside `try { } catch { }`: a key already present is ignored. */
  function Add(m: PropertyMap, line: Line): PropertyMap {
    if line.Entry? && line.key !in m.values then m.Set(line.key, line.value) else m
  }

  /** The entries of the lines, in order, added to `m`. */
  function LoadInto(m: PropertyMap, lines: seq<string>): PropertyMap {
    if |lines| == 0 then m
    else Add(LoadInto(m, lines[..|lines| - 1]), ParseLine(lines[|lines| - 1]))
  }

  /** The dictionary a file's lines give. */
  function Load(lines: seq<string>): (m: PropertyMap)
    ensures m.Valid()
  {
    LoadValid(EMPTY, lines);
    LoadInto(EMPTY, lines)
  }

  /** The load as written: the first line whose parse throws aborts it. */
  function LoadAsWritten(m: PropertyMap, lines: seq<string>): Result<PropertyMap, string> {
    if |lines| == 0 then Success(m)
    else
      var front :- LoadAsWritten(m, lines[..|lines| - 1]);
      var line :- ParseLineAsWritten(lines[|lines| - 1]);
      Success(Add(front, line))
  }

  /** What each line gives the parser as written. */
  function ParseAsWritten(lines: seq<string>): (results: seq<Result<Line, string>>)
    ensures |results| == |lines|
    ensures forall i :: 0 <= i < |lines| ==> results[i] == ParseLineAsWritten(lines[i])
  {
    seq(|lines|, i requires 0 <= i < |lines| => ParseLineAsWritten(lines[i]))
  }

  ghost predicate AnyFailure(results: seq<Result<Line, string>>) {
    exists i :: 0 <= i < |results| && results[i].Failure?
  }

  lemma AnyFailureSnoc(results: seq<Result<Line, string>>)
    requires |results| > 0
    ensures var n := |results| - 1;
      AnyFailure(results) <==> AnyFailure(results[..n]) || results[n].Failure?
  {
    var n := |results| - 1;
    if AnyFailure(results[..n]) {
      var i :| 0 <= i < n && results[..n][i].Failure?;
      assert results[..n][i] == results[i];
    }
  }

  /** The load as written fails exactly when some line's parse throws, and otherwise agrees. */
  lemma {:induction false} LoadAsWrittenAgrees(m: PropertyMap, lines: seq<string>)
    ensures LoadAsWritten(m, lines).Failure? <==> AnyFailure(ParseAsWritten(lines))
    ensures LoadAsWritten(m, lines).Success? ==> LoadAsWritten(m, lines).value == LoadInto(m, lines)
  {
    if |lines| > 0 {
      var n := |lines| - 1;
      LoadAsWrittenAgrees(m, lines[..n]);
      AsWrittenAgrees(lines[n]);
      AnyFailureSnoc(ParseAsWritten(lines));
      assert ParseAsWritten(lines)[..n] == ParseAsWritten(lines[..n]);
    }
  }

  /** A settings file with the line `a="` cannot be loaded as written. */
  lemma LoneQuoteAbortsLoad()
    ensures LoadAsWritten(EMPTY, ["a=\""]).Failure?
    ensures Load(["a=\""]) == PropertyMap(["a"], map["a" := "\""])
  {
    LoneQuoteThrows();
    var lines := ["a=\""];
    assert lines[..0] == [];
  }

  /** Loading keeps the dictionary well formed. */
  lemma {:induction false} LoadValid(m: PropertyMap, lines: seq<string>)
    requires m.Valid()
    ensures LoadInto(m, lines).Valid()
  {
    if |lines| > 0 {
      var front := LoadInto(m, lines[..|lines| - 1]);
      LoadValid(m, lines[..|lines| - 1]);
      var line := ParseLine(lines[|lines| - 1]);
      if line.Entry? {
        SetGet(front, line.key, line.value, line.key);
      }
    }
  }

  /** Later lines never change a key already loaded. */
  lemma {:induction false} LoadKeeps(m: PropertyMap, lines: seq<string>, k: string)
    requires k in m.values
    ensures k in LoadInto(m, lines).values && LoadInto(m, lines).values[k] == m.values[k]
  {
    if |lines| > 0 {
      LoadKeeps(m, lines[..|lines| - 1], k);
    }
  }

  /** What each line contributes. */
  function Parse(lines: seq<string>): (parsed: seq<Line>)
    ensures |parsed| == |lines|
    ensures forall i :: 0 <= i < |lines| ==> parsed[i] == ParseLine(lines[i])
  {
    seq(|lines|, i requires 0 <= i < |lines| => ParseLine(lines[i]))
  }

  /** Some line holds an entry for `k`. */
  ghost predicate HasKey(parsed: seq<Line>, k: string) {
    exists i :: 0 <= i < |parsed| && parsed[i].Entry? && parsed[i].key == k
  }

  lemma HasKeySnoc(parsed: seq<Line>, k: string)
    requires |parsed| > 0
    ensures var n := |parsed| - 1;
      HasKey(parsed, k) <==> HasKey(parsed[..n], k) || (parsed[n].Entry? && parsed[n].key == k)
  {
    var n := |parsed| - 1;
    if HasKey(parsed[..n], k) {
      var i :| 0 <= i < n && parsed[..n][i].Entry? && parsed[..n][i].key == k;
      assert parsed[..n][i] == parsed[i];
    }
  }

  /** A key is loaded iff some line holds an entry for it. */
  lemma {:induction false} LoadedKeys(lines: seq<string>, k: string)
    ensures k in Load(lines).values <==> HasKey(Parse(lines), k)
  {
    if |lines| > 0 {
      var n := |lines| - 1;
      LoadedKeys(lines[..n], k);
      HasKeySnoc(Parse(lines), k);
      assert Parse(lines)[..n] == Parse(lines[..n]);
    }
  }

  /** The first entry for a key gives its value; later entries for it are ignored. */
  lemma FirstEntryWins(lines: seq<string>, i: nat, k: string, v: string)
    requires i < |lines| && ParseLine(lines[i]) == Entry(k, v)
    requires forall j :: 0 <= j < i ==> !(ParseLine(lines[j]).Entry? && ParseLine(lines[j]).key == k)
    ensures k in Load(lines).values && Load(lines).values[k] == v
  {
    var front := lines[..i];
    LoadedKeys(front, k);
    assert !HasKey(Parse(front), k);
    assert lines[..i + 1][..i] == front;
    var m := Load(lines[..i + 1]);
    assert m.values[k] == v;
    LoadKeeps(m, lines[i + 1..], k);
    LoadSplit(EMPTY, lines[..i + 1], lines[i + 1..]);
    assert lines[..i + 1] + lines[i + 1..] == lines;
  }

  /** Loading two runs of lines is loading the first, then the second. */
  lemma {:induction false} LoadSplit(m: PropertyMap, a: seq<string>, b: seq<string>)
    ensures LoadInto(m, a + b) == LoadInto(LoadInto(m, a), b)
  {
    if |b| > 0 {
      LoadSplit(m, a, b[..|b| - 1]);
      assert (a + b)[..|a + b| - 1] == a + b[..|b| - 1];
      assert (a + b)[|a + b| - 1] == b[|b| - 1];
    } else {
      assert a + b == a;
    }
  }

  /** The lines `save` writes: `name=value` for each key, in insertion order. */
  function SaveLines(m: PropertyMap): (lines: seq<string>)
    requires m.Valid()
  {
    seq(|m.keys|, i requires 0 <= i < |m.keys| => m.keys[i] + "=" + m.values[m.keys[i]])
  }

  /** An entry that reads back as written: plain key and value, nothing for the parser to drop. */
  predicate PlainEntry(key: string, value: string) {
    '=' !in key && Trim(key) == key && (|key| == 0 || (key[0] != ';' && key[0] != '#' && key[0] != '\''))
    && Trim(value) == value && !Quoted(value)
  }

  /** A saved line parses back to its entry. */
  lemma ParseSavedLine(k: string, v: string)
    requires PlainEntry(k, v)
    ensures ParseLine(k + "=" + v) == Entry(k, v)
  {
    var line := k + "=" + v;
    assert line[|k|] == '=';
    assert line[..|k|] == k;
    var i := IndexOf(line, '=');
    assert i == |k|;
    assert line[i + 1..] == v;
  }

  /** The first `n` entries of `m`. */
  function Prefix(m: PropertyMap, n: nat): PropertyMap
    requires n <= |m.keys|
  {
    PropertyMap(m.keys[..n], map k | k in m.keys[..n] && k in m.values :: m.values[k])
  }

  /** One more saved entry extends the prefix by that key. */
  lemma PrefixStep(m: PropertyMap, n: nat)
    requires m.Valid() && 0 < n <= |m.keys|
    ensures m.keys[n - 1] in m.values && m.keys[n - 1] !in Prefix(m, n - 1).values
    ensures Prefix(m, n - 1).Set(m.keys[n - 1], m.values[m.keys[n - 1]]) == Prefix(m, n)
  {
    var k := m.keys[n - 1];
    var p, q := Prefix(m, n - 1), Prefix(m, n);
    assert k in m.keys;
    assert m.keys[..n] == m.keys[..n - 1] + [k];
    var r := p.Set(k, m.values[k]);
    assert r.keys == q.keys;
    assert forall x :: x in r.values <==> x in q.values;
    assert r.values == q.values;
  }

  lemma {:induction false} LoadSavedPrefix(m: PropertyMap, n: nat)
    requires m.Valid() && n <= |m.keys|
    requires forall k :: k in m.values ==> PlainEntry(k, m.values[k])
    ensures LoadInto(EMPTY, SaveLines(m)[..n]) == Prefix(m, n)
  {
    var lines := SaveLines(m);
    if n == 0 {
      assert lines[..0] == [];
      assert Prefix(m, 0).values == map[];
    } else {
      var k := m.keys[n - 1];
      var front, line := lines[..n][..n - 1], lines[..n][n - 1];
      assert front == lines[..n - 1];
      assert line == k + "=" + m.values[k];
      LoadSavedPrefix(m, n - 1);
      PrefixStep(m, n);
      ParseSavedLine(k, m.values[k]);
      assert LoadInto(EMPTY, lines[..n]) == Add(LoadInto(EMPTY, front), ParseLine(line));
    }
  }

  /** Saving then loading gives the dictionary back, when every entry is plain. */
  lemma SaveLoad(m: PropertyMap)
    requires m.Valid()
    requires forall k :: k in m.values ==> PlainEntry(k, m.values[k])
    ensures Load(SaveLines(m)) == m
  {
    var lines := SaveLines(m);
    LoadSavedPrefix(m, |m.keys|);
    assert lines[..|m.keys|] == lines;
    PrefixAll(m);
  }

  lemma PrefixAll(m: PropertyMap)
    requires m.Valid()
    ensures Prefix(m, |m.keys|) == m
  {
    assert m.keys[..|m.keys|] == m.keys;
    assert Prefix(m, |m.keys|).values == m.values;
  }

  /** The handler: the dictionary and the path of the file it was read from. */
  class PropertyFileHandler {
    var propertiesMap: PropertyMap
    var configPath: string

    ghost predicate Valid()
      reads this
    {
      propertiesMap.Valid()
    }

    /** Reads `path`; `file` holds its lines, or none when the file does not exist. */
    constructor (path: string, file: Option<seq<string>>)
      ensures Valid() && configPath == path
      ensures propertiesMap == if file.Some? then Load(file.value) else EMPTY
    {
      propertiesMap := EMPTY;
      configPath := path;
      new;
      ReloadFrom(path, file);
    }

    /** `reload()`: reads the file it was last read from or saved to again. */
    method Reload(file: Option<seq<string>>)
      modifies this
      ensures Valid() && configPath == old(configPath)
      ensures propertiesMap == if file.Some? then Load(file.value) else EMPTY
    {
      ReloadFrom(configPath, file);
    }

    /** `reload(path)`: a fresh dictionary, filled from the file when it exists. */
    method ReloadFrom(path: string, file: Option<seq<string>>)
      modifies this
      ensures Valid() && configPath == path
      ensures propertiesMap == if file.Some? then Load(file.value) else EMPTY
    {
      configPath := path;
      propertiesMap := EMPTY;
      if file.Some? {
        LoadFromFile(file.value);
      }
    }

    /** `loadFromFile`: each entry line in turn, added unless its key is already there. */
    method LoadFromFile(lines: seq<string>)
      requires Valid()
      modifies this`propertiesMap
      ensures Valid()
      ensures propertiesMap == LoadInto(old(propertiesMap), lines)
    {
      var i := 0;
      while i < |lines|
        invariant 0 <= i <= |lines|
        invariant propertiesMap == LoadInto(old(propertiesMap), lines[..i])
      {
        var line := ParseLine(lines[i]);
        if line.Entry? && line.key !in propertiesMap.values {
          propertiesMap := propertiesMap.Set(line.key, line.value);
        }
        assert lines[..i + 1][..i] == lines[..i];
        i := i + 1;
      }
      assert lines[..i] == lines;
      LoadValid(old(propertiesMap), lines);
    }

    /** `getPropertyValue(name)`: the stored value, or none. */
    function GetPropertyValue(name: string): Option<string>
      reads this
    {
      propertiesMap.Get(name)
    }

    /** `getPropertyValue(name, default)`: the stored value; a missing key is stored with the default. */
    method GetPropertyValueOrDefault(name: string, defaultValue: string) returns (value: string)
      requires Valid()
      modifies this`propertiesMap
      ensures Valid()
      ensures value == old(propertiesMap).Get(name).GetOr(defaultValue)
      ensures propertiesMap == old(propertiesMap).Set(name, value)
      ensures name in old(propertiesMap).values ==> propertiesMap == old(propertiesMap)
    {
      var stored := GetPropertyValue(name);
      if stored.Some? {
        SetSame(propertiesMap, name);
        return stored.value;
      } else {
        SetPropertyValue(name, defaultValue);
        return defaultValue;
      }
    }

    /** `setPropertyValue`: inserts or overwrites that one key. */
    method SetPropertyValue(name: string, value: string)
      requires Valid()
      modifies this`propertiesMap
      ensures Valid()
      ensures propertiesMap == old(propertiesMap).Set(name, value)
    {
      SetGet(propertiesMap, name, value, name);
      propertiesMap := propertiesMap.Set(name, value);
    }

    /** `save()`: writes to the file it was last read from or saved to. */
    method Save() returns (lines: seq<string>)
      requires Valid()
      modifies this`configPath
      ensures configPath == old(configPath)
      ensures lines == SaveLines(propertiesMap)
    {
      lines := SaveTo(configPath);
    }

    /** `save(path)`: remembers the path and writes one `name=value` line per key. */
    method SaveTo(path: string) returns (lines: seq<string>)
      requires Valid()
      modifies this`configPath
      ensures configPath == path
      ensures lines == SaveLines(propertiesMap)
    {
      configPath := path;
      var keys := propertiesMap.keys;
      lines := [];
      var i := 0;
      while i < |keys|
        invariant 0 <= i <= |keys|
        invariant lines == SaveLines(propertiesMap)[..i]
      {
        assert keys[i] in propertiesMap.values;
        lines := lines + [keys[i] + "=" + propertiesMap.values[keys[i]]];
        i := i + 1;
      }
    }
  }
}
