/** Relative paths from the wire: which ones are safe, and what their components are. */
module PathNames {
  import opened Prelude

  const MAX_PATH_BYTES := 4096
  const MAX_COMPONENT_BYTES := 255

  // ----- strings -----

  function Utf8Len(c: char): nat {
    var n := c as int;
    if n < 0x80 then 1 else if n < 0x800 then 2 else if n < 0x1_0000 then 3 else 4
  }

  function ByteLen(s: string): nat {
    if s == "" then 0 else Utf8Len(s[0]) + ByteLen(s[1..])
  }

  /** The parts between the separators; never empty. */
  function Split(s: string, separator: char): (parts: seq<string>)
    ensures |parts| > 0
    ensures forall i :: 0 <= i < |parts| ==> separator !in parts[i]
  {
    if s == "" then [""]
    else
      var rest := Split(s[1..], separator);
      if s[0] == separator then [""] + rest else [[s[0]] + rest[0]] + rest[1..]
  }

  function Join(parts: seq<string>, separator: char): string
    requires |parts| > 0
  {
    if |parts| == 1 then parts[0] else parts[0] + [separator] + Join(parts[1..], separator)
  }

  lemma {:induction false} JoinSplit(s: string, separator: char)
    ensures Join(Split(s, separator), separator) == s
  {
    if s != "" {
      JoinSplit(s[1..], separator);
      var rest := Split(s[1..], separator);
      var parts := Split(s, separator);
      if s[0] == separator {
        assert parts[1..] == rest;
      } else if |rest| > 1 {
        assert parts[1..] == rest[1..];
      }
    }
  }

  lemma {:induction false} SplitOne(part: string, separator: char)
    requires separator !in part
    ensures Split(part, separator) == [part]
  {
    if part != "" {
      SplitOne(part[1..], separator);
      assert [part[0]] + part[1..] == part;
      assert Split(part, separator) == [[part[0]] + part[1..]] + [];
    }
  }

  lemma {:induction false} SplitFirst(part: string, rest: string, separator: char)
    requires separator !in part
    ensures Split(part + [separator] + rest, separator) == [part] + Split(rest, separator)
  {
    var s := part + [separator] + rest;
    if part == "" {
      assert s[1..] == rest;
    } else {
      assert s[1..] == part[1..] + [separator] + rest;
      SplitFirst(part[1..], rest, separator);
      var tail := Split(s[1..], separator);
      assert s[0] == part[0] && [part[0]] + tail[0] == part && tail[1..] == Split(rest, separator);
    }
  }

  lemma {:induction false} SplitJoin(parts: seq<string>, separator: char)
    requires |parts| > 0 && forall i :: 0 <= i < |parts| ==> separator !in parts[i]
    ensures Split(Join(parts, separator), separator) == parts
  {
    if |parts| == 1 {
      SplitOne(parts[0], separator);
    } else {
      SplitJoin(parts[1..], separator);
      SplitFirst(parts[0], Join(parts[1..], separator), separator);
    }
  }

  function TrimEnd(s: string): string {
    if s != "" && (s[|s| - 1] == ' ' || s[|s| - 1] == '.') then TrimEnd(s[..|s| - 1]) else s
  }

  function Upper(s: string): string {
    seq(|s|, i requires 0 <= i < |s| => if 'a' <= s[i] <= 'z' then (s[i] as int - 32) as char else s[i])
  }

  // ----- components -----

  predicate Control(c: char) {
    c as int < 0x20 || 0x7F <= c as int <= 0x9F
  }

  /** Names that Windows reserves for devices, whatever follows their first dot. */
  predicate WindowsReserved(component: string) {
    var stem := Upper(TrimEnd(Split(component, '.')[0]));
    || stem in {"CON", "PRN", "AUX", "NUL"}
    || (|stem| == 4 && (stem[..3] == "COM" || stem[..3] == "LPT") && '1' <= stem[3] <= '9')
  }

  predicate SafeComponent(component: string) {
    && component != "" && ByteLen(component) <= MAX_COMPONENT_BYTES
    && component != "." && component != ".."
    && component[|component| - 1] != ' ' && component[|component| - 1] != '.'
    && (forall i :: 0 <= i < |component| ==> !Control(component[i]) && component[i] !in "<>:\"|?*")
    && !WindowsReserved(component)
  }

  /** The components of a safe relative path. */
  function Sanitize(value: string): (r: Result<seq<string>>)
    ensures r.Ok? ==> |r.value| > 0 && Join(r.value, '/') == value
    ensures r.Ok? ==> forall i :: 0 <= i < |r.value| ==>
      SafeComponent(r.value[i]) && '/' !in r.value[i] && '\\' !in r.value[i]
    ensures r.Err? ==> r.error == Invalid
  {
    if value == "" || ByteLen(value) > MAX_PATH_BYTES || '\0' in value || '\\' in value then Err(Invalid)
    else
      var components := Split(value, '/');
      if exists i :: 0 <= i < |components| && !SafeComponent(components[i]) then Err(Invalid)
      else
        JoinSplit(value, '/');
        PartsOf(value, '/', '\\');
        Ok(components)
  }

  lemma {:induction false} PartsOf(s: string, separator: char, c: char)
    requires c !in s
    ensures forall i :: 0 <= i < |Split(s, separator)| ==> c !in Split(s, separator)[i]
  {
    if s != "" {
      PartsOf(s[1..], separator, c);
    }
  }

  predicate Safe(value: string) {
    Sanitize(value).Ok?
  }

  /** Walking a path from a directory, with the usual meaning of dots and empty components. */
  function Resolve(base: seq<string>, components: seq<string>): seq<string>
    decreases |components|
  {
    if components == [] then base
    else if components[0] == "" || components[0] == "." then Resolve(base, components[1..])
    else if components[0] == ".." then Resolve(if base == [] then [] else base[..|base| - 1], components[1..])
    else Resolve(base + [components[0]], components[1..])
  }

  lemma {:induction false} PlainResolve(base: seq<string>, components: seq<string>)
    requires forall i :: 0 <= i < |components| ==> components[i] !in {"", ".", ".."}
    ensures Resolve(base, components) == base + components
    decreases |components|
  {
    if components == [] {
      assert base + components == base;
    } else {
      PlainResolve(base + [components[0]], components[1..]);
      assert base + [components[0]] + components[1..] == base + components;
    }
  }

  /** A sanitized path never leaves the directory it is joined to: it resolves to that directory
      followed by exactly its components, and it is neither absolute nor does it name a device. */
  lemma SafePathsStayInside(root: seq<string>, value: string)
    requires Safe(value)
    ensures var components := Sanitize(value).value;
            && Resolve(root, Split(value, '/')) == root + components
            && |root| < |root + components|
            && value[0] != '/'
            && forall i :: 0 <= i < |components| ==> !WindowsReserved(components[i])
  {
    var components := Sanitize(value).value;
    SplitJoin(components, '/');
    PlainResolve(root, components);
    assert SafeComponent(Split(value, '/')[0]);
  }
}
