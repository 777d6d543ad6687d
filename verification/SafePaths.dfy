/** Which paths are safe, said about their characters and segments, without splitting or trimming. */
module SafePaths {
  import opened Prelude
  import opened PathNames

  // ----- segments -----

  /** The characters from `i` to `j` are a whole segment between separators. */
  predicate Segment(s: string, separator: char, i: int, j: int) {
    && 0 <= i <= j <= |s| && separator !in s[i..j]
    && (i == 0 || s[i - 1] == separator) && (j == |s| || s[j] == separator)
  }

  lemma {:induction false} PartIsSegment(s: string, separator: char, k: nat) returns (i: nat, j: nat)
    requires k < |Split(s, separator)|
    ensures Segment(s, separator, i, j) && s[i..j] == Split(s, separator)[k] && (k == 0 <==> i == 0)
  {
    if s == "" {
      i, j := 0, 0;
    } else if s[0] == separator && k == 0 {
      i, j := 0, 0;
    } else {
      var n, m := PartIsSegment(s[1..], separator, if s[0] == separator then k - 1 else k);
      assert s[1..][n..m] == s[n + 1..m + 1];
      if s[0] != separator && k == 0 {
        i, j := 0, m + 1;
        assert s[0..m + 1] == [s[0]] + s[1..m + 1];
      } else {
        i, j := n + 1, m + 1;
      }
    }
  }

  lemma {:induction false} SegmentIsPart(s: string, separator: char, i: nat, j: nat)
    requires Segment(s, separator, i, j)
    ensures i == 0 ==> Split(s, separator)[0] == s[i..j]
    ensures i > 0 ==> s[i..j] in Split(s, separator)[1..]
  {
    if s != "" {
      var rest := Split(s[1..], separator);
      if i > 0 {
        assert s[1..][i - 1..j - 1] == s[i..j];
        if i == 1 {
          assert s[0] == separator;
        } else {
          assert s[1..][i - 2] == s[i - 1];
        }
        SegmentIsPart(s[1..], separator, i - 1, j - 1);
        assert i == 1 ==> s[i..j] == rest[0] && rest[0] in rest;
        assert Split(s, separator)[1..] == if s[0] == separator then rest else rest[1..];
      } else if j > 0 {
        assert s[0] in s[0..j];
        assert s[1..][0..j - 1] == s[1..j];
        assert forall k :: 1 <= k < j ==> s[k] in s[0..j];
        SegmentIsPart(s[1..], separator, 0, j - 1);
        assert s[0..j] == [s[0]] + s[1..j];
      }
    }
  }

  // ----- devices -----

  /** The same letters, whichever their case. */
  predicate Spells(s: string, name: string) {
    |s| == |name| && forall k :: 0 <= k < |s| ==> s[k] == name[k] || s[k] as int == name[k] as int + 32
  }

  predicate Device(s: string) {
    || Spells(s, "CON") || Spells(s, "PRN") || Spells(s, "AUX") || Spells(s, "NUL")
    || (|s| == 4 && (Spells(s[..3], "COM") || Spells(s[..3], "LPT")) && s[3] in "123456789")
  }

  /** A device name, spaces up to `m`, and then nothing or a dot and anything. */
  predicate NamesDevice(component: string, n: nat, m: nat) {
    && n <= m <= |component| && Device(component[..n])
    && (forall k :: n <= k < m ==> component[k] == ' ')
    && (m == |component| || component[m] == '.')
  }

  lemma {:induction false} TrimmedTo(s: string, n: nat)
    requires n <= |s| && (forall k :: n <= k < |s| ==> s[k] == ' ')
    requires n > 0 && s[n - 1] != ' ' && s[n - 1] != '.'
    ensures TrimEnd(s) == s[..n]
  {
    if n < |s| {
      TrimmedTo(s[..|s| - 1], n);
      assert s[..|s| - 1][..n] == s[..n];
    } else {
      assert s[..n] == s;
    }
  }

  lemma {:induction false} TrimmedOf(s: string) returns (n: nat)
    requires '.' !in s
    ensures n <= |s| && TrimEnd(s) == s[..n] && forall k :: n <= k < |s| ==> s[k] == ' '
  {
    if s != "" && s[|s| - 1] == ' ' {
      n := TrimmedOf(s[..|s| - 1]);
      assert s[..|s| - 1][..n] == s[..n];
    } else {
      n := |s|;
      assert s[..n] == s;
      assert s != "" ==> s[|s| - 1] in s;
    }
  }

  lemma UpperSpells(s: string, name: string)
    requires forall k :: 0 <= k < |name| ==> 'A' <= name[k] <= 'Z'
    ensures Upper(s) == name <==> Spells(s, name)
  {
    if Upper(s) == name {
      assert forall k :: 0 <= k < |s| ==> Upper(s)[k] == name[k];
    }
    if Spells(s, name) {
      assert forall k :: 0 <= k < |s| ==> Upper(s)[k] == name[k];
    }
  }

  lemma UpperIsDevice(s: string)
    ensures var stem := Upper(s);
            Device(s) <==>
              || stem in {"CON", "PRN", "AUX", "NUL"}
              || (|stem| == 4 && (stem[..3] == "COM" || stem[..3] == "LPT") && '1' <= stem[3] <= '9')
  {
    UpperSpells(s, "CON");
    UpperSpells(s, "PRN");
    UpperSpells(s, "AUX");
    UpperSpells(s, "NUL");
    if |s| == 4 {
      UpperSpells(s[..3], "COM");
      UpperSpells(s[..3], "LPT");
      assert Upper(s)[..3] == Upper(s[..3]);
    }
  }

  lemma DeviceEnds(s: string)
    requires Device(s)
    ensures s != "" && s[|s| - 1] != ' ' && s[|s| - 1] != '.' && '.' !in s
  {
    if |s| == 4 {
      assert s == s[..3] + [s[3]];
    }
  }

  /** Exactly which names are reserved: a device's name in any case, perhaps with spaces after it, and
      whatever follows its first dot. */
  lemma ReservedIff(component: string)
    ensures WindowsReserved(component) <==> exists n, m :: NamesDevice(component, n, m)
  {
    var i, m := PartIsSegment(component, '.', 0);
    var stem := component[..m];
    assert Split(component, '.')[0] == stem;
    var n := TrimmedOf(stem);
    assert stem[..n] == component[..n];
    UpperIsDevice(component[..n]);
    if WindowsReserved(component) {
      assert forall k :: n <= k < m ==> component[k] == stem[k];
      assert NamesDevice(component, n, m);
    }
    if a: nat, b: nat :| NamesDevice(component, a, b) {
      DeviceEnds(component[..a]);
      DeviceStem(component, a, b);
      assert component[..b] == stem;
      TrimmedTo(component[..b], a);
      assert component[..b][..a] == component[..a];
      UpperIsDevice(component[..a]);
    }
  }

  lemma DeviceStem(component: string, n: nat, m: nat)
    requires NamesDevice(component, n, m) && '.' !in component[..n]
    ensures Split(component, '.')[0] == component[..m]
  {
    assert component[..m] == component[..n] + component[n..m];
    assert forall k :: 0 <= k < m - n ==> component[n..m][k] == component[n + k];
    assert '.' !in component[..m];
    assert component[0..m] == component[..m];
    SegmentIsPart(component, '.', 0, m);
  }

  // ----- safe paths -----

  /** A character that no path may contain. */
  predicate Forbidden(c: char) {
    || c as int <= 31 || 127 <= c as int <= 159
    || c == '<' || c == '>' || c == ':' || c == '"' || c == '|' || c == '?' || c == '*' || c == '\\'
  }

  ghost predicate GoodSegment(s: string) {
    && 0 < |s| && ByteLen(s) <= 255
    && s != "." && s != ".." && s[|s| - 1] != ' ' && s[|s| - 1] != '.'
    && forall n, m :: !NamesDevice(s, n, m)
  }

  lemma ComponentIsGood(component: string)
    requires '/' !in component && '\\' !in component
    ensures SafeComponent(component) <==>
            GoodSegment(component) && forall k :: 0 <= k < |component| ==> !Forbidden(component[k])
  {
    ReservedIff(component);
  }

  lemma SegmentsInside(value: string, i: nat, j: nat)
    requires Segment(value, '/', i, j)
    ensures forall k :: 0 <= k < j - i ==> value[i..j][k] == value[i + k]
  {
  }

  /** Every character other than a separator is in some segment. */
  lemma {:induction false} InSomeSegment(value: string, k: nat) returns (i: nat, j: nat)
    requires k < |value| && value[k] != '/'
    ensures Segment(value, '/', i, j) && i <= k < j
  {
    i, j := k, k;
    while i > 0 && value[i - 1] != '/'
      invariant i <= k && forall l :: i <= l <= k ==> value[l] != '/'
    {
      i := i - 1;
    }
    while j < |value| && value[j] != '/'
      invariant k <= j <= |value| && forall l :: i <= l < j ==> value[l] != '/'
    {
      j := j + 1;
    }
    assert forall l :: 0 <= l < j - i ==> value[i..j][l] == value[i + l];
  }

  /** Exactly which paths are safe: 1 to 4096 bytes of allowed characters, each of whose segments between
      slashes has 1 to 255 bytes, is no dot or double dot, ends in neither a space nor a dot, and names no
      device. */
  lemma SafeIff(value: string)
    ensures Safe(value) <==>
            && value != "" && ByteLen(value) <= 4096
            && (forall k :: 0 <= k < |value| ==> !Forbidden(value[k]))
            && (forall i, j :: Segment(value, '/', i, j) ==> GoodSegment(value[i..j]))
  {
    var parts := Split(value, '/');
    if Safe(value) {
      SafeIsGood(value);
    }
    if value != "" && ByteLen(value) <= 4096 && (forall k :: 0 <= k < |value| ==> !Forbidden(value[k]))
       && (forall i, j :: Segment(value, '/', i, j) ==> GoodSegment(value[i..j]))
    {
      forall k | 0 <= k < |parts| ensures SafeComponent(parts[k]) {
        var i, j := PartIsSegment(value, '/', k);
        SegmentsInside(value, i, j);
        ComponentIsGood(parts[k]);
      }
      assert '\\' !in value && '\0' !in value;
    }
  }

  lemma SafeIsGood(value: string)
    requires Safe(value)
    ensures forall k :: 0 <= k < |value| ==> !Forbidden(value[k])
    ensures forall i, j :: Segment(value, '/', i, j) ==> GoodSegment(value[i..j])
  {
    forall i, j | Segment(value, '/', i, j)
      ensures GoodSegment(value[i..j]) && forall k :: 0 <= k < j - i ==> !Forbidden(value[i..j][k])
    {
      SegmentIsPart(value, '/', i, j);
      assert value[i..j] in Split(value, '/');
      assert forall k :: 0 <= k < j - i ==> value[i..j][k] in value;
      ComponentIsGood(value[i..j]);
    }
    forall k | 0 <= k < |value| ensures !Forbidden(value[k]) {
      if value[k] != '/' {
        var i, j := InSomeSegment(value, k);
        assert value[i..j][k - i] == value[k];
      }
    }
  }

  // ----- lengths -----

  /** A character takes as many bytes as UTF-8 gives it. */
  lemma {:induction false} ByteLenCounts(a: string, b: string)
    ensures ByteLen(a + b) == ByteLen(a) + ByteLen(b)
    ensures ByteLen([]) == 0
  {
    if a == "" {
      assert a + b == b;
    } else {
      assert (a + b)[1..] == a[1..] + b;
      ByteLenCounts(a[1..], b);
    }
  }

  lemma ByteLenOfOne(c: char)
    ensures var n := c as int;
            ByteLen([c]) == if n <= 0x7F then 1 else if n <= 0x7FF then 2 else if n <= 0xFFFF then 3 else 4
  {
    assert [c][1..] == [];
  }

  // ----- what is always refused -----

  /** No path with an empty, dot or double-dot segment is safe, so neither is one that begins with a slash. */
  lemma TraversalIsUnsafe(value: string, i: int, j: int)
    requires Segment(value, '/', i, j) && (value[i..j] == "" || value[i..j] == "." || value[i..j] == "..")
    ensures !Safe(value)
  {
    SafeIff(value);
  }

  lemma AbsoluteIsUnsafe(value: string)
    requires "/" <= value
    ensures !Safe(value)
  {
    assert value[0..0] == "";
    TraversalIsUnsafe(value, 0, 0);
  }
}
