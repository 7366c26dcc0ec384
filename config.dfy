/**
 * Settings lookup in the lines of the configuration file: each line is meant
 * to hold `key = value`, and `GetProperty` returns the value of the first
 * line whose key matches.
 */
module Config {
  import opened Base
  import opened DotNetString

  /** The separator between key and value, spaces included. */
  const Separator := " = "

  /** What `GetProperty` yields for one key. */
  datatype Property =
    | Found(value: string)  // the second segment of the first line whose key matches
    | Absent                // no line's key matches: the method returns null
    | MissingValue          // that line has no separator: indexing segment 1 throws IndexOutOfRangeException

  /** The text of a line before its first separator (the whole line when there is none). */
  function KeyOf(line: string): string {
    Split(line, Separator)[0]
  }

  /** What a line yields once its key has matched: its second segment, or the index failure. */
  function LineValue(line: string): Property {
    var parts := Split(line, Separator);
    if |parts| < 2 then MissingValue else Found(parts[1])
  }

  /** The meaning of a lookup: the value of the first line, in file order, whose key is `key`. */
  function Lookup(config: seq<string>, key: string): Property
  {
    if config == [] then Absent
    else if KeyOf(config[0]) == key then LineValue(config[0])
    else Lookup(config[1..], key)
  }

  /** Line `i` is the first line whose key is `key`. */
  predicate FirstKeyMatch(config: seq<string>, key: string, i: int) {
    0 <= i < |config| && KeyOf(config[i]) == key
    && forall j :: 0 <= j < i ==> KeyOf(config[j]) != key
  }

  /**
   * The C# value of a lookup that returned: the string, or null. A lookup
   * that throws has no value; it is mapped to null here and never used.
   */
  function Nullable(p: Property): (r: Option<string>)
    ensures r.Some? <==> p.Found?
    ensures r.Some? ==> r.value == p.value
  {
    if p.Found? then Some(p.value) else None
  }

  /** `GetProperty`: scan the lines in order and return at the first whose key matches. */
  method GetProperty(config: seq<string>, property: string) returns (r: Property)
    ensures r == Lookup(config, property)
  {
    var separator := Separator;
    for i := 0 to |config|
      invariant Lookup(config, property) == Lookup(config[i..], property)
    {
      var line := config[i];
      assert config[i..][1..] == config[i + 1..];
      if property == Split(line, separator)[0] {
        var parts := Split(line, separator);
        if |parts| < 2 {
          return MissingValue;
        }
        return Found(parts[1]);
      }
    }
    assert config[|config|..] == [];
    return Absent;
  }

  /**
   * The lookup is null exactly when no line's key matches, and otherwise it
   * is decided by the first line that does.
   */
  lemma {:induction false} LookupCharacterization(config: seq<string>, key: string)
    ensures Lookup(config, key) == Absent <==> forall i :: 0 <= i < |config| ==> KeyOf(config[i]) != key
    ensures Lookup(config, key) != Absent ==>
              exists i :: FirstKeyMatch(config, key, i) && Lookup(config, key) == LineValue(config[i])
  {
    if config != [] && KeyOf(config[0]) != key {
      LookupCharacterization(config[1..], key);
      if Lookup(config, key) != Absent {
        var i :| FirstKeyMatch(config[1..], key, i) && Lookup(config[1..], key) == LineValue(config[1..][i]);
        assert FirstKeyMatch(config, key, i + 1);
      }
    } else if config != [] {
      assert FirstKeyMatch(config, key, 0);
    }
  }

  /**
   * The C# value of a lookup that returns is null exactly when no line's key
   * matches, and otherwise it is the value of the first line whose key does.
   */
  lemma NullableLookup(config: seq<string>, key: string)
    requires !Lookup(config, key).MissingValue?
    ensures Nullable(Lookup(config, key)).None? <==> forall i | 0 <= i < |config| :: KeyOf(config[i]) != key
    ensures Nullable(Lookup(config, key)).Some? ==>
              exists i :: FirstKeyMatch(config, key, i) && LineValue(config[i]) == Found(Nullable(Lookup(config, key)).value)
  {
    LookupCharacterization(config, key);
  }

  /** Whatever line is the first match decides the lookup: later lines with the same key are never read. */
  lemma {:induction false} LookupFirstMatch(config: seq<string>, key: string, i: int)
    requires FirstKeyMatch(config, key, i)
    ensures Lookup(config, key) == LineValue(config[i])
  {
    if i > 0 {
      assert FirstKeyMatch(config[1..], key, i - 1);
      LookupFirstMatch(config[1..], key, i - 1);
    }
  }

  /** Lines appended after a matching line change nothing; after no match, the appended lines decide. */
  lemma {:induction false} LookupIgnoresLaterLines(a: seq<string>, b: seq<string>, key: string)
    ensures Lookup(a, key) != Absent ==> Lookup(a + b, key) == Lookup(a, key)
    ensures Lookup(a, key) == Absent ==> Lookup(a + b, key) == Lookup(b, key)
  {
    if a == [] {
      assert a + b == b;
    } else {
      assert (a + b)[0] == a[0] && (a + b)[1..] == a[1..] + b;
      LookupIgnoresLaterLines(a[1..], b, key);
    }
  }

  /** A matching line lacks a value exactly when the line is the bare key, with no separator at all. */
  lemma BareKeyLine(line: string)
    ensures LineValue(line) == MissingValue <==> KeyOf(line) == line
  {
    if Contains(line, Separator) {
      SplitFirst(line, Separator);
    } else {
      SplitWhole(line, Separator);
    }
  }

  /**
   * The lookup fails with an index error exactly when the first line whose
   * key matches is the bare key.
   */
  lemma LookupMissingValue(config: seq<string>, key: string)
    ensures Lookup(config, key) == MissingValue <==> exists i :: FirstKeyMatch(config, key, i) && config[i] == key
  {
    LookupCharacterization(config, key);
    if i :| FirstKeyMatch(config, key, i) && config[i] == key {
      LookupFirstMatch(config, key, i);
      BareKeyLine(config[i]);
    }
    if Lookup(config, key) == MissingValue {
      var i :| FirstKeyMatch(config, key, i) && Lookup(config, key) == LineValue(config[i]);
      BareKeyLine(config[i]);
    }
  }

  /** A line holding the separator is its key segment, the separator, and the rest of the line. */
  lemma SplitAtFirst(s: string)
    requires Contains(s, Separator)
    ensures s == KeyOf(s) + Separator + s[|KeyOf(s)| + |Separator|..]
    ensures Split(s, Separator)[1..] == Split(s[|KeyOf(s)| + |Separator|..], Separator)
  {
    SplitFirst(s, Separator);
    SplitRest(s, Separator);
    var k := KeyOf(s);
    assert s[..|k|] == k;
    Reassemble(s, |k|, |Separator|);
  }

  /** The value found on a line is the key segment of the text after the line's first separator. */
  lemma FoundValueAfterKey(line: string, v: string)
    requires LineValue(line) == Found(v)
    ensures Contains(line, Separator)
    ensures line == KeyOf(line) + Separator + line[|KeyOf(line)| + |Separator|..]
    ensures v == KeyOf(line[|KeyOf(line)| + |Separator|..])
  {
    SplitCount(line, Separator);
    SplitAtFirst(line);
  }

  /** Neither the key nor the value of a line holds a separator. */
  lemma FoundValueFree(line: string, v: string)
    requires LineValue(line) == Found(v)
    ensures !Contains(KeyOf(line), Separator) && !Contains(v, Separator)
  {
    FoundValueAfterKey(line, v);
    SplitPartsFree(line, Separator);
    SplitPartsFree(line[|KeyOf(line)| + |Separator|..], Separator);
  }

  /**
   * A value found on a line is the text between its first and second
   * separators: the line is the key, a separator, the value, and then either
   * nothing or another separator.
   */
  lemma FoundValueShape(line: string, v: string)
    requires LineValue(line) == Found(v)
    ensures exists rest :: line == KeyOf(line) + Separator + v + rest && (rest == [] || MatchAt(rest, Separator, 0))
  {
    FoundValueAfterKey(line, v);
    var tail := line[|KeyOf(line)| + |Separator|..];
    if Contains(tail, Separator) {
      var rest := FoundValueBeforeSeparator(line, v);
    } else {
        FoundValueLast(line, v);
      assert line == KeyOf(line) + Separator + v + [];
    }
  }

  /** When the text after the first separator holds another, the value ends at it. */
  lemma FoundValueBeforeSeparator(line: string, v: string) returns (rest: string)
    requires LineValue(line) == Found(v) && Contains(line[|KeyOf(line)| + |Separator|..], Separator)
    ensures line == KeyOf(line) + Separator + v + rest && MatchAt(rest, Separator, 0)
  {
    FoundValueAfterKey(line, v);
    var tail := line[|KeyOf(line)| + |Separator|..];
    SplitAtFirst(tail);
    var after := tail[|v| + |Separator|..];
    Regroup(line, KeyOf(line), tail, v, after);
    rest := Separator + after;
  }

  /** When the text after the first separator holds no other, the value is all of it. */
  lemma FoundValueLast(line: string, v: string)
    requires LineValue(line) == Found(v) && !Contains(line[|KeyOf(line)| + |Separator|..], Separator)
    ensures line == KeyOf(line) + Separator + v
  {
    FoundValueAfterKey(line, v);
    SplitWhole(line[|KeyOf(line)| + |Separator|..], Separator);
  }

  /** Regrouping `k`, a separator, then `v`, a separator and `rest`. */
  lemma Regroup(line: string, k: string, tail: string, v: string, rest: string)
    requires line == k + Separator + tail && tail == v + Separator + rest
    ensures line == k + Separator + v + (Separator + rest) && MatchAt(Separator + rest, Separator, 0)
  {
    assert (Separator + rest)[0..|Separator|] == Separator;
  }

  /** A key that itself contains the separator can never be found: no line's key segment holds one. */
  lemma KeyWithSeparatorAbsent(config: seq<string>, key: string)
    requires Contains(key, Separator)
    ensures Lookup(config, key) == Absent
  {
    forall i | 0 <= i < |config|
      ensures KeyOf(config[i]) != key
    {
      SplitPartsFree(config[i], Separator);
    }
    LookupCharacterization(config, key);
  }
}
