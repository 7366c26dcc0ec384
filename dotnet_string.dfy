/**
 * The .NET string operations the program relies on. Every comparison is
 * ordinal (character by character), as `==`, `String.Split(string)`,
 * `String.Contains(string)` and `String.Replace(string, string)` are.
 */
module DotNetString {
  import opened Base

  /**
   * `Char.IsWhiteSpace`: the Unicode space, line and paragraph separators,
   * plus the control characters U+0009 to U+000D and U+0085.
   */
  predicate IsWhiteSpace(c: char) {
    ('\U{0009}' <= c <= '\U{000D}') || c == ' ' || c == '\U{0085}' || c == '\U{00A0}'
    || c == '\U{1680}' || ('\U{2000}' <= c <= '\U{200A}') || c == '\U{2028}'
    || c == '\U{2029}' || c == '\U{202F}' || c == '\U{205F}' || c == '\U{3000}'
  }

  /** `String.IsNullOrWhiteSpace` on a non-null string: the empty string is blank too. */
  predicate IsBlank(s: string) {
    forall i | 0 <= i < |s| :: IsWhiteSpace(s[i])
  }

  /** `String.IsNullOrWhiteSpace` on a reference that may be null. */
  predicate IsNullOrWhiteSpace(s: Option<string>) {
    s.None? || IsBlank(s.value)
  }

  /** `sub` occurs in `s` at index `i`. */
  predicate MatchAt(s: string, sub: string, i: int) {
    0 <= i && i + |sub| <= |s| && s[i..i + |sub|] == sub
  }

  lemma MatchAtPrefix(s: string, sub: string, n: nat, j: int)
    requires n <= |s| && MatchAt(s[..n], sub, j)
    ensures MatchAt(s, sub, j) && j + |sub| <= n
  {
    assert s[..n][j..j + |sub|] == s[j..j + |sub|];
  }

  /** The first index at or after `k` at which `sub` occurs, if any. */
  function IndexFrom(s: string, sub: string, k: nat): (r: Option<nat>)
    requires k <= |s|
    ensures r.Some? ==> k <= r.value && MatchAt(s, sub, r.value)
    decreases |s| - k
  {
    if k + |sub| > |s| then None
    else if MatchAt(s, sub, k) then Some(k)
    else IndexFrom(s, sub, k + 1)
  }

  /** Ordinal `String.IndexOf(string)`: the first index at which `sub` occurs, if any. */
  function IndexOf(s: string, sub: string): (r: Option<nat>)
    ensures r.Some? ==> MatchAt(s, sub, r.value)
  {
    IndexFrom(s, sub, 0)
  }

  /** No occurrence at or after `k` comes before the index found; when none is found, none occurs from `k` on. */
  lemma {:induction false} IndexFromFirst(s: string, sub: string, k: nat)
    requires k <= |s|
    ensures IndexFrom(s, sub, k).Some? ==> forall j :: k <= j < IndexFrom(s, sub, k).value ==> !MatchAt(s, sub, j)
    ensures IndexFrom(s, sub, k).None? ==> forall j :: k <= j ==> !MatchAt(s, sub, j)
    decreases |s| - k
  {
    if k + |sub| <= |s| && !MatchAt(s, sub, k) {
      IndexFromFirst(s, sub, k + 1);
    }
  }

  /** No occurrence comes before the index found; when none is found, `sub` occurs nowhere. */
  lemma IndexOfFirst(s: string, sub: string)
    ensures IndexOf(s, sub).Some? ==> forall j :: 0 <= j < IndexOf(s, sub).value ==> !MatchAt(s, sub, j)
    ensures IndexOf(s, sub).None? ==> forall j :: !MatchAt(s, sub, j)
  {
    IndexFromFirst(s, sub, 0);
  }

  /** Ordinal `String.Contains(string)`, which .NET defines as a non-negative `IndexOf`. */
  predicate Contains(s: string, sub: string) {
    IndexOf(s, sub).Some?
  }

  lemma ContainsIffOccurs(s: string, sub: string)
    ensures Contains(s, sub) <==> exists i :: MatchAt(s, sub, i)
  {
    IndexOfFirst(s, sub);
  }

  /**
   * `String.Split(string)` with no options: the text between consecutive,
   * non-overlapping occurrences of `sep`, found left to right. An empty
   * separator leaves the string whole.
   */
  function Split(s: string, sep: string): (parts: seq<string>)
    ensures |parts| >= 1
    decreases |s|
  {
    if sep == [] then [s]
    else
      match IndexOf(s, sep)
      case None => [s]
      case Some(i) => [s[..i]] + Split(s[i + |sep|..], sep)
  }

  /** The inverse of `Split`: the parts glued back with `sep` between them. */
  function Join(parts: seq<string>, sep: string): string
    requires |parts| >= 1
  {
    if |parts| == 1 then parts[0] else parts[0] + sep + Join(parts[1..], sep)
  }

  /** Splitting loses nothing: joining the parts gives back the original string. */
  lemma {:induction false} SplitJoin(s: string, sep: string)
    ensures Join(Split(s, sep), sep) == s
    decreases |s|
  {
    if sep != [] && Contains(s, sep) {
      var i := IndexOf(s, sep).value;
      var rest := s[i + |sep|..];
      SplitFirst(s, sep);
      SplitRest(s, sep);
      var parts := Split(s, sep);
      SplitJoin(rest, sep);
      assert Join(parts, sep) == s[..i] + sep + Join(Split(rest, sep), sep);
      Reassemble(s, i, |sep|);
    } else if sep != [] {
      SplitWhole(s, sep);
    }
  }

  /** A string is its text before `i`, the `n` characters from `i`, and the rest. */
  lemma Reassemble(s: string, i: nat, n: nat)
    requires i + n <= |s|
    ensures s == s[..i] + s[i..i + n] + s[i + n..]
  {
  }

  /** No part of a split contains the separator. */
  lemma {:induction false} SplitPartsFree(s: string, sep: string)
    requires sep != []
    ensures forall k :: 0 <= k < |Split(s, sep)| ==> !Contains(Split(s, sep)[k], sep)
    decreases |s|
  {
    if Contains(s, sep) {
      var i := IndexOf(s, sep).value;
      var rest := s[i + |sep|..];
      SplitFirst(s, sep);
      SplitRest(s, sep);
      SplitPartsFree(rest, sep);
      if Contains(s[..i], sep) {
        IndexOfFirst(s, sep);
        MatchAtPrefix(s, sep, i, IndexOf(s[..i], sep).value);
        assert false;
      }
      var parts := Split(s, sep);
      forall k | 0 <= k < |parts|
        ensures !Contains(parts[k], sep)
      {
        if k > 0 {
          assert parts[k] == parts[1..][k - 1];
        }
      }
    } else {
      SplitWhole(s, sep);
    }
  }

  /** One step of `Split`: the text before the first separator, then the split of the rest. */
  lemma SplitStep(s: string, sep: string)
    requires sep != [] && IndexOf(s, sep).Some?
    ensures var i := IndexOf(s, sep).value;
            Split(s, sep) == [s[..i]] + Split(s[i + |sep|..], sep)
  {
  }

  /** Without the separator the string is left whole. */
  lemma SplitWhole(s: string, sep: string)
    requires !Contains(s, sep)
    ensures Split(s, sep) == [s]
  {
  }

  /** With the separator there are at least two parts, the first being the text before the first separator. */
  lemma SplitFirst(s: string, sep: string)
    requires sep != [] && Contains(s, sep)
    ensures var i := IndexOf(s, sep).value;
            |Split(s, sep)| >= 2 && |Split(s, sep)[0]| == i && Split(s, sep)[0] == s[..i]
  {
    SplitStep(s, sep);
  }

  /** With the separator, the parts after the first are the split of the text after the first separator. */
  lemma SplitRest(s: string, sep: string)
    requires sep != [] && Contains(s, sep)
    ensures Split(s, sep)[1..] == Split(s[IndexOf(s, sep).value + |sep|..], sep)
  {
    SplitStep(s, sep);
  }

  /** There is a single part exactly when the separator does not occur. */
  lemma SplitCount(s: string, sep: string)
    requires sep != []
    ensures |Split(s, sep)| == 1 <==> !Contains(s, sep)
  {
    if Contains(s, sep) {
      SplitFirst(s, sep);
    } else {
      SplitWhole(s, sep);
    }
  }

  /** `String.Replace(c.ToString(), "")`: every occurrence of `c` removed, the rest kept in order. */
  function RemoveAll(s: string, c: char): string
  {
    if s == [] then [] else (if s[0] == c then [] else [s[0]]) + RemoveAll(s[1..], c)
  }

  /** The result holds no `c`, and every other character as often as `s` does. */
  lemma {:induction false} RemoveAllContents(s: string, c: char)
    ensures c !in RemoveAll(s, c)
    ensures multiset(RemoveAll(s, c)) == multiset(s)[c := 0]
    ensures |RemoveAll(s, c)| == |s| - multiset(s)[c]
  {
    if s != [] {
      RemoveAllContents(s[1..], c);
      assert s == [s[0]] + s[1..];
      assert multiset(s) == multiset{s[0]} + multiset(s[1..]);
    }
  }

  /** Removal works piece by piece, so the order of what remains is the order in `s`. */
  lemma {:induction false} RemoveAllConcat(a: string, b: string, c: char)
    ensures RemoveAll(a + b, c) == RemoveAll(a, c) + RemoveAll(b, c)
  {
    if a == [] {
      assert a + b == b;
    } else {
      assert (a + b)[0] == a[0] && (a + b)[1..] == a[1..] + b;
      var head := if a[0] == c then [] else [a[0]];
      assert RemoveAll(a + b, c) == head + RemoveAll(a[1..] + b, c);
      assert RemoveAll(a, c) == head + RemoveAll(a[1..], c);
      RemoveAllConcat(a[1..], b, c);
    }
  }

  /** A string is left unchanged exactly when it holds no `c`. */
  lemma RemoveAllIdentity(s: string, c: char)
    ensures RemoveAll(s, c) == s <==> c !in s
  {
    RemoveAllContents(s, c);
    if c !in s {
      NoOccurrenceKept(s, c);
    }
  }

  lemma {:induction false} NoOccurrenceKept(s: string, c: char)
    requires c !in s
    ensures RemoveAll(s, c) == s
  {
    if s != [] {
      NoOccurrenceKept(s[1..], c);
    }
  }
}
