/**
 * The string primitives the renamer relies on: character classes and case
 * conversion (restricted to ASCII), `String.Split` on one character,
 * `String.Trim`, and the case folding used by case-insensitive comparison.
 */
module Text {

  predicate IsUpper(c: char) { 'A' <= c <= 'Z' }

  predicate IsLower(c: char) { 'a' <= c <= 'z' }

  predicate IsDigit(c: char) { '0' <= c <= '9' }

  predicate IsLetterOrDigit(c: char) { IsUpper(c) || IsLower(c) || IsDigit(c) }

  /** Space, tab, line feed, vertical tab, form feed and carriage return. */
  predicate IsWhiteSpace(c: char) { c == ' ' || '\t' <= c <= '\r' }

  predicate IsLetter(c: char) { IsUpper(c) || IsLower(c) }

  /** `Char.ToUpperInvariant`: a small letter becomes its own capital; anything else is kept. */
  function ToUpper(c: char): (u: char)
    ensures !IsLower(u)
    ensures IsLetterOrDigit(u) == IsLetterOrDigit(c)
    ensures IsLower(c) ==> IsUpper(u) && u as int - 'A' as int == c as int - 'a' as int
    ensures IsLower(c) || u == c
  {
    if IsLower(c) then (c as int - 32) as char else c
  }

  /** `Char.ToLowerInvariant`: a capital becomes its own small letter; anything else is kept. */
  function ToLower(c: char): (l: char)
    ensures !IsUpper(l)
    ensures IsLetterOrDigit(l) == IsLetterOrDigit(c)
    ensures IsUpper(c) ==> IsLower(l) && l as int - 'a' as int == c as int - 'A' as int
    ensures IsUpper(c) || l == c
  {
    if IsUpper(c) then (c as int + 32) as char else c
  }

  lemma LowerOfUpper(c: char)
    ensures ToLower(ToUpper(c)) == ToLower(c)
  {
  }

  /** The string with every letter lower-cased: the form case-insensitive comparison sees. */
  function Lower(s: string): (r: string)
    ensures |r| == |s|
    ensures forall i :: 0 <= i < |s| ==> r[i] == ToLower(s[i])
  {
    seq(|s|, i requires 0 <= i < |s| => ToLower(s[i]))
  }

  /**
   * `string.Compare(x, y, true) == 0`: the same length, and at each position the
   * same character or the same letter in either case.
   */
  predicate EqualIgnoringCase(x: string, y: string)
  {
    |x| == |y| &&
    forall i :: 0 <= i < |x| ==> x[i] == y[i] || (IsLetter(x[i]) && IsLetter(y[i]) && ToUpper(x[i]) == ToUpper(y[i]))
  }

  /** Two characters fold to the same small form exactly when they match ignoring case. */
  lemma ToLowerMatches(a: char, b: char)
    ensures ToLower(a) == ToLower(b) <==> a == b || (IsLetter(a) && IsLetter(b) && ToUpper(a) == ToUpper(b))
  {
  }

  /** Case folding decides case-insensitive equality: the folded forms agree exactly when the strings match ignoring case. */
  lemma LowerDecidesEqualIgnoringCase(x: string, y: string)
    ensures Lower(x) == Lower(y) <==> EqualIgnoringCase(x, y)
  {
    if |x| == |y| {
      forall i | 0 <= i < |x|
        ensures Lower(x)[i] == Lower(y)[i] <==>
          x[i] == y[i] || (IsLetter(x[i]) && IsLetter(y[i]) && ToUpper(x[i]) == ToUpper(y[i]))
      {
        ToLowerMatches(x[i], y[i]);
      }
      if EqualIgnoringCase(x, y) {
        assert forall i :: 0 <= i < |x| ==> Lower(x)[i] == Lower(y)[i];
      }
    } else {
      assert |Lower(x)| != |Lower(y)|;
    }
  }

  /** Index of the first occurrence of `c` in `s`. */
  function IndexOf(s: string, c: char): (i: nat)
    requires c in s
    ensures i < |s| && s[i] == c && c !in s[..i]
  {
    if s[0] == c then 0
    else
      var j := IndexOf(s[1..], c);
      assert s[..j + 1] == [s[0]] + s[1..][..j];
      j + 1
  }

  /** `s.Split(sep)`: the fields between separators, empty fields included. */
  function Split(s: string, sep: char): (parts: seq<string>)
    ensures |parts| >= 1
    decreases |s|
  {
    if sep in s then
      var i := IndexOf(s, sep);
      [s[..i]] + Split(s[i + 1..], sep)
    else [s]
  }

  /** The first field, then the fields of what follows the first separator. */
  lemma SplitAtFirst(s: string, sep: char)
    requires sep in s
    ensures Split(s, sep) == [s[..IndexOf(s, sep)]] + Split(s[IndexOf(s, sep) + 1..], sep)
    ensures s == s[..IndexOf(s, sep)] + [sep] + s[IndexOf(s, sep) + 1..]
  {
  }

  /** The fields joined back with the separator between each two. */
  function Join(parts: seq<string>, sep: char): string
    decreases |parts|
  {
    if parts == [] then ""
    else if |parts| == 1 then parts[0]
    else parts[0] + [sep] + Join(parts[1..], sep)
  }

  lemma {:induction false} JoinSplit(s: string, sep: char)
    ensures Join(Split(s, sep), sep) == s
    decreases |s|
  {
    if sep in s {
      var i := IndexOf(s, sep);
      var parts, rest := Split(s, sep), Split(s[i + 1..], sep);
      assert parts == [s[..i]] + rest;
      assert |parts| >= 2 && parts[0] == s[..i] && parts[1..] == rest;
      assert Join(parts, sep) == s[..i] + [sep] + Join(rest, sep);
      JoinSplit(s[i + 1..], sep);
      assert s == s[..i] + [sep] + s[i + 1..];
    }
  }

  lemma {:induction false} SplitFieldsHaveNoSeparator(s: string, sep: char)
    ensures forall k :: 0 <= k < |Split(s, sep)| ==> sep !in Split(s, sep)[k]
    decreases |s|
  {
    if sep in s {
      var i := IndexOf(s, sep);
      SplitFieldsHaveNoSeparator(s[i + 1..], sep);
    }
  }

  lemma {:induction false} SplitJoin(parts: seq<string>, sep: char)
    requires |parts| >= 1
    requires forall k :: 0 <= k < |parts| ==> sep !in parts[k]
    ensures Split(Join(parts, sep), sep) == parts
    decreases |parts|
  {
    if |parts| > 1 {
      var s := Join(parts, sep);
      var rest := Join(parts[1..], sep);
      assert s == parts[0] + [sep] + rest;
      assert s[|parts[0]|] == sep;
      IndexOfAfterFree(parts[0], [sep] + rest, sep);
      assert s[..|parts[0]|] == parts[0];
      assert s[|parts[0]| + 1..] == rest;
      SplitJoin(parts[1..], sep);
      assert parts == [parts[0]] + parts[1..];
    } else {
      assert parts == [parts[0]];
    }
  }

  /** The first occurrence in `a + b` is in `b` when `a` has none. */
  lemma IndexOfAfterFree(a: string, b: string, c: char)
    requires c !in a && c in b
    ensures c in a + b && IndexOf(a + b, c) == |a| + IndexOf(b, c)
  {
    var j := IndexOf(b, c);
    assert (a + b)[|a| + j] == c;
  }

  /** The first occurrence in `a + b` is in `a` when `a` has one. */
  lemma IndexOfInPrefix(a: string, b: string, c: char)
    requires c in a
    ensures IndexOf(a + b, c) == IndexOf(a, c)
  {
    assert (a + b)[IndexOf(a, c)] == c;
  }

  /** Splitting distributes over a separator: the fields of `a`, then those of `b`. */
  lemma {:induction false} SplitAppend(a: string, b: string, sep: char)
    ensures Split(a + [sep] + b, sep) == Split(a, sep) + Split(b, sep)
    decreases |a|
  {
    if sep in a {
      var i := IndexOf(a, sep);
      var a1 := a[i + 1..];
      SplitAppendAtFirst(a, b, sep);
      SplitAppend(a1, b, sep);
      SplitAtFirst(a, sep);
      Associative([a[..i]], Split(a1, sep), Split(b, sep));
    } else {
      SplitAppendFree(a, b, sep);
    }
  }

  /** Regrouping lists of fields; kept apart so that proofs about `Split` cite it instead of rediscovering it. */
  lemma Associative(x: seq<string>, y: seq<string>, z: seq<string>)
    ensures (x + y) + z == x + (y + z)
  {
  }

  /** When `a` holds the separator, the first field of `a + [sep] + b` is that of `a`. */
  lemma SplitAppendAtFirst(a: string, b: string, sep: char)
    requires sep in a
    ensures Split(a + [sep] + b, sep) ==
      [a[..IndexOf(a, sep)]] + Split(a[IndexOf(a, sep) + 1..] + [sep] + b, sep)
  {
    var s, i := a + [sep] + b, IndexOf(a, sep);
    assert s == a + ([sep] + b);
    IndexOfInPrefix(a, [sep] + b, sep);
    var tail := a[i + 1..] + [sep] + b;
    assert a == a[..i + 1] + a[i + 1..];
    assert s == a[..i + 1] + tail;
    assert (a[..i + 1] + tail)[..i + 1] == a[..i + 1] && (a[..i + 1] + tail)[i + 1..] == tail;
    assert s[..i] == a[..i];
  }

  /** When `a` has no separator, it is the first field of `a + [sep] + b`. */
  lemma SplitAppendFree(a: string, b: string, sep: char)
    requires sep !in a
    ensures Split(a + [sep] + b, sep) == Split(a, sep) + Split(b, sep)
  {
    var s := a + [sep] + b;
    assert s == a + ([sep] + b);
    IndexOfAfterFree(a, [sep] + b, sep);
    assert IndexOf(s, sep) == |a|;
    assert s[..|a| + 1] == a + [sep] && s[|a| + 1..] == b;
    assert s[..|a|] == a;
    assert Split(s, sep) == [a] + Split(b, sep);
  }

  function TrimStart(s: string): string
  {
    if s != [] && IsWhiteSpace(s[0]) then TrimStart(s[1..]) else s
  }

  function TrimEnd(s: string): string
  {
    if s != [] && IsWhiteSpace(s[|s| - 1]) then TrimEnd(s[..|s| - 1]) else s
  }

  /** `s.Trim()`: leading and trailing white space removed. */
  function Trim(s: string): string
  {
    TrimEnd(TrimStart(s))
  }

  /** TrimStart drops exactly the leading white space. */
  lemma {:induction false} TrimStartDropsLeadingSpace(s: string)
    ensures var r := TrimStart(s);
      |r| <= |s| && r == s[|s| - |r|..] &&
      (forall i :: 0 <= i < |s| - |r| ==> IsWhiteSpace(s[i])) &&
      (r == [] || !IsWhiteSpace(r[0]))
  {
    if s != [] && IsWhiteSpace(s[0]) {
      var t := s[1..];
      TrimStartDropsLeadingSpace(t);
      var r := TrimStart(t);
      assert TrimStart(s) == r;
      assert t[|t| - |r|..] == s[|s| - |r|..];
      forall i | 0 <= i < |s| - |r|
        ensures IsWhiteSpace(s[i])
      {
        if i > 0 {
          assert s[i] == t[i - 1];
        }
      }
    }
  }

  /** TrimEnd drops exactly the trailing white space. */
  lemma {:induction false} TrimEndDropsTrailingSpace(s: string)
    ensures var r := TrimEnd(s);
      |r| <= |s| && r == s[..|r|] &&
      (forall i :: |r| <= i < |s| ==> IsWhiteSpace(s[i])) &&
      (r == [] || !IsWhiteSpace(r[|r| - 1]))
  {
    if s != [] && IsWhiteSpace(s[|s| - 1]) {
      var t := s[..|s| - 1];
      TrimEndDropsTrailingSpace(t);
      var r := TrimEnd(t);
      assert TrimEnd(s) == r;
      assert t[..|r|] == s[..|r|];
      forall i | |r| <= i < |s|
        ensures IsWhiteSpace(s[i])
      {
        if i < |s| - 1 {
          assert s[i] == t[i];
        }
      }
    }
  }

  /**
   * The trimmed string is the slice of the input that starts at its first
   * character that is not white space and ends at its last one: everything
   * dropped before and after it is white space, and it has white space on
   * neither end.
   */
  lemma TrimmedEnds(s: string)
    ensures |TrimStart(s)| <= |s| && |Trim(s)| <= |TrimStart(s)|
    ensures var a := |s| - |TrimStart(s)|; var t := Trim(s);
      a + |t| <= |s| && t == s[a..a + |t|] &&
      (forall i :: 0 <= i < a ==> IsWhiteSpace(s[i])) &&
      (forall i :: a + |t| <= i < |s| ==> IsWhiteSpace(s[i]))
    ensures Trim(s) == [] || (!IsWhiteSpace(Trim(s)[0]) && !IsWhiteSpace(Trim(s)[|Trim(s)| - 1]))
  {
    TrimStartDropsLeadingSpace(s);
    var a, r := |s| - |TrimStart(s)|, TrimStart(s);
    TrimEndDropsTrailingSpace(r);
    var t := Trim(s);
    assert t == r[..|t|];
    assert r[..|t|] == s[a..a + |t|];
    forall i | a + |t| <= i < |s|
      ensures IsWhiteSpace(s[i])
    {
      assert s[i] == r[i - a];
    }
  }

  /** A string with no white space at either end is its own trim. */
  lemma TrimUnpadded(s: string)
    requires s == [] || (!IsWhiteSpace(s[0]) && !IsWhiteSpace(s[|s| - 1]))
    ensures Trim(s) == s
  {
    assert TrimStart(s) == s;
  }

  lemma TrimIdempotent(s: string)
    ensures Trim(Trim(s)) == Trim(s)
  {
    TrimmedEnds(s);
    var t := Trim(s);
    assert TrimStart(t) == t;
    TrimEndDropsTrailingSpace(t);
  }
}
