/**
 * The built-in default name mapper: turns snake_case, space separated or
 * mixed-case raw names into PascalCase identifiers, with no table lookup.
 */
module DefaultNamer {
  import opened Common
  import opened Text

  /**
   * The case a kept character takes, given the input character just before it
   * (None at the start of the input): upper at a word start (start of input or
   * after a character that is neither letter nor digit), upper for a capital
   * that follows a lower-case letter, lower otherwise.
   */
  function Cased(prev: Option<char>, c: char): char
  {
    if prev.None? || !IsLetterOrDigit(prev.value) then ToUpper(c)
    else if IsUpper(c) && IsLower(prev.value) then ToUpper(c)
    else ToLower(c)
  }

  /** The default name of `s` when the input character before `s` was `prev`. */
  function NameFrom(prev: Option<char>, s: string): string
    decreases |s|
  {
    if s == [] then []
    else (if IsLetterOrDigit(s[0]) then [Cased(prev, s[0])] else []) + NameFrom(Some(s[0]), s[1..])
  }

  function DefaultName(s: string): string
  {
    NameFrom(None, s)
  }

  /** The letters and digits of `s`, in order. */
  function Kept(s: string): string
    decreases |s|
  {
    if s == [] then []
    else (if IsLetterOrDigit(s[0]) then [s[0]] else []) + Kept(s[1..])
  }

  /** `DefaultMapName`: one pass over the name, appending each kept character in its case. */
  method DefaultMapName(name: string) returns (res: string)
    ensures res == DefaultName(name)
  {
    res := "";
    var i := 0;
    while i < |name|
      invariant 0 <= i <= |name|
      invariant res == DefaultName(name[..i])
    {
      DefaultNameSnoc(name, i);
      var previous := i - 1;
      if IsLetterOrDigit(name[i]) {
        if previous < 0 || !IsLetterOrDigit(name[previous]) {
          res := res + [ToUpper(name[i])];
        } else if IsUpper(name[i]) && IsLower(name[previous]) {
          res := res + [ToUpper(name[i])];
        } else {
          res := res + [ToLower(name[i])];
        }
      }
      i := i + 1;
    }
    assert name[..|name|] == name;
  }

  /** Appending a character appends its contribution, cased by the character before it. */
  lemma {:induction false} NameFromSnoc(prev: Option<char>, a: string, c: char)
    ensures NameFrom(prev, a + [c]) == NameFrom(prev, a) +
      (if IsLetterOrDigit(c) then [Cased(if a == [] then prev else Some(a[|a| - 1]), c)] else [])
    decreases |a|
  {
    if a != [] {
      assert (a + [c])[0] == a[0] && (a + [c])[1..] == a[1..] + [c];
      NameFromSnoc(Some(a[0]), a[1..], c);
      if a[1..] != [] {
        assert a[1..][|a[1..]| - 1] == a[|a| - 1];
      }
    }
  }

  /** The default name of one more character of the input, as the loop builds it. */
  lemma DefaultNameSnoc(name: string, i: nat)
    requires i < |name|
    ensures DefaultName(name[..i + 1]) == DefaultName(name[..i]) +
      (if IsLetterOrDigit(name[i]) then [Cased(if i == 0 then None else Some(name[i - 1]), name[i])] else [])
  {
    assert name[..i + 1] == name[..i] + [name[i]];
    NameFromSnoc(None, name[..i], name[i]);
    if i > 0 {
      assert name[..i][i - 1] == name[i - 1];
    }
  }

  /** The result consists of exactly the letters and digits of the input, in order, up to case. */
  lemma {:induction false} NameFromKeepsLettersAndDigits(prev: Option<char>, s: string)
    ensures |NameFrom(prev, s)| == |Kept(s)|
    ensures forall i :: 0 <= i < |Kept(s)| ==> ToLower(NameFrom(prev, s)[i]) == ToLower(Kept(s)[i])
    ensures forall i :: 0 <= i < |Kept(s)| ==> IsLetterOrDigit(NameFrom(prev, s)[i])
    decreases |s|
  {
    if s != [] {
      NameFromKeepsLettersAndDigits(Some(s[0]), s[1..]);
      LowerOfUpper(s[0]);
    }
  }

  /**
   * Position by position: the kept character at input index `i` lands at
   * output index |Kept(s[..i])|, cased by the character just before it.
   */
  lemma {:induction false} CasingAt(prev: Option<char>, s: string, i: nat)
    requires i < |s| && IsLetterOrDigit(s[i])
    ensures |Kept(s[..i])| < |NameFrom(prev, s)|
    ensures NameFrom(prev, s)[|Kept(s[..i])|] == Cased(if i == 0 then prev else Some(s[i - 1]), s[i])
    decreases |s|
  {
    if i == 0 {
      assert s[..0] == [];
    } else {
      CasingAt(Some(s[0]), s[1..], i - 1);
      assert s[..i][1..] == s[1..][..i - 1];
      assert i - 1 == 0 || s[1..][i - 2] == s[i - 1];
    }
  }

  /** A result that starts at a word boundary never begins with a lower-case letter. */
  lemma {:induction false} StartsUpperAtBoundary(prev: Option<char>, s: string)
    requires prev.None? || !IsLetterOrDigit(prev.value)
    requires NameFrom(prev, s) != []
    ensures !IsLower(NameFrom(prev, s)[0])
    decreases |s|
  {
    if !IsLetterOrDigit(s[0]) {
      StartsUpperAtBoundary(Some(s[0]), s[1..]);
    }
  }

  /** After a separator the rest is named as if it started the input. */
  lemma SeparatorActsAsStart(c: char, s: string)
    requires !IsLetterOrDigit(c)
    ensures NameFrom(Some(c), s) == DefaultName(s)
  {
  }

  /** Naming distributes over any separator that is neither letter nor digit. */
  lemma {:induction false} NameFromAcrossSeparator(prev: Option<char>, a: string, c: char, b: string)
    requires !IsLetterOrDigit(c)
    ensures NameFrom(prev, a + [c] + b) == NameFrom(prev, a) + DefaultName(b)
    decreases |a|
  {
    var s := a + [c] + b;
    if a == [] {
      assert s[1..] == b;
      SeparatorActsAsStart(c, b);
    } else {
      assert s[0] == a[0];
      assert s[1..] == a[1..] + [c] + b;
      NameFromAcrossSeparator(Some(a[0]), a[1..], c, b);
    }
  }

  lemma DefaultNameAcrossSeparator(a: string, c: char, b: string)
    requires !IsLetterOrDigit(c)
    ensures DefaultName(a + [c] + b) == DefaultName(a) + DefaultName(b)
  {
    NameFromAcrossSeparator(None, a, c, b);
  }

  /** The default name is made of letters and digits and does not start with a lower-case letter. */
  lemma DefaultNameIsIdentifier(s: string)
    ensures forall i :: 0 <= i < |DefaultName(s)| ==> IsLetterOrDigit(DefaultName(s)[i])
    ensures DefaultName(s) != [] ==> !IsLower(DefaultName(s)[0])
  {
    NameFromKeepsLettersAndDigits(None, s);
    if DefaultName(s) != [] {
      StartsUpperAtBoundary(None, s);
    }
  }

  /** Lower-case words joined by `_` become their capitalised forms, concatenated. */
  lemma SnakeCaseWords(a: string, b: string)
    requires a != [] && forall i :: 0 <= i < |a| ==> IsLower(a[i])
    requires b != [] && forall i :: 0 <= i < |b| ==> IsLower(b[i])
    ensures DefaultName(a + "_" + b) == [ToUpper(a[0])] + a[1..] + [ToUpper(b[0])] + b[1..]
  {
    DefaultNameAcrossSeparator(a, '_', b);
    LowerWordCapitalised(a);
    LowerWordCapitalised(b);
  }

  /** After a letter or digit, a run of lower-case letters is kept as it is. */
  lemma {:induction false} LowerRunKept(p: char, s: string)
    requires IsLetterOrDigit(p)
    requires forall i :: 0 <= i < |s| ==> IsLower(s[i])
    ensures NameFrom(Some(p), s) == s
    decreases |s|
  {
    if s != [] {
      LowerRunKept(s[0], s[1..]);
      assert s == [s[0]] + s[1..];
    }
  }

  /** A lower-case word gets a capital initial and keeps the rest. */
  lemma LowerWordCapitalised(w: string)
    requires w != [] && forall i :: 0 <= i < |w| ==> IsLower(w[i])
    ensures DefaultName(w) == [ToUpper(w[0])] + w[1..]
  {
    LowerRunKept(w[0], w[1..]);
  }

  /** Single lower-case words. */
  lemma WordExamples()
    ensures DefaultName("order") == "Order"
    ensures DefaultName("line") == "Line"
    ensures DefaultName("item") == "Item"
  {
    LowerWordCapitalised("order");
    LowerWordCapitalised("line");
    LowerWordCapitalised("item");
  }

  /** A capital after a capital is lower-cased. */
  lemma AcronymExample()
    ensures DefaultName("ID") == "Id"
  {
    assert NameFrom(Some('I'), "D") == "d";
  }

  /** After a capital, a run of capitals is lower-cased. */
  lemma {:induction false} UpperRunLowered(p: char, s: string)
    requires IsUpper(p)
    requires forall i :: 0 <= i < |s| ==> IsUpper(s[i])
    ensures NameFrom(Some(p), s) == Lower(s)
    decreases |s|
  {
    if s != [] {
      UpperRunLowered(s[0], s[1..]);
      assert Lower(s) == [ToLower(s[0])] + Lower(s[1..]);
    }
  }

  /** A capital after a lower-case letter starts a new word. */
  lemma CamelCaseWords(a: string, b: string)
    requires a != [] && forall i :: 0 <= i < |a| ==> IsLower(a[i])
    requires b != [] && IsUpper(b[0]) && forall i :: 1 <= i < |b| ==> IsLower(b[i])
    ensures DefaultName(a + b) == [ToUpper(a[0])] + a[1..] + b
  {
    NameFromAppend(None, a, b);
    LowerWordCapitalised(a);
    var last := a[|a| - 1];
    assert Cased(Some(last), b[0]) == b[0] by {
      assert IsLower(last);
    }
    LowerRunKept(b[0], b[1..]);
    calc {
      NameFrom(Some(last), b);
      [b[0]] + NameFrom(Some(b[0]), b[1..]);
      [b[0]] + b[1..];
      { assert b == [b[0]] + b[1..]; }
      b;
    }
  }

  lemma CamelCaseExample()
    ensures DefaultName("fooBar") == "FooBar"
  {
    assert "fooBar" == "foo" + "Bar";
    CamelCaseWords("foo", "Bar");
  }

  /** Naming a concatenation: the second part is cased from the last character of the first. */
  lemma {:induction false} NameFromAppend(prev: Option<char>, a: string, b: string)
    ensures NameFrom(prev, a + b) == NameFrom(prev, a) + NameFrom(if a == [] then prev else Some(a[|a| - 1]), b)
    decreases |a|
  {
    if a != [] {
      assert (a + b)[0] == a[0] && (a + b)[1..] == a[1..] + b;
      NameFromAppend(Some(a[0]), a[1..], b);
      if a[1..] != [] {
        assert a[1..][|a[1..]| - 1] == a[|a| - 1];
      }
    } else {
      assert a + b == b;
    }
  }
}
