/**
 * Rule tables and the reading of rule files (`-m` exact names, `-p` name
 * parts): one `key=value` per line, looked up through the renamer's string
 * comparer, which ignores case when `-i` is given.
 */
module Rules {
  import opened Text

  /**
   * A rule table. Keys are stored in the comparer's canonical form (see Key),
   * so looking a name up is `Key(ci, name) in table`.
   */
  type Table = map<string, string>

  /**
   * `CaseInsesitiveComparer.Equals`: equality ignoring case under `-i`,
   * ordinal equality otherwise.
   */
  predicate ComparerEquals(caseInsensitive: bool, x: string, y: string)
  {
    if caseInsensitive then EqualIgnoringCase(x, y) else x == y
  }

  /**
   * The canonical form under which the renamer's comparer sees a string: with
   * case insensitivity the letters folded to lower case, otherwise the string.
   */
  function Key(caseInsensitive: bool, s: string): (k: string)
    ensures ComparerEquals(caseInsensitive, k, s)
  {
    if caseInsensitive then
      LowerDecidesEqualIgnoringCase(Lower(s), s);
      Lower(s)
    else s
  }

  /** Two strings have the same key exactly when the comparer finds them equal. */
  lemma KeyDecidesComparer(caseInsensitive: bool, x: string, y: string)
    ensures Key(caseInsensitive, x) == Key(caseInsensitive, y) <==> ComparerEquals(caseInsensitive, x, y)
  {
    if caseInsensitive {
      LowerDecidesEqualIgnoringCase(x, y);
    }
  }

  /** Canonical keys are their own keys: a stored key finds itself. */
  lemma KeyIdempotent(caseInsensitive: bool, s: string)
    ensures Key(caseInsensitive, Key(caseInsensitive, s)) == Key(caseInsensitive, s)
  {
  }

  /** Every key of the table is in canonical form. */
  ghost predicate Canonical(caseInsensitive: bool, t: Table)
  {
    forall k :: k in t ==> Key(caseInsensitive, k) == k
  }

  /** What one line of a rule file contributes. */
  datatype Line = Skipped | Rule(key: string, value: string) | Malformed

  /**
   * Empty lines and lines starting with `#` are skipped; otherwise the line is
   * split on `=` and the trimmed first two fields are the rule. With fewer than
   * two fields reading `parts[1]` fails.
   */
  function Classify(line: string): Line
  {
    if line == [] || line[0] == '#' then Skipped
    else
      var parts := Split(line, '=');
      if |parts| < 2 then Malformed else Rule(Trim(parts[0]), Trim(parts[1]))
  }

  /** The outcome of reading a rule file: the table, or the index of the line it failed on. */
  datatype Loaded = Loaded(table: Table) | Failed(line: nat)

  /** The table as `GetCustomNameMapper` builds it, line by line, the first rule for a key winning. */
  function ParseRules(caseInsensitive: bool, lines: seq<string>): Loaded
    decreases |lines|
  {
    if lines == [] then Loaded(map[])
    else
      match ParseRules(caseInsensitive, lines[..|lines| - 1])
      case Failed(i) => Failed(i)
      case Loaded(t) =>
        match Classify(lines[|lines| - 1])
        case Skipped => Loaded(t)
        case Malformed => Failed(|lines| - 1)
        case Rule(k, v) =>
          var key := Key(caseInsensitive, k);
          Loaded(if key in t then t else t[key := v])
  }

  /** `GetCustomNameMapper` over the lines of the file. */
  method GetCustomNameMapper(caseInsensitive: bool, lines: seq<string>) returns (res: Loaded)
    ensures res == ParseRules(caseInsensitive, lines)
  {
    var table: Table := map[];
    var i := 0;
    while i < |lines|
      invariant 0 <= i <= |lines|
      invariant ParseRules(caseInsensitive, lines[..i]) == Loaded(table)
    {
      assert lines[..i + 1][..i] == lines[..i];
      var line := lines[i];
      if line == [] || line[0] == '#' {
        i := i + 1;
        continue;
      }
      var parts := Split(line, '=');
      if |parts| < 2 {
        FailureSticks(caseInsensitive, lines, i + 1);
        return Failed(i);
      }
      var key := Key(caseInsensitive, Trim(parts[0]));
      var value := Trim(parts[1]);
      if key !in table {
        table := table[key := value];
      }
      i := i + 1;
    }
    assert lines[..|lines|] == lines;
    res := Loaded(table);
  }

  /** Once a prefix of the file fails, the whole file fails on the same line. */
  lemma {:induction false} FailureSticks(caseInsensitive: bool, lines: seq<string>, k: nat)
    requires k <= |lines| && ParseRules(caseInsensitive, lines[..k]).Failed?
    ensures ParseRules(caseInsensitive, lines) == ParseRules(caseInsensitive, lines[..k])
    decreases |lines|
  {
    if k < |lines| {
      var front := lines[..|lines| - 1];
      assert front[..k] == lines[..k];
      FailureSticks(caseInsensitive, front, k);
    } else {
      assert lines[..k] == lines;
    }
  }

  /** Lines that define key `k` as a rule. */
  predicate Defines(caseInsensitive: bool, line: string, k: string)
  {
    Classify(line).Rule? && Key(caseInsensitive, Classify(line).key) == k
  }

  /** Every rule line's key is in a loaded table. */
  lemma {:induction false} RuleKeysLoaded(caseInsensitive: bool, lines: seq<string>)
    requires ParseRules(caseInsensitive, lines).Loaded?
    ensures forall i :: 0 <= i < |lines| && Classify(lines[i]).Rule? ==>
      Key(caseInsensitive, Classify(lines[i]).key) in ParseRules(caseInsensitive, lines).table
    decreases |lines|
  {
    if lines != [] {
      var front := lines[..|lines| - 1];
      RuleKeysLoaded(caseInsensitive, front);
      assert forall i :: 0 <= i < |front| ==> front[i] == lines[i];
    }
  }

  /** A loaded table holds no key that no rule line defines. */
  lemma {:induction false} LoadedKeysDefined(caseInsensitive: bool, lines: seq<string>)
    requires ParseRules(caseInsensitive, lines).Loaded?
    ensures forall k :: k in ParseRules(caseInsensitive, lines).table ==>
      exists i :: 0 <= i < |lines| && Defines(caseInsensitive, lines[i], k)
    decreases |lines|
  {
    if lines != [] {
      var n := |lines| - 1;
      var front := lines[..n];
      LoadedKeysDefined(caseInsensitive, front);
      var t0 := ParseRules(caseInsensitive, front).table;
      forall k | k in ParseRules(caseInsensitive, lines).table
        ensures exists i :: 0 <= i < |lines| && Defines(caseInsensitive, lines[i], k)
      {
        if k in t0 {
          var i :| 0 <= i < |front| && Defines(caseInsensitive, front[i], k);
          assert lines[i] == front[i];
        } else {
          assert Defines(caseInsensitive, lines[n], k);
        }
      }
    }
  }

  /** Of several lines defining one key, the first one's value is kept. */
  lemma {:induction false} FirstRuleWins(caseInsensitive: bool, lines: seq<string>, i: nat)
    requires ParseRules(caseInsensitive, lines).Loaded?
    requires i < |lines| && Classify(lines[i]).Rule?
    requires forall j :: 0 <= j < i ==> !Defines(caseInsensitive, lines[j], Key(caseInsensitive, Classify(lines[i]).key))
    ensures Key(caseInsensitive, Classify(lines[i]).key) in ParseRules(caseInsensitive, lines).table
    ensures ParseRules(caseInsensitive, lines).table[Key(caseInsensitive, Classify(lines[i]).key)] == Classify(lines[i]).value
    decreases |lines|
  {
    var n := |lines| - 1;
    var front := lines[..n];
    var k := Key(caseInsensitive, Classify(lines[i]).key);
    LoadedStep(caseInsensitive, lines);
    var t0 := ParseRules(caseInsensitive, front).table;
    if i < n {
      assert front[i] == lines[i];
      assert forall j :: 0 <= j < i ==> front[j] == lines[j];
      FirstRuleWins(caseInsensitive, front, i);
    } else {
      assert k !in t0 by {
        LoadedKeysDefined(caseInsensitive, front);
        assert forall j :: 0 <= j < |front| ==> front[j] == lines[j];
      }
    }
  }

  /** The last line of a loaded file is not malformed, and adds its rule unless the key is taken. */
  lemma LoadedStep(caseInsensitive: bool, lines: seq<string>)
    requires lines != [] && ParseRules(caseInsensitive, lines).Loaded?
    ensures ParseRules(caseInsensitive, lines[..|lines| - 1]).Loaded?
    ensures var t0 := ParseRules(caseInsensitive, lines[..|lines| - 1]).table;
      var t := ParseRules(caseInsensitive, lines).table;
      var c := Classify(lines[|lines| - 1]);
      !c.Malformed? &&
      (c.Rule? && Key(caseInsensitive, c.key) !in t0 ==> t == t0[Key(caseInsensitive, c.key) := c.value]) &&
      (!(c.Rule? && Key(caseInsensitive, c.key) !in t0) ==> t == t0)
  {
  }

  /** Every key of a loaded table is canonical, as in a dictionary built with the comparer. */
  lemma ParsedTableCanonical(caseInsensitive: bool, lines: seq<string>)
    requires ParseRules(caseInsensitive, lines).Loaded?
    ensures Canonical(caseInsensitive, ParseRules(caseInsensitive, lines).table)
  {
    LoadedKeysDefined(caseInsensitive, lines);
    var t := ParseRules(caseInsensitive, lines).table;
    forall k | k in t
      ensures Key(caseInsensitive, k) == k
    {
      var i :| 0 <= i < |lines| && Defines(caseInsensitive, lines[i], k);
      KeyIdempotent(caseInsensitive, Classify(lines[i]).key);
    }
  }

  /** Reading fails exactly when some line is malformed, and then on the first such line. */
  lemma {:induction false} ParseFailsAtFirstMalformed(caseInsensitive: bool, lines: seq<string>)
    ensures ParseRules(caseInsensitive, lines).Loaded? <==>
      forall j :: 0 <= j < |lines| ==> !Classify(lines[j]).Malformed?
    ensures ParseRules(caseInsensitive, lines).Failed? ==>
      var i := ParseRules(caseInsensitive, lines).line;
      i < |lines| && Classify(lines[i]).Malformed? &&
      forall j :: 0 <= j < i ==> !Classify(lines[j]).Malformed?
    decreases |lines|
  {
    if lines != [] {
      var front := lines[..|lines| - 1];
      ParseFailsAtFirstMalformed(caseInsensitive, front);
      assert forall j :: 0 <= j < |front| ==> front[j] == lines[j];
    }
  }

  /** A line `k=v` whose key does not start with `#` is the rule of the trimmed key and value. */
  lemma RuleLineClassified(k: string, v: string)
    requires '=' !in k && '=' !in v
    requires k == [] || k[0] != '#'
    ensures Classify(k + "=" + v) == Rule(Trim(k), Trim(v))
  {
    var line := k + "=" + v;
    assert Split(line, '=') == [k, v] by {
      assert line == k + ['='] + v;
      SplitAppend(k, v, '=');
    }
    assert line[0] != '#' by {
      assert k != [] ==> line[0] == k[0];
    }
    ClassifyFirstTwoFields(line, k, v, []);
  }

  /** Fields after the second `=` do not change the rule a line defines. */
  lemma ExtraFieldsIgnored(k: string, v: string, rest: string)
    requires '=' !in k && '=' !in v
    requires k == [] || k[0] != '#'
    ensures Classify(k + "=" + v + "=" + rest) == Rule(Trim(k), Trim(v))
  {
    var line := k + "=" + v + "=" + rest;
    assert line == k + ['='] + (v + ['='] + rest);
    SplitTwoFields(k, v, rest);
    assert line[0] != '#' by {
      assert k != [] ==> line[0] == k[0];
    }
    ClassifyFirstTwoFields(line, k, v, Split(rest, '='));
  }

  lemma SplitTwoFields(k: string, v: string, rest: string)
    requires '=' !in k && '=' !in v
    ensures Split(k + ['='] + (v + ['='] + rest), '=') == [k, v] + Split(rest, '=')
  {
    calc {
      Split(k + ['='] + (v + ['='] + rest), '=');
    == { SplitAppend(k, v + ['='] + rest, '='); }
      Split(k, '=') + Split(v + ['='] + rest, '=');
    == { SplitAppend(v, rest, '='); }
      Split(k, '=') + (Split(v, '=') + Split(rest, '='));
    == { assert Split(k, '=') == [k] && Split(v, '=') == [v]; }
      [k, v] + Split(rest, '=');
    }
  }

  lemma ClassifyFirstTwoFields(line: string, k: string, v: string, more: seq<string>)
    requires line != [] && line[0] != '#'
    requires Split(line, '=') == [k, v] + more
    ensures Classify(line) == Rule(Trim(k), Trim(v))
  {
    assert Split(line, '=')[0] == k && Split(line, '=')[1] == v;
  }

  /** Skipped lines (empty, or starting with `#`) change neither the outcome nor the table. */
  lemma {:induction false} SkippedLineChangesNothing(caseInsensitive: bool, a: seq<string>, x: string, b: seq<string>)
    requires Classify(x).Skipped?
    ensures ParseRules(caseInsensitive, a + [x] + b).Loaded? == ParseRules(caseInsensitive, a + b).Loaded?
    ensures ParseRules(caseInsensitive, a + b).Loaded? ==>
      ParseRules(caseInsensitive, a + [x] + b).table == ParseRules(caseInsensitive, a + b).table
    decreases |b|
  {
    if b == [] {
      assert (a + [x] + b)[..|a|] == a;
      assert a + b == a;
    } else {
      var b' := b[..|b| - 1];
      SkippedLineChangesNothing(caseInsensitive, a, x, b');
      assert (a + [x] + b)[..|a + [x] + b| - 1] == a + [x] + b';
      assert (a + b)[..|a + b| - 1] == a + b';
    }
  }

  /** Rules read with malformed lines skipped rather than aborting the load. */
  function LenientRules(caseInsensitive: bool, lines: seq<string>): Table
    decreases |lines|
  {
    if lines == [] then map[]
    else
      var t := LenientRules(caseInsensitive, lines[..|lines| - 1]);
      match Classify(lines[|lines| - 1])
      case Rule(k, v) =>
        var key := Key(caseInsensitive, k);
        if key in t then t else t[key := v]
      case _ => t
  }

  /** The lines that are not malformed, in order. */
  function WellFormed(lines: seq<string>): (r: seq<string>)
    ensures forall i :: 0 <= i < |r| ==> !Classify(r[i]).Malformed?
    decreases |lines|
  {
    if lines == [] then []
    else
      WellFormed(lines[..|lines| - 1]) +
        (if Classify(lines[|lines| - 1]).Malformed? then [] else [lines[|lines| - 1]])
  }

  /**
   * The lenient table is what the original reading produces from the file with
   * its malformed lines removed: those lines are ignored and nothing else changes.
   */
  lemma {:induction false} LenientIsParseOfWellFormed(caseInsensitive: bool, lines: seq<string>)
    ensures ParseRules(caseInsensitive, WellFormed(lines)) == Loaded(LenientRules(caseInsensitive, lines))
    decreases |lines|
  {
    if lines != [] {
      var front := lines[..|lines| - 1];
      LenientIsParseOfWellFormed(caseInsensitive, front);
      var w, last := WellFormed(front), lines[|lines| - 1];
      if !Classify(last).Malformed? {
        var wl := w + [last];
        assert WellFormed(lines) == wl;
        assert wl[..|wl| - 1] == w && wl[|wl| - 1] == last;
      } else {
        assert WellFormed(lines) == w;
      }
    }
  }

  /** Where the original reading succeeds, the lenient one gives the same table. */
  lemma {:induction false} LenientAgreesWithParse(caseInsensitive: bool, lines: seq<string>)
    requires ParseRules(caseInsensitive, lines).Loaded?
    ensures ParseRules(caseInsensitive, lines).table == LenientRules(caseInsensitive, lines)
    decreases |lines|
  {
    if lines != [] {
      LenientAgreesWithParse(caseInsensitive, lines[..|lines| - 1]);
    }
  }

  /**
   * A line without `=` is reported as incorrect and then aborts the whole load,
   * and so does a line of spaces; the lenient reading keeps the other rules.
   */
  lemma MalformedLineAborts(rule: string, word: string, blank: string)
    requires rule == "Customer=Client" && word == "Order" && blank == "  "
    ensures Classify(word) == Malformed && Classify(blank) == Malformed
    ensures ParseRules(false, [rule, word]) == Failed(1)
    ensures ParseRules(false, [rule, blank]) == Failed(1)
    ensures LenientRules(false, [rule, word]) == map["Customer" := "Client"]
  {
    CustomerRule(rule);
    assert '=' !in word && '=' !in blank;
    NoSeparatorMalformed(word);
    NoSeparatorMalformed(blank);
    RuleThenMalformed(rule, word);
    RuleThenMalformed(rule, blank);
  }

  /** A line that is not skipped and has no `=` is malformed. */
  lemma NoSeparatorMalformed(line: string)
    requires line != [] && line[0] != '#' && '=' !in line
    ensures Classify(line) == Malformed
  {
    assert Split(line, '=') == [line];
  }

  lemma CustomerRule(rule: string)
    requires rule == "Customer=Client"
    ensures Classify(rule) == Rule("Customer", "Client")
  {
    var k, v := "Customer", "Client";
    assert rule == k + "=" + v;
    RuleLineClassified(k, v);
    TrimUnpadded(k);
    TrimUnpadded(v);
  }

  lemma RuleThenMalformed(rule: string, bad: string)
    requires Classify(rule) == Rule("Customer", "Client") && Classify(bad) == Malformed
    ensures ParseRules(false, [rule, bad]) == Failed(1)
    ensures LenientRules(false, [rule, bad]) == map["Customer" := "Client"]
  {
    var lines := [rule, bad];
    assert lines[..1] == [rule] && lines[1] == bad;
    assert [rule][..0] == [];
    assert Key(false, "Customer") == "Customer";
    assert ParseRules(false, [rule]) == Loaded(map["Customer" := "Client"]);
    assert LenientRules(false, [rule]) == map["Customer" := "Client"];
  }
}
