/**
 * The selection filter: which entity sets, entity types, set mappings and
 * diagram shapes are renamed, from the `-t` names and `-tp` prefixes.
 * Matching is ordinal (case-sensitive), whatever the `-i` setting.
 */
module Selection {

  /** The `-t` exact names and the `-tp` name prefixes. */
  datatype Selection = Selection(entities: set<string>, prefixes: set<string>)

  /** In either set, selects every name. */
  const WILDCARD: string := "*"

  /** The names the filter lets through. */
  predicate Selected(sel: Selection, n: string)
  {
    || WILDCARD in sel.entities
    || WILDCARD in sel.prefixes
    || (exists p :: p in sel.prefixes && p <= n)
    || n in sel.entities
  }

  /** `CanProcess(string)`: the wildcard, then each prefix in turn, then the exact names. */
  method CanProcess(sel: Selection, n: string) returns (b: bool)
    ensures b == Selected(sel, n)
  {
    if WILDCARD in sel.entities || WILDCARD in sel.prefixes {
      return true;
    }
    var rest := sel.prefixes;
    while rest != {}
      invariant rest <= sel.prefixes
      invariant forall q :: q in sel.prefixes && q !in rest ==> !(q <= n)
      decreases rest
    {
      var p :| p in rest;
      if p <= n {
        assert p in sel.prefixes;
        return true;
      }
      rest := rest - {p};
    }
    b := n in sel.entities;
  }

  /** With no names and no prefixes nothing is renamed. */
  lemma EmptySelectsNothing(n: string)
    ensures !Selected(Selection({}, {}), n)
  {
  }

  /** The wildcard in either set selects every name. */
  lemma WildcardSelectsAll(sel: Selection, n: string)
    requires WILDCARD in sel.entities || WILDCARD in sel.prefixes
    ensures Selected(sel, n)
  {
  }

  /** The empty prefix is a prefix of every name. */
  lemma EmptyPrefixSelectsAll(sel: Selection, n: string)
    requires "" in sel.prefixes
    ensures Selected(sel, n)
  {
    assert "" <= n;
  }

  /** Without the wildcard, a name is selected exactly when it is listed or extends a listed prefix. */
  lemma SelectedWithoutWildcard(sel: Selection, n: string)
    requires WILDCARD !in sel.entities && WILDCARD !in sel.prefixes
    ensures Selected(sel, n) <==> n in sel.entities || exists p :: p in sel.prefixes && p <= n
  {
  }

  /** Adding names or prefixes never deselects a name. */
  lemma SelectionMonotone(sel: Selection, more: Selection, n: string)
    requires sel.entities <= more.entities && sel.prefixes <= more.prefixes
    requires Selected(sel, n)
    ensures Selected(more, n)
  {
  }

  /** Exact names match case-sensitively. */
  lemma ExactNamesAreCaseSensitive(n: string)
    requires n == "person"
    ensures !Selected(Selection({"Person"}, {}), n)
  {
    assert n[0] != "Person"[0];
  }
}
