/**
 * The renaming walk of the model document (entity sets, entity types with
 * their keys and properties, entity set mappings with their type mappings and
 * scalar properties) and of the companion diagram (entity type shapes).
 * Every rewrite goes through one Renamer, so every reference to a type ends
 * up with the name its cache entry holds.
 */
module Walk {
  import opened Common
  import opened Rules
  import opened Selection
  import opened NameMapper

  /** A pass either completes or is aborted by an exception; nothing is saved after an abort. */
  datatype Outcome<T> = Done(value: T) | Aborted

  /** Rewriting one element on a cache state. */
  type Step<!T> = (Cache, T) -> Outcome<(T, Cache)>

  /** Rewriting a list of elements in order, threading the cache, stopping at the first abort. */
  function Fold<T>(step: Step<T>, c: Cache, s: seq<T>): Outcome<(seq<T>, Cache)>
    decreases |s|
  {
    if s == [] then Done(([], c))
    else
      match Fold(step, c, s[..|s| - 1])
      case Aborted => Aborted
      case Done((r, c1)) =>
        match step(c1, s[|s| - 1])
        case Aborted => Aborted
        case Done((x, c2)) => Done((r + [x], c2))
  }

  /** An abort on a prefix aborts the whole list. */
  lemma {:induction false} FoldAbortSticks<T>(step: Step<T>, c: Cache, s: seq<T>, k: nat)
    requires k <= |s| && Fold(step, c, s[..k]).Aborted?
    ensures Fold(step, c, s).Aborted?
    decreases |s|
  {
    if k < |s| {
      var front := s[..|s| - 1];
      assert front[..k] == s[..k];
      FoldAbortSticks(step, c, front, k);
    } else {
      assert s[..k] == s;
    }
  }

  /** Extending a completed prefix by one element applies the step once more. */
  lemma FoldSnoc<T>(step: Step<T>, c: Cache, s: seq<T>, i: nat, r: seq<T>, c1: Cache)
    requires i < |s| && Fold(step, c, s[..i]) == Done((r, c1))
    ensures Fold(step, c, s[..i + 1]) ==
      match step(c1, s[i])
      case Aborted => Aborted
      case Done((x, c2)) => Done((r + [x], c2))
  {
    assert s[..i + 1][..i] == s[..i];
  }

  /** A step that never aborts gives a list rewrite that never aborts. */
  lemma {:induction false} FoldNeverAborts<T>(step: Step<T>, c: Cache, s: seq<T>)
    requires forall c', x :: step(c', x).Done?
    ensures Fold(step, c, s).Done?
    decreases |s|
  {
    if s != [] {
      FoldNeverAborts(step, c, s[..|s| - 1]);
    }
  }

  /** `P(C, x, y)`: `y` is what `x` became, judged against cache `C`; it stays true as the cache grows. */
  ghost predicate Stable<T(!new)>(P: (Cache, T, T) -> bool)
  {
    forall c, c', x, y :: P(c, x, y) && Extends(c, c') ==> P(c', x, y)
  }

  /** Each step keeps the cache's entries and establishes `P` for its element. */
  ghost predicate Establishes<T(!new)>(step: Step<T>, P: (Cache, T, T) -> bool)
  {
    forall c, x :: step(c, x).Done? ==>
      Extends(c, step(c, x).value.1) && P(step(c, x).value.1, x, step(c, x).value.0)
  }

  /** Then every element of a completed list rewrite satisfies `P` against the final cache. */
  lemma {:induction false} FoldEstablishes<T(!new)>(step: Step<T>, P: (Cache, T, T) -> bool, c: Cache, s: seq<T>)
    requires Stable(P) && Establishes(step, P)
    requires Fold(step, c, s).Done?
    ensures var (r, c') := Fold(step, c, s).value;
      |r| == |s| && Extends(c, c') && forall i :: 0 <= i < |s| ==> P(c', s[i], r[i])
    decreases |s|
  {
    if s != [] {
      var front := s[..|s| - 1];
      FoldEstablishes(step, P, c, front);
      var (r0, c1) := Fold(step, c, front).value;
      var (r, c2) := Fold(step, c, s).value;
      assert step(c1, s[|s| - 1]).Done?;
      forall i | 0 <= i < |s|
        ensures P(c2, s[i], r[i])
      {
        if i < |front| {
          assert s[i] == front[i] && r[i] == r0[i];
          assert P(c1, front[i], r0[i]);
        }
      }
    }
  }

  // ---------------------------------------------------------------- the document

  /** `EntitySet`: its `Name` and its namespace-qualified `EntityType` reference. */
  datatype EntitySet = EntitySet(name: string, entityType: string)

  /** `EntityType`: its `Name`, the `PropertyRef` names of its `Key` and its `Property` names. */
  datatype EntityType = EntityType(name: string, keyRefs: seq<string>, properties: seq<string>)

  /**
   * `EntityTypeMapping`: its qualified `TypeName` and the `ScalarProperty` names of
   * its first `MappingFragment` (None when it has none).
   */
  datatype TypeMapping = TypeMapping(typeName: string, fragment: Option<seq<string>>)

  /** `EntitySetMapping`: its `Name` and its type mappings. */
  datatype SetMapping = SetMapping(name: string, typeMappings: seq<TypeMapping>)

  /** `EntityTypeShape` of the diagram: its qualified `EntityType` reference. */
  datatype Shape = Shape(entityType: string)

  /** The model's elements, in document order. */
  datatype Model = Model(entitySets: seq<EntitySet>, entityTypes: seq<EntityType>, setMappings: seq<SetMapping>)

  /** `Substring(ns.Length + 1)` fails on a shorter reference. */
  predicate HasLocal(ns: string, ref: string)
  {
    |ns| + 1 <= |ref|
  }

  /** The local name of a qualified reference: what follows the namespace and its dot. */
  function Local(ns: string, ref: string): string
    requires HasLocal(ns, ref)
  {
    ref[|ns| + 1..]
  }

  // ---------------------------------------------------------------- the steps

  function NameFn(cfg: Config, isClass: bool): Step<string>
  {
    (c: Cache, n: string) => var (m, c1) := NameStep(cfg, c, n, isClass); Done((m, c1))
  }

  /** Lines 114-117: a selected set gets its plural name, then its type reference is rewritten. */
  function EntitySetStep(cfg: Config, ns: string, c: Cache, e: EntitySet): Outcome<(EntitySet, Cache)>
  {
    if !Selected(cfg.selection, e.name) then Done((e, c))
    else
      var (name, c1) := PluralStep(cfg, c, e.name);
      if !HasLocal(ns, e.entityType) then Aborted
      else
        var (t, c2) := NameStep(cfg, c1, Local(ns, e.entityType), true);
        Done((EntitySet(name, ns + "." + t), c2))
  }

  function EntitySetFn(cfg: Config, ns: string): Step<EntitySet>
  {
    (c: Cache, e: EntitySet) => EntitySetStep(cfg, ns, c, e)
  }

  /** Lines 123-136: a selected type gets its class name, then its key references and properties member names. */
  function EntityTypeStep(cfg: Config, c: Cache, t: EntityType): Outcome<(EntityType, Cache)>
  {
    if !Selected(cfg.selection, t.name) then Done((t, c))
    else
      var (name, c1) := NameStep(cfg, c, t.name, true);
      match Fold(NameFn(cfg, false), c1, t.keyRefs)
      case Aborted => Aborted
      case Done((keys, c2)) =>
        match Fold(NameFn(cfg, false), c2, t.properties)
        case Aborted => Aborted
        case Done((props, c3)) => Done((EntityType(name, keys, props), c3))
  }

  function EntityTypeFn(cfg: Config): Step<EntityType>
  {
    (c: Cache, t: EntityType) => EntityTypeStep(cfg, c, t)
  }

  /** Lines 152-157: the type reference is rewritten, then the scalar properties of the fragment. */
  function TypeMappingStep(cfg: Config, ns: string, c: Cache, tm: TypeMapping): Outcome<(TypeMapping, Cache)>
  {
    if !HasLocal(ns, tm.typeName) then Aborted
    else
      var (t, c1) := NameStep(cfg, c, Local(ns, tm.typeName), true);
      match tm.fragment
      case None => Aborted
      case Some(props) =>
        match Fold(NameFn(cfg, false), c1, props)
        case Aborted => Aborted
        case Done((props', c2)) => Done((TypeMapping(ns + "." + t, Some(props')), c2))
  }

  function TypeMappingFn(cfg: Config, ns: string): Step<TypeMapping>
  {
    (c: Cache, tm: TypeMapping) => TypeMappingStep(cfg, ns, c, tm)
  }

  /** Lines 148-158: a selected set mapping gets its plural name, then each of its type mappings is rewritten. */
  function SetMappingStep(cfg: Config, ns: string, c: Cache, sm: SetMapping): Outcome<(SetMapping, Cache)>
  {
    if !Selected(cfg.selection, sm.name) then Done((sm, c))
    else
      var (name, c1) := PluralStep(cfg, c, sm.name);
      match Fold(TypeMappingFn(cfg, ns), c1, sm.typeMappings)
      case Aborted => Aborted
      case Done((tms, c2)) => Done((SetMapping(name, tms), c2))
  }

  function SetMappingFn(cfg: Config, ns: string): Step<SetMapping>
  {
    (c: Cache, sm: SetMapping) => SetMappingStep(cfg, ns, c, sm)
  }

  /** Lines 177-179: the local name is taken first, and the shape is rewritten when that name is selected. */
  function ShapeStep(cfg: Config, ns: string, c: Cache, sh: Shape): Outcome<(Shape, Cache)>
  {
    if !HasLocal(ns, sh.entityType) then Aborted
    else if !Selected(cfg.selection, Local(ns, sh.entityType)) then Done((sh, c))
    else
      var (t, c1) := NameStep(cfg, c, Local(ns, sh.entityType), true);
      Done((Shape(ns + "." + t), c1))
  }

  function ShapeFn(cfg: Config, ns: string): Step<Shape>
  {
    (c: Cache, sh: Shape) => ShapeStep(cfg, ns, c, sh)
  }

  /** The model pass: entity sets, then entity types, then set mappings, one cache throughout. */
  function RenameModel(cfg: Config, ns: string, c: Cache, m: Model): Outcome<(Model, Cache)>
  {
    match Fold(EntitySetFn(cfg, ns), c, m.entitySets)
    case Aborted => Aborted
    case Done((sets, c1)) =>
      match Fold(EntityTypeFn(cfg), c1, m.entityTypes)
      case Aborted => Aborted
      case Done((types, c2)) =>
        match Fold(SetMappingFn(cfg, ns), c2, m.setMappings)
        case Aborted => Aborted
        case Done((maps, c3)) => Done((Model(sets, types, maps), c3))
  }

  /** The diagram pass, continuing with the cache the model pass left. */
  function RenameDiagram(cfg: Config, ns: string, c: Cache, shapes: seq<Shape>): Outcome<(seq<Shape>, Cache)>
  {
    Fold(ShapeFn(cfg, ns), c, shapes)
  }

  // ---------------------------------------------------------------- what a completed walk guarantees

  /** The cache of the run maps `n` (as a class or a member name) to `m`. */
  ghost predicate MappedTo(cfg: Config, C: Cache, n: string, isClass: bool, m: string)
  {
    var k := CacheKey(cfg.caseInsensitive, n, isClass);
    k in C && C[k] == m
  }

  /** Name by name, `ys` are what the cache maps `xs` to. */
  ghost predicate AllMapped(cfg: Config, C: Cache, xs: seq<string>, ys: seq<string>, isClass: bool)
  {
    |ys| == |xs| && forall j :: 0 <= j < |xs| ==> MappedTo(cfg, C, xs[j], isClass, ys[j])
  }

  /** `ref'` is `ref` with its local name replaced by the class name the cache gives it. */
  ghost predicate RefRenamed(cfg: Config, ns: string, C: Cache, ref: string, ref': string)
  {
    && HasLocal(ns, ref)
    && var k := CacheKey(cfg.caseInsensitive, Local(ns, ref), true);
       k in C && ref' == ns + "." + C[k]
  }

  /** `n'` is the plural of the class name the cache gives `n`. */
  ghost predicate PluralRenamed(cfg: Config, C: Cache, n: string, n': string)
  {
    var k := CacheKey(cfg.caseInsensitive, n, true);
    k in C && n' == PluralName(cfg.plural, C[k])
  }

  ghost predicate SetRenamed(cfg: Config, ns: string, C: Cache, e: EntitySet, e': EntitySet)
  {
    if !Selected(cfg.selection, e.name) then e' == e
    else PluralRenamed(cfg, C, e.name, e'.name) && RefRenamed(cfg, ns, C, e.entityType, e'.entityType)
  }

  ghost predicate TypeRenamed(cfg: Config, C: Cache, t: EntityType, t': EntityType)
  {
    if !Selected(cfg.selection, t.name) then t' == t
    else
      && MappedTo(cfg, C, t.name, true, t'.name)
      && AllMapped(cfg, C, t.keyRefs, t'.keyRefs, false)
      && AllMapped(cfg, C, t.properties, t'.properties, false)
  }

  ghost predicate TypeMappingRenamed(cfg: Config, ns: string, C: Cache, tm: TypeMapping, tm': TypeMapping)
  {
    && RefRenamed(cfg, ns, C, tm.typeName, tm'.typeName)
    && tm.fragment.Some? && tm'.fragment.Some?
    && AllMapped(cfg, C, tm.fragment.value, tm'.fragment.value, false)
  }

  ghost predicate SetMappingRenamed(cfg: Config, ns: string, C: Cache, sm: SetMapping, sm': SetMapping)
  {
    if !Selected(cfg.selection, sm.name) then sm' == sm
    else
      && PluralRenamed(cfg, C, sm.name, sm'.name)
      && |sm'.typeMappings| == |sm.typeMappings|
      && forall j :: 0 <= j < |sm.typeMappings| ==>
           TypeMappingRenamed(cfg, ns, C, sm.typeMappings[j], sm'.typeMappings[j])
  }

  ghost predicate ShapeRenamed(cfg: Config, ns: string, C: Cache, sh: Shape, sh': Shape)
  {
    && HasLocal(ns, sh.entityType)
    && if !Selected(cfg.selection, Local(ns, sh.entityType)) then sh' == sh
       else RefRenamed(cfg, ns, C, sh.entityType, sh'.entityType)
  }

  /** Every element of the model against the cache `C`. */
  ghost predicate ModelRenamed(cfg: Config, ns: string, C: Cache, m: Model, m': Model)
  {
    && |m'.entitySets| == |m.entitySets|
    && (forall i :: 0 <= i < |m.entitySets| ==> SetRenamed(cfg, ns, C, m.entitySets[i], m'.entitySets[i]))
    && |m'.entityTypes| == |m.entityTypes|
    && (forall i :: 0 <= i < |m.entityTypes| ==> TypeRenamed(cfg, C, m.entityTypes[i], m'.entityTypes[i]))
    && |m'.setMappings| == |m.setMappings|
    && (forall i :: 0 <= i < |m.setMappings| ==> SetMappingRenamed(cfg, ns, C, m.setMappings[i], m'.setMappings[i]))
  }

  ghost predicate ShapesRenamed(cfg: Config, ns: string, C: Cache, s: seq<Shape>, s': seq<Shape>)
  {
    |s'| == |s| && forall i :: 0 <= i < |s| ==> ShapeRenamed(cfg, ns, C, s[i], s'[i])
  }

  // The predicates above survive the cache growing.

  lemma AllMappedGrows(cfg: Config, C: Cache, C': Cache, xs: seq<string>, ys: seq<string>, isClass: bool)
    requires AllMapped(cfg, C, xs, ys, isClass) && Extends(C, C')
    ensures AllMapped(cfg, C', xs, ys, isClass)
  {
    forall j | 0 <= j < |xs|
      ensures MappedTo(cfg, C', xs[j], isClass, ys[j])
    {
      assert MappedTo(cfg, C, xs[j], isClass, ys[j]);
    }
  }

  lemma TypeMappingRenamedGrows(cfg: Config, ns: string, C: Cache, C': Cache, tm: TypeMapping, tm': TypeMapping)
    requires TypeMappingRenamed(cfg, ns, C, tm, tm') && Extends(C, C')
    ensures TypeMappingRenamed(cfg, ns, C', tm, tm')
  {
    AllMappedGrows(cfg, C, C', tm.fragment.value, tm'.fragment.value, false);
  }

  lemma SetMappingRenamedGrows(cfg: Config, ns: string, C: Cache, C': Cache, sm: SetMapping, sm': SetMapping)
    requires SetMappingRenamed(cfg, ns, C, sm, sm') && Extends(C, C')
    ensures SetMappingRenamed(cfg, ns, C', sm, sm')
  {
    if Selected(cfg.selection, sm.name) {
      forall j | 0 <= j < |sm.typeMappings|
        ensures TypeMappingRenamed(cfg, ns, C', sm.typeMappings[j], sm'.typeMappings[j])
      {
        TypeMappingRenamedGrows(cfg, ns, C, C', sm.typeMappings[j], sm'.typeMappings[j]);
      }
    }
  }

  lemma ModelRenamedGrows(cfg: Config, ns: string, C: Cache, C': Cache, m: Model, m': Model)
    requires ModelRenamed(cfg, ns, C, m, m') && Extends(C, C')
    ensures ModelRenamed(cfg, ns, C', m, m')
  {
    forall i | 0 <= i < |m.entityTypes|
      ensures TypeRenamed(cfg, C', m.entityTypes[i], m'.entityTypes[i])
    {
      var t, t' := m.entityTypes[i], m'.entityTypes[i];
      if Selected(cfg.selection, t.name) {
        AllMappedGrows(cfg, C, C', t.keyRefs, t'.keyRefs, false);
        AllMappedGrows(cfg, C, C', t.properties, t'.properties, false);
      }
    }
    forall i | 0 <= i < |m.setMappings|
      ensures SetMappingRenamed(cfg, ns, C', m.setMappings[i], m'.setMappings[i])
    {
      SetMappingRenamedGrows(cfg, ns, C, C', m.setMappings[i], m'.setMappings[i]);
    }
  }

  // One step at a time.

  lemma {:induction false} NamesMapped(cfg: Config, c: Cache, xs: seq<string>, isClass: bool)
    ensures Fold(NameFn(cfg, isClass), c, xs).Done?
    ensures var (ys, C) := Fold(NameFn(cfg, isClass), c, xs).value;
      Extends(c, C) && AllMapped(cfg, C, xs, ys, isClass)
    decreases |xs|
  {
    if xs != [] {
      var front := xs[..|xs| - 1];
      NamesMapped(cfg, c, front, isClass);
      var (ys0, c1) := Fold(NameFn(cfg, isClass), c, front).value;
      NameStepRecords(cfg, c1, xs[|xs| - 1], isClass);
      var (y, c2) := NameStep(cfg, c1, xs[|xs| - 1], isClass);
      assert Fold(NameFn(cfg, isClass), c, xs) == Done((ys0 + [y], c2));
      AllMappedGrows(cfg, c1, c2, front, ys0, isClass);
    }
  }

  lemma EntitySetStepRenames(cfg: Config, ns: string, c: Cache, e: EntitySet)
    requires EntitySetStep(cfg, ns, c, e).Done?
    ensures var (e', C) := EntitySetStep(cfg, ns, c, e).value;
      Extends(c, C) && SetRenamed(cfg, ns, C, e, e')
  {
    if Selected(cfg.selection, e.name) {
      NameStepRecords(cfg, c, e.name, true);
      var c1 := PluralStep(cfg, c, e.name).1;
      NameStepRecords(cfg, c1, Local(ns, e.entityType), true);
    }
  }

  lemma EntityTypeStepRenames(cfg: Config, c: Cache, t: EntityType)
    ensures EntityTypeStep(cfg, c, t).Done?
    ensures var (t', C) := EntityTypeStep(cfg, c, t).value;
      Extends(c, C) && TypeRenamed(cfg, C, t, t')
  {
    if Selected(cfg.selection, t.name) {
      NameStepRecords(cfg, c, t.name, true);
      var c1 := NameStep(cfg, c, t.name, true).1;
      NamesMapped(cfg, c1, t.keyRefs, false);
      var (keys, c2) := Fold(NameFn(cfg, false), c1, t.keyRefs).value;
      NamesMapped(cfg, c2, t.properties, false);
      var (props, c3) := Fold(NameFn(cfg, false), c2, t.properties).value;
      AllMappedGrows(cfg, c2, c3, t.keyRefs, keys, false);
    }
  }

  lemma TypeMappingStepRenames(cfg: Config, ns: string, c: Cache, tm: TypeMapping)
    requires TypeMappingStep(cfg, ns, c, tm).Done?
    ensures var (tm', C) := TypeMappingStep(cfg, ns, c, tm).value;
      Extends(c, C) && TypeMappingRenamed(cfg, ns, C, tm, tm')
  {
    NameStepRecords(cfg, c, Local(ns, tm.typeName), true);
    var c1 := NameStep(cfg, c, Local(ns, tm.typeName), true).1;
    NamesMapped(cfg, c1, tm.fragment.value, false);
  }

  ghost function TypeMappingRenamedP(cfg: Config, ns: string): (Cache, TypeMapping, TypeMapping) -> bool
  {
    (C: Cache, tm: TypeMapping, tm': TypeMapping) => TypeMappingRenamed(cfg, ns, C, tm, tm')
  }

  lemma TypeMappingsRenamed(cfg: Config, ns: string, c: Cache, s: seq<TypeMapping>)
    requires Fold(TypeMappingFn(cfg, ns), c, s).Done?
    ensures var (s', C) := Fold(TypeMappingFn(cfg, ns), c, s).value;
      && |s'| == |s| && Extends(c, C)
      && forall i :: 0 <= i < |s| ==> TypeMappingRenamed(cfg, ns, C, s[i], s'[i])
  {
    var P := TypeMappingRenamedP(cfg, ns);
    forall C, C', x, y | P(C, x, y) && Extends(C, C')
      ensures P(C', x, y)
    {
      TypeMappingRenamedGrows(cfg, ns, C, C', x, y);
    }
    forall c1, x | TypeMappingFn(cfg, ns)(c1, x).Done?
      ensures var (y, c2) := TypeMappingFn(cfg, ns)(c1, x).value; Extends(c1, c2) && P(c2, x, y)
    {
      TypeMappingStepRenames(cfg, ns, c1, x);
    }
    FoldEstablishes(TypeMappingFn(cfg, ns), P, c, s);
  }

  lemma SetMappingStepRenames(cfg: Config, ns: string, c: Cache, sm: SetMapping)
    requires SetMappingStep(cfg, ns, c, sm).Done?
    ensures var (sm', C) := SetMappingStep(cfg, ns, c, sm).value;
      Extends(c, C) && SetMappingRenamed(cfg, ns, C, sm, sm')
  {
    if Selected(cfg.selection, sm.name) {
      NameStepRecords(cfg, c, sm.name, true);
      var c1 := PluralStep(cfg, c, sm.name).1;
      TypeMappingsRenamed(cfg, ns, c1, sm.typeMappings);
    }
  }

  lemma ShapeStepRenames(cfg: Config, ns: string, c: Cache, sh: Shape)
    requires ShapeStep(cfg, ns, c, sh).Done?
    ensures var (sh', C) := ShapeStep(cfg, ns, c, sh).value;
      Extends(c, C) && ShapeRenamed(cfg, ns, C, sh, sh')
  {
    if Selected(cfg.selection, Local(ns, sh.entityType)) {
      NameStepRecords(cfg, c, Local(ns, sh.entityType), true);
    }
  }

  // One pass at a time.

  ghost function SetRenamedP(cfg: Config, ns: string): (Cache, EntitySet, EntitySet) -> bool
  {
    (C: Cache, e: EntitySet, e': EntitySet) => SetRenamed(cfg, ns, C, e, e')
  }

  ghost function TypeRenamedP(cfg: Config): (Cache, EntityType, EntityType) -> bool
  {
    (C: Cache, t: EntityType, t': EntityType) => TypeRenamed(cfg, C, t, t')
  }

  ghost function SetMappingRenamedP(cfg: Config, ns: string): (Cache, SetMapping, SetMapping) -> bool
  {
    (C: Cache, sm: SetMapping, sm': SetMapping) => SetMappingRenamed(cfg, ns, C, sm, sm')
  }

  ghost function ShapeRenamedP(cfg: Config, ns: string): (Cache, Shape, Shape) -> bool
  {
    (C: Cache, sh: Shape, sh': Shape) => ShapeRenamed(cfg, ns, C, sh, sh')
  }

  lemma EntitySetsRenamed(cfg: Config, ns: string, c: Cache, s: seq<EntitySet>)
    requires Fold(EntitySetFn(cfg, ns), c, s).Done?
    ensures var (s', C) := Fold(EntitySetFn(cfg, ns), c, s).value;
      && |s'| == |s| && Extends(c, C)
      && forall i :: 0 <= i < |s| ==> SetRenamed(cfg, ns, C, s[i], s'[i])
  {
    var P := SetRenamedP(cfg, ns);
    forall c1, x | EntitySetFn(cfg, ns)(c1, x).Done?
      ensures var (y, c2) := EntitySetFn(cfg, ns)(c1, x).value; Extends(c1, c2) && P(c2, x, y)
    {
      EntitySetStepRenames(cfg, ns, c1, x);
    }
    FoldEstablishes(EntitySetFn(cfg, ns), P, c, s);
  }

  lemma EntityTypesRenamed(cfg: Config, c: Cache, s: seq<EntityType>)
    ensures Fold(EntityTypeFn(cfg), c, s).Done?
    ensures var (s', C) := Fold(EntityTypeFn(cfg), c, s).value;
      && |s'| == |s| && Extends(c, C)
      && forall i :: 0 <= i < |s| ==> TypeRenamed(cfg, C, s[i], s'[i])
  {
    var P := TypeRenamedP(cfg);
    forall c1, x
      ensures EntityTypeFn(cfg)(c1, x).Done?
      ensures var (y, c2) := EntityTypeFn(cfg)(c1, x).value; Extends(c1, c2) && P(c2, x, y)
    {
      EntityTypeStepRenames(cfg, c1, x);
    }
    forall C, C', x, y | P(C, x, y) && Extends(C, C')
      ensures P(C', x, y)
    {
      if Selected(cfg.selection, x.name) {
        AllMappedGrows(cfg, C, C', x.keyRefs, y.keyRefs, false);
        AllMappedGrows(cfg, C, C', x.properties, y.properties, false);
      }
    }
    FoldNeverAborts(EntityTypeFn(cfg), c, s);
    FoldEstablishes(EntityTypeFn(cfg), P, c, s);
  }

  lemma SetMappingsRenamed(cfg: Config, ns: string, c: Cache, s: seq<SetMapping>)
    requires Fold(SetMappingFn(cfg, ns), c, s).Done?
    ensures var (s', C) := Fold(SetMappingFn(cfg, ns), c, s).value;
      && |s'| == |s| && Extends(c, C)
      && forall i :: 0 <= i < |s| ==> SetMappingRenamed(cfg, ns, C, s[i], s'[i])
  {
    var P := SetMappingRenamedP(cfg, ns);
    forall c1, x | SetMappingFn(cfg, ns)(c1, x).Done?
      ensures var (y, c2) := SetMappingFn(cfg, ns)(c1, x).value; Extends(c1, c2) && P(c2, x, y)
    {
      SetMappingStepRenames(cfg, ns, c1, x);
    }
    forall C, C', x, y | P(C, x, y) && Extends(C, C')
      ensures P(C', x, y)
    {
      SetMappingRenamedGrows(cfg, ns, C, C', x, y);
    }
    FoldEstablishes(SetMappingFn(cfg, ns), P, c, s);
  }

  lemma ShapesRenamedByDiagram(cfg: Config, ns: string, c: Cache, s: seq<Shape>)
    requires RenameDiagram(cfg, ns, c, s).Done?
    ensures var (s', C) := RenameDiagram(cfg, ns, c, s).value;
      Extends(c, C) && ShapesRenamed(cfg, ns, C, s, s')
  {
    var P := ShapeRenamedP(cfg, ns);
    forall c1, x | ShapeFn(cfg, ns)(c1, x).Done?
      ensures var (y, c2) := ShapeFn(cfg, ns)(c1, x).value; Extends(c1, c2) && P(c2, x, y)
    {
      ShapeStepRenames(cfg, ns, c1, x);
    }
    FoldEstablishes(ShapeFn(cfg, ns), P, c, s);
  }

  /** After a completed model pass every element was rewritten as the cache it leaves says. */
  lemma ModelPassRenames(cfg: Config, ns: string, c: Cache, m: Model)
    requires RenameModel(cfg, ns, c, m).Done?
    ensures var (m', C) := RenameModel(cfg, ns, c, m).value;
      Extends(c, C) && ModelRenamed(cfg, ns, C, m, m')
  {
    var (sets, c1) := Fold(EntitySetFn(cfg, ns), c, m.entitySets).value;
    EntitySetsRenamed(cfg, ns, c, m.entitySets);
    EntityTypesRenamed(cfg, c1, m.entityTypes);
    var (types, c2) := Fold(EntityTypeFn(cfg), c1, m.entityTypes).value;
    {
      SetMappingsRenamed(cfg, ns, c2, m.setMappings);
      var (maps, c3) := Fold(SetMappingFn(cfg, ns), c2, m.setMappings).value;
      forall i | 0 <= i < |m.entitySets|
        ensures SetRenamed(cfg, ns, c3, m.entitySets[i], sets[i])
      {
        assert SetRenamed(cfg, ns, c1, m.entitySets[i], sets[i]);
      }
      forall i | 0 <= i < |m.entityTypes|
        ensures TypeRenamed(cfg, c3, m.entityTypes[i], types[i])
      {
        var t, t' := m.entityTypes[i], types[i];
        assert TypeRenamed(cfg, c2, t, t');
        if Selected(cfg.selection, t.name) {
          AllMappedGrows(cfg, c2, c3, t.keyRefs, t'.keyRefs, false);
          AllMappedGrows(cfg, c2, c3, t.properties, t'.properties, false);
        }
      }
    }
  }

  /**
   * The whole walk of `Main` on a fresh cache: the model pass, then, when it
   * completed, the diagram pass. Every element of both documents agrees with the
   * one cache the run ends with.
   */
  lemma WalkRenames(cfg: Config, ns: string, m: Model, shapes: seq<Shape>)
    requires RenameModel(cfg, ns, map[], m).Done?
    requires RenameDiagram(cfg, ns, RenameModel(cfg, ns, map[], m).value.1, shapes).Done?
    ensures var (m', C1) := RenameModel(cfg, ns, map[], m).value;
      var (shapes', C) := RenameDiagram(cfg, ns, C1, shapes).value;
      ModelRenamed(cfg, ns, C, m, m') && ShapesRenamed(cfg, ns, C, shapes, shapes')
  {
    var (m', C1) := RenameModel(cfg, ns, map[], m).value;
    ModelPassRenames(cfg, ns, map[], m);
    ShapesRenamedByDiagram(cfg, ns, C1, shapes);
    ModelRenamedGrows(cfg, ns, C1, RenameDiagram(cfg, ns, C1, shapes).value.1, m, m');
  }

  // ---------------------------------------------------------------- consistency across the documents

  /** A selected entity set's type reference names the renamed class of the entity type it refers to. */
  lemma SetReferenceFollowsType(cfg: Config, ns: string, C: Cache, m: Model, m': Model, i: nat, j: nat)
    requires ModelRenamed(cfg, ns, C, m, m')
    requires i < |m.entitySets| && j < |m.entityTypes|
    requires Selected(cfg.selection, m.entitySets[i].name) && Selected(cfg.selection, m.entityTypes[j].name)
    requires HasLocal(ns, m.entitySets[i].entityType)
    requires Key(cfg.caseInsensitive, Local(ns, m.entitySets[i].entityType)) == Key(cfg.caseInsensitive, m.entityTypes[j].name)
    ensures m'.entitySets[i].entityType == ns + "." + m'.entityTypes[j].name
  {
    assert SetRenamed(cfg, ns, C, m.entitySets[i], m'.entitySets[i]);
    assert TypeRenamed(cfg, C, m.entityTypes[j], m'.entityTypes[j]);
    CacheKeyMatches(cfg.caseInsensitive, Local(ns, m.entitySets[i].entityType), m.entityTypes[j].name, true);
  }

  /** A selected entity set's new name is the plural of the new class name of a type with the same name. */
  lemma SetNameIsPluralOfType(cfg: Config, ns: string, C: Cache, m: Model, m': Model, i: nat, j: nat)
    requires ModelRenamed(cfg, ns, C, m, m')
    requires i < |m.entitySets| && j < |m.entityTypes|
    requires Selected(cfg.selection, m.entitySets[i].name) && Selected(cfg.selection, m.entityTypes[j].name)
    requires Key(cfg.caseInsensitive, m.entitySets[i].name) == Key(cfg.caseInsensitive, m.entityTypes[j].name)
    ensures m'.entitySets[i].name == PluralName(cfg.plural, m'.entityTypes[j].name)
  {
    assert SetRenamed(cfg, ns, C, m.entitySets[i], m'.entitySets[i]);
    assert TypeRenamed(cfg, C, m.entityTypes[j], m'.entityTypes[j]);
    CacheKeyMatches(cfg.caseInsensitive, m.entitySets[i].name, m.entityTypes[j].name, true);
  }

  /** An entity set and its set mapping, both selected, get the same new name. */
  lemma SetMappingFollowsSet(cfg: Config, ns: string, C: Cache, m: Model, m': Model, i: nat, j: nat)
    requires ModelRenamed(cfg, ns, C, m, m')
    requires i < |m.entitySets| && j < |m.setMappings|
    requires Selected(cfg.selection, m.entitySets[i].name) && Selected(cfg.selection, m.setMappings[j].name)
    requires Key(cfg.caseInsensitive, m.entitySets[i].name) == Key(cfg.caseInsensitive, m.setMappings[j].name)
    ensures m'.setMappings[j].name == m'.entitySets[i].name
  {
    assert SetRenamed(cfg, ns, C, m.entitySets[i], m'.entitySets[i]);
    assert SetMappingRenamed(cfg, ns, C, m.setMappings[j], m'.setMappings[j]);
    CacheKeyMatches(cfg.caseInsensitive, m.entitySets[i].name, m.setMappings[j].name, true);
  }

  /** A type mapping of a selected set mapping names the renamed class of its entity type. */
  lemma TypeMappingFollowsType(cfg: Config, ns: string, C: Cache, m: Model, m': Model, i: nat, k: nat, j: nat)
    requires ModelRenamed(cfg, ns, C, m, m')
    requires i < |m.setMappings| && j < |m.entityTypes|
    requires Selected(cfg.selection, m.setMappings[i].name) && Selected(cfg.selection, m.entityTypes[j].name)
    requires k < |m.setMappings[i].typeMappings|
    requires HasLocal(ns, m.setMappings[i].typeMappings[k].typeName)
    requires Key(cfg.caseInsensitive, Local(ns, m.setMappings[i].typeMappings[k].typeName))
      == Key(cfg.caseInsensitive, m.entityTypes[j].name)
    ensures k < |m'.setMappings[i].typeMappings|
    ensures m'.setMappings[i].typeMappings[k].typeName == ns + "." + m'.entityTypes[j].name
  {
    var tm := m.setMappings[i].typeMappings[k];
    assert SetMappingRenamed(cfg, ns, C, m.setMappings[i], m'.setMappings[i]);
    assert TypeMappingRenamed(cfg, ns, C, tm, m'.setMappings[i].typeMappings[k]);
    assert TypeRenamed(cfg, C, m.entityTypes[j], m'.entityTypes[j]);
    CacheKeyMatches(cfg.caseInsensitive, Local(ns, tm.typeName), m.entityTypes[j].name, true);
  }

  /** A scalar property mapping gets the same new name as the property of the entity type it maps. */
  lemma ScalarPropertyFollowsProperty(cfg: Config, ns: string, C: Cache, m: Model, m': Model,
                                      i: nat, k: nat, b: nat, j: nat, a: nat)
    requires ModelRenamed(cfg, ns, C, m, m')
    requires i < |m.setMappings| && j < |m.entityTypes|
    requires Selected(cfg.selection, m.setMappings[i].name) && Selected(cfg.selection, m.entityTypes[j].name)
    requires k < |m.setMappings[i].typeMappings|
    requires m.setMappings[i].typeMappings[k].fragment.Some?
    requires b < |m.setMappings[i].typeMappings[k].fragment.value|
    requires a < |m.entityTypes[j].properties|
    requires Key(cfg.caseInsensitive, m.setMappings[i].typeMappings[k].fragment.value[b])
      == Key(cfg.caseInsensitive, m.entityTypes[j].properties[a])
    ensures k < |m'.setMappings[i].typeMappings|
    ensures m'.setMappings[i].typeMappings[k].fragment.Some?
    ensures b < |m'.setMappings[i].typeMappings[k].fragment.value|
    ensures a < |m'.entityTypes[j].properties|
    ensures m'.setMappings[i].typeMappings[k].fragment.value[b] == m'.entityTypes[j].properties[a]
  {
    var tm := m.setMappings[i].typeMappings[k];
    var t := m.entityTypes[j];
    assert SetMappingRenamed(cfg, ns, C, m.setMappings[i], m'.setMappings[i]);
    var tm' := m'.setMappings[i].typeMappings[k];
    assert TypeMappingRenamed(cfg, ns, C, tm, tm');
    assert MappedTo(cfg, C, tm.fragment.value[b], false, tm'.fragment.value[b]);
    assert TypeRenamed(cfg, C, t, m'.entityTypes[j]);
    assert MappedTo(cfg, C, t.properties[a], false, m'.entityTypes[j].properties[a]);
    CacheKeyMatches(cfg.caseInsensitive, tm.fragment.value[b], t.properties[a], false);
  }

  /** A key reference gets the same new name as the property it refers to. */
  lemma KeyFollowsProperty(cfg: Config, ns: string, C: Cache, m: Model, m': Model, j: nat, k: nat, a: nat)
    requires ModelRenamed(cfg, ns, C, m, m')
    requires j < |m.entityTypes| && Selected(cfg.selection, m.entityTypes[j].name)
    requires k < |m.entityTypes[j].keyRefs| && a < |m.entityTypes[j].properties|
    requires Key(cfg.caseInsensitive, m.entityTypes[j].keyRefs[k]) == Key(cfg.caseInsensitive, m.entityTypes[j].properties[a])
    ensures k < |m'.entityTypes[j].keyRefs| && a < |m'.entityTypes[j].properties|
    ensures m'.entityTypes[j].keyRefs[k] == m'.entityTypes[j].properties[a]
  {
    var t, t' := m.entityTypes[j], m'.entityTypes[j];
    assert TypeRenamed(cfg, C, t, t');
    assert MappedTo(cfg, C, t.keyRefs[k], false, t'.keyRefs[k]);
    assert MappedTo(cfg, C, t.properties[a], false, t'.properties[a]);
    CacheKeyMatches(cfg.caseInsensitive, t.keyRefs[k], t.properties[a], false);
  }

  /** A selected diagram shape names the renamed class of the entity type it draws. */
  lemma ShapeFollowsType(cfg: Config, ns: string, C: Cache, m: Model, m': Model,
                         s: seq<Shape>, s': seq<Shape>, i: nat, j: nat)
    requires ModelRenamed(cfg, ns, C, m, m') && ShapesRenamed(cfg, ns, C, s, s')
    requires i < |s| && j < |m.entityTypes|
    requires Selected(cfg.selection, m.entityTypes[j].name)
    requires HasLocal(ns, s[i].entityType) && Selected(cfg.selection, Local(ns, s[i].entityType))
    requires Key(cfg.caseInsensitive, Local(ns, s[i].entityType)) == Key(cfg.caseInsensitive, m.entityTypes[j].name)
    ensures s'[i].entityType == ns + "." + m'.entityTypes[j].name
  {
    assert ShapeRenamed(cfg, ns, C, s[i], s'[i]);
    assert TypeRenamed(cfg, C, m.entityTypes[j], m'.entityTypes[j]);
    CacheKeyMatches(cfg.caseInsensitive, Local(ns, s[i].entityType), m.entityTypes[j].name, true);
  }

  /** Elements outside the selection come out of the model pass untouched. */
  lemma UnselectedUnchanged(cfg: Config, ns: string, C: Cache, m: Model, m': Model)
    requires ModelRenamed(cfg, ns, C, m, m')
    ensures forall i :: 0 <= i < |m.entitySets| && !Selected(cfg.selection, m.entitySets[i].name) ==>
      m'.entitySets[i] == m.entitySets[i]
    ensures forall i :: 0 <= i < |m.entityTypes| && !Selected(cfg.selection, m.entityTypes[i].name) ==>
      m'.entityTypes[i] == m.entityTypes[i]
    ensures forall i :: 0 <= i < |m.setMappings| && !Selected(cfg.selection, m.setMappings[i].name) ==>
      m'.setMappings[i] == m.setMappings[i]
  {
    forall i | 0 <= i < |m.entitySets| && !Selected(cfg.selection, m.entitySets[i].name)
      ensures m'.entitySets[i] == m.entitySets[i]
    {
      assert SetRenamed(cfg, ns, C, m.entitySets[i], m'.entitySets[i]);
    }
    forall i | 0 <= i < |m.entityTypes| && !Selected(cfg.selection, m.entityTypes[i].name)
      ensures m'.entityTypes[i] == m.entityTypes[i]
    {
      assert TypeRenamed(cfg, C, m.entityTypes[i], m'.entityTypes[i]);
    }
    forall i | 0 <= i < |m.setMappings| && !Selected(cfg.selection, m.setMappings[i].name)
      ensures m'.setMappings[i] == m.setMappings[i]
    {
      assert SetMappingRenamed(cfg, ns, C, m.setMappings[i], m'.setMappings[i]);
    }
  }

  // ---------------------------------------------------------------- case-sensitive runs

  /** A cache property that every step keeps holds after a completed list rewrite. */
  lemma {:induction false} FoldKeeps<T>(step: Step<T>, Inv: Cache -> bool, c: Cache, s: seq<T>)
    requires forall c1, x :: Inv(c1) && step(c1, x).Done? ==> Inv(step(c1, x).value.1)
    requires Inv(c) && Fold(step, c, s).Done?
    ensures Inv(Fold(step, c, s).value.1)
    decreases |s|
  {
    if s != [] {
      FoldKeeps(step, Inv, c, s[..|s| - 1]);
    }
  }

  ghost function AgreesP(cfg: Config): Cache -> bool
  {
    (C: Cache) => CacheAgrees(cfg, C)
  }

  lemma NamesAgree(cfg: Config, c: Cache, xs: seq<string>, isClass: bool)
    requires !cfg.caseInsensitive && CacheAgrees(cfg, c)
    ensures Fold(NameFn(cfg, isClass), c, xs).Done?
    ensures CacheAgrees(cfg, Fold(NameFn(cfg, isClass), c, xs).value.1)
  {
    forall c1, x | AgreesP(cfg)(c1) && NameFn(cfg, isClass)(c1, x).Done?
      ensures AgreesP(cfg)(NameFn(cfg, isClass)(c1, x).value.1)
    {
      CacheTransparentWhenCaseSensitive(cfg, c1, x, isClass);
    }
    NamesMapped(cfg, c, xs, isClass);
    FoldKeeps(NameFn(cfg, isClass), AgreesP(cfg), c, xs);
  }

  lemma TypeMappingsAgree(cfg: Config, ns: string, c: Cache, s: seq<TypeMapping>)
    requires !cfg.caseInsensitive && CacheAgrees(cfg, c)
    requires Fold(TypeMappingFn(cfg, ns), c, s).Done?
    ensures CacheAgrees(cfg, Fold(TypeMappingFn(cfg, ns), c, s).value.1)
  {
    forall c1, x | AgreesP(cfg)(c1) && TypeMappingFn(cfg, ns)(c1, x).Done?
      ensures AgreesP(cfg)(TypeMappingFn(cfg, ns)(c1, x).value.1)
    {
      CacheTransparentWhenCaseSensitive(cfg, c1, Local(ns, x.typeName), true);
      NamesAgree(cfg, NameStep(cfg, c1, Local(ns, x.typeName), true).1, x.fragment.value, false);
    }
    FoldKeeps(TypeMappingFn(cfg, ns), AgreesP(cfg), c, s);
  }

  /** With a case-sensitive comparer the model pass only ever caches resolved names. */
  lemma ModelPassAgrees(cfg: Config, ns: string, c: Cache, m: Model)
    requires !cfg.caseInsensitive && CacheAgrees(cfg, c)
    requires RenameModel(cfg, ns, c, m).Done?
    ensures CacheAgrees(cfg, RenameModel(cfg, ns, c, m).value.1)
  {
    var Inv := AgreesP(cfg);
    forall c1, x | Inv(c1) && EntitySetFn(cfg, ns)(c1, x).Done?
      ensures Inv(EntitySetFn(cfg, ns)(c1, x).value.1)
    {
      if Selected(cfg.selection, x.name) {
        CacheTransparentWhenCaseSensitive(cfg, c1, x.name, true);
        CacheTransparentWhenCaseSensitive(cfg, PluralStep(cfg, c1, x.name).1, Local(ns, x.entityType), true);
      }
    }
    forall c1, x | Inv(c1) && EntityTypeFn(cfg)(c1, x).Done?
      ensures Inv(EntityTypeFn(cfg)(c1, x).value.1)
    {
      if Selected(cfg.selection, x.name) {
        CacheTransparentWhenCaseSensitive(cfg, c1, x.name, true);
        var c2 := NameStep(cfg, c1, x.name, true).1;
        NamesAgree(cfg, c2, x.keyRefs, false);
        NamesAgree(cfg, Fold(NameFn(cfg, false), c2, x.keyRefs).value.1, x.properties, false);
      }
    }
    forall c1, x | Inv(c1) && SetMappingFn(cfg, ns)(c1, x).Done?
      ensures Inv(SetMappingFn(cfg, ns)(c1, x).value.1)
    {
      if Selected(cfg.selection, x.name) {
        CacheTransparentWhenCaseSensitive(cfg, c1, x.name, true);
        TypeMappingsAgree(cfg, ns, PluralStep(cfg, c1, x.name).1, x.typeMappings);
      }
    }
    var c1 := Fold(EntitySetFn(cfg, ns), c, m.entitySets).value.1;
    FoldKeeps(EntitySetFn(cfg, ns), Inv, c, m.entitySets);
    EntityTypesRenamed(cfg, c1, m.entityTypes);
    FoldKeeps(EntityTypeFn(cfg), Inv, c1, m.entityTypes);
    var c2 := Fold(EntityTypeFn(cfg), c1, m.entityTypes).value.1;
    FoldKeeps(SetMappingFn(cfg, ns), Inv, c2, m.setMappings);
  }

  /** A cached name of a case-sensitive run is what the name mapper resolves. */
  lemma MappedToResolves(cfg: Config, C: Cache, n: string, isClass: bool, m: string)
    requires !cfg.caseInsensitive && CacheAgrees(cfg, C) && MappedTo(cfg, C, n, isClass, m)
    ensures m == Resolve(cfg, n)
  {
    assert CacheKey(cfg.caseInsensitive, n, isClass)[1..] == n;
  }

  /**
   * With a case-sensitive comparer the cache is invisible: every selected entity
   * type is renamed to the resolved name of its own name, each of its properties
   * to the resolved name of the property, and every selected entity set to the
   * plural of its resolved name, referring to the resolved name of its type.
   */
  lemma CaseSensitiveModelResolves(cfg: Config, ns: string, m: Model)
    requires !cfg.caseInsensitive && RenameModel(cfg, ns, map[], m).Done?
    ensures var m' := RenameModel(cfg, ns, map[], m).value.0;
      && |m'.entityTypes| == |m.entityTypes| && |m'.entitySets| == |m.entitySets|
      && (forall i :: 0 <= i < |m.entityTypes| && Selected(cfg.selection, m.entityTypes[i].name) ==>
            && m'.entityTypes[i].name == Resolve(cfg, m.entityTypes[i].name)
            && |m'.entityTypes[i].properties| == |m.entityTypes[i].properties|
            && forall a :: 0 <= a < |m.entityTypes[i].properties| ==>
                 m'.entityTypes[i].properties[a] == Resolve(cfg, m.entityTypes[i].properties[a]))
      && (forall i :: 0 <= i < |m.entitySets| && Selected(cfg.selection, m.entitySets[i].name) ==>
            && m'.entitySets[i].name == PluralName(cfg.plural, Resolve(cfg, m.entitySets[i].name))
            && HasLocal(ns, m.entitySets[i].entityType)
            && m'.entitySets[i].entityType == ns + "." + Resolve(cfg, Local(ns, m.entitySets[i].entityType)))
  {
    var (m', C) := RenameModel(cfg, ns, map[], m).value;
    ModelPassRenames(cfg, ns, map[], m);
    ModelPassAgrees(cfg, ns, map[], m);
    forall i | 0 <= i < |m.entityTypes| && Selected(cfg.selection, m.entityTypes[i].name)
      ensures m'.entityTypes[i].name == Resolve(cfg, m.entityTypes[i].name)
      ensures |m'.entityTypes[i].properties| == |m.entityTypes[i].properties|
      ensures forall a :: 0 <= a < |m.entityTypes[i].properties| ==>
        m'.entityTypes[i].properties[a] == Resolve(cfg, m.entityTypes[i].properties[a])
    {
      var t, t' := m.entityTypes[i], m'.entityTypes[i];
      assert TypeRenamed(cfg, C, t, t');
      MappedToResolves(cfg, C, t.name, true, t'.name);
      forall a | 0 <= a < |t.properties|
        ensures t'.properties[a] == Resolve(cfg, t.properties[a])
      {
        MappedToResolves(cfg, C, t.properties[a], false, t'.properties[a]);
      }
    }
    forall i | 0 <= i < |m.entitySets| && Selected(cfg.selection, m.entitySets[i].name)
      ensures m'.entitySets[i].name == PluralName(cfg.plural, Resolve(cfg, m.entitySets[i].name))
      ensures HasLocal(ns, m.entitySets[i].entityType)
      ensures m'.entitySets[i].entityType == ns + "." + Resolve(cfg, Local(ns, m.entitySets[i].entityType))
    {
      var e, e' := m.entitySets[i], m'.entitySets[i];
      assert SetRenamed(cfg, ns, C, e, e');
      var k := CacheKey(cfg.caseInsensitive, e.name, true);
      MappedToResolves(cfg, C, e.name, true, C[k]);
      var l := Local(ns, e.entityType);
      MappedToResolves(cfg, C, l, true, C[CacheKey(cfg.caseInsensitive, l, true)]);
    }
  }
}
