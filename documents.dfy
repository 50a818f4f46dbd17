/**
 * The loaded documents and the walk of `Main` over them: each element list is
 * an array rewritten in place, one element at a time, through one Renamer.
 * Each method is proved against the corresponding specification function of
 * module Walk.
 */
module Documents {
  import opened Common
  import opened NameMapper
  import opened Selection
  import opened Walk

  /** The `.edmx` file once loaded: the code namespace and the element lists of the model. */
  class ModelDocument {
    const ns: string
    const entitySets: array<EntitySet>
    const entityTypes: array<EntityType>
    const setMappings: array<SetMapping>

    /** `XDocument.Load` of the model, given its contents. */
    constructor (ns: string, m: Model)
      ensures this.ns == ns && Contents() == m
      ensures fresh(entitySets) && fresh(entityTypes) && fresh(setMappings)
    {
      this.ns := ns;
      entitySets := new EntitySet[|m.entitySets|](i requires 0 <= i < |m.entitySets| => m.entitySets[i]);
      entityTypes := new EntityType[|m.entityTypes|](i requires 0 <= i < |m.entityTypes| => m.entityTypes[i]);
      setMappings := new SetMapping[|m.setMappings|](i requires 0 <= i < |m.setMappings| => m.setMappings[i]);
    }

    function Contents(): Model
      reads entitySets, entityTypes, setMappings
    {
      Model(entitySets[..], entityTypes[..], setMappings[..])
    }
  }

  /** The `.edmx.diagram` file once loaded: its entity type shapes. */
  class DiagramDocument {
    const shapes: array<Shape>

    constructor (s: seq<Shape>)
      ensures shapes[..] == s && fresh(shapes)
    {
      shapes := new Shape[|s|](i requires 0 <= i < |s| => s[i]);
    }
  }

  /** `MapAttribute` over a list of names, in order. */
  method MapNames(r: Renamer, names: seq<string>, isClass: bool) returns (names': seq<string>)
    modifies r
    ensures Fold(NameFn(r.cfg, isClass), old(r.cache), names) == Done((names', r.cache))
  {
    ghost var c0 := r.cache;
    names' := [];
    for i := 0 to |names|
      invariant Fold(NameFn(r.cfg, isClass), c0, names[..i]) == Done((names', r.cache))
    {
      FoldSnoc(NameFn(r.cfg, isClass), c0, names, i, names', r.cache);
      var m := r.MapName(names[i], isClass);
      names' := names' + [m];
    }
    assert names[..|names|] == names;
  }

  /** Lines 114-117 on one entity set; false when the type reference is too short for its namespace. */
  method RenameEntitySet(r: Renamer, ns: string, e: EntitySet) returns (ok: bool, e': EntitySet)
    modifies r
    ensures EntitySetStep(r.cfg, ns, old(r.cache), e) == if ok then Done((e', r.cache)) else Aborted
  {
    var selected := CanProcess(r.cfg.selection, e.name);
    if !selected {
      return true, e;
    }
    var name := r.MapNamePlural(e.name);
    if |e.entityType| < |ns| + 1 {
      return false, e;
    }
    var t := r.MapName(e.entityType[|ns| + 1..], true);
    return true, EntitySet(name, ns + "." + t);
  }

  /** Lines 123-136 on one entity type. */
  method RenameEntityType(r: Renamer, t: EntityType) returns (t': EntityType)
    modifies r
    ensures EntityTypeStep(r.cfg, old(r.cache), t) == Done((t', r.cache))
  {
    var selected := CanProcess(r.cfg.selection, t.name);
    if !selected {
      return t;
    }
    var name := r.MapName(t.name, true);
    var keys := MapNames(r, t.keyRefs, false);
    var props := MapNames(r, t.properties, false);
    return EntityType(name, keys, props);
  }

  /** Lines 150-157 on one type mapping; false on a short reference or a missing mapping fragment. */
  method RenameTypeMapping(r: Renamer, ns: string, tm: TypeMapping) returns (ok: bool, tm': TypeMapping)
    modifies r
    ensures TypeMappingStep(r.cfg, ns, old(r.cache), tm) == if ok then Done((tm', r.cache)) else Aborted
  {
    if |tm.typeName| < |ns| + 1 {
      return false, tm;
    }
    var t := r.MapName(tm.typeName[|ns| + 1..], true);
    if tm.fragment.None? {
      return false, tm;
    }
    var props := MapNames(r, tm.fragment.value, false);
    return true, TypeMapping(ns + "." + t, Some(props));
  }

  /** Lines 148-158 on one set mapping. */
  method RenameSetMapping(r: Renamer, ns: string, sm: SetMapping) returns (ok: bool, sm': SetMapping)
    modifies r
    ensures SetMappingStep(r.cfg, ns, old(r.cache), sm) == if ok then Done((sm', r.cache)) else Aborted
  {
    var selected := CanProcess(r.cfg.selection, sm.name);
    if !selected {
      return true, sm;
    }
    var name := r.MapNamePlural(sm.name);
    ghost var c1 := r.cache;
    var tms := [];
    for i := 0 to |sm.typeMappings|
      invariant Fold(TypeMappingFn(r.cfg, ns), c1, sm.typeMappings[..i]) == Done((tms, r.cache))
    {
      FoldSnoc(TypeMappingFn(r.cfg, ns), c1, sm.typeMappings, i, tms, r.cache);
      var done, tm := RenameTypeMapping(r, ns, sm.typeMappings[i]);
      if !done {
        FoldAbortSticks(TypeMappingFn(r.cfg, ns), c1, sm.typeMappings, i + 1);
        return false, sm;
      }
      tms := tms + [tm];
    }
    assert sm.typeMappings[..|sm.typeMappings|] == sm.typeMappings;
    return true, SetMapping(name, tms);
  }

  /** Lines 175-179 on one shape. */
  method RenameShape(r: Renamer, ns: string, sh: Shape) returns (ok: bool, sh': Shape)
    modifies r
    ensures ShapeStep(r.cfg, ns, old(r.cache), sh) == if ok then Done((sh', r.cache)) else Aborted
  {
    if |sh.entityType| < |ns| + 1 {
      return false, sh;
    }
    var n := sh.entityType[|ns| + 1..];
    var selected := CanProcess(r.cfg.selection, n);
    if !selected {
      return true, sh;
    }
    var t := r.MapName(n, true);
    return true, Shape(ns + "." + t);
  }

  /** Lines 110-119: every entity set, in place; false when one aborts the pass. */
  method RenameEntitySets(r: Renamer, ns: string, a: array<EntitySet>) returns (ok: bool)
    modifies r, a
    ensures var spec := Fold(EntitySetFn(r.cfg, ns), old(r.cache), old(a[..]));
      ok == spec.Done? && (ok ==> spec.value == (a[..], r.cache))
  {
    ghost var s0, c0 := a[..], r.cache;
    var i := 0;
    while i < a.Length
      invariant 0 <= i <= a.Length
      invariant a[i..] == s0[i..]
      invariant Fold(EntitySetFn(r.cfg, ns), c0, s0[..i]) == Done((a[..i], r.cache))
    {
      assert s0[i] == a[i];
      FoldSnoc(EntitySetFn(r.cfg, ns), c0, s0, i, a[..i], r.cache);
      var done, e := RenameEntitySet(r, ns, a[i]);
      if !done {
        FoldAbortSticks(EntitySetFn(r.cfg, ns), c0, s0, i + 1);
        return false;
      }
      ghost var prefix := a[..i];
      a[i] := e;
      assert a[..i + 1] == prefix + [e];
      i := i + 1;
    }
    assert s0[..a.Length] == s0 && a[..a.Length] == a[..];
    return true;
  }

  /** Lines 121-136: every entity type, in place; this pass never aborts. */
  method RenameEntityTypes(r: Renamer, a: array<EntityType>)
    modifies r, a
    ensures Fold(EntityTypeFn(r.cfg), old(r.cache), old(a[..])) == Done((a[..], r.cache))
  {
    ghost var s0, c0 := a[..], r.cache;
    var i := 0;
    while i < a.Length
      invariant 0 <= i <= a.Length
      invariant a[i..] == s0[i..]
      invariant Fold(EntityTypeFn(r.cfg), c0, s0[..i]) == Done((a[..i], r.cache))
    {
      assert s0[i] == a[i];
      FoldSnoc(EntityTypeFn(r.cfg), c0, s0, i, a[..i], r.cache);
      var t := RenameEntityType(r, a[i]);
      ghost var prefix := a[..i];
      a[i] := t;
      assert a[..i + 1] == prefix + [t];
      i := i + 1;
    }
    assert s0[..a.Length] == s0 && a[..a.Length] == a[..];
  }

  /** Lines 141-161: every entity set mapping, in place; false when one aborts the pass. */
  method RenameSetMappings(r: Renamer, ns: string, a: array<SetMapping>) returns (ok: bool)
    modifies r, a
    ensures var spec := Fold(SetMappingFn(r.cfg, ns), old(r.cache), old(a[..]));
      ok == spec.Done? && (ok ==> spec.value == (a[..], r.cache))
  {
    ghost var s0, c0 := a[..], r.cache;
    var i := 0;
    while i < a.Length
      invariant 0 <= i <= a.Length
      invariant a[i..] == s0[i..]
      invariant Fold(SetMappingFn(r.cfg, ns), c0, s0[..i]) == Done((a[..i], r.cache))
    {
      assert s0[i] == a[i];
      FoldSnoc(SetMappingFn(r.cfg, ns), c0, s0, i, a[..i], r.cache);
      var done, sm := RenameSetMapping(r, ns, a[i]);
      if !done {
        FoldAbortSticks(SetMappingFn(r.cfg, ns), c0, s0, i + 1);
        return false;
      }
      ghost var prefix := a[..i];
      a[i] := sm;
      assert a[..i + 1] == prefix + [sm];
      i := i + 1;
    }
    assert s0[..a.Length] == s0 && a[..a.Length] == a[..];
    return true;
  }

  /** Lines 171-181: every entity type shape of the diagram, in place; false when one aborts the pass. */
  method RenameShapes(r: Renamer, ns: string, a: array<Shape>) returns (ok: bool)
    modifies r, a
    ensures var spec := RenameDiagram(r.cfg, ns, old(r.cache), old(a[..]));
      ok == spec.Done? && (ok ==> spec.value == (a[..], r.cache))
  {
    ghost var s0, c0 := a[..], r.cache;
    var i := 0;
    while i < a.Length
      invariant 0 <= i <= a.Length
      invariant a[i..] == s0[i..]
      invariant Fold(ShapeFn(r.cfg, ns), c0, s0[..i]) == Done((a[..i], r.cache))
    {
      assert s0[i] == a[i];
      FoldSnoc(ShapeFn(r.cfg, ns), c0, s0, i, a[..i], r.cache);
      var done, sh := RenameShape(r, ns, a[i]);
      if !done {
        FoldAbortSticks(ShapeFn(r.cfg, ns), c0, s0, i + 1);
        return false;
      }
      ghost var prefix := a[..i];
      a[i] := sh;
      assert a[..i + 1] == prefix + [sh];
      i := i + 1;
    }
    assert s0[..a.Length] == s0 && a[..a.Length] == a[..];
    return true;
  }

  /**
   * The walk of `Main` (lines 110-184) with one fresh Renamer: the model pass,
   * whose result is saved only when it completes, then the diagram pass, run only
   * when a diagram exists and the model was saved, and saved only when it completes.
   * The tables of `cfg` are those read from the rule files (see LoadedConfigValid).
   */
  method Run(cfg: Config, doc: ModelDocument, diagram: DiagramDocument?) returns (modelSaved: bool, diagramSaved: bool)
    requires ValidConfig(cfg)
    modifies doc.entitySets, doc.entityTypes, doc.setMappings
    modifies if diagram != null then {diagram.shapes} else {}
    ensures var spec := RenameModel(cfg, doc.ns, map[], old(doc.Contents()));
      modelSaved == spec.Done? && (modelSaved ==> doc.Contents() == spec.value.0)
    ensures diagramSaved ==> modelSaved && diagram != null
    ensures modelSaved && diagram != null ==>
      var spec := RenameDiagram(cfg, doc.ns, RenameModel(cfg, doc.ns, map[], old(doc.Contents())).value.1,
                                old(diagram.shapes[..]));
      diagramSaved == spec.Done? && (diagramSaved ==> diagram.shapes[..] == spec.value.0)
  {
    var r := new Renamer(cfg);
    modelSaved, diagramSaved := false, false;
    var ok := RenameEntitySets(r, doc.ns, doc.entitySets);
    if !ok {
      return;
    }
    RenameEntityTypes(r, doc.entityTypes);
    ok := RenameSetMappings(r, doc.ns, doc.setMappings);
    if !ok {
      return;
    }
    modelSaved := true;
    if diagram != null {
      diagramSaved := RenameShapes(r, doc.ns, diagram.shapes);
    }
  }
}
