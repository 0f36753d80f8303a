/**
 * The framework's own classes and the dependency properties their static initialisers register:
 * `UIElement`'s `IS_MOUSE_OVER` and `MARGIN`, `FrameworkElement`'s alignment and size properties with
 * its metadata overrides, `ItemsControl.CHILDREN` and `ContentControl.CONTENT`.
 */
module Framework {
  import opened Wrappers
  import opened JavaLang
  import opened ClassUtils
  import opened ClassInheritance
  import opened Properties
  import opened FrameworkPropertyMeta

  const DEPENDENCY_OBJECT: ClassId := 22
  const VISUAL: ClassId := 23
  const UI_ELEMENT: ClassId := 24
  const FRAMEWORK_ELEMENT: ClassId := 25
  const CONTROL: ClassId := 26
  const ITEMS_CONTROL: ClassId := 27
  const CONTENT_CONTROL: ClassId := 28
  const THICKNESS: ClassId := 29
  const HORIZONTAL_ALIGNMENT: ClassId := 30
  const VERTICAL_ALIGNMENT: ClassId := 31

  /** The class tree holds the framework's classes with their superclasses; user classes may follow. */
  predicate UiClasses(t: ClassTree) {
    DEPENDENCY_OBJECT in t && t[DEPENDENCY_OBJECT] == OBJECT &&
    VISUAL in t && t[VISUAL] == DEPENDENCY_OBJECT &&
    UI_ELEMENT in t && t[UI_ELEMENT] == VISUAL &&
    FRAMEWORK_ELEMENT in t && t[FRAMEWORK_ELEMENT] == UI_ELEMENT &&
    CONTROL in t && t[CONTROL] == FRAMEWORK_ELEMENT &&
    ITEMS_CONTROL in t && t[ITEMS_CONTROL] == CONTROL &&
    CONTENT_CONTROL in t && t[CONTENT_CONTROL] == CONTROL &&
    THICKNESS in t && t[THICKNESS] == OBJECT &&
    HORIZONTAL_ALIGNMENT in t && t[HORIZONTAL_ALIGNMENT] == OBJECT &&
    VERTICAL_ALIGNMENT in t && t[VERTICAL_ALIGNMENT] == OBJECT
  }

  /** The change callbacks the framework registers: `onContentChanged` and `onChildrenChanged`. */
  const CONTENT_CHANGED: ChangeCallback := ChangeCallback(0)
  const CHILDREN_CHANGED: ChangeCallback := ChangeCallback(1)

  /** The enum constants `HorizontalAlignment.Left` and `VerticalAlignment.Top`. */
  const LEFT: Value := Obj(HORIZONTAL_ALIGNMENT, 0)
  const TOP: Value := Obj(VERTICAL_ALIGNMENT, 0)
  /** The two `new Thickness(0)` objects: `MARGIN`'s default and the `FrameworkElement` override's. */
  const ZERO_MARGIN: Value := Obj(THICKNESS, 0)
  const ZERO_MARGIN_FE: Value := Obj(THICKNESS, 1)

  const MOUSE_OVER_META: PropertyMeta := NewPropertyMeta(Plain(BoolV(false)), None, None)
  const MARGIN_META: PropertyMeta := NewPropertyMeta(Plain(ZERO_MARGIN), None, None)
  const MOUSE_OVER_FE_META: PropertyMeta := NewFrameworkMeta(Plain(BoolV(false)), None, None, AFFECTS_RENDER)
  const MARGIN_FE_META: PropertyMeta := NewFrameworkMeta(Plain(ZERO_MARGIN_FE), None, None, AFFECTS_LAYOUT)
  const H_ALIGN_META: PropertyMeta := NewFrameworkMeta(Plain(LEFT), None, None, AFFECTS_LAYOUT)
  const V_ALIGN_META: PropertyMeta := NewFrameworkMeta(Plain(TOP), None, None, AFFECTS_LAYOUT)
  const NAN_SIZE_META: PropertyMeta := NewFrameworkMeta(Plain(FloatV(Double, NaN)), None, None, AFFECTS_LAYOUT)
  const MIN_SIZE_META: PropertyMeta := NewFrameworkMeta(Plain(FloatV(Double, Finite(0.0))), None, None, AFFECTS_LAYOUT)
  const MAX_SIZE_META: PropertyMeta := NewFrameworkMeta(Plain(FloatV(Double, PosInf)), None, None, AFFECTS_LAYOUT)
  const CHILDREN_META: PropertyMeta := NewFrameworkMeta(Plain(Null), Some(CHILDREN_CHANGED), None, DEFAULT_FLAGS)
  const CONTENT_META: PropertyMeta := NewFrameworkMeta(Plain(Null), Some(CONTENT_CHANGED), None, DEFAULT_FLAGS)

  /** The registered descriptors, one field per static `DependencyProperty`. */
  datatype Framework = Framework(
    isMouseOver: DependencyProperty,
    margin: DependencyProperty,
    horizontalAlignment: DependencyProperty,
    verticalAlignment: DependencyProperty,
    width: DependencyProperty,
    minWidth: DependencyProperty,
    maxWidth: DependencyProperty,
    height: DependencyProperty,
    minHeight: DependencyProperty,
    maxHeight: DependencyProperty,
    children: DependencyProperty,
    content: DependencyProperty)

  /** The descriptors in registration order. */
  function Descriptors(fw: Framework): (ps: seq<DependencyProperty>)
    ensures |ps| == 12
  {
    [fw.isMouseOver, fw.margin, fw.horizontalAlignment, fw.verticalAlignment, fw.width, fw.minWidth,
     fw.maxWidth, fw.height, fw.minHeight, fw.maxHeight, fw.children, fw.content]
  }

  /** The framework whose descriptors, in registration order, are `ps`. */
  function FromDescriptors(ps: seq<DependencyProperty>): (fw: Framework)
    requires |ps| == 12
    ensures Descriptors(fw) == ps
  {
    Framework(ps[0], ps[1], ps[2], ps[3], ps[4], ps[5], ps[6], ps[7], ps[8], ps[9], ps[10], ps[11])
  }

  /** The metadata tables of `ps`, which `overrideMetadata` writes. */
  function MetaMaps(ps: seq<DependencyProperty>): set<object> {
    set k | 0 <= k < |ps| :: ps[k].metaMap
  }

  /** The descriptor objects of `ps`, whose `suspended` sets change. */
  function Nodes(ps: seq<DependencyProperty>): set<object> {
    set k | 0 <= k < |ps| :: ps[k]
  }

  function Footprint(fw: Framework): set<object> {
    MetaMaps(Descriptors(fw))
  }

  /** One static `DependencyProperty.register(name, valueType, owner, meta)` call, without a validator. */
  datatype Registration = Registration(name: string, valueType: ClassId, owner: ClassId, meta: PropertyMeta)

  /** `overrideMetadata(cls, meta)` on descriptor number `index` of a registration table. */
  datatype Override = Override(index: nat, cls: ClassId, meta: PropertyMeta)

  /** The registrations of `UIElement` and `FrameworkElement`, in class-loading and source order. */
  const ELEMENT_REGISTRATIONS: seq<Registration> := [
    Registration("IsMouseOver", BOOLEAN, UI_ELEMENT, MOUSE_OVER_META),
    Registration("Margin", THICKNESS, UI_ELEMENT, MARGIN_META),
    Registration("HorizontalAlignment", HORIZONTAL_ALIGNMENT, FRAMEWORK_ELEMENT, H_ALIGN_META),
    Registration("VerticalAlignment", VERTICAL_ALIGNMENT, FRAMEWORK_ELEMENT, V_ALIGN_META),
    Registration("Width", DOUBLE, FRAMEWORK_ELEMENT, NAN_SIZE_META),
    Registration("MinWidth", DOUBLE, FRAMEWORK_ELEMENT, MIN_SIZE_META),
    Registration("MaxWidth", DOUBLE, FRAMEWORK_ELEMENT, MAX_SIZE_META),
    Registration("Height", DOUBLE, FRAMEWORK_ELEMENT, NAN_SIZE_META),
    Registration("MinHeight", DOUBLE, FRAMEWORK_ELEMENT, MIN_SIZE_META),
    Registration("MaxHeight", DOUBLE, FRAMEWORK_ELEMENT, MAX_SIZE_META)]

  /** `FrameworkElement`'s overrides of `UIElement`'s two properties. */
  const FRAMEWORK_OVERRIDES: seq<Override> := [
    Override(0, FRAMEWORK_ELEMENT, MOUSE_OVER_FE_META),
    Override(1, FRAMEWORK_ELEMENT, MARGIN_FE_META)]

  /** The registrations of `ItemsControl` and `ContentControl`. */
  const CONTROL_REGISTRATIONS: seq<Registration> := [
    Registration("Children", COLLECTION, ITEMS_CONTROL, CHILDREN_META),
    Registration("Content", OBJECT, CONTENT_CONTROL, CONTENT_META)]

  /** Every registration, in the order of `Descriptors`. */
  const REGISTRATIONS: seq<Registration> := ELEMENT_REGISTRATIONS + CONTROL_REGISTRATIONS

  /** The metadata table descriptor number `k`, registered as `g`, holds after the overrides `ovs`. */
  function Entries(g: Registration, k: nat, ovs: seq<Override>): map<ClassId, Option<PropertyMeta>>
    decreases |ovs|
  {
    if ovs == [] then map[g.owner := Some(g.meta)]
    else
      var m := Entries(g, k, ovs[..|ovs| - 1]);
      var o := ovs[|ovs| - 1];
      if o.index == k then m[o.cls := Some(o.meta)] else m
  }

  /** What a descriptor holds: its name, value type, owner, default metadata, whether it has a validator, and its metadata table. */
  datatype Shape = Shape(name: string, valueType: ClassId, owner: ClassId, meta: PropertyMeta, validated: bool,
                         entries: map<ClassId, Option<PropertyMeta>>)

  ghost function ShapeOf(p: DependencyProperty): Shape
    reads p.metaMap
  {
    Shape(p.name, p.valueType, p.ownerType, p.defaultMeta, p.validator.Some?, p.metaMap.entries)
  }

  ghost function Shapes(ps: seq<DependencyProperty>): (r: seq<Shape>)
    reads MetaMaps(ps)
    ensures |r| == |ps|
  {
    seq(|ps|, k requires 0 <= k < |ps| reads MetaMaps(ps) => ShapeOf(ps[k]))
  }

  /** What registration `g` creates as descriptor number `k`, after the overrides `ovs`: no validator, boxed type. */
  function Created(g: Registration, k: nat, ovs: seq<Override>): Shape {
    Shape(g.name, Box(g.valueType), g.owner, g.meta, false, Entries(g, k, ovs))
  }

  /** What the registrations `regs` create, after the overrides `ovs`. */
  function Expected(regs: seq<Registration>, ovs: seq<Override>): (r: seq<Shape>)
    ensures |r| == |regs|
  {
    seq(|regs|, k requires 0 <= k < |regs| => Created(regs[k], k, ovs))
  }

  /** Descriptor `ps[k]` is what registration `regs[k]` created, its metadata table after the overrides `ovs`. */
  ghost predicate Built(ps: seq<DependencyProperty>, regs: seq<Registration>, ovs: seq<Override>)
    reads MetaMaps(ps)
  {
    Shapes(ps) == Expected(regs, ovs)
  }

  /** What the static initialisers leave behind. */
  ghost predicate Registered(fw: Framework)
    reads Footprint(fw)
  {
    Built(Descriptors(fw), REGISTRATIONS, FRAMEWORK_OVERRIDES)
  }

  /** No descriptor of `ps` has suspended notifications for any object. */
  predicate Quiet(ps: seq<DependencyProperty>)
    reads Nodes(ps)
  {
    forall k :: 0 <= k < |ps| ==> ps[k].suspended == {}
  }

  lemma FootprintsAppend(p: seq<DependencyProperty>, q: seq<DependencyProperty>)
    ensures Nodes(p + q) == Nodes(p) + Nodes(q) && MetaMaps(p + q) == MetaMaps(p) + MetaMaps(q)
    ensures Quiet(p) && Quiet(q) ==> Quiet(p + q)
  {
    assert forall k :: 0 <= k < |p| ==> (p + q)[k] == p[k];
    assert forall k :: |p| <= k < |p| + |q| ==> (p + q)[k] == q[k - |p|];
    forall o | o in Nodes(p) + Nodes(q) ensures o in Nodes(p + q) {
      if o in Nodes(q) {
        var k :| 0 <= k < |q| && q[k] == o;
        assert (p + q)[|p| + k] == o;
      }
    }
    forall o | o in MetaMaps(p) + MetaMaps(q) ensures o in MetaMaps(p + q) {
      if o in MetaMaps(q) {
        var k :| 0 <= k < |q| && q[k].metaMap == o;
        assert (p + q)[|p| + k].metaMap == o;
      }
    }
  }

  type Table = map<ClassId, map<string, DependencyProperty>>

  /** `getProperty(owner, name)` on table `t` answers `p`. */
  predicate Finds(t: Table, owner: ClassId, name: string, p: DependencyProperty) {
    name in ClassMap(t, owner) && ClassMap(t, owner)[name] == p
  }

  /** The table after `register` adds descriptor `p` as `g`. */
  function Enter(t: Table, g: Registration, p: DependencyProperty): Table {
    t[g.owner := ClassMap(t, g.owner)[g.name := p]]
  }

  /** The table after the registrations `regs` added the descriptors `ps`, in order. */
  function EnterAll(t: Table, regs: seq<Registration>, ps: seq<DependencyProperty>): Table
    requires |regs| == |ps|
    decreases |regs|
  {
    if regs == [] then t else EnterAll(Enter(t, regs[0], ps[0]), regs[1..], ps[1..])
  }

  /** No two registrations name the same (owner, name) pair. */
  predicate DistinctKeys(regs: seq<Registration>) {
    forall i, j :: 0 <= i < j < |regs| ==> regs[i].owner != regs[j].owner || regs[i].name != regs[j].name
  }

  /** None of the registrations is in table `t` yet. */
  predicate Unregistered(t: Table, regs: seq<Registration>) {
    forall k :: 0 <= k < |regs| ==> regs[k].name !in ClassMap(t, regs[k].owner)
  }

  /** The framework's twelve (owner, name) pairs are all different. */
  lemma RegistrationKeysDistinct()
    ensures |REGISTRATIONS| == 12 && DistinctKeys(REGISTRATIONS)
  {
    var regs := REGISTRATIONS;
    forall i, j | 0 <= i < j < |regs| && regs[i].owner == regs[j].owner
      ensures regs[i].name != regs[j].name
    {
      assert |regs[i].name| != |regs[j].name| || regs[i].name[1] != regs[j].name[1];
    }
  }

  /** Overrides of other descriptors leave descriptor `k`'s table as registered. */
  lemma {:induction false} EntriesUntouched(g: Registration, k: nat, ovs: seq<Override>)
    requires forall i :: 0 <= i < |ovs| ==> ovs[i].index != k
    ensures Entries(g, k, ovs) == map[g.owner := Some(g.meta)]
    decreases |ovs|
  {
    if ovs != [] {
      EntriesUntouched(g, k, ovs[..|ovs| - 1]);
    }
  }

  lemma ShapesAppend(p: seq<DependencyProperty>, q: seq<DependencyProperty>)
    ensures Shapes(p + q) == Shapes(p) + Shapes(q)
  {
    assert forall k :: |p| <= k < |p| + |q| ==> (p + q)[k] == q[k - |p|];
  }

  /** Overrides that all name descriptors of the first batch leave the second as registered. */
  lemma ExpectedAppend(r1: seq<Registration>, r2: seq<Registration>, ovs: seq<Override>)
    requires forall i :: 0 <= i < |ovs| ==> ovs[i].index < |r1|
    ensures Expected(r1 + r2, ovs) == Expected(r1, ovs) + Expected(r2, [])
  {
    forall k | |r1| <= k < |r1| + |r2|
      ensures Expected(r1 + r2, ovs)[k] == Expected(r2, [])[k - |r1|]
    {
      EntriesUntouched((r1 + r2)[k], k, ovs);
      assert (r1 + r2)[k] == r2[k - |r1|];
    }
  }

  /** Entering `regs` leaves a pair none of them names as it was. */
  lemma {:induction false} EnterAllOther(t: Table, regs: seq<Registration>, ps: seq<DependencyProperty>, owner: ClassId, name: string)
    requires |regs| == |ps|
    requires forall k :: 0 <= k < |regs| ==> regs[k].owner != owner || regs[k].name != name
    ensures (name in ClassMap(EnterAll(t, regs, ps), owner)) == (name in ClassMap(t, owner))
    ensures name in ClassMap(t, owner) ==> ClassMap(EnterAll(t, regs, ps), owner)[name] == ClassMap(t, owner)[name]
    decreases |regs|
  {
    if regs != [] {
      EnterAllOther(Enter(t, regs[0], ps[0]), regs[1..], ps[1..], owner, name);
    }
  }

  /** After entering `regs` with distinct pairs, `getProperty` finds each descriptor under its pair. */
  lemma {:induction false} EnterAllFinds(t: Table, regs: seq<Registration>, ps: seq<DependencyProperty>)
    requires |regs| == |ps| && DistinctKeys(regs)
    ensures forall k :: 0 <= k < |regs| ==> Finds(EnterAll(t, regs, ps), regs[k].owner, regs[k].name, ps[k])
    decreases |regs|
  {
    if regs != [] {
      var t1 := Enter(t, regs[0], ps[0]);
      EnterAllFinds(t1, regs[1..], ps[1..]);
      EnterAllOther(t1, regs[1..], ps[1..], regs[0].owner, regs[0].name);
      assert forall k :: 0 < k < |regs| ==> regs[k] == regs[1..][k - 1] && ps[k] == ps[1..][k - 1];
    }
  }

  lemma {:induction false} EnterAllAppend(t: Table, r1: seq<Registration>, p: seq<DependencyProperty>,
                                          r2: seq<Registration>, q: seq<DependencyProperty>)
    requires |r1| == |p| && |r2| == |q|
    ensures EnterAll(t, r1 + r2, p + q) == EnterAll(EnterAll(t, r1, p), r2, q)
    decreases |r1|
  {
    if r1 != [] {
      assert (r1 + r2)[1..] == r1[1..] + r2 && (p + q)[1..] == p[1..] + q;
      EnterAllAppend(Enter(t, r1[0], p[0]), r1[1..], p[1..], r2, q);
    } else {
      assert r1 + r2 == r2 && p + q == q;
    }
  }

  /** Both halves of a batch of distinct, unregistered pairs are distinct and unregistered. */
  lemma KeysSplit(t: Table, r1: seq<Registration>, r2: seq<Registration>)
    requires DistinctKeys(r1 + r2)
    ensures DistinctKeys(r1) && DistinctKeys(r2)
    ensures Unregistered(t, r1 + r2) ==> Unregistered(t, r1) && Unregistered(t, r2)
  {
    assert forall k :: 0 <= k < |r1| ==> (r1 + r2)[k] == r1[k];
    assert forall k :: 0 <= k < |r2| ==> (r1 + r2)[|r1| + k] == r2[k];
  }

  /** The pairs of a later batch, none yet registered, are still unregistered after an earlier batch. */
  lemma UnregisteredAfter(t: Table, r1: seq<Registration>, p: seq<DependencyProperty>, r2: seq<Registration>)
    requires |r1| == |p| && DistinctKeys(r1 + r2) && Unregistered(t, r2)
    ensures Unregistered(EnterAll(t, r1, p), r2)
  {
    assert forall k :: 0 <= k < |r1| ==> (r1 + r2)[k] == r1[k];
    assert forall k :: 0 <= k < |r2| ==> (r1 + r2)[|r1| + k] == r2[k];
    forall k | 0 <= k < |r2|
      ensures r2[k].name !in ClassMap(EnterAll(t, r1, p), r2[k].owner)
    {
      EnterAllOther(t, r1, p, r2[k].owner, r2[k].name);
    }
  }

  /** One `register` call, as the static field initialisers make it: metadata given, no validator. */
  method RegisterOne(reg: PropertyRegistry, g: Registration) returns (r: Result<DependencyProperty, PropertyError>)
    modifies reg
    ensures r.Ok? <==> g.name !in ClassMap(old(reg.table), g.owner)
    ensures r.Err? ==> r.error == AlreadyRegistered
    ensures r.Ok? ==> fresh(r.value) && fresh(r.value.metaMap) && r.value.suspended == {}
    ensures r.Ok? ==> ShapeOf(r.value) == Created(g, 0, [])
    ensures r.Ok? ==> reg.table == Enter(old(reg.table), g, r.value)
  {
    r := reg.Register(g.name, g.valueType, g.owner, Some(g.meta), None);
  }

  /** No two descriptors of `ps` share a metadata table. */
  predicate DistinctMaps(ps: seq<DependencyProperty>) {
    forall i, j :: 0 <= i < j < |ps| ==> ps[i].metaMap != ps[j].metaMap
  }

  /** Putting one more registered descriptor in front of a built batch. */
  lemma BuiltCons(t: Table, f: DependencyProperty, rest: seq<DependencyProperty>, regs: seq<Registration>)
    requires regs != [] && ShapeOf(f) == Created(regs[0], 0, []) && f.suspended == {}
    requires Built(rest, regs[1..], []) && DistinctMaps(rest) && Quiet(rest) && f.metaMap !in MetaMaps(rest)
    ensures Built([f] + rest, regs, []) && DistinctMaps([f] + rest) && Quiet([f] + rest)
    ensures Nodes([f] + rest) == {f} + Nodes(rest) && MetaMaps([f] + rest) == {f.metaMap} + MetaMaps(rest)
    ensures EnterAll(t, regs, [f] + rest) == EnterAll(Enter(t, regs[0], f), regs[1..], rest)
  {
    var ps := [f] + rest;
    assert ps[1..] == rest;
    assert forall k :: 0 < k < |ps| ==> ps[k] == rest[k - 1];
    ShapesAppend([f], rest);
    assert Expected(regs, []) == [Created(regs[0], 0, [])] + Expected(regs[1..], []);
    FootprintsAppend([f], rest);
    assert Nodes([f]) == {f} by { assert [f][0] == f; }
    assert MetaMaps([f]) == {f.metaMap} by { assert [f][0].metaMap == f.metaMap; }
  }

  /** Registers `regs` one after the other, stopping at the first failure. */
  method RegisterAll(reg: PropertyRegistry, regs: seq<Registration>) returns (r: Result<seq<DependencyProperty>, PropertyError>)
    modifies reg
    ensures DistinctKeys(regs) && Unregistered(old(reg.table), regs) ==> r.Ok?
    ensures r.Err? ==> r.error == AlreadyRegistered
    ensures r.Ok? ==> fresh(Nodes(r.value)) && fresh(MetaMaps(r.value))
    ensures r.Ok? ==> Built(r.value, regs, []) && DistinctMaps(r.value) && Quiet(r.value)
    ensures r.Ok? ==> reg.table == EnterAll(old(reg.table), regs, r.value)
    decreases |regs|
  {
    if regs == [] {
      return Ok([]);
    }
    var first := RegisterOne(reg, regs[0]);
    if first.Err? {
      return Err(first.error);
    }
    var rest := RegisterAll(reg, regs[1..]);
    if rest.Err? {
      return Err(rest.error);
    }
    BuiltCons(old(reg.table), first.value, rest.value, regs);
    return Ok([first.value] + rest.value);
  }

  /** The `overrideMetadata` calls `ovs`, one after the other, on the descriptors they name. */
  method OverrideAll(ps: seq<DependencyProperty>, ghost regs: seq<Registration>, ovs: seq<Override>)
    requires forall i :: 0 <= i < |ovs| ==> ovs[i].index < |ps|
    requires DistinctMaps(ps) && Built(ps, regs, [])
    modifies MetaMaps(ps)
    ensures Built(ps, regs, ovs)
  {
    var i := 0;
    while i < |ovs|
      invariant 0 <= i <= |ovs|
      invariant Built(ps, regs, ovs[..i])
    {
      var o := ovs[i];
      assert ovs[..i + 1][..i] == ovs[..i];
      ghost var before := Shapes(ps);
      ps[o.index].OverrideMetadata(o.cls, Some(o.meta));
      forall k | 0 <= k < |ps|
        ensures Shapes(ps)[k] == Expected(regs, ovs[..i + 1])[k]
      {
        assert before[k] == Expected(regs, ovs[..i])[k];
        if k < o.index {
          assert ps[k].metaMap != ps[o.index].metaMap;
        } else if k > o.index {
          assert ps[o.index].metaMap != ps[k].metaMap;
        }
      }
      i := i + 1;
    }
    assert ovs[..i] == ovs;
  }

  /** Two batches built one after the other, the overrides all on the first, are one batch. */
  lemma BuiltAppend(t: Table, p: seq<DependencyProperty>, r1: seq<Registration>, ovs: seq<Override>,
                    q: seq<DependencyProperty>, r2: seq<Registration>)
    requires forall i :: 0 <= i < |ovs| ==> ovs[i].index < |r1|
    requires Built(p, r1, ovs) && Quiet(p) && Built(q, r2, []) && Quiet(q)
    ensures Built(p + q, r1 + r2, ovs) && Quiet(p + q)
    ensures Nodes(p + q) == Nodes(p) + Nodes(q) && MetaMaps(p + q) == MetaMaps(p) + MetaMaps(q)
    ensures EnterAll(t, r1 + r2, p + q) == EnterAll(EnterAll(t, r1, p), r2, q)
  {
    ShapesAppend(p, q);
    FootprintsAppend(p, q);
    ExpectedAppend(r1, r2, ovs);
    EnterAllAppend(t, r1, p, r2, q);
  }

  /** A class's registrations followed by the metadata overrides of its static block. */
  method RegisterOverridden(reg: PropertyRegistry, regs: seq<Registration>, ovs: seq<Override>)
    returns (r: Result<seq<DependencyProperty>, PropertyError>)
    requires forall i :: 0 <= i < |ovs| ==> ovs[i].index < |regs|
    modifies reg
    ensures DistinctKeys(regs) && Unregistered(old(reg.table), regs) ==> r.Ok?
    ensures r.Err? ==> r.error == AlreadyRegistered
    ensures r.Ok? ==> fresh(Nodes(r.value)) && fresh(MetaMaps(r.value))
    ensures r.Ok? ==> Built(r.value, regs, ovs) && Quiet(r.value)
    ensures r.Ok? ==> reg.table == EnterAll(old(reg.table), regs, r.value)
  {
    r := RegisterAll(reg, regs);
    if r.Ok? {
      OverrideAll(r.value, regs, ovs);
    }
  }

  /**
   * Two batches of registrations with overrides on descriptors of the first in between, as class loading
   * runs the static initialisers of a class and its subclasses.
   */
  method RegisterTables(reg: PropertyRegistry, r1: seq<Registration>, ovs: seq<Override>, r2: seq<Registration>)
    returns (r: Result<seq<DependencyProperty>, PropertyError>)
    requires DistinctKeys(r1 + r2)
    requires forall i :: 0 <= i < |ovs| ==> ovs[i].index < |r1|
    modifies reg
    ensures Unregistered(old(reg.table), r1 + r2) ==> r.Ok?
    ensures r.Err? ==> r.error == AlreadyRegistered
    ensures r.Ok? ==> fresh(Nodes(r.value)) && fresh(MetaMaps(r.value)) && Quiet(r.value)
    ensures r.Ok? ==> Built(r.value, r1 + r2, ovs)
    ensures r.Ok? ==> reg.table == EnterAll(old(reg.table), r1 + r2, r.value)
  {
    KeysSplit(reg.table, r1, r2);
    var first := RegisterOverridden(reg, r1, ovs);
    if first.Err? {
      return Err(first.error);
    }
    var p := first.value;
    if Unregistered(old(reg.table), r2) {
      UnregisteredAfter(old(reg.table), r1, p, r2);
    }
    var second := RegisterAll(reg, r2);
    if second.Err? {
      return Err(second.error);
    }
    var q := second.value;
    BuiltAppend(old(reg.table), p, r1, ovs, q, r2);
    return Ok(p + q);
  }

  /**
   * The static initialisers of `UIElement`, `FrameworkElement`, `ItemsControl` and `ContentControl`
   * in class-loading order, `FrameworkElement`'s metadata overrides after its own registrations;
   * on a fresh table every registration succeeds.
   */
  method RegisterFramework(reg: PropertyRegistry) returns (r: Result<Framework, PropertyError>)
    modifies reg
    ensures old(reg.table) == map[] ==> r.Ok?
    ensures r.Err? ==> r.error == AlreadyRegistered
    ensures r.Ok? ==> Registered(r.value) && Quiet(Descriptors(r.value))
    ensures r.Ok? ==> reg.table == EnterAll(old(reg.table), REGISTRATIONS, Descriptors(r.value))
    ensures r.Ok? ==> fresh(Nodes(Descriptors(r.value))) && fresh(Footprint(r.value))
  {
    RegistrationKeysDistinct();
    var t := RegisterTables(reg, ELEMENT_REGISTRATIONS, FRAMEWORK_OVERRIDES, CONTROL_REGISTRATIONS);
    if t.Err? {
      return Err(t.error);
    }
    var fw := FromDescriptors(t.value);
    return Ok(fw);
  }

  /** After the registrations, `getProperty` finds each descriptor under the pair it was registered with. */
  lemma RegistryFinds(t0: Table, t: Table, fw: Framework)
    requires t == EnterAll(t0, REGISTRATIONS, Descriptors(fw))
    ensures forall k :: 0 <= k < 12 ==> Finds(t, REGISTRATIONS[k].owner, REGISTRATIONS[k].name, Descriptors(fw)[k])
  {
    RegistrationKeysDistinct();
    EnterAllFinds(t0, REGISTRATIONS, Descriptors(fw));
  }

  /** Descriptor number `k` of a registered framework is what registration `k` and the overrides made it. */
  lemma DescriptorShape(fw: Framework, k: nat)
    requires Registered(fw) && k < 12
    ensures ShapeOf(Descriptors(fw)[k]) == Created(REGISTRATIONS[k], k, FRAMEWORK_OVERRIDES)
  {
    assert Shapes(Descriptors(fw))[k] == Expected(REGISTRATIONS, FRAMEWORK_OVERRIDES)[k];
  }

  /**
   * The metadata tables the static initialisers leave: `UIElement`'s two properties carry their own
   * entry and `FrameworkElement`'s; every other one only its owner's.
   */
  lemma OverriddenEntries()
    ensures Entries(REGISTRATIONS[0], 0, FRAMEWORK_OVERRIDES) ==
      map[UI_ELEMENT := Some(MOUSE_OVER_META), FRAMEWORK_ELEMENT := Some(MOUSE_OVER_FE_META)]
    ensures Entries(REGISTRATIONS[1], 1, FRAMEWORK_OVERRIDES) ==
      map[UI_ELEMENT := Some(MARGIN_META), FRAMEWORK_ELEMENT := Some(MARGIN_FE_META)]
    ensures forall k :: 2 <= k < 12 ==>
      Entries(REGISTRATIONS[k], k, FRAMEWORK_OVERRIDES) == map[REGISTRATIONS[k].owner := Some(REGISTRATIONS[k].meta)]
  {
    var ovs := FRAMEWORK_OVERRIDES;
    assert ovs[..1][..0] == [] && ovs[..|ovs| - 1] == ovs[..1] == [ovs[0]];
    assert Entries(REGISTRATIONS[0], 0, ovs[..1]) == map[UI_ELEMENT := Some(MOUSE_OVER_META)][FRAMEWORK_ELEMENT := Some(MOUSE_OVER_FE_META)];
    assert Entries(REGISTRATIONS[1], 1, ovs[..1]) == map[UI_ELEMENT := Some(MARGIN_META)];
    forall k | 2 <= k < 12
      ensures Entries(REGISTRATIONS[k], k, ovs) == map[REGISTRATIONS[k].owner := Some(REGISTRATIONS[k].meta)]
    {
      EntriesUntouched(REGISTRATIONS[k], k, ovs);
    }
  }

  /**
   * `IS_MOUSE_OVER` resolves to `FrameworkElement`'s render-affecting metadata on every
   * `FrameworkElement` and to `UIElement`'s plain metadata, which has no effect bits, everywhere else.
   */
  lemma MouseOverResolves(fw: Framework, t: ClassTree, c: ClassId)
    requires Registered(fw)
    ensures fw.isMouseOver.MetaFor(t, c) == if IsSubclassOf(t, c, FRAMEWORK_ELEMENT) then MOUSE_OVER_FE_META else MOUSE_OVER_META
    ensures var m := fw.isMouseOver.MetaFor(t, c);
      m.defaultValue == Plain(BoolV(false)) &&
      (IsFrameworkMeta(m) <==> IsSubclassOf(t, c, FRAMEWORK_ELEMENT)) &&
      (IsFrameworkMeta(m) ==> CanAffectRender(m) && !CanAffectLayout(m) && !CanAffectParentLayout(m))
  {
    DescriptorShape(fw, 0);
    OverriddenEntries();
    NearestOfTwo(t, UI_ELEMENT, MOUSE_OVER_META, FRAMEWORK_ELEMENT, MOUSE_OVER_FE_META, c);
  }

  /**
   * `MARGIN` resolves to `FrameworkElement`'s layout-affecting metadata, with its own zero thickness,
   * on every `FrameworkElement`, and to `UIElement`'s plain metadata everywhere else.
   */
  lemma MarginResolves(fw: Framework, t: ClassTree, c: ClassId)
    requires Registered(fw)
    ensures fw.margin.MetaFor(t, c) == if IsSubclassOf(t, c, FRAMEWORK_ELEMENT) then MARGIN_FE_META else MARGIN_META
    ensures var m := fw.margin.MetaFor(t, c);
      m.defaultValue == Plain(if IsSubclassOf(t, c, FRAMEWORK_ELEMENT) then ZERO_MARGIN_FE else ZERO_MARGIN) &&
      (IsFrameworkMeta(m) <==> IsSubclassOf(t, c, FRAMEWORK_ELEMENT)) &&
      (IsFrameworkMeta(m) ==> CanAffectLayout(m) && !CanAffectRender(m) && !CanAffectParentLayout(m))
  {
    DescriptorShape(fw, 1);
    OverriddenEntries();
    NearestOfTwo(t, UI_ELEMENT, MARGIN_META, FRAMEWORK_ELEMENT, MARGIN_FE_META, c);
  }

  /** A descriptor nothing overrides resolves to its registered metadata for every class. */
  lemma RegisteredMetaEverywhere(fw: Framework, t: ClassTree, k: nat, c: ClassId)
    requires Registered(fw) && 2 <= k < 12
    ensures Descriptors(fw)[k].MetaFor(t, c) == REGISTRATIONS[k].meta
  {
    DescriptorShape(fw, k);
    OverriddenEntries();
    NearestOfOne(t, REGISTRATIONS[k].owner, REGISTRATIONS[k].meta, c);
  }

  /**
   * What the layout of an element reads: the alignments default to `Left` and `Top`, the sizes to NaN,
   * the minimums to 0 and the maximums to infinity.
   */
  lemma LayoutDefaults(fw: Framework, t: ClassTree, c: ClassId)
    requires Registered(fw)
    ensures fw.horizontalAlignment.MetaFor(t, c).defaultValue == Plain(LEFT)
    ensures fw.verticalAlignment.MetaFor(t, c).defaultValue == Plain(TOP)
    ensures fw.width.MetaFor(t, c).defaultValue == Plain(FloatV(Double, NaN))
    ensures fw.height.MetaFor(t, c).defaultValue == Plain(FloatV(Double, NaN))
    ensures fw.minWidth.MetaFor(t, c).defaultValue == Plain(FloatV(Double, Finite(0.0)))
    ensures fw.minHeight.MetaFor(t, c).defaultValue == Plain(FloatV(Double, Finite(0.0)))
    ensures fw.maxWidth.MetaFor(t, c).defaultValue == Plain(FloatV(Double, PosInf))
    ensures fw.maxHeight.MetaFor(t, c).defaultValue == Plain(FloatV(Double, PosInf))
  {
    RegisteredMetaEverywhere(fw, t, 2, c);
    RegisteredMetaEverywhere(fw, t, 3, c);
    RegisteredMetaEverywhere(fw, t, 4, c);
    RegisteredMetaEverywhere(fw, t, 5, c);
    RegisteredMetaEverywhere(fw, t, 6, c);
    RegisteredMetaEverywhere(fw, t, 7, c);
    RegisteredMetaEverywhere(fw, t, 8, c);
    RegisteredMetaEverywhere(fw, t, 9, c);
  }

  /** A change to an alignment or a size property affects the element's layout and nothing else. */
  lemma LayoutPropertiesAffectLayout(fw: Framework, t: ClassTree, c: ClassId)
    requires Registered(fw)
    ensures forall k :: 2 <= k < 10 ==> LayoutOnly(Descriptors(fw)[k].MetaFor(t, c))
  {
    forall k | 2 <= k < 10 ensures Descriptors(fw)[k].MetaFor(t, c) == REGISTRATIONS[k].meta {
      RegisteredMetaEverywhere(fw, t, k, c);
    }
  }

  /** Framework metadata whose changes affect the element's own layout and nothing else. */
  predicate LayoutOnly(m: PropertyMeta) {
    IsFrameworkMeta(m) && CanAffectLayout(m) && !CanAffectRender(m) && !CanAffectParentLayout(m)
  }

  /**
   * `CHILDREN` and `CONTENT` default to null, call `onChildrenChanged` and `onContentChanged` on
   * a change, and carry no effect bits.
   */
  lemma ControlPropertiesResolve(fw: Framework, t: ClassTree, c: ClassId)
    requires Registered(fw)
    ensures var m := fw.children.MetaFor(t, c);
      m.defaultValue == Plain(Null) && m.changed == Some(CHILDREN_CHANGED) && m.coerce.None? &&
      IsFrameworkMeta(m) && !CanAffectLayout(m) && !CanAffectRender(m) && !CanAffectParentLayout(m)
    ensures var m := fw.content.MetaFor(t, c);
      m.defaultValue == Plain(Null) && m.changed == Some(CONTENT_CHANGED) && m.coerce.None? &&
      IsFrameworkMeta(m) && !CanAffectLayout(m) && !CanAffectRender(m) && !CanAffectParentLayout(m)
  {
    RegisteredMetaEverywhere(fw, t, 10, c);
    RegisteredMetaEverywhere(fw, t, 11, c);
  }

  /**
   * `CHILDREN` holds a `Collection` and belongs to `ItemsControl`, `CONTENT` holds any `Object` and
   * belongs to `ContentControl`; neither has a validator.
   */
  lemma ControlDescriptors(fw: Framework)
    requires Registered(fw)
    ensures fw.children.valueType == COLLECTION && fw.children.ownerType == ITEMS_CONTROL && fw.children.validator.None?
    ensures fw.content.valueType == OBJECT && fw.content.ownerType == CONTENT_CONTROL && fw.content.validator.None?
  {
    DescriptorShape(fw, 10);
    DescriptorShape(fw, 11);
    assert REGISTRATIONS[10] == CONTROL_REGISTRATIONS[0] && REGISTRATIONS[11] == CONTROL_REGISTRATIONS[1];
  }
  /**
   * What the operations of an items control of class `cls` rely on: `CHILDREN` holds an unvalidated
   * `Collection`, belongs to `ItemsControl`, and resolves to its registered metadata.
   */
  ghost predicate ChildrenRegistered(fw: Framework, t: ClassTree, cls: ClassId)
    reads fw.children.metaMap
  {
    fw.children.valueType == COLLECTION && fw.children.ownerType == ITEMS_CONTROL && fw.children.validator.None? &&
    fw.children.MetaFor(t, cls) == CHILDREN_META
  }

  /** The same for `CONTENT` and a content control of class `cls`. */
  ghost predicate ContentRegistered(fw: Framework, t: ClassTree, cls: ClassId)
    reads fw.content.metaMap
  {
    fw.content.valueType == OBJECT && fw.content.ownerType == CONTENT_CONTROL && fw.content.validator.None? &&
    fw.content.MetaFor(t, cls) == CONTENT_META
  }

  /** Registration establishes both, for every class. */
  lemma ControlsRegistered(fw: Framework, t: ClassTree, cls: ClassId)
    requires Registered(fw)
    ensures ChildrenRegistered(fw, t, cls) && ContentRegistered(fw, t, cls)
  {
    ControlDescriptors(fw);
    RegisteredMetaEverywhere(fw, t, 10, cls);
    RegisteredMetaEverywhere(fw, t, 11, cls);
  }

  /** The registered metadata of the two control properties: null default, a callback, no coercion, no effect bits. */
  lemma ControlMetas()
    ensures CHILDREN_META.defaultValue == Plain(Null) && CHILDREN_META.changed == Some(CHILDREN_CHANGED) && CHILDREN_META.coerce.None?
    ensures CONTENT_META.defaultValue == Plain(Null) && CONTENT_META.changed == Some(CONTENT_CHANGED) && CONTENT_META.coerce.None?
    ensures IsFrameworkMeta(CHILDREN_META) && !CanAffectLayout(CHILDREN_META) && !CanAffectRender(CHILDREN_META) && !CanAffectParentLayout(CHILDREN_META)
    ensures IsFrameworkMeta(CONTENT_META) && !CanAffectLayout(CONTENT_META) && !CanAffectRender(CONTENT_META) && !CanAffectParentLayout(CONTENT_META)
  {
  }


  /** The twelve descriptors have twelve different names, so they are twelve different objects. */
  lemma DescriptorsDistinct(fw: Framework)
    requires Registered(fw)
    ensures forall i, j :: 0 <= i < j < 12 ==> Descriptors(fw)[i].name != Descriptors(fw)[j].name
    ensures forall i, j :: 0 <= i < j < 12 ==> Descriptors(fw)[i] != Descriptors(fw)[j]
  {
    var regs := REGISTRATIONS;
    forall i, j | 0 <= i < j < 12 ensures Descriptors(fw)[i].name != Descriptors(fw)[j].name {
      DescriptorShape(fw, i);
      DescriptorShape(fw, j);
      assert |regs[i].name| != |regs[j].name| || regs[i].name[1] != regs[j].name[1];
    }
  }
}
