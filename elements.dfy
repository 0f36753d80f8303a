/**
 * What a property change does to elements: the change callbacks of `ContentControl.CONTENT` and
 * `ItemsControl.CHILDREN`, `FrameworkElement.onPropertyChanged`'s routing of the metadata's effect
 * bits to invalidations, and `setValue`/`clearValue` on an element, which run that override.
 *
 * What a run of invalidations does is described by `Invalidation.Step` over a `scope` of elements the
 * run may touch: the elements asked to re-lay-out and to re-render, whatever the order.
 */
module Elements {
  import opened Wrappers
  import opened JavaLang
  import opened JavaUtil
  import opened ClassInheritance
  import opened Properties
  import opened FrameworkPropertyMeta
  import opened Framework
  import opened Events
  import opened Layout
  import opened Invalidation

  /** Why an element operation throws. */
  datatype UiError =
    | Property(error: PropertyError)
      /** A cast in the source fails (`ClassCastException`). */
    | ClassCast
      /** A method is called on a null item (`NullPointerException`). */
    | NullReference
      /** `onChildrenChanged`: a new child is not an element. */
    | InvalidChild
      /** `addChild(null)` or `removeChild(null)`. */
    | NullElement

  /** The element value `v` refers to, as a set. */
  function ElementSet(v: Value): set<UIElement> {
    if ElementOf(v).Some? then {ElementOf(v).value} else {}
  }

  /** The element's parent, as a set. */
  function ParentSet(e: UIElement): set<UIElement>
    reads e
  {
    if e.parent.Some? then {e.parent.value} else {}
  }

  /** The elements a notification of `e` about the new value `nv` may touch: `e`, its parent, the value's element. */
  function NoticeScope(e: UIElement, nv: Value): set<UIElement>
    reads e
  {
    {e} + ParentSet(e) + ElementSet(nv)
  }

  /** `x` asked to re-lay-out (`layout`) and to re-render (`render`). */
  function Asked(x: UIElement, layout: bool, render: bool): Effects {
    Effects(if layout then {x} else {}, if render then {x} else {})
  }

  /**
   * `x.invalidateVisual()`, `x.invalidateLayout()`, `x.invalidateRender()` or nothing, as a step over
   * `scope`.
   */
  method InvalidateIn(x: UIElement, layout: bool, render: bool, lm: ContextLayoutManager, ghost scope: set<UIElement>)
    requires x in scope
    modifies x, lm
    ensures Step(scope, old(Snap(scope)), old(lm.arrangeList), old(lm.renderList), Asked(x, layout, render),
                 Snap(scope), lm.arrangeList, lm.renderList)
    ensures lm.isInactive == old(lm.isInactive)
  {
    ghost var s0 := x.State();
    ghost var m0 := Snap(scope);
    ghost var a0 := lm.arrangeList;
    ghost var r0 := lm.renderList;
    InvalidateCoversMethods(s0);
    InvalidateComposes(s0, false, false, false, false);
    if layout && render {
      x.InvalidateVisual(lm);
    } else if layout {
      x.InvalidateLayout(lm);
    } else if render {
      x.InvalidateRender(lm);
    }
    SingleStep(scope, m0, a0, r0, x, layout, render, Snap(scope), lm.arrangeList, lm.renderList);
  }

  // ---------------------------------------------------------------- FrameworkElement.onPropertyChanged

  /** `bypassMeasurementPolicies` exempts `WIDTH` and `HEIGHT` from invalidating the element's own layout. */
  predicate SizeBypassed(fw: Framework, e: UIElement, p: DependencyProperty) {
    e.bypassMeasurementPolicies && (p == fw.width || p == fw.height)
  }

  /** The invalidations of a routed change: the parent's layout when `parentLayout`, then the element's own. */
  function Routed(e: UIElement, parent: Option<UIElement>, parentLayout: bool, ownLayout: bool, render: bool): Effects {
    Union(if parent.Some? then Asked(parent.value, parentLayout, false) else NO_EFFECTS, Asked(e, ownLayout || render, render))
  }

  /**
   * The invalidations `FrameworkElement.onPropertyChanged` asks for once the base notification has
   * returned, for metadata `m`: `AFFECTS_PARENT_LAYOUT` the parent's layout, `AFFECTS_LAYOUT` the
   * element's own layout unless bypassed, `AFFECTS_RENDER` the element's render and layout; metadata
   * that is not framework metadata asks for nothing.
   */
  function RouteEffects(m: PropertyMeta, e: UIElement, parent: Option<UIElement>, bypassed: bool): Effects {
    if !IsFrameworkMeta(m) then NO_EFFECTS
    else Routed(e, parent, CanAffectParentLayout(m), CanAffectLayout(m) && !bypassed, CanAffectRender(m))
  }

  /** The elements `RouteEffects` asks for, flag by flag. */
  lemma RouteEffectsSets(m: PropertyMeta, e: UIElement, parent: Option<UIElement>, bypassed: bool)
    ensures !IsFrameworkMeta(m) ==> RouteEffects(m, e, parent, bypassed) == NO_EFFECTS
    ensures IsFrameworkMeta(m) ==>
      RouteEffects(m, e, parent, bypassed).layout ==
        (if parent.Some? && CanAffectParentLayout(m) then {parent.value} else {}) +
        (if (CanAffectLayout(m) && !bypassed) || CanAffectRender(m) then {e} else {}) &&
      RouteEffects(m, e, parent, bypassed).render == (if CanAffectRender(m) then {e} else {})
  {
  }

  /** `this.invalidateLayout()` when `ownLayout`, then `this.invalidateVisual()` when `render`. */
  method InvalidateOwn(e: UIElement, ownLayout: bool, render: bool, lm: ContextLayoutManager, ghost scope: set<UIElement>)
    requires e in scope
    modifies e, lm
    ensures Step(scope, old(Snap(scope)), old(lm.arrangeList), old(lm.renderList), Asked(e, ownLayout || render, render),
                 Snap(scope), lm.arrangeList, lm.renderList)
    ensures lm.isInactive == old(lm.isInactive)
  {
    ghost var s0 := e.State();
    ghost var m0 := Snap(scope);
    ghost var a0 := lm.arrangeList;
    ghost var r0 := lm.renderList;
    InvalidateCoversMethods(s0);
    InvalidateCoversMethods(Invalidate(s0, ownLayout, false));
    InvalidateComposes(s0, ownLayout, false, true, true);
    InvalidateComposes(s0, ownLayout, false, false, false);
    if ownLayout {
      e.InvalidateLayout(lm);
    }
    if render {
      e.InvalidateVisual(lm);
    }
    SingleStep(scope, m0, a0, r0, e, ownLayout || render, render, Snap(scope), lm.arrangeList, lm.renderList);
  }

  /** The parent's `invalidateLayout()` when asked, then the element's own invalidations. */
  method InvalidateRouted(e: UIElement, parent: Option<UIElement>, parentLayout: bool, ownLayout: bool, render: bool,
                          lm: ContextLayoutManager, ghost scope: set<UIElement>)
    requires e in scope && (parent.Some? ==> parent.value in scope)
    modifies scope, lm
    ensures Step(scope, old(Snap(scope)), old(lm.arrangeList), old(lm.renderList), Routed(e, parent, parentLayout, ownLayout, render),
                 Snap(scope), lm.arrangeList, lm.renderList)
    ensures lm.isInactive == old(lm.isInactive)
  {
    ghost var m0 := Snap(scope);
    ghost var a0 := lm.arrangeList;
    ghost var r0 := lm.renderList;
    if parent.Some? {
      InvalidateIn(parent.value, parentLayout, false, lm, scope);
    } else {
      NoStep(scope, m0, a0, r0);
    }
    ghost var m1 := Snap(scope);
    ghost var a1 := lm.arrangeList;
    ghost var r1 := lm.renderList;
    InvalidateOwn(e, ownLayout, render, lm, scope);
    StepCompose(scope, m0, a0, r0, if parent.Some? then Asked(parent.value, parentLayout, false) else NO_EFFECTS,
                m1, a1, r1, Asked(e, ownLayout || render, render), Snap(scope), lm.arrangeList, lm.renderList);
  }

  /** The framework part of `FrameworkElement.onPropertyChanged`, after `super.onPropertyChanged`. */
  method RouteChange(t: ClassTree, fw: Framework, e: UIElement, p: DependencyProperty, lm: ContextLayoutManager,
                     ghost scope: set<UIElement>)
    requires {e} + ParentSet(e) <= scope
    modifies scope, lm
    ensures Step(scope, old(Snap(scope)), old(lm.arrangeList), old(lm.renderList),
                 RouteEffects(old(p.MetaFor(t, e.obj.cls)), e, old(e.parent), SizeBypassed(fw, e, p)),
                 Snap(scope), lm.arrangeList, lm.renderList)
    ensures lm.isInactive == old(lm.isInactive)
  {
    var meta := p.GetMeta(t, Some(e.obj));
    if !IsFrameworkMeta(meta) {
      NoStep(scope, Snap(scope), lm.arrangeList, lm.renderList);
      return;
    }
    var parent := e.parent;
    var bypassed := e.bypassMeasurementPolicies && (p == fw.width || p == fw.height);
    InvalidateRouted(e, parent, CanAffectParentLayout(meta), CanAffectLayout(meta) && !bypassed, CanAffectRender(meta), lm, scope);
  }

  // ---------------------------------------------------------------- ContentControl.onContentChanged

  /**
   * What `onContentChanged` asks for: the control's layout and render (`invalidateVisual`), and the
   * layout of the new content when it is an element.
   */
  function ContentNotice(c: UIElement, nv: Value): Effects {
    Union(Asked(c, true, true), Effects(ElementSet(nv), {}))
  }

  /** The control is asked to re-lay-out and re-render, the new content only to re-lay-out. */
  lemma ContentNoticeSets(c: UIElement, nv: Value)
    ensures ContentNotice(c, nv).layout == {c} + ElementSet(nv) && ContentNotice(c, nv).render == {c}
  {
  }

  /** `onContentChanged(old, new)`: the control's visual, then the new content's layout when it is an element. */
  method OnContentChanged(c: UIElement, nv: Value, lm: ContextLayoutManager, ghost scope: set<UIElement>)
    requires {c} + ElementSet(nv) <= scope
    modifies scope, lm
    ensures Step(scope, old(Snap(scope)), old(lm.arrangeList), old(lm.renderList), ContentNotice(c, nv),
                 Snap(scope), lm.arrangeList, lm.renderList)
    ensures lm.isInactive == old(lm.isInactive)
  {
    ghost var m0 := Snap(scope);
    ghost var a0 := lm.arrangeList;
    ghost var r0 := lm.renderList;
    InvalidateIn(c, true, true, lm, scope);
    ghost var m1 := Snap(scope);
    ghost var a1 := lm.arrangeList;
    ghost var r1 := lm.renderList;
    var child := ElementOf(nv);
    if child.Some? {
      InvalidateIn(child.value, true, false, lm, scope);
    } else {
      NoStep(scope, m1, a1, r1);
    }
    StepCompose(scope, m0, a0, r0, Asked(c, true, true), m1, a1, r1, Effects(ElementSet(nv), {}),
                Snap(scope), lm.arrangeList, lm.renderList);
  }

  // ---------------------------------------------------------------- ItemsControl: child lists

  /** The casts `(Collection) value` of the change callback: null, a list, or a `ClassCastException`. */
  function AsCollection(v: Value): (r: Result<Option<ArrayList<Value>>, UiError>)
    ensures r.Ok? <==> v == Null || v.ListRef?
    ensures r.Ok? && r.value.Some? <==> v.ListRef?
    ensures v.ListRef? ==> r == Ok(Some(v.list))
  {
    match v
    case Null => Ok(None)
    case ListRef(l) => Ok(Some(l))
    case _ => Err(ClassCast)
  }

  /** The lists a value refers to (its footprint in the heap). */
  function ListsOf(v: Value): set<object> {
    if v.ListRef? then {v.list} else {}
  }

  /** The index of the first item that is not an element (`|items|` when all are). */
  function FirstNonElement(items: seq<Value>): (k: nat)
    ensures k <= |items|
    ensures forall j :: 0 <= j < k ==> ElementOf(items[j]).Some?
    ensures k < |items| ==> ElementOf(items[k]).None?
    decreases |items|
  {
    if items == [] || ElementOf(items[0]).None? then 0 else 1 + FirstNonElement(items[1..])
  }

  /** The exception a cast `(UIElement) item` followed by a call on it raises for a non-element item. */
  function CastError(item: Value): (r: UiError)
    ensures r == NullReference <==> item == Null
    ensures r == ClassCast <==> item != Null
  {
    if item == Null then NullReference else ClassCast
  }

  /** How a loop that casts every item to an element ends: normally, or at the first non-element. */
  function LoopFailure(items: seq<Value>): (r: Option<UiError>)
    ensures r.None? <==> forall j :: 0 <= j < |items| ==> ElementOf(items[j]).Some?
    ensures r.Some? ==> r.value == CastError(items[FirstNonElement(items)])
  {
    var k := FirstNonElement(items);
    if k == |items| then None else Some(CastError(items[k]))
  }

  /** The `validate(valid)` calls on the first `n` items, which are elements. */
  function Validations(items: seq<Value>, n: nat, valid: bool): (r: seq<Event>)
    requires n <= FirstNonElement(items)
    ensures |r| == n
    ensures forall j :: 0 <= j < n ==> r[j] == Validated(ElementOf(items[j]).value, valid)
  {
    seq(n, j requires 0 <= j < n => Validated(ElementOf(items[j]).value, valid))
  }

  /** One more validation is one more event. */
  lemma ValidationsSnoc(items: seq<Value>, n: nat, valid: bool)
    requires n < FirstNonElement(items)
    ensures Validations(items, n + 1, valid) == Validations(items, n, valid) + [Validated(ElementOf(items[n]).value, valid)]
  {
    assert Validations(items, n + 1, valid)[..n] == Validations(items, n, valid);
  }

  /** `for (Object obj : list) ((UIElement) obj).validate(valid)`, failing at the first non-element. */
  method ValidateEach(items: seq<Value>, valid: bool, trace: Trace) returns (err: Option<UiError>)
    modifies trace
    ensures trace.events == old(trace.events) + Validations(items, FirstNonElement(items), valid)
    ensures err == LoopFailure(items)
  {
    var i := 0;
    while i < |items|
      invariant i <= FirstNonElement(items)
      invariant trace.events == old(trace.events) + Validations(items, i, valid)
    {
      var x := ElementOf(items[i]);
      if x.None? {
        return Some(CastError(items[i]));
      }
      ValidationsSnoc(items, i, valid);
      trace.Emit(Validated(x.value, valid));
      i := i + 1;
    }
    return None;
  }

  /** The check `obj instanceof UIElement` on every item. */
  method AllAreElements(items: seq<Value>) returns (b: bool)
    ensures b <==> forall j :: 0 <= j < |items| ==> ElementOf(items[j]).Some?
  {
    var i := 0;
    while i < |items|
      invariant i <= |items|
      invariant forall j :: 0 <= j < i ==> ElementOf(items[j]).Some?
    {
      if ElementOf(items[i]).None? {
        return false;
      }
      i := i + 1;
    }
    return true;
  }

  /** The elements among the first `n` items, which are all elements. */
  function ElementsUpTo(items: seq<Value>, n: nat): (r: set<UIElement>)
    requires n <= FirstNonElement(items)
    ensures forall j :: 0 <= j < n ==> ElementOf(items[j]).value in r
    ensures forall x :: x in r ==> exists j :: 0 <= j < n && ElementOf(items[j]) == Some(x)
  {
    set j | 0 <= j < n :: ElementOf(items[j]).value
  }

  /** The elements a forwarding loop reaches: every item before the first non-element. */
  function Reached(items: seq<Value>): set<UIElement> {
    ElementsUpTo(items, FirstNonElement(items))
  }

  /** `invalidateLayout` (`layout`) or `invalidateRender` on the first `n` items. */
  function Fan(items: seq<Value>, n: nat, layout: bool): (fx: Effects)
    requires n <= FirstNonElement(items)
    ensures fx.layout == (if layout then ElementsUpTo(items, n) else {})
    ensures fx.render == (if layout then {} else ElementsUpTo(items, n))
  {
    if layout then Effects(ElementsUpTo(items, n), {}) else Effects({}, ElementsUpTo(items, n))
  }

  /** Reaching one more item adds that element to the run. */
  lemma FanSnoc(items: seq<Value>, n: nat, layout: bool)
    requires n < FirstNonElement(items)
    ensures Fan(items, n + 1, layout) == Union(Fan(items, n, layout), Asked(ElementOf(items[n]).value, layout, !layout))
  {
    var x := ElementOf(items[n]).value;
    assert ElementsUpTo(items, n + 1) == ElementsUpTo(items, n) + {x} by {
      forall y | y in ElementsUpTo(items, n + 1) ensures y in ElementsUpTo(items, n) + {x} {
        var j :| 0 <= j < n + 1 && ElementOf(items[j]) == Some(y);
        if j < n {
          assert ElementOf(items[j]).value in ElementsUpTo(items, n);
        }
      }
    }
  }

  /** `list.forEach(UIElement::invalidateLayout)` (`layout`) or `::invalidateRender`. */
  method InvalidateEach(items: seq<Value>, layout: bool, lm: ContextLayoutManager, ghost scope: set<UIElement>)
    returns (err: Option<UiError>)
    requires Reached(items) <= scope
    modifies scope, lm
    ensures err == LoopFailure(items)
    ensures Step(scope, old(Snap(scope)), old(lm.arrangeList), old(lm.renderList), Fan(items, FirstNonElement(items), layout),
                 Snap(scope), lm.arrangeList, lm.renderList)
    ensures lm.isInactive == old(lm.isInactive)
  {
    ghost var m0 := Snap(scope);
    ghost var a0 := lm.arrangeList;
    ghost var r0 := lm.renderList;
    assert Fan(items, 0, layout) == NO_EFFECTS;
    NoStep(scope, m0, a0, r0);
    var i := 0;
    while i < |items|
      invariant i <= FirstNonElement(items)
      invariant Step(scope, m0, a0, r0, Fan(items, i, layout), Snap(scope), lm.arrangeList, lm.renderList)
      invariant lm.isInactive == old(lm.isInactive)
    {
      var x := ElementOf(items[i]);
      if x.None? {
        return Some(CastError(items[i]));
      }
      ghost var m1 := Snap(scope);
      ghost var a1 := lm.arrangeList;
      ghost var r1 := lm.renderList;
      assert x.value in ElementsUpTo(items, FirstNonElement(items));
      InvalidateIn(x.value, layout, !layout, lm, scope);
      StepCompose(scope, m0, a0, r0, Fan(items, i, layout), m1, a1, r1, Asked(x.value, layout, !layout),
                  Snap(scope), lm.arrangeList, lm.renderList);
      FanSnoc(items, i, layout);
      i := i + 1;
    }
    return None;
  }

  // ---------------------------------------------------------------- ItemsControl.onChildrenChanged

  /** Every item of the list a value refers to is an element (true for null). */
  predicate AllElements(v: Value)
    reads ListsOf(v)
  {
    v.ListRef? ==> forall j :: 0 <= j < |v.list.items| ==> ElementOf(v.list.items[j]).Some?
  }

  /** The items of the list a value refers to. */
  function ListItems(v: Value): (r: Option<seq<Value>>)
    reads ListsOf(v)
    ensures r.Some? <==> v.ListRef?
  {
    if v.ListRef? then Some(v.list.items) else None
  }

  /** How the loop over the old list's items fails, if it does: the first item that is not an element. */
  function OldFailure(o: Option<seq<Value>>): Option<UiError> {
    if o.Some? then LoopFailure(o.value) else None
  }

  /** The `validate(false)` calls of the loop over the old list's items, up to the first failing item. */
  function OldEvents(o: Option<seq<Value>>): seq<Event> {
    if o.Some? then Validations(o.value, FirstNonElement(o.value), false) else []
  }

  /** How the new list is rejected: any item that is not an element. */
  function NewFailure(n: Option<seq<Value>>): Option<UiError> {
    if n.Some? && LoopFailure(n.value).Some? then Some(InvalidChild) else None
  }

  /** The `validate(true)` calls on the new list's items, made only once all of them are elements. */
  function NewEvents(n: Option<seq<Value>>): seq<Event> {
    if n.Some? && LoopFailure(n.value).None? then Validations(n.value, |n.value|, true) else []
  }

  /** `ChildrenFailure` once both casts have succeeded, on the lists' items. */
  function ListsFailure(o: Option<seq<Value>>, n: Option<seq<Value>>): Option<UiError> {
    if OldFailure(o).Some? then OldFailure(o) else NewFailure(n)
  }

  /** `ChildrenEvents` once both casts have succeeded, on the lists' items. */
  function ListsEvents(o: Option<seq<Value>>, n: Option<seq<Value>>): seq<Event> {
    OldEvents(o) + (if OldFailure(o).None? then NewEvents(n) else [])
  }

  /**
   * How `onChildrenChanged(old, new)` fails, if it does: a value that is not a collection fails the
   * callback's cast; then the first item of the old list that is not an element fails its cast; then a
   * new list holding a non-element is rejected.
   */
  function ChildrenFailure(ov: Value, nv: Value): Option<UiError>
    reads ListsOf(ov), ListsOf(nv)
  {
    if AsCollection(ov).Err? || AsCollection(nv).Err? then Some(ClassCast)
    else ListsFailure(ListItems(ov), ListItems(nv))
  }

  /** The outcomes of `onChildrenChanged`: it returns iff both are collections of elements. */
  lemma ChildrenFailureCases(ov: Value, nv: Value)
    ensures ChildrenFailure(ov, nv).None? <==> AsCollection(ov).Ok? && AsCollection(nv).Ok? && AllElements(ov) && AllElements(nv)
    ensures (AsCollection(ov).Err? || AsCollection(nv).Err?) ==> ChildrenFailure(ov, nv) == Some(ClassCast)
    ensures AsCollection(ov).Ok? && AsCollection(nv).Ok? && ov.ListRef? && !AllElements(ov) ==>
      ChildrenFailure(ov, nv) == Some(CastError(ov.list.items[FirstNonElement(ov.list.items)]))
    ensures AsCollection(ov).Ok? && AsCollection(nv).Ok? && AllElements(ov) && !AllElements(nv) ==>
      ChildrenFailure(ov, nv) == Some(InvalidChild)
  {
  }

  /**
   * The `validate` calls of `onChildrenChanged(old, new)`: `validate(false)` on the old children up to
   * the first failing item, then, once every new item is known to be an element, `validate(true)` on
   * each new child.
   */
  function ChildrenEvents(ov: Value, nv: Value): seq<Event>
    reads ListsOf(ov), ListsOf(nv)
  {
    if AsCollection(ov).Err? || AsCollection(nv).Err? then []
    else ListsEvents(ListItems(ov), ListItems(nv))
  }

  /**
   * The validations of `onChildrenChanged`: none when a cast fails, all old then all new children when
   * it returns, and the old children before the failing one when an old item is not an element.
   */
  lemma ChildrenEventsCases(ov: Value, nv: Value)
    ensures AsCollection(ov).Err? || AsCollection(nv).Err? ==> ChildrenEvents(ov, nv) == []
    ensures ChildrenFailure(ov, nv).None? ==>
      ChildrenEvents(ov, nv) ==
        (if ov.ListRef? then Validations(ov.list.items, |ov.list.items|, false) else []) +
        (if nv.ListRef? then Validations(nv.list.items, |nv.list.items|, true) else [])
    ensures AsCollection(ov).Ok? && AsCollection(nv).Ok? && ov.ListRef? && !AllElements(ov) ==>
      ChildrenEvents(ov, nv) == Validations(ov.list.items, FirstNonElement(ov.list.items), false)
  {
    ChildrenFailureCases(ov, nv);
  }

  /** The loop of `onChildrenChanged` over the old list's items `o`. */
  method ValidateOld(o: Option<seq<Value>>, trace: Trace) returns (err: Option<UiError>)
    modifies trace
    ensures err == OldFailure(o)
    ensures trace.events == old(trace.events) + OldEvents(o)
  {
    if o.None? {
      assert trace.events + [] == trace.events;
      return None;
    }
    err := ValidateEach(o.value, false, trace);
  }

  /** The two loops of `onChildrenChanged` over the new list's items `n`: the `instanceof` scan, then the validations. */
  method ValidateNew(n: Option<seq<Value>>, trace: Trace) returns (err: Option<UiError>)
    modifies trace
    ensures err == NewFailure(n)
    ensures trace.events == old(trace.events) + NewEvents(n)
  {
    if n.None? {
      assert trace.events + [] == trace.events;
      return None;
    }
    var ok := AllAreElements(n.value);
    if !ok {
      assert trace.events + [] == trace.events;
      return Some(InvalidChild);
    }
    err := ValidateEach(n.value, true, trace);
  }

  /** Appending two runs of events one after the other is appending their concatenation. */
  /**
   * Regrouping a trace. Dafny proves it unaided, but proved inside `ValidateLists`, among that
   * method's heap facts, the same step is far slower; the call keeps it apart.
   */
  lemma ConcatAssoc(a: seq<Event>, b: seq<Event>, c: seq<Event>)
    ensures (a + b) + c == a + (b + c)
  {
  }

  /** The loops of `onChildrenChanged` over the old list's items `o` and the new list's items `n`. */
  method ValidateLists(o: Option<seq<Value>>, n: Option<seq<Value>>, trace: Trace) returns (err: Option<UiError>)
    modifies trace
    ensures err == ListsFailure(o, n)
    ensures trace.events == old(trace.events) + ListsEvents(o, n)
  {
    ghost var before := trace.events;
    err := ValidateOld(o, trace);
    if err.Some? {
      assert ListsEvents(o, n) == OldEvents(o) + [];
      return;
    }
    err := ValidateNew(n, trace);
    ConcatAssoc(before, OldEvents(o), NewEvents(n));
  }

  /** The cast and validation part of `onChildrenChanged(old, new)`. */
  method ValidateChildren(ov: Value, nv: Value, trace: Trace) returns (err: Option<UiError>)
    modifies trace
    ensures err == old(ChildrenFailure(ov, nv))
    ensures trace.events == old(trace.events) + old(ChildrenEvents(ov, nv))
  {
    var oldList := AsCollection(ov);
    var newList := AsCollection(nv);
    if oldList.Err? || newList.Err? {
      return Some(ClassCast);
    }
    err := ValidateLists(ListItems(ov), ListItems(nv), trace);
  }

  /** What `onChildrenChanged` asks for: the control's own layout, unless it failed first. */
  function ChildrenNotice(c: UIElement, err: Option<UiError>): Effects {
    if err.None? then Asked(c, true, false) else NO_EFFECTS
  }

  /** A validation failure asks for nothing; otherwise only the control's layout is invalidated. */
  lemma ChildrenNoticeSets(c: UIElement, err: Option<UiError>)
    ensures err.None? ==> ChildrenNotice(c, err).layout == {c} && ChildrenNotice(c, err).render == {}
    ensures err.Some? ==> ChildrenNotice(c, err) == NO_EFFECTS
  {
  }

  /** `onChildrenChanged(old, new)`: the validations, then `this.invalidateLayout()`. */
  method OnChildrenChanged(c: UIElement, ov: Value, nv: Value, lm: ContextLayoutManager, trace: Trace, ghost scope: set<UIElement>)
    returns (err: Option<UiError>)
    requires c in scope
    modifies c, lm, trace
    ensures err == old(ChildrenFailure(ov, nv))
    ensures trace.events == old(trace.events) + old(ChildrenEvents(ov, nv))
    ensures Step(scope, old(Snap(scope)), old(lm.arrangeList), old(lm.renderList), ChildrenNotice(c, err),
                 Snap(scope), lm.arrangeList, lm.renderList)
    ensures lm.isInactive == old(lm.isInactive)
  {
    ghost var m0 := Snap(scope);
    err := ValidateChildren(ov, nv, trace);
    assert Snap(scope) == m0;
    if err.None? {
      assert ChildrenNotice(c, err) == Asked(c, true, false);
      InvalidateIn(c, true, false, lm, scope);
    } else {
      NoStep(scope, m0, lm.arrangeList, lm.renderList);
    }
  }

  // ---------------------------------------------------------------- the change callbacks

  /**
   * How the metadata's change callback `cb` fails on element `e`: the framework's two callbacks cast
   * their owner to `ContentControl` and `ItemsControl`; other callbacks are not part of this model.
   */
  function HandlerFailure(t: ClassTree, cb: Option<ChangeCallback>, e: UIElement, ov: Value, nv: Value): Option<UiError>
    reads ListsOf(ov), ListsOf(nv)
  {
    if cb == Some(CONTENT_CHANGED) then
      if IsSubclassOf(t, e.obj.cls, CONTENT_CONTROL) then None else Some(ClassCast)
    else if cb == Some(CHILDREN_CHANGED) then
      if IsSubclassOf(t, e.obj.cls, ITEMS_CONTROL) then ChildrenFailure(ov, nv) else Some(ClassCast)
    else None
  }

  /** The events of the callback: the children validations, or the call of a callback outside the model. */
  function HandlerEvents(t: ClassTree, cb: Option<ChangeCallback>, e: UIElement, ov: Value, nv: Value): seq<Event>
    reads ListsOf(ov), ListsOf(nv)
  {
    if cb == Some(CHILDREN_CHANGED) then
      if IsSubclassOf(t, e.obj.cls, ITEMS_CONTROL) then ChildrenEvents(ov, nv) else []
    else if cb.Some? && cb != Some(CONTENT_CHANGED) then [CallbackInvoked(cb.value.id, ov, nv)]
    else []
  }

  /** The invalidations of the callback when it returns normally. */
  function HandlerEffects(cb: Option<ChangeCallback>, e: UIElement, nv: Value, err: Option<UiError>): Effects
  {
    if cb == Some(CONTENT_CHANGED) && err.None? then ContentNotice(e, nv)
    else if cb == Some(CHILDREN_CHANGED) then ChildrenNotice(e, err)
    else NO_EFFECTS
  }

  /** The `CONTENT` callback: `((ContentControl) owner).onContentChanged(old, new)`. */
  method ContentCallback(t: ClassTree, e: UIElement, nv: Value, lm: ContextLayoutManager, ghost scope: set<UIElement>)
    returns (err: Option<UiError>)
    requires {e} + ElementSet(nv) <= scope
    modifies scope, lm
    ensures err == (if IsSubclassOf(t, e.obj.cls, CONTENT_CONTROL) then None else Some(ClassCast))
    ensures Step(scope, old(Snap(scope)), old(lm.arrangeList), old(lm.renderList), HandlerEffects(Some(CONTENT_CHANGED), e, nv, err),
                 Snap(scope), lm.arrangeList, lm.renderList)
    ensures lm.isInactive == old(lm.isInactive)
  {
    if !IsSubclassOf(t, e.obj.cls, CONTENT_CONTROL) {
      NoStep(scope, Snap(scope), lm.arrangeList, lm.renderList);
      return Some(ClassCast);
    }
    OnContentChanged(e, nv, lm, scope);
    err := None;
  }

  /** The `CHILDREN` callback: `((ItemsControl) o).onChildrenChanged((Collection) ov, (Collection) nv)`. */
  method ChildrenCallback(t: ClassTree, e: UIElement, ov: Value, nv: Value, lm: ContextLayoutManager, trace: Trace,
                          ghost scope: set<UIElement>) returns (err: Option<UiError>)
    requires e in scope
    modifies scope, lm, trace
    ensures err == if IsSubclassOf(t, e.obj.cls, ITEMS_CONTROL) then old(ChildrenFailure(ov, nv)) else Some(ClassCast)
    ensures trace.events == old(trace.events) + if IsSubclassOf(t, e.obj.cls, ITEMS_CONTROL) then old(ChildrenEvents(ov, nv)) else []
    ensures Step(scope, old(Snap(scope)), old(lm.arrangeList), old(lm.renderList), ChildrenNotice(e, err),
                 Snap(scope), lm.arrangeList, lm.renderList)
    ensures lm.isInactive == old(lm.isInactive)
  {
    if !IsSubclassOf(t, e.obj.cls, ITEMS_CONTROL) {
      NoStep(scope, Snap(scope), lm.arrangeList, lm.renderList);
      return Some(ClassCast);
    }
    err := OnChildrenChanged(e, ov, nv, lm, trace, scope);
  }

  /** The callback functions on the children callback, in terms of the children functions. */
  lemma ChildrenHandler(t: ClassTree, e: UIElement, ov: Value, nv: Value)
    ensures HandlerFailure(t, Some(CHILDREN_CHANGED), e, ov, nv) ==
            if IsSubclassOf(t, e.obj.cls, ITEMS_CONTROL) then ChildrenFailure(ov, nv) else Some(ClassCast)
    ensures HandlerEvents(t, Some(CHILDREN_CHANGED), e, ov, nv) ==
            if IsSubclassOf(t, e.obj.cls, ITEMS_CONTROL) then ChildrenEvents(ov, nv) else []
    ensures forall err :: HandlerEffects(Some(CHILDREN_CHANGED), e, nv, err) == ChildrenNotice(e, err)
  {
  }

  /** `PropertyMeta.onPropertyChanged` on element `e`: the callback `cb`, if any. */
  method RunCallback(t: ClassTree, cb: Option<ChangeCallback>, e: UIElement, ov: Value, nv: Value,
                     lm: ContextLayoutManager, trace: Trace, ghost scope: set<UIElement>) returns (err: Option<UiError>)
    requires {e} + ElementSet(nv) <= scope
    modifies scope, lm, trace
    ensures err == old(HandlerFailure(t, cb, e, ov, nv))
    ensures trace.events == old(trace.events) + old(HandlerEvents(t, cb, e, ov, nv))
    ensures Step(scope, old(Snap(scope)), old(lm.arrangeList), old(lm.renderList), HandlerEffects(cb, e, nv, err),
                 Snap(scope), lm.arrangeList, lm.renderList)
    ensures lm.isInactive == old(lm.isInactive)
  {
    if cb == Some(CONTENT_CHANGED) {
      err := ContentCallback(t, e, nv, lm, scope);
    } else if cb == Some(CHILDREN_CHANGED) {
      ChildrenHandler(t, e, ov, nv);
      err := ChildrenCallback(t, e, ov, nv, lm, trace, scope);
    } else {
      NoStep(scope, Snap(scope), lm.arrangeList, lm.renderList);
      assert HandlerEffects(cb, e, nv, None) == NO_EFFECTS;
      if cb.Some? {
        trace.Emit(CallbackInvoked(cb.value.id, ov, nv));
      }
      err := None;
    }
  }

  // ---------------------------------------------------------------- onPropertyChanged on an element

  /** The change callback of the metadata resolved for the element's runtime class. */
  function CallbackFor(t: ClassTree, e: UIElement, p: DependencyProperty): Option<ChangeCallback>
    reads p.metaMap
  {
    p.MetaFor(t, e.obj.cls).changed
  }

  /** The invalidations `FrameworkElement.onPropertyChanged` adds; a bare `UIElement` adds none. */
  function Routing(t: ClassTree, fw: Framework, e: UIElement, p: DependencyProperty, parent: Option<UIElement>): Effects
    reads p.metaMap
  {
    if IsSubclassOf(t, e.obj.cls, FRAMEWORK_ELEMENT) then RouteEffects(p.MetaFor(t, e.obj.cls), e, parent, SizeBypassed(fw, e, p))
    else NO_EFFECTS
  }

  /**
   * The invalidations of a change notification on `e` with new value `nv` whose callback `cb` ended
   * with `err`: the callback's, then, only when the callback returned, the framework `routing`.
   */
  function NoticeEffects(cb: Option<ChangeCallback>, routing: Effects, e: UIElement, nv: Value, err: Option<UiError>): Effects {
    Union(HandlerEffects(cb, e, nv, err), if err.None? then routing else NO_EFFECTS)
  }

  /**
   * A notification on `e` touches only the element, its parent and the new value's element, asks only
   * the element to re-render, and asks nothing when its callback threw.
   */
  lemma NoticeEffectsBounds(t: ClassTree, fw: Framework, e: UIElement, p: DependencyProperty, nv: Value, err: Option<UiError>)
    ensures err.Some? ==> NoticeEffects(CallbackFor(t, e, p), Routing(t, fw, e, p, e.parent), e, nv, err) == NO_EFFECTS
    ensures NoticeEffects(CallbackFor(t, e, p), Routing(t, fw, e, p, e.parent), e, nv, err).layout <= NoticeScope(e, nv)
    ensures NoticeEffects(CallbackFor(t, e, p), Routing(t, fw, e, p, e.parent), e, nv, err).render <= {e}
  {
    RouteEffectsSets(p.MetaFor(t, e.obj.cls), e, e.parent, SizeBypassed(fw, e, p));
    ContentNoticeSets(e, nv);
    ChildrenNoticeSets(e, err);
  }

  /** The routing phase of the notification, which only framework elements have. */
  method RouteIfFramework(t: ClassTree, fw: Framework, e: UIElement, p: DependencyProperty, lm: ContextLayoutManager,
                          ghost scope: set<UIElement>)
    requires {e} + ParentSet(e) <= scope
    modifies scope, lm
    ensures Step(scope, old(Snap(scope)), old(lm.arrangeList), old(lm.renderList), old(Routing(t, fw, e, p, e.parent)),
                 Snap(scope), lm.arrangeList, lm.renderList)
    ensures lm.isInactive == old(lm.isInactive)
  {
    if IsSubclassOf(t, e.obj.cls, FRAMEWORK_ELEMENT) {
      RouteChange(t, fw, e, p, lm, scope);
    } else {
      NoStep(scope, Snap(scope), lm.arrangeList, lm.renderList);
    }
  }

  /**
   * The end of a notification whose callback `cb` ended with `err` after a run starting from
   * `m0`/`a0`/`r0`: the routing when the callback returned. The run left the parent `parent` in place.
   */
  method FinishNotice(t: ClassTree, fw: Framework, e: UIElement, p: DependencyProperty, nv: Value, err: Option<UiError>,
                      lm: ContextLayoutManager, ghost scope: set<UIElement>, ghost m0: map<UIElement, ElementState>,
                      ghost a0: set<UIElement>, ghost r0: set<UIElement>, ghost cb: Option<ChangeCallback>,
                      ghost parent: Option<UIElement>, ghost routing: Effects)
    requires routing == Routing(t, fw, e, p, parent)
    requires e in scope && (parent.Some? ==> parent.value in scope)
    requires Step(scope, m0, a0, r0, HandlerEffects(cb, e, nv, err), Snap(scope), lm.arrangeList, lm.renderList)
    requires m0[e].parent == parent
    modifies scope, lm
    ensures Step(scope, m0, a0, r0, NoticeEffects(cb, routing, e, nv, err), Snap(scope), lm.arrangeList, lm.renderList)
    ensures lm.isInactive == old(lm.isInactive)
  {
    ghost var f1 := HandlerEffects(cb, e, nv, err);
    if err.Some? {
      assert NoticeEffects(cb, routing, e, nv, err) == f1;
      return;
    }
    ghost var m1 := Snap(scope);
    ghost var a1 := lm.arrangeList;
    ghost var r1 := lm.renderList;
    assert e.parent == parent by {
      StepOnlySetsFlags(scope, m0, a0, r0, f1, m1, a1, r1, e);
      assert m1[e] == e.State();
    }
    RouteIfFramework(t, fw, e, p, lm, scope);
    StepCompose(scope, m0, a0, r0, f1, m1, a1, r1, routing, Snap(scope), lm.arrangeList, lm.renderList);
  }

  /**
   * `onPropertyChanged(property, old, new)` on element `e`: the metadata's callback, then, for a
   * framework element, the routing of its effect bits. A callback that throws ends the notification.
   */
  method Notify(t: ClassTree, fw: Framework, e: UIElement, p: DependencyProperty, ov: Value, nv: Value,
                lm: ContextLayoutManager, trace: Trace, ghost scope: set<UIElement>) returns (err: Option<UiError>)
    requires NoticeScope(e, nv) <= scope
    modifies scope, lm, trace
    ensures err == old(HandlerFailure(t, CallbackFor(t, e, p), e, ov, nv))
    ensures trace.events == old(trace.events) + old(HandlerEvents(t, CallbackFor(t, e, p), e, ov, nv))
    ensures Step(scope, old(Snap(scope)), old(lm.arrangeList), old(lm.renderList),
                 NoticeEffects(old(CallbackFor(t, e, p)), old(Routing(t, fw, e, p, e.parent)), e, nv, err),
                 Snap(scope), lm.arrangeList, lm.renderList)
    ensures lm.isInactive == old(lm.isInactive)
  {
    var meta := p.MetaFor(t, e.obj.cls);
    ghost var m0 := Snap(scope);
    ghost var a0 := lm.arrangeList;
    ghost var r0 := lm.renderList;
    ghost var parent := e.parent;
    ghost var routing := Routing(t, fw, e, p, parent);
    assert m0[e].parent == parent;
    err := RunCallback(t, meta.changed, e, ov, nv, lm, trace, scope);
    FinishNotice(t, fw, e, p, nv, err, lm, scope, m0, a0, r0, meta.changed, parent, routing);
  }

  // ---------------------------------------------------------------- setValue and clearValue on an element

  /** `clearValue(property)`: always notifies, with the stored value as the old value and the unset marker as the new. */
  function ClearPlan(o: DependencyObject, p: DependencyProperty): (plan: SetPlan)
    reads o
    ensures plan.Planned? && plan.notify
    ensures plan.oldValue == o.Stored(p) && plan.newValue == Unset
  {
    Planned(o.Stored(p), Unset, true)
  }

  /** The lists the values of a plan refer to. */
  function PlanLists(plan: SetPlan): set<object> {
    if plan.Planned? then ListsOf(plan.oldValue) + ListsOf(plan.newValue) else {}
  }

  /** Whether the plan runs `onPropertyChanged`: it was not rejected and the object is not suspended. */
  predicate Notifies(plan: SetPlan) {
    plan.Planned? && plan.notify
  }

  /** How the change notification of `plan` on `e` throws, if it runs and throws. */
  function ChangeFailure(t: ClassTree, e: UIElement, p: DependencyProperty, plan: SetPlan): Option<UiError>
    reads p.metaMap, PlanLists(plan)
  {
    if Notifies(plan) then HandlerFailure(t, CallbackFor(t, e, p), e, plan.oldValue, plan.newValue) else None
  }

  /** What the change returns: the old stored value, or the rejection, or what the notification threw. */
  function ChangeResult(t: ClassTree, e: UIElement, p: DependencyProperty, plan: SetPlan): Result<Value, UiError>
    reads p.metaMap, PlanLists(plan)
  {
    if plan.Rejected? then Err(Property(plan.error))
    else if ChangeFailure(t, e, p, plan).Some? then Err(ChangeFailure(t, e, p, plan).value)
    else Ok(plan.oldValue)
  }

  /** The events of the change: its notification's. */
  function ChangeEvents(t: ClassTree, e: UIElement, p: DependencyProperty, plan: SetPlan): seq<Event>
    reads p.metaMap, PlanLists(plan)
  {
    if Notifies(plan) then HandlerEvents(t, CallbackFor(t, e, p), e, plan.oldValue, plan.newValue) else []
  }

  /** The invalidations of the change: its notification's. */
  function ChangeEffects(t: ClassTree, fw: Framework, e: UIElement, p: DependencyProperty, plan: SetPlan): Effects
    reads e, p.metaMap, PlanLists(plan)
  {
    if Notifies(plan)
    then NoticeEffects(CallbackFor(t, e, p), Routing(t, fw, e, p, e.parent), e, plan.newValue, ChangeFailure(t, e, p, plan))
    else NO_EFFECTS
  }

  /** The store after the change: the new value only when the change returns normally. */
  function ChangeStore(m: map<DependencyProperty, Value>, p: DependencyProperty, plan: SetPlan, r: Result<Value, UiError>): map<DependencyProperty, Value> {
    if r.Ok? && plan.Planned? then m[p := plan.newValue] else m
  }

  /**
   * The notification runs before the store: a change returns normally exactly when it was planned
   * and its notification, if any, did not throw, and then returns the old stored value.
   */
  lemma ChangeReturnsIffNotThrown(t: ClassTree, e: UIElement, p: DependencyProperty, plan: SetPlan)
    ensures ChangeResult(t, e, p, plan).Ok? <==> plan.Planned? && ChangeFailure(t, e, p, plan).None?
    ensures ChangeResult(t, e, p, plan).Ok? ==> ChangeResult(t, e, p, plan).value == plan.oldValue
    ensures plan.Rejected? ==> ChangeResult(t, e, p, plan) == Err(Property(plan.error)) && ChangeEvents(t, e, p, plan) == []
  {
  }

  /** A change on a suspended object stores silently: no callback, no invalidation. */
  lemma SuspendedChangeIsSilent(t: ClassTree, fw: Framework, e: UIElement, p: DependencyProperty, plan: SetPlan)
    requires plan.Planned? && !plan.notify
    ensures ChangeResult(t, e, p, plan) == Ok(plan.oldValue)
    ensures ChangeEvents(t, e, p, plan) == [] && ChangeEffects(t, fw, e, p, plan) == NO_EFFECTS
  {
  }

  /**
   * A change that throws asks no invalidation; one that does not touches only the element, its parent
   * and the new value's element, and asks only the element to re-render.
   */
  lemma ChangeEffectsBounds(t: ClassTree, fw: Framework, e: UIElement, p: DependencyProperty, plan: SetPlan)
    ensures ChangeResult(t, e, p, plan).Err? ==> ChangeEffects(t, fw, e, p, plan) == NO_EFFECTS
    ensures plan.Planned? ==> ChangeEffects(t, fw, e, p, plan).layout <= NoticeScope(e, plan.newValue)
    ensures ChangeEffects(t, fw, e, p, plan).render <= {e}
  {
    if Notifies(plan) {
      NoticeEffectsBounds(t, fw, e, p, plan.newValue, ChangeFailure(t, e, p, plan));
    }
  }

  /** The notification part of a change: `onPropertyChanged`, unless the plan was made while suspended. */
  method NotifyChange(t: ClassTree, fw: Framework, e: UIElement, p: DependencyProperty, plan: SetPlan,
                      lm: ContextLayoutManager, trace: Trace, ghost scope: set<UIElement>) returns (r: Result<Value, UiError>)
    requires plan.Planned? && (plan.notify ==> NoticeScope(e, plan.newValue) <= scope)
    modifies scope, lm, trace
    ensures r == old(ChangeResult(t, e, p, plan))
    ensures trace.events == old(trace.events) + old(ChangeEvents(t, e, p, plan))
    ensures Step(scope, old(Snap(scope)), old(lm.arrangeList), old(lm.renderList), old(ChangeEffects(t, fw, e, p, plan)),
                 Snap(scope), lm.arrangeList, lm.renderList)
    ensures lm.isInactive == old(lm.isInactive)
  {
    if plan.notify {
      var err := Notify(t, fw, e, p, plan.oldValue, plan.newValue, lm, trace, scope);
      r := if err.Some? then Err(err.value) else Ok(plan.oldValue);
    } else {
      NoStep(scope, Snap(scope), lm.arrangeList, lm.renderList);
      r := Ok(plan.oldValue);
    }
  }

  /** The notify-then-store part of `setValue` and `clearValue`, for a plan that was not rejected. */
  method Commit(t: ClassTree, fw: Framework, e: UIElement, p: DependencyProperty, plan: SetPlan,
                lm: ContextLayoutManager, trace: Trace, ghost scope: set<UIElement>) returns (r: Result<Value, UiError>)
    requires plan.Planned? && (plan.notify ==> NoticeScope(e, plan.newValue) <= scope)
    modifies e.obj, scope, lm, trace
    ensures r == old(ChangeResult(t, e, p, plan))
    ensures e.obj.propertyMap == ChangeStore(old(e.obj.propertyMap), p, plan, r)
    ensures trace.events == old(trace.events) + old(ChangeEvents(t, e, p, plan))
    ensures Step(scope, old(Snap(scope)), old(lm.arrangeList), old(lm.renderList), old(ChangeEffects(t, fw, e, p, plan)),
                 Snap(scope), lm.arrangeList, lm.renderList)
    ensures lm.isInactive == old(lm.isInactive)
  {
    r := NotifyChange(t, fw, e, p, plan, lm, trace, scope);
    if r.Ok? {
      e.obj.Put(p, plan.newValue);
    }
  }

  /**
   * `setValue(property, value)` on an element: the plan of `DependencyObject.setValue`, then the
   * element's `onPropertyChanged` (unless suspended), then the store. A throwing notification leaves
   * the old value stored.
   */
  method SetElementValue(t: ClassTree, fw: Framework, e: UIElement, p: DependencyProperty, v: Value,
                         lm: ContextLayoutManager, trace: Trace, ghost scope: set<UIElement>) returns (r: Result<Value, UiError>)
    requires WellFormed(v)
    requires Notifies(e.obj.PlanSet(t, p, v)) ==> NoticeScope(e, e.obj.PlanSet(t, p, v).newValue) <= scope
    modifies e.obj, scope, lm, trace
    ensures r == old(ChangeResult(t, e, p, e.obj.PlanSet(t, p, v)))
    ensures e.obj.propertyMap == ChangeStore(old(e.obj.propertyMap), p, old(e.obj.PlanSet(t, p, v)), r)
    ensures trace.events == old(trace.events) + old(ChangeEvents(t, e, p, e.obj.PlanSet(t, p, v)))
    ensures Step(scope, old(Snap(scope)), old(lm.arrangeList), old(lm.renderList), old(ChangeEffects(t, fw, e, p, e.obj.PlanSet(t, p, v))),
                 Snap(scope), lm.arrangeList, lm.renderList)
    ensures lm.isInactive == old(lm.isInactive)
    ensures old(e.obj.StoreValid(t)) ==> e.obj.StoreValid(t)
  {
    var plan := e.obj.PlanSet(t, p, v);
    if plan.Rejected? {
      NoStep(scope, Snap(scope), lm.arrangeList, lm.renderList);
      return Err(Property(plan.error));
    }
    r := Commit(t, fw, e, p, plan, lm, trace, scope);
  }

  /**
   * `clearValue(property)` on an element: the element's `onPropertyChanged` with the unset marker as
   * the new value, suspended or not, then the marker is stored and the old stored value returned.
   */
  method ClearElementValue(t: ClassTree, fw: Framework, e: UIElement, p: DependencyProperty,
                           lm: ContextLayoutManager, trace: Trace, ghost scope: set<UIElement>) returns (r: Result<Value, UiError>)
    requires {e} + ParentSet(e) <= scope
    modifies e.obj, scope, lm, trace
    ensures r == old(ChangeResult(t, e, p, ClearPlan(e.obj, p)))
    ensures e.obj.propertyMap == ChangeStore(old(e.obj.propertyMap), p, old(ClearPlan(e.obj, p)), r)
    ensures trace.events == old(trace.events) + old(ChangeEvents(t, e, p, ClearPlan(e.obj, p)))
    ensures Step(scope, old(Snap(scope)), old(lm.arrangeList), old(lm.renderList), old(ChangeEffects(t, fw, e, p, ClearPlan(e.obj, p))),
                 Snap(scope), lm.arrangeList, lm.renderList)
    ensures lm.isInactive == old(lm.isInactive)
  {
    var plan := Planned(e.obj.Stored(p), Unset, true);
    r := Commit(t, fw, e, p, plan, lm, trace, scope);
  }
}
