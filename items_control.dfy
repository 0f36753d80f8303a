/**
 * `ItemsControl`: a control whose `CHILDREN` property holds the list of its child elements, created
 * on first use, and whose invalidation hooks forward to every child.
 *
 * The list lives in the control's property store as a `ListRef`; `getChildren` hands out that very
 * list, so `addChild` and `removeChild` mutate the stored list in place.
 */
module ItemsControl {
  import opened Wrappers
  import opened JavaLang
  import opened JavaUtil
  import opened ClassInheritance
  import opened Properties
  import opened FrameworkPropertyMeta
  import opened Framework
  import opened Events
  import opened Layout
  import opened Invalidation
  import opened Elements

  /**
   * The invalidations of `getChildren`: storing the fresh list in place of null runs
   * `onChildrenChanged`, which asks the control to re-lay-out, unless notifications are suspended.
   */
  function FreshListEffects(c: UIElement, stored: Value, suspended: bool): Effects {
    if stored == Null && !suspended then Asked(c, true, false) else NO_EFFECTS
  }

  /** Storing the value a map already holds changes nothing. */
  lemma UpdateSame<K, V>(m: map<K, V>, k: K)
    requires k in m
    ensures m[k := m[k]] == m
  {
  }

  /** A second store to the same key overrides the first. */
  lemma UpdateTwice<K, V>(m: map<K, V>, k: K, a: V, b: V)
    ensures m[k := a][k := b] == m[k := b]
  {
  }

  /** Storing a list in `CHILDREN` is never converted, coerced or rejected. */
  lemma ListPlan(t: ClassTree, fw: Framework, c: UIElement, l: ArrayList<Value>)
    requires ChildrenRegistered(fw, t, c.obj.cls)
    ensures c.obj.PlanSet(t, fw.children, ListRef(l)) ==
            Planned(c.obj.Stored(fw.children), ListRef(l), !fw.children.IsSuspended(c.obj))
  {
    ControlMetas();
    assert IsInstance(t, COLLECTION, ListRef(l));
  }

  /**
   * Replacing null by an empty list on an items control returns null, validates nothing and asks only
   * the control to re-lay-out (`CHILDREN` has no effect bits), or nothing when suspended.
   */
  lemma FreshListChange(t: ClassTree, fw: Framework, c: UIElement, l: ArrayList<Value>, notify: bool)
    requires ChildrenRegistered(fw, t, c.obj.cls) && IsSubclassOf(t, c.obj.cls, ITEMS_CONTROL)
    requires l.items == []
    ensures var plan := Planned(Null, ListRef(l), notify);
      ChangeResult(t, c, fw.children, plan) == Ok(Null) &&
      ChangeEvents(t, c, fw.children, plan) == [] &&
      ChangeEffects(t, fw, c, fw.children, plan) == FreshListEffects(c, Null, !notify)
  {
    var plan := Planned(Null, ListRef(l), notify);
    ControlMetas();
    var m := CHILDREN_META;
    assert CallbackFor(t, c, fw.children) == Some(CHILDREN_CHANGED);
    ChildrenFailureCases(Null, ListRef(l));
    ChildrenEventsCases(Null, ListRef(l));
    ChildrenHandler(t, c, Null, ListRef(l));
    assert ChangeFailure(t, c, fw.children, plan) == None;
    RouteEffectsSets(m, c, c.parent, SizeBypassed(fw, c, fw.children));
    assert Routing(t, fw, c, fw.children, c.parent) == NO_EFFECTS;
    ChildrenNoticeSets(c, None);
    if notify {
      assert ChangeEffects(t, fw, c, fw.children, plan) == Asked(c, true, false);
    }
  }

  /**
   * `getValue(CHILDREN)` on an items control: the stored value, null when there is none, in which case
   * the null default is stored.
   */
  method ReadChildren(t: ClassTree, fw: Framework, c: UIElement, ghost scope: set<UIElement>) returns (v: Value)
    requires ChildrenRegistered(fw, t, c.obj.cls) && IsSubclassOf(t, c.obj.cls, ITEMS_CONTROL)
    modifies c.obj
    ensures Snap(scope) == old(Snap(scope))
    ensures v == old(c.obj.Stored(fw.children))
    ensures c.obj.propertyMap == old(c.obj.propertyMap)[fw.children := v]
  {
    ControlMetas();
    var g := c.obj.GetValue(t, fw.children);
    assert g.Ok?;
    v := g.value;
  }

  /**
   * The first use of `getChildren()`: `setValue(CHILDREN, new ArrayList())` in place of null, run as
   * the plan `ListPlan` shows `setValue` makes for a list: notified unless suspended, then stored.
   */
  method StoreFreshList(t: ClassTree, fw: Framework, c: UIElement, lm: ContextLayoutManager, trace: Trace,
                        ghost scope: set<UIElement>) returns (l: ArrayList<Value>)
    requires ChildrenRegistered(fw, t, c.obj.cls) && IsSubclassOf(t, c.obj.cls, ITEMS_CONTROL)
    requires c.obj.Stored(fw.children) == Null
    requires {c} + ParentSet(c) <= scope
    modifies c.obj, scope, lm, trace
    ensures fresh(l) && l.items == []
    ensures c.obj.propertyMap == old(c.obj.propertyMap)[fw.children := ListRef(l)]
    ensures trace.events == old(trace.events)
    ensures Step(scope, old(Snap(scope)), old(lm.arrangeList), old(lm.renderList),
                 FreshListEffects(c, Null, fw.children.IsSuspended(c.obj)),
                 Snap(scope), lm.arrangeList, lm.renderList)
    ensures lm.isInactive == old(lm.isInactive)
  {
    l := new ArrayList<Value>();
    var plan := Planned(Null, ListRef(l), !fw.children.IsSuspended(c.obj));
    FreshListChange(t, fw, c, l, plan.notify);
    var _ := Commit(t, fw, c, fw.children, plan, lm, trace, scope);
  }

  /** The rest of `getChildren()` once `getValue(CHILDREN)` has returned `stored`. */
  method ChildrenFrom(t: ClassTree, fw: Framework, c: UIElement, stored: Value, lm: ContextLayoutManager, trace: Trace,
                      ghost scope: set<UIElement>) returns (r: Result<ArrayList<Value>, UiError>)
    requires ChildrenRegistered(fw, t, c.obj.cls) && IsSubclassOf(t, c.obj.cls, ITEMS_CONTROL)
    requires stored == c.obj.Stored(fw.children)
    requires {c} + ParentSet(c) <= scope
    modifies c.obj, scope, lm, trace
    ensures stored == Null ==>
      r.Ok? && fresh(r.value) && r.value.items == [] &&
      c.obj.propertyMap == old(c.obj.propertyMap)[fw.children := ListRef(r.value)]
    ensures stored.ListRef? ==> r == Ok(stored.list) && c.obj.propertyMap == old(c.obj.propertyMap)
    ensures stored != Null && !stored.ListRef? ==> r == Err(ClassCast) && c.obj.propertyMap == old(c.obj.propertyMap)
    ensures trace.events == old(trace.events)
    ensures Step(scope, old(Snap(scope)), old(lm.arrangeList), old(lm.renderList),
                 FreshListEffects(c, stored, fw.children.IsSuspended(c.obj)),
                 Snap(scope), lm.arrangeList, lm.renderList)
    ensures lm.isInactive == old(lm.isInactive)
  {
    if stored.ListRef? {
      NoStep(scope, Snap(scope), lm.arrangeList, lm.renderList);
      return Ok(stored.list);
    }
    if stored != Null {
      NoStep(scope, Snap(scope), lm.arrangeList, lm.renderList);
      return Err(ClassCast);
    }
    var l := StoreFreshList(t, fw, c, lm, trace, scope);
    r := Ok(l);
  }

  /**
   * `getChildren()`: the stored list; on first use (the stored value is null) a fresh empty list,
   * stored through `setValue`. A stored value that is neither fails the cast to `Collection`.
   */
  method GetChildren(t: ClassTree, fw: Framework, c: UIElement, lm: ContextLayoutManager, trace: Trace,
                     ghost scope: set<UIElement>) returns (r: Result<ArrayList<Value>, UiError>)
    requires ChildrenRegistered(fw, t, c.obj.cls) && IsSubclassOf(t, c.obj.cls, ITEMS_CONTROL)
    requires {c} + ParentSet(c) <= scope
    modifies c.obj, scope, lm, trace
    ensures old(c.obj.Stored(fw.children)) == Null ==>
      r.Ok? && fresh(r.value) && r.value.items == [] &&
      c.obj.propertyMap == old(c.obj.propertyMap)[fw.children := ListRef(r.value)]
    ensures old(c.obj.Stored(fw.children)).ListRef? ==>
      r == Ok(old(c.obj.Stored(fw.children)).list) && c.obj.propertyMap == old(c.obj.propertyMap)
    ensures old(c.obj.Stored(fw.children)) != Null && !old(c.obj.Stored(fw.children)).ListRef? ==>
      r == Err(ClassCast) && c.obj.propertyMap == old(c.obj.propertyMap)
    ensures trace.events == old(trace.events)
    ensures Step(scope, old(Snap(scope)), old(lm.arrangeList), old(lm.renderList),
                 FreshListEffects(c, old(c.obj.Stored(fw.children)), fw.children.IsSuspended(c.obj)),
                 Snap(scope), lm.arrangeList, lm.renderList)
    ensures lm.isInactive == old(lm.isInactive)
  {
    ghost var m0: map<DependencyProperty, Value> := c.obj.propertyMap;
    var stored := ReadChildren(t, fw, c, scope);
    r := ChildrenFrom(t, fw, c, stored, lm, trace, scope);
    if stored != Null {
      UpdateSame(m0, fw.children);
    } else {
      UpdateTwice(m0, fw.children, Null, ListRef(r.value));
    }
  }

  // ---------------------------------------------------------------- addChild and removeChild

  /** The states `m` with element `x`'s parent set to `p` (what `setParent` does). */
  function Reparented(m: map<UIElement, ElementState>, x: UIElement, p: Option<UIElement>): (r: map<UIElement, ElementState>)
    requires x in m
    ensures r.Keys == m.Keys
  {
    m[x := m[x].(parent := p)]
  }

  /** `x.setParent(p)`, as a change of the states of `scope`. */
  method Reparent(x: UIElement, p: Option<UIElement>, ghost scope: set<UIElement>)
    requires x in scope
    modifies x
    ensures Snap(scope) == Reparented(old(Snap(scope)), x, p)
  {
    x.SetParent(p);
  }

  /** The start of `addChild(x)`: `x.setParent(this)`, `invalidateVisual()`, `x.invalidateVisual()`. */
  method Adopt(c: UIElement, x: UIElement, lm: ContextLayoutManager, ghost scope: set<UIElement>)
    requires c in scope && x in scope
    modifies scope, lm
    ensures Step(scope, Reparented(old(Snap(scope)), x, Some(c)), old(lm.arrangeList), old(lm.renderList),
                 Union(Asked(c, true, true), Asked(x, true, true)), Snap(scope), lm.arrangeList, lm.renderList)
    ensures lm.isInactive == old(lm.isInactive)
  {
    Reparent(x, Some(c), scope);
    ghost var m1 := Snap(scope);
    ghost var a1 := lm.arrangeList;
    ghost var r1 := lm.renderList;
    InvalidateIn(c, true, true, lm, scope);
    ghost var m2 := Snap(scope);
    ghost var a2 := lm.arrangeList;
    ghost var r2 := lm.renderList;
    InvalidateIn(x, true, true, lm, scope);
    StepCompose(scope, m1, a1, r1, Asked(c, true, true), m2, a2, r2, Asked(x, true, true), Snap(scope), lm.arrangeList, lm.renderList);
  }

  /** `Adopt`, seen from a list outside the scope: the list is left as it was. */
  method AdoptKeeping(c: UIElement, x: UIElement, lm: ContextLayoutManager, ghost scope: set<UIElement>, ghost kept: ArrayList?<Value>,
                      ghost trace: Trace)
    requires c in scope && x in scope
    modifies scope, lm
    ensures kept != null ==> kept.items == old(kept.items)
    ensures unchanged(c.obj) && trace.events == old(trace.events)
    ensures Step(scope, Reparented(old(Snap(scope)), x, Some(c)), old(lm.arrangeList), old(lm.renderList),
                 Union(Asked(c, true, true), Asked(x, true, true)), Snap(scope), lm.arrangeList, lm.renderList)
    ensures lm.isInactive == old(lm.isInactive)
  {
    Adopt(c, x, lm, scope);
  }

  /** `list.add(v)` on a list outside the scope and the control's property map. */
  method AppendTo(l: ArrayList<Value>, v: Value, ghost o: DependencyObject, ghost scope: set<UIElement>)
    modifies l
    ensures l.items == old(l.items) + [v]
    ensures o.propertyMap == old(o.propertyMap) && Snap(scope) == old(Snap(scope))
  {
    var _ := l.Add(v);
  }

  /** The end of `addChild(x)`: `getChildren().add(x)`. */
  method AppendChild(t: ClassTree, fw: Framework, c: UIElement, x: UIElement, lm: ContextLayoutManager, trace: Trace,
                     ghost scope: set<UIElement>, ghost stored: Value) returns (err: Option<UiError>)
    requires ChildrenRegistered(fw, t, c.obj.cls) && IsSubclassOf(t, c.obj.cls, ITEMS_CONTROL)
    requires {c} + ParentSet(c) <= scope
    requires stored == c.obj.Stored(fw.children)
    modifies c.obj, scope, lm, trace, ListsOf(stored)
    ensures stored == Null ==>
      err.None? && c.obj.Stored(fw.children).ListRef? && fresh(c.obj.Stored(fw.children).list) &&
      c.obj.Stored(fw.children).list.items == [ElementValue(x)] &&
      c.obj.propertyMap == old(c.obj.propertyMap)[fw.children := c.obj.Stored(fw.children)]
    ensures stored.ListRef? ==>
      err.None? && c.obj.propertyMap == old(c.obj.propertyMap) && c.obj.Stored(fw.children) == stored &&
      stored.list.items == old(stored.list.items) + [ElementValue(x)]
    ensures stored != Null && !stored.ListRef? ==>
      err == Some(ClassCast) && c.obj.propertyMap == old(c.obj.propertyMap)
    ensures trace.events == old(trace.events)
    ensures Step(scope, old(Snap(scope)), old(lm.arrangeList), old(lm.renderList),
                 FreshListEffects(c, stored, fw.children.IsSuspended(c.obj)),
                 Snap(scope), lm.arrangeList, lm.renderList)
    ensures lm.isInactive == old(lm.isInactive)
  {
    var r := GetChildren(t, fw, c, lm, trace, scope);
    if r.Err? {
      return Some(r.error);
    }
    AppendTo(r.value, ElementValue(x), c.obj, scope);
    err := None;
  }

  /** `addChild(x)` for a non-null element `x`. */
  method AddElement(t: ClassTree, fw: Framework, c: UIElement, x: UIElement, lm: ContextLayoutManager, trace: Trace,
                    ghost scope: set<UIElement>) returns (err: Option<UiError>)
    requires ChildrenRegistered(fw, t, c.obj.cls) && IsSubclassOf(t, c.obj.cls, ITEMS_CONTROL)
    requires {c, x} + ParentSet(c) <= scope
    modifies c.obj, scope, lm, trace, ListsOf(c.obj.Stored(fw.children))
    ensures old(c.obj.Stored(fw.children)) == Null ==>
      err.None? && c.obj.Stored(fw.children).ListRef? && fresh(c.obj.Stored(fw.children).list) &&
      c.obj.Stored(fw.children).list.items == [ElementValue(x)] &&
      c.obj.propertyMap == old(c.obj.propertyMap)[fw.children := c.obj.Stored(fw.children)]
    ensures old(c.obj.Stored(fw.children)).ListRef? ==>
      err.None? && c.obj.propertyMap == old(c.obj.propertyMap) &&
      c.obj.Stored(fw.children).list.items == old(c.obj.Stored(fw.children).list.items) + [ElementValue(x)]
    ensures old(c.obj.Stored(fw.children)) != Null && !old(c.obj.Stored(fw.children)).ListRef? ==>
      err == Some(ClassCast) && c.obj.propertyMap == old(c.obj.propertyMap)
    ensures Step(scope, Reparented(old(Snap(scope)), x, Some(c)), old(lm.arrangeList), old(lm.renderList),
                 Union(Union(Asked(c, true, true), Asked(x, true, true)),
                       FreshListEffects(c, old(c.obj.Stored(fw.children)), fw.children.IsSuspended(c.obj))),
                 Snap(scope), lm.arrangeList, lm.renderList)
    ensures trace.events == old(trace.events)
    ensures lm.isInactive == old(lm.isInactive)
  {
    ghost var m0 := Reparented(Snap(scope), x, Some(c));
    ghost var a0 := lm.arrangeList;
    ghost var r0 := lm.renderList;
    ghost var stored := c.obj.Stored(fw.children);
    ghost var kept: ArrayList?<Value> := if stored.ListRef? then stored.list else null;
    AdoptKeeping(c, x, lm, scope, kept, trace);
    ghost var m1 := Snap(scope);
    ghost var a1 := lm.arrangeList;
    ghost var r1 := lm.renderList;
    err := AppendChild(t, fw, c, x, lm, trace, scope, stored);
    StepCompose(scope, m0, a0, r0, Union(Asked(c, true, true), Asked(x, true, true)), m1, a1, r1,
                FreshListEffects(c, stored, fw.children.IsSuspended(c.obj)),
                Snap(scope), lm.arrangeList, lm.renderList);
  }

  /**
   * `addChild(element)`: null is rejected before anything happens; otherwise the element's parent
   * becomes this control, both are asked to re-lay-out and re-render, and the element is appended to
   * the children list, which is created on first use. A stored value that is not a list fails the last
   * step, after the invalidations.
   */
  method AddChild(t: ClassTree, fw: Framework, c: UIElement, child: Option<UIElement>, lm: ContextLayoutManager, trace: Trace,
                  ghost scope: set<UIElement>) returns (err: Option<UiError>)
    requires ChildrenRegistered(fw, t, c.obj.cls) && IsSubclassOf(t, c.obj.cls, ITEMS_CONTROL)
    requires {c} + ParentSet(c) <= scope && (child.Some? ==> child.value in scope)
    modifies c.obj, scope, lm, trace, ListsOf(c.obj.Stored(fw.children))
    ensures child.None? ==>
      err == Some(NullElement) && c.obj.propertyMap == old(c.obj.propertyMap) &&
      Step(scope, old(Snap(scope)), old(lm.arrangeList), old(lm.renderList), NO_EFFECTS, Snap(scope), lm.arrangeList, lm.renderList)
    ensures child.Some? && old(c.obj.Stored(fw.children)) == Null ==>
      err.None? && c.obj.Stored(fw.children).ListRef? && fresh(c.obj.Stored(fw.children).list) &&
      c.obj.Stored(fw.children).list.items == [ElementValue(child.value)] &&
      c.obj.propertyMap == old(c.obj.propertyMap)[fw.children := c.obj.Stored(fw.children)]
    ensures child.Some? && old(c.obj.Stored(fw.children)).ListRef? ==>
      err.None? && c.obj.propertyMap == old(c.obj.propertyMap) &&
      c.obj.Stored(fw.children).list.items == old(c.obj.Stored(fw.children).list.items) + [ElementValue(child.value)]
    ensures child.Some? && old(c.obj.Stored(fw.children)) != Null && !old(c.obj.Stored(fw.children)).ListRef? ==>
      err == Some(ClassCast) && c.obj.propertyMap == old(c.obj.propertyMap)
    ensures child.Some? ==>
      Step(scope, Reparented(old(Snap(scope)), child.value, Some(c)), old(lm.arrangeList), old(lm.renderList),
           Union(Union(Asked(c, true, true), Asked(child.value, true, true)),
                 FreshListEffects(c, old(c.obj.Stored(fw.children)), fw.children.IsSuspended(c.obj))),
           Snap(scope), lm.arrangeList, lm.renderList)
    ensures trace.events == old(trace.events)
    ensures lm.isInactive == old(lm.isInactive)
  {
    if child.None? {
      NoStep(scope, Snap(scope), lm.arrangeList, lm.renderList);
      return Some(NullElement);
    }
    err := AddElement(t, fw, c, child.value, lm, trace, scope);
  }

  /** `x.setParent(null)`, seen from a list, the control's object and the trace, none of them elements. */
  method Disown(x: UIElement, ghost scope: set<UIElement>, ghost kept: ArrayList?<Value>, ghost o: DependencyObject,
                ghost trace: Trace)
    requires x in scope
    modifies x
    ensures Snap(scope) == Reparented(old(Snap(scope)), x, None)
    ensures kept != null ==> kept.items == old(kept.items)
    ensures unchanged(o) && trace.events == old(trace.events)
  {
    Reparent(x, None, scope);
  }

  /** `list.remove(v)` on a list outside the scope and the control's property map. */
  method RemoveFrom(l: ArrayList<Value>, v: Value, ghost o: DependencyObject, ghost scope: set<UIElement>)
    returns (removed: bool)
    modifies l
    ensures removed <==> v in old(l.items)
    ensures l.items == WithoutFirst(old(l.items), v)
    ensures o.propertyMap == old(o.propertyMap) && Snap(scope) == old(Snap(scope))
  {
    removed := l.Remove(v);
  }

  /** The middle of `removeChild(x)`: `getChildren().remove(x)`. */
  method RemoveListed(t: ClassTree, fw: Framework, c: UIElement, x: UIElement, lm: ContextLayoutManager, trace: Trace,
                      ghost scope: set<UIElement>, ghost stored: Value) returns (r: Result<bool, UiError>)
    requires ChildrenRegistered(fw, t, c.obj.cls) && IsSubclassOf(t, c.obj.cls, ITEMS_CONTROL)
    requires {c} + ParentSet(c) <= scope
    requires stored == c.obj.Stored(fw.children)
    modifies c.obj, scope, lm, trace, ListsOf(stored)
    ensures stored == Null ==>
      r == Ok(false) && c.obj.Stored(fw.children).ListRef? && fresh(c.obj.Stored(fw.children).list) &&
      c.obj.Stored(fw.children).list.items == [] &&
      c.obj.propertyMap == old(c.obj.propertyMap)[fw.children := c.obj.Stored(fw.children)]
    ensures stored.ListRef? ==>
      r == Ok(ElementValue(x) in old(stored.list.items)) &&
      c.obj.propertyMap == old(c.obj.propertyMap) && c.obj.Stored(fw.children) == stored &&
      stored.list.items == WithoutFirst(old(stored.list.items), ElementValue(x))
    ensures stored != Null && !stored.ListRef? ==>
      r == Err(ClassCast) && c.obj.propertyMap == old(c.obj.propertyMap)
    ensures trace.events == old(trace.events)
    ensures Step(scope, old(Snap(scope)), old(lm.arrangeList), old(lm.renderList),
                 FreshListEffects(c, stored, fw.children.IsSuspended(c.obj)),
                 Snap(scope), lm.arrangeList, lm.renderList)
    ensures lm.isInactive == old(lm.isInactive)
  {
    var l := GetChildren(t, fw, c, lm, trace, scope);
    if l.Err? {
      return Err(l.error);
    }
    var removed := RemoveFrom(l.value, ElementValue(x), c.obj, scope);
    r := Ok(removed);
  }

  /** The end of `removeChild(x)`: `invalidateRender()` when the element was removed. */
  method RenderIfRemoved(c: UIElement, removed: bool, lm: ContextLayoutManager, ghost scope: set<UIElement>,
                         ghost kept: ArrayList?<Value>, ghost trace: Trace, ghost p: DependencyProperty)
    requires c in scope
    modifies c, lm
    ensures Step(scope, old(Snap(scope)), old(lm.arrangeList), old(lm.renderList), Asked(c, false, removed),
                 Snap(scope), lm.arrangeList, lm.renderList)
    ensures kept != null ==> kept.items == old(kept.items)
    ensures c.obj.propertyMap == old(c.obj.propertyMap) && c.obj.Stored(p) == old(c.obj.Stored(p))
    ensures p.IsSuspended(c.obj) == old(p.IsSuspended(c.obj)) && trace.events == old(trace.events)
    ensures lm.isInactive == old(lm.isInactive)
  {
    InvalidateIn(c, false, removed, lm, scope);
  }

  /** The rest of `removeChild(x)` once the parent is cleared: the removal, then the render request. */
  method RemoveAndRender(t: ClassTree, fw: Framework, c: UIElement, x: UIElement, lm: ContextLayoutManager, trace: Trace,
                         ghost scope: set<UIElement>, ghost stored: Value) returns (r: Result<bool, UiError>)
    requires ChildrenRegistered(fw, t, c.obj.cls) && IsSubclassOf(t, c.obj.cls, ITEMS_CONTROL)
    requires {c} + ParentSet(c) <= scope
    requires stored == c.obj.Stored(fw.children)
    modifies c.obj, scope, lm, trace, ListsOf(stored)
    ensures stored == Null ==>
      r == Ok(false) && c.obj.Stored(fw.children).ListRef? && fresh(c.obj.Stored(fw.children).list) &&
      c.obj.Stored(fw.children).list.items == [] &&
      c.obj.propertyMap == old(c.obj.propertyMap)[fw.children := c.obj.Stored(fw.children)]
    ensures stored.ListRef? ==>
      r == Ok(ElementValue(x) in old(stored.list.items)) &&
      c.obj.propertyMap == old(c.obj.propertyMap) && c.obj.Stored(fw.children) == stored &&
      stored.list.items == WithoutFirst(old(stored.list.items), ElementValue(x))
    ensures stored != Null && !stored.ListRef? ==>
      r == Err(ClassCast) && c.obj.propertyMap == old(c.obj.propertyMap)
    ensures trace.events == old(trace.events)
    ensures Step(scope, old(Snap(scope)), old(lm.arrangeList), old(lm.renderList),
                 Union(FreshListEffects(c, stored, fw.children.IsSuspended(c.obj)), Asked(c, false, r == Ok(true))),
                 Snap(scope), lm.arrangeList, lm.renderList)
    ensures lm.isInactive == old(lm.isInactive)
  {
    ghost var m0 := Snap(scope);
    ghost var a0 := lm.arrangeList;
    ghost var r0 := lm.renderList;
    r := RemoveListed(t, fw, c, x, lm, trace, scope, stored);
    ghost var m1 := Snap(scope);
    ghost var a1 := lm.arrangeList;
    ghost var r1 := lm.renderList;
    ghost var now := c.obj.Stored(fw.children);
    ghost var kept: ArrayList?<Value> := if now.ListRef? then now.list else null;
    RenderIfRemoved(c, r == Ok(true), lm, scope, kept, trace, fw.children);
    StepCompose(scope, m0, a0, r0, FreshListEffects(c, stored, fw.children.IsSuspended(c.obj)), m1, a1, r1,
                Asked(c, false, r == Ok(true)), Snap(scope), lm.arrangeList, lm.renderList);
  }

  /** `removeChild(x)` for a non-null element `x`. */
  method RemoveElement(t: ClassTree, fw: Framework, c: UIElement, x: UIElement, lm: ContextLayoutManager, trace: Trace,
                       ghost scope: set<UIElement>) returns (r: Result<bool, UiError>)
    requires ChildrenRegistered(fw, t, c.obj.cls) && IsSubclassOf(t, c.obj.cls, ITEMS_CONTROL)
    requires {c, x} + ParentSet(c) <= scope
    modifies c.obj, scope, lm, trace, ListsOf(c.obj.Stored(fw.children))
    ensures old(c.obj.Stored(fw.children)) == Null ==>
      r == Ok(false) && c.obj.Stored(fw.children).ListRef? && fresh(c.obj.Stored(fw.children).list) &&
      c.obj.Stored(fw.children).list.items == [] &&
      c.obj.propertyMap == old(c.obj.propertyMap)[fw.children := c.obj.Stored(fw.children)]
    ensures old(c.obj.Stored(fw.children)).ListRef? ==>
      r == Ok(ElementValue(x) in old(c.obj.Stored(fw.children).list.items)) &&
      c.obj.propertyMap == old(c.obj.propertyMap) &&
      c.obj.Stored(fw.children).list.items == WithoutFirst(old(c.obj.Stored(fw.children).list.items), ElementValue(x))
    ensures old(c.obj.Stored(fw.children)) != Null && !old(c.obj.Stored(fw.children)).ListRef? ==>
      r == Err(ClassCast) && c.obj.propertyMap == old(c.obj.propertyMap)
    ensures Step(scope, Reparented(old(Snap(scope)), x, None), old(lm.arrangeList), old(lm.renderList),
                 Union(FreshListEffects(c, old(c.obj.Stored(fw.children)), fw.children.IsSuspended(c.obj)),
                       Asked(c, false, r == Ok(true))),
                 Snap(scope), lm.arrangeList, lm.renderList)
    ensures trace.events == old(trace.events)
    ensures lm.isInactive == old(lm.isInactive)
  {
    ghost var stored := c.obj.Stored(fw.children);
    ghost var kept: ArrayList?<Value> := if stored.ListRef? then stored.list else null;
    Disown(x, scope, kept, c.obj, trace);
    r := RemoveAndRender(t, fw, c, x, lm, trace, scope, stored);
  }

  /**
   * `removeChild(element)`: null is rejected before anything happens; otherwise the element's parent
   * is cleared, the element's first occurrence is removed from the children list (created on first use,
   * when nothing can be removed), and the control is asked to re-render exactly when something was
   * removed. The result says whether the element was in the list.
   */
  method RemoveChild(t: ClassTree, fw: Framework, c: UIElement, child: Option<UIElement>, lm: ContextLayoutManager,
                     trace: Trace, ghost scope: set<UIElement>) returns (r: Result<bool, UiError>)
    requires ChildrenRegistered(fw, t, c.obj.cls) && IsSubclassOf(t, c.obj.cls, ITEMS_CONTROL)
    requires {c} + ParentSet(c) <= scope && (child.Some? ==> child.value in scope)
    modifies c.obj, scope, lm, trace, ListsOf(c.obj.Stored(fw.children))
    ensures child.None? ==>
      r == Err(NullElement) && c.obj.propertyMap == old(c.obj.propertyMap) &&
      Step(scope, old(Snap(scope)), old(lm.arrangeList), old(lm.renderList), NO_EFFECTS, Snap(scope), lm.arrangeList, lm.renderList)
    ensures child.Some? && old(c.obj.Stored(fw.children)) == Null ==>
      r == Ok(false) && c.obj.Stored(fw.children).ListRef? && fresh(c.obj.Stored(fw.children).list) &&
      c.obj.Stored(fw.children).list.items == [] &&
      c.obj.propertyMap == old(c.obj.propertyMap)[fw.children := c.obj.Stored(fw.children)]
    ensures child.Some? && old(c.obj.Stored(fw.children)).ListRef? ==>
      r == Ok(ElementValue(child.value) in old(c.obj.Stored(fw.children).list.items)) &&
      c.obj.propertyMap == old(c.obj.propertyMap) &&
      c.obj.Stored(fw.children).list.items ==
        WithoutFirst(old(c.obj.Stored(fw.children).list.items), ElementValue(child.value))
    ensures child.Some? && old(c.obj.Stored(fw.children)) != Null && !old(c.obj.Stored(fw.children)).ListRef? ==>
      r == Err(ClassCast) && c.obj.propertyMap == old(c.obj.propertyMap)
    ensures child.Some? ==>
      Step(scope, Reparented(old(Snap(scope)), child.value, None), old(lm.arrangeList), old(lm.renderList),
           Union(FreshListEffects(c, old(c.obj.Stored(fw.children)), fw.children.IsSuspended(c.obj)),
                 Asked(c, false, r == Ok(true))),
           Snap(scope), lm.arrangeList, lm.renderList)
    ensures trace.events == old(trace.events)
    ensures lm.isInactive == old(lm.isInactive)
  {
    if child.None? {
      NoStep(scope, Snap(scope), lm.arrangeList, lm.renderList);
      return Err(NullElement);
    }
    r := RemoveElement(t, fw, c, child.value, lm, trace, scope);
  }

  // ---------------------------------------------------------------- onLayoutInvalidated and onRenderInvalidated

  /** The contents of the list a stored children value refers to; nothing for any other value. */
  function ItemsOf(v: Value): seq<Value>
    reads ListsOf(v)
  {
    if v.ListRef? then v.list.items else []
  }

  /**
   * How forwarding an invalidation to the children `items` of the stored value `v` fails: a value that
   * is neither null nor a list fails the cast to `Collection`, a list fails at its first non-element.
   */
  function ForwardFailure(v: Value, items: seq<Value>): Option<UiError> {
    if v.ListRef? then LoopFailure(items) else if v == Null then None else Some(ClassCast)
  }

  /** The elements forwarding reaches: the items before the first non-element, for a list only. */
  function ForwardEffects(v: Value, items: seq<Value>, layout: bool): Effects {
    if v.ListRef? then Fan(items, FirstNonElement(items), layout) else NO_EFFECTS
  }

  /**
   * Forwarding succeeds exactly when there is no list or the list holds only elements, and then it
   * reaches every child, asking for a layout pass (`layout`) or a render pass and never both.
   */
  lemma ForwardOutcome(v: Value, items: seq<Value>, layout: bool)
    ensures ForwardFailure(v, items).None? <==>
      v == Null || (v.ListRef? && forall j :: 0 <= j < |items| ==> ElementOf(items[j]).Some?)
    ensures ForwardFailure(v, items).None? && v.ListRef? ==>
      forall j :: 0 <= j < |items| ==>
        ElementOf(items[j]).value in (if layout then ForwardEffects(v, items, layout).layout else ForwardEffects(v, items, layout).render)
    ensures (if layout then ForwardEffects(v, items, layout).render else ForwardEffects(v, items, layout).layout) == {}
    ensures !v.ListRef? ==> ForwardEffects(v, items, layout) == NO_EFFECTS
  {
    if ForwardFailure(v, items).None? && v.ListRef? {
      assert FirstNonElement(items) == |items|;
    }
  }

  /** `children.forEach(UIElement::invalidateLayout)` (`layout`) or `::invalidateRender` when not null. */
  method ForwardTo(v: Value, layout: bool, lm: ContextLayoutManager, ghost scope: set<UIElement>) returns (err: Option<UiError>)
    requires Reached(ItemsOf(v)) <= scope
    modifies scope, lm
    ensures err == ForwardFailure(v, old(ItemsOf(v)))
    ensures Step(scope, old(Snap(scope)), old(lm.arrangeList), old(lm.renderList), ForwardEffects(v, old(ItemsOf(v)), layout),
                 Snap(scope), lm.arrangeList, lm.renderList)
    ensures lm.isInactive == old(lm.isInactive)
  {
    var col := AsCollection(v);
    if col.Err? || col.value.None? {
      NoStep(scope, Snap(scope), lm.arrangeList, lm.renderList);
      return if col.Err? then Some(col.error) else None;
    }
    err := InvalidateEach(col.value.value.items, layout, lm, scope);
  }

  /** The inherited hook, which only records itself, seen from the control's children and the scope. */
  method InheritedHook(trace: Trace, e: Event, c: UIElement, fw: Framework, ghost scope: set<UIElement>)
    modifies trace
    ensures trace.events == old(trace.events) + [e]
    ensures Snap(scope) == old(Snap(scope)) && c.obj.propertyMap == old(c.obj.propertyMap)
    ensures c.obj.Stored(fw.children) == old(c.obj.Stored(fw.children))
    ensures ItemsOf(c.obj.Stored(fw.children)) == old(ItemsOf(c.obj.Stored(fw.children)))
  {
    trace.Emit(e);
  }

  /** `getValue(CHILDREN)` in a hook, seen from the list it yields: that list is left as it was. */
  method ReadItems(t: ClassTree, fw: Framework, c: UIElement, ghost scope: set<UIElement>) returns (v: Value)
    requires ChildrenRegistered(fw, t, c.obj.cls) && IsSubclassOf(t, c.obj.cls, ITEMS_CONTROL)
    modifies c.obj
    ensures Snap(scope) == old(Snap(scope))
    ensures v == old(c.obj.Stored(fw.children)) && ItemsOf(v) == old(ItemsOf(c.obj.Stored(fw.children)))
    ensures c.obj.propertyMap == old(c.obj.propertyMap)[fw.children := v]
  {
    v := ReadChildren(t, fw, c, scope);
  }

  /**
   * `onLayoutInvalidated()` (`layout`) and `onRenderInvalidated()`: the inherited hook, then the same
   * request forwarded to every child in order. Reading the children stores the default (null) when
   * nothing is stored; a stored value that is neither null nor a list, or a child that is not an element,
   * ends the hook with a cast failure, after the children before it were asked.
   */
  method OnInvalidated(t: ClassTree, fw: Framework, c: UIElement, layout: bool, lm: ContextLayoutManager, trace: Trace,
                       ghost scope: set<UIElement>) returns (err: Option<UiError>)
    requires ChildrenRegistered(fw, t, c.obj.cls) && IsSubclassOf(t, c.obj.cls, ITEMS_CONTROL)
    requires Reached(ItemsOf(c.obj.Stored(fw.children))) <= scope
    modifies c.obj, scope, lm, trace
    ensures trace.events == old(trace.events) + [if layout then LayoutInvalidatedHook(c) else RenderInvalidatedHook(c)]
    ensures c.obj.propertyMap == old(c.obj.propertyMap)[fw.children := old(c.obj.Stored(fw.children))]
    ensures err == ForwardFailure(old(c.obj.Stored(fw.children)), old(ItemsOf(c.obj.Stored(fw.children))))
    ensures Step(scope, old(Snap(scope)), old(lm.arrangeList), old(lm.renderList),
                 ForwardEffects(old(c.obj.Stored(fw.children)), old(ItemsOf(c.obj.Stored(fw.children))), layout),
                 Snap(scope), lm.arrangeList, lm.renderList)
    ensures lm.isInactive == old(lm.isInactive)
  {
    InheritedHook(trace, if layout then LayoutInvalidatedHook(c) else RenderInvalidatedHook(c), c, fw, scope);
    var v := ReadItems(t, fw, c, scope);
    err := ForwardTo(v, layout, lm, scope);
  }
}
