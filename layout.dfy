/**
 * `UIElement`'s invalidation flags and measure pass, `ContextLayoutManager`'s two queues, the
 * ancestor collapse of `getTopLevelComponents`, and `updateLayout`.
 *
 * The layout manager is passed explicitly where the source asks `Application.current()` for it, and
 * an element's `measureCoreLayout` is a supplied function of the element and the available rect.
 */
module Layout {
  import opened Wrappers
  import opened JavaLang
  import opened Properties
  import opened Geometry
  import opened Events

  /** The fields of an element that invalidation and measuring read and write. */
  datatype ElementState = ElementState(
    isRenderDirty: bool,
    isLayoutDirty: bool,
    isUpdatingLayout: bool,
    hasNeverUpdatedLayout: bool,
    parent: Option<UIElement>,
    lastLayoutRect: Rect,
    layoutRect: Rect)

  /** `invalidateLayout` on an element in state `s`: nothing while updating or already dirty. */
  function LayoutInvalidated(s: ElementState): ElementState {
    if s.isUpdatingLayout || s.isLayoutDirty then s else s.(isLayoutDirty := true)
  }

  /** `invalidateRender` on an element in state `s`: nothing when already render-dirty. */
  function RenderInvalidated(s: ElementState): ElementState {
    if s.isRenderDirty then s else s.(isRenderDirty := true)
  }

  /** The test `measure(rect)` makes before running the core. */
  predicate MeasureRuns(s: ElementState, rect: Rect) {
    s.hasNeverUpdatedLayout || (!s.isUpdatingLayout && !IsCloseTo(s.layoutRect, rect)) || s.isLayoutDirty
  }

  /** The state after `measure(rect)` whose core, if it runs, yields `result`. */
  function Measured(s: ElementState, rect: Rect, result: Rect): ElementState {
    if MeasureRuns(s, rect) then
      s.(hasNeverUpdatedLayout := false, isUpdatingLayout := false, isLayoutDirty := false,
         lastLayoutRect := s.layoutRect, layoutRect := result)
    else s
  }

  /** Whether that measure puts the element in the render set. */
  predicate MeasureQueuesRender(s: ElementState, rect: Rect, result: Rect) {
    MeasureRuns(s, rect) && (s.isRenderDirty || !IsCloseTo(s.layoutRect, result))
  }

  /** The state of a new element: zero rects, nothing dirty, never laid out. */
  const INITIAL: ElementState := ElementState(false, false, false, true, None, ZERO, ZERO)

  class UIElement {
    /** The element's dependency-property store; its class is the element's runtime class. */
    const obj: DependencyObject
    /** `FrameworkElement.bypassMeasurementPolicies`, which only a window's constructor sets. */
    const bypassMeasurementPolicies: bool
    var isRenderDirty: bool
    var isLayoutDirty: bool
    var isUpdatingLayout: bool
    var hasNeverUpdatedLayout: bool
    var parent: Option<UIElement>
    var lastLayoutRect: Rect
    var layoutRect: Rect

    constructor(cls: ClassId, bypassMeasurementPolicies: bool)
      ensures fresh(obj) && obj.cls == cls && obj.propertyMap == map[]
      ensures this.bypassMeasurementPolicies == bypassMeasurementPolicies
      ensures State() == INITIAL
    {
      obj := new DependencyObject(cls);
      this.bypassMeasurementPolicies := bypassMeasurementPolicies;
      isRenderDirty := false;
      isLayoutDirty := false;
      isUpdatingLayout := false;
      lastLayoutRect := ZERO;
      layoutRect := ZERO;
      hasNeverUpdatedLayout := true;
      parent := None;
    }

    function State(): ElementState
      reads this
    {
      ElementState(isRenderDirty, isLayoutDirty, isUpdatingLayout, hasNeverUpdatedLayout, parent, lastLayoutRect, layoutRect)
    }

    /** A dirty element is in the matching queue of the manager. */
    predicate Tracked(lm: ContextLayoutManager)
      reads this, lm
    {
      (isLayoutDirty ==> this in lm.arrangeList) && (isRenderDirty ==> this in lm.renderList)
    }

    /** `invalidateLayout()`. */
    method InvalidateLayout(lm: ContextLayoutManager)
      modifies this, lm
      ensures State() == LayoutInvalidated(old(State()))
      ensures lm.arrangeList == if old(isUpdatingLayout || isLayoutDirty) then old(lm.arrangeList) else old(lm.arrangeList) + {this}
      ensures lm.renderList == old(lm.renderList) && lm.isInactive == old(lm.isInactive)
      ensures old(Tracked(lm)) ==> Tracked(lm)
    {
      if isUpdatingLayout || isLayoutDirty {
        return;
      }
      lm.arrangeList := lm.arrangeList + {this};
      isLayoutDirty := true;
    }

    /** `invalidateRender()`. */
    method InvalidateRender(lm: ContextLayoutManager)
      modifies this, lm
      ensures State() == RenderInvalidated(old(State()))
      ensures lm.renderList == if old(isRenderDirty) then old(lm.renderList) else old(lm.renderList) + {this}
      ensures lm.arrangeList == old(lm.arrangeList) && lm.isInactive == old(lm.isInactive)
      ensures old(Tracked(lm)) ==> Tracked(lm)
    {
      if isRenderDirty {
        return;
      }
      lm.renderList := lm.renderList + {this};
      isRenderDirty := true;
    }

    /** `invalidateVisual()`: render first, then layout. */
    method InvalidateVisual(lm: ContextLayoutManager)
      modifies this, lm
      ensures State() == LayoutInvalidated(RenderInvalidated(old(State())))
      ensures lm.renderList == if old(isRenderDirty) then old(lm.renderList) else old(lm.renderList) + {this}
      ensures lm.arrangeList == if old(isUpdatingLayout || isLayoutDirty) then old(lm.arrangeList) else old(lm.arrangeList) + {this}
      ensures lm.isInactive == old(lm.isInactive)
      ensures old(Tracked(lm)) ==> Tracked(lm)
    {
      InvalidateRender(lm);
      InvalidateLayout(lm);
    }

    /** `setParent(parent)`. */
    method SetParent(p: Option<UIElement>)
      modifies this
      ensures State() == old(State()).(parent := p)
    {
      parent := p;
    }

    /** `measure(rect)` with `core` standing for `measureCoreLayout`; returns `layoutRect`. */
    method Measure(rect: Rect, lm: ContextLayoutManager, core: (UIElement, Rect) -> Rect) returns (r: Rect)
      modifies this, lm
      ensures State() == Measured(old(State()), rect, core(this, rect))
      ensures lm.renderList == old(lm.renderList) + (if MeasureQueuesRender(old(State()), rect, core(this, rect)) then {this} else {})
      ensures lm.arrangeList == old(lm.arrangeList) && lm.isInactive == old(lm.isInactive)
      ensures r == layoutRect
      ensures old(Tracked(lm)) ==> Tracked(lm)
    {
      if MeasureRuns(State(), rect) {
        BeginMeasure();
        EndMeasure(Some(core(this, rect)), lm);
      }
      r := layoutRect;
    }

    /** The part of `measure` before the core runs: the core then sees the element as updating. */
    method BeginMeasure()
      modifies this
      ensures State() == old(State()).(hasNeverUpdatedLayout := false, isUpdatingLayout := true, lastLayoutRect := old(layoutRect))
    {
      hasNeverUpdatedLayout := false;
      isUpdatingLayout := true;
      lastLayoutRect := layoutRect;
    }

    /**
     * The part of `measure` after the core: the `finally` block clears both flags whatever happened,
     * and only a core that returned (`Some`) sets `layoutRect` and may queue a render.
     */
    method EndMeasure(result: Option<Rect>, lm: ContextLayoutManager)
      modifies this, lm
      ensures result.Some? ==> State() == old(State()).(isUpdatingLayout := false, isLayoutDirty := false, layoutRect := result.value)
      ensures result.None? ==> State() == old(State()).(isUpdatingLayout := false, isLayoutDirty := false)
      ensures lm.renderList == old(lm.renderList) +
        (if result.Some? && (old(isRenderDirty) || !IsCloseTo(old(lastLayoutRect), result.value)) then {this} else {})
      ensures lm.arrangeList == old(lm.arrangeList) && lm.isInactive == old(lm.isInactive)
      ensures old(Tracked(lm)) ==> Tracked(lm)
    {
      if result.Some? {
        layoutRect := result.value;
      }
      isUpdatingLayout := false;
      isLayoutDirty := false;
      if result.Some? && (isRenderDirty || !IsCloseTo(lastLayoutRect, layoutRect)) {
        lm.renderList := lm.renderList + {this};
      }
    }

    /** `closeRender(context)`: closes the context, then clears `isRenderDirty`. */
    method CloseRender(trace: Trace)
      modifies this, trace
      ensures State() == old(State()).(isRenderDirty := false)
      ensures trace.events == old(trace.events) + [Event.CloseRender(this)]
    {
      trace.Emit(Event.CloseRender(this));
      isRenderDirty := false;
    }
  }

  /** An element as a property value. */
  function ElementValue(e: UIElement): Value {
    Ref(e, e.obj.cls)
  }

  /** The element a property value refers to, if it is one. */
  function ElementOf(v: Value): Option<UIElement> {
    if v.Ref? && v.obj is UIElement then Some(v.obj as UIElement) else None
  }

  lemma ElementOfElementValue(e: UIElement)
    ensures ElementOf(ElementValue(e)) == Some(e)
  {
  }

  /** Repeating a measure with the same rect runs the core again only if its last result was not close to that rect. */
  lemma RemeasureRunsIffResultFar(s: ElementState, rect: Rect, result: Rect)
    requires MeasureRuns(s, rect)
    ensures MeasureRuns(Measured(s, rect, result), rect) <==> !IsCloseTo(result, rect)
  {
  }

  /** With the base core (`measureCoreLayout` returns its input) the second measure is skipped. */
  lemma BaseCoreMeasuresOnce(s: ElementState, rect: Rect)
    ensures !MeasureRuns(Measured(s, rect, rect), rect) || !MeasureRuns(s, rect)
  {
    ClosenessLaws(rect, rect);
  }

  /** Measuring never clears `isRenderDirty`, and a run always leaves the element clean and settled. */
  lemma MeasureFlags(s: ElementState, rect: Rect, result: Rect)
    ensures Measured(s, rect, result).isRenderDirty == s.isRenderDirty
    ensures MeasureRuns(s, rect) ==> var t := Measured(s, rect, result);
      !t.isLayoutDirty && !t.isUpdatingLayout && !t.hasNeverUpdatedLayout && t.lastLayoutRect == s.layoutRect && t.layoutRect == result
    ensures !MeasureRuns(s, rect) ==> Measured(s, rect, result) == s
  {
  }

  /** Invalidation is idempotent, and an invalidated element is dirty unless it is mid-measure. */
  lemma InvalidationIdempotent(s: ElementState)
    ensures LayoutInvalidated(LayoutInvalidated(s)) == LayoutInvalidated(s)
    ensures RenderInvalidated(RenderInvalidated(s)) == RenderInvalidated(s)
    ensures LayoutInvalidated(s).isLayoutDirty <==> s.isLayoutDirty || !s.isUpdatingLayout
    ensures RenderInvalidated(s).isRenderDirty
  {
  }

  class ContextLayoutManager {
    /** The rearrange queue (`getRearrangeQueue()`). */
    var arrangeList: set<UIElement>
    /** The render queue (`getRenderQueue()`). */
    var renderList: set<UIElement>
    var isInactive: bool

    constructor()
      ensures arrangeList == {} && renderList == {} && !isInactive
    {
      arrangeList := {};
      renderList := {};
      isInactive := false;
    }

    method SetInactive()
      modifies this
      ensures isInactive && arrangeList == old(arrangeList) && renderList == old(renderList)
    {
      isInactive := true;
    }

    method SetActive()
      modifies this
      ensures IsActive() && arrangeList == old(arrangeList) && renderList == old(renderList)
    {
      isInactive := false;
    }

    predicate IsActive()
      reads this
    {
      !isInactive
    }
  }

  // ---------------------------------------------------------------- top-level components

  predicate Distinct<T(==)>(q: seq<T>) {
    forall i, j :: 0 <= i < j < |q| ==> q[i] != q[j]
  }

  /** The element's parent is one of `s`. */
  predicate ParentIn(e: UIElement, s: set<UIElement>)
    reads e
  {
    e.parent.Some? && e.parent.value in s
  }

  /** `top` is `e` or is reached from `e` in at most `fuel` parent steps that stay inside `s`. */
  predicate Reaches(e: UIElement, top: UIElement, s: set<UIElement>, fuel: nat)
    requires e in s
    reads s
    decreases fuel
  {
    e == top || (fuel > 0 && ParentIn(e, s) && Reaches(e.parent.value, top, s, fuel - 1))
  }

  /**
   * The inner walk: climb from `e` while the parent is in `s`. More than `fuel` steps inside `s`
   * means a parent cycle, on which the source never leaves its loop; that is `None`.
   */
  function Climb(e: UIElement, s: set<UIElement>, fuel: nat): (r: Option<UIElement>)
    requires e in s
    reads s
    decreases fuel
    ensures r.Some? ==> r.value in s && !ParentIn(r.value, s) && Reaches(e, r.value, s, fuel)
    ensures !ParentIn(e, s) ==> r == Some(e)
  {
    if ParentIn(e, s) then
      if fuel == 0 then None else Climb(e.parent.value, s, fuel - 1)
    else Some(e)
  }

  /** `n` parent steps from `e` all stay inside `s`. */
  predicate Stays(e: UIElement, s: set<UIElement>, n: nat)
    requires e in s
    reads s
    decreases n
  {
    n == 0 || (ParentIn(e, s) && Stays(e.parent.value, s, n - 1))
  }

  /** The element `n` parent steps above `e`. */
  function Ancestor(e: UIElement, s: set<UIElement>, n: nat): (r: UIElement)
    requires e in s && Stays(e, s, n)
    reads s
    decreases n
    ensures r in s
  {
    if n == 0 then e else Ancestor(e.parent.value, s, n - 1)
  }

  /** `x` comes back to itself after between one and `|s|` parent steps inside `s`. */
  predicate OnCycle(x: UIElement, s: set<UIElement>)
    requires x in s
    reads s
  {
    exists n: nat :: 0 < n <= |s| && Stays(x, s, n) && Ancestor(x, s, n) == x
  }

  /** A climb that runs out of fuel took one step more than its fuel, all inside `s`. */
  lemma {:induction false} ClimbNoneStays(e: UIElement, s: set<UIElement>, fuel: nat)
    requires e in s && Climb(e, s, fuel).None?
    ensures Stays(e, s, fuel + 1)
    decreases fuel
  {
    if fuel > 0 {
      ClimbNoneStays(e.parent.value, s, fuel - 1);
    }
  }

  /** Climbing `i` steps and then `k` more is climbing `i + k` steps. */
  lemma {:induction false} AncestorSplit(e: UIElement, s: set<UIElement>, i: nat, k: nat)
    requires e in s && Stays(e, s, i + k)
    ensures Stays(e, s, i) && Stays(Ancestor(e, s, i), s, k)
    ensures Ancestor(Ancestor(e, s, i), s, k) == Ancestor(e, s, i + k)
    decreases i
  {
    if i > 0 {
      AncestorSplit(e.parent.value, s, i - 1, k);
    }
  }

  /** Fewer steps than a climb that stays inside `s` also stay inside it. */
  lemma {:induction false} StaysShorter(e: UIElement, s: set<UIElement>, n: nat, m: nat)
    requires e in s && Stays(e, s, n) && m <= n
    ensures Stays(e, s, m)
    decreases m
  {
    if m > 0 {
      StaysShorter(e.parent.value, s, n - 1, m - 1);
    }
  }

  /** A sequence without repeats has as many distinct elements as entries. */
  lemma {:induction false} DistinctCard<T>(q: seq<T>)
    requires Distinct(q)
    ensures |set x | x in q| == |q|
  {
    if q != [] {
      var init := q[..|q| - 1];
      DistinctCard(init);
      assert (set x | x in q) == (set x | x in init) + {q[|q| - 1]};
      assert q[|q| - 1] !in (set x | x in init);
    }
  }

  /** More entries than `s` has elements, all drawn from `s`, repeat one. */
  lemma Pigeonhole<T>(q: seq<T>, s: set<T>)
    requires (forall i :: 0 <= i < |q| ==> q[i] in s) && |q| > |s|
    ensures !Distinct(q)
  {
    if Distinct(q) {
      DistinctCard(q);
      SubsetCard((set x | x in q), s);
    }
  }

  /** A subset has no more elements than its superset. */
  lemma {:induction false} SubsetCard<T>(a: set<T>, b: set<T>)
    requires a <= b
    ensures |a| <= |b|
    decreases |b|
  {
    if a != {} {
      var x :| x in a;
      SubsetCard(a - {x}, b - {x});
    }
  }

  /**
   * The walk of `getTopLevelComponents` gives up on an element only when the element's ancestors
   * inside `s` run into a parent cycle: climbing from some ancestor comes back to it.
   */
  lemma ClimbDivergesOnCycle(e: UIElement, s: set<UIElement>)
    requires e in s && Climb(e, s, |s|).None?
    ensures exists i: nat :: i <= |s| && Stays(e, s, i) && OnCycle(Ancestor(e, s, i), s)
  {
    var n := |s|;
    ClimbNoneStays(e, s, n);
    forall i: nat | i <= n + 1 ensures Stays(e, s, i) {
      StaysShorter(e, s, n + 1, i);
    }
    var q := seq(n + 1, i requires 0 <= i <= n && Stays(e, s, i) reads s => Ancestor(e, s, i));
    Pigeonhole(q, s);
    var i, j :| 0 <= i < j < |q| && q[i] == q[j];
    AncestorSplit(e, s, i, j - i);
    assert Stays(Ancestor(e, s, i), s, j - i) && Ancestor(Ancestor(e, s, i), s, j - i) == Ancestor(e, s, i);
  }

  /** `LinkedHashSet.add`: append unless already present. */
  function AddLast(acc: seq<UIElement>, x: UIElement): (r: seq<UIElement>)
    ensures x in r && (forall y :: y in acc ==> y in r) && (forall y :: y in r ==> y in acc || y == x)
    ensures Distinct(acc) ==> Distinct(r)
  {
    if x in acc then acc else acc + [x]
  }

  /** One of the two passes: add the climb result of each element of `es`, in order, to `acc`. */
  function Pass(es: seq<UIElement>, s: set<UIElement>, acc: seq<UIElement>): (r: Option<seq<UIElement>>)
    requires forall e :: e in es ==> e in s
    reads s
    decreases |es|
    ensures r.Some? ==> forall x :: x in r.value ==> x in acc || (x in s && !ParentIn(x, s))
  {
    if es == [] then Some(acc)
    else
      match Climb(es[0], s, |s|)
      case None => None
      case Some(top) => Pass(es[1..], s, AddLast(acc, top))
  }

  /**
   * A pass fails exactly when one of its walks does not end; otherwise it keeps `acc`, adds every
   * element's climb result, and adds no duplicates.
   */
  lemma {:induction false} PassFacts(es: seq<UIElement>, s: set<UIElement>, acc: seq<UIElement>)
    requires forall e :: e in es ==> e in s
    ensures Pass(es, s, acc).None? <==> exists i :: 0 <= i < |es| && Climb(es[i], s, |s|).None?
    ensures Pass(es, s, acc).Some? ==> forall x :: x in acc ==> x in Pass(es, s, acc).value
    ensures Pass(es, s, acc).Some? ==>
      forall i :: 0 <= i < |es| ==> Climb(es[i], s, |s|).Some? && Climb(es[i], s, |s|).value in Pass(es, s, acc).value
    ensures Pass(es, s, acc).Some? && Distinct(acc) ==> Distinct(Pass(es, s, acc).value)
  {
    if es != [] {
      var c := Climb(es[0], s, |s|);
      if c.Some? {
        PassFacts(es[1..], s, AddLast(acc, c.value));
        assert forall i :: 1 <= i < |es| ==> es[i] == es[1..][i - 1];
        if Pass(es, s, acc).None? {
          var i :| 0 <= i < |es[1..]| && Climb(es[1..][i], s, |s|).None?;
          assert Climb(es[i + 1], s, |s|).None?;
        }
      }
    }
  }

  /** `getTopLevelComponents(elements)`: two passes over the input's set. */
  function TopLevelComponents(elements: seq<UIElement>): Option<seq<UIElement>>
    reads set e | e in elements
  {
    var s := set e | e in elements;
    match Pass(elements, s, [])
    case None => None
    case Some(top1) => Pass(top1, s, [])
  }

  /** A pass over elements that already have no parent in `s` gives back exactly those elements. */
  lemma {:induction false} PassOfTopLevel(q: seq<UIElement>, s: set<UIElement>, acc: seq<UIElement>)
    requires forall x :: x in q ==> x in s && !ParentIn(x, s)
    requires Distinct(acc + q)
    ensures Pass(q, s, acc) == Some(acc + q)
  {
    if q != [] {
      assert Climb(q[0], s, |s|) == Some(q[0]);
      forall i | 0 <= i < |acc|
        ensures acc[i] != q[0]
      {
        assert (acc + q)[i] == acc[i] && (acc + q)[|acc|] == q[0];
      }
      assert AddLast(acc, q[0]) == acc + [q[0]];
      assert (acc + [q[0]]) + q[1..] == acc + q;
      PassOfTopLevel(q[1..], s, acc + [q[0]]);
      assert Pass(q, s, acc) == Pass(q[1..], s, acc + [q[0]]);
    } else {
      assert acc + q == acc;
    }
  }

  /** The second pass returns the first pass's result unchanged. */
  lemma SecondPassIsFirst(elements: seq<UIElement>)
    ensures var s := set e | e in elements;
      TopLevelComponents(elements) == Pass(elements, s, [])
  {
    var s := set e | e in elements;
    var p1 := Pass(elements, s, []);
    PassFacts(elements, s, []);
    if p1.Some? {
      PassOfTopLevel(p1.value, s, []);
      assert [] + p1.value == p1.value;
    }
  }

  /**
   * What `getTopLevelComponents` promises: the result is drawn from the input, no result element has
   * its parent in the input, and there are no duplicates.
   */
  lemma TopLevelComponentsAreTopLevel(elements: seq<UIElement>)
    ensures var s := set e | e in elements;
      TopLevelComponents(elements).Some? ==>
        var r := TopLevelComponents(elements).value;
        Distinct(r) && forall x :: x in r ==> x in elements && !ParentIn(x, s)
  {
    SecondPassIsFirst(elements);
    PassFacts(elements, set e | e in elements, []);
  }

  /** Every input element is a result element or reaches one through its ancestors in the input. */
  lemma TopLevelComponentsCover(elements: seq<UIElement>, i: nat)
    requires i < |elements|
    ensures var s := set e | e in elements;
      TopLevelComponents(elements).Some? ==>
        var r := TopLevelComponents(elements).value;
        exists j :: 0 <= j < |r| && Reaches(elements[i], r[j], s, |s|)
  {
    var s := set e | e in elements;
    SecondPassIsFirst(elements);
    PassFacts(elements, s, []);
    if TopLevelComponents(elements).Some? {
      var r := TopLevelComponents(elements).value;
      var top := Climb(elements[i], s, |s|).value;
      var j :| 0 <= j < |r| && r[j] == top;
    }
  }

  /** The inner `while` loop of `getTopLevelComponents`. */
  method FindTopLevel(element: UIElement, s: set<UIElement>) returns (r: Option<UIElement>)
    requires element in s
    ensures r == Climb(element, s, |s|)
  {
    var topLevel := element;
    var parent := element.parent;
    var fuel: nat := |s|;
    while parent.Some? && parent.value in s
      invariant topLevel in s && parent == topLevel.parent
      invariant Climb(element, s, |s|) == Climb(topLevel, s, fuel)
      decreases fuel
    {
      if fuel == 0 {
        return None;
      }
      topLevel := parent.value;
      parent := topLevel.parent;
      fuel := fuel - 1;
    }
    return Some(topLevel);
  }

  /** `getTopLevelComponents(elements)`; `None` when a walk would not end. */
  method GetTopLevelComponents(elements: seq<UIElement>) returns (r: Option<seq<UIElement>>)
    ensures r == TopLevelComponents(elements)
  {
    var s := set e | e in elements;
    var top1: seq<UIElement> := [];
    var i := 0;
    while i < |elements|
      invariant 0 <= i <= |elements|
      invariant Pass(elements, s, []) == Pass(elements[i..], s, top1)
    {
      var top := FindTopLevel(elements[i], s);
      if top.None? {
        return None;
      }
      if top.value !in top1 {
        top1 := top1 + [top.value];
      }
      i := i + 1;
    }
    assert elements[i..] == [];
    var top2: seq<UIElement> := [];
    i := 0;
    while i < |top1|
      invariant 0 <= i <= |top1|
      invariant forall x :: x in top1 ==> x in s
      invariant Pass(top1, s, []) == Pass(top1[i..], s, top2)
    {
      var top := FindTopLevel(top1[i], s);
      if top.None? {
        return None;
      }
      if top.value !in top2 {
        top2 := top2 + [top.value];
      }
      i := i + 1;
    }
    assert top1[i..] == [];
    return Some(top2);
  }

  // ---------------------------------------------------------------- updateLayout

  /** How an `updateLayout` call went. */
  datatype LayoutPass =
      /** The main window was layout-dirty: only the window was laid out. */
    | WindowRelaid
      /**
       * The top-level elements `top` were walked in order; `available[j]` is the rect `top[j]` was
       * measured against, or `None` when it was skipped for being mid-measure.
       */
    | MeasuredAll(top: seq<UIElement>, available: seq<Option<Rect>>)
      /** A top-level walk would not end. */
    | WalkDiverges

  /** The rect `updateLayout` measures `x` against: its parent's layout rect, else the window's. */
  function AvailableRect(x: UIElement, window: UIElement): Rect
    reads x, window, if x.parent.Some? then {x.parent.value} else {}
  {
    if x.parent.None? then window.layoutRect else x.parent.value.layoutRect
  }

  /** The states of `top`'s elements, in order. */
  function States(top: seq<UIElement>): (r: seq<ElementState>)
    reads set x | x in top
    ensures |r| == |top| && forall j :: 0 <= j < |top| ==> r[j] == top[j].State()
  {
    seq(|top|, j requires 0 <= j < |top| reads set x | x in top => top[j].State())
  }

  /**
   * The elements a pass that measured `top[j]` against `available[j]` (or skipped it, for `None`) adds
   * to the render set, when `before[j]` was `top[j]`'s state before its measure.
   */
  function Queued(top: seq<UIElement>, before: seq<ElementState>, available: seq<Option<Rect>>,
                  core: (UIElement, Rect) -> Rect): set<UIElement>
    requires |available| <= |top| && |available| <= |before|
  {
    set j | 0 <= j < |available| && Requeues(before[j], top[j], available[j], core) :: top[j]
  }

  /** `e`, in state `s`, was measured against `a` (not skipped) and that measure queued it for render. */
  predicate Requeues(s: ElementState, e: UIElement, a: Option<Rect>, core: (UIElement, Rect) -> Rect) {
    a.Some? && MeasureQueuesRender(s, a.value, core(e, a.value))
  }

  /** The state after a loop turn that measured `e` against `a`, or skipped it for `None`. */
  function TurnOutcome(s: ElementState, e: UIElement, a: Option<Rect>, core: (UIElement, Rect) -> Rect): ElementState {
    if a.Some? then Measured(s, a.value, core(e, a.value)) else s
  }

  /** One more loop turn adds at most its own element to the render requests. */
  lemma QueuedSnoc(top: seq<UIElement>, before: seq<ElementState>, available: seq<Option<Rect>>, a: Option<Rect>,
                   core: (UIElement, Rect) -> Rect)
    requires |available| < |top| && |available| < |before|
    ensures var n := |available|;
      Queued(top, before, available + [a], core) ==
        Queued(top, before, available, core) + (if Requeues(before[n], top[n], a, core) then {top[n]} else {})
  {
    var n := |available|;
    var extended := available + [a];
    forall j | 0 <= j < n
      ensures extended[j] == available[j]
    {
    }
  }

  /**
   * The rect `Window.updateLayout()` measures against, `new Rect(0, 0, size)`: at the origin, with the
   * window's width and height.
   */
  type WindowRect = r: Rect | r.x == 0.0 && r.y == 0.0 witness ZERO

  /**
   * `Window.updateLayout()`: marks the window layout-dirty and measures it against `size`, the rect at
   * the origin with the window's width and height; being dirty, the window always runs its core.
   */
  method UpdateWindowLayout(window: UIElement, size: WindowRect, lm: ContextLayoutManager, core: (UIElement, Rect) -> Rect)
    modifies window, lm
    ensures window.layoutRect == core(window, size) && window.lastLayoutRect == old(window.layoutRect)
    ensures window.State() == Measured(old(window.State()).(isLayoutDirty := true), size, core(window, size))
    ensures lm.renderList == old(lm.renderList) +
      (if MeasureQueuesRender(old(window.State()).(isLayoutDirty := true), size, core(window, size)) then {window} else {})
    ensures lm.arrangeList == old(lm.arrangeList) && lm.isInactive == old(lm.isInactive)
  {
    window.isLayoutDirty := true;
    var _ := window.Measure(size, lm, core);
  }

  /**
   * `ContextLayoutManager.updateLayout()` for the main window `window`, whose `updateLayout()`
   * measures against `windowSize`. `order` is the order in which the rearrange `HashSet` is walked, which the source
   * leaves unspecified: each queued element once.
   */
  method UpdateLayout(lm: ContextLayoutManager, window: UIElement, windowSize: WindowRect, order: seq<UIElement>,
                      core: (UIElement, Rect) -> Rect)
    returns (r: LayoutPass)
    requires (forall x :: x in order <==> x in lm.arrangeList) && Distinct(order)
    modifies lm, window, lm.arrangeList
    ensures lm.arrangeList == old(lm.arrangeList) && lm.isInactive == old(lm.isInactive)
    ensures old(lm.renderList) <= lm.renderList <= old(lm.renderList) + old(lm.arrangeList) + {window}
    ensures old(window.isLayoutDirty) ==>
      r == WindowRelaid &&
      window.State() == Measured(old(window.State()).(isLayoutDirty := true), windowSize, core(window, windowSize)) &&
      forall x :: x in order && x != window ==> x.State() == old(x.State())
    ensures !old(window.isLayoutDirty) ==> (r == WalkDiverges <==> old(TopLevelComponents(order)).None?)
    ensures r == WalkDiverges ==> forall x :: x in order ==> x.State() == old(x.State())
    ensures r.MeasuredAll? ==>
      !old(window.isLayoutDirty) && Some(r.top) == old(TopLevelComponents(order)) && |r.available| == |r.top|
    ensures r.MeasuredAll? ==>
      var top := old(TopLevelComponents(order)).value;
      (forall j :: 0 <= j < |top| ==> top[j] in order && old(allocated(top[j]))) &&
      forall j :: 0 <= j < |top| && j < |r.available| ==>
        (r.available[j].None? <==> old(top[j].isUpdatingLayout)) &&
        (r.available[j].None? ==> top[j].State() == old(top[j].State())) &&
        (r.available[j].Some? ==>
          top[j].State() == Measured(old(top[j].State()), r.available[j].value, core(top[j], r.available[j].value))) &&
        (r.available[j].Some? && (window !in order || old(top[j].parent).Some?) ==>
          r.available[j].value == old(AvailableRect(top[j], window)))
    ensures r.MeasuredAll? ==> var top := old(TopLevelComponents(order)).value;
      forall x :: x in order && x !in top ==> x.State() == old(x.State())
    ensures r == WindowRelaid ==>
      var queued := MeasureQueuesRender(old(window.State()).(isLayoutDirty := true), windowSize, core(window, windowSize));
      lm.renderList == old(lm.renderList) + (if queued then {window} else {})
    ensures r.MeasuredAll? ==> var top := old(TopLevelComponents(order)).value;
      lm.renderList == old(lm.renderList) + Queued(top, old(States(top)), r.available, core)
    ensures r == WalkDiverges ==> lm.renderList == old(lm.renderList)
  {
    if window.isLayoutDirty {
      UpdateWindowLayout(window, windowSize, lm, core);
      return WindowRelaid;
    }
    r := MeasureTopLevel(lm, window, order, core);
  }

  /** `updateLayout` when the window is not layout-dirty: collapse the rearrange set, then measure. */
  method MeasureTopLevel(lm: ContextLayoutManager, window: UIElement, order: seq<UIElement>, core: (UIElement, Rect) -> Rect)
    returns (r: LayoutPass)
    requires (forall x :: x in order <==> x in lm.arrangeList) && Distinct(order)
    modifies lm, lm.arrangeList
    ensures !r.WindowRelaid?
    ensures lm.arrangeList == old(lm.arrangeList) && lm.isInactive == old(lm.isInactive)
    ensures old(lm.renderList) <= lm.renderList <= old(lm.renderList) + old(lm.arrangeList)
    ensures r == WalkDiverges <==> old(TopLevelComponents(order)).None?
    ensures r == WalkDiverges ==> forall x :: x in order ==> x.State() == old(x.State())
    ensures r.MeasuredAll? ==> Some(r.top) == old(TopLevelComponents(order)) && |r.available| == |r.top|
    ensures r.MeasuredAll? ==>
      var top := old(TopLevelComponents(order)).value;
      (forall j :: 0 <= j < |top| ==> top[j] in order && old(allocated(top[j]))) &&
      forall j :: 0 <= j < |top| && j < |r.available| ==>
        (r.available[j].None? <==> old(top[j].isUpdatingLayout)) &&
        (r.available[j].None? ==> top[j].State() == old(top[j].State())) &&
        (r.available[j].Some? ==>
          top[j].State() == Measured(old(top[j].State()), r.available[j].value, core(top[j], r.available[j].value))) &&
        (r.available[j].Some? && (window !in order || old(top[j].parent).Some?) ==>
          r.available[j].value == old(AvailableRect(top[j], window)))
    ensures r.MeasuredAll? ==> var top := old(TopLevelComponents(order)).value;
      forall x :: x in order && x !in top ==> x.State() == old(x.State())
    ensures r.MeasuredAll? ==> var top := old(TopLevelComponents(order)).value;
      lm.renderList == old(lm.renderList) + Queued(top, old(States(top)), r.available, core)
    ensures r == WalkDiverges ==> lm.renderList == old(lm.renderList)
  {
    var arrange := GetTopLevelComponents(order);
    if arrange.None? {
      return WalkDiverges;
    }
    TopLevelComponentsAreTopLevel(order);
    ghost var before := TopLevelComponents(order);
    assert window !in order <==> window !in lm.arrangeList;
    var available := MeasureEach(lm, window, arrange.value, lm.arrangeList, core);
    r := MeasuredAll(arrange.value, available);
    assert Some(r.top) == before;
  }

  /** The loop of `updateLayout` over the top-level elements `top` of the rearrange set `s`. */
  method MeasureEach(lm: ContextLayoutManager, window: UIElement, top: seq<UIElement>, s: set<UIElement>,
                     core: (UIElement, Rect) -> Rect)
    returns (available: seq<Option<Rect>>)
    requires s == lm.arrangeList
    requires Distinct(top) && forall x :: x in top ==> x in s && !ParentIn(x, s)
    modifies lm, set x | x in top
    ensures lm.arrangeList == old(lm.arrangeList) && lm.isInactive == old(lm.isInactive)
    ensures old(lm.renderList) <= lm.renderList <= old(lm.renderList) + s
    ensures |available| == |top|
    ensures forall j :: 0 <= j < |top| ==>
      (available[j].None? <==> old(top[j].isUpdatingLayout)) &&
      (available[j].None? ==> top[j].State() == old(top[j].State())) &&
      (available[j].Some? ==> top[j].State() == Measured(old(top[j].State()), available[j].value, core(top[j], available[j].value))) &&
      (available[j].Some? && (window !in s || old(top[j].parent).Some?) ==> available[j].value == old(AvailableRect(top[j], window)))
    ensures lm.renderList == old(lm.renderList) + Queued(top, old(States(top)), available, core)
  {
    ghost var before := States(top);
    available := [];
    var k := 0;
    while k < |top|
      invariant 0 <= k <= |top| && |available| == k
      invariant lm.arrangeList == old(lm.arrangeList) && lm.isInactive == old(lm.isInactive)
      invariant old(lm.renderList) <= lm.renderList <= old(lm.renderList) + s
      invariant forall j :: k <= j < |top| ==> top[j].State() == before[j]
      invariant lm.renderList == old(lm.renderList) + Queued(top, before, available, core)
      invariant forall j :: 0 <= j < k ==>
        (available[j].None? <==> old(top[j].isUpdatingLayout)) &&
        (available[j].None? ==> top[j].State() == old(top[j].State())) &&
        (available[j].Some? ==> top[j].State() == Measured(old(top[j].State()), available[j].value, core(top[j], available[j].value))) &&
        (available[j].Some? && (window !in s || old(top[j].parent).Some?) ==> available[j].value == old(AvailableRect(top[j], window)))
    {
      var a := MeasureUnlessUpdating(lm, window, top[k], core);
      QueuedSnoc(top, before, available, a, core);
      available := available + [a];
      k := k + 1;
    }
  }

  /** One turn of `updateLayout`'s loop: `element` is skipped while updating, else measured. */
  method MeasureUnlessUpdating(lm: ContextLayoutManager, window: UIElement, element: UIElement,
                               core: (UIElement, Rect) -> Rect)
    returns (a: Option<Rect>)
    modifies lm, element
    ensures lm.arrangeList == old(lm.arrangeList) && lm.isInactive == old(lm.isInactive)
    ensures a.None? <==> old(element.isUpdatingLayout)
    ensures a.Some? ==> a.value == old(AvailableRect(element, window))
    ensures element.State() == TurnOutcome(old(element.State()), element, a, core)
    ensures lm.renderList == old(lm.renderList) + (if Requeues(old(element.State()), element, a, core) then {element} else {})
  {
    if element.isUpdatingLayout {
      return None;
    }
    var rect := AvailableRect(element, window);
    var _ := element.Measure(rect, lm, core);
    return Some(rect);
  }

}
