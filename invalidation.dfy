/**
 * The combined effect of a run of `invalidateLayout`/`invalidateRender` calls on a group of
 * elements. Each call only ever sets a dirty flag (and queues the element), so what a run does is
 * determined by the sets of elements it asked to re-lay-out and to re-render, whatever the order and
 * however often each was asked.
 */
module Invalidation {
  import opened Layout

  /** The elements a run of calls asked to invalidate the layout of, and the render of. */
  datatype Effects = Effects(layout: set<UIElement>, render: set<UIElement>)

  const NO_EFFECTS: Effects := Effects({}, {})

  function Union(a: Effects, b: Effects): Effects {
    Effects(a.layout + b.layout, a.render + b.render)
  }

  /** An element asked to invalidate its layout (`layout`) and/or its render (`render`). */
  function Invalidate(s: ElementState, layout: bool, render: bool): ElementState {
    s.(isLayoutDirty := s.isLayoutDirty || (layout && !s.isUpdatingLayout), isRenderDirty := s.isRenderDirty || render)
  }

  /** The element's three invalidation methods are instances of `Invalidate`. */
  lemma InvalidateCoversMethods(s: ElementState)
    ensures LayoutInvalidated(s) == Invalidate(s, true, false)
    ensures RenderInvalidated(s) == Invalidate(s, false, true)
    ensures LayoutInvalidated(RenderInvalidated(s)) == Invalidate(s, true, true)
  {
  }

  /** Two invalidations of one element amount to one asking for both; asking for nothing is nothing. */
  lemma InvalidateComposes(s: ElementState, a: bool, b: bool, c: bool, d: bool)
    ensures Invalidate(Invalidate(s, a, b), c, d) == Invalidate(s, a || c, b || d)
    ensures Invalidate(s, false, false) == s
  {
  }

  /** The states of the elements of `scope`. */
  function Snap(scope: set<UIElement>): (m: map<UIElement, ElementState>)
    reads scope
    ensures m.Keys == scope
  {
    map x | x in scope :: x.State()
  }

  /** The elements a run newly puts in the rearrange queue: asked, not yet dirty, not mid-measure. */
  function LayoutQueued(m: map<UIElement, ElementState>, fx: Effects): set<UIElement>
    requires fx.layout <= m.Keys
  {
    set x | x in fx.layout && !m[x].isLayoutDirty && !m[x].isUpdatingLayout
  }

  /** The elements a run newly puts in the render queue: asked and not yet render-dirty. */
  function RenderQueued(m: map<UIElement, ElementState>, fx: Effects): set<UIElement>
    requires fx.render <= m.Keys
  {
    set x | x in fx.render && !m[x].isRenderDirty
  }

  /**
   * A run with effects `fx` took the elements of `scope` from states `m0` to `m1` and the manager's
   * queues from `a0`/`r0` to `a1`/`r1`.
   */
  predicate Step(scope: set<UIElement>, m0: map<UIElement, ElementState>, a0: set<UIElement>, r0: set<UIElement>,
                 fx: Effects, m1: map<UIElement, ElementState>, a1: set<UIElement>, r1: set<UIElement>)
  {
    m0.Keys == scope && m1.Keys == scope && fx.layout <= scope && fx.render <= scope &&
    (forall x :: x in scope ==> m1[x] == Invalidate(m0[x], x in fx.layout, x in fx.render)) &&
    a1 == a0 + LayoutQueued(m0, fx) && r1 == r0 + RenderQueued(m0, fx)
  }

  /** A run that asks nothing changes nothing. */
  lemma NoStep(scope: set<UIElement>, m: map<UIElement, ElementState>, a: set<UIElement>, r: set<UIElement>)
    requires m.Keys == scope
    ensures Step(scope, m, a, r, NO_EFFECTS, m, a, r)
  {
    assert LayoutQueued(m, NO_EFFECTS) == {};
    assert RenderQueued(m, NO_EFFECTS) == {};
  }

  /** One call on one element `e` of the scope, described the way the element's methods describe it. */
  lemma SingleStep(scope: set<UIElement>, m0: map<UIElement, ElementState>, a0: set<UIElement>, r0: set<UIElement>,
                   e: UIElement, layout: bool, render: bool,
                   m1: map<UIElement, ElementState>, a1: set<UIElement>, r1: set<UIElement>)
    requires m0.Keys == scope && m1.Keys == scope && e in scope
    requires m1[e] == Invalidate(m0[e], layout, render)
    requires forall x :: x in scope && x != e ==> m1[x] == m0[x]
    requires a1 == a0 + (if layout && !m0[e].isLayoutDirty && !m0[e].isUpdatingLayout then {e} else {})
    requires r1 == r0 + (if render && !m0[e].isRenderDirty then {e} else {})
    ensures Step(scope, m0, a0, r0, Effects(if layout then {e} else {}, if render then {e} else {}), m1, a1, r1)
  {
    var fx := Effects(if layout then {e} else {}, if render then {e} else {});
    assert LayoutQueued(m0, fx) == (if layout && !m0[e].isLayoutDirty && !m0[e].isUpdatingLayout then {e} else {});
    assert RenderQueued(m0, fx) == (if render && !m0[e].isRenderDirty then {e} else {});
  }

  /** Two runs one after the other are one run asking for both. */
  lemma StepCompose(scope: set<UIElement>,
                    m0: map<UIElement, ElementState>, a0: set<UIElement>, r0: set<UIElement>, f1: Effects,
                    m1: map<UIElement, ElementState>, a1: set<UIElement>, r1: set<UIElement>, f2: Effects,
                    m2: map<UIElement, ElementState>, a2: set<UIElement>, r2: set<UIElement>)
    requires Step(scope, m0, a0, r0, f1, m1, a1, r1)
    requires Step(scope, m1, a1, r1, f2, m2, a2, r2)
    ensures Step(scope, m0, a0, r0, Union(f1, f2), m2, a2, r2)
  {
    var u := Union(f1, f2);
    forall x | x in scope
      ensures m2[x] == Invalidate(m0[x], x in u.layout, x in u.render)
    {
      InvalidateComposes(m0[x], x in f1.layout, x in f1.render, x in f2.layout, x in f2.render);
    }
    assert a2 == a0 + LayoutQueued(m0, u) by {
      forall x | x in LayoutQueued(m1, f2) && x !in a1 ensures x in LayoutQueued(m0, u) {
        assert x !in LayoutQueued(m0, f1);
      }
      forall x | x in LayoutQueued(m0, u) ensures x in a2 {
        if x !in f1.layout {
          assert m1[x].isLayoutDirty == m0[x].isLayoutDirty;
        }
      }
    }
    assert r2 == r0 + RenderQueued(m0, u) by {
      forall x | x in RenderQueued(m1, f2) && x !in r1 ensures x in RenderQueued(m0, u) {
        assert x !in RenderQueued(m0, f1);
      }
      forall x | x in RenderQueued(m0, u) ensures x in r2 {
        if x !in f1.render {
          assert m1[x].isRenderDirty == m0[x].isRenderDirty;
        }
      }
    }
  }

  /** A run keeps every dirty element of the scope in the matching queue. */
  lemma StepKeepsTracked(scope: set<UIElement>, m0: map<UIElement, ElementState>, a0: set<UIElement>, r0: set<UIElement>,
                         fx: Effects, m1: map<UIElement, ElementState>, a1: set<UIElement>, r1: set<UIElement>)
    requires Step(scope, m0, a0, r0, fx, m1, a1, r1)
    requires forall x :: x in scope ==> (m0[x].isLayoutDirty ==> x in a0) && (m0[x].isRenderDirty ==> x in r0)
    ensures forall x :: x in scope ==> (m1[x].isLayoutDirty ==> x in a1) && (m1[x].isRenderDirty ==> x in r1)
    ensures a0 <= a1 && r0 <= r1
  {
    forall x | x in scope
      ensures (m1[x].isLayoutDirty ==> x in a1) && (m1[x].isRenderDirty ==> x in r1)
    {
      if m1[x].isLayoutDirty && !m0[x].isLayoutDirty {
        assert x in LayoutQueued(m0, fx);
      }
      if m1[x].isRenderDirty && !m0[x].isRenderDirty {
        assert x in RenderQueued(m0, fx);
      }
    }
  }

  /** A run only ever sets dirty flags: measuring state, rects and parents are untouched. */
  lemma StepOnlySetsFlags(scope: set<UIElement>, m0: map<UIElement, ElementState>, a0: set<UIElement>, r0: set<UIElement>,
                          fx: Effects, m1: map<UIElement, ElementState>, a1: set<UIElement>, r1: set<UIElement>, x: UIElement)
    requires Step(scope, m0, a0, r0, fx, m1, a1, r1) && x in scope
    ensures m1[x] == m0[x].(isLayoutDirty := m1[x].isLayoutDirty, isRenderDirty := m1[x].isRenderDirty)
    ensures (m0[x].isLayoutDirty ==> m1[x].isLayoutDirty) && (m0[x].isRenderDirty ==> m1[x].isRenderDirty)
    ensures m1[x].isRenderDirty <==> m0[x].isRenderDirty || x in fx.render
    ensures m1[x].isLayoutDirty <==> m0[x].isLayoutDirty || (x in fx.layout && !m0[x].isUpdatingLayout)
  {
  }
}
