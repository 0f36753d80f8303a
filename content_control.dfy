/**
 * `ContentControl`: a control with one piece of content, held in its `CONTENT` property. Setting the
 * content goes through `setValue`, so the change callback `onContentChanged` asks for the invalidations;
 * measuring the control measures its content element first.
 *
 * The inherited `measureCoreLayout` (of `Control`) is a supplied function `base` of the available rect,
 * and the content element's own `measureCoreLayout` the supplied `core`, as in `Layout`.
 */
module ContentControl {
  import opened Wrappers
  import opened JavaLang
  import opened ClassInheritance
  import opened Properties
  import opened FrameworkPropertyMeta
  import opened Framework
  import opened Events
  import opened Geometry
  import opened Layout
  import opened Invalidation
  import opened Elements

  /** The value `setContent(element)` stores: the element, or null. */
  function ContentValue(child: Option<UIElement>): (v: Value)
    ensures child.None? <==> v == Null
    ensures ElementSet(v) == if child.Some? then {child.value} else {}
  {
    if child.Some? then ElementValue(child.value) else Null
  }

  /**
   * What `getContent()` makes of the stored value: null is no content, an element is the content, and
   * anything else fails the cast to `UIElement` at the call.
   */
  function ContentOf(v: Value): (r: Result<Option<UIElement>, UiError>)
    ensures r == Ok(None) <==> v == Null
    ensures r.Ok? && r.value.Some? <==> ElementOf(v).Some?
    ensures r.Ok? && r.value.Some? ==> r.value == ElementOf(v)
    ensures r.Err? ==> r.error == ClassCast
  {
    if v == Null then Ok(None)
    else if ElementOf(v).Some? then Ok(ElementOf(v))
    else Err(ClassCast)
  }

  /** A content that was set is the content that is read back: `getContent()` after `setContent(x)` is `x`. */
  lemma ContentRoundTrip(child: Option<UIElement>)
    ensures ContentOf(ContentValue(child)) == Ok(child)
  {
    if child.Some? {
      ElementOfElementValue(child.value);
    }
  }

  /** Storing an element or null in `CONTENT` (an `Object` property) is never converted, coerced or rejected. */
  lemma ContentPlan(t: ClassTree, fw: Framework, c: UIElement, child: Option<UIElement>)
    requires ContentRegistered(fw, t, c.obj.cls)
    requires WellFormed(ContentValue(child))
    ensures c.obj.PlanSet(t, fw.content, ContentValue(child)) ==
            Planned(c.obj.Stored(fw.content), ContentValue(child), !fw.content.IsSuspended(c.obj))
  {
    ControlMetas();
    if child.Some? {
      EverythingIsAnObject(t, child.value.obj.cls);
      assert IsInstance(t, OBJECT, ContentValue(child));
    }
  }

  /**
   * A content change on a content control returns the old value, records nothing, and asks for
   * `ContentNotice` (`CONTENT` has no effect bits of its own), or for nothing when suspended.
   */
  lemma ContentChange(t: ClassTree, fw: Framework, c: UIElement, ov: Value, nv: Value, notify: bool)
    requires ContentRegistered(fw, t, c.obj.cls) && IsSubclassOf(t, c.obj.cls, CONTENT_CONTROL)
    ensures var plan := Planned(ov, nv, notify);
      ChangeResult(t, c, fw.content, plan) == Ok(ov) &&
      ChangeEvents(t, c, fw.content, plan) == [] &&
      ChangeEffects(t, fw, c, fw.content, plan) == (if notify then ContentNotice(c, nv) else NO_EFFECTS)
  {
    var plan := Planned(ov, nv, notify);
    ControlMetas();
    assert CallbackFor(t, c, fw.content) == Some(CONTENT_CHANGED);
    assert ChangeFailure(t, c, fw.content, plan) == None;
    RouteEffectsSets(CONTENT_META, c, c.parent, SizeBypassed(fw, c, fw.content));
    assert Routing(t, fw, c, fw.content, c.parent) == NO_EFFECTS;
    if notify {
      assert ChangeEffects(t, fw, c, fw.content, plan) == Union(ContentNotice(c, nv), NO_EFFECTS);
    }
  }

  /**
   * `setContent(element)`: `setValue(CONTENT, element)`. The old value is dropped and the callback asks
   * the control to re-lay-out and re-render and a new element content to re-lay-out; the new content's
   * parent is not set, and the old content is not touched.
   */
  method SetContent(t: ClassTree, fw: Framework, c: UIElement, child: Option<UIElement>, lm: ContextLayoutManager,
                    trace: Trace, ghost scope: set<UIElement>)
    requires ContentRegistered(fw, t, c.obj.cls) && IsSubclassOf(t, c.obj.cls, CONTENT_CONTROL)
    requires WellFormed(ContentValue(child))
    requires NoticeScope(c, ContentValue(child)) <= scope
    modifies c.obj, scope, lm, trace
    ensures c.obj.propertyMap == old(c.obj.propertyMap)[fw.content := ContentValue(child)]
    ensures trace.events == old(trace.events)
    ensures Step(scope, old(Snap(scope)), old(lm.arrangeList), old(lm.renderList),
                 if fw.content.IsSuspended(c.obj) then NO_EFFECTS else ContentNotice(c, ContentValue(child)),
                 Snap(scope), lm.arrangeList, lm.renderList)
    ensures lm.isInactive == old(lm.isInactive)
  {
    var v := ContentValue(child);
    ContentPlan(t, fw, c, child);
    var plan := Planned(c.obj.Stored(fw.content), v, !fw.content.IsSuspended(c.obj));
    ContentChange(t, fw, c, plan.oldValue, v, plan.notify);
    var _ := Commit(t, fw, c, fw.content, plan, lm, trace, scope);
  }

  /**
   * `getContent()`: `getValue(CONTENT)`, which stores the null default when nothing is stored, cast to
   * `UIElement`.
   */
  method GetContent(t: ClassTree, fw: Framework, c: UIElement)
    returns (r: Result<Option<UIElement>, UiError>)
    requires ContentRegistered(fw, t, c.obj.cls) && IsSubclassOf(t, c.obj.cls, CONTENT_CONTROL)
    modifies c.obj
    ensures r == ContentOf(old(c.obj.Stored(fw.content)))
    ensures c.obj.propertyMap == old(c.obj.propertyMap)[fw.content := old(c.obj.Stored(fw.content))]
  {
    ControlMetas();
    var g := c.obj.GetValue(t, fw.content);
    assert g.Ok?;
    r := ContentOf(g.value);
  }

  /** The rect the inherited `measureCoreLayout` is given: the available rect, widened by the content's `measure` result. */
  function BaseInput(rect: Rect, measured: Option<Rect>): (r: Rect)
    ensures measured.None? ==> r == rect
    ensures r.w >= rect.w && r.h >= rect.h && r.x <= rect.x && r.y <= rect.y
    ensures measured.Some? ==> r.w >= measured.value.w && r.h >= measured.value.h
  {
    if measured.Some? then Max(rect, measured.value) else rect
  }

  /** `child.measure(rect)` when there is a child, returning its `layoutRect`. */
  method MeasureChild(child: Option<UIElement>, rect: Rect, lm: ContextLayoutManager, core: (UIElement, Rect) -> Rect)
    returns (measured: Option<Rect>)
    modifies if child.Some? then {child.value} else {}, lm
    ensures child.None? ==> measured.None? && lm.renderList == old(lm.renderList)
    ensures child.Some? ==>
      child.value.State() == Measured(old(child.value.State()), rect, core(child.value, rect)) &&
      measured == Some(child.value.layoutRect) &&
      lm.renderList == old(lm.renderList) +
        (if MeasureQueuesRender(old(child.value.State()), rect, core(child.value, rect)) then {child.value} else {})
    ensures lm.arrangeList == old(lm.arrangeList) && lm.isInactive == old(lm.isInactive)
  {
    if child.None? {
      return None;
    }
    var m := child.value.Measure(rect, lm, core);
    measured := Some(m);
  }

  /**
   * `measureCoreLayout(rect)` of a content control: the content, if any, is measured once with the
   * available rect, and the inherited policy `base` gets the rect widened to that measure's result.
   * A content that is not an element fails the cast before anything is measured.
   */
  method ContentCore(t: ClassTree, fw: Framework, c: UIElement, rect: Rect, lm: ContextLayoutManager,
                     core: (UIElement, Rect) -> Rect, base: Rect -> Rect) returns (r: Result<Rect, UiError>)
    requires ContentRegistered(fw, t, c.obj.cls) && IsSubclassOf(t, c.obj.cls, CONTENT_CONTROL)
    modifies c.obj, ElementSet(c.obj.Stored(fw.content)), lm
    ensures c.obj.propertyMap == old(c.obj.propertyMap)[fw.content := old(c.obj.Stored(fw.content))]
    ensures ContentOf(old(c.obj.Stored(fw.content))).Err? ==>
      r == Err(ClassCast) && lm.renderList == old(lm.renderList)
    ensures old(c.obj.Stored(fw.content)) == Null ==>
      r == Ok(base(rect)) && lm.renderList == old(lm.renderList)
    ensures ElementOf(old(c.obj.Stored(fw.content))).Some? ==>
      var x := ElementOf(old(c.obj.Stored(fw.content))).value;
      var s := Measured(old(x.State()), rect, core(x, rect));
      x.State() == s && r == Ok(base(BaseInput(rect, Some(s.layoutRect)))) &&
      lm.renderList == old(lm.renderList) + (if MeasureQueuesRender(old(x.State()), rect, core(x, rect)) then {x} else {})
    ensures lm.arrangeList == old(lm.arrangeList) && lm.isInactive == old(lm.isInactive)
  {
    var content := GetContent(t, fw, c);
    if content.Err? {
      return Err(content.error);
    }
    var measured := MeasureChild(content.value, rect, lm, core);
    r := Ok(base(BaseInput(rect, measured)));
  }
}
