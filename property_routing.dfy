/**
 * What `FrameworkElement.onPropertyChanged` asks for, property by property, once the framework's
 * descriptors are registered: the metadata it consults is the one resolved for the element's runtime
 * class, so the same property routes differently on a `FrameworkElement` and on a bare `UIElement`.
 */
module PropertyRouting {
  import opened Wrappers
  import opened JavaLang
  import opened Properties
  import opened FrameworkPropertyMeta
  import opened Framework
  import opened Layout
  import opened Invalidation
  import opened Elements

  /**
   * `IS_MOUSE_OVER` is render-affecting on a `FrameworkElement`: the element is asked to re-render and
   * to re-lay-out, and nothing else. A bare `UIElement` routes nothing.
   */
  lemma MouseOverRouting(t: ClassTree, fw: Framework, e: UIElement)
    requires Registered(fw)
    ensures Routing(t, fw, e, fw.isMouseOver, e.parent) ==
            if IsSubclassOf(t, e.obj.cls, FRAMEWORK_ELEMENT) then Effects({e}, {e}) else NO_EFFECTS
  {
    MouseOverResolves(fw, t, e.obj.cls);
    if IsSubclassOf(t, e.obj.cls, FRAMEWORK_ELEMENT) {
      RouteEffectsSets(MOUSE_OVER_FE_META, e, e.parent, SizeBypassed(fw, e, fw.isMouseOver));
    }
  }

  /** `MARGIN` is layout-affecting on a `FrameworkElement`: only the element's own layout, whatever the bypass. */
  lemma MarginRouting(t: ClassTree, fw: Framework, e: UIElement)
    requires Registered(fw)
    ensures Routing(t, fw, e, fw.margin, e.parent) ==
            if IsSubclassOf(t, e.obj.cls, FRAMEWORK_ELEMENT) then Effects({e}, {}) else NO_EFFECTS
  {
    MarginResolves(fw, t, e.obj.cls);
    DescriptorsDistinct(fw);
    assert !SizeBypassed(fw, e, fw.margin) by {
      assert Descriptors(fw)[1] != Descriptors(fw)[4] && Descriptors(fw)[1] != Descriptors(fw)[7];
    }
    if IsSubclassOf(t, e.obj.cls, FRAMEWORK_ELEMENT) {
      RouteEffectsSets(MARGIN_FE_META, e, e.parent, false);
    }
  }

  /**
   * The alignments and the six size properties ask a `FrameworkElement` to re-lay-out itself, except
   * that `WIDTH` and `HEIGHT` ask nothing of an element that bypasses the measurement policies.
   */
  lemma LayoutPropertyRouting(t: ClassTree, fw: Framework, e: UIElement, k: nat)
    requires Registered(fw) && 2 <= k < 10
    ensures Routing(t, fw, e, Descriptors(fw)[k], e.parent) ==
            if !IsSubclassOf(t, e.obj.cls, FRAMEWORK_ELEMENT) || (e.bypassMeasurementPolicies && (k == 4 || k == 7))
            then NO_EFFECTS else Effects({e}, {})
  {
    var p := Descriptors(fw)[k];
    RegisteredMetaEverywhere(fw, t, k, e.obj.cls);
    DescriptorsDistinct(fw);
    assert SizeBypassed(fw, e, p) <==> e.bypassMeasurementPolicies && (k == 4 || k == 7) by {
      assert fw.width == Descriptors(fw)[4] && fw.height == Descriptors(fw)[7];
    }
    if IsSubclassOf(t, e.obj.cls, FRAMEWORK_ELEMENT) {
      RouteEffectsSets(REGISTRATIONS[k].meta, e, e.parent, SizeBypassed(fw, e, p));
    }
  }

  /** `CHILDREN` and `CONTENT` carry no effect bits: their changes route nothing beyond their callbacks. */
  lemma ControlPropertyRouting(t: ClassTree, fw: Framework, e: UIElement, parent: Option<UIElement>)
    requires Registered(fw)
    ensures Routing(t, fw, e, fw.children, parent) == NO_EFFECTS
    ensures Routing(t, fw, e, fw.content, parent) == NO_EFFECTS
  {
    ControlPropertiesResolve(fw, t, e.obj.cls);
    RouteEffectsSets(fw.children.MetaFor(t, e.obj.cls), e, parent, SizeBypassed(fw, e, fw.children));
    RouteEffectsSets(fw.content.MetaFor(t, e.obj.cls), e, parent, SizeBypassed(fw, e, fw.content));
  }
}
