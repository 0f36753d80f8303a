/** `FrameworkPropertyMeta` and `FrameworkPropertyMetaFlags`: metadata carrying layout/render effect bits. */
module FrameworkPropertyMeta {
  import opened Wrappers
  import opened Properties

  const NONE: bv32 := 0
  const AFFECTS_LAYOUT: bv32 := 1
  const AFFECTS_PARENT_LAYOUT: bv32 := 2
  const AFFECTS_RENDER: bv32 := 4
  const INHERITS: bv32 := 8

  /** The flags the constructors without an explicit flags argument use. */
  const DEFAULT_FLAGS: bv32 := NONE

  /** `new FrameworkPropertyMeta(defaultValue, onPropertyChanged, onCoerceValue, flags)`; the shorter ones pass null. */
  function NewFrameworkMeta(d: DefaultSpec, changed: Option<ChangeCallback>, coerce: Option<Coerce>, flags: bv32): (m: PropertyMeta)
    ensures m.defaultValue == d && m.changed == changed && m.coerce == coerce
    ensures IsFrameworkMeta(m) && m.flags.value == flags
  {
    PropertyMeta(d, changed, coerce, Some(flags))
  }

  /** The constructors without a flags argument. */
  function NewFrameworkMetaNoFlags(d: DefaultSpec, changed: Option<ChangeCallback>, coerce: Option<Coerce>): (m: PropertyMeta)
    ensures m == NewFrameworkMeta(d, changed, coerce, DEFAULT_FLAGS)
    ensures !CanAffectRender(m) && !CanAffectLayout(m) && !CanAffectParentLayout(m)
  {
    NewFrameworkMeta(d, changed, coerce, DEFAULT_FLAGS)
  }

  /** `propertyMeta instanceof FrameworkPropertyMeta`. */
  predicate IsFrameworkMeta(m: PropertyMeta) {
    m.flags.Some?
  }

  predicate CanAffectRender(m: PropertyMeta)
    requires IsFrameworkMeta(m)
  {
    m.flags.value & AFFECTS_RENDER != 0
  }

  predicate CanAffectLayout(m: PropertyMeta)
    requires IsFrameworkMeta(m)
  {
    m.flags.value & AFFECTS_LAYOUT != 0
  }

  predicate CanAffectParentLayout(m: PropertyMeta)
    requires IsFrameworkMeta(m)
  {
    m.flags.value & AFFECTS_PARENT_LAYOUT != 0
  }

  /** The three queries read three distinct bits; the `INHERITS` bit bears on none of them. */
  lemma QueriesAreIndependentBits(d: DefaultSpec, ch: Option<ChangeCallback>, co: Option<Coerce>, f: bv32)
    ensures var m := NewFrameworkMeta(d, ch, co, f);
      var mi := NewFrameworkMeta(d, ch, co, f | INHERITS);
      CanAffectRender(mi) == CanAffectRender(m) && CanAffectLayout(mi) == CanAffectLayout(m) &&
      CanAffectParentLayout(mi) == CanAffectParentLayout(m)
    ensures CanAffectLayout(NewFrameworkMeta(d, ch, co, f)) <==> f & 1 == 1
    ensures CanAffectParentLayout(NewFrameworkMeta(d, ch, co, f)) <==> f & 2 == 2
    ensures CanAffectRender(NewFrameworkMeta(d, ch, co, f)) <==> f & 4 == 4
  {
  }

  /** Each flag alone switches on its own query and no other. */
  lemma SingleFlags(d: DefaultSpec, ch: Option<ChangeCallback>, co: Option<Coerce>)
    ensures var m := NewFrameworkMeta(d, ch, co, AFFECTS_LAYOUT);
      CanAffectLayout(m) && !CanAffectParentLayout(m) && !CanAffectRender(m)
    ensures var m := NewFrameworkMeta(d, ch, co, AFFECTS_PARENT_LAYOUT);
      !CanAffectLayout(m) && CanAffectParentLayout(m) && !CanAffectRender(m)
    ensures var m := NewFrameworkMeta(d, ch, co, AFFECTS_RENDER);
      !CanAffectLayout(m) && !CanAffectParentLayout(m) && CanAffectRender(m)
    ensures var m := NewFrameworkMeta(d, ch, co, INHERITS);
      !CanAffectLayout(m) && !CanAffectParentLayout(m) && !CanAffectRender(m)
  {
  }
}
