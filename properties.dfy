/**
 * The dependency-property system: descriptors registered per (owner class, name), per-class
 * metadata resolved along the instance's class chain, and the per-object value store.
 */
module Properties {
  import opened Wrappers
  import opened JavaLang
  import opened ClassUtils
  import opened ClassInheritance

  /** A `PropertyChangedCallback`, named so that the element layer can tell the framework's own apart. */
  datatype ChangeCallback = ChangeCallback(id: nat)

  /** A `CoerceValueCallback`: (property, owner, proposed value) to the value to store. */
  type Coerce = (DependencyProperty, DependencyObject, Value) -> Value

  /** What a metadata's default-value field holds. */
  datatype DefaultSpec =
    | Plain(value: Value)
      /** A `Supplier`, asked each time a default is needed. */
    | Supplier(get: () -> Value)
      /** A `DefaultValueFactory`, given the property and the object; `self` is the factory object itself. */
    | Factory(provide: (DependencyProperty, DependencyObject) -> Value, self: Value)

  /**
   * `PropertyMeta`; `flags` is present exactly for a `FrameworkPropertyMeta` and holds its effect bits.
   */
  datatype PropertyMeta = PropertyMeta(
    defaultValue: DefaultSpec,
    changed: Option<ChangeCallback>,
    coerce: Option<Coerce>,
    flags: Option<bv32>)

  /** `new PropertyMeta(defaultValue, onPropertyChanged, onCoerceValue)`; the shorter constructors pass null for the rest. */
  function NewPropertyMeta(d: DefaultSpec, changed: Option<ChangeCallback>, coerce: Option<Coerce>): (m: PropertyMeta)
    ensures m.defaultValue == d && m.changed == changed && m.coerce == coerce
    ensures m.flags.None?
  {
    PropertyMeta(d, changed, coerce, None)
  }

  /** `getDefaultValue()`: null stays null, a supplier is asked, anything else is the default itself. */
  function DefaultValue(m: PropertyMeta): (r: Value)
    ensures m.defaultValue == Plain(Null) ==> r == Null
    ensures m.defaultValue.Supplier? ==> r == m.defaultValue.get()
    ensures m.defaultValue.Plain? ==> r == m.defaultValue.value
    ensures m.defaultValue.Factory? ==> r == m.defaultValue.self
  {
    match m.defaultValue
    case Plain(v) => v
    case Supplier(get) => get()
    case Factory(_, self) => self
  }

  /** `getDefaultValue(property, object)`: a factory is given both; otherwise as `getDefaultValue()`. */
  function DefaultValueFor(m: PropertyMeta, p: DependencyProperty, o: DependencyObject): (r: Value)
    ensures m.defaultValue.Factory? ==> r == m.defaultValue.provide(p, o)
    ensures !m.defaultValue.Factory? ==> r == DefaultValue(m)
  {
    if m.defaultValue.Factory? then m.defaultValue.provide(p, o) else DefaultValue(m)
  }

  /** `PropertyMeta.Builder`: collects the three fields, all null at first. */
  class Builder {
    var defaultValue: DefaultSpec
    var changed: Option<ChangeCallback>
    var coerce: Option<Coerce>

    constructor()
      ensures defaultValue == Plain(Null) && changed.None? && coerce.None?
    {
      defaultValue := Plain(Null);
      changed := None;
      coerce := None;
    }

    method SetDefaultValue(d: DefaultSpec) returns (self: Builder)
      modifies this
      ensures self == this
      ensures defaultValue == d && changed == old(changed) && coerce == old(coerce)
    {
      defaultValue := d;
      self := this;
    }

    method SetPropChangedCallback(c: Option<ChangeCallback>) returns (self: Builder)
      modifies this
      ensures self == this
      ensures changed == c && defaultValue == old(defaultValue) && coerce == old(coerce)
    {
      changed := c;
      self := this;
    }

    method SetCoerceValueCallback(c: Option<Coerce>) returns (self: Builder)
      modifies this
      ensures self == this
      ensures coerce == c && defaultValue == old(defaultValue) && changed == old(changed)
    {
      coerce := c;
      self := this;
    }

    /** `build()`: plain metadata with exactly the collected fields. */
    method Build() returns (m: PropertyMeta)
      ensures m.defaultValue == defaultValue && m.changed == changed && m.coerce == coerce && m.flags.None?
    {
      m := NewPropertyMeta(defaultValue, changed, coerce);
    }
  }

  /** Why an operation of the property system throws. */
  datatype PropertyError =
    | AlreadyRegistered
    | DefaultRejectedByValidator
    | NotOwner
    | InvalidDefault
    | CastFailed
    | ConversionNotModelled
    | NotAssignable
    | InvalidValue
    | InvalidCoercedValue

  /**
   * `getCoerceValue(property, owner, value)`: without a coerce callback the value itself, with one the
   * callback's result; either must be assignable to the property.
   */
  function CoerceValue(m: PropertyMeta, t: ClassTree, p: DependencyProperty, o: DependencyObject, v: Value): (r: Result<Value, PropertyError>)
    ensures m.coerce.None? ==> (r.Ok? <==> p.IsValueAssignable(t, v, true)) && (r.Ok? ==> r.value == v)
    ensures m.coerce.Some? ==> (r.Ok? <==> p.IsValueAssignable(t, m.coerce.value(p, o, v), true))
    ensures m.coerce.Some? && r.Ok? ==> r.value == m.coerce.value(p, o, v)
    ensures r.Ok? ==> p.IsValueAssignable(t, r.value, true)
  {
    if m.coerce.None? then
      if p.IsValueAssignable(t, v, true) then Ok(v) else Err(InvalidValue)
    else
      var c := m.coerce.value(p, o, v);
      if p.IsValueAssignable(t, c, true) then Ok(c) else Err(InvalidCoercedValue)
  }

  /** One call of a metadata's change callback. */
  datatype CallbackCall = CallbackCall(callback: ChangeCallback, property: DependencyProperty, owner: DependencyObject, oldValue: Value, newValue: Value)

  /** `PropertyMeta.onPropertyChanged`: the callback is called iff there is one. */
  function MetaNotification(m: PropertyMeta, p: DependencyProperty, o: DependencyObject, oldValue: Value, newValue: Value): (r: Option<CallbackCall>)
    ensures r.Some? <==> m.changed.Some?
    ensures r.Some? ==> r.value == CallbackCall(m.changed.value, p, o, oldValue, newValue)
  {
    if m.changed.Some? then Some(CallbackCall(m.changed.value, p, o, oldValue, newValue)) else None
  }

  class DependencyProperty {
    const name: string
    /** The value type, always boxed. */
    const valueType: ClassId
    const ownerType: ClassId
    const defaultMeta: PropertyMeta
    const validator: Option<Value -> bool>
    /** Per-class metadata overrides; the owner type's entry is the default metadata. */
    const metaMap: ClassInheritanceMap<PropertyMeta>
    /** The objects whose change notifications for this property are suspended. */
    var suspended: set<DependencyObject>

    constructor(name: string, valueType: ClassId, ownerType: ClassId, meta: PropertyMeta, validator: Option<Value -> bool>)
      ensures this.name == name && this.valueType == valueType && this.ownerType == ownerType
      ensures this.defaultMeta == meta && this.validator == validator
      ensures fresh(metaMap) && metaMap.entries == map[ownerType := Some(meta)]
      ensures suspended == {}
    {
      this.name := name;
      this.valueType := valueType;
      this.ownerType := ownerType;
      this.defaultMeta := meta;
      this.validator := validator;
      var mm := new ClassInheritanceMap<PropertyMeta>();
      mm.Put(ownerType, Some(meta));
      this.metaMap := mm;
      this.suspended := {};
    }

    /** The metadata instances of class `c` see: the nearest override, else the default. */
    function MetaFor(t: ClassTree, c: ClassId): PropertyMeta
      reads metaMap
    {
      var m := Nearest(metaMap.entries, t, c);
      if m.Some? then m.value else defaultMeta
    }

    /** `getMeta(owner)`. */
    method GetMeta(t: ClassTree, owner: Option<DependencyObject>) returns (m: PropertyMeta)
      ensures owner.None? ==> m == defaultMeta
      ensures owner.Some? && Nearest(metaMap.entries, t, owner.value.cls).Some? ==> m == Nearest(metaMap.entries, t, owner.value.cls).value
      ensures owner.Some? && Nearest(metaMap.entries, t, owner.value.cls).None? ==> m == defaultMeta
      ensures owner.Some? ==> m == MetaFor(t, owner.value.cls)
    {
      if owner.None? {
        return defaultMeta;
      }
      var found := metaMap.Get(t, Some(owner.value.cls));
      m := if found.Some? then found.value else defaultMeta;
    }

    /** `overrideMetadata(newOwnerType, meta)`. */
    method OverrideMetadata(c: ClassId, meta: Option<PropertyMeta>)
      modifies metaMap
      ensures metaMap.entries == old(metaMap.entries)[c := meta]
    {
      metaMap.Put(c, meta);
    }

    /** `isValueAssignable(value, runCustomValidation)`. */
    predicate IsValueAssignable(t: ClassTree, v: Value, runCustom: bool)
    {
      v == Null || v == Unset ||
      (IsInstance(t, valueType, v) && (!runCustom || validator.None? || validator.value(v)))
    }

    /** `isOwnerAssignable(object)`. */
    predicate IsOwnerAssignable(t: ClassTree, o: DependencyObject) {
      IsSubclassOf(t, o.cls, ownerType)
    }

    method Suspend(o: DependencyObject)
      modifies this
      ensures suspended == old(suspended) + {o}
      ensures IsSuspended(o)
    {
      suspended := suspended + {o};
    }

    /** Unsuspending once resumes notifications however often the object was suspended. */
    method Unsuspend(o: DependencyObject)
      modifies this
      ensures suspended == old(suspended) - {o}
      ensures !IsSuspended(o)
    {
      suspended := suspended - {o};
    }

    predicate IsSuspended(o: DependencyObject)
      reads this
    {
      o in suspended
    }
  }

  /** Null and the unset marker are assignable to every property, whatever its validator says. */
  lemma NullAndUnsetAlwaysAssignable(t: ClassTree, p: DependencyProperty, run: bool)
    ensures p.IsValueAssignable(t, Null, run) && p.IsValueAssignable(t, Unset, run)
  {
  }

  /** Any other value must be of the property's type, and pass the validator when validation runs. */
  lemma AssignableValues(t: ClassTree, p: DependencyProperty, v: Value)
    requires v != Null && v != Unset
    ensures p.IsValueAssignable(t, v, false) <==> IsInstance(t, p.valueType, v)
    ensures p.IsValueAssignable(t, v, true) <==> IsInstance(t, p.valueType, v) && (p.validator.Some? ==> p.validator.value(v))
  {
  }

  /** Metadata with no override on the chain is the default metadata; otherwise the nearest override wins. */
  lemma MetaForResolution(t: ClassTree, p: DependencyProperty, c: ClassId)
    ensures (forall i :: 0 <= i < |Chain(t, c)| ==> !HasEntry(p.metaMap.entries, Chain(t, c)[i])) ==> p.MetaFor(t, c) == p.defaultMeta
    ensures forall i ::
      (0 <= i < |Chain(t, c)| && HasEntry(p.metaMap.entries, Chain(t, c)[i]) &&
       (forall j :: 0 <= j < i ==> !HasEntry(p.metaMap.entries, Chain(t, c)[j]))) ==>
        p.MetaFor(t, c) == p.metaMap.entries[Chain(t, c)[i]].value
  {
    NearestIsFirstOnChain(p.metaMap.entries, t, c);
    forall i | 0 <= i < |Chain(t, c)| && HasEntry(p.metaMap.entries, Chain(t, c)[i]) &&
      (forall j :: 0 <= j < i ==> !HasEntry(p.metaMap.entries, Chain(t, c)[j]))
      ensures p.MetaFor(t, c) == p.metaMap.entries[Chain(t, c)[i]].value
    {
      NearestIsFirstEntry(p.metaMap.entries, t, c, i);
    }
  }

  /** The names registered for one owner class; none when the class has no table yet. */
  function ClassMap(table: map<ClassId, map<string, DependencyProperty>>, owner: ClassId): map<string, DependencyProperty> {
    if owner in table then table[owner] else map[]
  }

  /** The global property table (`PROPERTY_MAP`), an explicit object here. */
  class PropertyRegistry {
    var table: map<ClassId, map<string, DependencyProperty>>

    constructor()
      ensures table == map[]
    {
      table := map[];
    }

    predicate IsRegistered(owner: ClassId, name: string)
      reads this
    {
      owner in table && name in table[owner]
    }

    /** `getProperty(ownerType, name)`: the descriptor registered under exactly that pair, or null. */
    method GetProperty(owner: ClassId, name: string) returns (r: Option<DependencyProperty>)
      ensures r.Some? <==> IsRegistered(owner, name)
      ensures r.Some? ==> r.value == table[owner][name]
    {
      if owner in table && name in table[owner] {
        return Some(table[owner][name]);
      }
      return None;
    }

    /**
     * `register(name, type, ownerType, defaultMeta, validateCallback)`. A missing metadata is replaced by
     * one holding the type's default value, which the validator must accept. The class's name table is
     * created before that check, so it may be left behind empty.
     */
    method Register(name: string, valueType: ClassId, owner: ClassId, meta: Option<PropertyMeta>, validator: Option<Value -> bool>)
      returns (r: Result<DependencyProperty, PropertyError>)
      modifies this
      ensures old(IsRegistered(owner, name)) ==> r == Err(AlreadyRegistered) && table == old(table)
      ensures !old(IsRegistered(owner, name)) && meta.None? && validator.Some? && !validator.value(GetDefaultValue(Box(valueType))) ==>
        r == Err(DefaultRejectedByValidator) &&
        table == old(table)[owner := ClassMap(old(table), owner)]
      ensures r.Ok? ==>
        !old(IsRegistered(owner, name)) && fresh(r.value) && fresh(r.value.metaMap) &&
        table == old(table)[owner := ClassMap(old(table), owner)[name := r.value]] &&
        r.value.name == name && r.value.valueType == Box(valueType) && r.value.ownerType == owner &&
        r.value.validator == validator && r.value.suspended == {} &&
        r.value.defaultMeta == (if meta.Some? then meta.value else NewPropertyMeta(Plain(GetDefaultValue(Box(valueType))), None, None)) &&
        r.value.metaMap.entries == map[owner := Some(r.value.defaultMeta)]
      ensures r.Err? ==> r == Err(AlreadyRegistered) || r == Err(DefaultRejectedByValidator)
      ensures r.Ok? <==> !old(IsRegistered(owner, name)) && (meta.Some? || validator.None? || validator.value(GetDefaultValue(Box(valueType))))
    {
      var classMap: map<string, DependencyProperty>;
      if owner !in table {
        classMap := map[];
        table := table[owner := classMap];
      } else {
        classMap := table[owner];
        if name in classMap {
          return Err(AlreadyRegistered);
        }
      }
      var boxed := Box(valueType);
      var m: PropertyMeta;
      if meta.None? {
        var def := GetDefaultValue(boxed);
        if validator.None? || validator.value(def) {
          m := NewPropertyMeta(Plain(def), None, None);
        } else {
          return Err(DefaultRejectedByValidator);
        }
      } else {
        m := meta.value;
      }
      var property := new DependencyProperty(name, boxed, owner, m, validator);
      table := table[owner := classMap[name := property]];
      return Ok(property);
    }
  }

  /** What `setValue` will do, worked out before anything is notified or stored. */
  datatype SetPlan =
    | Rejected(error: PropertyError)
      /** Notify (unless suspended) with the stored old value and the coerced new value, then store it. */
    | Planned(oldValue: Value, newValue: Value, notify: bool)

  class DependencyObject {
    /** The runtime class of the object. */
    const cls: ClassId
    var propertyMap: map<DependencyProperty, Value>

    constructor(cls: ClassId)
      ensures this.cls == cls && propertyMap == map[]
    {
      this.cls := cls;
      propertyMap := map[];
    }

    /** The raw stored value: `propertyMap.get(property)`, null when absent. */
    function Stored(p: DependencyProperty): Value
      reads this
    {
      if p in propertyMap then propertyMap[p] else Null
    }

    /** Every stored value is assignable to its property: the store's invariant. */
    predicate StoreValid(t: ClassTree)
      reads this
    {
      forall p :: p in propertyMap ==> p.IsValueAssignable(t, propertyMap[p], true)
    }

    /**
     * `getValue(property)`: the cached value, or the metadata's default, which is stored when assignable.
     */
    method GetValue(t: ClassTree, p: DependencyProperty) returns (r: Result<Value, PropertyError>)
      modifies this
      ensures !p.IsOwnerAssignable(t, this) ==> r == Err(NotOwner) && propertyMap == old(propertyMap)
      ensures p.IsOwnerAssignable(t, this) && p in old(propertyMap) ==> r == Ok(old(propertyMap)[p]) && propertyMap == old(propertyMap)
      ensures p.IsOwnerAssignable(t, this) && p !in old(propertyMap) ==>
        var d := DefaultValueFor(p.MetaFor(t, cls), p, this);
        if p.IsValueAssignable(t, d, true)
        then r == Ok(d) && propertyMap == old(propertyMap)[p := d]
        else r == Err(InvalidDefault) && propertyMap == old(propertyMap)
      ensures old(StoreValid(t)) ==> StoreValid(t)
    {
      if !p.IsOwnerAssignable(t, this) {
        return Err(NotOwner);
      }
      if p in propertyMap {
        return Ok(propertyMap[p]);
      }
      var meta := p.GetMeta(t, Some(this));
      var value := DefaultValueFor(meta, p, this);
      if p.IsValueAssignable(t, value, true) {
        propertyMap := propertyMap[p := value];
        return Ok(value);
      }
      return Err(InvalidDefault);
    }

    /**
     * The decision part of `setValue(property, value)`: for a primitive-typed property the converted
     * value is tried first and the raw value is the fallback; then the metadata coerces.
     */
    function PlanSet(t: ClassTree, p: DependencyProperty, v: Value): (r: SetPlan)
      requires WellFormed(v)
      reads this, p, p.metaMap
      ensures r.Planned? ==> r.oldValue == Stored(p)
      ensures r.Planned? ==> p.IsValueAssignable(t, r.newValue, true)
      ensures r.Planned? ==> (r.notify <==> !p.IsSuspended(this))
      ensures IsPrimitive(Unbox(p.valueType)) && ConvertPrimitiveTo(v, Unbox(p.valueType)) == CastFails ==> r == Rejected(CastFailed)
      ensures !IsPrimitive(Unbox(p.valueType)) && !p.IsValueAssignable(t, v, true) ==> r == Rejected(NotAssignable)
      ensures !IsPrimitive(Unbox(p.valueType)) && p.IsValueAssignable(t, v, true) ==>
        r == (match CoerceValue(p.MetaFor(t, cls), t, p, this, v)
              case Err(e) => Rejected(e)
              case Ok(nv) => Planned(Stored(p), nv, !p.IsSuspended(this)))
    {
      var target := Unbox(p.valueType);
      var conv := if IsPrimitive(target) then ConvertPrimitiveTo(v, target) else Converted(v);
      if conv == CastFails then Rejected(CastFailed)
      else if conv == NotModelled then Rejected(ConversionNotModelled)
      else
        var useConverted := IsPrimitive(target) && p.IsValueAssignable(t, conv.value, true);
        if useConverted || p.IsValueAssignable(t, v, true) then
          var value := if useConverted then conv.value else v;
          var meta := p.MetaFor(t, cls);
          match CoerceValue(meta, t, p, this, value)
          case Err(e) => Rejected(e)
          case Ok(nv) => Planned(Stored(p), nv, !p.IsSuspended(this))
        else Rejected(NotAssignable)
    }

    /** `propertyMap.put(property, value)`. */
    method Put(p: DependencyProperty, v: Value)
      modifies this
      ensures propertyMap == old(propertyMap)[p := v]
    {
      propertyMap := propertyMap[p := v];
    }

    /**
     * `setValue(property, value)` on a plain `DependencyObject`: returns the previously stored value
     * (null if none, never the default), and reports the change callback it fired.
     */
    method SetValue(t: ClassTree, p: DependencyProperty, v: Value) returns (r: Result<Value, PropertyError>, fired: Option<CallbackCall>)
      requires WellFormed(v)
      modifies this
      ensures old(PlanSet(t, p, v)).Rejected? ==> r == Err(old(PlanSet(t, p, v)).error) && fired.None? && propertyMap == old(propertyMap)
      ensures old(PlanSet(t, p, v)).Planned? ==>
        var plan := old(PlanSet(t, p, v));
        r == Ok(plan.oldValue) &&
        propertyMap == old(propertyMap)[p := plan.newValue] &&
        fired == (if plan.notify then MetaNotification(p.MetaFor(t, cls), p, this, plan.oldValue, plan.newValue) else None)
      ensures old(StoreValid(t)) ==> StoreValid(t)
    {
      var plan := PlanSet(t, p, v);
      if plan.Rejected? {
        return Err(plan.error), None;
      }
      fired := if plan.notify then MetaNotification(p.MetaFor(t, cls), p, this, plan.oldValue, plan.newValue) else None;
      Put(p, plan.newValue);
      r := Ok(plan.oldValue);
    }

    /**
     * `clearValue(property)`: notifies with the unset marker as the new value (suspension is not
     * consulted, nor is the owner type checked), stores the marker and returns the old stored value.
     */
    method ClearValue(t: ClassTree, p: DependencyProperty) returns (r: Value, fired: Option<CallbackCall>)
      modifies this
      ensures r == old(Stored(p))
      ensures propertyMap == old(propertyMap)[p := Unset]
      ensures fired == MetaNotification(p.MetaFor(t, cls), p, this, r, Unset)
      ensures !HasValue(p)
      ensures old(StoreValid(t)) ==> StoreValid(t)
    {
      r := Stored(p);
      fired := MetaNotification(p.MetaFor(t, cls), p, this, r, Unset);
      Put(p, Unset);
    }

    /** `hasValue(property)`: an entry exists and is not the unset marker. */
    predicate HasValue(p: DependencyProperty)
      reads this
    {
      p in propertyMap && propertyMap[p] != Unset
    }
  }

  /** `setValue` coerces the converted value, or the raw value when the converted one is not assignable. */
  lemma SetTriesConvertedFirst(t: ClassTree, o: DependencyObject, p: DependencyProperty, v: Value)
    requires WellFormed(v) && IsPrimitive(Unbox(p.valueType))
    requires ConvertPrimitiveTo(v, Unbox(p.valueType)).Converted?
    ensures var c := ConvertPrimitiveTo(v, Unbox(p.valueType)).value;
      var plan := o.PlanSet(t, p, v);
      var meta := p.MetaFor(t, o.cls);
      (p.IsValueAssignable(t, c, true) ==>
        plan == (match CoerceValue(meta, t, p, o, c) case Err(e) => Rejected(e) case Ok(nv) => Planned(o.Stored(p), nv, !p.IsSuspended(o)))) &&
      (!p.IsValueAssignable(t, c, true) && p.IsValueAssignable(t, v, true) ==>
        plan == (match CoerceValue(meta, t, p, o, v) case Err(e) => Rejected(e) case Ok(nv) => Planned(o.Stored(p), nv, !p.IsSuspended(o)))) &&
      (!p.IsValueAssignable(t, c, true) && !p.IsValueAssignable(t, v, true) ==> plan == Rejected(NotAssignable))
  {
  }

  /** `setValue` notifies even when the new value equals the old one. */
  lemma SetNotifiesOnEqualValue(t: ClassTree, o: DependencyObject, p: DependencyProperty)
    requires !IsPrimitive(Unbox(p.valueType)) && !p.IsSuspended(o)
    requires p.MetaFor(t, o.cls).coerce.None?
    requires WellFormed(o.Stored(p)) && p.IsValueAssignable(t, o.Stored(p), true)
    ensures o.PlanSet(t, p, o.Stored(p)) == Planned(o.Stored(p), o.Stored(p), true)
  {
  }
}
