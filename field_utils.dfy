/**
 * Shared field logic of the scheduled-update type configuration: which fields
 * of the entity type to update can receive the value of a field of the
 * update bundle (destination fields), and which fields of the update bundle
 * are eligible as sources.
 */
module FieldUtils {
  import opened PhpValues

  /** The entity type of scheduled updates themselves. */
  const ScheduledUpdate: string := "scheduled_update"
  const EntityReference: string := "entity_reference"
  /** The cardinality that stands for "unlimited". */
  const Unlimited: int := -1

  /**
   * The class of a field definition object, as far as the type checks of
   * this module tell them apart: a `BaseFieldDefinition`, a bundle's
   * `BaseFieldOverride` of a base field, or a configurable field (a
   * `FieldConfig`, or a `FieldStorageConfig` for storage definitions).
   */
  datatype DefinitionKind = BaseDefinition | BaseOverride | Configurable

  /**
   * A field (storage) definition as the field API reports it. `settings` is
   * the settings array of the storage, which holds `target_type` for entity
   * reference fields.
   */
  datatype FieldDef = FieldDef(
    name: string,
    fieldType: string,
    cardinality: int,
    kind: DefinitionKind,
    readOnly: bool,
    translatable: bool,
    labelText: string,
    settings: Assoc<Value>)
  {
    /** `instanceof BaseFieldDefinition`; for storage definitions this
        coincides with `isBaseField()`. */
    const isBase: bool := kind == BaseDefinition
    /** `instanceof FieldConfig`. */
    const isConfig: bool := kind == Configurable
  }

  /** `getSetting($name)`: NULL when the setting is absent. */
  function Setting(d: FieldDef, name: string): (v: Value)
    ensures !HasKey(d.settings, StrKey(name)) ==> v == Null
  {
    match Lookup(d.settings, StrKey(name))
    case Some(v) => v
    case None => Null
  }

  /** True for an entity reference field that references scheduled updates. */
  predicate ReferencesUpdates(d: FieldDef) {
    d.fieldType == EntityReference && Setting(d, "target_type") == Str(ScheduledUpdate)
  }

  /** The field types a source field of type `t` may be copied into. */
  function MatchingFieldTypes(t: string): (r: seq<string>)
    ensures t in r
    ensures forall u :: u in r ==> u == t
  {
    [t]
  }

  /**
   * Whether `d` may be the destination of the source field `source`
   * (or of some source at all, when `source` is None).
   */
  function IsDestinationFieldCompatible(d: FieldDef, source: Option<FieldDef>): (ok: bool)
    // Read-only base fields and references to updates are never compatible.
    ensures ok ==> !(d.isBase && d.readOnly)
    ensures ok ==> !ReferencesUpdates(d)
    // Without a source, these two exclusions are the only ones.
    ensures source.None? ==> (ok <==> !(d.isBase && d.readOnly) && !ReferencesUpdates(d))
    // With a source: the same type, a cardinality that can hold the
    // source's values, and the same target type for references.
    ensures ok && source.Some? ==> d.fieldType == source.value.fieldType
    ensures ok && source.Some? ==>
      d.cardinality == Unlimited || (source.value.cardinality != Unlimited && source.value.cardinality <= d.cardinality)
    ensures ok && source.Some? && d.fieldType == EntityReference ==>
      Setting(d, "target_type") == Setting(source.value, "target_type")
  {
    if d.isBase && d.readOnly then false
    else if d.fieldType == EntityReference && Setting(d, "target_type") == Str(ScheduledUpdate) then false
    else
      match source
      case None => true
      case Some(s) =>
        if d.fieldType !in MatchingFieldTypes(s.fieldType) then false
        else if d.cardinality != Unlimited && (s.cardinality == Unlimited || s.cardinality > d.cardinality) then false
        else if d.fieldType == EntityReference && Setting(d, "target_type") != Setting(s, "target_type") then false
        else true
  }

  /** The conditions above are also sufficient: a field that passes both
      exclusions, has the source's type, can hold its values and (for a
      reference) targets the same entity type is compatible. */
  lemma CompatibleWithSource(d: FieldDef, s: FieldDef)
    requires !(d.isBase && d.readOnly) && !ReferencesUpdates(d)
    requires d.fieldType == s.fieldType
    requires d.cardinality == Unlimited || (s.cardinality != Unlimited && s.cardinality <= d.cardinality)
    requires d.fieldType == EntityReference ==> Setting(d, "target_type") == Setting(s, "target_type")
    ensures IsDestinationFieldCompatible(d, Some(s))
  {
  }

  /** The destination fields for `source`, keyed as in `fields`. */
  function DestinationFields(fields: Assoc<FieldDef>, source: Option<FieldDef>): Assoc<FieldDef> {
    Filter(fields, d => IsDestinationFieldCompatible(d, source))
  }

  /** The source fields of an update bundle: its non-base fields. */
  function SourceFields(fields: Assoc<FieldDef>): Assoc<FieldDef> {
    Filter(fields, (d: FieldDef) => !d.isBase)
  }

  /** `DestinationFields` keeps exactly the compatible fields, each under
      its own key, and its keys stay unique. */
  lemma DestinationFieldsLookup(fields: Assoc<FieldDef>, source: Option<FieldDef>, k: Key)
    requires UniqueKeys(fields)
    ensures UniqueKeys(DestinationFields(fields, source))
    ensures Lookup(DestinationFields(fields, source), k) ==
      match Lookup(fields, k)
      case Some(d) => if IsDestinationFieldCompatible(d, source) then Some(d) else None
      case None => None
  {
    FilterUnique(fields, d => IsDestinationFieldCompatible(d, source));
    FilterLookup(fields, d => IsDestinationFieldCompatible(d, source), k);
  }

  /** `SourceFields` keeps exactly the non-base fields, each under its own
      key, and its keys stay unique. */
  lemma SourceFieldsLookup(fields: Assoc<FieldDef>, k: Key)
    requires UniqueKeys(fields)
    ensures UniqueKeys(SourceFields(fields))
    ensures Lookup(SourceFields(fields), k) ==
      match Lookup(fields, k)
      case Some(d) => if !d.isBase then Some(d) else None
      case None => None
  {
    FilterUnique(fields, (d: FieldDef) => !d.isBase);
    FilterLookup(fields, (d: FieldDef) => !d.isBase, k);
  }

  /** The `i`-th entry of `fields` has a key the filtered prefix lacks. */
  lemma FreshKey<V>(fields: Assoc<V>, i: nat, p: V -> bool)
    requires UniqueKeys(fields) && i < |fields|
    ensures !HasKey(Filter(fields[..i], p), fields[i].0)
  {
    var t := Filter(fields[..i], p);
    HasKeyIndex(t, fields[i].0);
    forall j | 0 <= j < |t| ensures t[j].0 != fields[i].0 {
      assert t[j] in fields[..i];
      var m :| 0 <= m < i && fields[..i][m] == t[j];
      assert fields[m] == t[j];
    }
  }

  /** The parameter type of `getDestinationFields`: no source, or a
      `FieldConfig`; anything else is a `TypeError`. */
  predicate AcceptsSource(source: Option<FieldDef>) {
    source.None? || source.value.isConfig
  }

  /**
   * The fields of the entity type to update (`fields`, as the field manager
   * reports its storage definitions) that can receive `source`; None for
   * the `TypeError` of a source that is not a `FieldConfig`.
   */
  method GetDestinationFields(fields: Assoc<FieldDef>, source: Option<FieldDef>) returns (result: Option<Assoc<FieldDef>>)
    requires UniqueKeys(fields)
    ensures result.None? <==> !AcceptsSource(source)
    ensures result.Some? ==> result.value == DestinationFields(fields, source)
  {
    if !AcceptsSource(source) {
      return None;
    }
    var destination := [];
    var i := 0;
    while i < |fields|
      invariant 0 <= i <= |fields|
      invariant destination == Filter(fields[..i], d => IsDestinationFieldCompatible(d, source))
    {
      var (id, field) := fields[i];
      assert fields[..i + 1][..i] == fields[..i];
      if IsDestinationFieldCompatible(field, source) {
        FreshKey(fields, i, d => IsDestinationFieldCompatible(d, source));
        destination := Put(destination, id, field);
      }
      i := i + 1;
    }
    assert fields[..i] == fields;
    result := Some(destination);
  }

  /** The destination options: field id to field name. */
  function DestinationOptions(fields: Assoc<FieldDef>, source: Option<FieldDef>): Assoc<string> {
    MapValues(DestinationFields(fields, source), (d: FieldDef) => d.name)
  }

  /** Select options for the destination of `source`: field id to field name,
      one option per destination field, in the same order. */
  method GetDestinationFieldsOptions(fields: Assoc<FieldDef>, source: Option<FieldDef>) returns (result: Option<Assoc<string>>)
    requires UniqueKeys(fields)
    ensures result.None? <==> !AcceptsSource(source)
    ensures result.Some? ==> Keys(result.value) == Keys(DestinationFields(fields, source))
    ensures result.Some? ==> forall i :: 0 <= i < |result.value| ==> result.value[i].1 == DestinationFields(fields, source)[i].1.name
    ensures result.Some? ==> result.value == DestinationOptions(fields, source)
  {
    var found := GetDestinationFields(fields, source);
    if found.None? {
      return None;
    }
    var destination := found.value;
    DestinationFieldsLookup(fields, source, StrKey(""));
    var options := [];
    var i := 0;
    while i < |destination|
      invariant 0 <= i <= |destination|
      invariant options == MapValues(destination[..i], (d: FieldDef) => d.name)
    {
      var (id, field) := destination[i];
      assert !HasKey(options, id) by {
        HasKeyIndex(options, id);
        forall j | 0 <= j < i ensures options[j].0 != id {
          assert options[j].0 == destination[j].0 != destination[i].0;
        }
      }
      options := Put(options, id, field.name);
      i := i + 1;
    }
    assert destination[..i] == destination;
    result := Some(options);
  }

  /** The fields of the update bundle (`fields`, its field definitions) that
      are not base fields. */
  method GetSourceFields(fields: Assoc<FieldDef>) returns (source: Assoc<FieldDef>)
    requires UniqueKeys(fields)
    ensures source == SourceFields(fields)
  {
    source := [];
    var i := 0;
    while i < |fields|
      invariant 0 <= i <= |fields|
      invariant source == Filter(fields[..i], (d: FieldDef) => !d.isBase)
    {
      var (id, field) := fields[i];
      assert fields[..i + 1][..i] == fields[..i];
      if !field.isBase {
        FreshKey(fields, i, (d: FieldDef) => !d.isBase);
        source := Put(source, id, field);
      }
      i := i + 1;
    }
    assert fields[..i] == fields;
  }
}
