/**
 * The field manager of scheduled updates: it clones a field of the entity
 * type to update onto an update bundle (choosing a free field name), creates
 * the entity reference field through which entities embed their updates,
 * and adds an update type to the target bundles of existing reference
 * fields. Persistence is modelled by the value arrays handed to the field
 * storage: a log of created storages and created fields, and the stored
 * field configurations by id.
 */
module FieldManager {
  import opened PhpValues
  import opened FieldUtils

  /** A scheduled update type, as far as this core reads it. */
  datatype UpdateType = UpdateType(
    id: string,
    labelText: string,
    updateEntityType: string,
    runnerSettings: Value,
    updateTypesSupported: seq<string>,
    fieldMap: Assoc<Value>,
    isNew: bool)

  /** `$name . '_' . $suffix`. */
  function Suffixed(name: string, suffix: nat): string {
    name + "_" + NatToString(suffix)
  }

  /** Suffixing a name keeps its leading part. */
  lemma SuffixedKeepsPrefix(prefix: string, name: string, suffix: nat)
    ensures var n := if suffix == 0 then prefix + name else Suffixed(prefix + name, suffix);
      |n| >= |prefix| && n[..|prefix|] == prefix
  {
    var n := if suffix == 0 then prefix + name else Suffixed(prefix + name, suffix);
    assert n == prefix + (if suffix == 0 then name else name + "_" + NatToString(suffix));
  }

  /** A bound on the length of the string keys of `a`. */
  function MaxKeyLength<V>(a: Assoc<V>): (n: nat)
    ensures forall i :: 0 <= i < |a| && a[i].0.StrKey? ==> |a[i].0.s| <= n
  {
    if a == [] then 0
    else
      var rest := MaxKeyLength(a[1..]);
      var here := if a[0].0.StrKey? then |a[0].0.s| else 0;
      assert forall i :: 1 <= i < |a| ==> a[i] == a[1..][i - 1];
      if here > rest then here else rest
  }

  /** Names longer than every key of `a` are free in `a`. */
  lemma {:induction false} LongNameIsFree<V>(a: Assoc<V>, name: string)
    ensures |name| > MaxKeyLength(a) ==> !HasKey(a, StrKey(name))
  {
    HasKeyIndex(a, StrKey(name));
    if |name| > MaxKeyLength(a) {
      forall i | 0 <= i < |a| ensures a[i].0 != StrKey(name) {
        if a[i].0.StrKey? { assert |a[i].0.s| <= MaxKeyLength(a); }
      }
    }
  }

  /** The storage values of a field cloned from `d` under the name `newName`. */
  function ClonedStorageValues(d: FieldDef, newName: string): Assoc<Value> {
    [(StrKey("field_name"), Str(newName)),
     (StrKey("entity_type"), Str(ScheduledUpdate)),
     (StrKey("type"), Str(d.fieldType)),
     (StrKey("translatable"), Bool(d.translatable)),
     (StrKey("settings"), Arr(d.settings)),
     (StrKey("cardinality"), Int(d.cardinality))]
  }

  /** The field values of that clone on the bundle of `t`, before any
      source configuration is applied. */
  function ClonedFieldBase(t: UpdateType, d: FieldDef, newName: string): Assoc<Value> {
    [(StrKey("field_name"), Str(newName)),
     (StrKey("entity_type"), Str(ScheduledUpdate)),
     (StrKey("bundle"), Str(t.id)),
     (StrKey("label"), Str(d.labelText)),
     (StrKey("translatable"), Bool(false))]
  }

  /** The field values of that clone on the bundle of `t`; a source field
      configuration, when one is given, supplies the settings and label. */
  function ClonedFieldValues(t: UpdateType, d: FieldDef, newName: string, source: Option<Assoc<Value>>): Assoc<Value> {
    var values := ClonedFieldBase(t, d, newName);
    match source
    case None => values
    case Some(config) =>
      Put(Put(values, StrKey("settings"), Index(Arr(config), StrKey("settings"))), StrKey("label"), Index(Arr(config), StrKey("label")))
  }

  /** A clone lives on scheduled updates and copies the source's storage:
      type, translatability, settings and cardinality. */
  lemma ClonedStorageCopiesSource(d: FieldDef, newName: string)
    ensures var s := ClonedStorageValues(d, newName);
      && Lookup(s, StrKey("field_name")) == Some(Str(newName))
      && Lookup(s, StrKey("entity_type")) == Some(Str(ScheduledUpdate))
      && Lookup(s, StrKey("type")) == Some(Str(d.fieldType))
      && Lookup(s, StrKey("translatable")) == Some(Bool(d.translatable))
      && Lookup(s, StrKey("settings")) == Some(Arr(d.settings))
      && Lookup(s, StrKey("cardinality")) == Some(Int(d.cardinality))
  {
    var s := ClonedStorageValues(d, newName);
    LookupFirst(s, 0); LookupFirst(s, 1); LookupFirst(s, 2);
    LookupFirst(s, 3); LookupFirst(s, 4); LookupFirst(s, 5);
  }

  /** The cloned field sits on the update type's bundle, is never
      translatable, and takes its label from the source configuration when
      there is one, else from the source definition. */
  lemma ClonedFieldOnBundle(t: UpdateType, d: FieldDef, newName: string, source: Option<Assoc<Value>>)
    ensures var f := ClonedFieldValues(t, d, newName, source);
      && Lookup(f, StrKey("field_name")) == Some(Str(newName))
      && Lookup(f, StrKey("entity_type")) == Some(Str(ScheduledUpdate))
      && Lookup(f, StrKey("bundle")) == Some(Str(t.id))
      && Lookup(f, StrKey("translatable")) == Some(Bool(false))
      && Lookup(f, StrKey("label")) == Some(if source.Some? then Index(Arr(source.value), StrKey("label")) else Str(d.labelText))
      && (source.Some? ==> Lookup(f, StrKey("settings")) == Some(Index(Arr(source.value), StrKey("settings"))))
  {
    ClonedFieldBaseLookups(t, d, newName);
    var values := ClonedFieldBase(t, d, newName);
    match source
    case None =>
    case Some(config) =>
      var withSettings := Put(values, StrKey("settings"), Index(Arr(config), StrKey("settings")));
      assert Lookup(withSettings, StrKey("label")) == Lookup(values, StrKey("label"));
  }

  lemma ClonedFieldBaseLookups(t: UpdateType, d: FieldDef, newName: string)
    ensures var f := ClonedFieldBase(t, d, newName);
      && Lookup(f, StrKey("field_name")) == Some(Str(newName))
      && Lookup(f, StrKey("entity_type")) == Some(Str(ScheduledUpdate))
      && Lookup(f, StrKey("bundle")) == Some(Str(t.id))
      && Lookup(f, StrKey("label")) == Some(Str(d.labelText))
      && Lookup(f, StrKey("translatable")) == Some(Bool(false))
  {
    var f := ClonedFieldBase(t, d, newName);
    LookupFirst(f, 0); LookupFirst(f, 1); LookupFirst(f, 2);
    LookupFirst(f, 3); LookupFirst(f, 4);
  }

  /** The definitions of a new reference field with the cardinality
      normalised: choosing "unlimited" forces `cardinality_number` to -1. */
  function NormalizeCardinality(settings: Assoc<Value>): Assoc<Value> {
    if LooseEqInt(Index(Arr(settings), StrKey("cardinality")), Unlimited)
    then Put(settings, StrKey("cardinality_number"), Int(Unlimited))
    else settings
  }

  /** The storage values of the new reference field on `entityType`. */
  function ReferenceStorageValues(settings: Assoc<Value>, entityType: string): Assoc<Value> {
    StorageValuesOf(NormalizeCardinality(settings), entityType)
  }

  /** The storage values built from already normalised settings. */
  function StorageValuesOf(s: Assoc<Value>, entityType: string): Assoc<Value> {
    [(StrKey("field_name"), Index(Arr(s), StrKey("field_name"))),
     (StrKey("entity_type"), Str(entityType)),
     (StrKey("type"), Str(EntityReference)),
     (StrKey("translatable"), Bool(false)),
     (StrKey("settings"), Arr([(StrKey("target_type"), Str(ScheduledUpdate))])),
     (StrKey("cardinality"), Index(Arr(s), StrKey("cardinality_number")))]
  }

  /** The new reference field's storage lives on the entity type to update
      and references scheduled updates. */
  lemma ReferenceStorageTargetsUpdates(settings: Assoc<Value>, entityType: string)
    ensures var s := StorageValuesOf(settings, entityType);
      && Lookup(s, StrKey("entity_type")) == Some(Str(entityType))
      && Lookup(s, StrKey("type")) == Some(Str(EntityReference))
      && Lookup(s, StrKey("translatable")) == Some(Bool(false))
      && Lookup(s, StrKey("settings")) == Some(Arr([(StrKey("target_type"), Str(ScheduledUpdate))]))
  {
    var s := StorageValuesOf(settings, entityType);
    LookupFirst(s, 1); LookupFirst(s, 2); LookupFirst(s, 3); LookupFirst(s, 4);
  }

  /** Its cardinality is -1 when "unlimited" was chosen, else the number
      given. */
  lemma ReferenceStorageCardinality(settings: Assoc<Value>, entityType: string)
    ensures Lookup(ReferenceStorageValues(settings, entityType), StrKey("cardinality")) ==
      Some(if LooseEqInt(Index(Arr(settings), StrKey("cardinality")), Unlimited) then Int(Unlimited)
           else Index(Arr(settings), StrKey("cardinality_number")))
  {
    var n := NormalizeCardinality(settings);
    LookupFirst(StorageValuesOf(n, entityType), 5);
    if LooseEqInt(Index(Arr(settings), StrKey("cardinality")), Unlimited) {
      assert Lookup(n, StrKey("cardinality_number")) == Some(Int(Unlimited));
    }
  }

  /** `array_filter($new_field_settings['bundles'])`: the bundles ticked. */
  function SelectedBundles(settings: Assoc<Value>): seq<Value> {
    var bundles := Index(Arr(settings), StrKey("bundles"));
    if bundles.Arr? then Values(Filter(bundles.entries, Truthy)) else []
  }

  /** `[$type_id]`: a target bundle list holding one update type. */
  function SingleTarget(typeId: string): Value {
    Arr([(IntKey(0), Str(typeId))])
  }

  /** The field values of the new reference field on one bundle. */
  function ReferenceFieldValues(settings: Assoc<Value>, entityType: string, bundle: Value, typeId: string): Assoc<Value> {
    [(StrKey("field_name"), Index(Arr(settings), StrKey("field_name"))),
     (StrKey("entity_type"), Str(entityType)),
     (StrKey("bundle"), bundle),
     (StrKey("label"), Index(Arr(settings), StrKey("label"))),
     (StrKey("translatable"), Bool(false)),
     (StrKey("settings"), Arr([(StrKey("handler_settings"), Arr([(StrKey("target_bundles"), SingleTarget(typeId))]))]))]
  }

  /** One field per selected bundle, in order. */
  function ReferenceFields(settings: Assoc<Value>, entityType: string, typeId: string): seq<Assoc<Value>> {
    var bundles := SelectedBundles(settings);
    seq(|bundles|, i requires 0 <= i < |bundles| => ReferenceFieldValues(settings, entityType, bundles[i], typeId))
  }

  /** There is exactly one new field per truthy bundle entry, placed on that
      bundle and targeting only the new update type. */
  lemma ReferenceFieldsPerBundle(settings: Assoc<Value>, entityType: string, typeId: string, i: nat)
    requires i < |ReferenceFields(settings, entityType, typeId)|
    ensures |ReferenceFields(settings, entityType, typeId)| == |SelectedBundles(settings)|
    ensures var f := ReferenceFields(settings, entityType, typeId)[i];
      && Lookup(f, StrKey("bundle")) == Some(SelectedBundles(settings)[i])
      && Truthy(SelectedBundles(settings)[i])
      && Lookup(f, StrKey("settings")) == Some(Arr([(StrKey("handler_settings"), Arr([(StrKey("target_bundles"), SingleTarget(typeId))]))]))
  {
    var f := ReferenceFields(settings, entityType, typeId)[i];
    LookupFirst(f, 2);
    LookupFirst(f, 5);
    var bundles := Index(Arr(settings), StrKey("bundles"));
    assert bundles.Arr?;
    assert SelectedBundles(settings)[i] == Filter(bundles.entries, Truthy)[i].1;
  }

  /** How PHP 7.1 to 7.4 treat a value written through as an array: NULL and FALSE
      become an empty array, TRUE and integers are left alone with a warning,
      and a string is a fatal error. */
  datatype ArrayWrite = AsArray(entries: Assoc<Value>) | ScalarIgnored | Fatal

  function WriteAsArray(v: Value): ArrayWrite {
    match v
    case Null => AsArray([])
    case Bool(b) => if b then ScalarIgnored else AsArray([])
    case Int(_) => ScalarIgnored
    case Str(_) => Fatal
    case Arr(e) => AsArray(e)
  }

  /** TRUE and integers ignore a write through them as an array. */
  predicate IgnoresWrite(v: Value) {
    v.Int? || v == Bool(true)
  }

  /** The target bundles already listed in `handler`. */
  function Targets(handler: Value): Assoc<Value> {
    var t := Index(handler, StrKey("target_bundles"));
    if t.Arr? then t.entries else []
  }

  /** `$settings['target_bundles'][] = $type_id` on a handler settings
      value; None for a fatal error (a string written through as an array). */
  function AddTargetBundle(handler: Value, typeId: string): (r: Option<Value>)
    ensures r.None? <==> handler.Str? || Index(handler, StrKey("target_bundles")).Str?
    ensures r.Some? && (IgnoresWrite(handler) || IgnoresWrite(Index(handler, StrKey("target_bundles")))) ==> r == Some(handler)
    ensures r.Some? && !IgnoresWrite(handler) && !IgnoresWrite(Index(handler, StrKey("target_bundles"))) ==>
      && r.value.Arr?
      && Index(r.value, StrKey("target_bundles")).Arr?
      && Values(Index(r.value, StrKey("target_bundles")).entries) == Values(Targets(handler)) + [Str(typeId)]
      && forall k :: k != StrKey("target_bundles") ==> Index(r.value, k) == Index(handler, k)
  {
    match WriteAsArray(handler)
    case Fatal => None
    case ScalarIgnored => Some(handler)
    case AsArray(entries) =>
      match WriteAsArray(Index(handler, StrKey("target_bundles")))
      case Fatal => None
      case ScalarIgnored => Some(handler)
      case AsArray(targets) => Some(Arr(Put(entries, StrKey("target_bundles"), Arr(Push(targets, Str(typeId))))))
  }

  /** Handler settings that hold no target bundles yet get the list
      holding just the type id. */
  lemma AddTargetBundleCreates(handler: Value, typeId: string)
    requires handler == Null || (handler.Arr? && !HasKey(handler.entries, StrKey("target_bundles")))
    ensures AddTargetBundle(handler, typeId).Some?
    ensures Index(AddTargetBundle(handler, typeId).value, StrKey("target_bundles")) == SingleTarget(typeId)
  {
  }

  /** Adding a target bundle appends the type id to the end of the list (no
      de-duplication) and leaves every other handler setting as it was. */
  lemma AddTargetBundleAppends(handler: Assoc<Value>, targets: Assoc<Value>, typeId: string)
    requires Index(Arr(handler), StrKey("target_bundles")) == Arr(targets)
    ensures AddTargetBundle(Arr(handler), typeId).Some?
    ensures var h := AddTargetBundle(Arr(handler), typeId).value;
      && h.Arr?
      && Index(h, StrKey("target_bundles")).Arr?
      && Values(Index(h, StrKey("target_bundles")).entries) == Values(targets) + [Str(typeId)]
      && forall k :: k != StrKey("target_bundles") ==> Lookup(h.entries, k) == Lookup(handler, k)
  {
  }

  /** `getSetting('handler_settings')` on a configuration's own values. */
  function HandlerSettings(config: Assoc<Value>): Value {
    Index(Index(Arr(config), StrKey("settings")), StrKey("handler_settings"))
  }

  /** `setSetting($name, $value)` followed by `save()` on a field
      configuration's values: the setting takes the value, the other
      settings and the other configuration values stay as they were. */
  function SetSetting(config: Assoc<Value>, name: string, value: Value): (r: Assoc<Value>)
    ensures Index(Index(Arr(r), StrKey("settings")), StrKey(name)) == value
    ensures forall k :: k != StrKey("settings") ==> Lookup(r, k) == Lookup(config, k)
    ensures forall k :: k != StrKey(name) ==> Index(Index(Arr(r), StrKey("settings")), k) == Index(Index(Arr(config), StrKey("settings")), k)
  {
    var settings := Index(Arr(config), StrKey("settings"));
    var entries := if settings.Arr? then settings.entries else [];
    Put(config, StrKey("settings"), Arr(Put(entries, StrKey(name), value)))
  }

  /** The state of the stored field configurations after some updates, and
      whether every update went through. */
  datatype UpdateOutcome = UpdateOutcome(configs: map<string, Assoc<Value>>, ok: bool)

  /** One iteration of the inner loop: load, append the type id, save.
      A missing configuration or an unusable handler setting is fatal. */
  function UpdateOne(configs: map<string, Assoc<Value>>, fieldId: Value, typeId: string): (r: UpdateOutcome)
    ensures r.ok <==> fieldId.Str? && fieldId.s in configs && AddTargetBundle(HandlerSettings(configs[fieldId.s]), typeId).Some?
    ensures !r.ok ==> r.configs == configs
    ensures r.ok ==> r.configs.Keys == configs.Keys
    ensures r.ok ==> forall id :: id in configs && id != fieldId.s ==> r.configs[id] == configs[id]
    ensures r.ok ==> HandlerSettings(r.configs[fieldId.s]) == AddTargetBundle(HandlerSettings(configs[fieldId.s]), typeId).value
    ensures r.ok ==> r.configs[fieldId.s] == SetSetting(configs[fieldId.s], "handler_settings", AddTargetBundle(HandlerSettings(configs[fieldId.s]), typeId).value)
    ensures r.ok ==> forall k :: k != StrKey("settings") ==> Lookup(r.configs[fieldId.s], k) == Lookup(configs[fieldId.s], k)
    ensures r.ok ==> forall k :: k != StrKey("handler_settings") ==>
      Index(Index(Arr(r.configs[fieldId.s]), StrKey("settings")), k) == Index(Index(Arr(configs[fieldId.s]), StrKey("settings")), k)
  {
    if fieldId.Str? && fieldId.s in configs then
      var config := configs[fieldId.s];
      var handler := HandlerSettings(config);
      match AddTargetBundle(handler, typeId)
      case Some(h) => UpdateOutcome(configs[fieldId.s := SetSetting(config, "handler_settings", h)], true)
      case None => UpdateOutcome(configs, false)
    else UpdateOutcome(configs, false)
  }

  /** All iterations, stopping at the first fatal one. */
  function UpdateAll(configs: map<string, Assoc<Value>>, fieldIds: seq<Value>, typeId: string): UpdateOutcome {
    if fieldIds == [] then UpdateOutcome(configs, true)
    else
      var before := UpdateAll(configs, fieldIds[..|fieldIds| - 1], typeId);
      if !before.ok then before else UpdateOne(before.configs, fieldIds[|fieldIds| - 1], typeId)
  }

  /** Running two batches of updates is running the second from where the
      first left off, unless the first failed. */
  lemma {:induction false} UpdateAllAppend(configs: map<string, Assoc<Value>>, a: seq<Value>, b: seq<Value>, typeId: string)
    ensures var first := UpdateAll(configs, a, typeId);
      UpdateAll(configs, a + b, typeId) == if first.ok then UpdateAll(first.configs, b, typeId) else first
    decreases |b|
  {
    var first := UpdateAll(configs, a, typeId);
    if b == [] {
      assert a + b == a;
    } else {
      var ab := a + b;
      assert ab[..|ab| - 1] == a + b[..|b| - 1];
      assert ab[|ab| - 1] == b[|b| - 1];
      UpdateAllAppend(configs, a, b[..|b| - 1], typeId);
    }
  }

  /** Cutting a sequence after its `j`-th element. */
  lemma SplitAfter<T>(s: seq<T>, j: nat)
    requires j < |s|
    ensures |s[..j + 1]| == j + 1 && s[..j + 1][..j] == s[..j] && s[..j + 1][j] == s[j]
    ensures s[..j + 1] + s[j + 1..] == s
  {
    assert s[..j + 1][..j] == s[..j];
    assert s[..j + 1] + s[j + 1..] == s;
  }

  /** A failure at the `j`-th update is the outcome of the whole run. */
  lemma UpdateAllStopsAt(configs: map<string, Assoc<Value>>, fieldIds: seq<Value>, j: nat, typeId: string)
    requires j < |fieldIds|
    requires UpdateAll(configs, fieldIds[..j], typeId).ok
    requires !UpdateOne(UpdateAll(configs, fieldIds[..j], typeId).configs, fieldIds[j], typeId).ok
    ensures UpdateAll(configs, fieldIds, typeId) == UpdateOutcome(UpdateAll(configs, fieldIds[..j], typeId).configs, false)
  {
    var pre := fieldIds[..j];
    var upto := fieldIds[..j + 1];
    var before := UpdateAll(configs, pre, typeId);
    var failed := UpdateOne(before.configs, fieldIds[j], typeId);
    SplitAfter(fieldIds, j);
    assert UpdateAll(configs, upto, typeId) == failed;
    UpdateAllAppend(configs, upto, fieldIds[j + 1..], typeId);
  }

  /** In a run that goes through, a field id selected once has the type id
      appended to its handler settings' target bundles, as one update of its
      configuration before the run would, and the rest of its configuration
      is as it was. */
  lemma UpdateAllAppendsTo(configs: map<string, Assoc<Value>>, pre: seq<Value>, id: string, post: seq<Value>, typeId: string)
    requires Str(id) !in pre && Str(id) !in post
    requires UpdateAll(configs, pre + [Str(id)] + post, typeId).ok
    ensures id in configs && AddTargetBundle(HandlerSettings(configs[id]), typeId).Some?
    ensures var out := UpdateAll(configs, pre + [Str(id)] + post, typeId).configs;
      && id in out
      && HandlerSettings(out[id]) == AddTargetBundle(HandlerSettings(configs[id]), typeId).value
      && out[id] == SetSetting(configs[id], "handler_settings", AddTargetBundle(HandlerSettings(configs[id]), typeId).value)
  {
    var first := UpdateAll(configs, pre, typeId);
    UpdateAllAppend(configs, pre + [Str(id)], post, typeId);
    UpdateAllAppend(configs, pre, [Str(id)], typeId);
    UpdateAllOnlySelected(configs, pre, typeId, id);
    assert UpdateAll(first.configs, [Str(id)], typeId) == UpdateOne(first.configs, Str(id), typeId) by {
      assert [Str(id)][..0] == [];
    }
    var middle := UpdateAll(configs, pre + [Str(id)], typeId);
    UpdateAllOnlySelected(middle.configs, post, typeId, id);
  }

  /** Only the selected configurations change. */
  lemma {:induction false} UpdateAllOnlySelected(configs: map<string, Assoc<Value>>, fieldIds: seq<Value>, typeId: string, id: string)
    requires Str(id) !in fieldIds
    ensures var out := UpdateAll(configs, fieldIds, typeId).configs;
      (id in out <==> id in configs) && (id in configs ==> out[id] == configs[id])
  {
    if fieldIds != [] {
      UpdateAllOnlySelected(configs, fieldIds[..|fieldIds| - 1], typeId, id);
    }
  }

  /** One update of a loaded configuration whose handler settings are an
      array succeeds and appends the type id to its target bundles; its
      other values and other settings stay as they were. */
  lemma UpdateOneSelected(configs: map<string, Assoc<Value>>, fieldId: string, typeId: string, handler: Assoc<Value>, targets: Assoc<Value>)
    requires fieldId in configs
    requires Index(Index(Arr(configs[fieldId]), StrKey("settings")), StrKey("handler_settings")) == Arr(handler)
    requires Index(Arr(handler), StrKey("target_bundles")) == Arr(targets)
    ensures var out := UpdateOne(configs, Str(fieldId), typeId);
      && out.ok
      && var h := Index(Index(Arr(out.configs[fieldId]), StrKey("settings")), StrKey("handler_settings"));
      && Values(Index(h, StrKey("target_bundles")).entries) == Values(targets) + [Str(typeId)]
      && (forall k :: k != StrKey("target_bundles") ==> Index(h, k) == Index(Arr(handler), k))
      && (forall k :: k != StrKey("settings") ==> Lookup(out.configs[fieldId], k) == Lookup(configs[fieldId], k))
      && (forall k :: k != StrKey("handler_settings") ==>
            Index(Index(Arr(out.configs[fieldId]), StrKey("settings")), k) == Index(Index(Arr(configs[fieldId]), StrKey("settings")), k))
  {
    AddTargetBundleAppends(handler, targets, typeId);
  }

  /** The ticked field ids of one checkboxes value: `array_filter($field_ids)`. */
  function CheckedIds(v: Value): seq<Value> {
    if v.Arr? then Values(Filter(v.entries, Truthy)) else []
  }

  /** The concatenation of `f` over `xs`, in order. */
  function Flatten<T, U>(xs: seq<T>, f: T -> seq<U>): seq<U> {
    if xs == [] then [] else Flatten(xs[..|xs| - 1], f) + f(xs[|xs| - 1])
  }

  lemma {:induction false} FlattenAppend<T, U>(a: seq<T>, b: seq<T>, f: T -> seq<U>)
    ensures Flatten(a + b, f) == Flatten(a, f) + Flatten(b, f)
    decreases |b|
  {
    if b == [] {
      assert a + b == a;
    } else {
      var ab := a + b;
      assert ab[..|ab| - 1] == a + b[..|b| - 1];
      assert ab[|ab| - 1] == b[|b| - 1];
      FlattenAppend(a, b[..|b| - 1], f);
    }
  }

  /** The field ids the nested loops visit, in order. */
  function SelectedFieldIds(fields: Assoc<Value>): seq<Value> {
    Flatten(fields, (e: (Key, Value)) => CheckedIds(e.1))
  }

  /** The updates for one more entry of `fields` run after those before it. */
  lemma UpdateFieldStep(configs: map<string, Assoc<Value>>, fields: Assoc<Value>, i: nat, typeId: string)
    requires i < |fields|
    ensures var first := UpdateAll(configs, SelectedFieldIds(fields[..i]), typeId);
      UpdateAll(configs, SelectedFieldIds(fields[..i + 1]), typeId) ==
        if first.ok then UpdateAll(first.configs, CheckedIds(fields[i].1), typeId) else first
  {
    assert fields[..i + 1][..i] == fields[..i];
    UpdateAllAppend(configs, SelectedFieldIds(fields[..i]), CheckedIds(fields[i].1), typeId);
  }

  /** A failure within the first `i + 1` entries of `fields` ends the run. */
  lemma UpdateFieldStopped(configs: map<string, Assoc<Value>>, fields: Assoc<Value>, i: nat, typeId: string)
    requires i < |fields|
    requires !UpdateAll(configs, SelectedFieldIds(fields[..i + 1]), typeId).ok
    ensures UpdateAll(configs, SelectedFieldIds(fields), typeId) == UpdateAll(configs, SelectedFieldIds(fields[..i + 1]), typeId)
  {
    FlattenAppend(fields[..i + 1], fields[i + 1..], (e: (Key, Value)) => CheckedIds(e.1));
    assert fields[..i + 1] + fields[i + 1..] == fields;
    UpdateAllAppend(configs, SelectedFieldIds(fields[..i + 1]), SelectedFieldIds(fields[i + 1..]), typeId);
  }

  /** The `fields` entry of the existing-field settings. */
  function ExistingFields(settings: Assoc<Value>): Assoc<Value> {
    var fields := Index(Arr(settings), StrKey("fields"));
    if fields.Arr? then fields.entries else []
  }

  /** What the field manager has persisted so far. */
  datatype FieldState = FieldState(
    createdStorages: seq<Assoc<Value>>,
    createdFields: seq<Assoc<Value>>,
    fieldConfigs: map<string, Assoc<Value>>)

  class FieldManager {
    /** The `field_prefix` of the field UI settings. */
    const fieldPrefix: string
    /** Storage definitions per entity type, as the entity field manager reports them. */
    const storageDefinitions: map<string, Assoc<FieldDef>>
    /** The field map: per entity type and field name, the bundles carrying the field. */
    const fieldMap: map<string, map<string, seq<string>>>
    /** Field definitions per entity type and bundle. */
    const bundleFieldDefinitions: map<(string, string), Assoc<FieldDef>>
    /** Stored field configurations, by configuration id. */
    var fieldConfigs: map<string, Assoc<Value>>
    /** Values of the field storages created, in order. */
    var createdStorages: seq<Assoc<Value>>
    /** Values of the fields created, in order. */
    var createdFields: seq<Assoc<Value>>

    constructor (fieldPrefix: string, storageDefinitions: map<string, Assoc<FieldDef>>,
                 fieldMap: map<string, map<string, seq<string>>>,
                 bundleFieldDefinitions: map<(string, string), Assoc<FieldDef>>,
                 fieldConfigs: map<string, Assoc<Value>>)
      ensures this.fieldPrefix == fieldPrefix && this.storageDefinitions == storageDefinitions
      ensures this.fieldMap == fieldMap && this.bundleFieldDefinitions == bundleFieldDefinitions
      ensures this.fieldConfigs == fieldConfigs && createdStorages == [] && createdFields == []
    {
      this.fieldPrefix := fieldPrefix;
      this.storageDefinitions := storageDefinitions;
      this.fieldMap := fieldMap;
      this.bundleFieldDefinitions := bundleFieldDefinitions;
      this.fieldConfigs := fieldConfigs;
      createdStorages := [];
      createdFields := [];
    }

    function State(): FieldState
      reads this
    {
      FieldState(createdStorages, createdFields, fieldConfigs)
    }

    /** `getFieldStorageDefinitions($entity_type_id)`. */
    function StorageDefinitions(entityTypeId: string): Assoc<FieldDef> {
      if entityTypeId in storageDefinitions then storageDefinitions[entityTypeId] else []
    }

    /** `fieldNameExists`: some storage definition of the entity type is
        keyed by `fieldName` (definitions are objects, never NULL, so
        `isset` is presence of the key). */
    function FieldNameExists(fieldName: string, entityTypeId: string): (r: bool)
      ensures r <==> StorageDefinition(entityTypeId, fieldName).Some?
    {
      HasKey(StorageDefinitions(entityTypeId), StrKey(fieldName))
    }

    /** The name exists exactly when some storage definition of the entity
        type is keyed by it. */
    lemma FieldNameExistsIndex(fieldName: string, entityTypeId: string)
      ensures FieldNameExists(fieldName, entityTypeId) <==>
        exists i :: 0 <= i < |StorageDefinitions(entityTypeId)| && StorageDefinitions(entityTypeId)[i].0 == StrKey(fieldName)
    {
      HasKeyIndex(StorageDefinitions(entityTypeId), StrKey(fieldName));
    }

    /** The name a clone of `d` starts from: base fields get the prefix. */
    function CandidateName(d: FieldDef): string {
      if d.isBase then fieldPrefix + d.name else d.name
    }

    /** `name` is the name `getNewFieldName` must choose for `d`: free on
        scheduled updates, the candidate itself when that is free, and
        otherwise the candidate with the least free suffix `_1`, `_2`, .... */
    ghost predicate IsNewFieldName(d: FieldDef, name: string) {
      var c := CandidateName(d);
      && !FieldNameExists(name, ScheduledUpdate)
      && (!FieldNameExists(c, ScheduledUpdate) ==> name == c)
      && (FieldNameExists(c, ScheduledUpdate) ==>
            exists k: nat :: k >= 1 && name == Suffixed(c, k) &&
              forall j: nat :: 1 <= j < k ==> FieldNameExists(Suffixed(c, j), ScheduledUpdate))
    }

    /** The name the search loop of `getNewFieldName` stops at is a new
        field name: it is free, and every earlier candidate was taken. */
    lemma FreeNameIsNew(d: FieldDef, name: string, suffix: nat)
      requires !FieldNameExists(name, ScheduledUpdate)
      requires name == if suffix == 0 then CandidateName(d) else Suffixed(CandidateName(d), suffix)
      requires suffix > 0 ==> FieldNameExists(CandidateName(d), ScheduledUpdate)
      requires forall j: nat :: 1 <= j < suffix ==> FieldNameExists(Suffixed(CandidateName(d), j), ScheduledUpdate)
      ensures IsNewFieldName(d, name)
    {
      var c := CandidateName(d);
      if suffix > 0 {
        assert name == Suffixed(c, suffix);
        assert exists k: nat ::
          && k >= 1 && name == Suffixed(c, k)
          && forall j: nat :: 1 <= j < k ==> FieldNameExists(Suffixed(c, j), ScheduledUpdate);
      }
    }

    /** A taken suffixed name is no longer than the longest stored field
        name, so its suffix stays below a fixed bound. */
    lemma TakenSuffixIsBounded(fieldName: string, suffix: nat)
      requires FieldNameExists(Suffixed(fieldName, suffix), ScheduledUpdate)
      ensures suffix < Pow10(MaxKeyLength(StorageDefinitions(ScheduledUpdate)))
    {
      var existing := StorageDefinitions(ScheduledUpdate);
      NatToStringLength(suffix, MaxKeyLength(existing));
      LongNameIsFree(existing, Suffixed(fieldName, suffix));
    }

    method GetNewFieldName(definition: FieldDef) returns (newFieldName: string)
      ensures IsNewFieldName(definition, newFieldName)
      ensures definition.isBase ==> |newFieldName| >= |fieldPrefix| && newFieldName[..|fieldPrefix|] == fieldPrefix
    {
      var fieldName := definition.name;
      if definition.isBase {
        fieldName := fieldPrefix + fieldName;
      }
      var suffix: nat := 0;
      newFieldName := fieldName;
      ghost var bound := Pow10(MaxKeyLength(StorageDefinitions(ScheduledUpdate)));
      while FieldNameExists(newFieldName, ScheduledUpdate)
        invariant suffix <= bound
        invariant newFieldName == if suffix == 0 then fieldName else Suffixed(fieldName, suffix)
        invariant suffix > 0 ==> FieldNameExists(fieldName, ScheduledUpdate)
        invariant forall j: nat :: 1 <= j < suffix ==> FieldNameExists(Suffixed(fieldName, j), ScheduledUpdate)
        decreases bound - suffix
      {
        if suffix > 0 {
          TakenSuffixIsBounded(fieldName, suffix);
        }
        suffix := suffix + 1;
        newFieldName := Suffixed(fieldName, suffix);
      }
      assert fieldName == CandidateName(definition);
      FreeNameIsNew(definition, newFieldName, suffix);
      if definition.isBase {
        SuffixedKeepsPrefix(fieldPrefix, definition.name, suffix);
      }
    }

    /** `FieldConfig::load($field_config_id)` when an id is given (a falsy
        id counts as none). */
    function SourceConfig(fieldConfigId: Option<string>): Option<Assoc<Value>>
      reads this
    {
      match fieldConfigId
      case Some(id) => if Truthy(Str(id)) && id in fieldConfigs then Some(fieldConfigs[id]) else None
      case None => None
    }

    function StorageDefinition(entityTypeId: string, fieldName: string): Option<FieldDef> {
      Lookup(StorageDefinitions(entityTypeId), StrKey(fieldName))
    }

    /** `cloneField`: None stands for its FALSE result. */
    method CloneField(updateType: UpdateType, fieldName: string, fieldConfigId: Option<string>) returns (field: Option<Assoc<Value>>)
      modifies this
      ensures fieldConfigs == old(fieldConfigs)
      ensures field.None? <==> StorageDefinition(updateType.updateEntityType, fieldName).None?
      ensures field.None? ==> createdStorages == old(createdStorages) && createdFields == old(createdFields)
      ensures field.Some? ==>
        var d := StorageDefinition(updateType.updateEntityType, fieldName).value;
        exists name :: IsNewFieldName(d, name)
          && createdStorages == old(createdStorages) + [ClonedStorageValues(d, name)]
          && field.value == ClonedFieldValues(updateType, d, name, old(SourceConfig(fieldConfigId)))
          && createdFields == old(createdFields) + [field.value]
    {
      var entityType := updateType.updateEntityType;
      var definitions := StorageDefinitions(entityType);
      var found := Lookup(definitions, StrKey(fieldName));
      if found.None? {
        return None;
      }
      var definition := found.value;
      var newFieldName := GetNewFieldName(definition);
      var storageValues := ClonedStorageValues(definition, newFieldName);
      var fieldValues := ClonedFieldValues(updateType, definition, newFieldName, SourceConfig(fieldConfigId));
      createdStorages := createdStorages + [storageValues];
      createdFields := createdFields + [fieldValues];
      field := Some(fieldValues);
    }

    /** The bundles the field map lists for a field. */
    function FieldBundles(entityTypeId: string, fieldName: string): seq<string> {
      if entityTypeId in fieldMap && fieldName in fieldMap[entityTypeId] then fieldMap[entityTypeId][fieldName] else []
    }

    /** `getFieldDefinitions($entity_type_id, $bundle)[$field_name]`. */
    function BundleFieldDefinition(entityTypeId: string, bundle: string, fieldName: string): Option<FieldDef> {
      if (entityTypeId, bundle) in bundleFieldDefinitions
      then Lookup(bundleFieldDefinitions[(entityTypeId, bundle)], StrKey(fieldName))
      else None
    }

    /** `getAllFieldConfigsForField`: bundle to field definition (None for
        PHP's NULL), for every bundle carrying the field. */
    method GetAllFieldConfigsForField(definition: FieldDef, entityTypeId: string) returns (definitions: Assoc<Option<FieldDef>>)
      ensures forall k :: Lookup(definitions, k).Some? <==> k.StrKey? && k.s in FieldBundles(entityTypeId, definition.name)
      ensures forall b :: b in FieldBundles(entityTypeId, definition.name) ==>
        Lookup(definitions, StrKey(b)) == Some(BundleFieldDefinition(entityTypeId, b, definition.name))
    {
      definitions := [];
      var fieldName := definition.name;
      var bundles := FieldBundles(entityTypeId, fieldName);
      for i := 0 to |bundles|
        invariant forall k :: Lookup(definitions, k).Some? <==> k.StrKey? && k.s in bundles[..i]
        invariant forall b :: b in bundles[..i] ==>
          Lookup(definitions, StrKey(b)) == Some(BundleFieldDefinition(entityTypeId, b, fieldName))
      {
        var bundle := bundles[i];
        assert bundles[..i + 1] == bundles[..i] + [bundle];
        ghost var before := definitions;
        definitions := Put(definitions, StrKey(bundle), BundleFieldDefinition(entityTypeId, bundle, fieldName));
        forall k ensures Lookup(definitions, k).Some? <==> k.StrKey? && k.s in bundles[..i + 1] {
          if k != StrKey(bundle) {
            assert Lookup(definitions, k) == Lookup(before, k);
          }
        }
      }
      assert bundles[..|bundles|] == bundles;
    }

    /** `createNewReferenceField`: one storage on the entity type to update,
        then one field per selected bundle. */
    method CreateNewReferenceField(newFieldSettings: Assoc<Value>, updateType: UpdateType)
      modifies this
      ensures fieldConfigs == old(fieldConfigs)
      ensures createdStorages == old(createdStorages) + [ReferenceStorageValues(newFieldSettings, updateType.updateEntityType)]
      ensures createdFields == old(createdFields) + ReferenceFields(newFieldSettings, updateType.updateEntityType, updateType.id)
    {
      var entityType := updateType.updateEntityType;
      var settings := newFieldSettings;
      if LooseEqInt(Index(Arr(settings), StrKey("cardinality")), Unlimited) {
        settings := Put(settings, StrKey("cardinality_number"), Int(Unlimited));
      }
      createdStorages := createdStorages + [StorageValuesOf(settings, entityType)];
      var bundles := SelectedBundles(newFieldSettings);
      ghost var fieldsBefore := createdFields;
      ghost var expected := ReferenceFields(newFieldSettings, entityType, updateType.id);
      ghost var storagesAfter := createdStorages;
      for i := 0 to |bundles|
        invariant fieldConfigs == old(fieldConfigs) && createdStorages == storagesAfter
        invariant createdFields == fieldsBefore + expected[..i]
      {
        var fieldValues := ReferenceFieldValues(newFieldSettings, entityType, bundles[i], updateType.id);
        assert expected[..i + 1] == expected[..i] + [fieldValues];
        createdFields := createdFields + [fieldValues];
      }
      assert expected[..|bundles|] == expected;
    }

    /** The inner loop of `updateExistingReferenceFields`: add the update
        type to each of `fieldIds` in turn, stopping at a fatal error. */
    method UpdateReferenceFields(fieldIds: seq<Value>, typeId: string) returns (ok: bool)
      modifies this
      ensures createdStorages == old(createdStorages) && createdFields == old(createdFields)
      ensures UpdateAll(old(fieldConfigs), fieldIds, typeId) == UpdateOutcome(fieldConfigs, ok)
    {
      ghost var start := fieldConfigs;
      for j := 0 to |fieldIds|
        invariant createdStorages == old(createdStorages) && createdFields == old(createdFields)
        invariant UpdateAll(start, fieldIds[..j], typeId) == UpdateOutcome(fieldConfigs, true)
      {
        var fieldId := fieldIds[j];
        assert fieldIds[..j + 1][..j] == fieldIds[..j];
        if !(fieldId.Str? && fieldId.s in fieldConfigs) {
          UpdateAllStopsAt(start, fieldIds, j, typeId);
          return false;
        }
        var config := fieldConfigs[fieldId.s];
        var handler := Index(Index(Arr(config), StrKey("settings")), StrKey("handler_settings"));
        var updated := AddTargetBundle(handler, typeId);
        if updated.None? {
          UpdateAllStopsAt(start, fieldIds, j, typeId);
          return false;
        }
        config := SetSetting(config, "handler_settings", updated.value);
        assert UpdateOne(fieldConfigs, fieldId, typeId) == UpdateOutcome(fieldConfigs[fieldId.s := config], true);
        fieldConfigs := fieldConfigs[fieldId.s := config];
      }
      assert fieldIds[..|fieldIds|] == fieldIds;
      ok := true;
    }

    /** `updateExistingReferenceFields`: `ok` is false when the run stopped
        at a configuration it could not load or update (a fatal error in PHP,
        after the earlier saves). */
    method UpdateExistingReferenceFields(existingFieldSettings: Assoc<Value>, updateType: UpdateType) returns (ok: bool)
      modifies this
      ensures createdStorages == old(createdStorages) && createdFields == old(createdFields)
      ensures UpdateAll(old(fieldConfigs), SelectedFieldIds(ExistingFields(existingFieldSettings)), updateType.id)
           == UpdateOutcome(fieldConfigs, ok)
    {
      var fields := ExistingFields(existingFieldSettings);
      ghost var start := fieldConfigs;
      for i := 0 to |fields|
        invariant createdStorages == old(createdStorages) && createdFields == old(createdFields)
        invariant UpdateAll(start, SelectedFieldIds(fields[..i]), updateType.id) == UpdateOutcome(fieldConfigs, true)
      {
        var fieldIds := CheckedIds(fields[i].1);
        UpdateFieldStep(start, fields, i, updateType.id);
        var fieldOk := UpdateReferenceFields(fieldIds, updateType.id);
        if !fieldOk {
          UpdateFieldStopped(start, fields, i, updateType.id);
          return false;
        }
      }
      assert fields[..|fields|] == fields;
      ok := true;
    }
  }
}
