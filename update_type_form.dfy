/**
 * The add/edit form of scheduled update types, without its render arrays:
 * choosing the update runner (with a fallback for runners that no longer
 * exist), the entity types offered, the machine-name check for a new
 * reference field, setting up reference fields on a first save, and the
 * default values of the field map.
 */
module UpdateTypeForm {
  import opened PhpValues
  import opened FieldUtils
  import opened UpdateRunners
  import opened FieldManager
  import IndependentUpdateRunner

  /** The settings the runner is built from: the entity's own when the form
      gives none, replaced wholesale by `default_embedded` when they name a
      runner the registry does not know. */
  function ResolveRunnerSettings(registry: Registry, formSettings: Value, entitySettings: Value): (r: Value)
    ensures !Truthy(formSettings) && HasDefinition(registry, Index(entitySettings, StrKey("id"))) ==> r == entitySettings
    ensures Truthy(formSettings) && HasDefinition(registry, Index(formSettings, StrKey("id"))) ==> r == formSettings
    ensures !HasDefinition(registry, Index(if Truthy(formSettings) then formSettings else entitySettings, StrKey("id"))) ==>
              r == Arr([(StrKey("id"), Str(DefaultEmbedded))])
  {
    var settings := if Truthy(formSettings) then formSettings else entitySettings;
    if HasDefinition(registry, Index(settings, StrKey("id"))) then settings else Arr([(StrKey("id"), Str(DefaultEmbedded))])
  }

  /** Whichever settings are given, the resolved ones name a registered
      runner as long as `default_embedded` is registered, so creating the
      instance cannot fail. */
  lemma ResolvedRunnerExists(registry: Registry, formSettings: Value, entitySettings: Value)
    requires DefaultEmbedded in registry
    ensures var r := ResolveRunnerSettings(registry, formSettings, entitySettings);
      HasDefinition(registry, Index(r, StrKey("id"))) && CreateInstance(registry, Index(r, StrKey("id")), r).Some?
  {
    var r := ResolveRunnerSettings(registry, formSettings, entitySettings);
    if !HasDefinition(registry, Index(if Truthy(formSettings) then formSettings else entitySettings, StrKey("id"))) {
      LookupFirst(r.entries, 0);
    }
  }

  /** `runnerSupportsEmbedded`: false for an unknown runner id, else whether
      the runner's update types include embedded updates. */
  function RunnerSupportsEmbedded(registry: Registry, settings: Value): (r: bool)
    ensures !HasDefinition(registry, Index(settings, StrKey("id"))) ==> !r
    ensures HasDefinition(registry, Index(settings, StrKey("id"))) ==>
      (r <==> Embedded in registry[Index(settings, StrKey("id")).s].updateTypes)
  {
    var id := Index(settings, StrKey("id"));
    HasDefinition(registry, id) && Embedded in registry[id.s].updateTypes
  }

  /** The independent runner never supports embedded updates, so selecting
      it never offers embedded reference fields. */
  lemma IndependentRunnerNotEmbedded(registry: Registry, settings: Value)
    requires Index(settings, StrKey("id")) == Str(IndependentUpdateRunner.Definition.id)
    requires IndependentUpdateRunner.Definition.id in registry
    requires registry[IndependentUpdateRunner.Definition.id] == IndependentUpdateRunner.Definition
    ensures !RunnerSupportsEmbedded(registry, settings)
  {
    IndependentUpdateRunner.NotEmbedded();
  }

  /** An entity type definition: its label, and whether its class is a
      content entity class. */
  datatype EntityTypeInfo = EntityTypeInfo(labelText: string, isContent: bool)

  /** The options `entityTypeOptions` builds from the entity type
      definitions, one loop iteration at a time. */
  function EntityTypeOptionsOf(definitions: Assoc<EntityTypeInfo>): Assoc<string> {
    if definitions == [] then [(StrKey(""), "")]
    else
      var options := EntityTypeOptionsOf(definitions[..|definitions| - 1]);
      var (id, info) := definitions[|definitions| - 1];
      if id == StrKey(ScheduledUpdate) || !info.isContent then options else Put(options, id, info.labelText)
  }

  /** The options always offer the empty choice and never scheduled updates. */
  lemma {:induction false} EntityTypeOptionsBounds(definitions: Assoc<EntityTypeInfo>)
    ensures HasKey(EntityTypeOptionsOf(definitions), StrKey(""))
    ensures !HasKey(EntityTypeOptionsOf(definitions), StrKey(ScheduledUpdate))
  {
    if definitions == [] {
      var options: Assoc<string> := [(StrKey(""), "")];
      assert Lookup(options, StrKey(ScheduledUpdate)) == Lookup([], StrKey(ScheduledUpdate));
    } else {
      EntityTypeOptionsBounds(definitions[..|definitions| - 1]);
    }
  }

  /** Besides the empty key, the options are exactly the content entity
      types other than scheduled updates, each under its label. */
  lemma {:induction false} EntityTypeOptionsContent(definitions: Assoc<EntityTypeInfo>, k: Key)
    requires UniqueKeys(definitions)
    requires k != StrKey("")
    ensures Lookup(EntityTypeOptionsOf(definitions), k) ==
      match Lookup(definitions, k)
      case Some(info) => if k != StrKey(ScheduledUpdate) && info.isContent then Some(info.labelText) else None
      case None => None
  {
    if definitions == [] {
      var options: Assoc<string> := [(StrKey(""), "")];
      assert Lookup(options, k) == Lookup([], k);
    } else {
      var init := definitions[..|definitions| - 1];
      var last := definitions[|definitions| - 1];
      assert UniqueKeys(init) by {
        forall i, j | 0 <= i < j < |init| ensures init[i].0 != init[j].0 {
          assert init[i] == definitions[i] && init[j] == definitions[j];
        }
      }
      EntityTypeOptionsContent(init, k);
      assert init + [last] == definitions;
      LookupAppend(init, last, k);
      if last.0 == k {
        HasKeyIndex(init, k);
        forall i | 0 <= i < |init| ensures init[i].0 != k {
          assert init[i] == definitions[i];
        }
      }
    }
  }

  /** A field map select element: title, options and default value. */
  datatype FieldMapElement = FieldMapElement(title: string, options: Assoc<string>, defaultValue: Value)

  /** The label of the "no destination" option. */
  const NotMapped: string := "(Not mapped)"

  /** `isset($field_map[$id]) ? $field_map[$id] : ''`. */
  function DefaultDestination(fieldMap: Assoc<Value>, id: Key): (v: Value)
    ensures HasKey(fieldMap, id) && Lookup(fieldMap, id).value != Null ==> v == Lookup(fieldMap, id).value
    ensures !HasKey(fieldMap, id) || Lookup(fieldMap, id).value == Null ==> v == Str("")
  {
    match Lookup(fieldMap, id)
    case Some(v) => if v != Null then v else Str("")
    case None => Str("")
  }

  /** The select element for one source field. */
  function MapElement(id: Key, source: FieldDef, destinations: Assoc<FieldDef>, fieldMap: Assoc<Value>): FieldMapElement {
    FieldMapElement(source.labelText,
                    Union([(StrKey(""), NotMapped)], DestinationOptions(destinations, Some(source))),
                    DefaultDestination(fieldMap, id))
  }

  /** One element per source field of the bundle, in order, under the
      source field's id. */
  function FieldMapElements(bundleFields: Assoc<FieldDef>, destinations: Assoc<FieldDef>, fieldMap: Assoc<Value>): Assoc<FieldMapElement> {
    var sources := SourceFields(bundleFields);
    seq(|sources|, i requires 0 <= i < |sources| => (sources[i].0, MapElement(sources[i].0, sources[i].1, destinations, fieldMap)))
  }

  /** Every source field of the bundle is a `FieldConfig`, the only kind of
      source `getDestinationFields` accepts. */
  predicate SourcesConfigurable(bundleFields: Assoc<FieldDef>) {
    forall i :: 0 <= i < |SourceFields(bundleFields)| ==> SourceFields(bundleFields)[i].1.isConfig
  }

  /** The elements are keyed by the source field ids, which stay unique. */
  lemma FieldMapElementsUnique(bundleFields: Assoc<FieldDef>, destinations: Assoc<FieldDef>, fieldMap: Assoc<Value>)
    requires UniqueKeys(bundleFields)
    ensures Keys(FieldMapElements(bundleFields, destinations, fieldMap)) == Keys(SourceFields(bundleFields))
    ensures UniqueKeys(FieldMapElements(bundleFields, destinations, fieldMap))
  {
    SourceFieldsLookup(bundleFields, StrKey(""));
  }

  /** Adding the element of the `i`-th source field to the first `i`
      elements gives the first `i + 1`. */
  lemma FieldMapElementsStep(bundleFields: Assoc<FieldDef>, destinations: Assoc<FieldDef>, fieldMap: Assoc<Value>, i: nat)
    requires UniqueKeys(bundleFields) && i < |SourceFields(bundleFields)|
    ensures var expected := FieldMapElements(bundleFields, destinations, fieldMap);
      var source := SourceFields(bundleFields)[i];
      Put(expected[..i], source.0, MapElement(source.0, source.1, destinations, fieldMap)) == expected[..i + 1]
  {
    var expected := FieldMapElements(bundleFields, destinations, fieldMap);
    FieldMapElementsUnique(bundleFields, destinations, fieldMap);
    UniquePrefixFresh(expected, i);
    assert expected[..i + 1] == expected[..i] + [expected[i]];
  }

  /** Each element offers "(Not mapped)" under the empty key and otherwise
      exactly the destinations compatible with its source, and defaults to
      the stored mapping. */
  lemma FieldMapElementOptions(id: Key, source: FieldDef, destinations: Assoc<FieldDef>, fieldMap: Assoc<Value>, k: Key)
    requires UniqueKeys(destinations)
    ensures var e := MapElement(id, source, destinations, fieldMap);
      && Lookup(e.options, StrKey("")) == Some(NotMapped)
      && (k != StrKey("") ==>
            Lookup(e.options, k) == match Lookup(destinations, k)
                                    case Some(d) => if IsDestinationFieldCompatible(d, Some(source)) then Some(d.name) else None
                                    case None => None)
      && e.defaultValue == DefaultDestination(fieldMap, id)
  {
    var compatible := DestinationFields(destinations, Some(source));
    var empty: Assoc<string> := [(StrKey(""), NotMapped)];
    assert empty[1..] == [];
    assert Lookup(empty, StrKey("")) == Some(NotMapped);
    if k != StrKey("") {
      assert Lookup(empty, k) == Lookup([], k);
    }
    DestinationFieldsLookup(destinations, Some(source), k);
    MapValuesLookup(compatible, (d: FieldDef) => d.name, k);
  }

  /** The form state entries `createRunnerInstance` writes. */
  datatype RunnerFormState = RunnerFormState(updateRunner: Value, scheduledUpdateType: UpdateType)

  /** How `save` ended. */
  datatype SaveStatus = SavedNew | SavedUpdated | RunnerNotFound

  /** `new_field` with the `cardinality_container` entries lifted to the top
      level (`+=`, so existing keys win) and the container removed; None for
      the fatal error PHP raises when the container is not an array. */
  function FlattenNewFieldSettings(newField: Value): (r: Option<Assoc<Value>>)
    ensures r.None? <==> !Index(newField, StrKey("cardinality_container")).Arr?
    ensures r.Some? ==> !HasKey(r.value, StrKey("cardinality_container"))
    ensures r.Some? ==> newField.Arr? && forall k :: k != StrKey("cardinality_container") ==>
      Lookup(r.value, k) == if HasKey(newField.entries, k) then Lookup(newField.entries, k)
                            else Lookup(Index(newField, StrKey("cardinality_container")).entries, k)
  {
    var container := Index(newField, StrKey("cardinality_container"));
    if !container.Arr? then None
    else Some(Unset(Union(newField.entries, container.entries), StrKey("cardinality_container")))
  }

  /** What `setUpFieldReferences` does to the field manager's state, and
      whether it ran to the end. */
  function SetUpEffect(s: FieldState, referenceSettings: Value, t: UpdateType): (FieldState, bool) {
    var newField := Index(referenceSettings, StrKey("new_field"));
    var afterCreate :=
      if Truthy(Index(newField, StrKey("create"))) then
        match FlattenNewFieldSettings(newField)
        case Some(settings) =>
          Some(FieldState(s.createdStorages + [ReferenceStorageValues(settings, t.updateEntityType)],
                          s.createdFields + ReferenceFields(settings, t.updateEntityType, t.id),
                          s.fieldConfigs))
        case None => None
      else Some(s);
    if afterCreate.None? then (s, false)
    else
      var existing := Index(referenceSettings, StrKey("existing_fields"));
      if Truthy(Index(existing, StrKey("update"))) then
        var out := UpdateAll(afterCreate.value.fieldConfigs, SelectedFieldIds(ExistingFields(existing.entries)), t.id);
        (afterCreate.value.(fieldConfigs := out.configs), out.ok)
      else (afterCreate.value, true)
  }

  /** No field is created unless `create` is ticked, and no existing field
      changes unless `update` is ticked. */
  lemma SetUpOnlyWhenAsked(s: FieldState, referenceSettings: Value, t: UpdateType)
    ensures var (s', _) := SetUpEffect(s, referenceSettings, t);
      && (!Truthy(Index(Index(referenceSettings, StrKey("new_field")), StrKey("create"))) ==>
            s'.createdStorages == s.createdStorages && s'.createdFields == s.createdFields)
      && (!Truthy(Index(Index(referenceSettings, StrKey("existing_fields")), StrKey("update"))) ==>
            s'.fieldConfigs == s.fieldConfigs)
  {
  }

  /** With `create` ticked and a usable container, exactly one storage and
      one field per selected bundle are created, from the flattened settings. */
  lemma SetUpCreates(s: FieldState, referenceSettings: Value, t: UpdateType)
    requires Truthy(Index(Index(referenceSettings, StrKey("new_field")), StrKey("create")))
    ensures var (s', ok) := SetUpEffect(s, referenceSettings, t);
      match FlattenNewFieldSettings(Index(referenceSettings, StrKey("new_field")))
      case None => s' == s && !ok
      case Some(settings) =>
        && s'.createdStorages == s.createdStorages + [ReferenceStorageValues(settings, t.updateEntityType)]
        && s'.createdFields == s.createdFields + ReferenceFields(settings, t.updateEntityType, t.id)
        && |s'.createdFields| == |s.createdFields| + |SelectedBundles(settings)|
  {
    var newField := Index(referenceSettings, StrKey("new_field"));
    match FlattenNewFieldSettings(newField)
    case None =>
    case Some(settings) =>
  }

  class ScheduledUpdateTypeForm {
    /** The update runner plugin manager's definitions. */
    const registry: Registry
    /** The entity type manager's definitions, keyed by entity type id. */
    const entityTypes: Assoc<EntityTypeInfo>
    /** The field manager the form delegates to; its field definitions are
        those the entity field manager reports. */
    const fieldManager: FieldManager
    /** The scheduled update type being edited. */
    var entity: UpdateType
    /** The form state entries written by `createRunnerInstance`. */
    var formState: Option<RunnerFormState>

    constructor (registry: Registry, entityTypes: Assoc<EntityTypeInfo>, fieldManager: FieldManager, entity: UpdateType)
      ensures this.registry == registry && this.entityTypes == entityTypes
      ensures this.fieldManager == fieldManager && this.entity == entity && formState == None
    {
      this.registry := registry;
      this.entityTypes := entityTypes;
      this.fieldManager := fieldManager;
      this.entity := entity;
      formState := None;
    }

    /** `createRunnerInstance`: `settings` is the by-reference argument as
        the method leaves it; None stands for the plugin manager's
        exception. */
    method CreateRunnerInstance(runnerSettings: Value) returns (runner: Option<RunnerInstance>, settings: Value)
      modifies this
      ensures settings == ResolveRunnerSettings(registry, runnerSettings, entity.runnerSettings)
      ensures runner == CreateInstance(registry, Index(settings, StrKey("id")), settings)
      ensures entity == old(entity)
      ensures runner.Some? ==> formState == Some(RunnerFormState(settings, entity))
      // The plugin manager's exception leaves the form state as it was.
      ensures runner.None? ==> formState == old(formState)
    {
      settings := runnerSettings;
      if !Truthy(settings) {
        settings := entity.runnerSettings;
      }
      if !HasDefinition(registry, Index(settings, StrKey("id"))) {
        // The settings name a runner plugin that no longer exists.
        settings := Arr([(StrKey("id"), Str(DefaultEmbedded))]);
      }
      runner := CreateInstance(registry, Index(settings, StrKey("id")), settings);
      if runner.Some? {
        formState := Some(RunnerFormState(settings, entity));
      }
    }

    /** `entityTypeOptions`. */
    method EntityTypeOptions() returns (options: Assoc<string>)
      ensures options == EntityTypeOptionsOf(entityTypes)
    {
      options := [(StrKey(""), "")];
      for i := 0 to |entityTypes|
        invariant options == EntityTypeOptionsOf(entityTypes[..i])
      {
        var (id, info) := entityTypes[i];
        assert entityTypes[..i + 1][..i] == entityTypes[..i];
        if id != StrKey(ScheduledUpdate) && info.isContent {
          options := Put(options, id, info.labelText);
        }
      }
      assert entityTypes[..|entityTypes|] == entityTypes;
    }

    /** `fieldNameExists` of the new reference field's machine name: taken
        when no existing storage is chosen and some storage definition of the
        entity type to update is keyed by the prefixed name. */
    function FieldNameExists(value: string, existingStorageName: Value): (r: bool)
      reads this
      ensures r <==> (
        && !Truthy(existingStorageName)
        && exists i :: 0 <= i < |fieldManager.StorageDefinitions(entity.updateEntityType)|
             && fieldManager.StorageDefinitions(entity.updateEntityType)[i].0 == StrKey(fieldManager.fieldPrefix + value))
    {
      HasKeyIndex(fieldManager.StorageDefinitions(entity.updateEntityType), StrKey(fieldManager.fieldPrefix + value));
      !Truthy(existingStorageName) &&
      HasKey(fieldManager.StorageDefinitions(entity.updateEntityType), StrKey(fieldManager.fieldPrefix + value))
    }

    /** The check agrees with the field manager's own name check on the
        prefixed name, except that choosing an existing field skips it. */
    lemma FieldNameExistsPrefixed(value: string, existingStorageName: Value)
      ensures Truthy(existingStorageName) ==> !FieldNameExists(value, existingStorageName)
      ensures !Truthy(existingStorageName) ==>
        (FieldNameExists(value, existingStorageName) <==>
         fieldManager.FieldNameExists(fieldManager.fieldPrefix + value, entity.updateEntityType))
    {
    }

    /** `setUpFieldReferences`, given the `reference_settings` form value. */
    method SetUpFieldReferences(referenceSettings: Value) returns (ok: bool)
      modifies fieldManager
      ensures (fieldManager.State(), ok) == SetUpEffect(old(fieldManager.State()), referenceSettings, entity)
    {
      ok := true;
      var newField := Index(referenceSettings, StrKey("new_field"));
      if Truthy(Index(newField, StrKey("create"))) {
        var container := Index(newField, StrKey("cardinality_container"));
        if !container.Arr? {
          return false;
        }
        var newFieldSettings := newField.entries;
        newFieldSettings := Union(newFieldSettings, container.entries);
        newFieldSettings := Unset(newFieldSettings, StrKey("cardinality_container"));
        fieldManager.CreateNewReferenceField(newFieldSettings, entity);
      }
      var existing := Index(referenceSettings, StrKey("existing_fields"));
      if Truthy(Index(existing, StrKey("update"))) {
        ok := fieldManager.UpdateExistingReferenceFields(existing.entries, entity);
      }
    }

    /** `save`: copies the runner's update types onto the type, saves it and,
        on the first save only, sets up the reference fields. */
    method Save(referenceSettings: Value) returns (status: SaveStatus, setupOk: bool)
      modifies this, fieldManager
      ensures var id := Index(old(entity.runnerSettings), StrKey("id"));
        && (!HasDefinition(registry, id) ==>
              status == RunnerNotFound && entity == old(entity) && fieldManager.State() == old(fieldManager.State()))
        && (HasDefinition(registry, id) ==>
              entity == old(entity).(updateTypesSupported := registry[id.s].updateTypes, isNew := false))
        && (HasDefinition(registry, id) && old(entity.isNew) ==>
              status == SavedNew &&
              (fieldManager.State(), setupOk) == SetUpEffect(old(fieldManager.State()), referenceSettings, entity))
        && (HasDefinition(registry, id) && !old(entity.isNew) ==>
              status == SavedUpdated && setupOk && fieldManager.State() == old(fieldManager.State()))
      ensures formState == old(formState)
    {
      var id := Index(entity.runnerSettings, StrKey("id"));
      if !HasDefinition(registry, id) {
        // getDefinition() throws for an unknown plugin id.
        return RunnerNotFound, false;
      }
      var definition := registry[id.s];
      entity := entity.(updateTypesSupported := definition.updateTypes);
      var wasNew := entity.isNew;
      entity := entity.(isNew := false);
      if wasNew {
        setupOk := SetUpFieldReferences(referenceSettings);
        status := SavedNew;
      } else {
        setupOk := true;
        status := SavedUpdated;
      }
    }

    /** The update bundle's field definitions. */
    function UpdateBundleFields(): Assoc<FieldDef>
      reads this
    {
      if (ScheduledUpdate, entity.id) in fieldManager.bundleFieldDefinitions
      then fieldManager.bundleFieldDefinitions[(ScheduledUpdate, entity.id)]
      else []
    }

    /** The storage definitions of the entity type to update. */
    function DestinationCandidates(): Assoc<FieldDef>
      reads this
    {
      fieldManager.StorageDefinitions(entity.updateEntityType)
    }

    /** `createFieldMapElements`, without the wrapping details element. */
    method CreateFieldMapElements() returns (result: Option<Assoc<FieldMapElement>>)
      requires UniqueKeys(UpdateBundleFields()) && UniqueKeys(DestinationCandidates())
      ensures entity.isNew ==> result == Some([])
      ensures !entity.isNew ==> (result.None? <==> !SourcesConfigurable(UpdateBundleFields()))
      ensures !entity.isNew && result.Some? ==>
        result.value == FieldMapElements(UpdateBundleFields(), DestinationCandidates(), entity.fieldMap)
    {
      if entity.isNew {
        return Some([]);
      }
      var bundleFields := UpdateBundleFields();
      var candidates := DestinationCandidates();
      var sourceFields := GetSourceFields(bundleFields);
      var fieldMap := entity.fieldMap;
      ghost var expected := FieldMapElements(bundleFields, candidates, fieldMap);
      var elements := [];
      for i := 0 to |sourceFields|
        invariant elements == expected[..i]
        invariant forall j :: 0 <= j < i ==> sourceFields[j].1.isConfig
      {
        var (sourceFieldId, sourceField) := sourceFields[i];
        var destinationOptions := GetDestinationFieldsOptions(candidates, Some(sourceField));
        if destinationOptions.None? {
          // `getDestinationFields` only accepts a `FieldConfig`.
          return None;
        }
        var defaultValue := Str("");
        var mapped := Lookup(fieldMap, sourceFieldId);
        if mapped.Some? && mapped.value != Null {
          defaultValue := mapped.value;
        }
        var element := FieldMapElement(sourceField.labelText, Union([(StrKey(""), NotMapped)], destinationOptions.value), defaultValue);
        assert element == MapElement(sourceFieldId, sourceField, candidates, fieldMap);
        FieldMapElementsStep(bundleFields, candidates, fieldMap, i);
        elements := Put(elements, sourceFieldId, element);
      }
      assert expected[..|sourceFields|] == expected;
      result := Some(elements);
    }
  }
}
