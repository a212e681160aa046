# scheduled_updates: configuring a scheduled update type

This project is a Dafny model of the configuration logic of the Drupal
`scheduled_updates` module. A *scheduled update type* is a bundle of the
`scheduled_update` entity type. It names:

- the entity type it updates;
- the update runner plugin that applies the updates;
- a field map from its own fields (sources) to fields of the entity type to update (destinations).

The model covers six areas:

- **Field compatibility** (`FieldUtils`). This decides which fields of the entity type to update may receive a source field's value. It also covers the filters that pick destination fields, their select options and the source fields.
- **The field manager** (`FieldManager`). This covers:
  - choosing a free field name for a clone (`_1`, `_2`, …);
  - the storage and field values of a cloned field;
  - the entity reference field through which entities embed their updates, with one field per selected bundle;
  - adding an update type to the target bundles of existing reference fields.

  Persistence is modelled as state of the `FieldManager` class:
  - `createdStorages` logs the value arrays passed to the field storage;
  - `createdFields` logs the value arrays of the fields created;
  - `fieldConfigs` holds the field configurations that existed before, by id. Fields created here are logged in `createdFields` only.
- **The type form** (`UpdateTypeForm`). This covers:
  - runner selection, including the fallback to `default_embedded` for runners that no longer exist;
  - the "supports embedded" test;
  - the entity type options;
  - the machine-name check for a new reference field;
  - flattening of the reference settings and setting up reference fields on a first save;
  - the copy of the runner's update types in `save`;
  - the default values of the field map.
- **Update runners** (`UpdateRunners`). This is the runner plugin registry and plugin instantiation.
- **The independent runner** (`IndependentUpdateRunner`). This covers its plugin definition and the list of updates it runs.
- **PHP arrays and their operations** (`PhpValues`): ordered arrays with int or string keys, element writes, `+=`, `unset`, `[]=`, `array_filter` truthiness, and integer-to-string conversion.

PHP arrays are modelled as `Assoc<V> = seq<(Key, V)>` in insertion order, and
loosely typed values as `Value`. Writing through a value as an array follows
PHP 7.1 to 7.4 (in PHP 7.0 an empty string still became an array):

- NULL and FALSE become an empty array.
- TRUE and integers are left alone (with a warning).
- A string is fatal.

Fatal errors and exceptions are modelled as `None` or a `false` status.

Services the code calls are inputs to the model:

- The entity field manager: storage definitions per entity type, the field map, and field definitions per bundle. These are the constants of `FieldManager.FieldManager`.
- The runner plugin manager: a `Registry`.
- The entity type manager: `entityTypes`.
- The field UI prefix: `fieldPrefix`.

A field definition is a `BaseFieldDefinition`, a bundle's override of a base
field, or a configurable field (`DefinitionKind`); the module's type checks
tell these apart.

The methods that walk an array require `UniqueKeys` of it. PHP arrays always
have unique keys.

## Model

| member | source | states |
|---|---|---|
| FieldUtils.MatchingFieldTypes | modules/contrib/scheduled_updates/src/FieldUtilsTrait.php:59-62 | the only type matching `t` is `t` itself |
| FieldUtils.IsDestinationFieldCompatible | modules/contrib/scheduled_updates/src/FieldUtilsTrait.php:76-120 | never compatible: read-only base fields, and references to `scheduled_update`. Without a source these are the only exclusions. With a source, compatibility needs: the same type; a destination that is unlimited, or a limited source no larger than it; and for references, equal `target_type` |
| FieldUtils.CompatibleWithSource | modules/contrib/scheduled_updates/src/FieldUtilsTrait.php:76-120 | the converse: a field meeting all those conditions is compatible with the source |
| FieldUtils.DestinationFieldsLookup | modules/contrib/scheduled_updates/src/FieldUtilsTrait.php:38-48 | the destination fields are exactly the compatible definitions, each under its own key, with keys unique |
| FieldUtils.SourceFieldsLookup | modules/contrib/scheduled_updates/src/FieldUtilsTrait.php:129-138 | the source fields are exactly the non-base definitions, each under its own key, with keys unique |
| FieldUtils.GetDestinationFields | modules/contrib/scheduled_updates/src/FieldUtilsTrait.php:38-48 | a source that is not a `FieldConfig` is the parameter's `TypeError` (None). Otherwise the loop builds the filter of the storage definitions by compatibility, in order, keys preserved |
| FieldUtils.GetDestinationFieldsOptions | modules/contrib/scheduled_updates/src/FieldUtilsTrait.php:20-27 | the same `TypeError` for a source that is not a `FieldConfig`. Otherwise the options have the destination fields' keys, in order, and each maps to that field's name |
| FieldUtils.GetSourceFields | modules/contrib/scheduled_updates/src/FieldUtilsTrait.php:129-138 | the loop builds the filter of the bundle's definitions to non-base fields, keys preserved |
| FieldManager.FieldManager.GetNewFieldName | modules/contrib/scheduled_updates/src/FieldManager.php:162-182 | the result is not an existing `scheduled_update` field. It is the candidate if that is free, otherwise the candidate plus `_k` for the least free `k >= 1`. The candidate is the name with the field prefix for base fields only. The loop terminates |
| FieldManager.LongNameIsFree | modules/contrib/scheduled_updates/src/FieldManager.php:169-172 | a name longer than every existing key is free, which bounds the suffix loop |
| FieldManager.FieldManager.FieldNameExistsIndex | modules/contrib/scheduled_updates/src/FieldManager.php:179-182 | the specification of `FieldManager.FieldManager.FieldNameExists` (`isset` on the storage definitions): the name exists exactly when some storage definition of the entity type is keyed by it |
| FieldManager.FieldManager.CloneField | modules/contrib/scheduled_updates/src/FieldManager.php:55-91 | unknown field name: FALSE and nothing created. Otherwise: a new name is chosen, and it creates one storage and one field from the source definition and the optional source configuration. The pre-existing configurations are unchanged |
| FieldManager.ClonedStorageCopiesSource | modules/contrib/scheduled_updates/src/FieldManager.php:64-72 | the cloned storage has the new name, lives on `scheduled_update`, and copies type, translatability, settings and cardinality |
| FieldManager.ClonedFieldOnBundle | modules/contrib/scheduled_updates/src/FieldManager.php:73-85 | the cloned field is on the update type's bundle and not translatable. Label and settings come from the source configuration when one is loaded; otherwise the label is the definition's |
| FieldManager.FieldManager.GetAllFieldConfigsForField | modules/contrib/scheduled_updates/src/FieldManager.php:187-200 | keys are exactly the bundles the field map lists for the field, each mapped to that bundle's definition of the field |
| FieldManager.FieldManager.CreateNewReferenceField | modules/contrib/scheduled_updates/src/FieldManager.php:205-238 | appends exactly one storage and one field per selected bundle. The pre-existing configurations are unchanged |
| FieldManager.ReferenceStorageTargetsUpdates | modules/contrib/scheduled_updates/src/FieldManager.php:212-221 | the reference storage lives on the entity type to update, is an untranslatable `entity_reference`, and targets `scheduled_update` |
| FieldManager.ReferenceStorageCardinality | modules/contrib/scheduled_updates/src/FieldManager.php:209-218 | storage cardinality is -1 when `cardinality == -1` was chosen, otherwise `cardinality_number` |
| FieldManager.ReferenceFieldsPerBundle | modules/contrib/scheduled_updates/src/FieldManager.php:222-235 | one field per truthy bundle entry, in order. Each is on that bundle and has `target_bundles` equal to just the type id |
| FieldManager.AddTargetBundleCreates | modules/contrib/scheduled_updates/src/FieldManager.php:268-270 | handler settings without target bundles get the list holding just the type id |
| FieldManager.AddTargetBundleAppends | modules/contrib/scheduled_updates/src/FieldManager.php:268-270 | the type id is appended at the end of `target_bundles`, without de-duplication. Every other handler setting is unchanged |
| FieldManager.AddTargetBundle | modules/contrib/scheduled_updates/src/FieldManager.php:269-270 | fatal exactly when the handler settings, or their `target_bundles`, is a string. TRUE or an integer at either level ignores the write. Otherwise the type id is appended to the listed target bundles, and every other handler setting is unchanged |
| FieldManager.SetSetting | modules/contrib/scheduled_updates/src/FieldManager.php:271-272 | the named setting takes the value. The other settings and the other configuration values are unchanged |
| FieldManager.UpdateOne | modules/contrib/scheduled_updates/src/FieldManager.php:268-272 | succeeds exactly when the id names a stored configuration whose handler settings can be written. On failure the configurations are unchanged. On success only that configuration changes, and it becomes the configuration with its `handler_settings` setting replaced by the ones with the type id added: its other values and its other settings stay as they were |
| FieldManager.UpdateOneSelected | modules/contrib/scheduled_updates/src/FieldManager.php:266-272 | updating a loaded configuration succeeds, appends the type id to its target bundles, and leaves its other handler settings, its other settings and its other values unchanged |
| FieldManager.UpdateAllAppendsTo | modules/contrib/scheduled_updates/src/FieldManager.php:264-272 | in a run that goes through, a field id selected once names a stored configuration, and that configuration ends as one update of it would: the type id is added to its handler settings' target bundles and the rest of the configuration is as it was |
| FieldManager.UpdateAllOnlySelected | modules/contrib/scheduled_updates/src/FieldManager.php:264-272 | configurations whose id is not selected are unchanged |
| FieldManager.UpdateAllAppend | modules/contrib/scheduled_updates/src/FieldManager.php:264-272 | two batches of updates compose: the second runs from the first's result, unless the first hit a fatal error |
| FieldManager.UpdateAllStopsAt | modules/contrib/scheduled_updates/src/FieldManager.php:266-272 | a fatal error at one field id ends the run with the earlier saves kept |
| FieldManager.FieldManager.UpdateReferenceFields | modules/contrib/scheduled_updates/src/FieldManager.php:266-272 | the inner loop leaves the configurations as the update run over its field ids specifies, and creates nothing |
| FieldManager.FieldManager.UpdateExistingReferenceFields | modules/contrib/scheduled_updates/src/FieldManager.php:262-276 | the configurations end as the update run over the checked field ids of every selected entry specifies, and nothing is created |
| UpdateRunners.CreateInstance | modules/contrib/scheduled_updates/src/Form/ScheduledUpdateTypeForm.php:625-626 | an instance exists exactly for registered string ids and carries the given configuration |
| UpdateTypeForm.ResolveRunnerSettings | modules/contrib/scheduled_updates/src/Form/ScheduledUpdateTypeForm.php:613-622 | empty form settings fall back to the entity's. Settings naming a registered runner pass unchanged. Any other settings are replaced wholesale by `{id: default_embedded}` |
| UpdateTypeForm.ResolvedRunnerExists | modules/contrib/scheduled_updates/src/Form/ScheduledUpdateTypeForm.php:617-626 | with `default_embedded` registered, the resolved settings always name a runner that can be instantiated |
| UpdateTypeForm.ScheduledUpdateTypeForm.CreateRunnerInstance | modules/contrib/scheduled_updates/src/Form/ScheduledUpdateTypeForm.php:613-630 | the by-reference settings become the resolved ones, and the runner is instantiated from them. When instantiation succeeds, form state stores the settings and the entity. When the plugin manager throws, form state is left as it was |
| UpdateTypeForm.RunnerSupportsEmbedded | modules/contrib/scheduled_updates/src/Form/ScheduledUpdateTypeForm.php:593-599 | false for an unregistered id, otherwise true iff `embedded` is among the runner's update types |
| UpdateTypeForm.IndependentRunnerNotEmbedded | modules/contrib/scheduled_updates/src/Plugin/UpdateRunner/IndependentUpdateRunner.php:19-24 | the registered independent runner does not support embedded updates |
| UpdateTypeForm.ScheduledUpdateTypeForm.EntityTypeOptions | modules/contrib/scheduled_updates/src/Form/ScheduledUpdateTypeForm.php:204-216 | the loop builds the options the entity type definitions determine |
| UpdateTypeForm.EntityTypeOptionsBounds | modules/contrib/scheduled_updates/src/Form/ScheduledUpdateTypeForm.php:204-216 | the options always have the `''` key and never the `scheduled_update` key |
| UpdateTypeForm.EntityTypeOptionsContent | modules/contrib/scheduled_updates/src/Form/ScheduledUpdateTypeForm.php:206-214 | every other key is exactly a content entity type other than `scheduled_update`, mapped to its label |
| UpdateTypeForm.ScheduledUpdateTypeForm.FieldNameExists | modules/contrib/scheduled_updates/src/Form/ScheduledUpdateTypeForm.php:488-499 | true exactly when no existing storage is chosen and some storage definition of the entity type to update is keyed by prefix plus value |
| UpdateTypeForm.ScheduledUpdateTypeForm.FieldNameExistsPrefixed | modules/contrib/scheduled_updates/src/Form/ScheduledUpdateTypeForm.php:488-499 | false when an existing storage is chosen. Otherwise true iff prefix plus value is a storage definition of the entity type to update |
| UpdateTypeForm.FlattenNewFieldSettings | modules/contrib/scheduled_updates/src/Form/ScheduledUpdateTypeForm.php:510-513 | the container's keys are lifted with left-biased `+=` and the container key is removed. Fatal when the container is not an array |
| UpdateTypeForm.SetUpOnlyWhenAsked | modules/contrib/scheduled_updates/src/Form/ScheduledUpdateTypeForm.php:506-521 | nothing is created unless `create` is truthy, and no configuration changes unless `update` is truthy |
| UpdateTypeForm.SetUpCreates | modules/contrib/scheduled_updates/src/Form/ScheduledUpdateTypeForm.php:508-515 | with `create` truthy, one storage and one field per selected bundle are created from the flattened settings: the storage values, then exactly the reference fields those settings give. If the container is not an array, nothing changes and the step fails |
| UpdateTypeForm.ScheduledUpdateTypeForm.SetUpFieldReferences | modules/contrib/scheduled_updates/src/Form/ScheduledUpdateTypeForm.php:506-521 | the field manager's new state and the success flag are those the set-up effect specifies |
| UpdateTypeForm.ScheduledUpdateTypeForm.Save | modules/contrib/scheduled_updates/src/Form/ScheduledUpdateTypeForm.php:221-229 | an unknown runner changes nothing. Otherwise the type takes the runner's update types and is no longer new. Reference fields are set up on the first save only |
| UpdateTypeForm.DefaultDestination | modules/contrib/scheduled_updates/src/Form/ScheduledUpdateTypeForm.php:553 | the stored mapping when set, otherwise `''` |
| UpdateTypeForm.FieldMapElementOptions | modules/contrib/scheduled_updates/src/Form/ScheduledUpdateTypeForm.php:547-555 | each element offers "(Not mapped)" under `''`, and otherwise exactly the names of the destinations compatible with its source. It defaults to the stored mapping |
| UpdateTypeForm.FieldMapElementsUnique | modules/contrib/scheduled_updates/src/Form/ScheduledUpdateTypeForm.php:547-555 | one element per source field, keyed by the source field ids, with keys unique |
| UpdateTypeForm.ScheduledUpdateTypeForm.CreateFieldMapElements | modules/contrib/scheduled_updates/src/Form/ScheduledUpdateTypeForm.php:531-557 | no elements for a new type. Otherwise a `TypeError` (None) when some source field is not a `FieldConfig`, such as a base field override; else one element per source field, as the field map elements specify |
| IndependentUpdateRunner.GetReferencingUpdates | modules/contrib/scheduled_updates/src/Plugin/UpdateRunner/IndependentUpdateRunner.php:34-44 | one entry per ready id, in order, each with the runner's entity type |
| IndependentUpdateRunner.ReferencingUpdatesIds | modules/contrib/scheduled_updates/src/Plugin/UpdateRunner/IndependentUpdateRunner.php:34-44 | the ready ids are read back, in order, from the list of updates |
| IndependentUpdateRunner.GetAllUpdates | modules/contrib/scheduled_updates/src/Plugin/UpdateRunner/IndependentUpdateRunner.php:49-51 | exactly the referencing updates |
| IndependentUpdateRunner.NotEmbedded | modules/contrib/scheduled_updates/src/Plugin/UpdateRunner/IndependentUpdateRunner.php:19-24 | the plugin id is `default_independent` and it supports `independent` but not `embedded` |

## Left out

- Render arrays, AJAX callbacks, `#states`, messages and redirects of the type form. These include `form`, `createRunnerElements`, `createNewFieldsElements`, `existingReferenceFields`, `bundleOptions` and `validateForm`; all are user interface.
- The form display handling of `cloneField` (modules/contrib/scheduled_updates/src/FieldManager.php:93-143), and the form display set-up of `createNewReferenceField` (240-255). Both depend on framework display objects. The model assumes every bundle involved has a default form display. Without one, PHP stops with a fatal error after saving that bundle's field, so later bundles get no field and `cloneField` returns nothing.
- Persistence of the scheduled update type itself. `Save` models only its outcome: the type is no longer new.
- Created storages are logged but not added back to the storage definitions the field manager reads.
- Created fields are logged but not added to `fieldConfigs`, so a later load in the same model run does not find them.
- Settings are read only from the configuration's own `settings` array. `FieldConfig::getSetting` and `getSettings` also fall back to the field storage's settings and the field type's defaults; neither is modelled, and a missing setting reads as NULL. This affects the cloned field's `settings` and the handler settings read before adding a target bundle.
- Loose comparison: `==` and `in_array` are modelled as exact equality on values. The exception is the check `cardinality == -1`, which follows PHP's integer, boolean and NULL rules. Of the strings, only the canonical decimal spelling `"-1"` counts as equal; other numeric spellings (`" -1"`, `"-1.0"`, `"-01"`) and PHP 7's leading-numeric strings (`"-1abc"`) are not modelled.
- Numeric string keys are not normalised to integer keys.
- `[]=` uses the largest integer key present plus one. The array's history of deleted keys is not modelled.
- `getReadyUpdateIds` and `updateEntityType` belong to the base runner class, which is not part of this model. Their results are parameters of `IndependentUpdateRunner.GetReferencingUpdates`.
- The status and type constants of the entity interfaces are declarations only. No scheduler or state machine is modelled.
- Web tests and `NodeInlineForm` are not part of this model.
- `UpdateTypeForm.ScheduledUpdateTypeForm.CreateFieldMapElements`: the wrapping details element and its `#tree` flag are left out. Only the per-field select elements are modelled.
- `FieldManager.FieldManager.UpdateExistingReferenceFields`: in PHP a configuration that cannot be loaded or updated is a fatal error. Saves made before it persist. The model returns `false` with those earlier saves kept.
- Reading an offset of a string: `Index` gives NULL. PHP 7.1 and later warn "Illegal string offset" and return a character instead. This only matters for malformed configuration values, where a string stands in place of an array.
- `FieldManager.UpdateOne`: a field id that is not a string is treated like an id whose configuration cannot be loaded, which is a fatal error.
