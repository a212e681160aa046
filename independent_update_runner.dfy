/**
 * The "default_independent" runner: updates are created directly (not
 * embedded in the entity they change), so the updates to run are simply the
 * ready update ids, each paired with the entity type the runner updates.
 */
module IndependentUpdateRunner {
  import opened UpdateRunners

  /** The plugin's annotation. */
  const Definition: RunnerDefinition := RunnerDefinition("default_independent", "Default", [Independent])

  /** One entry of the list of updates to run. */
  datatype UpdateRef<Id> = UpdateRef(updateId: Id, entityType: string)

  /** The expected list: one entry per ready id, in order. */
  function ReferencingUpdates<Id>(readyIds: seq<Id>, entityType: string): seq<UpdateRef<Id>> {
    seq(|readyIds|, i requires 0 <= i < |readyIds| => UpdateRef(readyIds[i], entityType))
  }

  function UpdateIds<Id>(updates: seq<UpdateRef<Id>>): seq<Id> {
    if updates == [] then [] else [updates[0].updateId] + UpdateIds(updates[1..])
  }

  /** The ready ids can be read back from the list of updates. */
  lemma {:induction false} ReferencingUpdatesIds<Id>(readyIds: seq<Id>, entityType: string)
    ensures UpdateIds(ReferencingUpdates(readyIds, entityType)) == readyIds
  {
    if readyIds != [] {
      assert ReferencingUpdates(readyIds, entityType)[1..] == ReferencingUpdates(readyIds[1..], entityType);
      ReferencingUpdatesIds(readyIds[1..], entityType);
    }
  }

  /**
   * `getReferencingUpdates`: `readyIds` is what the base class's
   * `getReadyUpdateIds()` returns and `entityType` what its
   * `updateEntityType()` returns.
   */
  method GetReferencingUpdates<Id>(readyIds: seq<Id>, entityType: string) returns (updates: seq<UpdateRef<Id>>)
    ensures |updates| == |readyIds|
    ensures forall i :: 0 <= i < |updates| ==> updates[i].updateId == readyIds[i]
    ensures forall i :: 0 <= i < |updates| ==> updates[i].entityType == entityType
    ensures updates == ReferencingUpdates(readyIds, entityType)
  {
    updates := [];
    for i := 0 to |readyIds|
      invariant updates == ReferencingUpdates(readyIds[..i], entityType)
    {
      updates := updates + [UpdateRef(readyIds[i], entityType)];
    }
    assert readyIds[..|readyIds|] == readyIds;
  }

  /** `getAllUpdates`: all updates of an independent runner are the
      referencing ones. */
  method GetAllUpdates<Id>(readyIds: seq<Id>, entityType: string) returns (updates: seq<UpdateRef<Id>>)
    ensures updates == ReferencingUpdates(readyIds, entityType)
    ensures UpdateIds(updates) == readyIds
  {
    updates := GetReferencingUpdates(readyIds, entityType);
    ReferencingUpdatesIds(readyIds, entityType);
  }

  /** The plugin does not support embedded updates. */
  lemma NotEmbedded()
    ensures Definition.id == "default_independent"
    ensures Embedded !in Definition.updateTypes && Independent in Definition.updateTypes
  {
  }
}
