/**
 * Update runner plugins as the plugin manager exposes them: a registry of
 * definitions keyed by plugin id, each naming the update types (independent,
 * embedded) the runner supports.
 */
module UpdateRunners {
  import opened PhpValues

  /** A runner plugin definition: its annotation's id, label and update_types. */
  datatype RunnerDefinition = RunnerDefinition(id: string, labelText: string, updateTypes: seq<string>)

  /** The plugin manager's definitions, keyed by plugin id. */
  type Registry = map<string, RunnerDefinition>

  /** The runner used when stored settings name a runner that no longer exists. */
  const DefaultEmbedded: string := "default_embedded"
  const Embedded: string := "embedded"
  const Independent: string := "independent"

  /** A runner plugin instance: the plugin id and its configuration array. */
  datatype RunnerInstance = RunnerInstance(pluginId: string, configuration: Value)

  /** `hasDefinition($id)`: only a string id can name a plugin. */
  predicate HasDefinition(registry: Registry, id: Value) {
    id.Str? && id.s in registry
  }

  /** `createInstance($id, $configuration)`; None stands for the exception
      the plugin manager throws for an unknown id. */
  function CreateInstance(registry: Registry, id: Value, configuration: Value): (r: Option<RunnerInstance>)
    ensures r.Some? <==> HasDefinition(registry, id)
    ensures r.Some? ==> r.value.pluginId == id.s && r.value.configuration == configuration
  {
    if HasDefinition(registry, id) then Some(RunnerInstance(id.s, configuration)) else None
  }
}
