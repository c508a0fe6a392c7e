# Cura's global stack, modelled in Dafny

Cura resolves every print setting through a *global stack*: seven fixed,
typed slots, from highest to lowest priority UserChanges, QualityChanges,
Quality, Material, Variant, DefinitionChanges and Definition. Each slot
holds one container, a property table mapping (setting key, property name)
to a value. A lookup answers from the topmost container that has the
property. The `"value"` property follows its own rule:

1. the first value found in the six slots above the definition;
2. failing that, the topmost `"resolve"` of all seven slots;
3. failing that, the definition's own value.

The stack also keeps a list of extruder stacks. The machine's
`machine_extruder_count` bounds its length. The behaviour modelled is the
behaviour pinned down by `tests/Settings/TestGlobalStack.py`. That covers
slot type checks, the refused structural operations, fall-through and
resolve, `hasUserValue`, `setProperty`, the id-based setters, `addExtruder`
and loading a stack. It also covers the test's `MockContainer` property
map. `GlobalStack.py` and `CuraContainerStack.py` are not part of this model.

Files:

- `wrappers.dfy`: `Option` and `Outcome`.
- `containers.dfy`: setting values, the two-level property map and the
  two kinds of container (`InstanceContainer` with its `"type"` tag,
  `DefinitionContainer`). Also the shared `Empty` container, which answers
  every query as absent and ignores writes.
- `slots.dfy`: the seven slots, their order and type names, and the
  acceptance rule. It also defines `WellFormed`, the stack invariant:
  seven slots, each holding a container of the slot's structural kind
  (an instance container above the definition; a definition container or
  `Empty` in the definition slot).
- `resolution.dfy`: the read-only scans. This is the fall-through `Lookup`,
  the three-step `ResolvedValue` and `HasUserValue`, with the lemmas that
  characterise them. One lemma shows the three-step rule equals a single
  fall-through over fourteen probes in priority order.
- `registry.dfy`: the container registry, passed in as a parameter, and
  its lookup by id and slot. The id setters ask for the slot's kind and
  type tag; loading asks for the slot's kind only.
- `global_stack.dfy`: the `GlobalStack` class. It holds the seven slot
  containers and the extruder list as fields, and its methods update them
  in place: slot assignment, the refused structural operations,
  `SetProperty`, the id setters, `AddExtruder` and `Deserialize`.
- `scenarios.dfy`: the test suite's concrete situations, with each
  assertion proved from the contracts and definitions of the model.

Errors are `Outcome` values: `InvalidContainerError`,
`InvalidOperationError`, `TooManyExtrudersError` and the plain `Exception`
raised when a stack names an unknown container. Each typed error leaves the
stack unchanged.

## Model

| member | source | states |
|---|---|---|
| `Containers.Get` | tests/Settings/TestGlobalStack.py:33-40 | a missing key or a missing property of a present key reads as absent; otherwise the stored value is read |
| `Containers.Put` | tests/Settings/TestGlobalStack.py:42-46 | after storing v under (key, property), that pair reads v and every other pair reads as before; the key gains an entry |
| `Containers.Container.GetProperty` | tests/Settings/TestGlobalStack.py:33-40 | a container answers only what its property map holds, and the empty container answers nothing |
| `Containers.Container.SetProperty` | tests/Settings/TestGlobalStack.py:33-46 | a write to an instance container is read back by getProperty and leaves all other (key, property) pairs, the id and the type untouched; the empty container stays empty |
| `Slots.Accepts` | tests/Settings/TestGlobalStack.py:166-288 | an accepted container is never the empty one and has the slot's kind; an instance container whose type tag is not the slot's type name is refused |
| `Slots.AcceptedByOneSlot` | tests/Settings/TestGlobalStack.py:166-288 | no container is accepted by two different slots, so a container typed for another slot, or a definition in an instance slot, is refused; the empty container is accepted by no slot |
| `Resolution.LookupTopmost` | tests/Settings/TestGlobalStack.py:488-527 | the topmost container that has the property decides the lookup, whatever lies below it |
| `Resolution.Lookup` | tests/Settings/TestGlobalStack.py:488-527 | a fall-through lookup is absent exactly when no container of the run has the property |
| `Resolution.LookupFound` | tests/Settings/TestGlobalStack.py:515-527 | every answer of a lookup comes from a slot that has the property with no slot above it having it |
| `Resolution.LookupAppend` | tests/Settings/TestGlobalStack.py:506-527 | stacking runs of containers: the upper run answers when it can, the lower run otherwise |
| `Resolution.ResolvedValueSources` | tests/Settings/TestGlobalStack.py:529-563 | whatever the three steps yield comes from some slot's value or some slot's "resolve" |
| `Resolution.ResolvedValue` | tests/Settings/TestGlobalStack.py:529-563 | the resolved "value" is absent exactly when no slot has a value and none a "resolve"; a present result is some slot's value or "resolve" |
| `Resolution.StackProperty` | tests/Settings/TestGlobalStack.py:488-563 | every answer of getProperty comes from some slot (for "value", possibly from its "resolve"); for any other property it is absent exactly when no slot has it |
| `Resolution.HasUserValue` | tests/Settings/TestGlobalStack.py:567-593 | hasUserValue holds exactly when the fall-through lookup of "value" over the user and quality changes finds something |
| `Resolution.ExplicitValueWins` | tests/Settings/TestGlobalStack.py:543-563 | a value in any slot above the definition is the resolved "value", beating every "resolve" in the same or any other slot |
| `Resolution.TopmostResolveWins` | tests/Settings/TestGlobalStack.py:541-548 | with no value above the definition, the topmost "resolve" is the result, beating the definition's own value and its own "resolve" |
| `Resolution.DefinitionValueLast` | tests/Settings/TestGlobalStack.py:513-515 | with no value above the definition and no "resolve" anywhere, the definition's value (possibly absent) is the result |
| `Resolution.WithoutResolveValueFallsThrough` | tests/Settings/TestGlobalStack.py:488-527 | where no slot defines "resolve", "value" resolves by the plain top-down fall-through |
| `Resolution.FirstAnswerAppend` | tests/Settings/TestGlobalStack.py:529-563 | the first answer of concatenated probe lists is the first list's answer when it has one, the second's otherwise |
| `Resolution.FirstAnswerIsLookup` | tests/Settings/TestGlobalStack.py:488-527 | asking one property of a run of slots in order is the fall-through lookup over that run |
| `Resolution.ResolvedValueFollowsOrder` | tests/Settings/TestGlobalStack.py:529-563 | the three-step "value" rule equals one fall-through over fourteen probes: each value above the definition, then every slot's "resolve", then the definition's value |
| `Resolution.UserValueWins` | tests/Settings/TestGlobalStack.py:567-593 | when hasUserValue holds, the resolved "value" exists and is the user changes' value, or else the quality changes' value; this relies on hasProperty holding exactly when getProperty answers, which the mock at tests/Settings/TestGlobalStack.py:570-572 overrides |
| `Registry.Find` | tests/Settings/TestGlobalStack.py:57-66 | the registry lookup returns exactly the registered containers with that id that the slot accepts (asked by type) or that have the slot's kind (asked by kind) |
| `Registry.FindFirstMatch` | tests/Settings/TestGlobalStack.py:606-714 | the first container the lookup returns is the earliest matching one in registration order |
| `GlobalStacks.Installed` | tests/Settings/TestGlobalStack.py:306-471 | loading puts in each slot the empty container when the document names none, otherwise the earliest registered container with the named id and the slot's kind, and fails exactly when the registry has no such container; the type tag is not checked |
| `GlobalStacks.GlobalStack.constructor` | tests/Settings/TestGlobalStack.py:80-83 | a new stack is well formed, with the empty container in all seven slots and no extruders |
| `GlobalStacks.GlobalStack.GetContainer` | tests/Settings/TestGlobalStack.py:323 | reading a slot always yields a container of the slot's kind: an instance container above the definition, a definition container or the empty one in the definition slot |
| `GlobalStacks.GlobalStack.SetContainer` | tests/Settings/TestGlobalStack.py:166-288 | assigning a slot succeeds exactly when the slot accepts the container and replaces only that slot; otherwise InvalidContainerError and nothing changes; the stack stays well formed |
| `GlobalStacks.GlobalStack.AddContainer` | tests/Settings/TestGlobalStack.py:137-139 | adding a container always fails with InvalidOperationError and changes nothing |
| `GlobalStacks.GlobalStack.InsertContainer` | tests/Settings/TestGlobalStack.py:596-598 | inserting a container always fails with InvalidOperationError and changes nothing |
| `GlobalStacks.GlobalStack.RemoveContainer` | tests/Settings/TestGlobalStack.py:601-603 | removing a container always fails with InvalidOperationError and changes nothing |
| `GlobalStacks.GlobalStack.SetNextStack` | tests/Settings/TestGlobalStack.py:640-642 | setting a next stack always fails with InvalidOperationError and changes nothing |
| `GlobalStacks.GlobalStack.GetProperty` | tests/Settings/TestGlobalStack.py:488-563 | every answer of the stack's getProperty comes from the container in one of its slots (for "value", possibly that container's "resolve") |
| `GlobalStacks.GlobalStack.HasUserValue` | tests/Settings/TestGlobalStack.py:567-593 | hasUserValue holds exactly when the user changes or the quality changes have a value for the key, and then the stack resolves "value" to something |
| `GlobalStacks.GlobalStack.MachineExtruderCount` | tests/Settings/TestGlobalStack.py:142-163 | a nonzero capacity is the integer the stack resolves machine_extruder_count's value to |
| `GlobalStacks.GlobalStack.SetProperty` | tests/Settings/TestGlobalStack.py:645-682 | only the target slot's container changes; it then answers the written value unless it is the empty container; written to the user changes, the stack's getProperty answers it too |
| `GlobalStacks.GlobalStack.SetContainerById` | tests/Settings/TestGlobalStack.py:606-714 | installs the registry's first match for the id in the slot, or fails with InvalidContainerError and changes nothing when there is none |
| `GlobalStacks.GlobalStack.SetDefinitionById` | tests/Settings/TestGlobalStack.py:606-614 | the Definition slot gets the first registered definition with that id; with none, InvalidContainerError and no change |
| `GlobalStacks.GlobalStack.SetDefinitionChangesById` | tests/Settings/TestGlobalStack.py:618-626 | the same for the DefinitionChanges slot and "definition_changes" containers |
| `GlobalStacks.GlobalStack.SetMaterialById` | tests/Settings/TestGlobalStack.py:629-637 | the same for the Material slot and "material" containers |
| `GlobalStacks.GlobalStack.SetQualityById` | tests/Settings/TestGlobalStack.py:685-692 | the same for the Quality slot and "quality" containers |
| `GlobalStacks.GlobalStack.SetQualityChangesById` | tests/Settings/TestGlobalStack.py:696-704 | the same for the QualityChanges slot and "quality_changes" containers |
| `GlobalStacks.GlobalStack.SetVariantById` | tests/Settings/TestGlobalStack.py:707-714 | the same for the Variant slot and "variant" containers |
| `GlobalStacks.GlobalStack.AddExtruder` | tests/Settings/TestGlobalStack.py:142-163 | appends the extruder at the end exactly when fewer than machine_extruder_count are attached; otherwise TooManyExtrudersError and the list is unchanged |
| `GlobalStacks.GlobalStack.Deserialize` | tests/Settings/TestGlobalStack.py:306-484 | succeeds exactly when every named id resolves to a registered container of the slot's kind, then each slot holds what Installed gives; an unresolvable id fails with the plain Exception; the stack stays well formed either way |
| `Scenarios.ConstrainScenario` | tests/Settings/TestGlobalStack.py:166-288 | for every slot, a wrongly typed container, one typed for another slot and one of the wrong kind are refused with InvalidContainerError, and a matching one is accepted |
| `Scenarios.StructureScenario` | tests/Settings/TestGlobalStack.py:596-642 | add, insert, remove and setNextStack all raise InvalidOperationError |
| `Scenarios.AddExtruderScenario` | tests/Settings/TestGlobalStack.py:142-163 | with an extruder count of 2, the first two extruders are appended at indices 0 and 1 and the third raises TooManyExtrudersError, leaving two |
| `Scenarios.FallThroughScenario` | tests/Settings/TestGlobalStack.py:488-527 | filling the slots from Definition up to UserChanges, layer_height's value comes each time from the newly filled slot |
| `Scenarios.ValueLadderStep` | tests/Settings/TestGlobalStack.py:513-527 | with empty slots above a filled one and only values below, the filled slot's value is the stack's answer |
| `Scenarios.ResolveScenario` | tests/Settings/TestGlobalStack.py:529-548 | the test's first four steps yield 7.5 (definition only), 5 (user value and resolve), 10 (user value) and 15 (user resolve over the definition's resolve) |
| `Scenarios.LowerValueScenario` | tests/Settings/TestGlobalStack.py:549-563 | a value-and-resolve container alone in any of the five slots between the user changes and the definition yields its value 5, not the definition's resolve |
| `Scenarios.HasUserValueScenario` | tests/Settings/TestGlobalStack.py:567-593 | a layer_height value in the user or quality changes makes hasUserValue true for it, false for another key and for the empty key |
| `Scenarios.SetPropertyScenario` | tests/Settings/TestGlobalStack.py:652-682 | setProperty into any instance slot's own container is read back from that container |
| `Scenarios.SetByIdScenario` | tests/Settings/TestGlobalStack.py:685-692 | setQualityById installs the matching quality container and skips a material of the same id; with an empty registry it raises InvalidContainerError and the slot keeps its container |
| `Scenarios.DeserializeScenario` | tests/Settings/TestGlobalStack.py:306-312 | a document naming only a definition leaves the user changes empty and installs the definition; naming an unknown container raises the plain Exception |
| `Scenarios.TaggedDeserializeScenario` | tests/Settings/TestGlobalStack.py:306-326 | a user-changes id that the registry knows under the tag "registry_mock" is still installed by loading |

## Left out

- Reading stack files and their grammar (`readStack`, the `.cfg` files) are not modelled. `Deserialize` takes the already parsed map from slot to container id. The document's name, version and metadata sections are not modelled.
- Containers are values, not shared objects. A container object held by two slots, or by the caller, would see a `setProperty` made through the stack in the source; in the model only the written slot changes.
- The `propertyChanged` signal and the change notification after a slot assignment are not modelled.
- Slot acceptance is structural: the container's kind and its `"type"` tag. An instance-container subclass with the right tag is the same as any instance container with that tag.
- Only the `"type"` metadata entry is modelled; `getMetaDataEntry` for other entries is not.
- `hasProperty` is taken to hold exactly when `getProperty` is not absent. Some test mocks answer `hasProperty` independently of `getProperty`; that mock-only split is not modelled.
- Values are opaque; floating-point meaning (0.1337, 7.5) and Python's mixing of int and float comparisons are not modelled.
- The registry returns matches in registration order; any other relevance ranking is not modelled.
- GlobalStacks.GlobalStack.Deserialize: loading resolves an id by the id and the slot's structural kind only, as the registry fixture that tags every container "registry_mock" requires; the type tag is not checked on load, and an id registered only as the other kind (a definition named for an instance slot) fails with the plain Exception.
- Monkeypatching of the registry singleton and of the `DefinitionContainer` class in the tests is test scaffolding; the registry is a parameter instead.
- The skipped test at tests/Settings/TestGlobalStack.py:292-303 is not modelled. The variant test at 238-245 is shadowed by the one at 278 and never runs; variants follow the same rule as the other instance slots.
- GlobalStacks.GlobalStack.SetProperty: the target is a `Slot` and must not be `Definition`, which is read-only. The source names targets as strings; an unknown target name is not modelled.
- GlobalStacks.GlobalStack.MachineExtruderCount: a `machine_extruder_count` that resolves to nothing, or to a non-integer, gives capacity 0.
- Loading does not touch the extruder list; the source's effect on it is not visible in the tests.
