/** The stack's behaviour on the concrete situations the GlobalStack test
    suite sets up, derived from the contracts of GlobalStack alone. */
module Scenarios {
  import opened Wrappers
  import opened Containers
  import opened Slots
  import opened Resolution
  import opened Registry
  import opened GlobalStacks

  /** A container the slot accepts: a definition for the Definition slot,
      an instance container tagged with the slot's name otherwise. */
  function Typed(s: Slot, id: string, properties: PropertyMap): (c: Container)
    ensures Accepts(s, c) && c.id == id && c.properties == properties
  {
    if s == Definition then DefinitionContainer(id, properties)
    else InstanceContainer(id, s.TypeName(), properties)
  }

  /** Containers of the wrong type or kind are refused by every slot, and
      containers of the right one accepted. */
  method ConstrainScenario(s: Slot) returns (wrongType: Outcome<Error>, otherSlotType: Outcome<Error>,
                                             wrongKind: Outcome<Error>, right: Outcome<Error>)
    ensures wrongType == Fail(InvalidContainerError) && otherSlotType == Fail(InvalidContainerError)
    ensures wrongKind == Fail(InvalidContainerError) && right == Pass
  {
    var stack := new GlobalStack("TestStack");
    wrongType := stack.SetContainer(s, InstanceContainer("InstanceContainer", "wrong container type", map[]));
    var other := if s == Material then Quality else Material;
    otherSlotType := stack.SetContainer(s, InstanceContainer("InstanceContainer", other.TypeName(), map[]));
    var misfit := if s == Definition then InstanceContainer("wrong class", "material", map[])
                  else DefinitionContainer("wrong class", map[]);
    wrongKind := stack.SetContainer(s, misfit);
    right := stack.SetContainer(s, Typed(s, "SubContainer", map[]));
  }

  /** Adding, inserting, removing containers and chaining a next stack are
      all refused. */
  method StructureScenario() returns (outcomes: seq<Outcome<Error>>)
    ensures outcomes == [Fail(InvalidOperationError), Fail(InvalidOperationError),
                         Fail(InvalidOperationError), Fail(InvalidOperationError)]
  {
    var stack := new GlobalStack("TestStack");
    var other := new GlobalStack("Other");
    var added := stack.AddContainer(Empty);
    var inserted := stack.InsertContainer(0, Empty);
    var removed := stack.RemoveContainer(Empty);
    var chained := stack.SetNextStack(other);
    outcomes := [added, inserted, removed, chained];
  }

  /** A definition reporting two extruders admits two, at indices 0 and 1,
      and refuses the third. */
  method AddExtruderScenario() returns (first: Outcome<Error>, second: Outcome<Error>,
                                        third: Outcome<Error>, extruders: seq<Extruder>)
    ensures first == Pass && second == Pass && third == Fail(TooManyExtrudersError)
    ensures extruders == [Extruder("first"), Extruder("second")]
  {
    var stack := new GlobalStack("TestStack");
    var definition := DefinitionContainer("mock_definition", map[ExtruderCountKey := map[ValueProperty := IntValue(2)]]);
    var installed := stack.SetContainer(Definition, definition);
    DefinitionValueLast(stack.containers, ExtruderCountKey);
    assert stack.MachineExtruderCount() == 2;
    first := stack.AddExtruder(Extruder("first"));
    second := stack.AddExtruder(Extruder("second"));
    third := stack.AddExtruder(Extruder("third"));
    extruders := stack.extruders;
  }

  /** Filling the slots from the bottom up: each newly filled slot decides
      layer_height's value. Each slot's container answers with its own
      index. */
  method FallThroughScenario() returns (results: seq<Option<Value>>)
    ensures results == [Some(IntValue(6)), Some(IntValue(5)), Some(IntValue(4)), Some(IntValue(3)),
                        Some(IntValue(2)), Some(IntValue(1)), Some(IntValue(0))]
  {
    var key := "layer_height";
    var stack := new GlobalStack("TestStack");
    var i := 0;
    while i < DefinitionIndex
      invariant 0 <= i <= DefinitionIndex && stack.Valid()
      invariant forall j :: 0 <= j < SlotCount ==> stack.containers[j].properties == map[]
    {
      var _ := stack.SetContainer(SlotAt(i), Typed(SlotAt(i), "no_settings", map[]));
      i := i + 1;
    }
    results := [];
    var level := SlotCount;
    while level > 0
      invariant 0 <= level <= SlotCount && stack.Valid()
      invariant forall j :: 0 <= j < level ==> stack.containers[j].properties == map[]
      invariant forall j :: level <= j < SlotCount ==>
                  stack.containers[j].properties == map[key := map[ValueProperty := IntValue(j)]]
      invariant |results| == SlotCount - level
      invariant forall n :: 0 <= n < |results| ==> results[n] == Some(IntValue(SlotCount - 1 - n))
    {
      level := level - 1;
      var layerHeight := Typed(SlotAt(level), "layer_height", map[key := map[ValueProperty := IntValue(level)]]);
      var _ := stack.SetContainer(SlotAt(level), layerHeight);
      ValueLadderStep(stack.containers, key, level);
      results := results + [stack.GetProperty(key, ValueProperty)];
    }
  }

  /** One rung of the ladder: with empty slots above and only values below,
      the filled slot answers. */
  lemma ValueLadderStep(cs: seq<Container>, key: string, level: nat)
    requires |cs| == SlotCount && level < SlotCount
    requires forall j :: 0 <= j < level ==> cs[j].properties == map[]
    requires forall j :: level <= j < SlotCount ==> cs[j].properties == map[key := map[ValueProperty := IntValue(j)]]
    ensures StackProperty(cs, key, ValueProperty) == Some(IntValue(level))
  {
    assert forall j :: 0 <= j < SlotCount ==> !cs[j].HasProperty(key, ResolveProperty);
    WithoutResolveValueFallsThrough(cs, key);
    LookupTopmost(cs, key, ValueProperty, level);
  }

  /** The container contents of the "value"/"resolve" tests on
      material_bed_temperature. */
  const BedTemperature: string := "material_bed_temperature"
  const ResolveAndValue: PropertyMap :=
    map[BedTemperature := map[ValueProperty := IntValue(5), ResolveProperty := RealValue(7.5)]]

  /** The definition's resolve beats its own value, a user value beats
      every resolve, and the topmost resolve beats the definition's. */
  method ResolveScenario() returns (results: seq<Option<Value>>)
    ensures results == [Some(RealValue(7.5)), Some(IntValue(5)), Some(IntValue(10)), Some(IntValue(15))]
  {
    var key := BedTemperature;
    var stack := new GlobalStack("TestStack");

    var outcome := stack.SetContainer(Definition, DefinitionContainer("resolve_and_value", ResolveAndValue));
    TopmostResolveWins(stack.containers, key, DefinitionIndex);
    var definitionOnly := stack.GetProperty(key, ValueProperty);

    outcome := stack.SetContainer(UserChanges, InstanceContainer("resolve_and_value", "user", ResolveAndValue));
    ExplicitValueWins(stack.containers, key, 0);
    var userBoth := stack.GetProperty(key, ValueProperty);

    outcome := stack.SetContainer(UserChanges,
      InstanceContainer("value", "user", map[key := map[ValueProperty := IntValue(10)]]));
    ExplicitValueWins(stack.containers, key, 0);
    var userValue := stack.GetProperty(key, ValueProperty);

    outcome := stack.SetContainer(UserChanges,
      InstanceContainer("resolve", "user", map[key := map[ResolveProperty := IntValue(15)]]));
    TopmostResolveWins(stack.containers, key, 0);
    var userResolve := stack.GetProperty(key, ValueProperty);

    results := [definitionOnly, userBoth, userValue, userResolve];
  }

  /** A value-and-resolve container in any one slot between the user
      changes and the definition gives its value, not the definition's
      resolve. */
  method LowerValueScenario() returns (results: seq<Option<Value>>)
    ensures results == [Some(IntValue(5)), Some(IntValue(5)), Some(IntValue(5)), Some(IntValue(5)), Some(IntValue(5))]
  {
    var key := BedTemperature;
    var stack := new GlobalStack("TestStack");
    var outcome := stack.SetContainer(Definition, DefinitionContainer("resolve_and_value", ResolveAndValue));
    outcome := stack.SetContainer(UserChanges, InstanceContainer("empty", "user", map[]));
    results := [];
    var i := 1;
    while i < DefinitionIndex
      invariant 1 <= i <= DefinitionIndex && stack.Valid()
      invariant |results| == i - 1
      invariant forall n :: 0 <= n < |results| ==> results[n] == Some(IntValue(5))
      invariant forall j :: 0 <= j < i ==> stack.containers[j].properties == map[]
    {
      outcome := stack.SetContainer(SlotAt(i), Typed(SlotAt(i), "resolve_and_value", ResolveAndValue));
      ExplicitValueWins(stack.containers, key, i);
      results := results + [stack.GetProperty(key, ValueProperty)];
      outcome := stack.SetContainer(SlotAt(i), Typed(SlotAt(i), "empty", map[]));
      i := i + 1;
    }
  }

  /** hasUserValue sees a value set in the user changes or in the quality
      changes, and nothing for other keys or the empty key. */
  method HasUserValueScenario(s: Slot) returns (unrelated: bool, layerHeight: bool, emptyKey: bool)
    requires s == UserChanges || s == QualityChanges
    ensures !unrelated && layerHeight && !emptyKey
  {
    var stack := new GlobalStack("TestStack");
    var changes := Typed(s, "test_changes", map["layer_height" := map[ValueProperty := RealValue(0.1)]]);
    var _ := stack.SetContainer(s, changes);
    unrelated := stack.HasUserValue("infill_sparse_density");
    layerHeight := stack.HasUserValue("layer_height");
    emptyKey := stack.HasUserValue("");
  }

  /** setProperty stores the value in the chosen slot's container, which
      then answers it. */
  method SetPropertyScenario(target: Slot, key: string, prop: string, v: Value) returns (stored: Option<Value>)
    requires target != Definition
    ensures stored == Some(v)
  {
    var stack := new GlobalStack("TestStack");
    var _ := stack.SetContainer(target, Typed(target, "test_" + target.TypeName(), map[]));
    stack.SetProperty(key, prop, v, target);
    stored := stack.GetContainer(target).GetProperty(key, prop);
  }

  /** An id setter installs the registry's matching container, and fails with
      InvalidContainerError, leaving the slot as it was, when the registry has
      none. */
  method SetByIdScenario() returns (found: Outcome<Error>, installed: Container, missing: Outcome<Error>, kept: Container)
    ensures found == Pass && installed == InstanceContainer("some_quality", "quality", map[])
    ensures missing == Fail(InvalidContainerError) && kept == installed
  {
    var quality := InstanceContainer("some_quality", "quality", map[]);
    var registry := [InstanceContainer("some_quality", "material", map[]), quality];
    var stack := new GlobalStack("TestStack");
    assert Find(registry[1..], "some_quality", Quality, true) == [quality];
    found := stack.SetQualityById(registry, "some_quality");
    installed := stack.GetContainer(Quality);
    missing := stack.SetQualityById([], "some_quality");
    kept := stack.GetContainer(Quality);
  }

  /** Loading a document that names only a definition fills the other slots
      with the empty container; naming an unknown container raises the plain
      Exception. */
  method DeserializeScenario() returns (loaded: Outcome<Error>, userChanges: Container, definition: Container,
                                        unknown: Outcome<Error>)
    ensures loaded == Pass && userChanges == Empty
    ensures definition == DefinitionContainer("some_definition", map[])
    ensures unknown == Fail(Exception)
  {
    var registry := [DefinitionContainer("some_definition", map[])];
    var stack := new GlobalStack("TestStack");
    loaded := stack.Deserialize(map[Definition := "some_definition"], registry);
    userChanges := stack.GetContainer(UserChanges);
    definition := stack.GetContainer(Definition);
    var unknownRefs := map[Definition := "some_definition", UserChanges := "unknown_user_changes"];
    unknown := stack.Deserialize(unknownRefs, registry);
    assert Installed(unknownRefs, registry, UserChanges).None?;
  }

  /** Loading installs a named instance container whatever its type tag, as
      a registry whose containers are all tagged alike does. */
  method TaggedDeserializeScenario() returns (loaded: Outcome<Error>, userChanges: Container)
    ensures loaded == Pass
    ensures userChanges == InstanceContainer("some_user_changes", "registry_mock", map[])
  {
    var mockUserChanges := InstanceContainer("some_user_changes", "registry_mock", map[]);
    var registry := [DefinitionContainer("some_definition", map[]), mockUserChanges];
    var refs := map[Definition := "some_definition", UserChanges := "some_user_changes"];
    assert Find(registry[1..], "some_user_changes", UserChanges, false) == [mockUserChanges];
    assert Find(registry, "some_user_changes", UserChanges, false) == [mockUserChanges];
    forall s: Slot
      ensures Installed(refs, registry, s).Some?
    {
      if s == Definition {
        assert Matches(registry[0], "some_definition", Definition, false);
      }
    }
    var stack := new GlobalStack("TestStack");
    loaded := stack.Deserialize(refs, registry);
    userChanges := stack.GetContainer(UserChanges);
  }
}
