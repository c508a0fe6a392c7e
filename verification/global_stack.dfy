/** The global stack: seven typed slots that resolve settings top-down, and
    the list of extruder stacks attached to it. */
module GlobalStacks {
  import opened Wrappers
  import opened Containers
  import opened Slots
  import opened Resolution
  import opened Registry

  /** The errors the stack raises; Exception is the plain, untyped failure of
      loading a stack that names an unknown container. */
  datatype Error = InvalidContainerError | InvalidOperationError | TooManyExtrudersError | Exception

  /** An extruder stack as the global stack sees it: an identity it can list. */
  datatype Extruder = Extruder(id: string)

  const ExtruderCountKey: string := "machine_extruder_count"

  /** What loading installs in a slot: the empty container when the document
      names nothing for it, the earliest registered container with the named
      id and of the slot's kind otherwise, and None when there is none. */
  function Installed(refs: map<Slot, string>, registry: seq<Container>, s: Slot): (r: Option<Container>)
    ensures s !in refs ==> r == Some(Empty)
    ensures s in refs ==> (r.None? <==> forall c :: c in registry ==> !Matches(c, refs[s], s, false))
    ensures s in refs && r.Some? ==>
              r.value in registry && r.value.id == refs[s] && Admissible(s, r.value)
              && r.value == Find(registry, refs[s], s, false)[0]
  {
    if s !in refs then Some(Empty)
    else
      var found := Find(registry, refs[s], s, false);
      if found == [] then None else assert found[0] in found; Some(found[0])
  }

  /** The outcome of an id setter: with no match the error and no change,
      otherwise the first match installed in the slot. */
  ghost predicate InstalledById(before: seq<Container>, after: seq<Container>, s: Slot,
                                found: seq<Container>, r: Outcome<Error>)
    requires |before| == SlotCount
  {
    if found == [] then r == Fail(InvalidContainerError) && after == before
    else r == Pass && after == before[s.Index() := found[0]]
  }

  class GlobalStack {
    const id: string
    var containers: seq<Container>
    var extruders: seq<Extruder>

    ghost predicate Valid()
      reads this
    {
      WellFormed(containers)
    }

    /** A new stack has the empty container in every slot and no extruders. */
    constructor (id: string)
      ensures Valid() && this.id == id
      ensures containers == seq(SlotCount, _ => Empty) && extruders == []
    {
      this.id := id;
      containers := seq(SlotCount, _ => Empty);
      extruders := [];
    }

    /** The container in a slot, never missing. */
    function GetContainer(s: Slot): (c: Container)
      reads this
      requires Valid()
      ensures Admissible(s, c)
    {
      SlotIndexRoundTrip(s);
      containers[s.Index()]
    }

    /** Assigning a slot (stack.userChanges = c, stack.definition = c, ...):
        all or nothing. */
    method SetContainer(s: Slot, c: Container) returns (r: Outcome<Error>)
      requires Valid()
      modifies this`containers
      ensures Valid()
      ensures r == if Accepts(s, c) then Pass else Fail(InvalidContainerError)
      ensures containers == if r.Pass? then old(containers)[s.Index() := c] else old(containers)
    {
      if !Accepts(s, c) {
        return Fail(InvalidContainerError);
      }
      SlotIndexRoundTrip(s);
      containers := containers[s.Index() := c];
      r := Pass;
    }

    /** The slots are fixed: adding a container is refused. */
    method AddContainer(c: Container) returns (r: Outcome<Error>)
      ensures r == Fail(InvalidOperationError)
    {
      r := Fail(InvalidOperationError);
    }

    /** The slots are fixed: inserting a container is refused. */
    method InsertContainer(index: int, c: Container) returns (r: Outcome<Error>)
      ensures r == Fail(InvalidOperationError)
    {
      r := Fail(InvalidOperationError);
    }

    /** The slots are fixed: removing a container is refused. */
    method RemoveContainer(c: Container) returns (r: Outcome<Error>)
      ensures r == Fail(InvalidOperationError)
    {
      r := Fail(InvalidOperationError);
    }

    /** A global stack is the root of resolution: it takes no next stack. */
    method SetNextStack(next: GlobalStack) returns (r: Outcome<Error>)
      ensures r == Fail(InvalidOperationError)
    {
      r := Fail(InvalidOperationError);
    }

    /** getProperty(key, prop) over the seven slots. */
    function GetProperty(key: string, prop: string): (r: Option<Value>)
      reads this
      requires Valid()
      ensures r.Some? ==> exists s: Slot :: r == GetContainer(s).GetProperty(key, prop)
                            || (prop == ValueProperty && r == GetContainer(s).GetProperty(key, ResolveProperty))
    {
      var r := StackProperty(containers, key, prop);
      if r.Some? then
        var i :| 0 <= i < SlotCount
                 && (r == containers[i].GetProperty(key, prop)
                     || (prop == ValueProperty && r == containers[i].GetProperty(key, ResolveProperty)));
        assert GetContainer(SlotAt(i)) == containers[i];
        r
      else r
    }

    /** Whether the user changes or the quality changes set a value for the
        key; such a value is what the stack resolves "value" to. */
    function HasUserValue(key: string): (r: bool)
      reads this
      requires Valid()
      ensures r <==> GetContainer(UserChanges).HasProperty(key, ValueProperty)
                     || GetContainer(QualityChanges).HasProperty(key, ValueProperty)
      ensures r ==> GetProperty(key, ValueProperty).Some?
    {
      if Resolution.HasUserValue(containers, key) then UserValueWins(containers, key); true else false
    }

    /** The extruder capacity, the integer the stack resolves
        machine_extruder_count's value to (0 when it resolves to no integer). */
    function MachineExtruderCount(): (count: int)
      reads this
      requires Valid()
      ensures count != 0 ==> GetProperty(ExtruderCountKey, ValueProperty) == Some(IntValue(count))
    {
      match GetProperty(ExtruderCountKey, ValueProperty)
      case Some(IntValue(n)) => n
      case _ => 0
    }

    /** Writes a property into the container of an instance slot, the user
        changes unless told otherwise; the empty container ignores it. */
    method SetProperty(key: string, prop: string, v: Value, target: Slot := UserChanges)
      requires Valid() && target != Definition
      modifies this`containers
      ensures Valid()
      ensures containers == old(containers)[target.Index() := old(containers)[target.Index()].SetProperty(key, prop, v)]
      ensures old(GetContainer(target)) != Empty ==> GetContainer(target).GetProperty(key, prop) == Some(v)
      ensures target == UserChanges && old(GetContainer(target)) != Empty ==> GetProperty(key, prop) == Some(v)
    {
      SlotIndexRoundTrip(target);
      var i := target.Index();
      var updated := containers[i].SetProperty(key, prop, v);
      containers := containers[i := updated];
      if target == UserChanges && updated != Empty {
        if prop == ValueProperty {
          ExplicitValueWins(containers, key, 0);
        } else {
          LookupTopmost(containers, key, prop, 0);
        }
      }
    }

    /** Installs the registry's first match for the id, or raises
        InvalidContainerError and changes nothing. */
    method SetContainerById(s: Slot, registry: seq<Container>, containerId: string) returns (r: Outcome<Error>)
      requires Valid()
      modifies this`containers
      ensures Valid()
      ensures InstalledById(old(containers), containers, s, Find(registry, containerId, s, true), r)
    {
      var found := Find(registry, containerId, s, true);
      if found == [] {
        return Fail(InvalidContainerError);
      }
      assert found[0] in found;
      r := SetContainer(s, found[0]);
    }

    method SetDefinitionById(registry: seq<Container>, containerId: string) returns (r: Outcome<Error>)
      requires Valid()
      modifies this`containers
      ensures Valid()
      ensures InstalledById(old(containers), containers, Definition, Find(registry, containerId, Definition, true), r)
    {
      r := SetContainerById(Definition, registry, containerId);
    }

    method SetDefinitionChangesById(registry: seq<Container>, containerId: string) returns (r: Outcome<Error>)
      requires Valid()
      modifies this`containers
      ensures Valid()
      ensures InstalledById(old(containers), containers, DefinitionChanges, Find(registry, containerId, DefinitionChanges, true), r)
    {
      r := SetContainerById(DefinitionChanges, registry, containerId);
    }

    method SetMaterialById(registry: seq<Container>, containerId: string) returns (r: Outcome<Error>)
      requires Valid()
      modifies this`containers
      ensures Valid()
      ensures InstalledById(old(containers), containers, Material, Find(registry, containerId, Material, true), r)
    {
      r := SetContainerById(Material, registry, containerId);
    }

    method SetQualityById(registry: seq<Container>, containerId: string) returns (r: Outcome<Error>)
      requires Valid()
      modifies this`containers
      ensures Valid()
      ensures InstalledById(old(containers), containers, Quality, Find(registry, containerId, Quality, true), r)
    {
      r := SetContainerById(Quality, registry, containerId);
    }

    method SetQualityChangesById(registry: seq<Container>, containerId: string) returns (r: Outcome<Error>)
      requires Valid()
      modifies this`containers
      ensures Valid()
      ensures InstalledById(old(containers), containers, QualityChanges, Find(registry, containerId, QualityChanges, true), r)
    {
      r := SetContainerById(QualityChanges, registry, containerId);
    }

    method SetVariantById(registry: seq<Container>, containerId: string) returns (r: Outcome<Error>)
      requires Valid()
      modifies this`containers
      ensures Valid()
      ensures InstalledById(old(containers), containers, Variant, Find(registry, containerId, Variant, true), r)
    {
      r := SetContainerById(Variant, registry, containerId);
    }

    /** Appends an extruder while there are fewer than the machine's
        extruder count; otherwise raises TooManyExtrudersError and leaves the
        list as it was. */
    method AddExtruder(e: Extruder) returns (r: Outcome<Error>)
      requires Valid()
      modifies this`extruders
      ensures Valid()
      ensures r == if |old(extruders)| < MachineExtruderCount() then Pass else Fail(TooManyExtrudersError)
      ensures extruders == if r.Pass? then old(extruders) + [e] else old(extruders)
      ensures r.Pass? ==> |extruders| <= MachineExtruderCount() && extruders[|extruders| - 1] == e
    {
      if |extruders| < MachineExtruderCount() {
        extruders := extruders + [e];
        r := Pass;
      } else {
        r := Fail(TooManyExtrudersError);
      }
    }

    /** Loads the stack from a parsed document naming a container id per
        slot. Slots it names nothing for get the empty container; an id the
        registry cannot resolve raises the plain Exception, with the slots
        before it already replaced. */
    method Deserialize(refs: map<Slot, string>, registry: seq<Container>) returns (r: Outcome<Error>)
      requires Valid()
      modifies this`containers
      ensures Valid()
      ensures r.Pass? <==> forall s: Slot :: Installed(refs, registry, s).Some?
      ensures r.Fail? ==> r.error == Exception
      ensures r.Pass? ==> forall s: Slot :: Installed(refs, registry, s) == Some(containers[s.Index()])
    {
      var i := 0;
      while i < SlotCount
        invariant 0 <= i <= SlotCount
        invariant WellFormed(containers)
        invariant forall j :: 0 <= j < i ==> Installed(refs, registry, SlotAt(j)) == Some(containers[j])
      {
        var s := SlotAt(i);
        var slotContainer := Installed(refs, registry, s);
        if slotContainer.None? {
          return Fail(Exception);
        }
        containers := containers[i := slotContainer.value];
        i := i + 1;
      }
      forall s: Slot
        ensures Installed(refs, registry, s) == Some(containers[s.Index()])
      {
        SlotIndexRoundTrip(s);
      }
      r := Pass;
    }
  }
}
