/** The container registry the stack consults to turn an id into a
    container, passed in explicitly as the registered containers in the
    registry's own order. */
module Registry {
  import opened Containers
  import opened Slots

  /** Whether a registered container answers a query for the id on behalf of
      the slot. The id setters ask for the slot's type (the slot must accept
      the container); loading asks only for the slot's structural kind. */
  predicate Matches(c: Container, id: string, slot: Slot, byType: bool)
  {
    c.id == id && if byType then Accepts(slot, c) else Admissible(slot, c)
  }

  /** The registered containers that match, in registry order; callers
      install the first. */
  function Find(registry: seq<Container>, id: string, slot: Slot, byType: bool): (found: seq<Container>)
    ensures forall c :: c in found ==> c in registry && Matches(c, id, slot, byType)
    ensures forall c :: c in registry && Matches(c, id, slot, byType) ==> c in found
  {
    if registry == [] then []
    else (if Matches(registry[0], id, slot, byType) then [registry[0]] else []) + Find(registry[1..], id, slot, byType)
  }

  /** The container installed is the earliest registered match. */
  lemma {:induction false} FindFirstMatch(registry: seq<Container>, id: string, slot: Slot, byType: bool)
    requires Find(registry, id, slot, byType) != []
    ensures exists i :: 0 <= i < |registry| && registry[i] == Find(registry, id, slot, byType)[0]
                        && (forall j :: 0 <= j < i ==> !Matches(registry[j], id, slot, byType))
  {
    if !Matches(registry[0], id, slot, byType) {
      var rest := registry[1..];
      assert Find(registry, id, slot, byType) == Find(rest, id, slot, byType);
      FindFirstMatch(rest, id, slot, byType);
      var i :| 0 <= i < |rest| && rest[i] == Find(rest, id, slot, byType)[0]
               && (forall j :: 0 <= j < i ==> !Matches(rest[j], id, slot, byType));
      assert forall j :: 0 < j <= i ==> registry[j] == rest[j - 1];
      assert registry[i + 1] == Find(registry, id, slot, byType)[0];
    } else {
      assert registry[0] == Find(registry, id, slot, byType)[0];
    }
  }
}
