/** The seven fixed slots of a global stack, from highest to lowest
    priority, and the rule for what each slot accepts. */
module Slots {
  import opened Containers

  datatype Slot = UserChanges | QualityChanges | Quality | Material | Variant | DefinitionChanges | Definition
  {
    /** Position in the stack; 0 is consulted first. */
    function Index(): nat
    {
      match this
      case UserChanges => 0
      case QualityChanges => 1
      case Quality => 2
      case Material => 3
      case Variant => 4
      case DefinitionChanges => 5
      case Definition => 6
    }

    /** The "type" metadata an instance container needs to fill this slot,
        which is also the name setProperty uses for it. */
    function TypeName(): string
    {
      match this
      case UserChanges => "user"
      case QualityChanges => "quality_changes"
      case Quality => "quality"
      case Material => "material"
      case Variant => "variant"
      case DefinitionChanges => "definition_changes"
      case Definition => "definition"
    }
  }

  const SlotCount: nat := 7

  /** Index of the Definition slot, the last one. */
  const DefinitionIndex: nat := 6

  function SlotAt(i: nat): (s: Slot)
    requires i < SlotCount
    ensures s.Index() == i
  {
    [UserChanges, QualityChanges, Quality, Material, Variant, DefinitionChanges, Definition][i]
  }

  lemma SlotIndexRoundTrip(s: Slot)
    ensures s.Index() < SlotCount && SlotAt(s.Index()) == s
  {
  }

  /** The check made when a container is assigned to a slot: the Definition
      slot takes only definition containers, every other slot only instance
      containers whose type tag is the slot's name. */
  predicate Accepts(s: Slot, c: Container)
    ensures Accepts(s, c) ==> c != Empty && Admissible(s, c)
    ensures s != Definition && c.InstanceContainer? && c.typeTag != s.TypeName() ==> !Accepts(s, c)
  {
    if s == Definition then c.DefinitionContainer?
    else c.InstanceContainer? && c.typeTag == s.TypeName()
  }

  /** What a slot may hold: a container of the slot's structural kind (an
      instance container in the six upper slots, a definition container in
      the last), or the empty container every slot starts with. Loading a
      stack installs containers by id and kind without checking the type
      tag, so this is the invariant every operation keeps. */
  predicate Admissible(s: Slot, c: Container)
  {
    if s == Definition then c.DefinitionContainer? || c == Empty else c.InstanceContainer?
  }

  /** The stack's central invariant: exactly seven slots, each holding an
      admissible container. */
  predicate WellFormed(cs: seq<Container>)
  {
    |cs| == SlotCount && forall i :: 0 <= i < SlotCount ==> Admissible(SlotAt(i), cs[i])
  }

  /** A container fits at most one slot, and the empty container is
      accepted by none: it can only be installed by creating or loading a
      stack. */
  lemma AcceptedByOneSlot(s1: Slot, s2: Slot, c: Container)
    requires Accepts(s1, c) && Accepts(s2, c)
    ensures s1 == s2
    ensures c != Empty
  {
  }
}
