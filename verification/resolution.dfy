/** Read-only resolution over the seven slot containers, top (UserChanges)
    to bottom (Definition): the generic fall-through lookup, the two-phase
    rule for the "value" property, and hasUserValue. */
module Resolution {
  import opened Wrappers
  import opened Containers
  import opened Slots

  const ValueProperty: string := "value"
  const ResolveProperty: string := "resolve"

  /** The answer of the topmost container that has the property; absent
      exactly when no container has it. */
  function Lookup(cs: seq<Container>, key: string, prop: string): (r: Option<Value>)
    ensures r.None? <==> NoneAbove(cs, key, prop, |cs|)
  {
    if cs == [] then None
    else if cs[0].HasProperty(key, prop) then cs[0].GetProperty(key, prop)
    else
      assert forall j :: 0 < j < |cs| ==> cs[1..][j - 1] == cs[j];
      Lookup(cs[1..], key, prop)
  }

  /** None of the first n containers has the property. */
  ghost predicate NoneAbove(cs: seq<Container>, key: string, prop: string, n: nat)
    requires n <= |cs|
  {
    forall j :: 0 <= j < n ==> !cs[j].HasProperty(key, prop)
  }

  /** The topmost container with the property decides the lookup. */
  lemma {:induction false} LookupTopmost(cs: seq<Container>, key: string, prop: string, i: nat)
    requires i < |cs| && cs[i].HasProperty(key, prop) && NoneAbove(cs, key, prop, i)
    ensures Lookup(cs, key, prop) == cs[i].GetProperty(key, prop)
  {
    if i > 0 {
      assert !cs[0].HasProperty(key, prop);
      assert forall j :: 0 <= j < i - 1 ==> cs[1..][j] == cs[j + 1];
      LookupTopmost(cs[1..], key, prop, i - 1);
    }
  }

  /** Whatever the lookup answers comes from the topmost container that has
      the property. */
  lemma {:induction false} LookupFound(cs: seq<Container>, key: string, prop: string)
    requires Lookup(cs, key, prop).Some?
    ensures exists i :: 0 <= i < |cs| && cs[i].HasProperty(key, prop) && NoneAbove(cs, key, prop, i)
                        && Lookup(cs, key, prop) == cs[i].GetProperty(key, prop)
  {
    if !cs[0].HasProperty(key, prop) {
      LookupFound(cs[1..], key, prop);
      var i :| 0 <= i < |cs| - 1 && cs[1..][i].HasProperty(key, prop) && NoneAbove(cs[1..], key, prop, i)
               && Lookup(cs[1..], key, prop) == cs[1..][i].GetProperty(key, prop);
      assert forall j :: 0 < j < i + 1 ==> cs[j] == cs[1..][j - 1];
      assert NoneAbove(cs, key, prop, i + 1);
    } else {
      assert NoneAbove(cs, key, prop, 0);
    }
  }

  /** Stacking one run of containers on another: the upper run answers
      when it can, the lower one otherwise. */
  lemma {:induction false} LookupAppend(upper: seq<Container>, lower: seq<Container>, key: string, prop: string)
    ensures Lookup(upper + lower, key, prop)
            == if Lookup(upper, key, prop).Some? then Lookup(upper, key, prop) else Lookup(lower, key, prop)
  {
    if upper == [] {
      assert upper + lower == lower;
    } else {
      assert (upper + lower)[0] == upper[0];
      assert (upper + lower)[1..] == upper[1..] + lower;
      LookupAppend(upper[1..], lower, key, prop);
    }
  }

  /** getProperty(key, "value"): the first value above the definition;
      failing that, the topmost "resolve" of all seven slots; failing that,
      the definition's own value. */
  function ResolvedValue(cs: seq<Container>, key: string): (r: Option<Value>)
    requires |cs| == SlotCount
    ensures r.None? <==> NoneAbove(cs, key, ValueProperty, SlotCount) && NoneAbove(cs, key, ResolveProperty, SlotCount)
    ensures r.Some? ==> exists i :: 0 <= i < SlotCount
                          && (r == cs[i].GetProperty(key, ValueProperty) || r == cs[i].GetProperty(key, ResolveProperty))
  {
    ResolvedValueSources(cs, key);
    var explicit := Lookup(cs[..DefinitionIndex], key, ValueProperty);
    if explicit.Some? then explicit
    else
      var fallback := Lookup(cs, key, ResolveProperty);
      if fallback.Some? then fallback else cs[DefinitionIndex].GetProperty(key, ValueProperty)
  }

  /** Where the three steps of ResolvedValue take their answer from. */
  lemma ResolvedValueSources(cs: seq<Container>, key: string)
    requires |cs| == SlotCount
    ensures var explicit := Lookup(cs[..DefinitionIndex], key, ValueProperty);
            explicit.Some? ==> exists i :: 0 <= i < DefinitionIndex && explicit == cs[i].GetProperty(key, ValueProperty)
    ensures var fallback := Lookup(cs, key, ResolveProperty);
            fallback.Some? ==> exists i :: 0 <= i < SlotCount && fallback == cs[i].GetProperty(key, ResolveProperty)
  {
    if Lookup(cs[..DefinitionIndex], key, ValueProperty).Some? {
      LookupFound(cs[..DefinitionIndex], key, ValueProperty);
    }
    if Lookup(cs, key, ResolveProperty).Some? {
      LookupFound(cs, key, ResolveProperty);
    }
  }

  /** getProperty(key, prop) on the stack: the two-phase rule for "value",
      plain fall-through for every other property. */
  function StackProperty(cs: seq<Container>, key: string, prop: string): (r: Option<Value>)
    requires |cs| == SlotCount
    ensures r.Some? ==> exists i :: 0 <= i < SlotCount
                          && (r == cs[i].GetProperty(key, prop)
                              || (prop == ValueProperty && r == cs[i].GetProperty(key, ResolveProperty)))
    ensures prop != ValueProperty ==> (r.None? <==> NoneAbove(cs, key, prop, SlotCount))
  {
    if prop == ValueProperty then ResolvedValue(cs, key)
    else
      var found := Lookup(cs, key, prop);
      if found.Some? then LookupFound(cs, key, prop); found else found
  }

  /** A value in any slot above the definition beats every "resolve",
      including one in the same or a higher slot. */
  lemma ExplicitValueWins(cs: seq<Container>, key: string, i: nat)
    requires |cs| == SlotCount && i < DefinitionIndex
    requires cs[i].HasProperty(key, ValueProperty) && NoneAbove(cs, key, ValueProperty, i)
    ensures ResolvedValue(cs, key) == cs[i].GetProperty(key, ValueProperty)
  {
    LookupTopmost(cs[..DefinitionIndex], key, ValueProperty, i);
  }

  /** With no value above the definition, the topmost "resolve" wins, even
      over the definition's own value and its own "resolve". */
  lemma TopmostResolveWins(cs: seq<Container>, key: string, i: nat)
    requires |cs| == SlotCount && i < SlotCount
    requires NoneAbove(cs, key, ValueProperty, DefinitionIndex)
    requires cs[i].HasProperty(key, ResolveProperty) && NoneAbove(cs, key, ResolveProperty, i)
    ensures ResolvedValue(cs, key) == cs[i].GetProperty(key, ResolveProperty)
  {
    LookupTopmost(cs, key, ResolveProperty, i);
  }

  /** With neither a value above the definition nor any "resolve", the
      definition's own value (possibly absent) is the answer. */
  lemma DefinitionValueLast(cs: seq<Container>, key: string)
    requires |cs| == SlotCount
    requires NoneAbove(cs, key, ValueProperty, DefinitionIndex)
    requires NoneAbove(cs, key, ResolveProperty, SlotCount)
    ensures ResolvedValue(cs, key) == cs[DefinitionIndex].GetProperty(key, ValueProperty)
  {
  }

  /** Where no slot defines a "resolve", "value" resolves by the same plain
      fall-through as every other property. */
  lemma WithoutResolveValueFallsThrough(cs: seq<Container>, key: string)
    requires |cs| == SlotCount
    requires NoneAbove(cs, key, ResolveProperty, SlotCount)
    ensures ResolvedValue(cs, key) == Lookup(cs, key, ValueProperty)
  {
    assert cs == cs[..DefinitionIndex] + [cs[DefinitionIndex]];
    LookupAppend(cs[..DefinitionIndex], [cs[DefinitionIndex]], key, ValueProperty);
    assert [cs[DefinitionIndex]][1..] == [];
  }

  /** One probe of the resolution order: a slot and the property asked of it. */
  datatype Probe = Probe(layer: nat, prop: string)

  /** prop asked of slots lo .. hi-1 in turn. */
  function Probes(lo: nat, hi: nat, prop: string): (ps: seq<Probe>)
    ensures forall p :: p in ps ==> lo <= p.layer < hi
    decreases hi - lo
  {
    if lo >= hi then [] else [Probe(lo, prop)] + Probes(lo + 1, hi, prop)
  }

  /** The fourteen probes of "value" resolution in priority order: each
      value above the definition, then each slot's "resolve", then the
      definition's value. */
  function ValueResolutionOrder(): (ps: seq<Probe>)
    ensures forall p :: p in ps ==> p.layer < SlotCount
  {
    Probes(0, DefinitionIndex, ValueProperty) + Probes(0, SlotCount, ResolveProperty)
      + [Probe(DefinitionIndex, ValueProperty)]
  }

  /** The first probe that finds something. */
  function FirstAnswer(cs: seq<Container>, key: string, ps: seq<Probe>): Option<Value>
    requires forall p :: p in ps ==> p.layer < |cs|
  {
    if ps == [] then None
    else
      var a := cs[ps[0].layer].GetProperty(key, ps[0].prop);
      if a.Some? then a else FirstAnswer(cs, key, ps[1..])
  }

  lemma {:induction false} FirstAnswerAppend(cs: seq<Container>, key: string, ps: seq<Probe>, qs: seq<Probe>)
    requires forall p :: p in ps + qs ==> p.layer < |cs|
    ensures FirstAnswer(cs, key, ps + qs)
            == if FirstAnswer(cs, key, ps).Some? then FirstAnswer(cs, key, ps) else FirstAnswer(cs, key, qs)
  {
    if ps == [] {
      assert ps + qs == qs;
    } else {
      assert (ps + qs)[0] == ps[0];
      assert (ps + qs)[1..] == ps[1..] + qs;
      FirstAnswerAppend(cs, key, ps[1..], qs);
    }
  }

  /** Probing one property slot by slot is the fall-through lookup over
      those slots. */
  lemma {:induction false} FirstAnswerIsLookup(cs: seq<Container>, key: string, prop: string, lo: nat, hi: nat)
    requires lo <= hi <= |cs|
    ensures FirstAnswer(cs, key, Probes(lo, hi, prop)) == Lookup(cs[lo..hi], key, prop)
    decreases hi - lo
  {
    if lo < hi {
      FirstAnswerIsLookup(cs, key, prop, lo + 1, hi);
      assert cs[lo..hi][1..] == cs[lo + 1..hi];
    }
  }

  /** The two-phase rule is a single fall-through over the fourteen probes
      of ValueResolutionOrder. */
  lemma ResolvedValueFollowsOrder(cs: seq<Container>, key: string)
    requires |cs| == SlotCount
    ensures ResolvedValue(cs, key) == FirstAnswer(cs, key, ValueResolutionOrder())
  {
    var values := Probes(0, DefinitionIndex, ValueProperty);
    var resolves := Probes(0, SlotCount, ResolveProperty);
    var last := [Probe(DefinitionIndex, ValueProperty)];
    assert ValueResolutionOrder() == values + (resolves + last);
    FirstAnswerAppend(cs, key, values, resolves + last);
    FirstAnswerAppend(cs, key, resolves, last);
    FirstAnswerIsLookup(cs, key, ValueProperty, 0, DefinitionIndex);
    FirstAnswerIsLookup(cs, key, ResolveProperty, 0, SlotCount);
    assert cs[0..DefinitionIndex] == cs[..DefinitionIndex];
    assert cs[0..SlotCount] == cs;
    assert last[1..] == [];
  }

  /** Whether the operator or the active quality-changes profile set a value
      for the key. */
  predicate HasUserValue(cs: seq<Container>, key: string)
    requires |cs| == SlotCount
    ensures HasUserValue(cs, key) <==> Lookup(cs[..QualityChanges.Index() + 1], key, ValueProperty).Some?
  {
    assert cs[..2][0] == cs[0] && cs[..2][1] == cs[1];
    cs[UserChanges.Index()].HasProperty(key, ValueProperty)
      || cs[QualityChanges.Index()].HasProperty(key, ValueProperty)
  }

  /** A user value is what the stack resolves "value" to: the user changes'
      value if it has one, the quality changes' otherwise. */
  lemma UserValueWins(cs: seq<Container>, key: string)
    requires |cs| == SlotCount && HasUserValue(cs, key)
    ensures ResolvedValue(cs, key).Some?
    ensures ResolvedValue(cs, key)
            == if cs[0].HasProperty(key, ValueProperty) then cs[0].GetProperty(key, ValueProperty)
               else cs[1].GetProperty(key, ValueProperty)
  {
    if cs[0].HasProperty(key, ValueProperty) {
      ExplicitValueWins(cs, key, 0);
    } else {
      ExplicitValueWins(cs, key, 1);
    }
  }
}
