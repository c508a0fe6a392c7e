/** The containers a stack holds in its slots: a property table
    (setting key -> property name -> value, the two-level dictionary of the
    test's MockContainer) with an id, and for instance containers the "type"
    metadata entry that slot assignment checks. */
module Containers {
  import opened Wrappers

  /** Setting values are opaque to the stack; these cases cover what the
      tests store (integers, floats, booleans and strings). */
  datatype Value = IntValue(i: int) | RealValue(r: real) | BoolValue(b: bool) | TextValue(s: string)

  /** setting key -> property name -> value */
  type PropertyMap = map<string, map<string, Value>>

  /** Absent when the key is unknown or the key lacks that property. */
  function Get(m: PropertyMap, key: string, prop: string): (r: Option<Value>)
    ensures key !in m ==> r.None?
    ensures r.Some? <==> key in m && prop in m[key]
    ensures r.Some? ==> r.value == m[key][prop]
  {
    if key !in m then None
    else if prop !in m[key] then None
    else Some(m[key][prop])
  }

  /** Creates the key's inner table on first use, then stores the property. */
  function Put(m: PropertyMap, key: string, prop: string, v: Value): (r: PropertyMap)
    ensures Get(r, key, prop) == Some(v)
    ensures forall k, p :: k != key || p != prop ==> Get(r, k, p) == Get(m, k, p)
    ensures r.Keys == m.Keys + {key}
  {
    if key !in m then m[key := map[prop := v]]
    else m[key := m[key][prop := v]]
  }

  /** The two structural kinds of container: instance containers carry
      overrides and presets and a "type" tag; definition containers carry the
      machine's settings schema and its defaults. */
  datatype Container =
    | InstanceContainer(id: string, typeTag: string, properties: PropertyMap)
    | DefinitionContainer(id: string, properties: PropertyMap)
  {
    function GetProperty(key: string, prop: string): (r: Option<Value>)
      ensures this == Empty ==> r.None?
      ensures r.Some? ==> key in properties && prop in properties[key] && r.value == properties[key][prop]
    {
      Get(properties, key, prop)
    }

    predicate HasProperty(key: string, prop: string)
    {
      GetProperty(key, prop).Some?
    }

    /** Writes into an instance container; the shared empty container is
        immutable and ignores the write. */
    function SetProperty(key: string, prop: string, v: Value): (r: Container)
      requires InstanceContainer?
      ensures r.InstanceContainer? && r.id == id && r.typeTag == typeTag
      ensures this == Empty ==> r == Empty
      ensures this != Empty ==> r.GetProperty(key, prop) == Some(v)
      ensures forall k, p :: k != key || p != prop ==> r.GetProperty(k, p) == GetProperty(k, p)
    {
      if this == Empty then this else this.(properties := Put(properties, key, prop, v))
    }
  }

  /** The "type" tag of the empty container, which is the name of no slot. */
  const EmptyTypeTag: string := "empty"

  /** The shared empty instance container that fills every unset slot and
      answers every query as absent. */
  const Empty: Container := InstanceContainer("empty", EmptyTypeTag, map[])
}
