/**
 * The pure helpers of the visitor base class: the element type of a
 * collection type and the default `prepare`.
 */
module AbstractVisitor {
  import opened Types

  /**
   * `getElementType`: none without a first parameter; the second parameter
   * when there is one (a map's value type); else the first (a list's
   * element type).
   */
  function GetElementType(t: Type): (r: Option<Type>)
    ensures r.None? <==> |t.params| == 0
    ensures |t.params| >= 2 ==> r == Some(t.params[1])
    ensures |t.params| == 1 ==> r == Some(t.params[0])
  {
    if |t.params| == 0 then None
    else if |t.params| >= 2 then Some(t.params[1])
    else Some(t.params[0])
  }

  /**
   * The element type is the type the generic visitor gives each entry of a
   * list (`array<T>`) or each value of a map (`array<K, V>`).
   */
  lemma ElementTypeIsTheEntryType(element: Type, key: Type)
    ensures GetElementType(Type("array", [element])) == Some(element)
    ensures GetElementType(Type("array", [key, element])) == Some(element)
  {
  }

  /** The default `prepare`: input data is used as given. */
  function Prepare(data: Value): (r: Value)
    ensures r == data
  {
    data
  }
}
