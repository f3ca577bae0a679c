/**
 * The generic deserialization visitor: it builds the deserialized graph
 * while the navigator walks the input.  It keeps a first-write-wins root
 * `result`, a stack of objects under construction with the current one on
 * top, and dispatches arrays on their number of type parameters: none
 * (taken as is), one (a list) or two (a map).
 */
module GenericDeserializationVisitor {
  import opened Types

  /** The visitor's raw PHP casts, `(string)`, `(boolean)`, `(integer)`, `(double)`. */
  datatype Casts = Casts(
    toString: Value -> string,
    toBool: Value -> bool,
    toInt: Value -> int,
    toDouble: Value -> int)

  /** A `setValue(object, value)` made by `visitProperty`. */
  datatype Assignment = Assignment(property: PropertyMetadata, target: Value, value: Value)

  /** One call into the navigator: the value visited and its type. */
  type Accept = (Value, Type)

  /** The root result is written only while it is still null. */
  function FirstWrite(current: Value, v: Value): (r: Value)
    ensures current != Null ==> r == current
    ensures current == Null ==> r == v
  {
    if current == Null then v else current
  }

  /** The root result after a series of writes, in order. */
  function Settle(current: Value, writes: seq<Value>): Value {
    if writes == [] then current
    else FirstWrite(Settle(current, writes[..|writes| - 1]), writes[|writes| - 1])
  }

  /** The first non-null value of a series, if any (else null). */
  function FirstNonNull(writes: seq<Value>): (r: Value)
    ensures r != Null ==> r in writes
  {
    if writes == [] then Null
    else if writes[0] != Null then writes[0]
    else FirstNonNull(writes[1..])
  }

  /** First write wins: once set, the result never changes; if unset, it is the first non-null write. */
  lemma {:induction false} FirstNonNullWins(current: Value, writes: seq<Value>)
    ensures current != Null ==> Settle(current, writes) == current
    ensures current == Null ==> Settle(current, writes) == FirstNonNull(writes)
  {
    if writes != [] {
      var init := writes[..|writes| - 1];
      FirstNonNullWins(current, init);
      if current == Null {
        FirstNonNullSnoc(init, writes[|writes| - 1]);
        assert init + [writes[|writes| - 1]] == writes;
      }
    }
  }

  lemma {:induction false} FirstNonNullSnoc(writes: seq<Value>, v: Value)
    ensures FirstNonNull(writes + [v]) == if FirstNonNull(writes) != Null then FirstNonNull(writes) else v
  {
    if writes != [] {
      assert (writes + [v])[1..] == writes[1..] + [v];
      FirstNonNullSnoc(writes[1..], v);
    }
  }

  /** The list a one-parameter array becomes: keys 0, 1, ... and each value accepted with the element type. */
  function ListEntries(nav: (Value, Type) -> Value, items: seq<(Value, Value)>, element: Type): (r: seq<(Value, Value)>)
    ensures |r| == |items|
  {
    if items == [] then []
    else
      var n := |items| - 1;
      ListEntries(nav, items[..n], element) + [(Int(n), nav(items[n].1, element))]
  }

  /** The k-th list entry has key k and the accepted k-th input value, whatever the input keys were. */
  lemma {:induction false} ListEntriesAt(nav: (Value, Type) -> Value, items: seq<(Value, Value)>, element: Type, k: nat)
    requires k < |items|
    ensures ListEntries(nav, items, element)[k] == (Int(k), nav(items[k].1, element))
  {
    var n := |items| - 1;
    if k < n {
      ListEntriesAt(nav, items[..n], element, k);
    }
  }

  /** The map a two-parameter array becomes: each key and value accepted with its own type, later keys overwriting. */
  function MapEntries(nav: (Value, Type) -> Value, items: seq<(Value, Value)>, key: Type, value: Type): seq<(Value, Value)>
  {
    if items == [] then []
    else
      var n := |items| - 1;
      ArrayPut(MapEntries(nav, items[..n], key, value), nav(items[n].0, key), nav(items[n].1, value))
  }

  /** One more input entry: one more put into the map, two more navigator calls. */
  lemma MapStep(nav: (Value, Type) -> Value, items: seq<(Value, Value)>, key: Type, value: Type, i: nat)
    requires i < |items|
    ensures MapEntries(nav, items[..i + 1], key, value)
      == ArrayPut(MapEntries(nav, items[..i], key, value), nav(items[i].0, key), nav(items[i].1, value))
    ensures MapAccepts(items[..i + 1], key, value) == MapAccepts(items[..i], key, value) + [(items[i].0, key), (items[i].1, value)]
  {
    assert items[..i + 1][..i] == items[..i];
  }

  /** Some input entry's key is accepted as `k`. */
  ghost predicate AcceptedKey(nav: (Value, Type) -> Value, items: seq<(Value, Value)>, key: Type, k: Value) {
    exists i :: 0 <= i < |items| && nav(items[i].0, key) == k
  }

  /** The map's keys are exactly the accepted input keys. */
  lemma {:induction false} MapEntriesKeys(nav: (Value, Type) -> Value, items: seq<(Value, Value)>, key: Type, value: Type, k: Value)
    ensures ArrayGet(MapEntries(nav, items, key, value), k).Some? <==> AcceptedKey(nav, items, key, k)
  {
    if items != [] {
      var n := |items| - 1;
      var init := items[..n];
      var kn := nav(items[n].0, key);
      MapEntriesKeys(nav, init, key, value, k);
      ArrayPutGet(MapEntries(nav, init, key, value), kn, nav(items[n].1, value), k);
      if k == kn {
        assert nav(items[n].0, key) == k;
      } else {
        if AcceptedKey(nav, init, key, k) {
          var i :| 0 <= i < |init| && nav(init[i].0, key) == k;
          assert nav(items[i].0, key) == k;
        }
        if AcceptedKey(nav, items, key, k) {
          var i :| 0 <= i < |items| && nav(items[i].0, key) == k;
          assert i < n && nav(init[i].0, key) == k;
        }
      }
    }
  }

  /** The value under a key is that of the LAST input entry whose accepted key it is. */
  lemma {:induction false} MapEntriesLastWins(nav: (Value, Type) -> Value, items: seq<(Value, Value)>, key: Type, value: Type, i: nat)
    requires i < |items|
    requires forall j :: i < j < |items| ==> nav(items[j].0, key) != nav(items[i].0, key)
    ensures ArrayGet(MapEntries(nav, items, key, value), nav(items[i].0, key)) == Some(nav(items[i].1, value))
  {
    var n := |items| - 1;
    ArrayPutGet(MapEntries(nav, items[..n], key, value), nav(items[n].0, key), nav(items[n].1, value), nav(items[i].0, key));
    if i < n {
      forall j | i < j < n ensures nav(items[..n][j].0, key) != nav(items[..n][i].0, key) {
        assert items[..n][j] == items[j];
      }
      MapEntriesLastWins(nav, items[..n], key, value, i);
      assert items[..n][i] == items[i];
    }
  }

  /** The navigator calls of a list: each value once, in input order. */
  function ListAccepts(items: seq<(Value, Value)>, element: Type): (r: seq<Accept>)
    ensures |r| == |items|
    ensures forall k :: 0 <= k < |items| ==> r[k] == (items[k].1, element)
  {
    seq(|items|, k requires 0 <= k < |items| => (items[k].1, element))
  }

  /** The navigator calls of a map: per entry, its key then its value. */
  function MapAccepts(items: seq<(Value, Value)>, key: Type, value: Type): (r: seq<Accept>)
    ensures |r| == 2 * |items|
  {
    if items == [] then []
    else
      var n := |items| - 1;
      MapAccepts(items[..n], key, value) + [(items[n].0, key), (items[n].1, value)]
  }

  /** Entry k's key and value are the navigator calls 2k and 2k+1. */
  lemma {:induction false} MapAcceptsAt(items: seq<(Value, Value)>, key: Type, value: Type, k: nat)
    requires k < |items|
    ensures MapAccepts(items, key, value)[2 * k] == (items[k].0, key)
    ensures MapAccepts(items, key, value)[2 * k + 1] == (items[k].1, value)
  {
    var n := |items| - 1;
    if k < n {
      MapAcceptsAt(items[..n], key, value, k);
    }
  }

  /** What `visitArray` returns. */
  function ArrayOutcome(nav: (Value, Type) -> Value, data: Value, t: Type): (r: Result<Value>)
    ensures !data.Arr? <==> r == Err(ExpectedArray(data))
    ensures data.Arr? && |t.params| == 0 ==> r == Ok(data)
    ensures data.Arr? && |t.params| > 2 <==> r == Err(TooManyArrayParams(|t.params|))
    ensures data.Arr? && |t.params| == 1 ==> r == Ok(Arr(ListEntries(nav, data.entries, t.params[0])))
    ensures data.Arr? && |t.params| == 2 ==> r == Ok(Arr(MapEntries(nav, data.entries, t.params[0], t.params[1])))
  {
    if !data.Arr? then Err(ExpectedArray(data))
    else if |t.params| == 0 then Ok(data)
    else if |t.params| == 1 then Ok(Arr(ListEntries(nav, data.entries, t.params[0])))
    else if |t.params| == 2 then Ok(Arr(MapEntries(nav, data.entries, t.params[0], t.params[1])))
    else Err(TooManyArrayParams(|t.params|))
  }

  /** The navigator calls `visitArray` makes. */
  function ArrayAccepts(data: Value, t: Type): (r: seq<Accept>)
    ensures !data.Arr? || |t.params| == 0 || |t.params| > 2 ==> r == []
  {
    if !data.Arr? then []
    else if |t.params| == 1 then ListAccepts(data.entries, t.params[0])
    else if |t.params| == 2 then MapAccepts(data.entries, t.params[0], t.params[1])
    else []
  }

  /** What `visitProperty` does for a property, given the translated name. */
  datatype PropertyEffect = Untouched | Fails(error: Error) | Assigns(value: Value, accepted: seq<Accept>)

  /**
   * `visitProperty`: nothing for null data or a key the data lacks; an
   * error for a property without a type; otherwise an assignment, of null
   * without calling the navigator when the input value is null.
   */
  function PropertyStep(nav: (Value, Type) -> Value, name: string, p: PropertyMetadata, data: Value): (r: PropertyEffect)
    ensures r.Untouched? <==> !(data.Arr? && ArrayGet(data.entries, Str(name)).Some?)
    ensures r.Fails? <==> data.Arr? && ArrayGet(data.entries, Str(name)).Some? && p.propertyType.None?
    ensures r.Fails? ==> r.error == PropertyTypeMissing(p.owner, p.name)
    ensures r.Assigns? && ArrayGet(data.entries, Str(name)).value == Null ==> r == Assigns(Null, [])
    ensures r.Assigns? && ArrayGet(data.entries, Str(name)).value != Null ==>
      var raw := ArrayGet(data.entries, Str(name)).value;
      r == Assigns(nav(raw, p.propertyType.value), [(raw, p.propertyType.value)])
  {
    if data == Null || !data.Arr? || ArrayGet(data.entries, Str(name)).None? then Untouched
    else if p.propertyType.None? then Fails(PropertyTypeMissing(p.owner, p.name))
    else
      var raw := ArrayGet(data.entries, Str(name)).value;
      if raw != Null then Assigns(nav(raw, p.propertyType.value), [(raw, p.propertyType.value)])
      else Assigns(Null, [])
  }

  /** The current-object stack: the objects started and not yet ended, with the current one apart. */
  datatype ObjectScope = ObjectScope(stack: seq<Value>, current: Value) {
    /** `setCurrentObject`: push the current object, make `obj` current. */
    function Enter(obj: Value): (r: ObjectScope)
      ensures r.current == obj && |r.stack| == |stack| + 1
    {
      ObjectScope(stack + [current], obj)
    }

    /** `endVisitingObject`: the current object, and the scope with the previous one restored. */
    function Leave(): (r: Result<(Value, ObjectScope)>)
      ensures r.Err? <==> stack == []
      ensures r.Ok? ==> r.value.0 == current && |r.value.1.stack| == |stack| - 1
    {
      if stack == [] then Err(EmptyObjectStack)
      else Ok((current, ObjectScope(stack[..|stack| - 1], stack[|stack| - 1])))
    }
  }

  /** Leaving returns the object of the matching start and restores the scope before it. */
  lemma LeaveUndoesEnter(s: ObjectScope, obj: Value)
    ensures s.Enter(obj).Leave() == Ok((obj, s))
  {
    assert (s.stack + [s.current])[..|s.stack|] == s.stack;
  }

  /** LIFO: two nested objects end in reverse order, restoring the outer scope. */
  lemma NestedObjectsEndInReverse(s: ObjectScope, outer: Value, inner: Value)
    ensures var afterInner := s.Enter(outer).Enter(inner).Leave();
      afterInner.Ok? && afterInner.value.0 == inner
      && afterInner.value.1.Leave() == Ok((outer, s))
  {
    LeaveUndoesEnter(s.Enter(outer), inner);
    LeaveUndoesEnter(s, outer);
  }

  class Visitor {
    /** The naming strategy's `translateName`. */
    const namingStrategy: PropertyMetadata -> string
    const casts: Casts
    /** The navigator's `accept`, once `setNavigator` has been called. */
    var navigator: Option<(Value, Type) -> Value>
    /** The root result; null while unset. */
    var result: Value
    var objectStack: seq<Value>
    var currentObject: Value
    /** The `setValue` effects made so far, in order. */
    var assignments: seq<Assignment>

    constructor (namingStrategy: PropertyMetadata -> string, casts: Casts)
      ensures this.namingStrategy == namingStrategy && this.casts == casts
      ensures navigator.None? && result == Null && objectStack == [] && currentObject == Null && assignments == []
    {
      this.namingStrategy := namingStrategy;
      this.casts := casts;
      navigator := None;
      result := Null;
      objectStack := [];
      currentObject := Null;
      assignments := [];
    }

    /** `getNamingStrategy`: the strategy the visitor was constructed with. */
    function GetNamingStrategy(): (r: PropertyMetadata -> string)
      ensures r == namingStrategy
    {
      namingStrategy
    }

    /** `getResult`: the root result the first write set, or null before any. */
    function GetResult(): (r: Value)
      reads this
      ensures r == result
    {
      result
    }

    function Scope(): ObjectScope
      reads this
    {
      ObjectScope(objectStack, currentObject)
    }

    /** `setNavigator`: a fresh traversal, with no result and an empty object stack. */
    method SetNavigator(nav: (Value, Type) -> Value)
      modifies this`navigator, this`result, this`objectStack
      ensures navigator == Some(nav) && result == Null && objectStack == []
    {
      navigator := Some(nav);
      result := Null;
      objectStack := [];
    }

    /** `visitNull`: null, and the result is left alone. */
    method VisitNull(data: Value, t: Type) returns (r: Value)
      ensures r == Null
    {
      r := Null;
    }

    method VisitString(data: Value, t: Type) returns (r: Value)
      modifies this`result
      ensures r == Str(casts.toString(data)) && result == FirstWrite(old(result), r)
    {
      r := Str(casts.toString(data));
      if result == Null {
        result := r;
      }
    }

    method VisitBoolean(data: Value, t: Type) returns (r: Value)
      modifies this`result
      ensures r == Bool(casts.toBool(data)) && result == FirstWrite(old(result), r)
    {
      r := Bool(casts.toBool(data));
      if result == Null {
        result := r;
      }
    }

    method VisitInteger(data: Value, t: Type) returns (r: Value)
      modifies this`result
      ensures r == Int(casts.toInt(data)) && result == FirstWrite(old(result), r)
    {
      r := Int(casts.toInt(data));
      if result == Null {
        result := r;
      }
    }

    method VisitDouble(data: Value, t: Type) returns (r: Value)
      modifies this`result
      ensures r == Double(casts.toDouble(data)) && result == FirstWrite(old(result), r)
    {
      r := Double(casts.toDouble(data));
      if result == Null {
        result := r;
      }
    }

    /**
     * `visitArray`.  For a list or a map the root result, when still unset,
     * is bound by reference to the array being built and so follows it entry
     * by entry; it ends as the finished array.
     */
    method VisitArray(data: Value, t: Type) returns (r: Result<Value>, accepted: seq<Accept>)
      requires navigator.Some?
      modifies this`result
      ensures r == ArrayOutcome(navigator.value, data, t)
      ensures accepted == ArrayAccepts(data, t)
      ensures result == if r.Ok? then FirstWrite(old(result), r.value) else old(result)
    {
      if !data.Arr? {
        return Err(ExpectedArray(data)), [];
      }
      if |t.params| == 0 {
        if result == Null {
          result := data;
        }
        return Ok(data), [];
      }
      if |t.params| == 1 {
        var out;
        out, accepted := BuildList(data.entries, t.params[0]);
        return Ok(Arr(out)), accepted;
      }
      if |t.params| == 2 {
        var out;
        out, accepted := BuildMap(data.entries, t.params[0], t.params[1]);
        return Ok(Arr(out)), accepted;
      }
      return Err(TooManyArrayParams(|t.params|)), [];
    }

    /** The one-parameter branch of `visitArray`: `$result[] = accept(value)` per entry. */
    method BuildList(items: seq<(Value, Value)>, element: Type) returns (out: seq<(Value, Value)>, accepted: seq<Accept>)
      requires navigator.Some?
      modifies this`result
      ensures out == ListEntries(navigator.value, items, element)
      ensures accepted == ListAccepts(items, element)
      ensures result == FirstWrite(old(result), Arr(out))
    {
      var nav := navigator.value;
      out, accepted := [], [];
      var aliased := result == Null;
      if aliased {
        result := Arr(out);
      }
      var i := 0;
      while i < |items|
        invariant 0 <= i <= |items|
        invariant out == ListEntries(nav, items[..i], element)
        invariant accepted == ListAccepts(items[..i], element)
        invariant aliased == (old(result) == Null)
        invariant if aliased then result == Arr(out) else result == old(result)
      {
        assert items[..i + 1][..i] == items[..i];
        accepted := accepted + [(items[i].1, element)];
        out := out + [(Int(|out|), nav(items[i].1, element))];
        if aliased {
          result := Arr(out);
        }
        i := i + 1;
      }
      assert items[..|items|] == items;
    }

    /** The two-parameter branch of `visitArray`: `$result[accept(key)] = accept(value)` per entry. */
    method BuildMap(items: seq<(Value, Value)>, key: Type, value: Type) returns (out: seq<(Value, Value)>, accepted: seq<Accept>)
      requires navigator.Some?
      modifies this`result
      ensures out == MapEntries(navigator.value, items, key, value)
      ensures accepted == MapAccepts(items, key, value)
      ensures result == FirstWrite(old(result), Arr(out))
    {
      var nav := navigator.value;
      out, accepted := [], [];
      var aliased := result == Null;
      if aliased {
        result := Arr(out);
      }
      var i := 0;
      while i < |items|
        invariant 0 <= i <= |items|
        invariant out == MapEntries(nav, items[..i], key, value)
        invariant accepted == MapAccepts(items[..i], key, value)
        invariant aliased == (old(result) == Null)
        invariant if aliased then result == Arr(out) else result == old(result)
      {
        MapStep(nav, items, key, value, i);
        var k := nav(items[i].0, key);
        var v := nav(items[i].1, value);
        accepted := accepted + [(items[i].0, key), (items[i].1, value)];
        out := ArrayPut(out, k, v);
        if aliased {
          result := Arr(out);
        }
        i := i + 1;
      }
      assert items[..|items|] == items;
    }

    /** `setCurrentObject`: the current object goes on the stack and `obj` becomes current. */
    method SetCurrentObject(obj: Value)
      modifies this`objectStack, this`currentObject
      ensures Scope() == old(Scope()).Enter(obj)
    {
      objectStack := objectStack + [currentObject];
      currentObject := obj;
    }

    /** `getCurrentObject`: the object on top of the scope, the one properties are written to. */
    function GetCurrentObject(): (r: Value)
      reads this
      ensures r == Scope().current
    {
      currentObject
    }

    /** `revertCurrentObject`: pop the previous object back; popping an empty stack fails. */
    method RevertCurrentObject() returns (r: Result<Value>)
      modifies this`objectStack, this`currentObject
      ensures old(objectStack) == [] ==> r == Err(EmptyObjectStack) && Scope() == old(Scope())
      ensures old(objectStack) != [] ==> r == Ok(currentObject) && Scope() == old(Scope()).Leave().value.1
    {
      if objectStack == [] {
        return Err(EmptyObjectStack);
      }
      currentObject := objectStack[|objectStack| - 1];
      objectStack := objectStack[..|objectStack| - 1];
      r := Ok(currentObject);
    }

    /** `startVisitingObject`: `obj` becomes current, and the root result if still unset. */
    method StartVisitingObject(m: ClassMetadata, obj: Value, t: Type)
      modifies this`objectStack, this`currentObject, this`result
      ensures Scope() == old(Scope()).Enter(obj)
      ensures result == FirstWrite(old(result), obj)
    {
      SetCurrentObject(obj);
      if result == Null {
        result := currentObject;
      }
    }

    /** `endVisitingObject`: the current object, with the previous one restored. */
    method EndVisitingObject(m: ClassMetadata, data: Value, t: Type) returns (r: Result<Value>)
      modifies this`objectStack, this`currentObject
      ensures old(Scope()).Leave().Err? ==> r == Err(EmptyObjectStack) && Scope() == old(Scope())
      ensures old(Scope()).Leave().Ok? ==>
        r == Ok(old(Scope()).Leave().value.0) && Scope() == old(Scope()).Leave().value.1
    {
      var obj := currentObject;
      var reverted := RevertCurrentObject();
      if reverted.Err? {
        return Err(reverted.error);
      }
      r := Ok(obj);
    }

    /** `visitProperty`: read the translated key of the input and assign it to the current object. */
    method VisitProperty(p: PropertyMetadata, data: Value) returns (err: Option<Error>, accepted: seq<Accept>)
      requires navigator.Some?
      modifies this`assignments
      ensures var effect := PropertyStep(navigator.value, namingStrategy(p), p, data);
        match effect
        case Untouched => err.None? && accepted == [] && assignments == old(assignments)
        case Fails(e) => err == Some(e) && accepted == [] && assignments == old(assignments)
        case Assigns(v, calls) =>
          err.None? && accepted == calls && assignments == old(assignments) + [Assignment(p, currentObject, v)]
    {
      var name := namingStrategy(p);
      if data == Null || !data.Arr? || ArrayGet(data.entries, Str(name)).None? {
        return None, [];
      }
      if p.propertyType.None? {
        return Some(PropertyTypeMissing(p.owner, p.name)), [];
      }
      var raw := ArrayGet(data.entries, Str(name)).value;
      var v := Null;
      accepted := [];
      if raw != Null {
        v := navigator.value(raw, p.propertyType.value);
        accepted := [(raw, p.propertyType.value)];
      }
      assignments := assignments + [Assignment(p, currentObject, v)];
      err := None;
    }
  }
}
