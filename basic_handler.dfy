/**
 * The handler for PHP's built-in types: a fixed table of subscribing
 * entries, two forwarding handlers and one that always refuses.
 */
module BasicHandler {
  import opened Types
  import opened GraphNavigator
  import opened HandlerRegistry

  /** The six types that `visitGeneric` forwards by name. */
  const GenericTypes: seq<string> := ["integer", "NULL", "string", "boolean", "double", "array"]

  /** The table `getSubscribingMethods` returns. */
  function SubscribingMethods(): seq<MethodData> {
    seq(|GenericTypes|, k requires 0 <= k < |GenericTypes| => MethodData(None, Some(GenericTypes[k]), None, Some("visitGeneric")))
    + [MethodData(None, Some("float"), None, Some("visitFloat")),
       MethodData(None, Some("resource"), None, Some("visitResource"))]
  }

  /** `getSubscribingMethods`: one `visitGeneric` entry per generic type, then float and resource. */
  method GetSubscribingMethods() returns (methods: seq<MethodData>)
    ensures methods == SubscribingMethods()
    ensures |methods| == 8
    ensures forall md :: md in methods ==> md.direction.None? && md.format.None? && md.typeName.Some?
  {
    methods := [];
    var i := 0;
    while i < |GenericTypes|
      invariant 0 <= i <= |GenericTypes|
      invariant |methods| == i
      invariant forall k :: 0 <= k < i ==> methods[k] == MethodData(None, Some(GenericTypes[k]), None, Some("visitGeneric"))
    {
      methods := methods + [MethodData(None, Some(GenericTypes[i]), None, Some("visitGeneric"))];
      i := i + 1;
    }
    methods := methods + [MethodData(None, Some("float"), None, Some("visitFloat"))];
    methods := methods + [MethodData(None, Some("resource"), None, Some("visitResource"))];
  }

  /** The type names of the table are pairwise distinct. */
  lemma SubscribedTypesDistinct()
    ensures forall i, j :: 0 <= i < j < |SubscribingMethods()| ==>
      SubscribingMethods()[i].typeName != SubscribingMethods()[j].typeName
  {
    var ms := SubscribingMethods();
    assert ms[0].typeName == Some("integer") && ms[1].typeName == Some("NULL");
    assert ms[2].typeName == Some("string") && ms[3].typeName == Some("boolean");
    assert ms[4].typeName == Some("double") && ms[5].typeName == Some("array");
    assert ms[6].typeName == Some("float") && ms[7].typeName == Some("resource");
  }

  /**
   * Registering the handler on an empty registry serves every one of its
   * types in both directions and for every format, with the table's method.
   */
  lemma RegisteredForBothDirectionsAndEveryFormat(owner: string, k: nat, d: string, f: string)
    requires k < |SubscribingMethods()|
    requires d == Serialization || d == Deserialization
    ensures var md := SubscribingMethods()[k];
      var tbl := StoreAll(map[], Registrations(owner, SubscribingMethods()).0);
      Lookup(tbl, d, md.typeName.value, f) == Some(HandlerRef(owner, md.methodName.value))
  {
    SubscribedTypesDistinct();
    assert UndirectedEntries(SubscribingMethods());
    UndirectedEntriesServeEveryFormat(owner, SubscribingMethods(), k, d, f);
  }

  /** `visitGeneric`: the visitor method named "visit" + the type name, with the same data and type. */
  function VisitGeneric(data: Value, t: Type): (c: Call)
    ensures c.VisitorCall? && c.data == data && c.t == t
    ensures c.visitorMethod == "visit" + t.name
  {
    VisitorCall("visit" + t.name, data, t)
  }

  /** `visitFloat`: forwards to `visitDouble`. */
  function VisitFloat(data: Value, t: Type): (c: Call)
    ensures c.VisitorCall? && c.data == data && c.t == t
    ensures c.visitorMethod == "visitDouble"
  {
    VisitorCall("visitDouble", data, t)
  }

  /** ASCII lower-casing of one character. */
  function LowerChar(c: char): char {
    if 'A' <= c <= 'Z' then (c - 'A' + 'a') as char else c
  }

  /** Equality of method names as PHP resolves them: without regard to ASCII case. */
  predicate SameMethodName(a: string, b: string) {
    |a| == |b| && forall i :: 0 <= i < |a| ==> LowerChar(a[i]) == LowerChar(b[i])
  }

  /**
   * For each type it is registered for, a forwarding handler reaches the
   * visitor method the navigators' scalar fast path calls for that type.
   * The names agree only up to case (`visitinteger`, `visitNULL` for
   * `visitInteger`, `visitNull`), which PHP ignores in method names.
   */
  lemma ForwardsMatchFastPath(data: Value, params: seq<Type>, k: nat)
    requires k < |GenericTypes|
    ensures var t := Type(GenericTypes[k], params);
      ScalarVisitMethod(t.name).Some?
      && SameMethodName(VisitGeneric(data, t).visitorMethod, ScalarVisitMethod(t.name).value)
    ensures VisitFloat(data, Type("float", params)).visitorMethod == ScalarVisitMethod("float").value
  {
    var name := GenericTypes[k];
    if k == 0 {
      assert name == "integer";
      assert ScalarVisitMethod("integer") == Some("visitInteger");
      assert "visitInteger" == "visit" + "Integer";
      ForwardMatches(data, params, "integer", "Integer");
    } else if k == 1 {
      assert name == "NULL";
      NullForwardMatches(data, params);
    } else if k == 2 {
      assert name == "string";
      assert ScalarVisitMethod("string") == Some("visitString");
      assert "visitString" == "visit" + "String";
      ForwardMatches(data, params, "string", "String");
    } else if k == 3 {
      assert name == "boolean";
      assert ScalarVisitMethod("boolean") == Some("visitBoolean");
      assert "visitBoolean" == "visit" + "Boolean";
      ForwardMatches(data, params, "boolean", "Boolean");
    } else if k == 4 {
      assert name == "double";
      assert ScalarVisitMethod("double") == Some("visitDouble");
      assert "visitDouble" == "visit" + "Double";
      ForwardMatches(data, params, "double", "Double");
    } else {
      assert name == "array";
      assert ScalarVisitMethod("array") == Some("visitArray");
      assert "visitArray" == "visit" + "Array";
      ForwardMatches(data, params, "array", "Array");
    }
  }

  /** A lower-case type name is forwarded to the fast path's capitalised method. */
  lemma ForwardMatches(data: Value, params: seq<Type>, name: string, capitalized: string)
    requires |name| > 0 && 'a' <= name[0] <= 'z'
    requires capitalized == [(name[0] - 'a' + 'A') as char] + name[1..]
    requires ScalarVisitMethod(name) == Some("visit" + capitalized)
    ensures SameMethodName(VisitGeneric(data, Type(name, params)).visitorMethod, ScalarVisitMethod(name).value)
  {
    CapitalizedIsSameName("visit", name, capitalized);
  }

  /** `NULL` is forwarded to `visitNULL`, which PHP resolves to `visitNull`. */
  lemma NullForwardMatches(data: Value, params: seq<Type>)
    ensures SameMethodName(VisitGeneric(data, Type("NULL", params)).visitorMethod, ScalarVisitMethod("NULL").value)
  {
    assert VisitGeneric(data, Type("NULL", params)).visitorMethod == "visitN" + "ULL" + "";
    assert ScalarVisitMethod("NULL").value == "visitN" + "ull" + "";
    assert SameMethodName("ULL", "ull") by {
      assert LowerChar('U') == 'u' && LowerChar('L') == 'l';
      forall i | 0 <= i < 3 ensures LowerChar("ULL"[i]) == LowerChar("ull"[i]) {
        assert i == 0 || i == 1 || i == 2;
      }
    }
    SameMethodNameFrame("visitN", "ULL", "ull", "");
  }

  /** A name and its capitalised form are the same method name after any prefix. */
  lemma CapitalizedIsSameName(prefix: string, name: string, capitalized: string)
    requires |name| > 0 && 'a' <= name[0] <= 'z'
    requires capitalized == [(name[0] - 'a' + 'A') as char] + name[1..]
    ensures SameMethodName(prefix + name, prefix + capitalized)
  {
    var first := name[0];
    var upper := (first - 'a' + 'A') as char;
    assert LowerChar(upper) == first;
    assert SameMethodName([first], [upper]);
    assert name == [first] + name[1..];
    SameMethodNameFrame(prefix, [first], [upper], name[1..]);
  }

  /** Names that agree up to case in one part agree up to case as a whole. */
  lemma SameMethodNameFrame(p: string, x: string, y: string, q: string)
    requires SameMethodName(x, y)
    ensures SameMethodName(p + x + q, p + y + q)
  {
    var a := p + x + q;
    var b := p + y + q;
    forall i | 0 <= i < |a|
      ensures LowerChar(a[i]) == LowerChar(b[i])
    {
      if i < |p| {
        assert a[i] == p[i] == b[i];
      } else if i < |p| + |x| {
        assert a[i] == x[i - |p|] && b[i] == y[i - |p|];
      } else {
        assert a[i] == q[i - |p| - |x|] == b[i];
      }
    }
  }

  /**
   * `visitResource`: always refuses.  The path is reported only in the
   * serialization direction and only when the context knows one.
   */
  function VisitResource(direction: string, path: Option<string>): (r: Result<Value>)
    ensures r.Err? && r.error.ResourceNotSupported?
    ensures r.error.path.Some? <==> direction == Serialization && path.Some?
    ensures r.error.path.Some? ==> r.error.path == path
  {
    Err(ResourceNotSupported(if direction == Serialization then path else None))
  }
}
