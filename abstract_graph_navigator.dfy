/**
 * The helpers of the abstract, direction-named navigator base: the direction
 * is a verb (`deserialize`) that names both the lifecycle-method property
 * and the listener events, and the teardown checks its post listener under
 * the metadata's class name.
 */
module AbstractGraphNavigator {
  import opened Types
  import opened TraversalContext
  import opened Collaborators
  import opened GraphNavigator

  /** ASCII upper-casing of one character (PHP's `ucfirst` is locale-free here). */
  function UpperChar(c: char): (r: char)
    ensures 'a' <= c <= 'z' ==> 'A' <= r <= 'Z' && r as int == c as int - 32
    ensures !('a' <= c <= 'z') ==> r == c
  {
    if 'a' <= c <= 'z' then (c as int - 32) as char else c
  }

  /** PHP's `ucfirst`: the first character upper-cased, the rest unchanged. */
  function Ucfirst(s: string): (r: string)
    ensures |r| == |s|
    ensures s != [] ==> r[0] == UpperChar(s[0]) && r[1..] == s[1..]
  {
    if s == [] then [] else [UpperChar(s[0])] + s[1..]
  }

  /** The metadata property `getMethods` reads. */
  function MethodsProperty(phase: string, navDirection: string): string {
    phase + Ucfirst(navDirection) + "Methods"
  }

  /** The lifecycle methods named for `phase`, or none when the property is absent. */
  function GetMethods(phase: string, m: ClassMetadata, navDirection: string): (r: seq<string>)
    ensures MethodsProperty(phase, navDirection) !in m.lifecycle ==> r == []
    ensures MethodsProperty(phase, navDirection) in m.lifecycle ==> r == m.lifecycle[MethodsProperty(phase, navDirection)]
  {
    var property := phase + Ucfirst(navDirection) + "Methods";
    if property in m.lifecycle then m.lifecycle[property] else []
  }

  /**
   * With the verb `deserialize`, `getMethods` reads the same property as the
   * base navigator's `callLifecycleMethods` for the deserialization
   * direction, so both invoke the same methods in the same order.
   */
  lemma GetMethodsAgreesWithLifecycleProperty(phase: string, m: ClassMetadata, subject: Value)
    ensures MethodsProperty(phase, "deserialize") == LifecycleProperty(phase, Deserialization)
    ensures var methods := GetMethods(phase, m, "deserialize");
      LifecycleCalls(m, LifecycleProperty(phase, Deserialization), subject)
        == seq(|methods|, i requires 0 <= i < |methods| => LifecycleCall(methods[i], subject))
  {
    assert Ucfirst("deserialize") == "Deserialize";
  }

  /** `findType`: a missing type is an error, a given one is returned unchanged. */
  function FindType(declared: Option<Type>): (r: Result<Type>)
    ensures r.Err? <==> declared.None?
    ensures r.Err? ==> r.error == TypeNotGiven
    ensures r.Ok? ==> r.value == declared.value
  {
    match declared
    case None => Err(TypeNotGiven)
    case Some(t) => Ok(t)
  }

  /** The event name `hasListeners` and `dispatch` use: phase and verb, unmapped. */
  function ListenerEvent(phase: string, navDirection: string): string {
    "serializer." + phase + "_" + navDirection
  }

  /** `hasListeners`: false without a dispatcher, else the dispatcher's answer. */
  function HasListeners(env: Env, phase: string, name: string, navDirection: string, format: string): (r: bool)
    ensures !env.hasDispatcher ==> !r
    ensures env.hasDispatcher ==> r == env.hasListeners(ListenerEvent(phase, navDirection), name, format)
  {
    if !env.hasDispatcher then false
    else env.hasListeners("serializer." + phase + "_" + navDirection, name, format)
  }

  /**
   * The verb `deserialize` yields exactly the event names of the base
   * navigator in the deserialization direction.
   */
  lemma EventNamesAgree(env: Env, phase: string, name: string, format: string)
    ensures ListenerEvent(phase, "deserialize") == EventName(phase, Deserialization)
    ensures HasListeners(env, phase, name, "deserialize", format) == HasListener(env, phase, name, Deserialization, format)
  {
  }

  /** `getMetadataForClass`: the factory's metadata for the type's name. */
  function GetMetadataForClass(env: Env, t: Type, data: Value): (m: ClassMetadata)
    ensures m == env.metadata(t.name)
  {
    env.metadata(t.name)
  }

  /** The metadata depends on the type name only: not on params, not on data. */
  lemma MetadataByNameOnly(env: Env, t1: Type, d1: Value, t2: Type, d2: Value)
    requires t1.name == t2.name
    ensures GetMetadataForClass(env, t1, d1) == GetMetadataForClass(env, t2, d2)
  {
  }

  /**
   * The calls of this base's teardown: the post methods on `subject` in
   * order, then the post event if a listener exists for the METADATA name.
   */
  function AbstractPostCalls(env: Env, navDirection: string, format: string, m: ClassMetadata, subject: Value, t: Type): seq<Call> {
    LifecycleCalls(m, MethodsProperty("post", navDirection), subject)
    + (if HasListeners(env, "post", m.name, navDirection, format)
       then [Dispatch(ListenerEvent("post", navDirection), m.name, format, subject, t)]
       else [])
  }

  /** The `foreach` over `getMethods`: each method is invoked on `subject`, in list order. */
  method InvokeMethods(methods: seq<string>, subject: Value) returns (calls: seq<Call>)
    ensures |calls| == |methods|
    ensures forall k :: 0 <= k < |methods| ==> calls[k] == LifecycleCall(methods[k], subject)
  {
    calls := [];
    var i := 0;
    while i < |methods|
      invariant 0 <= i <= |methods|
      invariant |calls| == i
      invariant forall k :: 0 <= k < i ==> calls[k] == LifecycleCall(methods[k], subject)
    {
      calls := calls + [LifecycleCall(methods[i], subject)];
      i := i + 1;
    }
  }

  /** `afterVisitingObject`: stop visiting, pop the metadata, post methods, post event. */
  method AfterVisitingObject(ctx: Context, env: Env, navDirection: string, m: ClassMetadata, subject: Value, t: Type)
    returns (calls: seq<Call>)
    modifies ctx
    ensures calls == AbstractPostCalls(env, navDirection, ctx.format, m, subject, t)
    ensures ctx.visiting == old(ctx.visiting) - {subject}
    ensures ctx.classStack == if old(ctx.classStack) == [] then [] else old(ctx.classStack)[..|old(ctx.classStack)| - 1]
    ensures ctx.propertyStack == old(ctx.propertyStack) && ctx.depth == old(ctx.depth)
  {
    ctx.StopVisiting(subject);
    ctx.PopClassMetadata();
    calls := InvokeMethods(GetMethods("post", m, navDirection), subject);
    if HasListeners(env, "post", m.name, navDirection, ctx.format) {
      calls := calls + [Dispatch(ListenerEvent("post", navDirection), m.name, ctx.format, subject, t)];
    }
  }

  /**
   * The two teardowns agree except for the key of the listener query: the
   * base navigator asks under the TYPE name, this one under the METADATA
   * name.  When the type names the metadata's own class they coincide.
   */
  lemma TeardownsAgreeOnTheOwnClass(env: Env, format: string, m: ClassMetadata, subject: Value, t: Type)
    requires t.name == m.name
    ensures AbstractPostCalls(env, "deserialize", format, m, subject, t) == PostCalls(env, Deserialization, format, m, subject, t)
  {
    GetMethodsAgreesWithLifecycleProperty("post", m, subject);
    EventNamesAgree(env, "post", m.name, format);
  }
}
