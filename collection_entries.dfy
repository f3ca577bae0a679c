/**
 * The subscription table both collection handlers build with two nested
 * loops: per collection type, per format, a serialization entry and then a
 * deserialization entry, each naming its direction, type, format and
 * method explicitly.
 */
module CollectionEntries {
  import opened Types
  import opened HandlerRegistry

  /** The formats both collection handlers subscribe for, in loop order. */
  const Formats: seq<string> := ["json", "xml", "yml"]

  /** A collection class and the handler methods that serve it. */
  datatype CollectionType = CollectionType(name: string, serializeMethod: string, deserializeMethod: string)

  /** The two entries the inner loop appends for one type and one format. */
  function EntryPair(c: CollectionType, format: string): seq<MethodData> {
    [MethodData(Some(Serialization), Some(c.name), Some(format), Some(c.serializeMethod)),
     MethodData(Some(Deserialization), Some(c.name), Some(format), Some(c.deserializeMethod))]
  }

  /** The entries of the inner loop for one type. */
  function FormatEntries(c: CollectionType, formats: seq<string>): seq<MethodData> {
    if formats == [] then []
    else FormatEntries(c, formats[..|formats| - 1]) + EntryPair(c, formats[|formats| - 1])
  }

  /** The entries of both loops. */
  function TypeEntries(types: seq<CollectionType>, formats: seq<string>): seq<MethodData> {
    if types == [] then []
    else TypeEntries(types[..|types| - 1], formats) + FormatEntries(types[|types| - 1], formats)
  }

  /** One more pass of the inner loop appends the pair for the next format. */
  lemma FormatEntriesSnoc(c: CollectionType, formats: seq<string>, j: nat)
    requires j < |formats|
    ensures FormatEntries(c, formats[..j + 1]) == FormatEntries(c, formats[..j]) + EntryPair(c, formats[j])
  {
    assert formats[..j + 1][..j] == formats[..j];
  }

  /** One more pass of the outer loop appends the next type's entries. */
  lemma TypeEntriesSnoc(types: seq<CollectionType>, i: nat, formats: seq<string>)
    requires i < |types|
    ensures TypeEntries(types[..i + 1], formats) == TypeEntries(types[..i], formats) + FormatEntries(types[i], formats)
  {
    assert types[..i + 1][..i] == types[..i];
  }

  /** The inner loop of both collection handlers: per format, the serialization entry then the deserialization entry. */
  method AppendFormatEntries(methods: seq<MethodData>, c: CollectionType, formats: seq<string>) returns (r: seq<MethodData>)
    ensures r == methods + FormatEntries(c, formats)
  {
    r := methods;
    var j := 0;
    while j < |formats|
      invariant 0 <= j <= |formats|
      invariant r == methods + FormatEntries(c, formats[..j])
    {
      var format := formats[j];
      FormatEntriesSnoc(c, formats, j);
      r := r + [MethodData(Some(Serialization), Some(c.name), Some(format), Some(c.serializeMethod))];
      r := r + [MethodData(Some(Deserialization), Some(c.name), Some(format), Some(c.deserializeMethod))];
      j := j + 1;
    }
    assert formats[..j] == formats;
  }

  lemma {:induction false} FormatEntriesAppend(c: CollectionType, a: seq<string>, b: seq<string>)
    ensures FormatEntries(c, a + b) == FormatEntries(c, a) + FormatEntries(c, b)
    decreases |b|
  {
    if b == [] {
      assert a + b == a;
    } else {
      var init := b[..|b| - 1];
      var last := b[|b| - 1];
      calc {
        FormatEntries(c, a + b);
        { assert (a + b)[..|a + b| - 1] == a + init;
          assert (a + b)[|a + b| - 1] == last; }
        FormatEntries(c, a + init) + EntryPair(c, last);
        { FormatEntriesAppend(c, a, init); }
        FormatEntries(c, a) + FormatEntries(c, init) + EntryPair(c, last);
        FormatEntries(c, a) + (FormatEntries(c, init) + EntryPair(c, last));
        FormatEntries(c, a) + FormatEntries(c, b);
      }
    }
  }

  lemma {:induction false} TypeEntriesAppend(a: seq<CollectionType>, b: seq<CollectionType>, formats: seq<string>)
    ensures TypeEntries(a + b, formats) == TypeEntries(a, formats) + TypeEntries(b, formats)
    decreases |b|
  {
    if b == [] {
      assert a + b == a;
    } else {
      var init := b[..|b| - 1];
      var last := b[|b| - 1];
      calc {
        TypeEntries(a + b, formats);
        { assert (a + b)[..|a + b| - 1] == a + init;
          assert (a + b)[|a + b| - 1] == last; }
        TypeEntries(a + init, formats) + FormatEntries(last, formats);
        { TypeEntriesAppend(a, init, formats); }
        TypeEntries(a, formats) + TypeEntries(init, formats) + FormatEntries(last, formats);
        TypeEntries(a, formats) + (TypeEntries(init, formats) + FormatEntries(last, formats));
        TypeEntries(a, formats) + TypeEntries(b, formats);
      }
    }
  }

  /**
   * Entry order of the inner loop: the pair for format `j` follows those of
   * the earlier formats and precedes those of the later ones.
   */
  lemma FormatEntriesOrder(c: CollectionType, formats: seq<string>, j: nat)
    requires j < |formats|
    ensures FormatEntries(c, formats)
      == FormatEntries(c, formats[..j]) + EntryPair(c, formats[j]) + FormatEntries(c, formats[j + 1..])
  {
    assert formats == formats[..j] + [formats[j]] + formats[j + 1..];
    FormatEntriesAppend(c, formats[..j] + [formats[j]], formats[j + 1..]);
    FormatEntriesAppend(c, formats[..j], [formats[j]]);
    assert [formats[j]][..0] == [];
  }

  /**
   * Entry order of the outer loop: the block for type `i` follows those of
   * the earlier types and precedes those of the later ones.
   */
  lemma TypeEntriesOrder(types: seq<CollectionType>, formats: seq<string>, i: nat)
    requires i < |types|
    ensures TypeEntries(types, formats)
      == TypeEntries(types[..i], formats) + FormatEntries(types[i], formats) + TypeEntries(types[i + 1..], formats)
  {
    assert types == types[..i] + [types[i]] + types[i + 1..];
    TypeEntriesAppend(types[..i] + [types[i]], types[i + 1..], formats);
    TypeEntriesAppend(types[..i], [types[i]], formats);
    assert [types[i]][..0] == [];
  }

  /** Two entries per type and format. */
  lemma {:induction false} TypeEntriesCount(types: seq<CollectionType>, formats: seq<string>)
    ensures |TypeEntries(types, formats)| == 2 * |types| * |formats|
    decreases |types|
  {
    if types != [] {
      var n := |types| - 1;
      TypeEntriesCount(types[..n], formats);
      FormatEntriesCount(types[n], formats);
      assert |TypeEntries(types, formats)| == |TypeEntries(types[..n], formats)| + |FormatEntries(types[n], formats)|;
      CountStep(n, |formats|);
    }
  }

  /** The count grows by one type's entries. */
  lemma CountStep(n: nat, m: nat)
    ensures 2 * (n + 1) * m == 2 * n * m + 2 * m
  {
  }

  lemma {:induction false} FormatEntriesCount(c: CollectionType, formats: seq<string>)
    ensures |FormatEntries(c, formats)| == 2 * |formats|
    decreases |formats|
  {
    if formats != [] {
      FormatEntriesCount(c, formats[..|formats| - 1]);
    }
  }

  /** Formats `registerHandler` does not turn into the wildcard. */
  predicate ExplicitFormats(formats: seq<string>) {
    forall j :: 0 <= j < |formats| ==> formats[j] != "" && formats[j] != "0"
  }

  /**
   * Registering one type's entries stores its serialization and
   * deserialization methods under each format, and no other type's key.
   */
  lemma {:induction false} FormatEntriesTable(tbl: Table, owner: string, c: CollectionType, formats: seq<string>)
    requires ExplicitFormats(formats)
    ensures Registrations(owner, FormatEntries(c, formats)).1.None?
    ensures forall j :: 0 <= j < |formats| ==>
      Entry(StoreAll(tbl, Registrations(owner, FormatEntries(c, formats)).0), Serialization, c.name, formats[j])
        == Some(HandlerRef(owner, c.serializeMethod))
      && Entry(StoreAll(tbl, Registrations(owner, FormatEntries(c, formats)).0), Deserialization, c.name, formats[j])
        == Some(HandlerRef(owner, c.deserializeMethod))
    ensures forall d, t, f :: t != c.name ==>
      Entry(StoreAll(tbl, Registrations(owner, FormatEntries(c, formats)).0), d, t, f) == Entry(tbl, d, t, f)
    decreases |formats|
  {
    if formats != [] {
      var init := formats[..|formats| - 1];
      var f := formats[|formats| - 1];
      assert forall j :: 0 <= j < |init| ==> init[j] == formats[j];
      FormatEntriesTable(tbl, owner, c, init);
      FormatEntriesStep(tbl, owner, c, formats);
      var mid := StoreAll(tbl, Registrations(owner, FormatEntries(c, init)).0);
      var r := StoreAll(tbl, Registrations(owner, FormatEntries(c, formats)).0);
      FormatTableStep(tbl, mid, r, owner, c, formats);
    }
  }

  /** One more format: its two keys are set, and everything else stays as the earlier formats left it. */
  lemma FormatTableStep(tbl: Table, mid: Table, r: Table, owner: string, c: CollectionType, formats: seq<string>)
    requires formats != []
    requires r == Store(Store(mid, Serialization, c.name, formats[|formats| - 1], HandlerRef(owner, c.serializeMethod)),
                        Deserialization, c.name, formats[|formats| - 1], HandlerRef(owner, c.deserializeMethod))
    requires forall j :: 0 <= j < |formats| - 1 ==>
      Entry(mid, Serialization, c.name, formats[j]) == Some(HandlerRef(owner, c.serializeMethod))
      && Entry(mid, Deserialization, c.name, formats[j]) == Some(HandlerRef(owner, c.deserializeMethod))
    requires forall d, t, f' :: t != c.name ==> Entry(mid, d, t, f') == Entry(tbl, d, t, f')
    ensures forall j :: 0 <= j < |formats| ==>
      Entry(r, Serialization, c.name, formats[j]) == Some(HandlerRef(owner, c.serializeMethod))
      && Entry(r, Deserialization, c.name, formats[j]) == Some(HandlerRef(owner, c.deserializeMethod))
    ensures forall d, t, f' :: t != c.name ==> Entry(r, d, t, f') == Entry(tbl, d, t, f')
  {
    var f := formats[|formats| - 1];
    var h0 := HandlerRef(owner, c.serializeMethod);
    var h1 := HandlerRef(owner, c.deserializeMethod);
    forall j | 0 <= j < |formats|
      ensures Entry(r, Serialization, c.name, formats[j]) == Some(h0)
      ensures Entry(r, Deserialization, c.name, formats[j]) == Some(h1)
    {
      StorePairEffect(mid, c.name, f, h0, h1, Serialization, c.name, formats[j]);
      StorePairEffect(mid, c.name, f, h0, h1, Deserialization, c.name, formats[j]);
    }
    forall d, t, f' | t != c.name
      ensures Entry(r, d, t, f') == Entry(tbl, d, t, f')
    {
      StorePairEffect(mid, c.name, f, h0, h1, d, t, f');
    }
  }

  /** The pair for one format registers its serialization method, then its deserialization method. */
  lemma PairRegistrations(owner: string, c: CollectionType, f: string)
    ensures Registrations(owner, EntryPair(c, f))
      == ([Registration(Serialization, c.name, Some(f), HandlerRef(owner, c.serializeMethod)),
           Registration(Deserialization, c.name, Some(f), HandlerRef(owner, c.deserializeMethod))], None)
  {
    var pair := EntryPair(c, f);
    assert pair == [] + [pair[0]] + [pair[1]];
    RegistrationsSnoc(owner, [], pair[0]);
    RegistrationsSnoc(owner, [] + [pair[0]], pair[1]);
    EntryRegistersPerDirection(owner, pair[0]);
    EntryRegistersPerDirection(owner, pair[1]);
    var r0 := Registration(Serialization, c.name, Some(f), HandlerRef(owner, c.serializeMethod));
    var r1 := Registration(Deserialization, c.name, Some(f), HandlerRef(owner, c.deserializeMethod));
    assert DirectionRegistrations(owner, pair[0], EntryDirections(pair[0])) == ([r0], None);
    assert DirectionRegistrations(owner, pair[1], EntryDirections(pair[1])) == ([r1], None);
    assert Registrations(owner, [] + [pair[0]]) == ([] + [r0], None);
    assert [] + [r0] + [r1] == [r0, r1];
  }

  /** One pass of the inner loop: the pair for the last format is stored over the earlier ones. */
  lemma FormatEntriesStep(tbl: Table, owner: string, c: CollectionType, formats: seq<string>)
    requires formats != [] && ExplicitFormats(formats)
    requires Registrations(owner, FormatEntries(c, formats[..|formats| - 1])).1.None?
    ensures Registrations(owner, FormatEntries(c, formats)).1.None?
    ensures var f := formats[|formats| - 1];
      StoreAll(tbl, Registrations(owner, FormatEntries(c, formats)).0)
      == Store(Store(StoreAll(tbl, Registrations(owner, FormatEntries(c, formats[..|formats| - 1])).0),
                     Serialization, c.name, f, HandlerRef(owner, c.serializeMethod)),
               Deserialization, c.name, f, HandlerRef(owner, c.deserializeMethod))
  {
    var f := formats[|formats| - 1];
    var prev := FormatEntries(c, formats[..|formats| - 1]);
    var pair := EntryPair(c, f);
    assert FormatEntries(c, formats) == prev + pair;
    RegistrationsAppend(owner, prev, pair);
    PairRegistrations(owner, c, f);
    var r0 := Registration(Serialization, c.name, Some(f), HandlerRef(owner, c.serializeMethod));
    var r1 := Registration(Deserialization, c.name, Some(f), HandlerRef(owner, c.deserializeMethod));
    var before := Registrations(owner, prev).0;
    StoreAllAppend(tbl, before, [r0, r1]);
    StoreAllPair(StoreAll(tbl, before), r0, r1);
  }

  /** What storing a serialization and then a deserialization handler under one type and format changes. */
  lemma StorePairEffect(mid: Table, t: string, f: string, h0: HandlerRef, h1: HandlerRef, d: string, t': string, f': string)
    ensures Entry(Store(Store(mid, Serialization, t, f, h0), Deserialization, t, f, h1), d, t', f')
      == if (d, t', f') == (Deserialization, t, f) then Some(h1)
         else if (d, t', f') == (Serialization, t, f) then Some(h0)
         else Entry(mid, d, t', f')
  {
  }

  /**
   * Registering the whole table: for every type and format, the
   * serialization key holds the serialize method and the deserialization
   * key the deserialize method.
   */
  lemma {:induction false} TypeEntriesTable(tbl: Table, owner: string, types: seq<CollectionType>, formats: seq<string>)
    requires ExplicitFormats(formats)
    requires forall i, j :: 0 <= i < j < |types| ==> types[i].name != types[j].name
    ensures Registrations(owner, TypeEntries(types, formats)).1.None?
    ensures forall i, j :: 0 <= i < |types| && 0 <= j < |formats| ==>
      Entry(StoreAll(tbl, Registrations(owner, TypeEntries(types, formats)).0), Serialization, types[i].name, formats[j])
        == Some(HandlerRef(owner, types[i].serializeMethod))
      && Entry(StoreAll(tbl, Registrations(owner, TypeEntries(types, formats)).0), Deserialization, types[i].name, formats[j])
        == Some(HandlerRef(owner, types[i].deserializeMethod))
    decreases |types|
  {
    if types != [] {
      var init := types[..|types| - 1];
      var c := types[|types| - 1];
      TypeEntriesTable(tbl, owner, init, formats);
      FormatEntriesTable(StoreAll(tbl, Registrations(owner, TypeEntries(init, formats)).0), owner, c, formats);
      var prev := TypeEntries(init, formats);
      var fe := FormatEntries(c, formats);
      assert TypeEntries(types, formats) == prev + fe;
      RegistrationsAppend(owner, prev, fe);
      var before := Registrations(owner, prev).0;
      var more := Registrations(owner, fe).0;
      assert Registrations(owner, TypeEntries(types, formats)).0 == before + more;
      StoreAllAppend(tbl, before, more);
      var mid := StoreAll(tbl, before);
      var r := StoreAll(mid, more);
      assert StoreAll(tbl, Registrations(owner, TypeEntries(types, formats)).0) == r;
      assert forall i :: 0 <= i < |init| ==> init[i] == types[i];
      assert types == init + [c];
      TableStep(mid, r, owner, init, c, formats);
    }
  }

  /** One more type: its keys are set, and the earlier types' keys survive. */
  lemma TableStep(mid: Table, r: Table, owner: string, init: seq<CollectionType>, c: CollectionType, formats: seq<string>)
    requires forall i :: 0 <= i < |init| ==> init[i].name != c.name
    requires forall i, j :: 0 <= i < |init| && 0 <= j < |formats| ==>
      Entry(mid, Serialization, init[i].name, formats[j]) == Some(HandlerRef(owner, init[i].serializeMethod))
      && Entry(mid, Deserialization, init[i].name, formats[j]) == Some(HandlerRef(owner, init[i].deserializeMethod))
    requires forall j :: 0 <= j < |formats| ==>
      Entry(r, Serialization, c.name, formats[j]) == Some(HandlerRef(owner, c.serializeMethod))
      && Entry(r, Deserialization, c.name, formats[j]) == Some(HandlerRef(owner, c.deserializeMethod))
    requires forall d, t, f :: t != c.name ==> Entry(r, d, t, f) == Entry(mid, d, t, f)
    ensures forall i, j :: 0 <= i < |init + [c]| && 0 <= j < |formats| ==>
      Entry(r, Serialization, (init + [c])[i].name, formats[j]) == Some(HandlerRef(owner, (init + [c])[i].serializeMethod))
      && Entry(r, Deserialization, (init + [c])[i].name, formats[j]) == Some(HandlerRef(owner, (init + [c])[i].deserializeMethod))
  {
    forall i, j | 0 <= i < |init + [c]| && 0 <= j < |formats|
      ensures Entry(r, Serialization, (init + [c])[i].name, formats[j]) == Some(HandlerRef(owner, (init + [c])[i].serializeMethod))
      ensures Entry(r, Deserialization, (init + [c])[i].name, formats[j]) == Some(HandlerRef(owner, (init + [c])[i].deserializeMethod))
    {
      if i < |init| {
        assert (init + [c])[i] == init[i];
      }
    }
  }

  /** Lookup after registering the table finds, for each key, exactly the entry's method. */
  lemma TypeEntriesServe(tbl: Table, owner: string, types: seq<CollectionType>, formats: seq<string>, i: nat, j: nat)
    requires ExplicitFormats(formats)
    requires forall i, j :: 0 <= i < j < |types| ==> types[i].name != types[j].name
    requires i < |types| && j < |formats|
    ensures var served := StoreAll(tbl, Registrations(owner, TypeEntries(types, formats)).0);
      Lookup(served, Serialization, types[i].name, formats[j]) == Some(HandlerRef(owner, types[i].serializeMethod))
      && Lookup(served, Deserialization, types[i].name, formats[j]) == Some(HandlerRef(owner, types[i].deserializeMethod))
  {
    TypeEntriesTable(tbl, owner, types, formats);
  }

  /** Every entry of the table names its direction, type, format and method. */
  lemma {:induction false} TypeEntriesExplicit(types: seq<CollectionType>, formats: seq<string>)
    ensures forall md :: md in TypeEntries(types, formats) ==>
      md.direction.Some? && md.typeName.Some? && md.format.Some? && md.methodName.Some?
    ensures forall md :: md in TypeEntries(types, formats) && md.direction == Some(Serialization) ==>
      exists i :: 0 <= i < |types| && md.typeName == Some(types[i].name) && md.methodName == Some(types[i].serializeMethod)
    ensures forall md :: md in TypeEntries(types, formats) && md.direction != Some(Serialization) ==>
      md.direction == Some(Deserialization)
      && exists i :: 0 <= i < |types| && md.typeName == Some(types[i].name) && md.methodName == Some(types[i].deserializeMethod)
    decreases |types|
  {
    if types != [] {
      var init := types[..|types| - 1];
      TypeEntriesExplicit(init, formats);
      FormatEntriesExplicit(types[|types| - 1], formats);
      assert forall i :: 0 <= i < |init| ==> init[i] == types[i];
    }
  }

  lemma {:induction false} FormatEntriesExplicit(c: CollectionType, formats: seq<string>)
    ensures forall md :: md in FormatEntries(c, formats) ==>
      md.direction.Some? && md.typeName == Some(c.name) && md.format.Some?
      && (md.direction == Some(Serialization) ==> md.methodName == Some(c.serializeMethod))
      && (md.direction != Some(Serialization) ==> md.direction == Some(Deserialization) && md.methodName == Some(c.deserializeMethod))
    decreases |formats|
  {
    if formats != [] {
      FormatEntriesExplicit(c, formats[..|formats| - 1]);
    }
  }

  /** The type every collection handler hands to `visitArray`: `array`, with the original params. */
  function ArrayType(t: Type): (r: Type)
    ensures r.name == "array" && r.params == t.params
  {
    Type("array", t.params)
  }

  /** Rewriting is idempotent, and only the name of the type is lost. */
  lemma ArrayTypeRewrite(t: Type, u: Type)
    ensures ArrayType(ArrayType(t)) == ArrayType(t)
    ensures ArrayType(t) == ArrayType(u) <==> t.params == u.params
  {
  }
}
