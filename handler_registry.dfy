/**
 * The handler registry: a three-level table (direction, type name, format)
 * of handler callables with `*` wildcards, its four-step lookup cascade,
 * the default method-name convention, and bulk registration of the
 * declarative entries a subscribing handler publishes.
 */
module HandlerRegistry {
  import opened Types

  /** One entry of `getSubscribingMethods`; every key is optional. */
  datatype MethodData = MethodData(
    direction: Option<string>,
    typeName: Option<string>,
    format: Option<string>,
    methodName: Option<string>)

  /** strrpos: the index of the last backslash in `s`, if any. */
  function LastBackslash(s: string): (r: Option<nat>)
    ensures r.Some? ==> r.value < |s| && s[r.value] == '\\'
    ensures r.Some? ==> forall i :: r.value < i < |s| ==> s[i] != '\\'
    ensures r.None? ==> forall i :: 0 <= i < |s| ==> s[i] != '\\'
  {
    if s == [] then None
    else if s[|s| - 1] == '\\' then Some(|s| - 1)
    else LastBackslash(s[..|s| - 1])
  }

  /** The part of a class name after its last backslash. */
  function ShortName(typeName: string): (r: string)
    ensures |r| <= |typeName| && r == typeName[|typeName| - |r|..]
    ensures forall i :: 0 <= i < |r| ==> r[i] != '\\'
    ensures |r| < |typeName| ==> typeName[|typeName| - |r| - 1] == '\\'
  {
    match LastBackslash(typeName)
    case None => typeName
    case Some(pos) => typeName[pos + 1..]
  }

  /** `getDefaultMethod`: the handler method a subscribing entry gets when it names none. */
  function DefaultMethod(direction: string, typeName: string, format: string): (r: Result<string>)
    ensures r.Err? <==> direction != Serialization && direction != Deserialization
    ensures r.Err? ==> r.error == UnknownDirection(direction)
    ensures direction == Deserialization ==> r == Ok("deserialize" + ShortName(typeName) + "From" + format)
    ensures direction == Serialization ==> r == Ok("serialize" + ShortName(typeName) + "To" + format)
  {
    var short := ShortName(typeName);
    if direction == Deserialization then Ok("deserialize" + short + "From" + format)
    else if direction == Serialization then Ok("serialize" + short + "To" + format)
    else Err(UnknownDirection(direction))
  }

  /** The default names of the two directions never collide. */
  lemma DefaultMethodsOfDirectionsDiffer(t1: string, f1: string, t2: string, f2: string)
    ensures DefaultMethod(Serialization, t1, f1).value != DefaultMethod(Deserialization, t2, f2).value
  {
    var s := DefaultMethod(Serialization, t1, f1).value;
    var d := DefaultMethod(Deserialization, t2, f2).value;
    assert s[0] == 's' && d[0] == 'd';
  }

  /** Only the short name of the type enters the default name: namespaces do not matter. */
  lemma DefaultMethodIgnoresNamespace(direction: string, ns: string, short: string, format: string)
    requires forall i :: 0 <= i < |short| ==> short[i] != '\\'
    ensures DefaultMethod(direction, ns + "\\" + short, format) == DefaultMethod(direction, short, format)
  {
    var full := ns + "\\" + short;
    var pos := LastBackslash(full);
    assert full[|ns|] == '\\';
    assert forall i :: |ns| < i < |full| ==> full[i] == short[i - |ns| - 1];
    assert pos.Some? && pos.value == |ns|;
    assert full[|ns| + 1..] == short;
    assert LastBackslash(short).None?;
  }

  /** The handler table: direction -> type -> format -> handler. */
  type Table = map<string, map<string, map<string, HandlerRef>>>

  /** PHP's `$x ?: '*'`: null and the falsy strings "" and "0" become the wildcard. */
  function Wildcard(s: Option<string>): (r: string)
    ensures s.Some? && s.value != "" && s.value != "0" ==> r == s.value
    ensures s.None? || s.value == "" || s.value == "0" ==> r == "*"
    ensures r == "*" <==> s.None? || s.value in {"", "0", "*"}
  {
    if s.None? || s.value == "" || s.value == "0" then "*" else s.value
  }

  /** `isset($handlers[$d][$t][$f])`, as an option. */
  function Entry(tbl: Table, d: string, t: string, f: string): Option<HandlerRef> {
    if d in tbl && t in tbl[d] && f in tbl[d][t] then Some(tbl[d][t][f]) else None
  }

  /** `$handlers[$d][$t][$f] = $h`: only that key changes. */
  function Store(tbl: Table, d: string, t: string, f: string, h: HandlerRef): (r: Table)
    ensures Entry(r, d, t, f) == Some(h)
    ensures forall d', t', f' :: (d', t', f') != (d, t, f) ==> Entry(r, d', t', f') == Entry(tbl, d', t', f')
  {
    var byType := if d in tbl then tbl[d] else map[];
    var byFormat := if t in byType then byType[t] else map[];
    tbl[d := byType[t := byFormat[f := h]]]
  }

  /** `getHandler`: the first hit of (d,t,f), (d,t,*), (*,t,f), (*,t,*), else none. */
  function Lookup(tbl: Table, d: string, t: string, f: string): (r: Option<HandlerRef>)
    ensures r.None? <==>
      Entry(tbl, d, t, f).None? && Entry(tbl, d, t, "*").None? && Entry(tbl, "*", t, f).None? && Entry(tbl, "*", t, "*").None?
    ensures r.Some? ==>
      r in {Entry(tbl, d, t, f), Entry(tbl, d, t, "*"), Entry(tbl, "*", t, f), Entry(tbl, "*", t, "*")}
    ensures Entry(tbl, d, t, f).Some? ==> r == Entry(tbl, d, t, f)
    ensures Entry(tbl, d, t, f).None? && Entry(tbl, d, t, "*").Some? ==> r == Entry(tbl, d, t, "*")
    ensures Entry(tbl, d, t, f).None? && Entry(tbl, d, t, "*").None? && Entry(tbl, "*", t, f).Some? ==>
      r == Entry(tbl, "*", t, f)
    ensures Entry(tbl, d, t, f).None? && Entry(tbl, d, t, "*").None? && Entry(tbl, "*", t, f).None? ==>
      r == Entry(tbl, "*", t, "*")
  {
    if Entry(tbl, d, t, f).Some? then Entry(tbl, d, t, f)
    else if Entry(tbl, d, t, "*").Some? then Entry(tbl, d, t, "*")
    else if Entry(tbl, "*", t, f).Some? then Entry(tbl, "*", t, f)
    else Entry(tbl, "*", t, "*")
  }

  /**
   * A direction-specific registration beats every direction-wildcard one for
   * the same type, whatever format either names.
   */
  lemma DirectionSpecificWins(tbl: Table, d: string, t: string, f: string)
    requires Entry(tbl, d, t, f).Some? || Entry(tbl, d, t, "*").Some?
    ensures Lookup(tbl, d, t, f) == if Entry(tbl, d, t, f).Some? then Entry(tbl, d, t, f) else Entry(tbl, d, t, "*")
  {
  }

  /**
   * Among the direction-wildcard registrations, the one naming the format
   * beats the one for every format, when no direction-specific entry exists.
   */
  lemma FormatSpecificWildcardWins(tbl: Table, d: string, t: string, f: string, h: HandlerRef, g: HandlerRef)
    requires Entry(tbl, d, t, f).None? && Entry(tbl, d, t, "*").None?
    requires d != "*"
    ensures Lookup(Store(Store(tbl, "*", t, "*", g), "*", t, f, h), d, t, f) == Some(h)
    ensures Lookup(Store(Store(tbl, "*", t, f, h), "*", t, "*", g), d, t, f) == Some(h) || f == "*"
  {
    var one := Store(Store(tbl, "*", t, "*", g), "*", t, f, h);
    assert Entry(one, d, t, f).None? && Entry(one, d, t, "*").None?;
    var two := Store(Store(tbl, "*", t, f, h), "*", t, "*", g);
    if f != "*" {
      assert Entry(two, d, t, f).None? && Entry(two, d, t, "*").None? && Entry(two, "*", t, f) == Some(h);
    }
  }

  /** The last registration under an exact key is what lookup finds for that key. */
  lemma LastRegistrationWins(tbl: Table, d: string, t: string, f: string, h: HandlerRef)
    ensures Lookup(Store(tbl, d, t, f, h), d, t, f) == Some(h)
  {
  }

  /** A handler stored for both wildcards serves every direction and format nothing more specific claims. */
  lemma WildcardServesTheRest(tbl: Table, d: string, t: string, f: string, h: HandlerRef)
    requires Entry(tbl, d, t, f).None? && Entry(tbl, d, t, "*").None? && Entry(tbl, "*", t, f).None?
    ensures Lookup(Store(tbl, "*", t, "*", h), d, t, f) == Some(h)
  {
    var r := Store(tbl, "*", t, "*", h);
    if d != "*" && f != "*" {
      assert Entry(r, d, t, f).None? && Entry(r, d, t, "*").None? && Entry(r, "*", t, f).None?;
    } else if d != "*" {
      assert Entry(r, d, t, f).None? && Entry(r, d, t, "*").None?;
    } else if f != "*" {
      assert Entry(r, d, t, f).None?;
    }
  }

  /** A registration made by `registerHandler`. */
  datatype Registration = Registration(direction: string, typeName: string, format: Option<string>, handler: HandlerRef)

  /** The directions an entry registers for: its own, or both when it names none. */
  function EntryDirections(md: MethodData): seq<string> {
    if md.direction.Some? then [md.direction.value] else [Deserialization, Serialization]
  }

  /** The registration of `md` for one direction, or the error `getDefaultMethod` raises. */
  function RegistrationFor(owner: string, md: MethodData, direction: string): (r: Result<Registration>)
    ensures md.methodName.Some? ==> r == Ok(Registration(direction, md.typeName.GetOr(""), md.format, HandlerRef(owner, md.methodName.value)))
    ensures md.methodName.None? ==>
      (r.Ok? <==> DefaultMethod(direction, md.typeName.GetOr(""), md.format.GetOr("")).Ok?)
    ensures md.methodName.None? && r.Ok? ==>
      r.value.handler.methodName == DefaultMethod(direction, md.typeName.GetOr(""), md.format.GetOr("")).value
    ensures r.Ok? ==>
      r.value.direction == direction && r.value.typeName == md.typeName.GetOr("")
      && r.value.format == md.format && r.value.handler.owner == owner
  {
    var name := if md.methodName.Some? then Ok(md.methodName.value)
                else DefaultMethod(direction, md.typeName.GetOr(""), md.format.GetOr(""));
    match name
    case Ok(m) => Ok(Registration(direction, md.typeName.GetOr(""), md.format, HandlerRef(owner, m)))
    case Err(e) => Err(e)
  }

  /** The inner loop: the registrations of `md` for `dirs`, up to the first error. */
  function DirectionRegistrations(owner: string, md: MethodData, dirs: seq<string>): (seq<Registration>, Option<Error>) {
    if dirs == [] then ([], None)
    else
      var (done, err) := DirectionRegistrations(owner, md, dirs[..|dirs| - 1]);
      if err.Some? then (done, err)
      else match RegistrationFor(owner, md, dirs[|dirs| - 1])
        case Ok(reg) => (done + [reg], None)
        case Err(e) => (done, Some(e))
  }

  /** The outer loop: all registrations of `entries`, up to the first error. */
  function Registrations(owner: string, entries: seq<MethodData>): (seq<Registration>, Option<Error>) {
    if entries == [] then ([], None)
    else
      var (done, err) := Registrations(owner, entries[..|entries| - 1]);
      if err.Some? then (done, err)
      else
        var (more, err') := DirectionRegistrations(owner, entries[|entries| - 1], EntryDirections(entries[|entries| - 1]));
        (done + more, err')
  }

  /** The table after applying `regs` in order through `registerHandler`. */
  function StoreAll(tbl: Table, regs: seq<Registration>): Table {
    if regs == [] then tbl
    else
      var r := regs[|regs| - 1];
      Store(StoreAll(tbl, regs[..|regs| - 1]), Wildcard(Some(r.direction)), r.typeName, Wildcard(r.format), r.handler)
  }

  lemma StoreAllSnoc(tbl: Table, regs: seq<Registration>, r: Registration)
    ensures StoreAll(tbl, regs + [r])
      == Store(StoreAll(tbl, regs), Wildcard(Some(r.direction)), r.typeName, Wildcard(r.format), r.handler)
  {
    assert (regs + [r])[..|regs|] == regs;
  }

  /** An entry that names no direction registers for both; one that names a direction, for it alone. */
  lemma EntryRegistersPerDirection(owner: string, md: MethodData)
    requires md.methodName.Some? || md.direction.None?
    ensures var (regs, err) := DirectionRegistrations(owner, md, EntryDirections(md));
      err.None?
      && (md.direction.None? ==> |regs| == 2 && regs[0].direction == Deserialization && regs[1].direction == Serialization)
      && (md.direction.Some? ==> |regs| == 1 && regs[0].direction == md.direction.value)
      && (forall r :: r in regs ==> r.typeName == md.typeName.GetOr("") && r.format == md.format && r.handler.owner == owner)
      && (md.methodName.Some? ==> forall r :: r in regs ==> r.handler.methodName == md.methodName.value)
      && (md.direction.None? ==>
            regs == [RegistrationFor(owner, md, Deserialization).value, RegistrationFor(owner, md, Serialization).value])
      && (md.direction.Some? ==> regs == [RegistrationFor(owner, md, md.direction.value).value])
  {
    var dirs := EntryDirections(md);
    if md.direction.None? {
      var d1 := dirs[..1];
      assert d1 == [Deserialization];
      assert d1[..|d1| - 1] == [];
      var r0 := RegistrationFor(owner, md, Deserialization);
      var r1 := RegistrationFor(owner, md, Serialization);
      assert r0.Ok? && r1.Ok?;
      assert DirectionRegistrations(owner, md, d1[..|d1| - 1]) == ([], None);
      assert d1 != [] && d1[|d1| - 1] == Deserialization;
      assert RegistrationFor(owner, md, d1[|d1| - 1]) == Ok(r0.value);
      assert DirectionRegistrations(owner, md, d1) == ([] + [r0.value], None);
      assert [] + [r0.value] == [r0.value];
      assert dirs[..|dirs| - 1] == d1;
      assert dirs != [] && dirs[|dirs| - 1] == Serialization;
      assert RegistrationFor(owner, md, dirs[|dirs| - 1]) == Ok(r1.value);
      assert DirectionRegistrations(owner, md, dirs[..|dirs| - 1]) == ([r0.value], None);
      assert dirs[1] == Serialization;
      assert DirectionRegistrations(owner, md, dirs) == ([r0.value] + [r1.value], None);
    } else {
      assert dirs[..0] == [];
      var r0 := RegistrationFor(owner, md, md.direction.value);
      assert DirectionRegistrations(owner, md, dirs[..0]) == ([], None);
      assert DirectionRegistrations(owner, md, dirs) == ([] + [r0.value], None);
    }
  }

  /** The key `registerHandler` stores a registration under. */
  function KeyOf(r: Registration): (string, string, string) {
    (Wildcard(Some(r.direction)), r.typeName, Wildcard(r.format))
  }

  /** One more direction: its registration follows, unless an earlier direction already failed. */
  lemma DirectionRegistrationsSnoc(owner: string, md: MethodData, dirs: seq<string>, d: string)
    ensures DirectionRegistrations(owner, md, dirs + [d])
      == if DirectionRegistrations(owner, md, dirs).1.Some? then DirectionRegistrations(owner, md, dirs)
         else match RegistrationFor(owner, md, d)
           case Ok(reg) => (DirectionRegistrations(owner, md, dirs).0 + [reg], None)
           case Err(e) => (DirectionRegistrations(owner, md, dirs).0, Some(e))
  {
    assert (dirs + [d])[..|dirs + [d]| - 1] == dirs;
  }

  /** One more entry: its registrations follow, unless an earlier entry already failed. */
  lemma RegistrationsSnoc(owner: string, init: seq<MethodData>, last: MethodData)
    ensures Registrations(owner, init + [last])
      == if Registrations(owner, init).1.Some? then Registrations(owner, init)
         else (Registrations(owner, init).0 + DirectionRegistrations(owner, last, EntryDirections(last)).0,
               DirectionRegistrations(owner, last, EntryDirections(last)).1)
  {
    assert (init + [last])[..|init + [last]| - 1] == init;
  }

  /** A loop over `xs` that collects `f`'s results and stops at the first error. */
  function Collect<T, R, E>(f: T -> (seq<R>, Option<E>), xs: seq<T>): (seq<R>, Option<E>) {
    if xs == [] then ([], None)
    else
      var (done, err) := Collect(f, xs[..|xs| - 1]);
      if err.Some? then (done, err)
      else
        var (more, err') := f(xs[|xs| - 1]);
        (done + more, err')
  }

  /** Collecting over two sequences in turn, when the first fails nowhere. */
  lemma {:induction false} CollectAppend<T, R, E>(f: T -> (seq<R>, Option<E>), a: seq<T>, b: seq<T>)
    requires Collect(f, a).1.None?
    ensures Collect(f, a + b) == (Collect(f, a).0 + Collect(f, b).0, Collect(f, b).1)
    decreases |b|
  {
    if b == [] {
      assert a + b == a;
      assert Collect(f, a).0 + [] == Collect(f, a).0;
    } else {
      var init := b[..|b| - 1];
      assert (a + b)[..|a + b| - 1] == a + init;
      assert (a + b)[|a + b| - 1] == b[|b| - 1];
      CollectAppend(f, a, init);
      var ra := Collect(f, a).0;
      var ri := Collect(f, init).0;
      var more := f(b[|b| - 1]).0;
      assert ra + ri + more == ra + (ri + more);
    }
  }

  /** What one entry contributes to `Registrations`. */
  function EntryRegistrations(owner: string): MethodData -> (seq<Registration>, Option<Error>) {
    md => DirectionRegistrations(owner, md, EntryDirections(md))
  }

  /** `Registrations` is the collecting loop over `EntryRegistrations`. */
  lemma {:induction false} RegistrationsCollect(owner: string, entries: seq<MethodData>)
    ensures Registrations(owner, entries) == Collect(EntryRegistrations(owner), entries)
    decreases |entries|
  {
    if entries != [] {
      RegistrationsCollect(owner, entries[..|entries| - 1]);
    }
  }

  /** Registering two batches of entries in turn, when the first fails nowhere. */
  lemma RegistrationsAppend(owner: string, a: seq<MethodData>, b: seq<MethodData>)
    requires Registrations(owner, a).1.None?
    ensures Registrations(owner, a + b) == (Registrations(owner, a).0 + Registrations(owner, b).0, Registrations(owner, b).1)
  {
    RegistrationsCollect(owner, a);
    RegistrationsCollect(owner, b);
    RegistrationsCollect(owner, a + b);
    CollectAppend(EntryRegistrations(owner), a, b);
  }

  /** Applying two registrations: the second is stored over the first. */
  lemma StoreAllPair(tbl: Table, r0: Registration, r1: Registration)
    ensures StoreAll(tbl, [r0, r1])
      == Store(Store(tbl, KeyOf(r0).0, KeyOf(r0).1, KeyOf(r0).2, r0.handler), KeyOf(r1).0, KeyOf(r1).1, KeyOf(r1).2, r1.handler)
  {
    StoreAllSnoc(tbl, [r0], r1);
    StoreAllSnoc(tbl, [], r0);
    assert [] + [r0] == [r0];
    assert [r0] + [r1] == [r0, r1];
  }

  /** A registration that no later one overrides is what the table holds under its key. */
  lemma {:induction false} StoreAllKeepsLast(tbl: Table, regs: seq<Registration>, i: nat)
    requires i < |regs|
    requires forall j :: i < j < |regs| ==> KeyOf(regs[j]) != KeyOf(regs[i])
    ensures Entry(StoreAll(tbl, regs), KeyOf(regs[i]).0, KeyOf(regs[i]).1, KeyOf(regs[i]).2) == Some(regs[i].handler)
    decreases |regs|
  {
    if i < |regs| - 1 {
      StoreAllKeepsLast(tbl, regs[..|regs| - 1], i);
    }
  }

  /** Entries that each name a direction register once each, in entry order. */
  lemma {:induction false} DirectedEntriesRegisterOnce(owner: string, entries: seq<MethodData>)
    requires forall k :: 0 <= k < |entries| ==> entries[k].direction.Some? && entries[k].methodName.Some?
    ensures Registrations(owner, entries).1.None?
    ensures |Registrations(owner, entries).0| == |entries|
    ensures forall k :: 0 <= k < |entries| ==>
      Ok(Registrations(owner, entries).0[k]) == RegistrationFor(owner, entries[k], entries[k].direction.value)
    decreases |entries|
  {
    if entries != [] {
      var init := entries[..|entries| - 1];
      var last := entries[|entries| - 1];
      assert entries == init + [last];
      DirectedEntriesRegisterOnce(owner, init);
      EntryRegistersPerDirection(owner, last);
      RegistrationsSnoc(owner, init, last);
      var done := Registrations(owner, init).0;
      var more := DirectionRegistrations(owner, last, EntryDirections(last)).0;
      assert Registrations(owner, entries) == (done + more, None);
      forall k | 0 <= k < |entries|
        ensures Ok((done + more)[k]) == RegistrationFor(owner, entries[k], entries[k].direction.value)
      {
        if k < |init| {
          assert init[k] == entries[k];
        }
      }
    }
  }

  /** Entries that name no direction register twice each: deserialization first, then serialization. */
  lemma {:induction false} UndirectedEntriesRegisterTwice(owner: string, entries: seq<MethodData>)
    requires forall k :: 0 <= k < |entries| ==> entries[k].direction.None?
    ensures Registrations(owner, entries).1.None?
    ensures |Registrations(owner, entries).0| == 2 * |entries|
    ensures forall k :: 0 <= k < |entries| ==>
      Ok(Registrations(owner, entries).0[2 * k]) == RegistrationFor(owner, entries[k], Deserialization)
      && Ok(Registrations(owner, entries).0[2 * k + 1]) == RegistrationFor(owner, entries[k], Serialization)
    decreases |entries|
  {
    if entries != [] {
      var init := entries[..|entries| - 1];
      var last := entries[|entries| - 1];
      assert entries == init + [last];
      UndirectedEntriesRegisterTwice(owner, init);
      EntryRegistersPerDirection(owner, last);
      RegistrationsSnoc(owner, init, last);
      var done := Registrations(owner, init).0;
      var more := DirectionRegistrations(owner, last, EntryDirections(last)).0;
      assert Registrations(owner, entries) == (done + more, None);
      forall k | 0 <= k < |entries|
        ensures Ok((done + more)[2 * k]) == RegistrationFor(owner, entries[k], Deserialization)
        ensures Ok((done + more)[2 * k + 1]) == RegistrationFor(owner, entries[k], Serialization)
      {
        if k < |init| {
          assert init[k] == entries[k];
        }
      }
    }
  }

  /** The entries `UndirectedEntriesFound` and `UndirectedEntriesUntouched` are about. */
  predicate UndirectedEntries(entries: seq<MethodData>) {
    forall k :: 0 <= k < |entries| ==>
      entries[k].direction.None? && entries[k].format.None? && entries[k].typeName.Some? && entries[k].methodName.Some?
  }

  /**
   * Entries with distinct types that name a method but no direction and no
   * format: each is stored for both directions under format `*`.
   */
  lemma {:induction false} UndirectedEntriesFound(tbl: Table, owner: string, entries: seq<MethodData>)
    requires UndirectedEntries(entries)
    requires forall i, j :: 0 <= i < j < |entries| ==> entries[i].typeName != entries[j].typeName
    ensures Registrations(owner, entries).1.None?
    ensures forall k, d :: 0 <= k < |entries| && (d == Serialization || d == Deserialization) ==>
      Entry(StoreAll(tbl, Registrations(owner, entries).0), d, entries[k].typeName.value, "*")
        == Some(HandlerRef(owner, entries[k].methodName.value))
    decreases |entries|
  {
    if entries != [] {
      var init := entries[..|entries| - 1];
      var last := entries[|entries| - 1];
      assert forall k :: 0 <= k < |init| ==> init[k] == entries[k];
      UndirectedEntriesFound(tbl, owner, init);
      var before := Registrations(owner, init).0;
      var mid := StoreAll(tbl, before);
      var t := last.typeName.value;
      var h := HandlerRef(owner, last.methodName.value);
      UndirectedEntryStores(mid, owner, last);
      var more := DirectionRegistrations(owner, last, EntryDirections(last)).0;
      assert Registrations(owner, entries).0 == before + more;
      StoreAllAppend(tbl, before, more);
      var r := StoreAll(tbl, Registrations(owner, entries).0);
      assert r == Store(Store(mid, Deserialization, t, "*", h), Serialization, t, "*", h);
      forall k, d | 0 <= k < |entries| && (d == Serialization || d == Deserialization)
        ensures Entry(r, d, entries[k].typeName.value, "*") == Some(HandlerRef(owner, entries[k].methodName.value))
      {
        var one := Store(mid, Deserialization, t, "*", h);
        if k < |init| {
          var tk := entries[k].typeName.value;
          assert entries[k].typeName != last.typeName;
          assert Entry(mid, d, tk, "*") == Some(HandlerRef(owner, init[k].methodName.value));
          StoreKeepsOthers(mid, Deserialization, t, "*", h, d, tk, "*");
          StoreKeepsOthers(one, Serialization, t, "*", h, d, tk, "*");
        } else if d == Deserialization {
          StoreKeepsOthers(one, Serialization, t, "*", h, d, t, "*");
        }
      }
    }
  }

  /** Such entries change no key other than (direction, one of their types, `*`). */
  lemma {:induction false} UndirectedEntriesUntouched(tbl: Table, owner: string, entries: seq<MethodData>, d: string, t: string, f: string)
    requires UndirectedEntries(entries)
    requires f != "*" || (d != Serialization && d != Deserialization)
      || forall k :: 0 <= k < |entries| ==> entries[k].typeName != Some(t)
    ensures Registrations(owner, entries).1.None?
    ensures Entry(StoreAll(tbl, Registrations(owner, entries).0), d, t, f) == Entry(tbl, d, t, f)
    decreases |entries|
  {
    if entries != [] {
      var init := entries[..|entries| - 1];
      var last := entries[|entries| - 1];
      assert forall k :: 0 <= k < |init| ==> init[k] == entries[k];
      UndirectedEntriesUntouched(tbl, owner, init, d, t, f);
      var before := Registrations(owner, init).0;
      var mid := StoreAll(tbl, before);
      UndirectedEntryStores(mid, owner, last);
      var more := DirectionRegistrations(owner, last, EntryDirections(last)).0;
      assert Registrations(owner, entries).0 == before + more;
      StoreAllAppend(tbl, before, more);
      if f == "*" && (d == Serialization || d == Deserialization) {
        assert last.typeName != Some(t);
      }
    }
  }

  lemma StoreKeepsOthers(tbl: Table, d: string, t: string, f: string, h: HandlerRef, d': string, t': string, f': string)
    requires (d', t', f') != (d, t, f)
    ensures Entry(Store(tbl, d, t, f, h), d', t', f') == Entry(tbl, d', t', f')
  {
  }

  /** What one undirected entry with no format stores: deserialization first, then serialization, under `*`. */
  lemma UndirectedEntryStores(mid: Table, owner: string, md: MethodData)
    requires md.direction.None? && md.format.None? && md.typeName.Some? && md.methodName.Some?
    ensures DirectionRegistrations(owner, md, EntryDirections(md)).1.None?
    ensures StoreAll(mid, DirectionRegistrations(owner, md, EntryDirections(md)).0)
      == Store(Store(mid, Deserialization, md.typeName.value, "*", HandlerRef(owner, md.methodName.value)),
               Serialization, md.typeName.value, "*", HandlerRef(owner, md.methodName.value))
  {
    EntryRegistersPerDirection(owner, md);
    var t := md.typeName.value;
    var h := HandlerRef(owner, md.methodName.value);
    var r0 := Registration(Deserialization, t, None, h);
    var r1 := Registration(Serialization, t, None, h);
    assert DirectionRegistrations(owner, md, EntryDirections(md)).0 == [r0] + [r1];
    StoreAllSnoc(mid, [r0], r1);
    StoreAllSnoc(mid, [], r0);
    assert [] + [r0] == [r0];
  }

  /**
   * A fresh registry loaded with such entries finds each entry's handler for
   * its type in both directions, whatever format is asked for.
   */
  lemma UndirectedEntriesServeEveryFormat(owner: string, entries: seq<MethodData>, k: nat, d: string, f: string)
    requires UndirectedEntries(entries)
    requires forall i, j :: 0 <= i < j < |entries| ==> entries[i].typeName != entries[j].typeName
    requires k < |entries| && (d == Serialization || d == Deserialization)
    ensures Lookup(StoreAll(map[], Registrations(owner, entries).0), d, entries[k].typeName.value, f)
      == Some(HandlerRef(owner, entries[k].methodName.value))
  {
    UndirectedEntriesFound(map[], owner, entries);
    if f != "*" {
      UndirectedEntriesUntouched(map[], owner, entries, d, entries[k].typeName.value, f);
    }
  }

  /** The registry object: the handler table it updates in place. */
  class Registry {
    var handlers: Table

    constructor (initial: Table)
      ensures handlers == initial
    {
      handlers := initial;
    }

    /** `getHandler` on the current table. */
    function GetHandler(direction: string, typeName: string, format: string): (r: Option<HandlerRef>)
      reads this
      ensures r == Lookup(handlers, direction, typeName, format)
    {
      Lookup(handlers, direction, typeName, format)
    }

    /** `registerHandler`: stores under (direction or `*`, type, format or `*`). */
    method RegisterHandler(direction: Option<string>, typeName: string, format: Option<string>, handler: HandlerRef)
      modifies this
      ensures handlers == Store(old(handlers), Wildcard(direction), typeName, Wildcard(format), handler)
      ensures Entry(handlers, Wildcard(direction), typeName, Wildcard(format)) == Some(handler)
      ensures forall d, t, f :: (d, t, f) != (Wildcard(direction), typeName, Wildcard(format)) ==>
        Entry(handlers, d, t, f) == Entry(old(handlers), d, t, f)
    {
      var d := if direction.None? || direction.value == "" || direction.value == "0" then "*" else direction.value;
      var f := if format.None? || format.value == "" || format.value == "0" then "*" else format.value;
      var byType := if d in handlers then handlers[d] else map[];
      var byFormat := if typeName in byType then byType[typeName] else map[];
      handlers := handlers[d := byType[typeName := byFormat[f := handler]]];
    }

    /**
     * `registerSubscribingHandler`: for each entry, for each of its
     * directions, registers the entry's method (or the default one).  An
     * unknown direction without a method stops the loop with the
     * registrations made so far in place.
     */
    method RegisterSubscribingHandler(owner: string, entries: seq<MethodData>) returns (err: Option<Error>)
      modifies this
      ensures handlers == StoreAll(old(handlers), Registrations(owner, entries).0)
      ensures err == Registrations(owner, entries).1
    {
      ghost var done: seq<Registration> := [];
      var i := 0;
      while i < |entries|
        invariant 0 <= i <= |entries|
        invariant Registrations(owner, entries[..i]) == (done, None)
        invariant handlers == StoreAll(old(handlers), done)
      {
        var md := entries[i];
        RegistrationsStep(owner, entries, i, done);
        ghost var step := DirectionRegistrations(owner, md, EntryDirections(md));
        err := RegisterEntry(owner, md);
        StoreAllAppend(old(handlers), done, step.0);
        if err.Some? {
          return;
        }
        done := done + step.0;
        i := i + 1;
      }
      assert entries[..|entries|] == entries;
      err := None;
    }

    /** The inner loop of `registerSubscribingHandler`: one entry, each of its directions. */
    method RegisterEntry(owner: string, md: MethodData) returns (err: Option<Error>)
      modifies this
      ensures handlers == StoreAll(old(handlers), DirectionRegistrations(owner, md, EntryDirections(md)).0)
      ensures err == DirectionRegistrations(owner, md, EntryDirections(md)).1
    {
      var directions := if md.direction.Some? then [md.direction.value] else [Deserialization, Serialization];
      assert directions == EntryDirections(md);
      ghost var more: seq<Registration> := [];
      var j := 0;
      while j < |directions|
        invariant 0 <= j <= |directions|
        invariant DirectionRegistrations(owner, md, directions[..j]) == (more, None)
        invariant handlers == StoreAll(old(handlers), more)
      {
        var direction := directions[j];
        assert directions[..j + 1] == directions[..j] + [direction];
        DirectionRegistrationsSnoc(owner, md, directions[..j], direction);
        err := RegisterDirection(owner, md, direction);
        if err.Some? {
          PrefixErrorPropagates(owner, md, directions, j + 1);
          return;
        }
        ghost var reg := RegistrationFor(owner, md, direction).value;
        StoreAllSnoc(old(handlers), more, reg);
        more := more + [reg];
        j := j + 1;
      }
      assert directions[..|directions|] == directions;
      err := None;
    }

    /** One pass of the inner loop: the entry's method, or the default one, is registered for `direction`. */
    method RegisterDirection(owner: string, md: MethodData, direction: string) returns (err: Option<Error>)
      modifies this
      ensures RegistrationFor(owner, md, direction).Err? ==>
        err == Some(RegistrationFor(owner, md, direction).error) && handlers == old(handlers)
      ensures RegistrationFor(owner, md, direction).Ok? ==> err.None?
      ensures RegistrationFor(owner, md, direction).Ok? ==>
        var reg := RegistrationFor(owner, md, direction).value;
        handlers == Store(old(handlers), Wildcard(Some(reg.direction)), reg.typeName, Wildcard(reg.format), reg.handler)
    {
      var name: string;
      if md.methodName.Some? {
        name := md.methodName.value;
      } else {
        var dm := DefaultMethod(direction, md.typeName.GetOr(""), md.format.GetOr(""));
        if dm.Err? {
          return Some(dm.error);
        }
        name := dm.value;
      }
      RegisterHandler(Some(direction), md.typeName.GetOr(""), md.format, HandlerRef(owner, name));
      err := None;
    }
  }

  /** Applying two batches of registrations is applying their concatenation. */
  lemma {:induction false} StoreAllAppend(tbl: Table, a: seq<Registration>, b: seq<Registration>)
    ensures StoreAll(tbl, a + b) == StoreAll(StoreAll(tbl, a), b)
    decreases |b|
  {
    if b == [] {
      assert a + b == a;
    } else {
      var init := b[..|b| - 1];
      var last := b[|b| - 1];
      assert a + b == (a + init) + [last];
      assert b == init + [last];
      calc {
        StoreAll(tbl, a + b);
        { StoreAllSnoc(tbl, a + init, last); }
        Store(StoreAll(tbl, a + init), Wildcard(Some(last.direction)), last.typeName, Wildcard(last.format), last.handler);
        { StoreAllAppend(tbl, a, init); }
        Store(StoreAll(StoreAll(tbl, a), init), Wildcard(Some(last.direction)), last.typeName, Wildcard(last.format), last.handler);
        { StoreAllSnoc(StoreAll(tbl, a), init, last); }
        StoreAll(StoreAll(tbl, a), b);
      }
    }
  }

  /** Once the inner loop has failed, the remaining directions add nothing. */
  lemma PrefixErrorPropagates(owner: string, md: MethodData, dirs: seq<string>, n: nat)
    requires 0 < n <= |dirs|
    requires DirectionRegistrations(owner, md, dirs[..n]).1.Some?
    ensures DirectionRegistrations(owner, md, dirs) == DirectionRegistrations(owner, md, dirs[..n])
    decreases |dirs| - n
  {
    if n < |dirs| {
      assert dirs[..n + 1][..n] == dirs[..n];
      PrefixErrorPropagates(owner, md, dirs, n + 1);
    } else {
      assert dirs[..n] == dirs;
    }
  }

  /** One pass of the outer loop; a failing entry ends the registrations. */
  lemma RegistrationsStep(owner: string, entries: seq<MethodData>, i: nat, done: seq<Registration>)
    requires i < |entries|
    requires Registrations(owner, entries[..i]) == (done, None)
    ensures var step := DirectionRegistrations(owner, entries[i], EntryDirections(entries[i]));
      Registrations(owner, entries[..i + 1]) == (done + step.0, step.1)
      && (step.1.Some? ==> Registrations(owner, entries) == (done + step.0, step.1))
  {
    assert entries[..i + 1] == entries[..i] + [entries[i]];
    RegistrationsSnoc(owner, entries[..i], entries[i]);
    if DirectionRegistrations(owner, entries[i], EntryDirections(entries[i])).1.Some? {
      ErrorPropagates(owner, entries, i + 1);
    }
  }

  /** Once the outer loop has failed, the remaining entries add nothing. */
  lemma ErrorPropagates(owner: string, entries: seq<MethodData>, n: nat)
    requires 0 < n <= |entries|
    requires Registrations(owner, entries[..n]).1.Some?
    ensures Registrations(owner, entries) == Registrations(owner, entries[..n])
    decreases |entries| - n
  {
    if n < |entries| {
      assert entries[..n + 1][..n] == entries[..n];
      ErrorPropagates(owner, entries, n + 1);
    } else {
      assert entries[..n] == entries;
    }
  }
}
