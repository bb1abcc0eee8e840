/**
 The methods of `RuntimeImpl` and `DebuggerImpl` that hand out, use and free
 remote object ids, against the table operations of `RemoteObjects`.
 */
module RemoteObjectTables {
  import opened RemoteObjects
  import opened Options

  /** The handles and objects of the virtual machine. */
  class Vm {
    var created: nat
    var freed: seq<nat>
    var objects: map<nat, map<string, Value>>
    const inherited: map<nat, set<string>>

    /** `inherited` gives the names that an object finds on its prototypes. */
    constructor (inherited: map<nat, set<string>>)
      ensures created == 0 && freed == [] && objects == map[] && this.inherited == inherited
    {
      created, freed, objects := 0, [], map[];
      this.inherited := inherited;
    }

    method NewGlobal(value: Value) returns (handle: Handle)
      modifies `created
      ensures handle == Handle(old(created), value) && created == old(created) + 1
    {
      handle := Handle(created, value);
      created := created + 1;
    }
  }

  /** An own property as the virtual machine describes it. */
  datatype Property =
    Property(getter: Option<Value>, setter: Option<Value>, value: Option<Value>, symbol: Option<Value>)

  /** The ids that a property descriptor carries. */
  datatype Descriptor = Descriptor(getId: Option<ObjectId>, setId: Option<ObjectId>, valueId: Option<ObjectId>,
                                   symbolId: Option<ObjectId>)

  function Present(v: Option<Value>): seq<Value>
  {
    if v.Some? then [v.value] else []
  }

  function IfObject(v: Option<Value>): Option<Value>
  {
    if v.Some? && v.value.isObject then v else None
  }

  /** The values of a property that get an id, in order. */
  function Cached(p: Property): seq<Value>
  {
    Present(p.getter) + Present(p.setter) + Present(IfObject(p.value)) + Present(p.symbol)
  }

  predicate Stands(properties: map<ObjectId, Handle>, id: Option<ObjectId>, v: Option<Value>)
  {
    if v.Some? then id.Some? && id.value in properties && properties[id.value].value == v.value else id.None?
  }

  /** Every id of the descriptor stands for the value it was given to. */
  predicate Describes(properties: map<ObjectId, Handle>, d: Descriptor, p: Property)
  {
    && Stands(properties, d.getId, p.getter) && Stands(properties, d.setId, p.setter)
    && Stands(properties, d.valueId, IfObject(p.value)) && Stands(properties, d.symbolId, p.symbol)
  }

  predicate AllDescribed(properties: map<ObjectId, Handle>, ds: seq<Descriptor>, ps: seq<Property>)
  {
    |ds| == |ps| && forall i | 0 <= i < |ps| :: Describes(properties, ds[i], ps[i])
  }

  predicate Extends(properties: map<ObjectId, Handle>, properties': map<ObjectId, Handle>)
  {
    forall id | id in properties :: id in properties' && properties'[id] == properties[id]
  }

  predicate Wanted(p: Property, isAccessorOnly: bool)
  {
    !(isAccessorOnly && p.getter.None? && p.setter.None?)
  }

  /** The properties that are reported. */
  function Reported(ps: seq<Property>, isAccessorOnly: bool): seq<Property>
  {
    if ps == [] then []
    else
      var p := ps[|ps| - 1];
      Reported(ps[..|ps| - 1], isAccessorOnly) + if Wanted(p, isAccessorOnly) then [p] else []
  }

  function AllCached(ps: seq<Property>): seq<Value>
  {
    if ps == [] then [] else AllCached(ps[..|ps| - 1]) + Cached(ps[|ps| - 1])
  }

  /** What a request asks for; `range` is a valid start index and count. */
  datatype Request = Request(isOwn: bool, isAccessorOnly: bool, range: Option<(nat, nat)>)

  /**
   What the virtual machine says of an object: the entries that its kind shows
   (elements, internal slots), whether only those are shown (`alone`), its own
   properties, the prototype of a constructor, its prototype, and whether
   prototypes are left out (scopes, map entries, proxies).
   */
  datatype Object = Object(entries: seq<Value>, alone: bool, ownProperties: seq<Property>, prototype: Option<Value>,
                           proto: Value, skipProto: bool)

  /** The ids in an answer. */
  datatype Listing = Listing(entries: seq<ObjectId>, own: seq<Descriptor>, protos: seq<Option<ObjectId>>)

  /** The part of `n` properties that a request asks for: all of them unless the start index is one of theirs. */
  function Window(range: Option<(nat, nat)>, n: nat): (w: (nat, nat))
    ensures w.0 <= w.1 <= n
  {
    if range.None? || range.value.0 >= n then (0, n)
    else (range.value.0, if range.value.0 + range.value.1 <= n then range.value.0 + range.value.1 else n)
  }

  method AdjustStartAndLength(range: Option<(nat, nat)>, n: nat) returns (start: nat, end: nat)
    ensures (start, end) == Window(range, n)
  {
    start, end := 0, n;
    if range.None? {
      return;
    }
    var (startIndex, groupCount) := range.value;
    if startIndex >= end {
      return;
    }
    start := startIndex;
    end := if start + groupCount <= end then start + groupCount else end;
  }

  /** The own properties that an answer reports, and the values that get an id for them. */
  function OwnReported(o: Object, r: Request): seq<Property>
  {
    var (start, end) := Window(r.range, |o.ownProperties|);
    if o.alone then [] else Reported(o.ownProperties[start..end], r.isAccessorOnly)
  }

  function OwnValues(o: Object, r: Request): seq<Value>
  {
    if o.alone then [] else AllCached(OwnReported(o, r))
  }

  /** The prototypes that a request may show. */
  function Protos(o: Object, r: Request): seq<Option<Value>>
  {
    if !r.isAccessorOnly && r.isOwn then []
    else (if o.prototype.Some? then [IfObject(o.prototype)] else []) + [IfObject(Some(o.proto))]
  }

  function CachedOf(vs: seq<Option<Value>>): seq<Value>
  {
    if vs == [] then [] else CachedOf(vs[..|vs| - 1]) + Present(vs[|vs| - 1])
  }

  lemma ProtoValues(o: Object)
    ensures CachedOf([IfObject(Some(o.proto))]) == Present(IfObject(Some(o.proto)))
    ensures o.prototype.Some? ==>
              CachedOf([IfObject(o.prototype)] + [IfObject(Some(o.proto))])
              == Present(IfObject(o.prototype)) + Present(IfObject(Some(o.proto)))
  {
    var a, b := IfObject(o.prototype), IfObject(Some(o.proto));
    assert [b][..0] == [] && [a][..0] == [];
    assert ([a] + [b])[..1] == [a];
    assert CachedOf([a]) == Present(a);
  }

  /** Everything that gets an id for an answer, in order. */
  function Stored(o: Object, r: Request): seq<Value>
  {
    o.entries + OwnValues(o, r) + if o.skipProto then [] else CachedOf(Protos(o, r))
  }

  predicate AllStand(properties: map<ObjectId, Handle>, ids: seq<ObjectId>, vs: seq<Value>)
  {
    |ids| == |vs| && forall i | 0 <= i < |vs| :: Stands(properties, Some(ids[i]), Some(vs[i]))
  }

  predicate AllMayStand(properties: map<ObjectId, Handle>, ids: seq<Option<ObjectId>>, vs: seq<Option<Value>>)
  {
    |ids| == |vs| && forall i | 0 <= i < |vs| :: Stands(properties, ids[i], vs[i])
  }

  /** Every id of the answer stands for the value it was given to. */
  predicate Lists(properties: map<ObjectId, Handle>, l: Listing, o: Object, r: Request)
  {
    && AllStand(properties, l.entries, o.entries)
    && AllDescribed(properties, l.own, OwnReported(o, r))
    && AllMayStand(properties, l.protos, if o.skipProto then [] else Protos(o, r))
  }

  lemma {:induction false} AllocAllAppend(s: Table, a: seq<Value>, b: seq<Value>)
    ensures AllocAll(AllocAll(s, a), b) == AllocAll(s, a + b)
  {
    if b == [] {
      assert a + b == a;
    } else {
      var n := |b| - 1;
      AllocAllAppend(s, a, b[..n]);
      assert (a + b)[..|a + b| - 1] == a + b[..n];
    }
  }

  lemma {:induction false} AllocAllOne(s: Table, v: Value)
    ensures AllocAll(s, [v]) == Alloc(s, v)
  {
    assert [v][..0] == [];
    assert AllocAll(s, [v][..0]) == s;
  }

  class RuntimeImpl {
    const vm: Vm
    var curObjectId: ObjectId
    var properties: map<ObjectId, Handle>

    constructor (vm: Vm)
      ensures this.vm == vm && curObjectId == 0 && properties == map[]
    {
      this.vm := vm;
      curObjectId, properties := 0, map[];
    }

    ghost function View(scopes: Scopes): Table
      reads this, vm
    {
      Table(curObjectId, properties, scopes, vm.created, vm.freed)
    }

    /** `properties_[curObjectId_++] = Global(value)`, as every path does it. */
    method Store(value: Value) returns (id: ObjectId)
      modifies this, vm`created
      ensures id == old(curObjectId) && vm.created == old(vm.created) + 1
      ensures curObjectId == old(curObjectId) + 1
      ensures properties == old(properties)[id := Handle(old(vm.created), value)]
    {
      id := curObjectId;
      var handle := vm.NewGlobal(value);
      properties := properties[id := handle];
      curObjectId := curObjectId + 1;
    }

    method CacheObjectIfNeeded(value: Value, ghost scopes: Scopes) returns (id: Option<ObjectId>)
      requires Inv(View(scopes))
      modifies this, vm`created
      ensures View(scopes) == AllocAll(old(View(scopes)), Present(IfObject(Some(value)))) && Inv(View(scopes))
      ensures Stands(properties, id, IfObject(Some(value))) && Extends(old(properties), properties)
    {
      id := StoreIfAny(IfObject(Some(value)), scopes);
    }

    method StoreIfAny(v: Option<Value>, ghost scopes: Scopes) returns (id: Option<ObjectId>)
      requires Inv(View(scopes))
      modifies this, vm`created
      ensures View(scopes) == AllocAll(old(View(scopes)), Present(v)) && Inv(View(scopes))
      ensures Stands(properties, id, v) && Extends(old(properties), properties)
    {
      id := None;
      if v.Some? {
        AllocAllOne(View(scopes), v.value);
        AllocKeepsInv(View(scopes), v.value);
        var k := Store(v.value);
        id := Some(k);
      }
    }

    /** The ids for one property: getter, setter, value if it is an object, symbol. */
    method DescribeProperty(p: Property, ghost scopes: Scopes) returns (d: Descriptor)
      requires Inv(View(scopes))
      modifies this, vm`created
      ensures View(scopes) == AllocAll(old(View(scopes)), Cached(p)) && Inv(View(scopes))
      ensures Describes(properties, d, p) && Extends(old(properties), properties)
    {
      hide Inv, AllocAll;
      ghost var s := View(scopes);
      var getId := StoreIfAny(p.getter, scopes);
      ghost var first := properties;
      var setId := StoreIfAny(p.setter, scopes);
      ghost var second := properties;
      AllocAllAppend(s, Present(p.getter), Present(p.setter));
      var valueId := StoreIfAny(IfObject(p.value), scopes);
      ghost var third := properties;
      AllocAllAppend(s, Present(p.getter) + Present(p.setter), Present(IfObject(p.value)));
      var symbolId := StoreIfAny(p.symbol, scopes);
      AllocAllAppend(s, Present(p.getter) + Present(p.setter) + Present(IfObject(p.value)), Present(p.symbol));
      StandsGrows(first, properties, getId, p.getter);
      StandsGrows(second, properties, setId, p.setter);
      StandsGrows(third, properties, valueId, IfObject(p.value));
      d := Descriptor(getId, setId, valueId, symbolId);
    }

    /** `SetKeyValue`, `AddTypedArrayRef` and the like: every value gets an id, object or not. */
    method StoreEntries(entries: seq<Value>, ghost scopes: Scopes) returns (ids: seq<ObjectId>)
      requires Inv(View(scopes))
      modifies this, vm`created
      ensures View(scopes) == AllocAll(old(View(scopes)), entries) && Inv(View(scopes))
      ensures AllStand(properties, ids, entries) && Extends(old(properties), properties)
    {
      hide Inv, AllocAll;
      ghost var s := View(scopes);
      AllocNothing(s);
      ids := [];
      for i := 0 to |entries|
        invariant View(scopes) == AllocAll(s, entries[..i]) && Inv(View(scopes))
        invariant AllStand(properties, ids, entries[..i]) && Extends(old(properties), properties)
      {
        ghost var before := properties;
        var id := StoreIfAny(Some(entries[i]), scopes);
        AllocAllAppend(s, entries[..i], [entries[i]]);
        assert entries[..i + 1] == entries[..i] + [entries[i]];
        AllStandGrows(before, properties, ids, entries[..i]);
        ids := ids + [id.value];
      }
      assert entries[..|entries|] == entries;
    }

    /** The loop over the own properties. */
    method DescribeProperties(ps: seq<Property>, isAccessorOnly: bool, ghost scopes: Scopes)
        returns (ds: seq<Descriptor>)
      requires Inv(View(scopes))
      modifies this, vm`created
      ensures View(scopes) == AllocAll(old(View(scopes)), AllCached(Reported(ps, isAccessorOnly))) && Inv(View(scopes))
      ensures AllDescribed(properties, ds, Reported(ps, isAccessorOnly)) && Extends(old(properties), properties)
    {
      hide Inv, AllocAll, Describes, Cached, AllCached, Reported;
      ghost var s := View(scopes);
      AllocNone(s);
      assert Reported(ps[..0], isAccessorOnly) == [] by {
        ReportedNone(isAccessorOnly);
      }
      ds := [];
      for i := 0 to |ps|
        invariant Inv(View(scopes)) && Extends(old(properties), properties)
        invariant var qs := Reported(ps[..i], isAccessorOnly);
                  View(scopes) == AllocAll(s, AllCached(qs)) && AllDescribed(properties, ds, qs)
      {
        var p := ps[i];
        ghost var qs := Reported(ps[..i], isAccessorOnly);
        ReportedStep(ps, isAccessorOnly, i);
        if isAccessorOnly && p.getter.None? && p.setter.None? {
          assert Reported(ps[..i + 1], isAccessorOnly) == qs;
          continue;
        }
        ghost var before := properties;
        var d := DescribeProperty(p, scopes);
        AllocAllAppend(s, AllCached(qs), Cached(p));
        AllCachedStep(qs, p);
        DescribesGrows(before, properties, ds, qs);
        ds := ds + [d];
        assert Reported(ps[..i + 1], isAccessorOnly) == qs + [p];
      }
      assert ps[..|ps|] == ps;
    }

    /** `GetProtoOrProtoType`: the prototype of a constructor, then the prototype of the object itself. */
    method GetProtoOrProtoType(o: Object, r: Request, ghost scopes: Scopes) returns (ids: seq<Option<ObjectId>>)
      requires Inv(View(scopes))
      modifies this, vm`created
      ensures View(scopes) == AllocAll(old(View(scopes)), CachedOf(Protos(o, r))) && Inv(View(scopes))
      ensures AllMayStand(properties, ids, Protos(o, r)) && Extends(old(properties), properties)
    {
      hide Inv, AllocAll, Stands, Extends, CachedOf, Present, IfObject;
      ghost var s := View(scopes);
      ids := [];
      if !r.isAccessorOnly && r.isOwn {
        AllocNothing(s);
        NoProtos(properties);
        return;
      }
      ProtoValues(o);
      if o.prototype.Some? {
        var first := CacheObjectIfNeeded(o.prototype.value, scopes);
        ghost var before := properties;
        var second := CacheObjectIfNeeded(o.proto, scopes);
        StandsGrows(before, properties, first, IfObject(o.prototype));
        AllocAllAppend(s, Present(IfObject(o.prototype)), Present(IfObject(Some(o.proto))));
        ExtendsFurther(old(properties), before, properties);
        return [first] + [second];
      }
      var second := CacheObjectIfNeeded(o.proto, scopes);
      assert Protos(o, r) == [IfObject(Some(o.proto))];
      return [second];
    }

    /**
     The properties of an object: no answer and no change for an unknown id or a
     value that is no object; otherwise the entries of its kind, the requested
     own properties and the prototypes, and every id reported stands for its value.
     */
    method GetProperties(objectId: ObjectId, o: Object, r: Request, ghost scopes: Scopes)
        returns (listing: Option<Listing>)
      requires Inv(View(scopes))
      modifies this, vm`created
      ensures Inv(View(scopes))
      ensures listing.None? <==> objectId !in old(properties) || !old(properties)[objectId].value.isObject
      ensures listing.None? ==> View(scopes) == old(View(scopes))
      ensures listing.Some? ==> View(scopes) == AllocAll(old(View(scopes)), Stored(o, r))
      ensures listing.Some? ==> Lists(properties, listing.value, o, r)
    {
      hide Inv, AllocAll, AllStand, AllDescribed, AllMayStand, Extends, Reported, AllCached, CachedOf, Protos;
      if objectId !in properties || !properties[objectId].value.isObject {
        return None;
      }
      ghost var s := View(scopes);
      var ids := StoreEntries(o.entries, scopes);
      ghost var first := properties;
      var ds: seq<Descriptor> := [];
      if !o.alone {
        var start, end := AdjustStartAndLength(r.range, |o.ownProperties|);
        ds := DescribeProperties(o.ownProperties[start..end], r.isAccessorOnly, scopes);
        AllocAllAppend(s, o.entries, OwnValues(o, r));
        AllStandGrows(first, properties, ids, o.entries);
      } else {
        assert o.entries + OwnValues(o, r) == o.entries;
        NoneDescribed(properties);
      }
      ghost var second := properties;
      var protos: seq<Option<ObjectId>> := [];
      if !o.skipProto {
        protos := GetProtoOrProtoType(o, r, scopes);
        AllocAllAppend(s, o.entries + OwnValues(o, r), CachedOf(Protos(o, r)));
        AllStandGrows(second, properties, ids, o.entries);
        DescribesGrows(second, properties, ds, OwnReported(o, r));
      } else {
        NoneStand(properties);
      }
      assert o.entries + OwnValues(o, r) + [] == o.entries + OwnValues(o, r);
      return Some(Listing(ids, ds, protos));
    }
  }

  // -------------------------------------------------------------- the debugger

  type Objects = map<nat, map<string, Value>>

  function OwnNames(objects: Objects, ref: nat): map<string, Value>
  {
    if ref in objects then objects[ref] else map[]
  }

  /** `Has`: an own name or one that the object inherits. */
  predicate HasName(objects: Objects, inherited: map<nat, set<string>>, ref: nat, name: string)
  {
    name in OwnNames(objects, ref) || (ref in inherited && name in inherited[ref])
  }

  /** `DefineProperty`: always on the object itself. */
  function Define(objects: Objects, ref: nat, name: string, value: Value): Objects
  {
    objects[ref := OwnNames(objects, ref)[name := value]]
  }

  ghost predicate AllLive(ids: seq<ObjectId>, properties: map<ObjectId, Handle>)
  {
    forall i | 0 <= i < |ids| :: ids[i] in properties
  }

  /** The first of the scope objects that has the variable, as its own or by inheritance. */
  ghost function Owner(ids: seq<ObjectId>, properties: map<ObjectId, Handle>, objects: Objects,
                       inherited: map<nat, set<string>>, name: string): (r: Option<nat>)
    requires AllLive(ids, properties)
    ensures r.Some? ==> HasName(objects, inherited, r.value, name)
                        && exists i | 0 <= i < |ids| :: properties[ids[i]].value.ref == r.value
    ensures r.None? ==> forall i | 0 <= i < |ids| :: !HasName(objects, inherited, properties[ids[i]].value.ref, name)
  {
    if ids == [] then None
    else
      var ref := properties[ids[0]].value.ref;
      if HasName(objects, inherited, ref, name) then Some(ref)
      else Owner(ids[1..], properties, objects, inherited, name)
  }

  predicate Owns(objects: Objects, ref: nat, name: string)
  {
    name in OwnNames(objects, ref)
  }

  predicate OnlyInherits(objects: Objects, inherited: map<nat, set<string>>, ref: nat, name: string)
  {
    HasName(objects, inherited, ref, name) && !Owns(objects, ref, name)
  }

  /** The first of the scope objects that has the variable as its own: where it lives. */
  ghost function OwnOwner(ids: seq<ObjectId>, properties: map<ObjectId, Handle>, objects: Objects, name: string)
      : (r: Option<nat>)
    requires AllLive(ids, properties)
    ensures r.Some? ==> Owns(objects, r.value, name)
    ensures r.None? ==> forall i | 0 <= i < |ids| :: !Owns(objects, properties[ids[i]].value.ref, name)
  {
    if ids == [] then None
    else
      var ref := properties[ids[0]].value.ref;
      if Owns(objects, ref, name) then Some(ref) else OwnOwner(ids[1..], properties, objects, name)
  }

  /** Scope object `i` misleads: it inherits the name, and no object up to it has the variable. */
  ghost predicate MisleadsAt(ids: seq<ObjectId>, properties: map<ObjectId, Handle>, objects: Objects,
                             inherited: map<nat, set<string>>, name: string, i: nat)
    requires AllLive(ids, properties) && i < |ids|
  {
    && OnlyInherits(objects, inherited, properties[ids[i]].value.ref, name)
    && forall j | 0 <= j < i :: !Owns(objects, properties[ids[j]].value.ref, name)
  }

  ghost predicate Misleads(ids: seq<ObjectId>, properties: map<ObjectId, Handle>, objects: Objects,
                           inherited: map<nat, set<string>>, name: string)
    requires AllLive(ids, properties)
  {
    exists i | 0 <= i < |ids| :: MisleadsAt(ids, properties, objects, inherited, name, i)
  }

  /** An object that neither has nor inherits the name changes nothing in front of the others. */
  lemma MisleadsBehind(ids: seq<ObjectId>, properties: map<ObjectId, Handle>, objects: Objects,
                       inherited: map<nat, set<string>>, name: string)
    requires AllLive(ids, properties) && ids != []
    requires !HasName(objects, inherited, properties[ids[0]].value.ref, name)
    ensures Misleads(ids, properties, objects, inherited, name) <==>
              Misleads(ids[1..], properties, objects, inherited, name)
  {
    hide HasName, Owns;
    var rest := ids[1..];
    NoNameNoOwner(objects, inherited, properties[ids[0]].value.ref, name);
    assert forall i | 0 <= i < |rest| :: rest[i] == ids[i + 1];
    if Misleads(ids, properties, objects, inherited, name) {
      var i :| 0 <= i < |ids| && MisleadsAt(ids, properties, objects, inherited, name, i);
      assert MisleadsAt(rest, properties, objects, inherited, name, i - 1);
    }
    if Misleads(rest, properties, objects, inherited, name) {
      var i :| 0 <= i < |rest| && MisleadsAt(rest, properties, objects, inherited, name, i);
      forall j | 0 <= j < i + 1
        ensures !Owns(objects, properties[ids[j]].value.ref, name)
      {
        assert j > 0 ==> rest[j - 1] == ids[j];
      }
      assert MisleadsAt(ids, properties, objects, inherited, name, i + 1);
    }
  }

  lemma NoNameNoOwner(objects: Objects, inherited: map<nat, set<string>>, ref: nat, name: string)
    requires !HasName(objects, inherited, ref, name)
    ensures !Owns(objects, ref, name)
  {
  }

  /**
   A variable is assigned in the object where it lives if and only if no scope
   object merely inherits its name in front of that object.
   */
  lemma {:induction false} AssignedWhereItLivesIff(ids: seq<ObjectId>, properties: map<ObjectId, Handle>,
                                                   objects: Objects, inherited: map<nat, set<string>>, name: string)
    requires AllLive(ids, properties)
    ensures Owner(ids, properties, objects, inherited, name) == OwnOwner(ids, properties, objects, name) <==>
              forall i | 0 <= i < |ids| && OnlyInherits(objects, inherited, properties[ids[i]].value.ref, name) ::
                exists j | 0 <= j < i :: Owns(objects, properties[ids[j]].value.ref, name)
  {
    OwnerIff(ids, properties, objects, inherited, name);
    hide Owner, OwnOwner, OnlyInherits, Owns;
    if !Misleads(ids, properties, objects, inherited, name) {
      forall i | 0 <= i < |ids| && OnlyInherits(objects, inherited, properties[ids[i]].value.ref, name)
        ensures exists j | 0 <= j < i :: Owns(objects, properties[ids[j]].value.ref, name)
      {
        assert !MisleadsAt(ids, properties, objects, inherited, name, i);
      }
    }
  }

  lemma {:induction false} OwnerIff(ids: seq<ObjectId>, properties: map<ObjectId, Handle>, objects: Objects,
                                    inherited: map<nat, set<string>>, name: string)
    requires AllLive(ids, properties)
    ensures Owner(ids, properties, objects, inherited, name) == OwnOwner(ids, properties, objects, name) <==>
              !Misleads(ids, properties, objects, inherited, name)
  {
    if ids != [] {
      var ref := properties[ids[0]].value.ref;
      if !HasName(objects, inherited, ref, name) {
        OwnerIff(ids[1..], properties, objects, inherited, name);
        MisleadsBehind(ids, properties, objects, inherited, name);
      } else if !Owns(objects, ref, name) {
        assert MisleadsAt(ids, properties, objects, inherited, name, 0);
      }
    }
  }

  /** An inherited name wins over a variable of a later scope object: it is defined on the first object instead. */
  lemma {:induction false} InheritedNameWins(objects: Objects, inherited: map<nat, set<string>>, name: string,
                                             first: Handle, second: Handle)
    requires first.value.ref != second.value.ref
    requires name !in OwnNames(objects, first.value.ref)
    requires first.value.ref in inherited && name in inherited[first.value.ref]
    requires name in OwnNames(objects, second.value.ref)
    ensures var properties := map[0 := first, 1 := second];
            && Owner([0, 1], properties, objects, inherited, name) == Some(first.value.ref)
            && OwnOwner([0, 1], properties, objects, name) == Some(second.value.ref)
  {
    assert [0, 1][1..] == [1];
  }

  /** The objects after `UpdateScopeObject`. */
  ghost function Updated(ids: seq<ObjectId>, properties: map<ObjectId, Handle>, objects: Objects,
                         inherited: map<nat, set<string>>, name: string, value: Value): Objects
    requires AllLive(ids, properties)
  {
    var owner := Owner(ids, properties, objects, inherited, name);
    if owner.None? then objects else Define(objects, owner.value, name, value)
  }

  class DebuggerImpl {
    const runtime: RuntimeImpl
    var scopeObjects: Scopes
    var callFrameHandlers: seq<nat>

    constructor (runtime: RuntimeImpl)
      ensures this.runtime == runtime && scopeObjects == map[] && callFrameHandlers == []
    {
      this.runtime := runtime;
      scopeObjects, callFrameHandlers := map[], [];
    }

    ghost function View(): Table
      reads this, runtime, runtime.vm
    {
      runtime.View(scopeObjects)
    }

    /** The id of a local, closure, module or global scope object. */
    method AddScopeObject(sp: nat, scope: string, value: Value) returns (id: ObjectId)
      requires Inv(View())
      modifies this, runtime, runtime.vm`created
      ensures View() == Record(old(View()), sp, scope, value) && Inv(View())
      ensures id in runtime.properties && runtime.properties[id].value == value
      ensures id in Ids(scopeObjects, sp, scope) && callFrameHandlers == old(callFrameHandlers)
    {
      RecordKeepsInv(View(), sp, scope, value);
      hide Inv;
      scopeObjects := SetIds(scopeObjects, sp, scope, Ids(scopeObjects, sp, scope) + [runtime.curObjectId]);
      id := runtime.Store(value);
      assert Ids(scopeObjects, sp, scope)[|Ids(scopeObjects, sp, scope)| - 1] == id;
    }

    /** Assign a variable in the first scope object that has it; no id is added to the table by the look-ups. */
    method UpdateScopeObject(sp: nat, varName: string, newVal: Value, scope: string)
      requires Inv(View())
      modifies this, runtime.vm`objects
      ensures View() == Touch(old(View()), sp, scope) && Inv(View())
      ensures callFrameHandlers == old(callFrameHandlers)
      ensures AllLive(Ids(old(scopeObjects), sp, scope), runtime.properties)
      ensures runtime.vm.objects == Updated(Ids(old(scopeObjects), sp, scope), runtime.properties,
                                            old(runtime.vm.objects), runtime.vm.inherited, varName, newVal)
    {
      TouchKeepsInv(View(), sp, scope);
      ScopeListLive(View(), sp, scope);
      hide Inv;
      if sp !in scopeObjects {
        return;
      }
      var ids := Ids(scopeObjects, sp, scope);
      scopeObjects := SetIds(scopeObjects, sp, scope, ids);
      assert ids[0..] == ids;
      for i := 0 to |ids|
        invariant runtime.vm.objects == old(runtime.vm.objects)
        invariant Owner(ids, runtime.properties, runtime.vm.objects, runtime.vm.inherited, varName) ==
                  Owner(ids[i..], runtime.properties, runtime.vm.objects, runtime.vm.inherited, varName)
      {
        assert ids[i..][1..] == ids[i + 1..];
        var ref := runtime.properties[ids[i]].value.ref;
        if HasName(runtime.vm.objects, runtime.vm.inherited, ref, varName) {
          runtime.vm.objects := Define(runtime.vm.objects, ref, varName, newVal);
          return;
        }
      }
    }

    method CleanUpRuntimeProperties()
      requires Inv(View())
      modifies runtime, runtime.vm`freed
      ensures runtime.curObjectId == 0 && runtime.properties == map[]
      ensures runtime.vm.freed == old(runtime.vm.freed + AddressesDown(runtime.properties, runtime.curObjectId))
    {
      if runtime.properties == map[] {
        EmptyTable(View());
        return;
      }
      var validObjId := runtime.curObjectId - 1;
      while validObjId >= 0
        invariant -1 <= validObjId < runtime.curObjectId
        invariant runtime.properties == old(runtime.properties) && runtime.curObjectId == old(runtime.curObjectId)
        invariant runtime.vm.freed + AddressesDown(runtime.properties, validObjId + 1) ==
                  old(runtime.vm.freed + AddressesDown(runtime.properties, runtime.curObjectId))
      {
        runtime.vm.freed := runtime.vm.freed + [runtime.properties[validObjId].addr];
        validObjId := validObjId - 1;
      }
      runtime.curObjectId := 0;
      runtime.properties := map[];
    }

    method CleanUpOnPaused()
      requires Inv(View())
      modifies this, runtime, runtime.vm`freed
      ensures View() == CleanUp(old(View())) && Inv(View())
      ensures callFrameHandlers == []
    {
      CleanUpKeepsInv(View());
      CleanUpRuntimeProperties();
      callFrameHandlers := [];
      scopeObjects := map[];
    }
  }

  lemma EmptyTable(s: Table)
    requires Inv(s)
    ensures s.properties == map[] <==> s.curObjectId == 0
  {
    if s.curObjectId > 0 {
      assert 0 in s.properties;
    } else {
      assert forall id: ObjectId :: id !in s.properties;
    }
  }

  lemma ScopeListLive(s: Table, sp: nat, scope: string)
    requires Inv(s)
    ensures AllLive(Ids(s.scopeObjects, sp, scope), s.properties)
  {
  }

  lemma {:induction false} AllocNothing(s: Table)
    ensures AllocAll(s, []) == s
  {
  }

  lemma NoneDescribed(properties: map<ObjectId, Handle>)
    ensures AllDescribed(properties, [], [])
  {
  }

  lemma NoProtos(properties: map<ObjectId, Handle>)
    ensures CachedOf([]) == [] && Extends(properties, properties)
  {
  }

  lemma ExtendsFurther(a: map<ObjectId, Handle>, b: map<ObjectId, Handle>, c: map<ObjectId, Handle>)
    requires Extends(a, b) && Extends(b, c)
    ensures Extends(a, c)
  {
  }

  lemma NoneStand(properties: map<ObjectId, Handle>)
    ensures AllMayStand(properties, [], [])
  {
  }

  lemma AllStandGrows(properties: map<ObjectId, Handle>, properties': map<ObjectId, Handle>, ids: seq<ObjectId>,
                      vs: seq<Value>)
    requires Extends(properties, properties') && AllStand(properties, ids, vs)
    ensures AllStand(properties', ids, vs)
  {
    forall i | 0 <= i < |vs|
      ensures Stands(properties', Some(ids[i]), Some(vs[i]))
    {
      StandsGrows(properties, properties', Some(ids[i]), Some(vs[i]));
    }
  }

  lemma {:induction false} AllocNone(s: Table)
    ensures AllocAll(s, AllCached([])) == s
  {
  }

  lemma {:induction false} ReportedNone(isAccessorOnly: bool)
    ensures Reported([], isAccessorOnly) == []
  {
  }

  lemma {:induction false} AllCachedStep(ps: seq<Property>, p: Property)
    ensures AllCached(ps + [p]) == AllCached(ps) + Cached(p)
  {
    assert (ps + [p])[..|ps|] == ps;
  }

  lemma {:induction false} ReportedStep(ps: seq<Property>, isAccessorOnly: bool, i: nat)
    requires i < |ps|
    ensures Reported(ps[..i + 1], isAccessorOnly) ==
              Reported(ps[..i], isAccessorOnly) + if Wanted(ps[i], isAccessorOnly) then [ps[i]] else []
  {
    assert ps[..i + 1][..i] == ps[..i];
  }

  lemma StandsGrows(properties: map<ObjectId, Handle>, properties': map<ObjectId, Handle>, id: Option<ObjectId>,
                    v: Option<Value>)
    requires Extends(properties, properties') && Stands(properties, id, v)
    ensures Stands(properties', id, v)
  {
    if v.Some? {
      var k := id.value;
      assert properties'[k] == properties[k];
    }
  }

  lemma DescribesGrows(properties: map<ObjectId, Handle>, properties': map<ObjectId, Handle>, ds: seq<Descriptor>,
                       ps: seq<Property>)
    requires Extends(properties, properties') && AllDescribed(properties, ds, ps)
    ensures AllDescribed(properties', ds, ps)
  {
    forall i | 0 <= i < |ps|
      ensures Describes(properties', ds[i], ps[i])
    {
      assert Describes(properties, ds[i], ps[i]);
      StandsGrows(properties, properties', ds[i].getId, ps[i].getter);
      StandsGrows(properties, properties', ds[i].setId, ps[i].setter);
      StandsGrows(properties, properties', ds[i].valueId, IfObject(ps[i].value));
      StandsGrows(properties, properties', ds[i].symbolId, ps[i].symbol);
    }
  }
}
