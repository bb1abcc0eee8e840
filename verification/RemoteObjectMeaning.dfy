/** What the answers and updates of the remote object tables mean, property by property and name by name. */
module RemoteObjectMeaning {
  import opened RemoteObjects
  import opened RemoteObjectTables
  import opened Options
  import opened Selections

  // ------------------------------------------------------------- scope lists

  /** A recorded scope object is the last of its own list, and no other list changes. */
  lemma RecordMeaning(s: Table, sp: nat, scope: string, value: Value, sp': nat, scope': string)
    ensures var t := Record(s, sp, scope, value);
            && Ids(t.scopeObjects, sp', scope') ==
               Ids(s.scopeObjects, sp', scope') + (if (sp', scope') == (sp, scope) then [s.curObjectId] else [])
            && t.curObjectId == s.curObjectId + 1 && t.properties[s.curObjectId] == Handle(s.created, value)
  {
  }

  /** Looking a list up changes no list, no id and no handle; a frame with scopes has the list afterwards. */
  lemma TouchMeaning(s: Table, sp: nat, scope: string, sp': nat, scope': string)
    ensures var t := Touch(s, sp, scope);
            && Ids(t.scopeObjects, sp', scope') == Ids(s.scopeObjects, sp', scope')
            && (sp' in t.scopeObjects <==> sp' in s.scopeObjects)
            && (sp in s.scopeObjects ==> scope in t.scopeObjects[sp])
            && t.(scopeObjects := s.scopeObjects) == s
  {
  }

  // -------------------------------------------------------------- whole runs

  /** The values that got an id since the last clean-up, in order. */
  function Handed(ops: seq<Op>): seq<Value>
  {
    if ops == [] then []
    else
      var before := Handed(ops[..|ops| - 1]);
      match ops[|ops| - 1]
      case Cache(values) => before + values
      case RecordScope(_, _, value) => before + [value]
      case UpdateScope(_, _) => before
      case CleanUpOnPaused => []
  }

  /** The ids that were recorded for a scope of a frame since the last clean-up, in order. */
  function Recorded(ops: seq<Op>, sp: nat, scope: string): seq<ObjectId>
  {
    if ops == [] then []
    else
      var before := Recorded(ops[..|ops| - 1], sp, scope);
      match ops[|ops| - 1]
      case Cache(_) => before
      case RecordScope(sp', scope', _) =>
        if sp' == sp && scope' == scope then before + [|Handed(ops[..|ops| - 1])|] else before
      case UpdateScope(_, _) => before
      case CleanUpOnPaused => []
  }

  /** The table holds exactly the values, under the ids 0, 1 and so on. */
  ghost predicate HoldsValues(s: Table, values: seq<Value>)
  {
    && s.curObjectId == |values| && (forall id: ObjectId :: id in s.properties <==> 0 <= id < |values|)
    && forall id | 0 <= id < |values| :: s.properties[id].value == values[id]
  }

  lemma {:induction false} CachedValues(s: Table, values: seq<Value>, more: seq<Value>)
    requires Inv(s) && HoldsValues(s, values)
    ensures HoldsValues(AllocAll(s, more), values + more)
  {
    AllocAllKeepsInv(s, more);
    var t := AllocAll(s, more);
    forall id | 0 <= id < |values + more|
      ensures id in t.properties && t.properties[id].value == (values + more)[id]
    {
      if id >= |values| {
        assert t.properties[s.curObjectId + (id - |values|)].value == more[id - |values|];
      }
    }
  }

  /**
   After any run the tables are what the operations since the last clean-up
   make them: the values handed out in order, and for every scope its own ids.
   */
  lemma {:induction false} TableOfRun(ops: seq<Op>, sp: nat, scope: string)
    ensures HoldsValues(After(ops), Handed(ops))
    ensures Ids(After(ops).scopeObjects, sp, scope) == Recorded(ops, sp, scope)
  {
    if ops != [] {
      var before, op := ops[..|ops| - 1], ops[|ops| - 1];
      TableOfRun(before, sp, scope);
      var s := After(before);
      match op
      case Cache(values) => CachedValues(s, Handed(before), values); AllocAllKeepsInv(s, values);
      case RecordScope(sp', scope', value) => RecordMeaning(s, sp', scope', value, sp, scope);
      case UpdateScope(sp', scope') => TouchMeaning(s, sp', scope', sp, scope);
      case CleanUpOnPaused =>
    }
  }

  // --------------------------------------------------------------- variables

  /** The value of an own name of an object, if it has it. */
  function Lookup(objects: Objects, ref: nat, name: string): Option<Value>
  {
    if ref in objects && name in objects[ref] then Some(objects[ref][name]) else None
  }

  /** The scope object at index `i` is the first that has the name. */
  ghost predicate FirstWith(ids: seq<ObjectId>, properties: map<ObjectId, Handle>, objects: Objects,
                            inherited: map<nat, set<string>>, name: string, i: nat)
    requires AllLive(ids, properties)
  {
    && i < |ids| && HasName(objects, inherited, properties[ids[i]].value.ref, name)
    && forall j | 0 <= j < i :: !HasName(objects, inherited, properties[ids[j]].value.ref, name)
  }

  lemma {:induction false} OwnerIsFirst(ids: seq<ObjectId>, properties: map<ObjectId, Handle>, objects: Objects,
                                        inherited: map<nat, set<string>>, name: string, i: nat)
    requires AllLive(ids, properties) && FirstWith(ids, properties, objects, inherited, name, i)
    ensures Owner(ids, properties, objects, inherited, name) == Some(properties[ids[i]].value.ref)
  {
    hide HasName;
    if i > 0 {
      assert forall j | 0 <= j < |ids| - 1 :: ids[1..][j] == ids[j + 1];
      OwnerIsFirst(ids[1..], properties, objects, inherited, name, i - 1);
    }
  }

  /**
   After an update the variable has the new value in the first scope object that
   has it; every other name of that object and every other object is as before.
   */
  lemma UpdateMeaning(ids: seq<ObjectId>, properties: map<ObjectId, Handle>, objects: Objects,
                      inherited: map<nat, set<string>>, name: string, value: Value, i: nat, ref: nat, name': string)
    requires AllLive(ids, properties) && FirstWith(ids, properties, objects, inherited, name, i)
    ensures Lookup(Updated(ids, properties, objects, inherited, name, value), ref, name') ==
              if ref == properties[ids[i]].value.ref && name' == name then Some(value) else Lookup(objects, ref, name')
  {
    hide HasName;
    OwnerIsFirst(ids, properties, objects, inherited, name, i);
  }

  lemma NoOwnerNoUpdate(ids: seq<ObjectId>, properties: map<ObjectId, Handle>, objects: Objects,
                        inherited: map<nat, set<string>>, name: string, value: Value)
    requires AllLive(ids, properties)
    requires forall i | 0 <= i < |ids| :: !HasName(objects, inherited, properties[ids[i]].value.ref, name)
    ensures Updated(ids, properties, objects, inherited, name, value) == objects
  {
    hide HasName;
  }

  // ----------------------------------------------------------------- answers

  /** A request with a range gets the properties of the range, unless it begins behind the last one. */
  predicate InWindow(range: Option<(nat, nat)>, n: nat, i: nat)
  {
    i < n && (range.None? || n <= range.value.0 || range.value.0 <= i < range.value.0 + range.value.1)
  }

  lemma WindowMeaning(range: Option<(nat, nat)>, n: nat, i: nat)
    ensures Window(range, n).0 <= i < Window(range, n).1 <==> InWindow(range, n, i)
  {
  }

  predicate IsAccessor(p: Property)
  {
    p.getter.Some? || p.setter.Some?
  }

  predicate Asked(p: Property, isAccessorOnly: bool)
  {
    isAccessorOnly ==> IsAccessor(p)
  }

  lemma WantedIsAsked(p: Property, isAccessorOnly: bool)
    ensures Wanted(p, isAccessorOnly) <==> Asked(p, isAccessorOnly)
  {
  }

  lemma {:induction false} KeptLast(ps: seq<Property>, at: seq<nat>, qs: seq<Property>, keep: bool)
    requires ps != [] && Picks(at, |ps| - 1) && |at| == |qs| && forall j | 0 <= j < |at| :: qs[j] == ps[at[j]]
    ensures var n := |ps| - 1;
            var at', qs' := PickLast(at, n, keep), qs + if keep then [ps[n]] else [];
            Picks(at', |ps|) && |at'| == |qs'| && forall j | 0 <= j < |at'| :: qs'[j] == ps[at'[j]]
  {
    var n := |ps| - 1;
    LastPicked(at, n, keep);
    var at', qs' := PickLast(at, n, keep), qs + if keep then [ps[n]] else [];
    forall j | 0 <= j < |at'|
      ensures at'[j] < |ps| && qs'[j] == ps[at'[j]]
    {
      if j < |at| {
        assert qs'[j] == qs[j] && at'[j] == at[j];
      } else {
        assert at'[j] == n && qs'[j] == ps[n];
      }
    }
  }

  lemma {:induction false} ReportedPicks(ps: seq<Property>, isAccessorOnly: bool) returns (at: seq<nat>)
    ensures Picks(at, |ps|) && |at| == |Reported(ps, isAccessorOnly)|
    ensures forall j | 0 <= j < |at| :: Reported(ps, isAccessorOnly)[j] == ps[at[j]]
    ensures forall i | 0 <= i < |ps| :: i in at <==> Asked(ps[i], isAccessorOnly)
  {
    at := [];
    if ps != [] {
      var n := |ps| - 1;
      var before := ReportedPicks(ps[..n], isAccessorOnly);
      var keep := Asked(ps[n], isAccessorOnly);
      at := PickLast(before, n, keep);
      LastPicked(before, n, keep);
      hide Picks, PickLast, Asked;
      assert Reported(ps, isAccessorOnly) == Reported(ps[..n], isAccessorOnly) + if keep then [ps[n]] else [] by {
        WantedIsAsked(ps[n], isAccessorOnly);
      }
      KeptLast(ps, before, Reported(ps[..n], isAccessorOnly), keep);
      forall i | 0 <= i < |ps|
        ensures i in at <==> Asked(ps[i], isAccessorOnly)
      {
        assert i < n ==> ps[..n][i] == ps[i];
      }
    }
  }

  /** The same picks in a sequence with `d` more elements in front. */
  function Moved(at: seq<nat>, d: nat): (r: seq<nat>)
    ensures |r| == |at| && forall j | 0 <= j < |at| :: r[j] == at[j] + d
  {
    seq(|at|, j requires 0 <= j < |at| => at[j] + d)
  }

  lemma InMoved(at: seq<nat>, d: nat, i: nat)
    ensures i in Moved(at, d) <==> i >= d && i - d in at
  {
    if i >= d && i - d in at {
      var j :| 0 <= j < |at| && at[j] == i - d;
      assert Moved(at, d)[j] == i;
    }
  }

  /** The own properties in an answer: those of the window, and only accessors if the request says so. */
  lemma OwnPropertiesListed(o: Object, r: Request) returns (at: seq<nat>)
    ensures Picks(at, |o.ownProperties|) && |at| == |OwnReported(o, r)|
    ensures forall j | 0 <= j < |at| :: OwnReported(o, r)[j] == o.ownProperties[at[j]]
    ensures forall i | 0 <= i < |o.ownProperties| ::
              i in at <==> && !o.alone && InWindow(r.range, |o.ownProperties|, i)
                           && Asked(o.ownProperties[i], r.isAccessorOnly)
  {
    hide Reported, Window, Asked, InWindow;
    at := [];
    if !o.alone {
      var (start, end) := Window(r.range, |o.ownProperties|);
      var part := o.ownProperties[start..end];
      var picked := ReportedPicks(part, r.isAccessorOnly);
      at := Moved(picked, start);
      forall i | 0 <= i < |o.ownProperties|
        ensures i in at <==> InWindow(r.range, |o.ownProperties|, i) && Asked(o.ownProperties[i], r.isAccessorOnly)
      {
        WindowMeaning(r.range, |o.ownProperties|, i);
        InMoved(picked, start, i);
        if start <= i < end {
          assert part[i - start] == o.ownProperties[i];
        }
      }
    }
  }

  /** The id stands for the value, in the table of handles. */
  predicate IdOf(properties: map<ObjectId, Handle>, id: ObjectId, v: Value)
  {
    id in properties && properties[id].value == v
  }

  /** Accessors and symbols get an id if they are there, a value if it is an object. */
  predicate Answers(properties: map<ObjectId, Handle>, d: Descriptor, p: Property)
  {
    && (d.getId.Some? <==> p.getter.Some?) && (p.getter.Some? ==> IdOf(properties, d.getId.value, p.getter.value))
    && (d.setId.Some? <==> p.setter.Some?) && (p.setter.Some? ==> IdOf(properties, d.setId.value, p.setter.value))
    && (d.valueId.Some? <==> p.value.Some? && p.value.value.isObject)
    && (d.valueId.Some? ==> IdOf(properties, d.valueId.value, p.value.value))
    && (d.symbolId.Some? <==> p.symbol.Some?) && (p.symbol.Some? ==> IdOf(properties, d.symbolId.value, p.symbol.value))
  }

  predicate AnswersProto(properties: map<ObjectId, Handle>, id: Option<ObjectId>, v: Value)
  {
    if v.isObject then id.Some? && IdOf(properties, id.value, v) else id.None?
  }

  /** An answer, element by element, and its prototypes: none for a request of own properties only. */
  lemma AnswerMeaning(properties: map<ObjectId, Handle>, l: Listing, o: Object, r: Request) returns (at: seq<nat>)
    requires Lists(properties, l, o, r)
    ensures |l.entries| == |o.entries|
    ensures forall i | 0 <= i < |o.entries| :: IdOf(properties, l.entries[i], o.entries[i])
    ensures Picks(at, |o.ownProperties|) && |at| == |l.own|
    ensures forall j | 0 <= j < |at| :: Answers(properties, l.own[j], o.ownProperties[at[j]])
    ensures forall i | 0 <= i < |o.ownProperties| ::
              i in at <==> && !o.alone && InWindow(r.range, |o.ownProperties|, i)
                           && Asked(o.ownProperties[i], r.isAccessorOnly)
    ensures if o.skipProto || (r.isOwn && !r.isAccessorOnly) then l.protos == []
            else if o.prototype.None? then |l.protos| == 1 && AnswersProto(properties, l.protos[0], o.proto)
            else && |l.protos| == 2 && AnswersProto(properties, l.protos[0], o.prototype.value)
                 && AnswersProto(properties, l.protos[1], o.proto)
  {
    hide OwnReported;
    at := OwnPropertiesListed(o, r);
    forall i | 0 <= i < |o.entries|
      ensures IdOf(properties, l.entries[i], o.entries[i])
    {
      assert Stands(properties, Some(l.entries[i]), Some(o.entries[i]));
    }
    forall j | 0 <= j < |at|
      ensures Answers(properties, l.own[j], o.ownProperties[at[j]])
    {
      assert Describes(properties, l.own[j], OwnReported(o, r)[j]);
    }
  }

  // ------------------------------------------------------- no id is wasted

  function One(id: Option<ObjectId>): nat
  {
    if id.Some? then 1 else 0
  }

  function DescriptorIds(ds: seq<Descriptor>): nat
  {
    if ds == [] then 0
    else
      var d := ds[|ds| - 1];
      DescriptorIds(ds[..|ds| - 1]) + One(d.getId) + One(d.setId) + One(d.valueId) + One(d.symbolId)
  }

  function ProtoIds(ids: seq<Option<ObjectId>>): nat
  {
    if ids == [] then 0 else ProtoIds(ids[..|ids| - 1]) + One(ids[|ids| - 1])
  }

  lemma {:induction false} DescribedCount(properties: map<ObjectId, Handle>, ds: seq<Descriptor>, ps: seq<Property>)
    requires AllDescribed(properties, ds, ps)
    ensures DescriptorIds(ds) == |AllCached(ps)|
  {
    if ps != [] {
      var n := |ps| - 1;
      DescribedCount(properties, ds[..n], ps[..n]);
      assert Describes(properties, ds[n], ps[n]);
    }
  }

  lemma {:induction false} ProtoCount(properties: map<ObjectId, Handle>, ids: seq<Option<ObjectId>>,
                                      vs: seq<Option<Value>>)
    requires AllMayStand(properties, ids, vs)
    ensures ProtoIds(ids) == |CachedOf(vs)|
  {
    if vs != [] {
      var n := |vs| - 1;
      ProtoCount(properties, ids[..n], vs[..n]);
    }
  }

  /** An answer creates exactly as many ids as it reports. */
  lemma EveryIdIsReported(properties: map<ObjectId, Handle>, l: Listing, o: Object, r: Request)
    requires Lists(properties, l, o, r)
    ensures |Stored(o, r)| == |l.entries| + DescriptorIds(l.own) + ProtoIds(l.protos)
  {
    hide Reported, Protos, Describes;
    DescribedCount(properties, l.own, OwnReported(o, r));
    ProtoCount(properties, l.protos, if o.skipProto then [] else Protos(o, r));
  }
}
