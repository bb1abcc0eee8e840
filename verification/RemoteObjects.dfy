/**
 Remote object ids of the dynamic debugger: `RuntimeImpl` hands out ids for
 global handles, `DebuggerImpl` remembers which ids stand for scopes, and every
 resume frees all handles at once.
 */
module RemoteObjects {
  /** A JavaScript value; `ref` identifies an object. */
  datatype Value = Value(ref: nat, isObject: bool)

  /** A global handle; every new handle has an address of its own. */
  datatype Handle = Handle(addr: nat, value: Value)

  type ObjectId = int
  type Scopes = map<nat, map<string, seq<ObjectId>>>

  /** The id table, the scope lists, and the handles created and freed so far. */
  datatype Table = Table(curObjectId: ObjectId, properties: map<ObjectId, Handle>, scopeObjects: Scopes,
                         created: nat, freed: seq<nat>)

  // ------------------------------------------------------------- one operation

  /** `properties_[curObjectId_++] = Global(value)` */
  function Alloc(s: Table, value: Value): Table
  {
    s.(curObjectId := s.curObjectId + 1, properties := s.properties[s.curObjectId := Handle(s.created, value)],
       created := s.created + 1)
  }

  function AllocAll(s: Table, values: seq<Value>): Table
  {
    if values == [] then s else Alloc(AllocAll(s, values[..|values| - 1]), values[|values| - 1])
  }

  function Ids(scopes: Scopes, sp: nat, scope: string): seq<ObjectId>
  {
    if sp in scopes && scope in scopes[sp] then scopes[sp][scope] else []
  }

  /** `scopeObjects_[sp][scope] = ids` */
  function SetIds(scopes: Scopes, sp: nat, scope: string, ids: seq<ObjectId>): Scopes
  {
    scopes[sp := (if sp in scopes then scopes[sp] else map[])[scope := ids]]
  }

  /** A scope object gets an id, and the id is recorded for its frame. */
  function Record(s: Table, sp: nat, scope: string, value: Value): Table
  {
    var ids := Ids(s.scopeObjects, sp, scope) + [s.curObjectId];
    Alloc(s.(scopeObjects := SetIds(s.scopeObjects, sp, scope, ids)), value)
  }

  /** Looking a scope list up may leave an empty one behind. */
  function Touch(s: Table, sp: nat, scope: string): Table
  {
    if sp in s.scopeObjects
    then s.(scopeObjects := SetIds(s.scopeObjects, sp, scope, Ids(s.scopeObjects, sp, scope)))
    else s
  }

  /** The addresses of the handles with ids below `n`, last first. */
  function AddressesDown(properties: map<ObjectId, Handle>, n: nat): seq<nat>
    requires forall id | 0 <= id < n :: id in properties
  {
    if n == 0 then [] else [properties[n - 1].addr] + AddressesDown(properties, n - 1)
  }

  ghost function CleanUp(s: Table): Table
    requires Dense(s)
  {
    Table(0, map[], map[], s.created, s.freed + AddressesDown(s.properties, s.curObjectId))
  }

  // --------------------------------------------------------- what always holds

  /** The ids in use are exactly 0 up to the counter. */
  ghost predicate Dense(s: Table)
  {
    s.curObjectId >= 0 && forall id: ObjectId :: id in s.properties <==> 0 <= id < s.curObjectId
  }

  /** Every recorded scope id is in use. */
  ghost predicate ScopesLive(s: Table)
  {
    forall sp, scope | sp in s.scopeObjects && scope in s.scopeObjects[sp] ::
      forall i | 0 <= i < |s.scopeObjects[sp][scope]| :: s.scopeObjects[sp][scope][i] in s.properties
  }

  /** Every handle created is live under exactly one id or has been freed exactly once. */
  ghost predicate Conserved(s: Table)
  {
    && (forall id | id in s.properties :: s.properties[id].addr < s.created && s.properties[id].addr !in s.freed)
    && (forall id, id' | id in s.properties && id' in s.properties && id != id' ::
          s.properties[id].addr != s.properties[id'].addr)
    && (forall i | 0 <= i < |s.freed| :: s.freed[i] < s.created)
    && NoRepeat(s.freed)
    && |s.freed| + s.curObjectId == s.created
  }

  ghost predicate Inv(s: Table)
  {
    Dense(s) && ScopesLive(s) && Conserved(s)
  }

  lemma AllocKeepsInv(s: Table, value: Value)
    requires Inv(s)
    ensures Inv(Alloc(s, value))
  {
  }

  lemma {:induction false} AllocAllKeepsInv(s: Table, values: seq<Value>)
    requires Inv(s)
    ensures var t := AllocAll(s, values);
            && Inv(t) && t.curObjectId == s.curObjectId + |values| && t.scopeObjects == s.scopeObjects
            && t.freed == s.freed
            && (forall id | id in s.properties :: id in t.properties && t.properties[id] == s.properties[id])
            && (forall i | 0 <= i < |values| :: s.curObjectId + i in t.properties
                                               && t.properties[s.curObjectId + i].value == values[i])
  {
    if values != [] {
      var n := |values| - 1;
      AllocAllKeepsInv(s, values[..n]);
      AllocKeepsInv(AllocAll(s, values[..n]), values[n]);
      assert forall i | 0 <= i < n :: values[..n][i] == values[i];
    }
  }

  lemma SetIdsKeepsInv(s: Table, sp: nat, scope: string, ids: seq<ObjectId>)
    requires Inv(s) && forall i | 0 <= i < |ids| :: ids[i] in s.properties
    ensures Inv(s.(scopeObjects := SetIds(s.scopeObjects, sp, scope, ids)))
  {
  }

  lemma RecordKeepsInv(s: Table, sp: nat, scope: string, value: Value)
    requires Inv(s)
    ensures Inv(Record(s, sp, scope, value))
  {
    var t := Alloc(s, value);
    AllocKeepsInv(s, value);
    SetIdsKeepsInv(t, sp, scope, Ids(s.scopeObjects, sp, scope) + [s.curObjectId]);
    assert Record(s, sp, scope, value) ==
           t.(scopeObjects := SetIds(s.scopeObjects, sp, scope, Ids(s.scopeObjects, sp, scope) + [s.curObjectId]));
  }

  lemma TouchKeepsInv(s: Table, sp: nat, scope: string)
    requires Inv(s)
    ensures Inv(Touch(s, sp, scope))
  {
    SetIdsKeepsInv(s, sp, scope, Ids(s.scopeObjects, sp, scope));
  }

  lemma {:induction false} AddressesDownAt(properties: map<ObjectId, Handle>, n: nat)
    requires forall id | 0 <= id < n :: id in properties
    ensures |AddressesDown(properties, n)| == n
    ensures forall i | 0 <= i < n :: AddressesDown(properties, n)[i] == properties[n - 1 - i].addr
  {
    if n > 0 {
      AddressesDownAt(properties, n - 1);
    }
  }

  predicate NoRepeat(s: seq<nat>)
  {
    forall i, j | 0 <= i < j < |s| :: s[i] != s[j]
  }

  lemma AppendDistinct(a: seq<nat>, b: seq<nat>, bound: nat)
    requires NoRepeat(a) && NoRepeat(b) && forall i | 0 <= i < |b| :: b[i] !in a
    requires (forall i | 0 <= i < |a| :: a[i] < bound) && (forall i | 0 <= i < |b| :: b[i] < bound)
    ensures NoRepeat(a + b) && forall i | 0 <= i < |a + b| :: (a + b)[i] < bound
  {
  }

  /** The handles in use are distinct and not freed yet. */
  lemma LiveHandles(s: Table)
    requires Inv(s)
    ensures var d := AddressesDown(s.properties, s.curObjectId);
            && |d| == s.curObjectId && NoRepeat(d)
            && (forall i | 0 <= i < |d| :: d[i] !in s.freed && d[i] < s.created)
            && (forall id | id in s.properties :: s.properties[id].addr in d)
  {
    var d := AddressesDown(s.properties, s.curObjectId);
    AddressesDownAt(s.properties, s.curObjectId);
    forall id | id in s.properties
      ensures s.properties[id].addr in d
    {
      assert d[s.curObjectId - 1 - id] == s.properties[id].addr;
    }
  }

  /** Clean-up frees every live handle once and creates none. */
  lemma CleanUpKeepsInv(s: Table)
    requires Inv(s)
    ensures Inv(CleanUp(s))
    ensures forall id | id in s.properties :: s.properties[id].addr in CleanUp(s).freed
    ensures CleanUp(s).created == s.created == |CleanUp(s).freed|
  {
    hide AddressesDown;
    LiveHandles(s);
    AppendDistinct(s.freed, AddressesDown(s.properties, s.curObjectId), s.created);
  }

  // --------------------------------------------------------------- whole runs

  datatype Op =
    | Cache(values: seq<Value>)
    | RecordScope(sp: nat, scope: string, value: Value)
    | UpdateScope(sp: nat, scope: string)
    | CleanUpOnPaused

  ghost function Apply(s: Table, op: Op): (r: Table)
    requires Inv(s)
    ensures Inv(r)
  {
    match op
    case Cache(values) => AllocAllKeepsInv(s, values); AllocAll(s, values)
    case RecordScope(sp, scope, value) => RecordKeepsInv(s, sp, scope, value); Record(s, sp, scope, value)
    case UpdateScope(sp, scope) => TouchKeepsInv(s, sp, scope); Touch(s, sp, scope)
    case CleanUpOnPaused => CleanUpKeepsInv(s); CleanUp(s)
  }

  const EMPTY := Table(0, map[], map[], 0, [])

  /** The table after a run of operations. */
  ghost function After(ops: seq<Op>): (s: Table)
    ensures Inv(s)
  {
    if ops == [] then EMPTY else Apply(After(ops[..|ops| - 1]), ops[|ops| - 1])
  }

  lemma {:induction false} DistinctSetSize(s: seq<nat>)
    requires NoRepeat(s)
    ensures |set i | 0 <= i < |s| :: s[i]| == |s|
  {
    var all := set i | 0 <= i < |s| :: s[i];
    if s != [] {
      var n := |s| - 1;
      var front := s[..n];
      DistinctSetSize(front);
      var rest := set i | 0 <= i < |front| :: front[i];
      assert s[n] !in rest;
      assert all == rest + {s[n]} by {
        forall x | x in all ensures x in rest + {s[n]} {
          var i :| 0 <= i < |s| && s[i] == x;
          assert i < n ==> front[i] == x;
        }
        forall x | x in rest ensures x in all {
          var i :| 0 <= i < |front| && front[i] == x;
          assert s[i] == x;
        }
      }
    }
  }

  lemma {:induction false} BelowSize(a: set<nat>, n: nat)
    requires forall x | x in a :: x < n
    ensures |a| <= n
    ensures |a| == n ==> forall x: nat | x < n :: x in a
  {
    if n == 0 {
      assert a == {};
    } else {
      BelowSize(a - {n - 1}, n - 1);
    }
  }

  lemma Pigeonhole(s: seq<nat>, a: nat)
    requires NoRepeat(s) && (forall i | 0 <= i < |s| :: s[i] < |s|) && a < |s|
    ensures a in s
  {
    var all := set i | 0 <= i < |s| :: s[i];
    DistinctSetSize(s);
    BelowSize(all, |s|);
    assert a in all;
  }

  predicate IsLive(s: Table, addr: nat)
  {
    exists id | id in s.properties :: s.properties[id].addr == addr
  }

  /** No handle is lost: in every reachable table a handle ever created is either live or freed, and freed once. */
  lemma {:induction false} HandlesConserved(ops: seq<Op>, addr: nat)
    requires addr < After(ops).created
    ensures IsLive(After(ops), addr) <==> addr !in After(ops).freed
    ensures NoRepeat(After(ops).freed)
  {
    var s := After(ops);
    hide After, AddressesDown;
    LiveHandles(s);
    var d := AddressesDown(s.properties, s.curObjectId);
    AppendDistinct(s.freed, d, s.created);
    Pigeonhole(s.freed + d, addr);
    if addr in d {
      AddressIsLive(s, addr);
    }
  }

  lemma AddressIsLive(s: Table, addr: nat)
    requires Inv(s) && addr in AddressesDown(s.properties, s.curObjectId)
    ensures IsLive(s, addr)
  {
    AddressesDownAt(s.properties, s.curObjectId);
    var i :| 0 <= i < s.curObjectId && AddressesDown(s.properties, s.curObjectId)[i] == addr;
    assert s.properties[s.curObjectId - 1 - i].addr == addr;
  }

  /** Every id recorded for a scope in a reachable table stands for a live handle. */
  lemma {:induction false} ScopeIdsAreLive(ops: seq<Op>, sp: nat, scope: string, i: nat)
    requires i < |Ids(After(ops).scopeObjects, sp, scope)|
    ensures Ids(After(ops).scopeObjects, sp, scope)[i] in After(ops).properties
  {
  }

  /** After a clean-up every handle created so far has been freed, and none is left to look up. */
  lemma {:induction false} CleanUpFreesAll(ops: seq<Op>, addr: nat)
    requires ops != [] && ops[|ops| - 1] == CleanUpOnPaused && addr < After(ops).created
    ensures addr in After(ops).freed && After(ops).properties == map[] && After(ops).scopeObjects == map[]
    ensures After(ops).created == After(ops[..|ops| - 1]).created
  {
    HandlesConserved(ops, addr);
  }
}
