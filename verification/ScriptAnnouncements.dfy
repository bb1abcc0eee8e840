/**
 Script announcements when several threads use the source manager.  The table
 is locked for a lookup only, so another thread may run between a lookup and
 the announcement that follows it; and a location is put into a message that is
 sent later, when it is complete.
 */
module ScriptAnnouncements {
  import opened ScriptIds

  /**
   How a caller uses the "new" flag of a lookup: most announce a new script,
   the module loader announces every script, and the hybrid call frame builder
   announces none.
   */
  datatype Path = Checked | Always | Never

  /** What a thread holds after a lookup. */
  datatype Held = Free | Holding(id: ScriptId, announce: bool)

  /** `batch` is the message that the thread builds: the locations that it has put in so far. */
  datatype PC = PC(held: Held, batch: seq<Message>)

  const IDLE := PC(Free, [])

  /** A lookup that was made. */
  datatype Asked = Asked(key: ScriptKey, path: Path)

  /** `lookups` records the calls; no step reads it. */
  datatype State = State(names: seq<ScriptKey>, sent: seq<Message>, pcs: map<nat, PC>, lookups: seq<Asked>)

  /**
   A caller puts the id into the message that it builds, or goes on without doing
   so as the module loader does; a message is sent when no lookup is open.
   */
  datatype Op = Lookup(key: ScriptKey, path: Path) | Announce | Locate(line: int) | Leave | Send

  function IndexOf(names: seq<ScriptKey>, key: ScriptKey): (i: nat)
    requires key in names
    ensures i < |names| && names[i] == key
  {
    if names[0] == key then 0 else 1 + IndexOf(names[1..], key)
  }

  predicate Step(s: State, t: nat, op: Op, s': State)
  {
    t in s.pcs &&
    var pc := s.pcs[t];
    match op
    case Lookup(key, path) =>
      var names := Insert(s.names, key);
      var isNew := key !in s.names;
      var held := Holding(IndexOf(names, key), path.Always? || (path.Checked? && isNew));
      pc.held.Free? && s' == State(names, s.sent, s.pcs[t := pc.(held := held)], s.lookups + [Asked(key, path)])
    case Announce =>
      pc.held.Holding? && pc.held.announce && pc.held.id < |s.names| &&
      s' == s.(sent := s.sent + [ScriptParsed(pc.held.id, s.names[pc.held.id].fileName)],
               pcs := s.pcs[t := pc.(held := Holding(pc.held.id, false))])
    case Locate(line) =>
      pc.held.Holding? && !pc.held.announce &&
      s' == s.(pcs := s.pcs[t := PC(Free, pc.batch + [Located(pc.held.id, line)])])
    case Leave =>
      pc.held.Holding? && !pc.held.announce && s' == s.(pcs := s.pcs[t := pc.(held := Free)])
    case Send =>
      pc.held.Free? && pc.batch != [] && s' == s.(sent := s.sent + pc.batch, pcs := s.pcs[t := IDLE])
  }

  predicate AllIdle(s: State)
  {
    forall t | t in s.pcs :: s.pcs[t] == IDLE
  }

  predicate Init(s: State)
  {
    s.names == [] && s.sent == [] && s.lookups == [] && AllIdle(s)
  }

  ghost predicate Next(s: State, s': State)
  {
    exists t, op :: Step(s, t, op, s')
  }

  ghost predicate Moves(r: seq<State>, i: nat)
    requires i + 1 < |r|
  {
    Next(r[i], r[i + 1])
  }

  ghost predicate IsRun(r: seq<State>)
  {
    r != [] && Init(r[0]) && forall i | 0 <= i < |r| - 1 :: Moves(r, i)
  }

  // ------------------------------------------------------- counting the debts

  /** How often a script is announced in a log. */
  function Times(log: seq<Message>, id: ScriptId): nat
  {
    if log == [] then 0
    else
      var m := log[|log| - 1];
      Times(log[..|log| - 1], id) + if m.ScriptParsed? && m.scriptId == id then 1 else 0
  }

  /** The threads that have looked a script up and are about to announce it. */
  function Debtors(pcs: map<nat, PC>, id: ScriptId): set<nat>
  {
    set t | t in pcs && pcs[t].held == Holding(id, true)
  }

  /** The paths on which a script was looked up, in order. */
  function PathsOf(lookups: seq<Asked>, key: ScriptKey): seq<Path>
  {
    if lookups == [] then []
    else
      var a := lookups[|lookups| - 1];
      PathsOf(lookups[..|lookups| - 1], key) + if a.key == key then [a.path] else []
  }

  /** The announcements that these lookups call for: the first unless it is `Never`, and every later `Always`. */
  function Due(paths: seq<Path>): nat
  {
    if paths == [] then 0 else (if paths[0].Never? then 0 else 1) + multiset(paths[1..])[Always]
  }

  ghost predicate ScriptOk(s: State, id: ScriptId)
    requires id < |s.names|
  {
    && PathsOf(s.lookups, s.names[id]) != []
    && Times(s.sent, id) + |Debtors(s.pcs, id)| == Due(PathsOf(s.lookups, s.names[id]))
  }

  predicate MessageOk(names: seq<ScriptKey>, m: Message)
  {
    if m.ScriptParsed? then m.scriptId < |names| && m.url == names[m.scriptId].fileName else m.id < |names|
  }

  predicate BatchOk(names: seq<ScriptKey>, batch: seq<Message>)
  {
    forall p | 0 <= p < |batch| :: batch[p].Located? && MessageOk(names, batch[p])
  }

  predicate Ranged(s: State)
  {
    && (forall t | t in s.pcs && s.pcs[t].held.Holding? :: s.pcs[t].held.id < |s.names|)
    && (forall t | t in s.pcs :: BatchOk(s.names, s.pcs[t].batch))
    && (forall p | 0 <= p < |s.sent| :: MessageOk(s.names, s.sent[p]))
  }

  /** For every script: announced so far, plus still owed, is what its lookups call for. */
  ghost predicate Inv(s: State)
  {
    && Distinct(s.names)
    && Ranged(s)
    && (forall key | key !in s.names :: PathsOf(s.lookups, key) == [])
    && (forall id | 0 <= id < |s.names| :: ScriptOk(s, id))
  }

  // ------------------------------------------------------------- preservation

  lemma {:induction false} TimesAppend(log: seq<Message>, m: Message, id: ScriptId)
    ensures Times(log + [m], id) == Times(log, id) + if m.ScriptParsed? && m.scriptId == id then 1 else 0
  {
    assert (log + [m])[..|log|] == log;
  }

  /** A batch of locations announces nothing. */
  lemma {:induction false} TimesBatch(names: seq<ScriptKey>, log: seq<Message>, batch: seq<Message>, id: ScriptId)
    requires BatchOk(names, batch)
    ensures Times(log + batch, id) == Times(log, id)
  {
    if batch == [] {
      assert log + batch == log;
    } else {
      var n := |batch| - 1;
      TimesBatch(names, log, batch[..n], id);
      assert log + batch == log + batch[..n] + [batch[n]];
      TimesAppend(log + batch[..n], batch[n], id);
    }
  }

  lemma {:induction false} PathsAppend(lookups: seq<Asked>, a: Asked, key: ScriptKey)
    ensures PathsOf(lookups + [a], key) ==
              if a.key == key then PathsOf(lookups, key) + [a.path] else PathsOf(lookups, key)
  {
    assert (lookups + [a])[..|lookups|] == lookups;
  }

  /** One more lookup calls for one more announcement exactly when the caller makes one. */
  lemma DueAppend(paths: seq<Path>, p: Path)
    ensures Due(paths + [p]) == Due(paths) + if p.Always? || (p.Checked? && paths == []) then 1 else 0
  {
    if paths == [] {
      assert (paths + [p])[1..] == [];
    } else {
      assert (paths + [p])[1..] == paths[1..] + [p];
    }
  }

  lemma CountWith(a: set<nat>, t: nat)
    ensures |a| == |a - {t}| + if t in a then 1 else 0
  {
    if t !in a {
      assert a - {t} == a;
    }
  }

  lemma DebtorsAfter(pcs: map<nat, PC>, t: nat, pc: PC, id: ScriptId)
    requires t in pcs
    ensures |Debtors(pcs[t := pc], id)| ==
              |Debtors(pcs, id)| - (if pcs[t].held == Holding(id, true) then 1 else 0)
              + (if pc.held == Holding(id, true) then 1 else 0)
  {
    var rest, after := Debtors(pcs, id) - {t}, Debtors(pcs[t := pc], id);
    assert forall u | u != t :: u in after <==> u in Debtors(pcs, id);
    assert t in after <==> pc.held == Holding(id, true);
    assert t in Debtors(pcs, id) <==> pcs[t].held == Holding(id, true);
    hide Debtors;
    assert after - {t} == rest;
    CountWith(Debtors(pcs, id), t);
    CountWith(after, t);
  }

  lemma NoDebtors(s: State, id: ScriptId)
    requires Ranged(s) && id >= |s.names|
    ensures Debtors(s.pcs, id) == {}
  {
  }

  lemma {:induction false} NotAnnounced(names: seq<ScriptKey>, log: seq<Message>, id: ScriptId)
    requires (forall p | 0 <= p < |log| :: MessageOk(names, log[p])) && id >= |names|
    ensures Times(log, id) == 0
  {
    if log != [] {
      assert MessageOk(names, log[|log| - 1]);
      NotAnnounced(names, log[..|log| - 1], id);
    }
  }

  lemma {:induction false} IndexOfNew(names: seq<ScriptKey>, key: ScriptKey)
    requires key !in names
    ensures IndexOf(Insert(names, key), key) == |names|
  {
  }

  lemma LookupKeepsScript(s: State, t: nat, key: ScriptKey, path: Path, s': State, id: ScriptId)
    requires Inv(s) && Step(s, t, Lookup(key, path), s') && id < |s'.names|
    ensures ScriptOk(s', id)
  {
    hide IndexOf, Due, PathsOf, Times;
    var a, pc, name := Asked(key, path), s'.pcs[t], s'.names[id];
    PathsAppend(s.lookups, a, name);
    DueAppend(PathsOf(s.lookups, name), path);
    DebtorsAfter(s.pcs, t, pc, id);
    if key !in s.names {
      IndexOfNew(s.names, key);
    }
    assert pc.held.id == id <==> name == key;
    if id < |s.names| {
      assert ScriptOk(s, id);
      assert name == s.names[id];
    } else {
      NoDebtors(s, id);
      NotAnnounced(s.names, s.sent, id);
      DueOfNone();
    }
  }

  lemma DueOfNone()
    ensures Due([]) == 0
  {
  }

  lemma LookupKeepsInv(s: State, t: nat, key: ScriptKey, path: Path, s': State)
    requires Inv(s) && Step(s, t, Lookup(key, path), s')
    ensures Inv(s')
  {
    hide IndexOf, ScriptOk, PathsOf;
    forall id | 0 <= id < |s'.names|
      ensures ScriptOk(s', id)
    {
      LookupKeepsScript(s, t, key, path, s', id);
    }
    forall k | k !in s'.names
      ensures PathsOf(s'.lookups, k) == []
    {
      PathsAppend(s.lookups, Asked(key, path), k);
      assert k !in s.names;
    }
    RangedGrows(s, s');
  }

  /** More names change nothing for what is there. */
  lemma RangedGrows(s: State, s': State)
    requires Ranged(s) && s.names <= s'.names && s'.sent == s.sent
    requires forall t | t in s'.pcs :: t in s.pcs && s'.pcs[t].batch == s.pcs[t].batch
    requires forall t | t in s'.pcs && s'.pcs[t].held.Holding? :: s'.pcs[t].held.id < |s'.names|
    ensures Ranged(s')
  {
    forall t | t in s'.pcs
      ensures BatchOk(s'.names, s'.pcs[t].batch)
    {
      assert BatchOk(s.names, s.pcs[t].batch);
    }
    assert forall p | 0 <= p < |s.sent| :: MessageOk(s.names, s.sent[p]);
  }

  /** What a step other than a lookup adds to the log: nothing, one announcement, or a batch of locations. */
  lemma Added(s: State, t: nat, op: Op, s': State)
    requires Ranged(s) && Step(s, t, op, s') && !op.Lookup?
    ensures Ranged(s')
    ensures op.Announce? ==> s'.sent == s.sent + [ScriptParsed(s.pcs[t].held.id, s.names[s.pcs[t].held.id].fileName)]
    ensures op.Send? ==> s'.sent == s.sent + s.pcs[t].batch && BatchOk(s.names, s.pcs[t].batch)
    ensures op.Locate? || op.Leave? ==> s'.sent == s.sent
  {
    assert BatchOk(s.names, s.pcs[t].batch);
  }

  lemma StepKeepsScript(s: State, t: nat, op: Op, s': State, id: ScriptId)
    requires Inv(s) && Step(s, t, op, s') && !op.Lookup? && id < |s.names|
    ensures ScriptOk(s', id)
  {
    hide PathsOf, Due, Times, Debtors, Ranged;
    assert ScriptOk(s, id);
    Added(s, t, op, s');
    DebtorsAfter(s.pcs, t, s'.pcs[t], id);
    match op {
      case Announce => TimesAppend(s.sent, s'.sent[|s.sent|], id);
      case Send => TimesBatch(s.names, s.sent, s.pcs[t].batch, id);
      case _ =>
    }
  }

  lemma StepKeepsInv(s: State, t: nat, op: Op, s': State)
    requires Inv(s) && Step(s, t, op, s') && !op.Lookup?
    ensures Inv(s')
  {
    Added(s, t, op, s');
    forall id | 0 <= id < |s'.names|
      ensures ScriptOk(s', id)
    {
      StepKeepsScript(s, t, op, s', id);
    }
    hide ScriptOk, Ranged;
  }

  /** The count holds in every state of every run, whatever the paths. */
  lemma {:induction false} RunInv(r: seq<State>, i: nat)
    requires IsRun(r) && i < |r|
    ensures Inv(r[i])
  {
    if i > 0 {
      RunInv(r, i - 1);
      assert Moves(r, i - 1);
      var s, s' := r[i - 1], r[i];
      var t, op :| Step(s, t, op, s');
      match op {
        case Lookup(key, path) => LookupKeepsInv(s, t, key, path, s');
        case _ => StepKeepsInv(s, t, op, s');
      }
    }
  }

  // --------------------------------------------------------- how often and when

  /** Announced so far, plus owed by threads between their steps, is what the lookups of the script call for. */
  lemma {:induction false} AnnouncementsAddUp(r: seq<State>, i: nat, id: ScriptId)
    requires IsRun(r) && i < |r| && id < |r[i].names|
    ensures Times(r[i].sent, id) + |Debtors(r[i].pcs, id)| == Due(PathsOf(r[i].lookups, r[i].names[id]))
  {
    RunInv(r, i);
    assert ScriptOk(r[i], id);
  }

  /** The lookups call for one announcement: the first makes it, or the first is `Never` and one later is `Always`. */
  predicate CallsForOne(paths: seq<Path>)
  {
    paths != [] &&
    if paths[0].Never? then multiset(paths[1..])[Always] == 1 else Always !in paths[1..]
  }

  /**
   Between calls a script has exactly one announcement if and only if its first
   lookup announces it and the module loader does not look it up later, or the
   first does not and the module loader looks it up once later.
   */
  lemma {:induction false} AnnouncedOnceIff(r: seq<State>, i: nat, id: ScriptId)
    requires IsRun(r) && i < |r| && id < |r[i].names| && AllIdle(r[i])
    ensures Times(r[i].sent, id) == 1 <==> CallsForOne(PathsOf(r[i].lookups, r[i].names[id]))
  {
    AnnouncementsAddUp(r, i, id);
    assert Debtors(r[i].pcs, id) == {};
    var paths := PathsOf(r[i].lookups, r[i].names[id]);
    assert paths != [] ==> (Always in paths[1..] <==> Always in multiset(paths[1..]));
  }

  predicate OnlyChecked(lookups: seq<Asked>)
  {
    forall i | 0 <= i < |lookups| :: lookups[i].path.Checked?
  }

  lemma {:induction false} CheckedPaths(lookups: seq<Asked>, key: ScriptKey)
    requires OnlyChecked(lookups)
    ensures forall p | p in PathsOf(lookups, key) :: p.Checked?
  {
    if lookups != [] {
      CheckedPaths(lookups[..|lookups| - 1], key);
    }
  }

  lemma DueOnChecked(paths: seq<Path>)
    requires paths != [] && forall p | p in paths :: p.Checked?
    ensures Due(paths) == 1
  {
    var rest := paths[1..];
    assert paths[0] in paths;
    assert forall i | 0 <= i < |rest| :: rest[i] == paths[i + 1] && rest[i] in paths;
    assert Always !in rest;
    assert Always in multiset(rest) <==> Always in rest;
  }

  lemma CheckedDue(r: seq<State>, i: nat, id: ScriptId)
    requires IsRun(r) && i < |r| && id < |r[i].names| && OnlyChecked(r[i].lookups)
    ensures Due(PathsOf(r[i].lookups, r[i].names[id])) == 1
  {
    RunInv(r, i);
    assert ScriptOk(r[i], id);
    CheckedPaths(r[i].lookups, r[i].names[id]);
    DueOnChecked(PathsOf(r[i].lookups, r[i].names[id]));
  }

  predicate NoRepeat(log: seq<Message>)
  {
    forall p, q | 0 <= p < q < |log| && log[p].ScriptParsed? && log[q].ScriptParsed? ::
      log[p].scriptId != log[q].scriptId
  }

  lemma {:induction false} TimesAt(log: seq<Message>, p: nat)
    requires p < |log| && log[p].ScriptParsed?
    ensures Times(log, log[p].scriptId) > Times(log[..p], log[p].scriptId)
  {
    var n := |log| - 1;
    if p < n {
      TimesAt(log[..n], p);
      assert log[..n][..p] == log[..p];
    }
  }

  /** On the checked paths no interleaving announces a script twice, and each goes under its own name. */
  lemma AnnouncedAtMostOnce(r: seq<State>, i: nat)
    requires IsRun(r) && i < |r| && OnlyChecked(r[i].lookups)
    ensures NoRepeat(r[i].sent)
    ensures forall p | 0 <= p < |r[i].sent| && r[i].sent[p].ScriptParsed? ::
              r[i].sent[p].scriptId < |r[i].names| && r[i].sent[p].url == r[i].names[r[i].sent[p].scriptId].fileName
  {
    RunInv(r, i);
    var log := r[i].sent;
    forall p, q | 0 <= p < q < |log| && log[p].ScriptParsed? && log[q].ScriptParsed?
      ensures log[p].scriptId != log[q].scriptId
    {
      assert MessageOk(r[i].names, log[q]);
      AnnouncementsAddUp(r, i, log[q].scriptId);
      CheckedDue(r, i, log[q].scriptId);
      TimesAt(log, q);
      TimesAt(log[..q], p);
    }
  }

  /** On the checked paths a script lacks its announcement exactly while one thread owes it; between calls none does. */
  lemma {:induction false} AnnouncementIsOwed(r: seq<State>, i: nat, id: ScriptId)
    requires IsRun(r) && i < |r| && id < |r[i].names| && OnlyChecked(r[i].lookups)
    ensures Times(r[i].sent, id) == 1 <==> Debtors(r[i].pcs, id) == {}
    ensures |Debtors(r[i].pcs, id)| <= 1
    ensures AllIdle(r[i]) ==> Times(r[i].sent, id) == 1
  {
    AnnouncementsAddUp(r, i, id);
    CheckedDue(r, i, id);
    assert AllIdle(r[i]) ==> Debtors(r[i].pcs, id) == {};
  }

  // ---------------------------------------------------------------- locations

  /** Step `i` sends message `p` of the log, and it is a location. */
  predicate LocationSent(r: seq<State>, i: nat, p: nat)
    requires i + 1 < |r|
  {
    |r[i].sent| <= p < |r[i + 1].sent| && r[i + 1].sent[p].Located?
  }

  /** Not all announcements that the lookups of a script call for are still owed. */
  ghost predicate AnnouncementMade(s: State, id: ScriptId)
  {
    id < |s.names| && |Debtors(s.pcs, id)| < Due(PathsOf(s.lookups, s.names[id]))
  }

  lemma {:induction false} TimesMeansKnown(log: seq<Message>, id: ScriptId)
    ensures Times(log, id) > 0 <==> exists q | 0 <= q < |log| :: log[q].ScriptParsed? && log[q].scriptId == id
  {
    if log != [] {
      var n := |log| - 1;
      var front := log[..n];
      TimesMeansKnown(front, id);
      assert forall q | 0 <= q < n :: front[q] == log[q];
      if Times(front, id) > 0 {
        var q :| 0 <= q < |front| && front[q].ScriptParsed? && front[q].scriptId == id;
        assert log[q] == front[q];
      }
    }
  }

  /** The log grows; with a location in it, all that a step adds are locations of known scripts. */
  lemma NextAppends(s: State, s': State)
    requires Inv(s) && Next(s, s')
    ensures s.sent <= s'.sent && (s'.sent != s.sent ==> s'.names == s.names)
    ensures (exists p | |s.sent| <= p < |s'.sent| :: s'.sent[p].Located?) ==>
              forall p | |s.sent| <= p < |s'.sent| :: s'.sent[p].Located? && s'.sent[p].id < |s.names|
  {
    var t, op :| Step(s, t, op, s');
    if !op.Lookup? {
      Added(s, t, op, s');
      if op.Send? {
        var batch := s.pcs[t].batch;
        forall p | |s.sent| <= p < |s'.sent|
          ensures s'.sent[p].Located? && s'.sent[p].id < |s.names|
        {
          assert s'.sent[p] == batch[p - |s.sent|] && MessageOk(s.names, batch[p - |s.sent|]);
        }
      }
    }
  }

  /**
   A location that is sent names a script announced before it exactly when, at
   that moment, not every announcement due is still owed.
   */
  lemma LocationKnownIff(r: seq<State>, i: nat, p: nat)
    requires IsRun(r) && i + 1 < |r| && LocationSent(r, i, p)
    ensures KnownBefore(r[i + 1].sent, p) <==> AnnouncementMade(r[i], r[i + 1].sent[p].id)
  {
    hide Times, PathsOf, Due, Debtors;
    var s, s', n := r[i], r[i + 1], |r[i].sent|;
    var id := s'.sent[p].id;
    RunInv(r, i);
    assert Moves(r, i);
    NextAppends(s, s');
    AnnouncementsAddUp(r, i, id);
    TimesMeansKnown(s.sent, id);
    hide Inv, Step;
    assert forall q | 0 <= q < n :: s'.sent[q] == s.sent[q];
    if KnownBefore(s'.sent, p) {
      var q :| 0 <= q < p && s'.sent[q].ScriptParsed? && s'.sent[q].scriptId == id;
      assert q < n;
      assert s.sent[q].ScriptParsed? && s.sent[q].scriptId == id;
    }
    if q :| 0 <= q < n && s.sent[q].ScriptParsed? && s.sent[q].scriptId == id {
      assert s'.sent[q].ScriptParsed? && s'.sent[q].scriptId == id;
    }
  }

  lemma KnownInPrefix(log: seq<Message>, log': seq<Message>, p: nat)
    requires log <= log' && p < |log|
    ensures KnownBefore(log, p) <==> KnownBefore(log', p)
  {
    assert forall q | 0 <= q <= p :: log'[q] == log[q];
  }

  ghost predicate AllKnown(log: seq<Message>)
  {
    forall p | 0 <= p < |log| :: KnownBefore(log, p)
  }

  /** From message `n` on every location names a script announced before it. */
  ghost predicate KnownFrom(log: seq<Message>, n: nat)
  {
    forall p | n <= p < |log| :: KnownBefore(log, p)
  }

  lemma AllKnownStep(log: seq<Message>, log': seq<Message>)
    requires log <= log'
    ensures AllKnown(log') <==> AllKnown(log) && KnownFrom(log', |log|)
  {
    forall p | 0 <= p < |log|
      ensures KnownBefore(log, p) <==> KnownBefore(log', p)
    {
      KnownInPrefix(log, log', p);
    }
    if AllKnown(log') {
      assert forall p | 0 <= p < |log| :: KnownBefore(log', p);
    }
  }

  /** Every location that step `j` sends has had an announcement of its script. */
  ghost predicate SendsKnown(r: seq<State>, j: nat)
    requires j + 1 < |r|
  {
    forall p: nat | LocationSent(r, j, p) :: AnnouncementMade(r[j], r[j + 1].sent[p].id)
  }

  /**
   On every run, all locations that were sent name scripts announced before them
   if and only if at each step that sends one not every announcement due is owed.
   */
  lemma {:induction false} LocationsKnownIff(r: seq<State>, i: nat)
    requires IsRun(r) && i < |r|
    ensures AllKnown(r[i].sent) <==> forall j | 0 <= j < i :: SendsKnown(r, j)
  {
    if i > 0 {
      LocationsKnownIff(r, i - 1);
      hide SendsKnown, KnownBefore;
      RunInv(r, i - 1);
      assert Moves(r, i - 1);
      NextAppends(r[i - 1], r[i]);
      AllKnownStep(r[i - 1].sent, r[i].sent);
      LastSent(r, i - 1);
      hide Inv, Next;
    }
  }

  lemma LastSent(r: seq<State>, j: nat)
    requires IsRun(r) && j + 1 < |r|
    ensures SendsKnown(r, j) <==> KnownFrom(r[j + 1].sent, |r[j].sent|)
  {
    hide AnnouncementMade;
    var log, n := r[j + 1].sent, |r[j].sent|;
    forall p: nat | LocationSent(r, j, p)
      ensures KnownBefore(log, p) <==> AnnouncementMade(r[j], log[p].id)
    {
      LocationKnownIff(r, j, p);
    }
    if SendsKnown(r, j) {
      forall p | n <= p < |log|
        ensures KnownBefore(log, p)
      {
        assert log[p].Located? ==> LocationSent(r, j, p);
      }
    }
    if KnownFrom(log, n) {
      forall p: nat | LocationSent(r, j, p)
        ensures AnnouncementMade(r[j], log[p].id)
      {
        assert KnownBefore(log, p);
      }
    }
  }

  /** On the checked paths the condition is that nobody owes the announcement when the location is sent. */
  lemma CheckedLocation(r: seq<State>, i: nat, p: nat)
    requires IsRun(r) && i + 1 < |r| && LocationSent(r, i, p) && OnlyChecked(r[i].lookups)
    ensures KnownBefore(r[i + 1].sent, p) <==> Debtors(r[i].pcs, r[i + 1].sent[p].id) == {}
  {
    LocationKnownIff(r, i, p);
    RunInv(r, i);
    assert Moves(r, i);
    NextAppends(r[i], r[i + 1]);
    CheckedDue(r, i, r[i + 1].sent[p].id);
    hide PathsOf, Due, Inv, Next;
  }

  // ------------------------------------------------------------ runs that differ

  /** A run that begins with `s` and has not moved. */
  lemma Started(s: State) returns (r: seq<State>)
    requires Init(s)
    ensures IsRun(r) && r != [] && r[|r| - 1] == s
  {
    r := [s];
  }

  lemma Extended(r: seq<State>, t: nat, op: Op, s: State) returns (r': seq<State>)
    requires r != [] && IsRun(r) && Step(r[|r| - 1], t, op, s)
    ensures IsRun(r') && r' != [] && r'[|r'| - 1] == s
  {
    r' := r + [s];
    forall i | 0 <= i < |r'| - 1
      ensures Moves(r', i)
    {
      assert i < |r| - 1 ==> Moves(r, i);
    }
  }

  /** One thread has looked a new script up and is about to announce it; another has named it in its message. */
  lemma NamedByAnother(key: ScriptKey) returns (r: seq<State>)
    ensures IsRun(r) && r != []
    ensures r[|r| - 1] ==
              State([key], [], map[0 := PC(Holding(0, true), []), 1 := PC(Free, [Located(0, 1)])],
                    [Asked(key, Checked), Asked(key, Checked)])
  {
    hide IsRun;
    var a, owing := Asked(key, Checked), PC(Holding(0, true), []);
    IndexOfNew([], key);
    r := Started(State([], [], map[0 := IDLE, 1 := IDLE], []));
    r := Extended(r, 0, Lookup(key, Checked), State([key], [], map[0 := owing, 1 := IDLE], [a]));
    r := Extended(r, 1, Lookup(key, Checked),
                  State([key], [], map[0 := owing, 1 := PC(Holding(0, false), [])], [a, a]));
    assert [] + [Located(0, 1)] == [Located(0, 1)];
    r := Extended(r, 1, Locate(1), State([key], [], map[0 := owing, 1 := PC(Free, [Located(0, 1)])], [a, a]));
  }

  /** With two threads a location can name a script before its announcement. */
  lemma LocationBeforeAnnouncement(key: ScriptKey) returns (r: seq<State>)
    ensures IsRun(r) && r != [] && OnlyChecked(r[|r| - 1].lookups)
    ensures r[|r| - 1].sent == [Located(0, 1), ScriptParsed(0, key.fileName)]
  {
    hide IsRun;
    var m, n, looked := Located(0, 1), ScriptParsed(0, key.fileName), [Asked(key, Checked), Asked(key, Checked)];
    r := NamedByAnother(key);
    r := Extended(r, 1, Send, State([key], [m], map[0 := PC(Holding(0, true), []), 1 := IDLE], looked));
    r := Extended(r, 0, Announce, State([key], [m, n], map[0 := PC(Holding(0, false), []), 1 := IDLE], looked));
  }

  /** The hybrid call frame builder names a new script. */
  lemma NamedUnannounced(key: ScriptKey) returns (r: seq<State>)
    ensures IsRun(r) && r != []
    ensures r[|r| - 1] == State([key], [Located(0, 1)], map[0 := IDLE], [Asked(key, Never)])
  {
    hide IsRun;
    var a, m := Asked(key, Never), Located(0, 1);
    IndexOfNew([], key);
    assert [] + [m] == [m];
    r := Started(State([], [], map[0 := IDLE], []));
    r := Extended(r, 0, Lookup(key, Never), State([key], [], map[0 := PC(Holding(0, false), [])], [a]));
    r := Extended(r, 0, Locate(1), State([key], [], map[0 := PC(Free, [m])], [a]));
    r := Extended(r, 0, Send, State([key], [m], map[0 := IDLE], [a]));
  }

  /** One lookup by the hybrid call frame builder, and a script is never announced on the checked paths. */
  lemma NeverAnnounced(key: ScriptKey) returns (r: seq<State>)
    ensures IsRun(r) && r != [] && AllIdle(r[|r| - 1])
    ensures r[|r| - 1].sent == [Located(0, 1), Located(0, 2)]
  {
    hide IsRun;
    var m, n, looked := Located(0, 1), Located(0, 2), [Asked(key, Never), Asked(key, Checked)];
    r := NamedUnannounced(key);
    assert [] + [n] == [n];
    r := Extended(r, 0, Lookup(key, Checked), State([key], [m], map[0 := PC(Holding(0, false), [])], looked));
    r := Extended(r, 0, Locate(2), State([key], [m], map[0 := PC(Free, [n])], looked));
    r := Extended(r, 0, Send, State([key], [m, n], map[0 := IDLE], looked));
  }

  /** A call frame announces a script and names it. */
  lemma ShownOnce(key: ScriptKey) returns (r: seq<State>)
    ensures IsRun(r) && r != []
    ensures r[|r| - 1] ==
              State([key], [ScriptParsed(0, key.fileName), Located(0, 1)], map[0 := IDLE], [Asked(key, Checked)])
  {
    hide IsRun;
    var m, n, a := ScriptParsed(0, key.fileName), Located(0, 1), Asked(key, Checked);
    IndexOfNew([], key);
    assert [] + [n] == [n];
    r := Started(State([], [], map[0 := IDLE], []));
    r := Extended(r, 0, Lookup(key, Checked), State([key], [], map[0 := PC(Holding(0, true), [])], [a]));
    r := Extended(r, 0, Announce, State([key], [m], map[0 := PC(Holding(0, false), [])], [a]));
    r := Extended(r, 0, Locate(1), State([key], [m], map[0 := PC(Free, [n])], [a]));
    r := Extended(r, 0, Send, State([key], [m, n], map[0 := IDLE], [a]));
  }

  /** The module loader announces a script that a call frame has announced before. */
  lemma AnnouncedAgain(key: ScriptKey) returns (r: seq<State>)
    ensures IsRun(r) && r != [] && AllIdle(r[|r| - 1]) && !NoRepeat(r[|r| - 1].sent)
  {
    hide IsRun;
    var m, n, looked := ScriptParsed(0, key.fileName), Located(0, 1), [Asked(key, Checked), Asked(key, Always)];
    r := ShownOnce(key);
    r := Extended(r, 0, Lookup(key, Always), State([key], [m, n], map[0 := PC(Holding(0, true), [])], looked));
    r := Extended(r, 0, Announce, State([key], [m, n, m], map[0 := PC(Holding(0, false), [])], looked));
    r := Extended(r, 0, Leave, State([key], [m, n, m], map[0 := IDLE], looked));
    assert r[|r| - 1].sent[0] == m && r[|r| - 1].sent[2] == m;
  }
}
