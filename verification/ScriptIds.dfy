/**
 Script ids (tooling/static/source_manager.cpp) and the three places of the
 inspector server that announce a script when they meet it first: call frames,
 breakpoint locations and async stack traces.
 */
module ScriptIds {
  datatype ScriptKey = ScriptKey(fileName: string, identity: string)

  type ScriptId = nat

  // ------------------------------------------------------------ the id table

  predicate Distinct(names: seq<ScriptKey>)
  {
    forall i, j | 0 <= i < j < |names| :: names[i] != names[j]
  }

  /** The scripts known after a lookup; a script's id is its position. */
  function Insert(names: seq<ScriptKey>, key: ScriptKey): (r: seq<ScriptKey>)
    ensures names <= r && key in r
    ensures Distinct(names) ==> Distinct(r)
  {
    if key in names then names else names + [key]
  }

  /** The ids are 0 up to the number of scripts, and the two maps are inverse to each other. */
  ghost predicate Inverse(ids: map<ScriptKey, ScriptId>, scripts: map<ScriptId, ScriptKey>)
  {
    && (forall i: ScriptId :: i in scripts <==> i < |ids|)
    && (forall i | i in scripts :: scripts[i] in ids && ids[scripts[i]] == i)
    && (forall k | k in ids :: ids[k] in scripts && scripts[ids[k]] == k)
  }

  ghost function Listed(ids: map<ScriptKey, ScriptId>, scripts: map<ScriptId, ScriptKey>): (s: seq<ScriptKey>)
    requires Inverse(ids, scripts)
    ensures |s| == |ids| && forall i | 0 <= i < |s| :: s[i] == scripts[i]
  {
    seq(|ids|, i requires 0 <= i < |ids| => scripts[i])
  }

  lemma ListedMembers(ids: map<ScriptKey, ScriptId>, scripts: map<ScriptId, ScriptKey>, key: ScriptKey)
    requires Inverse(ids, scripts)
    ensures Distinct(Listed(ids, scripts))
    ensures key in Listed(ids, scripts) <==> key in ids
    ensures key in ids ==> ids[key] in scripts && ids[key] < |ids| && Listed(ids, scripts)[ids[key]] == key
  {
    if key in ids {
      assert Listed(ids, scripts)[ids[key]] == key;
    }
  }

  lemma NewScript(ids: map<ScriptKey, ScriptId>, scripts: map<ScriptId, ScriptKey>, key: ScriptKey)
    requires Inverse(ids, scripts) && key !in ids
    ensures |ids| !in scripts
    ensures var ids', scripts' := ids[key := |ids|], scripts[|ids| := key];
            Inverse(ids', scripts') && Listed(ids', scripts') == Listed(ids, scripts) + [key]
  {
    var ids', scripts' := ids[key := |ids|], scripts[|ids| := key];
    assert |ids| !in scripts;
    assert |ids'| == |ids| + 1;
  }

  lemma LookupKeeps(ids: map<ScriptKey, ScriptId>, scripts: map<ScriptId, ScriptKey>, known: set<ScriptId>,
                    key: ScriptKey)
    requires Inverse(ids, scripts) && known == scripts.Keys
    ensures var inserted := key !in ids;
            var ids' := if inserted then ids[key := |ids|] else ids;
            var id := ids'[key];
            var scripts' := if inserted then scripts[id := key] else scripts;
            && Inverse(ids', scripts') && scripts'.Keys == known + {id}
            && Listed(ids', scripts') == Insert(Listed(ids, scripts), key) && Distinct(Listed(ids', scripts'))
            && id < |Listed(ids', scripts')| && Listed(ids', scripts')[id] == key
            && (id !in known <==> key !in Listed(ids, scripts))
  {
    hide Inverse, Listed, Distinct;
    ListedMembers(ids, scripts, key);
    if key !in ids {
      NewScript(ids, scripts, key);
      ListedMembers(ids[key := |ids|], scripts[|ids| := key], key);
    }
  }

  class SourceManager {
    var fileNameToId: map<ScriptKey, ScriptId>
    var idToScript: map<ScriptId, ScriptKey>
    var knownSources: set<ScriptId>

    ghost predicate Valid()
      reads this
    {
      Inverse(fileNameToId, idToScript) && knownSources == idToScript.Keys
    }

    /** The scripts in the order of their ids. */
    ghost function Names(): (s: seq<ScriptKey>)
      requires Valid()
      reads this
    {
      Listed(fileNameToId, idToScript)
    }

    constructor ()
      ensures Valid() && Names() == []
    {
      fileNameToId, idToScript, knownSources := map[], map[], {};
    }

    method GetScriptId(fileName: string, scriptIdentity: string) returns (id: ScriptId, isNewForThread: bool)
      requires Valid()
      modifies this
      ensures Valid() && Distinct(Names())
      ensures var key := ScriptKey(fileName, scriptIdentity);
              && Names() == Insert(old(Names()), key)
              && id < |Names()| && Names()[id] == key
              && (isNewForThread <==> key !in old(Names()))
    {
      hide Inverse, Listed, Distinct, Insert;
      var key := ScriptKey(fileName, scriptIdentity);
      LookupKeeps(fileNameToId, idToScript, knownSources, key);
      var inserted := key !in fileNameToId;
      if inserted {
        fileNameToId := fileNameToId[key := |fileNameToId|];
      }
      id := fileNameToId[key];
      isNewForThread := id !in knownSources;
      knownSources := knownSources + {id};
      if inserted {
        idToScript := idToScript[id := key];
      }
    }

    method GetScript(id: ScriptId) returns (script: ScriptKey)
      requires Valid()
      ensures script == if id < |Names()| then Names()[id] else ScriptKey("", "")
    {
      if id !in idToScript {
        return ScriptKey("", "");
      }
      return idToScript[id];
    }

    method GetSourceFileName(id: ScriptId) returns (fileName: string)
      requires Valid()
      ensures fileName == if id < |Names()| then Names()[id].fileName else ""
    {
      if id in idToScript {
        return idToScript[id].fileName;
      }
      return "";
    }
  }

  /** The table after any further lookups. */
  function InsertAll(names: seq<ScriptKey>, keys: seq<ScriptKey>): seq<ScriptKey>
    decreases |keys|
  {
    if keys == [] then names else InsertAll(Insert(names, keys[0]), keys[1..])
  }

  /** An id once given means the same script for ever, and a script never gets a second id. */
  lemma {:induction false} IdsAreForever(names: seq<ScriptKey>, keys: seq<ScriptKey>, id: ScriptId, other: ScriptId)
    requires Distinct(names) && id < |names|
    ensures Distinct(InsertAll(names, keys)) && names <= InsertAll(names, keys)
    ensures other < |InsertAll(names, keys)| && InsertAll(names, keys)[other] == names[id] ==> other == id
    decreases |keys|
  {
    if keys != [] {
      IdsAreForever(Insert(names, keys[0]), keys[1..], id, other);
    }
  }

  /** Nothing but the scripts looked up is in the table. */
  lemma {:induction false} IdsAreExact(keys: seq<ScriptKey>, names: seq<ScriptKey>, key: ScriptKey)
    ensures key in InsertAll(names, keys) <==> key in names || key in keys
  {
    if keys != [] {
      IdsAreExact(keys[1..], Insert(names, keys[0]), key);
      assert keys == [keys[0]] + keys[1..];
    }
  }

  // ---------------------------------------------------------- announcements

  /** What the front end receives: a script is announced, or a location names its id. */
  datatype Message = ScriptParsed(scriptId: ScriptId, url: string) | Located(id: ScriptId, line: int)

  function Announced(log: seq<Message>): seq<Message>
  {
    if log == [] then []
    else Announced(log[..|log| - 1]) + if log[|log| - 1].ScriptParsed? then [log[|log| - 1]] else []
  }

  /** Script `i` is announced as the `i`-th, under its file name. */
  function Announcements(names: seq<ScriptKey>): (r: seq<Message>)
    ensures |r| == |names| && forall i | 0 <= i < |names| :: r[i] == ScriptParsed(i, names[i].fileName)
  {
    seq(|names|, i requires 0 <= i < |names| => ScriptParsed(i, names[i].fileName))
  }

  predicate KnownBefore(log: seq<Message>, p: nat)
    requires p < |log|
  {
    log[p].Located? ==> exists q | 0 <= q < p :: log[q].ScriptParsed? && log[q].scriptId == log[p].id
  }

  /** Every script is announced exactly once, in the order of the ids, and before any location that names it. */
  predicate Disciplined(log: seq<Message>, names: seq<ScriptKey>)
  {
    Announced(log) == Announcements(names) && forall p | 0 <= p < |log| :: KnownBefore(log, p)
  }

  lemma {:induction false} AnnouncedAppend(log: seq<Message>, m: Message)
    ensures Announced(log + [m]) == Announced(log) + if m.ScriptParsed? then [m] else []
  {
    assert (log + [m])[..|log|] == log;
  }

  lemma {:induction false} AnnouncedIn(log: seq<Message>, m: Message)
    requires m in Announced(log)
    ensures m in log
  {
    if log != [] && m in Announced(log[..|log| - 1]) {
      AnnouncedIn(log[..|log| - 1], m);
    }
  }

  lemma AnnounceKeeps(log: seq<Message>, names: seq<ScriptKey>, key: ScriptKey)
    requires Disciplined(log, names)
    ensures Disciplined(log + [ScriptParsed(|names|, key.fileName)], names + [key])
  {
    var m := ScriptParsed(|names|, key.fileName);
    AnnouncedAppend(log, m);
    forall p | 0 <= p < |log + [m]|
      ensures KnownBefore(log + [m], p)
    {
      if p < |log| && log[p].Located? {
        assert KnownBefore(log, p);
        var q :| 0 <= q < p && log[q].ScriptParsed? && log[q].scriptId == log[p].id;
        assert (log + [m])[q] == log[q];
      }
    }
  }

  lemma LocateKeeps(log: seq<Message>, names: seq<ScriptKey>, id: ScriptId, line: int)
    requires Disciplined(log, names) && id < |names|
    ensures Disciplined(log + [Located(id, line)], names)
  {
    var log' := log + [Located(id, line)];
    AnnouncedAppend(log, Located(id, line));
    AnnouncedIn(log, Announcements(names)[id]);
    var a :| 0 <= a < |log| && log[a] == Announcements(names)[id];
    forall p | 0 <= p < |log'|
      ensures KnownBefore(log', p)
    {
      if p < |log| && log[p].Located? {
        assert KnownBefore(log, p);
        var q :| 0 <= q < p && log[q].ScriptParsed? && log[q].scriptId == log[p].id;
        assert log'[q] == log[q];
      } else if p == |log| {
        assert log'[a] == log[a];
      }
    }
  }

  /** An announcement stands in the filtered log behind those before it. */
  lemma {:induction false} AnnouncedAt(log: seq<Message>, p: nat)
    requires p < |log| && log[p].ScriptParsed?
    ensures |Announced(log[..p])| < |Announced(log)|
    ensures Announced(log)[|Announced(log[..p])|] == log[p]
  {
    var n := |log| - 1;
    if p < n {
      AnnouncedAt(log[..n], p);
      assert log[..n][..p] == log[..p];
    }
  }

  /** In a disciplined log every known script has exactly one announcement, under its name. */
  lemma AnnouncedOnce(log: seq<Message>, names: seq<ScriptKey>, id: ScriptId)
    requires Disciplined(log, names) && id < |names|
    ensures ScriptParsed(id, names[id].fileName) in log
    ensures forall p, q | 0 <= p < q < |log| && log[p].ScriptParsed? && log[q].ScriptParsed? ::
              log[p].scriptId != log[q].scriptId
  {
    AnnouncedIn(log, Announcements(names)[id]);
    forall p, q | 0 <= p < q < |log| && log[p].ScriptParsed? && log[q].ScriptParsed?
      ensures log[p].scriptId != log[q].scriptId
    {
      AnnouncedAt(log, p);
      AnnouncedAt(log, q);
      AnnouncedAt(log[..q], p);
      assert log[..q][..p] == log[..p];
    }
  }
}
