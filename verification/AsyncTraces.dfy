/**
 The paths of `InspectorServer` that put script ids into messages.  Each looks
 its script up, announces it when it is new and then uses the id; the async
 path builds a chain of parents from the segments of a snapshot.
 */
module AsyncTraces {
  import opened ScriptIds
  import opened Options

  datatype SourceLocation = SourceLocation(sourceFile: string, lineNumber: int)
  datatype AsyncFrame = AsyncFrame(functionName: string, pandaFile: string, pc: nat)
  datatype AsyncSegment = AsyncSegment(description: string, frames: seq<AsyncFrame>)
  datatype AsyncCallFrame = AsyncCallFrame(functionName: string, url: string, scriptId: ScriptId, lineNumber: int)
  datatype AsyncStackTrace =
    | NoTrace
    | Trace(description: string, callFrames: seq<AsyncCallFrame>, parent: AsyncStackTrace)

  type Resolver = AsyncFrame -> Option<SourceLocation>

  // -------------------------------------------------------- what a trace shows

  /** A frame as the front end shows it: the id stands for a script. */
  datatype Shown = Shown(functionName: string, url: string, script: ScriptKey, lineNumber: int)
  datatype ShownSegment = ShownSegment(description: string, frames: seq<Shown>)

  predicate IdsKnown(names: seq<ScriptKey>, fs: seq<AsyncCallFrame>)
  {
    forall i | 0 <= i < |fs| :: fs[i].scriptId < |names|
  }

  function Show(names: seq<ScriptKey>, fs: seq<AsyncCallFrame>): (r: seq<Shown>)
    requires IdsKnown(names, fs)
    ensures |r| == |fs|
  {
    seq(|fs|, i requires 0 <= i < |fs| => Shown(fs[i].functionName, fs[i].url, names[fs[i].scriptId], fs[i].lineNumber))
  }

  predicate TraceKnown(names: seq<ScriptKey>, trace: AsyncStackTrace)
  {
    trace.Trace? ==> IdsKnown(names, trace.callFrames) && TraceKnown(names, trace.parent)
  }

  /** The trace and its parents, from the latest segment on. */
  function Chain(names: seq<ScriptKey>, trace: AsyncStackTrace): seq<ShownSegment>
    requires TraceKnown(names, trace)
  {
    match trace
    case NoTrace => []
    case Trace(description, callFrames, parent) =>
      [ShownSegment(description, Show(names, callFrames))] + Chain(names, parent)
  }

  predicate Resolved(resolve: Resolver, frame: AsyncFrame)
  {
    resolve(frame).Some? && resolve(frame).value.lineNumber >= 0
  }

  /** The frames of a segment that can be resolved, in order. */
  function ShownFrames(frames: seq<AsyncFrame>, resolve: Resolver): seq<Shown>
  {
    if frames == [] then []
    else
      var frame := frames[|frames| - 1];
      ShownFrames(frames[..|frames| - 1], resolve) +
      if !Resolved(resolve, frame) then []
      else
        var location := resolve(frame).value;
        [Shown(frame.functionName, location.sourceFile, ScriptKey(location.sourceFile, frame.pandaFile),
               location.lineNumber)]
  }

  /** The segments that have such a frame, in order. */
  function ShownSegments(segments: seq<AsyncSegment>, resolve: Resolver): seq<ShownSegment>
  {
    if segments == [] then []
    else
      var frames := ShownFrames(segments[0].frames, resolve);
      (if frames == [] then [] else [ShownSegment(segments[0].description, frames)])
      + ShownSegments(segments[1..], resolve)
  }

  lemma ShownFramesStep(frames: seq<AsyncFrame>, resolve: Resolver, i: nat)
    requires i < |frames|
    ensures ShownFrames(frames[..i + 1], resolve) == ShownFrames(frames[..i], resolve) +
              (if !Resolved(resolve, frames[i]) then []
               else
                 var location := resolve(frames[i]).value;
                 [Shown(frames[i].functionName, location.sourceFile,
                        ScriptKey(location.sourceFile, frames[i].pandaFile), location.lineNumber)])
  {
    assert frames[..i + 1][..i] == frames[..i];
  }

  // New scripts change no meaning.

  lemma ShowGrows(names: seq<ScriptKey>, names': seq<ScriptKey>, fs: seq<AsyncCallFrame>)
    requires names <= names' && IdsKnown(names, fs)
    ensures IdsKnown(names', fs) && Show(names', fs) == Show(names, fs)
  {
  }

  lemma {:induction false} ChainGrows(names: seq<ScriptKey>, names': seq<ScriptKey>, trace: AsyncStackTrace)
    requires names <= names' && TraceKnown(names, trace)
    ensures TraceKnown(names', trace) && Chain(names', trace) == Chain(names, trace)
  {
    if trace.Trace? {
      ShowGrows(names, names', trace.callFrames);
      ChainGrows(names, names', trace.parent);
    }
  }

  datatype Location = Location(scriptId: ScriptId, lineNumber: int)

  class InspectorServer {
    const sourceManager: SourceManager
    var sent: seq<Message>

    ghost predicate Valid()
      reads this, sourceManager
    {
      sourceManager.Valid() && Disciplined(sent, sourceManager.Names())
    }

    constructor ()
      ensures Valid() && fresh(sourceManager) && sent == []
    {
      sourceManager := new SourceManager();
      sent := [];
    }

    method CallDebuggerScriptParsed(scriptId: ScriptId, sourceFile: string)
      modifies this
      ensures sent == old(sent) + [ScriptParsed(scriptId, sourceFile)]
    {
      sent := sent + [ScriptParsed(scriptId, sourceFile)];
    }

    /** Look a script up, announce it when it is new, and put its id into a location. */
    method Locate(sourceFile: string, identity: string, line: int) returns (scriptId: ScriptId)
      requires Valid()
      modifies this, sourceManager
      ensures Valid() && Distinct(sourceManager.Names())
      ensures var key := ScriptKey(sourceFile, identity);
              && sourceManager.Names() == Insert(old(sourceManager.Names()), key)
              && scriptId < |sourceManager.Names()| && sourceManager.Names()[scriptId] == key
              && sent == old(sent)
                         + (if key in old(sourceManager.Names()) then [] else [ScriptParsed(scriptId, sourceFile)])
                         + [Located(scriptId, line)]
    {
      hide Disciplined, Inverse, Listed, Distinct;
      ghost var names, log := sourceManager.Names(), sent;
      var isNew;
      scriptId, isNew := sourceManager.GetScriptId(sourceFile, identity);
      if isNew {
        NewIsLast(names, ScriptKey(sourceFile, identity), scriptId);
        AnnounceKeeps(log, names, ScriptKey(sourceFile, identity));
        CallDebuggerScriptParsed(scriptId, sourceFile);
      }
      LocateKeeps(sent, sourceManager.Names(), scriptId, line);
      sent := sent + [Located(scriptId, line)];
    }

    /** The location of a call frame of a paused thread. */
    method AddCallFrameInfo(sourceFile: string, scriptIdentity: string, lineNumber: int) returns (location: Location)
      requires Valid()
      modifies this, sourceManager
      ensures Valid()
      ensures old(sourceManager.Names()) <= sourceManager.Names() && old(sent) <= sent
      ensures location.lineNumber == lineNumber && location.scriptId < |sourceManager.Names()|
      ensures sourceManager.Names()[location.scriptId] == ScriptKey(sourceFile, scriptIdentity)
      ensures sent[|sent| - 1] == Located(location.scriptId, lineNumber)
    {
      var scriptId := Locate(sourceFile, scriptIdentity, lineNumber);
      return Location(scriptId, lineNumber);
    }

    /** The locations of a breakpoint in several source files. */
    method AddLocations(sourceFiles: seq<ScriptKey>, lineNumber: int) returns (locations: seq<Location>)
      requires Valid()
      modifies this, sourceManager
      ensures Valid() && old(sourceManager.Names()) <= sourceManager.Names() && old(sent) <= sent
      ensures |locations| == |sourceFiles|
      ensures forall i | 0 <= i < |sourceFiles| ::
                && locations[i].lineNumber == lineNumber && locations[i].scriptId < |sourceManager.Names()|
                && sourceManager.Names()[locations[i].scriptId] == sourceFiles[i]
    {
      hide Disciplined, Inverse, Listed, Insert;
      locations := [];
      for i := 0 to |sourceFiles|
        invariant Valid() && old(sourceManager.Names()) <= sourceManager.Names() && old(sent) <= sent
        invariant |locations| == i
        invariant forall j | 0 <= j < i ::
                    && locations[j].lineNumber == lineNumber && locations[j].scriptId < |sourceManager.Names()|
                    && sourceManager.Names()[locations[j].scriptId] == sourceFiles[j]
      {
        var scriptId := Locate(sourceFiles[i].fileName, sourceFiles[i].identity, lineNumber);
        locations := locations + [Location(scriptId, lineNumber)];
      }
    }

    /** The call frames of one segment. */
    method ResolveFrames(frames: seq<AsyncFrame>, resolve: Resolver) returns (callFrames: seq<AsyncCallFrame>)
      requires Valid()
      modifies this, sourceManager
      ensures Valid() && old(sourceManager.Names()) <= sourceManager.Names() && old(sent) <= sent
      ensures IdsKnown(sourceManager.Names(), callFrames)
      ensures Show(sourceManager.Names(), callFrames) == ShownFrames(frames, resolve)
    {
      hide Disciplined, Inverse, Listed, Insert, Distinct;
      callFrames := [];
      for i := 0 to |frames|
        invariant Valid() && old(sourceManager.Names()) <= sourceManager.Names() && old(sent) <= sent
        invariant IdsKnown(sourceManager.Names(), callFrames)
        invariant Show(sourceManager.Names(), callFrames) == ShownFrames(frames[..i], resolve)
      {
        ShownFramesStep(frames, resolve, i);
        var sourceLocation := resolve(frames[i]);
        if sourceLocation.None? || sourceLocation.value.lineNumber < 0 {
          continue;
        }
        ghost var names := sourceManager.Names();
        var location := sourceLocation.value;
        var scriptId := Locate(location.sourceFile, frames[i].pandaFile, location.lineNumber);
        ShowGrows(names, sourceManager.Names(), callFrames);
        callFrames := callFrames
                      + [AsyncCallFrame(frames[i].functionName, location.sourceFile, scriptId, location.lineNumber)];
      }
      assert frames[..|frames|] == frames;
    }

    /** The chain shows exactly the segments of the snapshot, in order, without what cannot be resolved. */
    method CreateAsyncStackTrace(segments: seq<AsyncSegment>, resolve: Resolver) returns (trace: AsyncStackTrace)
      requires Valid()
      modifies this, sourceManager
      ensures Valid() && old(sourceManager.Names()) <= sourceManager.Names() && old(sent) <= sent
      ensures TraceKnown(sourceManager.Names(), trace)
      ensures Chain(sourceManager.Names(), trace) == ShownSegments(segments, resolve)
    {
      hide Disciplined, Inverse, Listed, Insert, Distinct, Show, ShownFrames;
      trace := NoTrace;
      var i := |segments|;
      while i > 0
        invariant 0 <= i <= |segments|
        invariant Valid() && old(sourceManager.Names()) <= sourceManager.Names() && old(sent) <= sent
        invariant TraceKnown(sourceManager.Names(), trace)
        invariant Chain(sourceManager.Names(), trace) == ShownSegments(segments[i..], resolve)
      {
        i := i - 1;
        ghost var names := sourceManager.Names();
        assert segments[i..][1..] == segments[i + 1..];
        if segments[i].frames == [] {
          NoFrames(resolve);
          continue;
        }
        var callFrames := ResolveFrames(segments[i].frames, resolve);
        ChainGrows(names, sourceManager.Names(), trace);
        if callFrames == [] {
          continue;
        }
        trace := Trace(segments[i].description, callFrames, trace);
      }
      assert segments[0..] == segments;
    }
  }

  lemma NoFrames(resolve: Resolver)
    ensures ShownFrames([], resolve) == []
  {
  }

  lemma NewIsLast(names: seq<ScriptKey>, key: ScriptKey, id: ScriptId)
    requires key !in names && id < |Insert(names, key)| && Insert(names, key)[id] == key
    ensures id == |names|
  {
  }
}
