/** What an async stack trace says about the snapshot that it was made from, frame by frame and link by link. */
module TraceMeaning {
  import opened ScriptIds
  import opened AsyncTraces
  import opened Options
  import opened Selections

  /** The virtual machine finds a source line for the frame. */
  predicate HasLine(resolve: Resolver, frame: AsyncFrame)
  {
    resolve(frame).Some? && resolve(frame).value.lineNumber >= 0
  }

  predicate ShowsFrame(s: Shown, frame: AsyncFrame, resolve: Resolver)
  {
    && HasLine(resolve, frame) && s.functionName == frame.functionName
    && s.url == resolve(frame).value.sourceFile && s.lineNumber == resolve(frame).value.lineNumber
    && s.script == ScriptKey(resolve(frame).value.sourceFile, frame.pandaFile)
  }

  /** Exactly the frames with a source line are shown, in their order. */
  lemma {:induction false} FramesShown(frames: seq<AsyncFrame>, resolve: Resolver) returns (at: seq<nat>)
    ensures Picks(at, |frames|) && |at| == |ShownFrames(frames, resolve)|
    ensures forall j | 0 <= j < |at| :: ShowsFrame(ShownFrames(frames, resolve)[j], frames[at[j]], resolve)
    ensures forall i | 0 <= i < |frames| :: HasLine(resolve, frames[i]) <==> i in at
  {
    at := [];
    if frames != [] {
      var n := |frames| - 1;
      var before := FramesShown(frames[..n], resolve);
      var keep := HasLine(resolve, frames[n]);
      at := PickLast(before, n, keep);
      LastPicked(before, n, keep);
      forall i | 0 <= i < |frames|
        ensures HasLine(resolve, frames[i]) <==> i in at
      {
        assert i < n ==> frames[..n][i] == frames[i];
      }
    }
  }

  ghost predicate HasShownFrame(segment: AsyncSegment, resolve: Resolver)
  {
    exists k :: 0 <= k < |segment.frames| && HasLine(resolve, segment.frames[k])
  }

  lemma ShownOrNot(segment: AsyncSegment, resolve: Resolver)
    ensures ShownFrames(segment.frames, resolve) != [] <==> HasShownFrame(segment, resolve)
  {
    var at := FramesShown(segment.frames, resolve);
    if at != [] {
      assert HasLine(resolve, segment.frames[at[0]]);
    }
  }

  /** The same picks behind one more element, which is picked too if `first` says so. */
  function Behind(first: bool, at: seq<nat>): seq<nat>
  {
    (if first then [0] else []) + seq(|at|, j requires 0 <= j < |at| => at[j] + 1)
  }

  lemma PicksBehind(first: bool, at: seq<nat>, n: nat)
    requires Picks(at, n)
    ensures Picks(Behind(first, at), n + 1)
  {
  }

  lemma InBehind(first: bool, at: seq<nat>, i: nat)
    ensures i in Behind(first, at) <==> if i == 0 then first else i - 1 in at
  {
    var d := if first then 1 else 0;
    if i > 0 && i - 1 in at {
      var j :| 0 <= j < |at| && at[j] == i - 1;
      assert Behind(first, at)[j + d] == i;
    } else if i == 0 && first {
      assert Behind(first, at)[0] == 0;
    }
  }

  /** Segment `at[j]` is the `j`-th shown one. */
  predicate ShowsSegments(segments: seq<AsyncSegment>, resolve: Resolver, shown: seq<ShownSegment>, at: seq<nat>)
  {
    && Picks(at, |segments|) && |at| == |shown|
    && forall j | 0 <= j < |at| ::
         shown[j] == ShownSegment(segments[at[j]].description, ShownFrames(segments[at[j]].frames, resolve))
  }

  lemma ShowsBehind(segments: seq<AsyncSegment>, resolve: Resolver, shown: seq<ShownSegment>, at: seq<nat>, first: bool)
    requires segments != [] && ShowsSegments(segments[1..], resolve, shown, at)
    ensures var s := ShownSegment(segments[0].description, ShownFrames(segments[0].frames, resolve));
            ShowsSegments(segments, resolve, (if first then [s] else []) + shown, Behind(first, at))
  {
    hide ShownFrames;
    PicksBehind(first, at, |segments| - 1);
  }

  /** Exactly the segments with such a frame are shown, in their order. */
  lemma {:induction false} SegmentsShown(segments: seq<AsyncSegment>, resolve: Resolver) returns (at: seq<nat>)
    ensures ShowsSegments(segments, resolve, ShownSegments(segments, resolve), at)
    ensures forall i | 0 <= i < |segments| :: HasShownFrame(segments[i], resolve) <==> i in at
  {
    hide ShownFrames, HasShownFrame, Behind;
    at := [];
    if segments != [] {
      hide ShowsSegments;
      var rest := SegmentsShown(segments[1..], resolve);
      ShownOrNot(segments[0], resolve);
      var first := ShownFrames(segments[0].frames, resolve) != [];
      at := Behind(first, rest);
      ShowsBehind(segments, resolve, ShownSegments(segments[1..], resolve), rest, first);
      forall i | 0 <= i < |segments|
        ensures HasShownFrame(segments[i], resolve) <==> i in at
      {
        InBehind(first, rest, i);
        assert i > 0 ==> segments[1..][i - 1] == segments[i];
      }
    }
  }

  // ------------------------------------------------------------- whole traces

  function Links(trace: AsyncStackTrace): nat
  {
    match trace
    case NoTrace => 0
    case Trace(_, _, parent) => 1 + Links(parent)
  }

  /** The trace itself for 0, then its parent, and so on. */
  function Link(trace: AsyncStackTrace, j: nat): (t: AsyncStackTrace)
    requires j < Links(trace)
    ensures t.Trace?
  {
    if j == 0 then trace else Link(trace.parent, j - 1)
  }

  predicate FrameOf(f: AsyncCallFrame, frame: AsyncFrame, names: seq<ScriptKey>, resolve: Resolver)
  {
    && HasLine(resolve, frame) && f.functionName == frame.functionName
    && f.url == resolve(frame).value.sourceFile && f.lineNumber == resolve(frame).value.lineNumber
    && f.scriptId < |names| && names[f.scriptId] == ScriptKey(resolve(frame).value.sourceFile, frame.pandaFile)
  }

  /** The call frames of one link are the frames of the segment that have a source line. */
  ghost predicate LinkOf(t: AsyncStackTrace, segment: AsyncSegment, names: seq<ScriptKey>, resolve: Resolver)
  {
    t.Trace? && t.description == segment.description &&
    exists at: seq<nat> ::
      && Picks(at, |segment.frames|) && |at| == |t.callFrames|
      && (forall j | 0 <= j < |at| :: FrameOf(t.callFrames[j], segment.frames[at[j]], names, resolve))
      && (forall i | 0 <= i < |segment.frames| :: HasLine(resolve, segment.frames[i]) <==> i in at)
  }

  lemma {:induction false} LinkMeaning(t: AsyncStackTrace, segment: AsyncSegment, names: seq<ScriptKey>,
                                       resolve: Resolver)
    requires t.Trace? && TraceKnown(names, t) && t.description == segment.description
    requires Show(names, t.callFrames) == ShownFrames(segment.frames, resolve)
    ensures LinkOf(t, segment, names, resolve)
  {
    var at := FramesShown(segment.frames, resolve);
    forall j | 0 <= j < |at|
      ensures FrameOf(t.callFrames[j], segment.frames[at[j]], names, resolve)
    {
      assert ShowsFrame(Show(names, t.callFrames)[j], segment.frames[at[j]], resolve);
    }
  }

  lemma {:induction false} LinkInChain(names: seq<ScriptKey>, trace: AsyncStackTrace, j: nat)
    requires TraceKnown(names, trace)
    ensures |Chain(names, trace)| == Links(trace)
    ensures j < Links(trace) ==>
              var t := Link(trace, j);
              TraceKnown(names, t) && Chain(names, trace)[j] == ShownSegment(t.description, Show(names, t.callFrames))
  {
    if trace.Trace? {
      LinkInChain(names, trace.parent, if j == 0 then 0 else j - 1);
    }
  }

  /**
   A trace with the chain that `CreateAsyncStackTrace` promises has one link for
   each segment with a resolvable frame, the latest first, and a link has one
   call frame for each such frame.
   */
  lemma TraceOfSnapshot(names: seq<ScriptKey>, trace: AsyncStackTrace, segments: seq<AsyncSegment>, resolve: Resolver)
      returns (at: seq<nat>)
    requires TraceKnown(names, trace) && Chain(names, trace) == ShownSegments(segments, resolve)
    ensures Picks(at, |segments|) && |at| == Links(trace)
    ensures forall j | 0 <= j < |at| :: LinkOf(Link(trace, j), segments[at[j]], names, resolve)
    ensures forall i | 0 <= i < |segments| :: HasShownFrame(segments[i], resolve) <==> i in at
  {
    hide Chain, ShownFrames, ShownSegments, HasShownFrame, LinkOf, Show;
    at := SegmentsShown(segments, resolve);
    LinkInChain(names, trace, 0);
    forall j | 0 <= j < |at|
      ensures LinkOf(Link(trace, j), segments[at[j]], names, resolve)
    {
      LinkInChain(names, trace, j);
      LinkMeaning(Link(trace, j), segments[at[j]], names, resolve);
    }
  }
}
