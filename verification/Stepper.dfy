/**
 Single stepping (js_single_stepper.cpp and `DebuggerImpl::NotifySingleStep`).
 The code compares bytecode ranges and stack depths; what a user means is
 "another line of this activation, or an outer one".
 */
module Stepper {
  import opened Options

  type uint32 = x: int | 0 <= x < 0x1_0000_0000

  const UINT32_MAX: uint32 := 0xFFFF_FFFF
  const SPECIAL_LINE_MARK := -1

  datatype LineEntry = LineEntry(offset: uint32, line: int)
  datatype StepRange = StepRange(startBcOffset: uint32, endBcOffset: uint32)
  datatype Method = Method(file: nat, methodId: nat)
  datatype Type = StepInto | StepOver | StepOut

  type LineTable = seq<LineEntry>

  // ------------------------------------------------------------ lines of code

  predicate Sorted(table: LineTable)
  {
    forall i, j | 0 <= i < j < |table| :: table[i].offset <= table[j].offset
  }

  /** The last entry at or before `pc`. */
  function LastEntry(table: LineTable, pc: uint32): (r: Option<nat>)
    ensures r.Some? ==> r.value < |table| && table[r.value].offset <= pc
    ensures r.Some? ==> forall j | r.value < j < |table| :: pc < table[j].offset
    ensures r.None? ==> forall j | 0 <= j < |table| :: pc < table[j].offset
  {
    if table == [] then None
    else if table[|table| - 1].offset <= pc then Some(|table| - 1)
    else LastEntry(table[..|table| - 1], pc)
  }

  /** The instruction at `pc` belongs to `line`. */
  predicate OnLine(table: LineTable, pc: uint32, line: int)
  {
    var e := LastEntry(table, pc);
    e.Some? && table[e.value].line == line
  }

  /** The line that the debug information gives for an offset; 0 before the first entry. */
  function LineOf(table: LineTable, pc: uint32): int
  {
    var e := LastEntry(table, pc);
    if e.Some? then table[e.value].line else 0
  }

  /** Where an entry covers the offset, its line is the one; where none does, it is 0. */
  lemma LineOfMeaning(table: LineTable, pc: uint32)
    ensures if exists i :: 0 <= i < |table| && table[i].offset <= pc
            then forall line :: OnLine(table, pc, line) <==> line == LineOf(table, pc)
            else LineOf(table, pc) == 0 && forall line :: !OnLine(table, pc, line)
  {
  }

  // ----------------------------------------------------------- bytecode ranges

  predicate InRange(range: StepRange, pc: uint32)
  {
    range.startBcOffset <= pc < range.endBcOffset
  }

  predicate InRanges(ranges: seq<StepRange>, pc: uint32)
  {
    exists i | 0 <= i < |ranges| :: InRange(ranges[i], pc)
  }

  method InStepRange(stepRanges: seq<StepRange>, pc: uint32) returns (r: bool)
    ensures r <==> InRanges(stepRanges, pc)
  {
    for i := 0 to |stepRanges|
      invariant forall j | 0 <= j < i :: !InRange(stepRanges[j], pc)
    {
      if InRange(stepRanges[i], pc) {
        return true;
      }
    }
    return false;
  }

  function EntryRange(table: LineTable, i: nat): StepRange
    requires i < |table|
  {
    StepRange(table[i].offset, if i + 1 < |table| then table[i + 1].offset else UINT32_MAX)
  }

  /** The ranges of the first `n` entries that have the line. */
  function LineRanges(table: LineTable, line: int, n: nat): seq<StepRange>
    requires n <= |table|
  {
    if n == 0 then []
    else LineRanges(table, line, n - 1) + if table[n - 1].line == line then [EntryRange(table, n - 1)] else []
  }

  method GetStepRanges(table: LineTable, offset: uint32) returns (ranges: seq<StepRange>)
    ensures ranges == LineRanges(table, LineOf(table, offset), |table|)
  {
    var line := LineOf(table, offset);
    ranges := [];
    for i := 0 to |table|
      invariant ranges == LineRanges(table, line, i)
    {
      if table[i].line == line {
        ranges := ranges + [StepRange(table[i].offset, if i + 1 < |table| then table[i + 1].offset else UINT32_MAX)];
      }
    }
  }

  lemma {:induction false} InLineRanges(table: LineTable, line: int, n: nat, pc: uint32)
    requires n <= |table|
    ensures InRanges(LineRanges(table, line, n), pc) <==>
              exists i | 0 <= i < n :: table[i].line == line && InRange(EntryRange(table, i), pc)
  {
    if n > 0 {
      InLineRanges(table, line, n - 1, pc);
      var before, rs := LineRanges(table, line, n - 1), LineRanges(table, line, n);
      assert forall i | 0 <= i < |before| :: rs[i] == before[i];
      if table[n - 1].line == line {
        assert rs[|before|] == EntryRange(table, n - 1);
      }
    }
  }

  /** In a sorted table the range of an entry is where it is the last one. */
  lemma {:induction false} EntryRangeMeaning(table: LineTable, i: nat, pc: uint32)
    requires Sorted(table) && i < |table|
    ensures InRange(EntryRange(table, i), pc) <==> pc < UINT32_MAX && LastEntry(table, pc) == Some(i)
  {
    var e := LastEntry(table, pc);
    if e.Some? && e.value < i {
      assert pc < table[i].offset;
    }
  }

  /** The ranges of a line cover exactly its instructions; the one offset left out is the largest. */
  lemma {:induction false} RangesMeanLine(table: LineTable, line: int, pc: uint32)
    requires Sorted(table)
    ensures InRanges(LineRanges(table, line, |table|), pc) <==> pc < UINT32_MAX && OnLine(table, pc, line)
  {
    InLineRanges(table, line, |table|, pc);
    forall i | 0 <= i < |table|
      ensures InRange(EntryRange(table, i), pc) <==> pc < UINT32_MAX && LastEntry(table, pc) == Some(i)
    {
      EntryRangeMeaning(table, i, pc);
    }
  }

  /** At the largest offset no range ever matches, although the instruction may be on the line. */
  lemma LargestOffset()
    ensures var table := [LineEntry(0, 7)];
            OnLine(table, UINT32_MAX, 7) && !InRanges(LineRanges(table, 7, 1), UINT32_MAX)
  {
    var table := [LineEntry(0, 7)];
    RangesMeanLine(table, 7, UINT32_MAX);
  }

  // ------------------------------------------------------------- the stepper

  /** One activation of a method; `id` tells activations of one method apart. */
  datatype Frame = Frame(id: nat, code: Method)

  /** A single-step event: the stack, outermost frame first, and the offset in its last frame. */
  datatype Event = Event(stack: seq<Frame>, pc: uint32)
  {
    predicate Valid()
    {
      stack != [] && forall i, j | 0 <= i < j < |stack| :: stack[i] != stack[j]
    }

    function Top(): Frame
      requires stack != []
    {
      stack[|stack| - 1]
    }
  }

  /** What the debug information knows: line tables and the files with a script. */
  datatype World = World(tables: Method -> LineTable, known: nat -> bool)

  datatype SingleStepper = SingleStepper(code: Method, stepRanges: seq<StepRange>, stackDepth: nat, kind: Type)

  /** `SingleStepper::StepComplete` */
  predicate StepComplete(s: SingleStepper, e: Event)
    requires e.stack != []
  {
    match s.kind
    case StepInto => !(s.code == e.Top().code && InRanges(s.stepRanges, e.pc))
    case StepOver => |e.stack| <= s.stackDepth && !(|e.stack| == s.stackDepth && InRanges(s.stepRanges, e.pc))
    case StepOut => |e.stack| < s.stackDepth
  }

  /** `IsSkipLine`: an unknown file or the special line. */
  predicate Skip(w: World, e: Event)
    requires e.stack != []
  {
    var m := e.Top().code;
    !w.known(m.file) || LineOf(w.tables(m), e.pc) == SPECIAL_LINE_MARK
  }

  /** What a pause may show: a known file, and a line that is not the special one. */
  predicate Visible(w: World, e: Event)
    requires e.stack != []
  {
    w.known(e.Top().code.file) && !OnLine(w.tables(e.Top().code), e.pc, -1)
  }

  /** The stepper that `GetStepper` makes at an event; a step out needs no ranges. */
  function StepperAt(w: World, e: Event, kind: Type): SingleStepper
    requires e.stack != []
  {
    var m := e.Top().code;
    var table := w.tables(m);
    SingleStepper(m, if kind.StepOut? then [] else LineRanges(table, LineOf(table, e.pc), |table|), |e.stack|, kind)
  }

  datatype State = State(stepper: Option<SingleStepper>, pauseOnNextByteCode: bool)

  /** The effect of one `NotifySingleStep`. */
  function Notify(w: World, st: State, e: Event): (State, bool)
    requires e.stack != []
  {
    if Skip(w, e) then (st, false)
    else if st.pauseOnNextByteCode then (st.(pauseOnNextByteCode := false), true)
    else if st.stepper.Some? && StepComplete(st.stepper.value, e) then (st.(stepper := None), true)
    else (st, false)
  }

  class DebuggerImpl {
    var singleStepper: Option<SingleStepper>
    var pauseOnNextByteCode: bool
    var singleStepStatus: bool

    function View(): State
      reads this
    {
      State(singleStepper, pauseOnNextByteCode)
    }

    constructor ()
      ensures View() == State(None, false)
    {
      singleStepper, pauseOnNextByteCode, singleStepStatus := None, false, false;
    }

    /** `GetStepper` at the current event; without debug information for the file there is no stepper. */
    method GetStepper(w: World, e: Event, kind: Type, extractor: bool)
      requires e.stack != []
      modifies this
      ensures View() == State(if extractor then Some(StepperAt(w, e, kind)) else None, old(pauseOnNextByteCode))
      ensures singleStepStatus == old(singleStepStatus)
    {
      if !extractor {
        singleStepper := None;
        return;
      }
      var ranges: seq<StepRange> := [];
      if !kind.StepOut? {
        ranges := GetStepRanges(w.tables(e.Top().code), e.pc);
      }
      singleStepper := Some(SingleStepper(e.Top().code, ranges, |e.stack|, kind));
    }

    method StepIsComplete(s: SingleStepper, e: Event) returns (r: bool)
      requires e.stack != []
      ensures r <==> StepComplete(s, e)
    {
      var inRange := InStepRange(s.stepRanges, e.pc);
      match s.kind {
        case StepInto =>
          if s.code == e.Top().code && inRange {
            return false;
          }
        case StepOver =>
          if s.stackDepth < |e.stack| {
            return false;
          }
          if s.stackDepth == |e.stack| && inRange {
            return false;
          }
        case StepOut =>
          if s.stackDepth <= |e.stack| {
            return false;
          }
      }
      return true;
    }

    method NotifySingleStep(w: World, e: Event) returns (paused: bool)
      requires e.stack != []
      modifies this
      ensures Notify(w, old(View()), e) == (View(), paused)
      ensures singleStepStatus == (old(singleStepStatus) || (paused && !old(pauseOnNextByteCode)))
    {
      if pauseOnNextByteCode {
        if Skip(w, e) {
          return false;
        }
        pauseOnNextByteCode := false;
        return true;
      }
      if singleStepper.None? {
        return false;
      }
      var complete := StepIsComplete(singleStepper.value, e);
      if !complete {
        return false;
      }
      if Skip(w, e) {
        return false;
      }
      singleStepper := None;
      if !singleStepStatus {
        singleStepStatus := true;
      }
      return true;
    }
  }

  // --------------------------------------------------------------- whole runs

  predicate AllValid(es: seq<Event>)
  {
    forall i | 0 <= i < |es| :: es[i].Valid()
  }

  /** The answers over a run of events. */
  function Run(w: World, st: State, es: seq<Event>): (r: seq<bool>)
    requires AllValid(es)
    ensures |r| == |es|
    decreases |es|
  {
    if es == [] then []
    else
      var (st', paused) := Notify(w, st, es[0]);
      [paused] + Run(w, st', es[1..])
  }

  predicate Hit(w: World, s: SingleStepper, e: Event)
    requires e.stack != []
  {
    Visible(w, e) && StepComplete(s, e)
  }

  /** Whatever is stepping, a run never pauses in an unknown file or on the special line. */
  lemma {:induction false} PausesAreVisible(w: World, st: State, es: seq<Event>, i: nat)
    requires AllValid(es) && i < |es| && Run(w, st, es)[i]
    ensures w.known(es[i].Top().code.file) && !OnLine(w.tables(es[i].Top().code), es[i].pc, -1)
    decreases i
  {
    if i > 0 {
      PausesAreVisible(w, Notify(w, st, es[0]).0, es[1..], i - 1);
    }
  }

  lemma {:induction false} IdleRun(w: World, es: seq<Event>, i: nat)
    requires AllValid(es) && i < |es|
    ensures !Run(w, State(None, false), es)[i]
  {
    if i > 0 {
      IdleRun(w, es[1..], i - 1);
    }
  }

  /** A stepper pauses the run once, at the first visible event that completes it. */
  lemma {:induction false} RunPausesOnce(w: World, s: SingleStepper, es: seq<Event>, i: nat)
    requires AllValid(es) && i < |es|
    ensures Run(w, State(Some(s), false), es)[i] <==>
              Hit(w, s, es[i]) && forall j | 0 <= j < i :: !Hit(w, s, es[j])
  {
    if i > 0 {
      if Hit(w, s, es[0]) {
        IdleRun(w, es[1..], i - 1);
      } else {
        RunPausesOnce(w, s, es[1..], i - 1);
        assert forall j | 0 <= j < i - 1 :: es[1..][j] == es[j + 1];
        if forall j | 0 <= j < i - 1 :: !Hit(w, s, es[1..][j]) {
          forall j | 0 <= j < i
            ensures !Hit(w, s, es[j])
          {
            if j > 0 {
              assert es[j] == es[1..][j - 1];
            }
          }
        }
      }
    }
  }

  /** A pause request is answered at the first visible event, and no stepper is lost by it. */
  lemma {:induction false} PauseRequest(w: World, st: State, es: seq<Event>, i: nat)
    requires AllValid(es) && i < |es| && st.pauseOnNextByteCode
    requires Visible(w, es[i]) && forall j | 0 <= j < i :: !Visible(w, es[j])
    ensures Run(w, st, es)[i] && forall j | 0 <= j < i :: !Run(w, st, es)[j]
    ensures Run(w, st, es)[i + 1..] == Run(w, State(st.stepper, false), es[i + 1..])
  {
    if i > 0 {
      assert forall j | 0 <= j < i :: es[1..][j] == es[j + 1];
      PauseRequest(w, st, es[1..], i - 1);
      assert es[1..][i..] == es[i + 1..];
      assert Run(w, st, es)[i + 1..] == Run(w, st, es[1..])[i..];
    }
  }

  // ------------------------------------------------------ what stepping means

  predicate Related(a: seq<Frame>, b: seq<Frame>)
  {
    a <= b || b <= a
  }

  /** The stack of the event before the `i`-th. */
  function Before(start: Event, es: seq<Event>, i: nat): seq<Frame>
    requires i < |es|
  {
    if i == 0 then start.stack else es[i - 1].stack
  }

  predicate Nested(start: Event, es: seq<Event>, i: nat)
    requires i < |es|
  {
    Related(Before(start, es, i), es[i].stack)
  }

  /** Between two events frames are only pushed or only popped. */
  predicate WellNested(start: Event, es: seq<Event>)
  {
    forall i | 0 <= i < |es| :: Nested(start, es, i)
  }

  predicate Shallower(start: Event, e: Event)
  {
    |e.stack| < |start.stack|
  }

  /** The first event outside the starting frame is visible. */
  predicate ReturnIsSeen(w: World, start: Event, es: seq<Event>)
    requires AllValid(es)
  {
    forall i | 0 <= i < |es| && Shallower(start, es[i]) && !Visible(w, es[i]) ::
      exists j | 0 <= j < i :: Shallower(start, es[j])
  }

  lemma PrefixOfBoth(a: seq<Frame>, b: seq<Frame>, c: seq<Frame>)
    requires a <= c && b <= c && |a| <= |b|
    ensures a <= b
  {
  }

  /** As long as no event is shallower, the starting stack is below every one. */
  lemma {:induction false} FrameIsKept(start: Event, es: seq<Event>, i: nat)
    requires WellNested(start, es) && i < |es|
    requires forall j | 0 <= j <= i :: !Shallower(start, es[j])
    ensures start.stack <= es[i].stack
  {
    assert Nested(start, es, i);
    if i > 0 {
      FrameIsKept(start, es, i - 1);
      var b, c := Before(start, es, i), es[i].stack;
      if c <= b {
        PrefixOfBoth(start.stack, c, b);
      }
    }
  }

  /** Step over, as a user means it: an outer activation, or another line of the starting one. */
  predicate OverTarget(w: World, start: Event, e: Event)
    requires start.stack != [] && e.stack != []
  {
    var table := w.tables(start.Top().code);
    Visible(w, e) &&
    (Shallower(start, e) || (e.Top() == start.Top() && !OnLine(table, e.pc, LineOf(table, start.pc))))
  }

  lemma OverHitIsTarget(w: World, start: Event, e: Event)
    requires start.Valid() && e.Valid() && e.pc < UINT32_MAX && Sorted(w.tables(start.Top().code))
    requires Shallower(start, e) || start.stack <= e.stack
    ensures Hit(w, StepperAt(w, start, StepOver), e) <==> OverTarget(w, start, e)
  {
    var table := w.tables(start.Top().code);
    RangesMeanLine(table, LineOf(table, start.pc), e.pc);
    var d := |start.stack|;
    if !Shallower(start, e) {
      assert e.stack[d - 1] == start.Top();
      assert e.Top() == start.Top() <==> |e.stack| == d;
    }
  }

  /** Up to the first shallower event the code's test and the user's meaning agree event by event. */
  lemma OverAgreesBefore(w: World, start: Event, es: seq<Event>, i: nat)
    requires start.Valid() && AllValid(es) && i < |es| && es[i].pc < UINT32_MAX
    requires Sorted(w.tables(start.Top().code)) && WellNested(start, es)
    requires forall j | 0 <= j < i :: !Shallower(start, es[j])
    ensures Hit(w, StepperAt(w, start, StepOver), es[i]) <==> OverTarget(w, start, es[i])
  {
    if !Shallower(start, es[i]) {
      FrameIsKept(start, es, i);
    }
    OverHitIsTarget(w, start, es[i]);
  }

  lemma {:induction false} FirstShallower(start: Event, es: seq<Event>, i: nat) returns (m: nat)
    requires i < |es| && Shallower(start, es[i])
    ensures m <= i && Shallower(start, es[m]) && forall j | 0 <= j < m :: !Shallower(start, es[j])
  {
    m := 0;
    while !Shallower(start, es[m])
      invariant m <= i && forall j | 0 <= j < m :: !Shallower(start, es[j])
      decreases i - m
    {
      m := m + 1;
    }
  }

  /**
   Step over refines its meaning: on a well-nested run the pause comes exactly at
   the first target, although the code compares no activation and no method.
   */
  lemma {:induction false} StepOverMeaning(w: World, start: Event, es: seq<Event>, i: nat)
    requires start.Valid() && AllValid(es) && i < |es| && forall j | 0 <= j < |es| :: es[j].pc < UINT32_MAX
    requires Sorted(w.tables(start.Top().code)) && WellNested(start, es) && ReturnIsSeen(w, start, es)
    ensures Run(w, State(Some(StepperAt(w, start, StepOver)), false), es)[i] <==>
              OverTarget(w, start, es[i]) && forall j | 0 <= j < i :: !OverTarget(w, start, es[j])
  {
    var s := StepperAt(w, start, StepOver);
    RunPausesOnce(w, s, es, i);
    if j :| 0 <= j < i && Shallower(start, es[j]) {
      var m := FirstShallower(start, es, j);
      OverAgreesBefore(w, start, es, m);
      assert OverTarget(w, start, es[m]);
    } else {
      forall j | 0 <= j <= i
        ensures Hit(w, s, es[j]) <==> OverTarget(w, start, es[j])
      {
        OverAgreesBefore(w, start, es, j);
      }
    }
  }

  /** Another activation at the starting depth, with an offset outside the starting line's ranges. */
  predicate Impostor(w: World, start: Event, e: Event)
    requires start.stack != [] && e.stack != []
  {
    Visible(w, e) && |e.stack| == |start.stack| && e.Top() != start.Top()
    && !InRanges(StepperAt(w, start, StepOver).stepRanges, e.pc)
  }

  lemma OverHitCases(w: World, start: Event, e: Event)
    requires start.Valid() && e.Valid() && e.pc < UINT32_MAX && Sorted(w.tables(start.Top().code))
    requires e.Top() == start.Top() ==> |e.stack| == |start.stack|
    ensures Hit(w, StepperAt(w, start, StepOver), e) <==> OverTarget(w, start, e) || Impostor(w, start, e)
    ensures !(OverTarget(w, start, e) && Impostor(w, start, e))
  {
    var table := w.tables(start.Top().code);
    RangesMeanLine(table, LineOf(table, start.pc), e.pc);
  }

  lemma FirstHit(w: World, s: SingleStepper, es: seq<Event>, i: nat) returns (m: nat)
    requires AllValid(es) && i < |es| && Hit(w, s, es[i])
    ensures m <= i && Hit(w, s, es[m]) && forall j | 0 <= j < m :: !Hit(w, s, es[j])
  {
    m := 0;
    while !Hit(w, s, es[m])
      invariant m <= i && forall j | 0 <= j < m :: !Hit(w, s, es[j])
      decreases i - m
    {
      m := m + 1;
    }
  }

  ghost predicate PausesAtFirstTarget(w: World, start: Event, es: seq<Event>)
    requires start.Valid() && AllValid(es)
  {
    forall i | 0 <= i < |es| ::
      Run(w, State(Some(StepperAt(w, start, StepOver)), false), es)[i] <==>
        OverTarget(w, start, es[i]) && forall j | 0 <= j < i :: !OverTarget(w, start, es[j])
  }

  /** On any run, nested or not, step over keeps its meaning exactly when a target precedes every impostor. */
  lemma StepOverExactly(w: World, start: Event, es: seq<Event>)
    requires start.Valid() && AllValid(es) && forall j | 0 <= j < |es| :: es[j].pc < UINT32_MAX
    requires Sorted(w.tables(start.Top().code))
    requires forall j | 0 <= j < |es| :: es[j].Top() == start.Top() ==> |es[j].stack| == |start.stack|
    ensures PausesAtFirstTarget(w, start, es) <==>
              forall i | 0 <= i < |es| && Impostor(w, start, es[i]) ::
                exists j | 0 <= j < i :: OverTarget(w, start, es[j])
  {
    var s := StepperAt(w, start, StepOver);
    forall i | 0 <= i < |es|
      ensures Run(w, State(Some(s), false), es)[i] <==> Hit(w, s, es[i]) && forall j | 0 <= j < i :: !Hit(w, s, es[j])
      ensures Hit(w, s, es[i]) <==> OverTarget(w, start, es[i]) || Impostor(w, start, es[i])
      ensures !(OverTarget(w, start, es[i]) && Impostor(w, start, es[i]))
    {
      RunPausesOnce(w, s, es, i);
      OverHitCases(w, start, es[i]);
    }
    if PausesAtFirstTarget(w, start, es) {
      forall i | 0 <= i < |es| && Impostor(w, start, es[i])
        ensures exists j | 0 <= j < i :: OverTarget(w, start, es[j])
      {
        var m := FirstHit(w, s, es, i);
        assert OverTarget(w, start, es[m]);
      }
    }
  }

  /** Step out, as a user means it: the starting activation has ended. */
  predicate OutTarget(w: World, start: Event, e: Event)
    requires start.stack != [] && e.stack != []
  {
    Visible(w, e) && start.Top() !in e.stack
  }

  lemma OutAgreesBefore(w: World, start: Event, es: seq<Event>, i: nat)
    requires start.Valid() && AllValid(es) && i < |es| && WellNested(start, es)
    requires forall j | 0 <= j < i :: !Shallower(start, es[j])
    ensures Shallower(start, es[i]) <==> start.Top() !in es[i].stack
  {
    if Shallower(start, es[i]) {
      var b := Before(start, es, i);
      if i > 0 {
        FrameIsKept(start, es, i - 1);
      }
      assert Nested(start, es, i);
      PrefixOfBoth(es[i].stack, start.stack, b);
    } else {
      FrameIsKept(start, es, i);
      assert es[i].stack[|start.stack| - 1] == start.Top();
    }
  }

  /** Step out pauses exactly at the first visible event after the starting activation has ended. */
  lemma {:induction false} StepOutMeaning(w: World, start: Event, es: seq<Event>, i: nat)
    requires start.Valid() && AllValid(es) && i < |es|
    requires WellNested(start, es) && ReturnIsSeen(w, start, es)
    ensures Run(w, State(Some(StepperAt(w, start, StepOut)), false), es)[i] <==>
              OutTarget(w, start, es[i]) && forall j | 0 <= j < i :: !OutTarget(w, start, es[j])
  {
    var s := StepperAt(w, start, StepOut);
    RunPausesOnce(w, s, es, i);
    if j :| 0 <= j < i && Shallower(start, es[j]) {
      var m := FirstShallower(start, es, j);
      OutAgreesBefore(w, start, es, m);
      assert OutTarget(w, start, es[m]);
    } else {
      forall j | 0 <= j <= i
        ensures Hit(w, s, es[j]) <==> OutTarget(w, start, es[j])
      {
        OutAgreesBefore(w, start, es, j);
      }
    }
  }

  /** The starting activation has ended, but the stack is as deep as it was: step out does not see it. */
  predicate Missed(w: World, start: Event, e: Event)
    requires start.stack != [] && e.stack != []
  {
    OutTarget(w, start, e) && !Shallower(start, e)
  }

  ghost predicate PausesAtFirstOutTarget(w: World, start: Event, es: seq<Event>)
    requires start.Valid() && AllValid(es)
  {
    forall i | 0 <= i < |es| ::
      Run(w, State(Some(StepperAt(w, start, StepOut)), false), es)[i] <==>
        OutTarget(w, start, es[i]) && forall j | 0 <= j < i :: !OutTarget(w, start, es[j])
  }

  lemma FirstOutTarget(w: World, start: Event, es: seq<Event>, i: nat) returns (m: nat)
    requires start.Valid() && AllValid(es) && i < |es| && OutTarget(w, start, es[i])
    ensures m <= i && OutTarget(w, start, es[m]) && forall j | 0 <= j < m :: !OutTarget(w, start, es[j])
  {
    m := 0;
    while !OutTarget(w, start, es[m])
      invariant m <= i && forall j | 0 <= j < m :: !OutTarget(w, start, es[j])
      decreases i - m
    {
      m := m + 1;
    }
  }

  /**
   On any run, nested or not, step out pauses at the first event after the
   starting activation has ended exactly when an event that is shallower and
   visible precedes every one that is not.
   */
  lemma StepOutExactly(w: World, start: Event, es: seq<Event>)
    requires start.Valid() && AllValid(es)
    requires forall j | 0 <= j < |es| && Shallower(start, es[j]) :: start.Top() !in es[j].stack
    ensures PausesAtFirstOutTarget(w, start, es) <==>
              forall i | 0 <= i < |es| && Missed(w, start, es[i]) ::
                exists j | 0 <= j < i :: Visible(w, es[j]) && Shallower(start, es[j])
  {
    var s := StepperAt(w, start, StepOut);
    forall i | 0 <= i < |es|
      ensures Run(w, State(Some(s), false), es)[i] <==> Hit(w, s, es[i]) && forall j | 0 <= j < i :: !Hit(w, s, es[j])
      ensures Hit(w, s, es[i]) <==> Visible(w, es[i]) && Shallower(start, es[i])
      ensures OutTarget(w, start, es[i]) <==> Hit(w, s, es[i]) || Missed(w, start, es[i])
    {
      RunPausesOnce(w, s, es, i);
    }
    if PausesAtFirstOutTarget(w, start, es) {
      forall i | 0 <= i < |es| && Missed(w, start, es[i])
        ensures exists j | 0 <= j < i :: Visible(w, es[j]) && Shallower(start, es[j])
      {
        var m := FirstOutTarget(w, start, es, i);
        assert Hit(w, s, es[m]);
      }
    }
  }

  /** A skipped caller calls another method: the starting activation has ended, and step out never pauses. */
  lemma {:induction false} SkippedReturnOut(w: World, caller: Frame, started: Frame, other: Frame)
    requires !w.known(caller.code.file) && w.known(other.code.file)
    requires caller != started && caller != other && started != other
    requires LineOf(w.tables(other.code), 9) != SPECIAL_LINE_MARK
    ensures var start := Event([caller, started], 0);
            var es := [Event([caller], 4), Event([caller, other], 9)];
            && start.Valid() && AllValid(es) && WellNested(start, es) && OutTarget(w, start, es[1])
            && forall i | 0 <= i < |es| :: !Run(w, State(Some(StepperAt(w, start, StepOut)), false), es)[i]
  {
    var start := Event([caller, started], 0);
    var es := [Event([caller], 4), Event([caller, other], 9)];
    var s := StepperAt(w, start, StepOut);
    ReturnAndCall(start, es, caller, started, other);
    RunPausesOnce(w, s, es, 0);
    RunPausesOnce(w, s, es, 1);
  }

  /** A return to the caller and a call from there are well nested. */
  lemma ReturnAndCall(start: Event, es: seq<Event>, caller: Frame, started: Frame, other: Frame)
    requires |es| == 2 && start.stack == [caller, started] && es[0].stack == [caller] && es[1].stack == [caller, other]
    ensures WellNested(start, es)
  {
    assert Before(start, es, 0) == [caller, started] && Before(start, es, 1) == [caller];
    assert [caller] <= [caller, started] && [caller] <= [caller, other];
    assert Nested(start, es, 0) && Nested(start, es, 1);
  }

  /** Step into, as a user means it: another line or another method. */
  predicate IntoTarget(w: World, start: Event, e: Event)
    requires start.stack != [] && e.stack != []
  {
    var m := start.Top().code;
    Visible(w, e) && !(e.Top().code == m && OnLine(w.tables(m), e.pc, LineOf(w.tables(m), start.pc)))
  }

  /** Step into pauses exactly at the first target on every run, nested or not. */
  lemma {:induction false} StepIntoMeaning(w: World, start: Event, es: seq<Event>, i: nat)
    requires start.Valid() && AllValid(es) && i < |es| && forall j | 0 <= j < |es| :: es[j].pc < UINT32_MAX
    requires Sorted(w.tables(start.Top().code))
    ensures Run(w, State(Some(StepperAt(w, start, StepInto)), false), es)[i] <==>
              IntoTarget(w, start, es[i]) && forall j | 0 <= j < i :: !IntoTarget(w, start, es[j])
  {
    var s, table := StepperAt(w, start, StepInto), w.tables(start.Top().code);
    RunPausesOnce(w, s, es, i);
    forall j | 0 <= j <= i
      ensures Hit(w, s, es[j]) <==> IntoTarget(w, start, es[j])
    {
      RangesMeanLine(table, LineOf(table, start.pc), es[j].pc);
    }
  }

  /**
   Without a visible return the depths mislead: a caller that is skipped returns
   into another method at the same depth, and the step ends there although it is
   no target.
   */
  lemma {:induction false} SkippedReturn(w: World, caller: Frame, started: Frame, other: Frame)
    requires !w.known(caller.code.file) && w.known(other.code.file)
    requires caller != started && caller != other && started != other
    requires w.tables(started.code) == [LineEntry(0, 1), LineEntry(8, 2)] && LineOf(w.tables(other.code), 9) == 2
    ensures var start := Event([caller, started], 0);
            var es := [Event([caller], 4), Event([caller, other], 9)];
            && start.Valid() && AllValid(es) && WellNested(start, es) && !ReturnIsSeen(w, start, es)
            && Run(w, State(Some(StepperAt(w, start, StepOver)), false), es)[1]
            && !OverTarget(w, start, es[1])
  {
    var start := Event([caller, started], 0);
    var es := [Event([caller], 4), Event([caller, other], 9)];
    var s, table := StepperAt(w, start, StepOver), w.tables(started.code);
    TwoLines(table);
    ReturnAndCall(start, es, caller, started, other);
    hide LineRanges, LastEntry, InRanges;
    RunPausesOnce(w, s, es, 1);
  }

  lemma {:induction false} TwoLines(table: LineTable)
    requires table == [LineEntry(0, 1), LineEntry(8, 2)]
    ensures LineOf(table, 0) == 1 && !InRanges(LineRanges(table, 1, |table|), 9)
  {
    assert LastEntry(table, 9) == Some(1);
    assert LastEntry(table, 0) == Some(0);
    RangesMeanLine(table, 1, 9);
  }
}
