/**
 Per-runner performance measurements: graph time and end-to-end time, accumulated a pass at a time.

 The wrappers around the runner produce a trace of events. The claims compare what the context's few
 fields accumulate with what the trace says happened between a pass's start and its end.
 */
module Metrics {
  import opened Options

  datatype Phase = Prefill | PaddedDecode | Decode

  datatype Event =
    | StartPass(at: real)
    | EndPass(at: real)
    | MarkPhase(phase: Phase)
    | Timed(begin: real, end: real)     // a timed interval, reported when it ends

  type Table = map<Phase, seq<real>>

  /** A defaultdict of latency lists. */
  function Lookup(t: Table, p: Phase): seq<real> { if p in t then t[p] else [] }

  datatype State = State(start: Option<real>, phase: Option<Phase>, graphLatency: Option<real>, graph: Table,
                         e2e: Table)

  const NEW := State(None, None, None, map[], map[])

  function Append(t: Table, p: Phase, x: real): Table { t[p := Lookup(t, p) + [x]] }

  function Step(s: State, e: Event): State
  {
    match e
    case StartPass(at) => s.(start := Some(at), phase := None, graphLatency := None)
    case EndPass(at) =>
      var s' := s.(start := None, phase := None, graphLatency := None);
      if s.start.None? || s.phase.None? || s.graphLatency.None? then s'
      else s'.(e2e := Append(s.e2e, s.phase.value, at - s.start.value),
        graph := Append(s.graph, s.phase.value, s.graphLatency.value))
    case MarkPhase(p) => if s.start.Some? then s.(phase := Some(p)) else s
    case Timed(begin, end) =>
      if s.start.Some?
        then s.(graphLatency := Some((if s.graphLatency.Some? then s.graphLatency.value else 0.0) + (end - begin)))
          else s
  }

  function Run(events: seq<Event>): State
  {
    if events == [] then NEW else Step(Run(events[..|events| - 1]), events[|events| - 1])
  }

  class PerformanceContext {
    var start: Option<real>
    var phase: Option<Phase>
    var graphLatency: Option<real>
    var graph: Table
    var e2e: Table

    function Current(): State
      reads this
    {
      State(start, phase, graphLatency, graph, e2e)
    }

    constructor ()
      ensures Current() == NEW
    {
      start, phase, graphLatency, graph, e2e := None, None, None, map[], map[];
    }

    method Start(now: real)
      modifies this
      ensures Current() == Step(old(Current()), StartPass(now))
    {
      start := Some(now);
      phase := None;
      graphLatency := None;
    }

    method End(now: real)
      modifies this
      ensures Current() == Step(old(Current()), EndPass(now))
    {
      var begun, marked, latency := start, phase, graphLatency;
      start, phase, graphLatency := None, None, None;
      if begun.None? || marked.None? || latency.None? {
        return;
      }
      e2e := Append(e2e, marked.value, now - begun.value);
      graph := Append(graph, marked.value, latency.value);
    }

    method Mark(p: Phase)
      modifies this
      ensures Current() == Step(old(Current()), MarkPhase(p))
    {
      if start.Some? {
        phase := Some(p);
      }
    }

    method AddGraphTime(begin: real, now: real)
      modifies this
      ensures Current() == Step(old(Current()), Timed(begin, now))
    {
      if start.Some? {
        graphLatency := Some((if graphLatency.Some? then graphLatency.value else 0.0) + (now - begin));
      }
    }
  }

  /******* What the trace says *******/

  datatype Record = Record(phase: Phase, graph: real, e2e: real)

  predicate IsBoundary(e: Event) { e.StartPass? || e.EndPass? }

  /** events[s] starts a pass still open when the trace reaches e. */
  ghost predicate OpenAt(events: seq<Event>, s: int, e: int)
  {
    0 <= s < e <= |events| && events[s].StartPass? && forall k | s < k < e :: !IsBoundary(events[k])
  }

  /** The phase marked last among these events. */
  function LastMark(body: seq<Event>): Option<Phase>
  {
    if body == [] then None
    else if body[|body| - 1].MarkPhase? then Some(body[|body| - 1].phase)
    else LastMark(body[..|body| - 1])
  }

  /** The total of the timed intervals, None when there was none. */
  function TimedTotal(body: seq<Event>): Option<real>
  {
    if body == [] then None
    else
      var before, last := TimedTotal(body[..|body| - 1]), body[|body| - 1];
      if last.Timed? then Some((if before.Some? then before.value else 0.0) + (last.end - last.begin)) else before
  }

  /** The record a pass over events[s..e] leaves, if it marked a phase and timed anything. */
  function RecordOf(events: seq<Event>, s: int, e: int): Option<Record>
    requires 0 <= s < e < |events| && events[s].StartPass? && events[e].EndPass?
  {
    var mark, total := LastMark(events[s + 1..e]), TimedTotal(events[s + 1..e]);
    if mark.Some? && total.Some? then Some(Record(mark.value, total.value, events[e].at - events[s].at)) else None
  }

  /** `r` is the record left at position e of the trace. */
  ghost predicate LeftAt(events: seq<Event>, e: int, r: Record)
  {
    0 <= e < |events| && events[e].EndPass? && exists s :: OpenAt(events, s, e) && RecordOf(events, s, e) == Some(r)
  }

  ghost function RecordAt(events: seq<Event>, e: int): (r: Option<Record>)
    ensures r.Some? ==> LeftAt(events, e, r.value)
    ensures r.None? ==> forall x :: !LeftAt(events, e, x)
  {
    if exists x :: LeftAt(events, e, x) then var x :| LeftAt(events, e, x); Some(x) else None
  }

  /** Every record the first n events leave, in order. */
  ghost function Records(events: seq<Event>, n: nat): seq<Record>
    requires n <= |events|
  {
    if n == 0 then []
    else Records(events, n - 1) + if RecordAt(events, n - 1).Some? then [RecordAt(events, n - 1).value] else []
  }

  function Graphs(rs: seq<Record>, p: Phase): seq<real>
  {
    if rs == [] then []
    else Graphs(rs[..|rs| - 1], p) + if rs[|rs| - 1].phase == p then [rs[|rs| - 1].graph] else []
  }

  function EndToEnds(rs: seq<Record>, p: Phase): seq<real>
  {
    if rs == [] then []
    else EndToEnds(rs[..|rs| - 1], p) + if rs[|rs| - 1].phase == p then [rs[|rs| - 1].e2e] else []
  }

  /******* The tables are the trace's records *******/

  lemma OpenAtOnce(events: seq<Event>, s: int, t: int, e: int)
    requires OpenAt(events, s, e) && OpenAt(events, t, e)
    ensures s == t
  {
    assert IsBoundary(events[s]) && IsBoundary(events[t]);
  }

  /** The open pass, as the context's three fields hold it. */
  ghost predicate FieldsMatch(events: seq<Event>, n: nat)
    requires n <= |events|
  {
    (Run(events[..n]).start.Some? <==> exists s :: OpenAt(events, s, n)) && forall s | OpenAt(events, s, n) ::
      FieldsOf(Run(events[..n]), events, s, n)
  }

  ghost predicate FieldsOf(st: State, events: seq<Event>, s: int, n: nat)
    requires OpenAt(events, s, n)
  {
    st.start == Some(events[s].at) && st.phase == LastMark(events[s + 1..n])
      && st.graphLatency == TimedTotal(events[s + 1..n])
  }

  lemma RunOneMore(events: seq<Event>, n: nat)
    requires n < |events|
    ensures Run(events[..n + 1]) == Step(Run(events[..n]), events[n])
  {
    assert events[..n + 1][..n] == events[..n];
  }

  lemma OpenOneMore(events: seq<Event>, s: int, n: nat)
    requires n < |events|
    ensures OpenAt(events, s, n + 1)
            <==> (s == n && events[n].StartPass?) || (OpenAt(events, s, n) && !IsBoundary(events[n]))
    ensures OpenAt(events, s, n) ==> events[s + 1..n + 1] == events[s + 1..n] + [events[n]]
  {
  }

  lemma FieldsOneMore(events: seq<Event>, s: int, n: nat)
    requires n < |events| && OpenAt(events, s, n + 1)
    requires OpenAt(events, s, n) ==> FieldsOf(Run(events[..n]), events, s, n)
    ensures FieldsOf(Run(events[..n + 1]), events, s, n + 1)
  {
    RunOneMore(events, n);
    OpenOneMore(events, s, n);
    if s < n {
      var body := events[s + 1..n + 1];
      assert body[..|body| - 1] == events[s + 1..n];
    }
  }

  lemma {:induction false} FieldsAlwaysMatch(events: seq<Event>, n: nat)
    requires n <= |events|
    ensures FieldsMatch(events, n)
  {
    if n > 0 {
      hide FieldsOf;
      FieldsAlwaysMatch(events, n - 1);
      RunOneMore(events, n - 1);
      forall s | OpenAt(events, s, n) ensures FieldsOf(Run(events[..n]), events, s, n) {
        OpenOneMore(events, s, n - 1);
        FieldsOneMore(events, s, n - 1);
      }
      if Run(events[..n]).start.Some? {
        if events[n - 1].StartPass? {
          assert OpenAt(events, n - 1, n);
        } else {
          var s :| OpenAt(events, s, n - 1);
          OpenOneMore(events, s, n - 1);
        }
      } else {
        forall s ensures !OpenAt(events, s, n) { if 0 <= s { OpenOneMore(events, s, n - 1); } }
      }
    }
  }

  /** The record the context adds to its tables at event e, if any. */
  function StepRecord(st: State, e: Event): Option<Record>
  {
    if e.EndPass? && st.start.Some? && st.phase.Some? && st.graphLatency.Some?
    then Some(Record(st.phase.value, st.graphLatency.value, e.at - st.start.value)) else None
  }

  lemma StepAppends(st: State, e: Event, p: Phase)
    ensures var r := StepRecord(st, e);
            && Lookup(Step(st, e).graph, p) == Lookup(st.graph, p) + Graphs(if r.Some? then [r.value] else [], p)
            && Lookup(Step(st, e).e2e, p) == Lookup(st.e2e, p) + EndToEnds(if r.Some? then [r.value] else [], p)
  {
  }

  lemma EndRecords(events: seq<Event>, n: nat)
    requires n < |events|
    ensures RecordAt(events, n) == StepRecord(Run(events[..n]), events[n])
  {
    FieldsAlwaysMatch(events, n);
    var st, e := Run(events[..n]), events[n];
    if e.EndPass? && st.start.Some? {
      var s :| OpenAt(events, s, n);
      assert FieldsOf(st, events, s, n);
      assert RecordOf(events, s, n) == StepRecord(st, e);
      assert StepRecord(st, e).Some? ==> LeftAt(events, n, StepRecord(st, e).value);
      forall t | OpenAt(events, t, n) ensures t == s { OpenAtOnce(events, s, t, n); }
    }
  }

  lemma {:induction false} ProjectionsDistribute(rs: seq<Record>, tail: seq<Record>, p: Phase)
    requires |tail| <= 1
    ensures Graphs(rs + tail, p) == Graphs(rs, p) + Graphs(tail, p)
    ensures EndToEnds(rs + tail, p) == EndToEnds(rs, p) + EndToEnds(tail, p)
  {
    if tail == [] {
      assert rs + tail == rs;
    } else {
      assert (rs + tail)[..|rs|] == rs;
      assert tail[..0] == [];
    }
  }

  /** Both tables list, per phase and in order, exactly the records of the trace's own passes. */
  lemma {:induction false} TablesAreRecords(events: seq<Event>, n: nat, p: Phase)
    requires n <= |events|
    ensures Lookup(Run(events[..n]).graph, p) == Graphs(Records(events, n), p)
    ensures Lookup(Run(events[..n]).e2e, p) == EndToEnds(Records(events, n), p)
  {
    hide RecordAt, Step, Lookup, Graphs, EndToEnds, StepRecord;
    if n > 0 {
      TablesAreRecords(events, n - 1, p);
      RunOneMore(events, n - 1);
      EndRecords(events, n - 1);
      StepAppends(Run(events[..n - 1]), events[n - 1], p);
      var at := RecordAt(events, n - 1);
      ProjectionsDistribute(Records(events, n - 1), if at.Some? then [at.value] else [], p);
    } else {
      NoRecords(p);
    }
  }

  lemma NoRecords(p: Phase)
    ensures Lookup(map[], p) == Graphs([], p) == EndToEnds([], p) == []
  {
  }

  lemma {:induction false} SameLength(rs: seq<Record>, p: Phase)
    ensures |Graphs(rs, p)| == |EndToEnds(rs, p)|
  {
    if rs != [] { SameLength(rs[..|rs| - 1], p); }
  }

  /** Whatever happened, the two lists of a phase have one length. */
  lemma {:induction false} ListsHaveOneLength(events: seq<Event>, p: Phase)
    ensures |Lookup(Run(events).graph, p)| == |Lookup(Run(events).e2e, p)|
  {
    assert events[..|events|] == events;
    TablesAreRecords(events, |events|, p);
    SameLength(Records(events, |events|), p);
  }

  /******* No leak between passes *******/

  lemma RunSnoc(xs: seq<Event>, e: Event)
    ensures Run(xs + [e]) == Step(Run(xs), e)
  {
    assert (xs + [e])[..|xs|] == xs;
  }

  /** `whole` is `own` with the tables of `before` in front. */
  ghost predicate Continues(before: State, whole: State, own: State, p: Phase)
  {
    && whole.start == own.start && whole.phase == own.phase && whole.graphLatency == own.graphLatency
    && Lookup(whole.graph, p) == Lookup(before.graph, p) + Lookup(own.graph, p)
    && Lookup(whole.e2e, p) == Lookup(before.e2e, p) + Lookup(own.e2e, p)
  }

  lemma ContinuesStep(before: State, whole: State, own: State, e: Event, p: Phase)
    requires Continues(before, whole, own, p)
    ensures Continues(before, Step(whole, e), Step(own, e), p)
  {
    hide Step, StepRecord, Lookup, Graphs, EndToEnds;
    StepAppends(whole, e, p);
    StepAppends(own, e, p);
    SameFields(whole, own, e);
    var r := StepRecord(own, e);
    var tail := if r.Some? then [r.value] else [];
    Regroup(Lookup(before.graph, p), Lookup(own.graph, p), Graphs(tail, p));
    Regroup(Lookup(before.e2e, p), Lookup(own.e2e, p), EndToEnds(tail, p));
  }

  lemma Regroup(a: seq<real>, b: seq<real>, c: seq<real>)
    ensures (a + b) + c == a + (b + c)
  {
  }

  lemma ContinuesStart(before: State, at: real, p: Phase)
    ensures Continues(before, Step(before, StartPass(at)), Step(NEW, StartPass(at)), p)
  {
  }

  /** What happened before a pass started adds nothing to it: the tables split at every start. */
  lemma {:induction false} StartsAfresh(xs: seq<Event>, at: real, ys: seq<Event>, p: Phase)
    ensures Continues(Run(xs), Run(xs + [StartPass(at)] + ys), Run([StartPass(at)] + ys), p)
  {
    hide Run, Step, Continues;
    if ys == [] {
      RunSnoc(xs, StartPass(at));
      RunSnoc([], StartPass(at));
      assert xs + [StartPass(at)] + ys == xs + [StartPass(at)] && [StartPass(at)] + ys == [] + [StartPass(at)];
      RunNothing();
      ContinuesStart(Run(xs), at, p);
    } else {
      var zs, e := ys[..|ys| - 1], ys[|ys| - 1];
      StartsAfresh(xs, at, zs, p);
      assert xs + [StartPass(at)] + ys == (xs + [StartPass(at)] + zs) + [e];
      assert [StartPass(at)] + ys == ([StartPass(at)] + zs) + [e];
      RunSnoc(xs + [StartPass(at)] + zs, e);
      RunSnoc([StartPass(at)] + zs, e);
      ContinuesStep(Run(xs), Run(xs + [StartPass(at)] + zs), Run([StartPass(at)] + zs), e, p);
    }
  }

  lemma RunNothing()
    ensures Run([]) == NEW
  {
  }

  lemma SameFields(a: State, b: State, e: Event)
    requires a.start == b.start && a.phase == b.phase && a.graphLatency == b.graphLatency
    ensures Step(a, e).start == Step(b, e).start && Step(a, e).phase == Step(b, e).phase
    ensures Step(a, e).graphLatency == Step(b, e).graphLatency && StepRecord(a, e) == StepRecord(b, e)
  {
  }

  /******* Graph time within end-to-end time *******/

  /** The timed intervals lie within [lo, hi], one after another. */
  ghost predicate Disjoint(body: seq<Event>, lo: real, hi: real)
  {
    && lo <= hi
    && (forall k | 0 <= k < |body| && body[k].Timed? :: lo <= body[k].begin <= body[k].end <= hi)
    && forall j, k | 0 <= j < k < |body| && body[j].Timed? && body[k].Timed? :: body[j].end <= body[k].begin
  }

  lemma {:induction false} TotalWithin(body: seq<Event>, lo: real, hi: real)
    requires Disjoint(body, lo, hi)
    ensures TimedTotal(body).Some? ==> TimedTotal(body).value <= hi - lo
  {
    if body != [] {
      var n := |body| - 1;
      TotalWithin(body[..n], lo, if body[n].Timed? then body[n].begin else hi);
    }
  }

  /** Every pass of the trace times disjoint intervals inside itself. */
  ghost predicate WellTimed(events: seq<Event>)
  {
    forall s, e | OpenAt(events, s, e) && e < |events| && events[e].EndPass? ::
      Disjoint(events[s + 1..e], events[s].at, events[e].at)
  }

  lemma {:induction false} RecordsWithin(events: seq<Event>, n: nat)
    requires n <= |events| && WellTimed(events)
    ensures forall k | 0 <= k < |Records(events, n)| :: Records(events, n)[k].graph <= Records(events, n)[k].e2e
  {
    if n > 0 {
      RecordsWithin(events, n - 1);
      var at := RecordAt(events, n - 1);
      if at.Some? {
        var s :| OpenAt(events, s, n - 1) && RecordOf(events, s, n - 1) == at;
        TotalWithin(events[s + 1..n - 1], events[s].at, events[n - 1].at);
      }
    }
  }

  lemma {:induction false} ProjectionsWithin(rs: seq<Record>, p: Phase)
    requires forall k | 0 <= k < |rs| :: rs[k].graph <= rs[k].e2e
    ensures |Graphs(rs, p)| == |EndToEnds(rs, p)| && forall k | 0 <= k < |Graphs(rs, p)| ::
            Graphs(rs, p)[k] <= EndToEnds(rs, p)[k]
  {
    if rs != [] { ProjectionsWithin(rs[..|rs| - 1], p); }
  }

  /** With disjoint intervals, no graph entry exceeds its end-to-end entry. */
  lemma GraphWithinEndToEnd(events: seq<Event>, p: Phase)
    requires WellTimed(events)
    ensures var graph, e2e := Lookup(Run(events).graph, p), Lookup(Run(events).e2e, p);
            |graph| == |e2e| && forall k | 0 <= k < |graph| :: graph[k] <= e2e[k]
  {
    assert events[..|events|] == events;
    TablesAreRecords(events, |events|, p);
    RecordsWithin(events, |events|);
    ProjectionsWithin(Records(events, |events|), p);
  }

  /******* The wrappers *******/

  /**
   How one engine step went through the wrapped methods; `inner` and `sampling` hold what nested wrappers
   reported.
   */
  datatype EngineStep =
    // execute_model gave None, and sample_tokens ended the pass
    | Sampled(start: real, inner: seq<Event>, sampling: seq<Event>, end: real)
    // IntermediateTensors, sent by send_handoff, which ended the pass
    | HandedOff(start: real, inner: seq<Event>, begin: real, sent: real, end: real)
    // execute_model returned an output itself
    | Finished(start: real, inner: seq<Event>, end: real)
    // an exception anywhere: nobody ends the pass
    | Raised(start: real, inner: seq<Event>)

  /** What happens inside the step's pass. */
  function Body(step: EngineStep): seq<Event>
  {
    match step
    case Sampled(_, inner, sampling, _) => inner + sampling
    case HandedOff(_, inner, begin, sent, _) => inner + [Timed(begin, sent)]
    case Finished(_, inner, _) => inner
    case Raised(_, inner) => inner
  }

  function Events(step: EngineStep): seq<Event>
  {
    [StartPass(step.start)] + (if step.Raised? then Body(step) else Body(step) + [EndPass(step.end)])
  }

  ghost predicate Nested(step: EngineStep) { forall k | 0 <= k < |Body(step)| :: !IsBoundary(Body(step)[k]) }

  function AllEvents(steps: seq<EngineStep>): seq<Event>
  {
    if steps == [] then [] else AllEvents(steps[..|steps| - 1]) + Events(steps[|steps| - 1])
  }

  /** The record a step should leave: one per step that ended, marked a phase and timed something. */
  function Left(step: EngineStep): seq<Record>
  {
    var mark, total := LastMark(Body(step)), TimedTotal(Body(step));
    if step.Raised? || mark.None? || total.None? then [] else [Record(mark.value, total.value, step.end - step.start)]
  }

  function AllLeft(steps: seq<EngineStep>): seq<Record>
  {
    if steps == [] then [] else AllLeft(steps[..|steps| - 1]) + Left(steps[|steps| - 1])
  }

  lemma {:induction false} RunOpenPass(at: real, body: seq<Event>)
    requires forall k | 0 <= k < |body| :: !IsBoundary(body[k])
    ensures Run([StartPass(at)] + body)
            == NEW.(start := Some(at), phase := LastMark(body), graphLatency := TimedTotal(body))
  {
    var events := [StartPass(at)] + body;
    if body == [] {
      assert events[..0] == [] && Run([]) == NEW;
    } else {
      assert events[..|events| - 1] == [StartPass(at)] + body[..|body| - 1];
      RunOpenPass(at, body[..|body| - 1]);
    }
  }

  lemma StepTables(step: EngineStep, p: Phase)
    requires Nested(step)
    ensures Lookup(Run(Events(step)).graph, p) == Graphs(Left(step), p)
            && Lookup(Run(Events(step)).e2e, p) == EndToEnds(Left(step), p)
  {
    hide Run, Step, Lookup, TimedTotal, LastMark, Body, Graphs, EndToEnds;
    var open := [StartPass(step.start)] + Body(step);
    RunOpenPass(step.start, Body(step));
    NoRecords(p);
    if step.Raised? {
      assert Events(step) == open;
    } else {
      assert Events(step) == open + [EndPass(step.end)];
      RunSnoc(open, EndPass(step.end));
      StepAppends(Run(open), EndPass(step.end), p);
    }
  }

  /**
   Over any steps, however many raise, the tables hold one entry per step that ended, marked a phase and timed
   something.
   */
  lemma {:induction false} StepsLeaveTheirRecords(steps: seq<EngineStep>, p: Phase)
    requires forall k | 0 <= k < |steps| :: Nested(steps[k])
    ensures Lookup(Run(AllEvents(steps)).graph, p) == Graphs(AllLeft(steps), p)
    ensures Lookup(Run(AllEvents(steps)).e2e, p) == EndToEnds(AllLeft(steps), p)
  {
    hide Run, Step, Body, Left, Nested, Lookup, Graphs, EndToEnds;
    if steps == [] {
      NoRecords(p);
      RunNothing();
    } else {
      var n := |steps| - 1;
      StepsLeaveTheirRecords(steps[..n], p);
      StepTables(steps[n], p);
      var ys := Events(steps[n])[1..];
      assert Events(steps[n]) == [StartPass(steps[n].start)] + ys;
      StartsAfresh(AllEvents(steps[..n]), steps[n].start, ys, p);
      assert AllEvents(steps) == AllEvents(steps[..n]) + [StartPass(steps[n].start)] + ys;
      AtMostOne(steps[n]);
      ProjectionsDistribute(AllLeft(steps[..n]), Left(steps[n]), p);
    }
  }

  lemma AtMostOne(step: EngineStep)
    ensures |Left(step)| <= 1
  {
  }
}
