/** What a whole step of a streamed interaction contributes: each function call gets
    exactly its own argument deltas, whatever else is streamed. */
module InteractionSteps {
  import opened Wrappers
  import opened Seqs
  import opened Events
  import opened Interactions

  /** A step as the server means it: its start, its deltas, and its stop. */
  datatype Step = Step(kind: StepKind, deltas: seq<Delta>)

  function DeltaBodies(deltas: seq<Delta>): seq<Body> {
    seq(|deltas|, i requires 0 <= i < |deltas| => StepDelta(deltas[i]))
  }

  function BodiesOf(step: Step): seq<Body> {
    [StepStart(step.kind)] + DeltaBodies(step.deltas) + [StepStop]
  }

  function AllBodies(steps: seq<Step>): seq<Body> {
    if steps == [] then [] else AllBodies(steps[..|steps| - 1]) + BodiesOf(steps[|steps| - 1])
  }

  // ---------------------------------------------------------------------------
  // Reference: the parts of a step
  // ---------------------------------------------------------------------------

  /** The concatenation of the argument deltas. */
  function ArgumentText(deltas: seq<Delta>): string {
    if deltas == [] then ""
    else
      var d, before := deltas[|deltas| - 1], ArgumentText(deltas[..|deltas| - 1]);
      if d.ArgumentsDelta? then before + d.arguments else before
  }

  /** The last non-empty signature. */
  function SignatureOf(first: string, deltas: seq<Delta>): Option<string> {
    if deltas == [] then if |first| > 0 then Some(first) else None
    else
      var d, before := deltas[|deltas| - 1], SignatureOf(first, deltas[..|deltas| - 1]);
      if d.SignatureDelta? && d.signature != "" then Some(d.signature) else before
  }

  /** The text and media parts, in order. */
  function Added(deltas: seq<Delta>): seq<Part> {
    if deltas == [] then [] else Added(deltas[..|deltas| - 1]) + AddedBy(deltas[|deltas| - 1])
  }

  /** The part a running call or thought step has open after some deltas. */
  function OpenPart(kind: StepKind, deltas: seq<Delta>): seq<Part> {
    match kind
    case FunctionCallStep(id, name, signature) =>
      [EMPTY_PART.(call := Some(FunctionCall(id, name, [])),
                   signature := SignatureOf(signature, deltas), openArgs := Some(ArgumentText(deltas)))]
    case ThoughtStep(signature) =>
      [EMPTY_PART.(thought := true, signature := SignatureOf(signature, deltas), openArgs := Some(""))]
    case OtherStep => []
  }

  /** The arguments a text stands for: none if it is empty or malformed. */
  function Parsed(text: string, parse: string -> Option<Args>): Args {
    if |text| > 0 && parse(text).Some? then parse(text).value else []
  }

  /** The complete call or thought part of a step: the call's arguments are the parse
      of the concatenation of the step's own argument deltas. */
  function ClosedPart(step: Step, parse: string -> Option<Args>): seq<Part> {
    match step.kind
    case FunctionCallStep(id, name, signature) =>
      [EMPTY_PART.(call := Some(FunctionCall(id, name, Parsed(ArgumentText(step.deltas), parse))),
                   signature := SignatureOf(signature, step.deltas))]
    case ThoughtStep(signature) =>
      [EMPTY_PART.(thought := true, signature := SignatureOf(signature, step.deltas))]
    case OtherStep => []
  }

  function PartsOf(step: Step, parse: string -> Option<Args>): seq<Part> {
    ClosedPart(step, parse) + Added(step.deltas)
  }

  function AllParts(steps: seq<Step>, parse: string -> Option<Args>): seq<Part> {
    if steps == [] then [] else AllParts(steps[..|steps| - 1], parse) + PartsOf(steps[|steps| - 1], parse)
  }

  // ---------------------------------------------------------------------------
  // The parts after a list of events
  // ---------------------------------------------------------------------------

  function PartsAfter(parts: seq<Part>, bodies: seq<Body>, parse: string -> Option<Args>): seq<Part> {
    if bodies == [] then parts
    else Convert(PartsAfter(parts, bodies[..|bodies| - 1], parse), bodies[|bodies| - 1], "", parse).0
  }

  lemma {:induction false} PartsAfterSplit(parts: seq<Part>, a: seq<Body>, b: seq<Body>, parse: string -> Option<Args>)
    ensures PartsAfter(parts, a + b, parse) == PartsAfter(PartsAfter(parts, a, parse), b, parse)
  {
    if b == [] {
      assert a + b == a;
    } else {
      var n := |b| - 1;
      assert (a + b)[..|a + b| - 1] == a + b[..n];
      PartsAfterSplit(parts, a, b[..n], parse);
    }
  }

  function BodiesIn(events: seq<SseEvent>): seq<Body> {
    seq(|events|, i requires 0 <= i < |events| => events[i].body)
  }

  lemma IdDoesNotMatter(parts: seq<Part>, body: Body, id: string, parse: string -> Option<Args>)
    ensures Convert(parts, body, id, parse).0 == Convert(parts, body, "", parse).0
  {
  }

  lemma {:induction false} RunLast(s: Stream, events: seq<SseEvent>, e: SseEvent, parse: string -> Option<Args>)
    ensures Run(s, events + [e], parse) == Advance(Run(s, events, parse), e, parse)
    decreases |events|
  {
    if events == [] {
      assert events + [e] == [e];
    } else {
      assert (events + [e])[1..] == events[1..] + [e];
      RunLast(Advance(s, events[0], parse), events[1..], e, parse);
    }
  }

  /** The interaction ids do not affect the parts. */
  lemma {:induction false} RunParts(s: Stream, events: seq<SseEvent>, parse: string -> Option<Args>)
    ensures Run(s, events, parse).parts == PartsAfter(s.parts, BodiesIn(events), parse)
  {
    if events != [] {
      var n := |events| - 1;
      var before := Run(s, events[..n], parse);
      RunParts(s, events[..n], parse);
      assert events[..n] + [events[n]] == events;
      RunLast(s, events[..n], events[n], parse);
      assert BodiesIn(events)[..n] == BodiesIn(events[..n]);
      IdDoesNotMatter(before.parts, events[n].body, Advance(before, events[n], parse).id, parse);
    }
  }

  ghost predicate NoneOpen(parts: seq<Part>) {
    forall i :: 0 <= i < |parts| ==> parts[i].openArgs.None?
  }

  lemma {:induction false} AddedAreClosed(deltas: seq<Delta>)
    ensures NoneOpen(Added(deltas))
  {
    if deltas != [] {
      AddedAreClosed(deltas[..|deltas| - 1]);
    }
  }

  /** The last open part of `done + open + added` is the open one. */
  lemma LastOpen(done: seq<Part>, open: seq<Part>, added: seq<Part>, p: Part -> bool)
    requires NoneOpen(done) && NoneOpen(added) && |open| <= 1
    requires forall x: Part :: p(x) ==> x.openArgs.Some?
    ensures var parts := done + open + added;
            LastIndex(parts, p) == if open != [] && p(open[0]) then |done| else |parts|
  {
    var parts := done + open + added;
    var i := LastIndex(parts, p);
    assert forall j :: 0 <= j < |parts| && j != |done| ==> open == [] || parts[j].openArgs.None?;
    assert open != [] ==> parts[|done|] == open[0];
    assert open == [] ==> forall j :: 0 <= j < |parts| ==> parts[j].openArgs.None?;
    if i < |parts| {
      assert p(parts[i]);
    }
  }

  lemma ArgumentsInStep(done: seq<Part>, kind: StepKind, deltas: seq<Delta>, added: seq<Part>, text: string,
                        parse: string -> Option<Args>)
    requires NoneOpen(done) && NoneOpen(added)
    ensures Convert(done + OpenPart(kind, deltas) + added, StepDelta(ArgumentsDelta(text)), "", parse).0
         == done + OpenPart(kind, deltas + [ArgumentsDelta(text)]) + added
  {
    assert (deltas + [ArgumentsDelta(text)])[..|deltas|] == deltas;
    LastOpen(done, OpenPart(kind, deltas), added, IsOpenCall());
  }

  lemma SignatureInStep(done: seq<Part>, kind: StepKind, deltas: seq<Delta>, added: seq<Part>, signature: string,
                        parse: string -> Option<Args>)
    requires NoneOpen(done) && NoneOpen(added)
    ensures Convert(done + OpenPart(kind, deltas) + added, StepDelta(SignatureDelta(signature)), "", parse).0
         == done + OpenPart(kind, deltas + [SignatureDelta(signature)]) + added
  {
    assert (deltas + [SignatureDelta(signature)])[..|deltas|] == deltas;
    LastOpen(done, OpenPart(kind, deltas), added, IsOpenCallOrThought());
  }

  lemma OthersDoNotMatter(kind: StepKind, deltas: seq<Delta>, d: Delta)
    requires !d.ArgumentsDelta? && !d.SignatureDelta?
    ensures OpenPart(kind, deltas + [d]) == OpenPart(kind, deltas)
  {
    assert (deltas + [d])[..|deltas|] == deltas;
  }

  lemma AddedLast(deltas: seq<Delta>, d: Delta)
    ensures Added(deltas + [d]) == Added(deltas) + AddedBy(d)
    ensures AddedBy(d) == [] ==> Added(deltas + [d]) == Added(deltas)
  {
    assert (deltas + [d])[..|deltas|] == deltas;
    assert Added(deltas) + [] == Added(deltas);
  }

  /** One delta while a step is running. */
  lemma DeltaInStep(done: seq<Part>, kind: StepKind, deltas: seq<Delta>, d: Delta, parse: string -> Option<Args>)
    requires NoneOpen(done)
    ensures Convert(done + OpenPart(kind, deltas) + Added(deltas), StepDelta(d), "", parse).0
         == done + OpenPart(kind, deltas + [d]) + Added(deltas + [d])
  {
    var open, added := OpenPart(kind, deltas), Added(deltas);
    AddedAreClosed(deltas);
    AddedLast(deltas, d);
    match d {
      case ArgumentsDelta(text) => ArgumentsInStep(done, kind, deltas, added, text, parse);
      case SignatureDelta(signature) => SignatureInStep(done, kind, deltas, added, signature, parse);
      case _ => ContentInStep(done, kind, deltas, open, added, d, parse);
    }
  }

  lemma ContentInStep(done: seq<Part>, kind: StepKind, deltas: seq<Delta>, open: seq<Part>,
                      added: seq<Part>, d: Delta, parse: string -> Option<Args>)
    requires !d.ArgumentsDelta? && !d.SignatureDelta? && open == OpenPart(kind, deltas)
    ensures Convert(done + open + added, StepDelta(d), "", parse).0
         == done + OpenPart(kind, deltas + [d]) + (added + AddedBy(d))
  {
    OthersDoNotMatter(kind, deltas, d);
    assert (done + open + added) + AddedBy(d) == done + open + (added + AddedBy(d));
  }

  /** At every moment of a step the only part that can be open is the step's own, and
      it holds the concatenation of the step's argument deltas so far. */
  lemma {:induction false} MidStep(done: seq<Part>, kind: StepKind, deltas: seq<Delta>, parse: string -> Option<Args>)
    requires NoneOpen(done)
    ensures PartsAfter(done, [StepStart(kind)] + DeltaBodies(deltas), parse)
         == done + OpenPart(kind, deltas) + Added(deltas)
    ensures NoneOpen(Added(deltas)) && |OpenPart(kind, deltas)| <= 1
  {
    AddedAreClosed(deltas);
    if deltas == [] {
      assert [StepStart(kind)] + DeltaBodies(deltas) == [StepStart(kind)];
      assert PartsAfter(done, [StepStart(kind)], parse) == done + StartPart(kind);
      assert done + StartPart(kind) + [] == done + StartPart(kind);
    } else {
      var n := |deltas| - 1;
      MidStep(done, kind, deltas[..n], parse);
      OneMoreDelta(done, kind, deltas, parse);
      DeltaInStep(done, kind, deltas[..n], deltas[n], parse);
      assert deltas[..n] + [deltas[n]] == deltas;
    }
  }

  lemma OneMoreDelta(done: seq<Part>, kind: StepKind, deltas: seq<Delta>, parse: string -> Option<Args>)
    requires deltas != []
    ensures var n := |deltas| - 1;
            PartsAfter(done, [StepStart(kind)] + DeltaBodies(deltas), parse)
            == Convert(PartsAfter(done, [StepStart(kind)] + DeltaBodies(deltas[..n]), parse),
                       StepDelta(deltas[n]), "", parse).0
  {
    var bodies := [StepStart(kind)] + DeltaBodies(deltas);
    assert bodies[..|bodies| - 1] == [StepStart(kind)] + DeltaBodies(deltas[..|deltas| - 1]);
  }

  /** When a step stops, its part is completed and, for a call, announced. */
  lemma StopCloses(done: seq<Part>, step: Step, id: string, parse: string -> Option<Args>)
    requires NoneOpen(done)
    ensures var parts := done + OpenPart(step.kind, step.deltas) + Added(step.deltas);
            var (after, yielded) := Convert(parts, StepStop, id, parse);
            && after == done + PartsOf(step, parse)
            && yielded == (if step.kind.FunctionCallStep? then [Piece(ClosedPart(step, parse)[0], false, id)] else [])
  {
    var open, added := OpenPart(step.kind, step.deltas), Added(step.deltas);
    AddedAreClosed(step.deltas);
    LastOpen(done, open, added, IsOpen());
    if step.kind.OtherStep? {
      assert done + open + added == done + ([] + added);
    } else {
      ReplaceOpen(done, open, added, ClosedPart(step, parse)[0]);
    }
  }

  lemma ReplaceOpen(done: seq<Part>, open: seq<Part>, added: seq<Part>, closed: Part)
    requires |open| == 1
    ensures (done + open + added)[|done|] == open[0]
    ensures (done + open + added)[|done| := closed] == done + ([closed] + added)
  {
  }

  lemma StepContributes(done: seq<Part>, step: Step, parse: string -> Option<Args>)
    requires NoneOpen(done)
    ensures PartsAfter(done, BodiesOf(step), parse) == done + PartsOf(step, parse)
    ensures NoneOpen(done + PartsOf(step, parse))
  {
    var bodies := BodiesOf(step);
    MidStep(done, step.kind, step.deltas, parse);
    StopCloses(done, step, "", parse);
    assert bodies[..|bodies| - 1] == [StepStart(step.kind)] + DeltaBodies(step.deltas);
  }

  /** For every list of steps the aggregated parts are the concatenation of what the
      steps mean: no text, media, argument or signature strays into another step. */
  lemma {:induction false} StepsContribute(steps: seq<Step>, parse: string -> Option<Args>)
    ensures PartsAfter([], AllBodies(steps), parse) == AllParts(steps, parse)
    ensures NoneOpen(AllParts(steps, parse))
  {
    if steps != [] {
      var n := |steps| - 1;
      StepsContribute(steps[..n], parse);
      StepContributes(AllParts(steps[..n], parse), steps[n], parse);
      PartsAfterSplit([], AllBodies(steps[..n]), BodiesOf(steps[n]), parse);
    }
  }

  // ---------------------------------------------------------------------------
  // Events that are not part of a step
  // ---------------------------------------------------------------------------

  /** Creation, status, completion, error and unknown events stand between the others. */
  function IsStep(): Body -> bool { (b: Body) => b.StepStart? || b.StepDelta? || b.StepStop? }

  lemma {:induction false} OnlyStepsChangeParts(parts: seq<Part>, bodies: seq<Body>, parse: string -> Option<Args>)
    ensures PartsAfter(parts, bodies, parse) == PartsAfter(parts, Filter(bodies, IsStep()), parse)
  {
    if bodies != [] {
      var n := |bodies| - 1;
      var steps := Filter(bodies[..n], IsStep());
      OnlyStepsChangeParts(parts, bodies[..n], parse);
      assert bodies == bodies[..n] + [bodies[n]];
      FilterLast(bodies[..n], bodies[n], IsStep());
      assert (steps + [bodies[n]])[..|steps|] == steps;
    }
  }

  // ---------------------------------------------------------------------------
  // At most one open part
  // ---------------------------------------------------------------------------

  /** A step has started and not stopped. */
  predicate Inside(bodies: seq<Body>) {
    if bodies == [] then false
    else
      var last := bodies[|bodies| - 1];
      last.StepStart? || (!last.StepStop? && Inside(bodies[..|bodies| - 1]))
  }

  /** No step starts inside another one. */
  ghost predicate Bracketed(bodies: seq<Body>) {
    forall i :: 0 <= i < |bodies| && bodies[i].StepStart? ==> !Inside(bodies[..i])
  }

  ghost predicate AtMostOneOpen(parts: seq<Part>) {
    forall i, j :: 0 <= i < j < |parts| ==> parts[i].openArgs.None? || parts[j].openArgs.None?
  }

  /** A delta neither opens nor closes a part. */
  lemma DeltaKeepsOpen(parts: seq<Part>, delta: Delta, parse: string -> Option<Args>)
    ensures var after := Convert(parts, StepDelta(delta), "", parse).0;
            && |parts| <= |after|
            && (forall i :: 0 <= i < |parts| ==> after[i].openArgs.Some? == parts[i].openArgs.Some?)
            && (forall i :: |parts| <= i < |after| ==> after[i].openArgs.None?)
  {
  }

  lemma StopClosesTheOpen(parts: seq<Part>, parse: string -> Option<Args>)
    requires AtMostOneOpen(parts)
    ensures NoneOpen(Convert(parts, StepStop, "", parse).0)
  {
    var i := LastIndex(parts, IsOpen());
    forall j | 0 <= j < |parts| && j != i ensures parts[j].openArgs.None? {
      if j > i || i == |parts| {
        assert !IsOpen()(parts[j]);
      } else {
        assert IsOpen()(parts[i]);
      }
    }
  }

  lemma NextOpen(parts: seq<Part>, body: Body, inside: bool, parse: string -> Option<Args>)
    requires AtMostOneOpen(parts) && (!inside ==> NoneOpen(parts)) && (body.StepStart? ==> !inside)
    ensures var after := Convert(parts, body, "", parse).0;
            && AtMostOneOpen(after)
            && (!(body.StepStart? || (!body.StepStop? && inside)) ==> NoneOpen(after))
  {
    match body {
      case StepDelta(delta) => DeltaKeepsOpen(parts, delta, parse);
      case StepStop => StopClosesTheOpen(parts, parse);
      case _ =>
    }
  }

  lemma {:induction false} OneOpen(bodies: seq<Body>, parse: string -> Option<Args>)
    requires Bracketed(bodies)
    ensures AtMostOneOpen(PartsAfter([], bodies, parse))
    ensures !Inside(bodies) ==> NoneOpen(PartsAfter([], bodies, parse))
  {
    if bodies != [] {
      var n := |bodies| - 1;
      assert forall i :: 0 <= i < n ==> bodies[..n][..i] == bodies[..i];
      OneOpen(bodies[..n], parse);
      NextOpen(PartsAfter([], bodies[..n], parse), bodies[n], Inside(bodies[..n]), parse);
    }
  }

  lemma {:induction false} OnlyStepsBracket(bodies: seq<Body>)
    ensures Inside(bodies) == Inside(Filter(bodies, IsStep()))
    ensures Bracketed(Filter(bodies, IsStep())) ==> Bracketed(bodies)
  {
    if bodies != [] {
      var n := |bodies| - 1;
      var steps := Filter(bodies[..n], IsStep());
      OnlyStepsBracket(bodies[..n]);
      assert bodies == bodies[..n] + [bodies[n]];
      FilterLast(bodies[..n], bodies[n], IsStep());
      assert (steps + [bodies[n]])[..|steps|] == steps;
      if Bracketed(Filter(bodies, IsStep())) {
        BracketedPrefix(Filter(bodies, IsStep()), |steps|);
        assert Filter(bodies, IsStep())[..|steps|] == steps;
        assert forall i :: 0 <= i < n ==> bodies[..n][..i] == bodies[..i];
      }
    }
  }

  lemma BracketedPrefix(bodies: seq<Body>, n: nat)
    requires Bracketed(bodies) && n <= |bodies|
    ensures Bracketed(bodies[..n])
  {
    assert forall i :: 0 <= i < n ==> bodies[..n][..i] == bodies[..i];
  }

  lemma BracketedLast(bodies: seq<Body>, b: Body)
    ensures Inside(bodies + [b]) == (b.StepStart? || (!b.StepStop? && Inside(bodies)))
    ensures Bracketed(bodies + [b]) <==> Bracketed(bodies) && (b.StepStart? ==> !Inside(bodies))
  {
    var longer, n := bodies + [b], |bodies|;
    assert longer[..n] == bodies && longer[n] == b;
    assert forall i :: 0 <= i < n ==> longer[..i] == bodies[..i] && longer[i] == bodies[i];
  }

  lemma {:induction false} BracketedAppend(a: seq<Body>, b: seq<Body>)
    requires Bracketed(a) && !Inside(a) && Bracketed(b)
    ensures Bracketed(a + b) && Inside(a + b) == Inside(b)
  {
    if b == [] {
      assert a + b == a;
    } else {
      var before, last := b[..|b| - 1], b[|b| - 1];
      LastApart(a, b);
      BracketedLast(before, last);
      BracketedAppend(a, before);
      BracketedLast(a + before, last);
    }
  }

  lemma {:induction false} DeltasStayInside(kind: StepKind, deltas: seq<Delta>)
    ensures Inside([StepStart(kind)] + DeltaBodies(deltas)) && Bracketed([StepStart(kind)] + DeltaBodies(deltas))
  {
    var bodies := [StepStart(kind)] + DeltaBodies(deltas);
    assert bodies[..0] == [];
    if deltas != [] {
      DeltasStayInside(kind, deltas[..|deltas| - 1]);
      assert bodies[..|bodies| - 1] == [StepStart(kind)] + DeltaBodies(deltas[..|deltas| - 1]);
    }
  }

  lemma StepIsBracketed(step: Step)
    ensures Bracketed(BodiesOf(step)) && !Inside(BodiesOf(step))
  {
    var bodies := [StepStart(step.kind)] + DeltaBodies(step.deltas);
    DeltasStayInside(step.kind, step.deltas);
    BracketedLast(bodies, StepStop);
    assert BodiesOf(step) == bodies + [StepStop];
  }

  lemma {:induction false} StepsAreBracketed(steps: seq<Step>)
    ensures Bracketed(AllBodies(steps)) && !Inside(AllBodies(steps))
  {
    if steps != [] {
      var n := |steps| - 1;
      StepsAreBracketed(steps[..n]);
      StepIsBracketed(steps[n]);
      BracketedAppend(AllBodies(steps[..n]), BodiesOf(steps[n]));
    }
  }

  /** As long as no step starts inside another one, whatever else is streamed, at most
      one part is open at any moment. */
  lemma OneOpenAtATime(previousId: string, events: seq<SseEvent>, parse: string -> Option<Args>, m: nat)
    requires Bracketed(BodiesIn(events)) && m <= |events|
    ensures AtMostOneOpen(Run(Begin(previousId), events[..m], parse).parts)
  {
    BracketedPrefix(BodiesIn(events), m);
    assert BodiesIn(events)[..m] == BodiesIn(events[..m]);
    OneOpen(BodiesIn(events[..m]), parse);
    RunParts(Begin(previousId), events[..m], parse);
  }

  // ---------------------------------------------------------------------------
  // Announced calls
  // ---------------------------------------------------------------------------

  function IsCall(): Part -> bool { (p: Part) => p.call.Some? }

  /** The calls announced by the responses that do not complete the turn. */
  function CallsIn(responses: seq<LlmResponse>): seq<Part> {
    if responses == [] then []
    else
      var r, before := responses[|responses| - 1], CallsIn(responses[..|responses| - 1]);
      if !r.turnComplete && r.parts.Some? then before + Filter(r.parts.value, IsCall()) else before
  }

  lemma CallsInLast(responses: seq<LlmResponse>, r: LlmResponse)
    ensures CallsIn(responses + [r])
         == CallsIn(responses) + if !r.turnComplete && r.parts.Some? then Filter(r.parts.value, IsCall()) else []
  {
    assert (responses + [r])[..|responses|] == responses;
    assert CallsIn(responses) + [] == CallsIn(responses);
  }

  lemma {:induction false} CallsInAppend(a: seq<LlmResponse>, b: seq<LlmResponse>)
    ensures CallsIn(a + b) == CallsIn(a) + CallsIn(b)
  {
    if b == [] {
      assert a + b == a;
    } else {
      LastApart(a, b);
      CallsInAppend(a, b[..|b| - 1]);
      CallsInLast(a + b[..|b| - 1], b[|b| - 1]);
      CallsInLast(b[..|b| - 1], b[|b| - 1]);
    }
  }

  function Announces(parts: seq<Part>, body: Body, parse: string -> Option<Args>): seq<Part> {
    if body.StepStop? then CallsIn(Convert(parts, body, "", parse).1) else []
  }

  /** Only the end of a step announces a call. */
  lemma OnlyStopsAnnounce(parts: seq<Part>, body: Body, id: string, parse: string -> Option<Args>)
    ensures CallsIn(Convert(parts, body, id, parse).1) == Announces(parts, body, parse)
  {
    var yielded := Convert(parts, body, id, parse).1;
    assert |yielded| <= 1;
    if yielded != [] {
      assert yielded[..0] == [];
      if body.StepDelta? {
        assert yielded[0].parts.value[1..] == [];
      }
    }
  }

  function Announced(parts: seq<Part>, bodies: seq<Body>, parse: string -> Option<Args>): seq<Part> {
    if bodies == [] then []
    else
      var n := |bodies| - 1;
      Announced(parts, bodies[..n], parse) + Announces(PartsAfter(parts, bodies[..n], parse), bodies[n], parse)
  }

  lemma AdvanceAnnounces(s: Stream, e: SseEvent, parse: string -> Option<Args>)
    ensures CallsIn(Advance(s, e, parse).responses) == CallsIn(s.responses) + Announces(s.parts, e.body, parse)
  {
    var id := Advance(s, e, parse).id;
    CallsInAppend(s.responses, Convert(s.parts, e.body, id, parse).1);
    OnlyStopsAnnounce(s.parts, e.body, id, parse);
  }

  lemma {:induction false} RunAnnounces(s: Stream, events: seq<SseEvent>, parse: string -> Option<Args>)
    ensures CallsIn(Run(s, events, parse).responses)
         == CallsIn(s.responses) + Announced(s.parts, BodiesIn(events), parse)
  {
    if events == [] {
      assert CallsIn(s.responses) + [] == CallsIn(s.responses);
    } else {
      var before, e := events[..|events| - 1], events[|events| - 1];
      LastApart([], events);
      assert BodiesIn(events) == BodiesIn(before) + [e.body];
      RunAnnounces(s, before, parse);
      RunParts(s, before, parse);
      RunLast(s, before, e, parse);
      AdvanceAnnounces(Run(s, before, parse), e, parse);
      AnnouncedLast(s.parts, BodiesIn(before), e.body, parse);
      Regroup(CallsIn(s.responses), Announced(s.parts, BodiesIn(before), parse),
              Announces(Run(s, before, parse).parts, e.body, parse));
    }
  }

  lemma AnnouncedLast(parts: seq<Part>, bodies: seq<Body>, b: Body, parse: string -> Option<Args>)
    ensures Announced(parts, bodies + [b], parse)
         == Announced(parts, bodies, parse) + Announces(PartsAfter(parts, bodies, parse), b, parse)
  {
    assert (bodies + [b])[..|bodies|] == bodies;
  }

  lemma Regroup<T>(a: seq<T>, b: seq<T>, c: seq<T>)
    ensures a + b + c == a + (b + c)
  {
  }

  lemma LastApart<T>(a: seq<T>, b: seq<T>)
    requires b != []
    ensures a + b == a + b[..|b| - 1] + [b[|b| - 1]] && b == b[..|b| - 1] + [b[|b| - 1]]
  {
  }

  lemma AnnouncedSplitLast(parts: seq<Part>, a: seq<Body>, b: seq<Body>, x: Body, parse: string -> Option<Args>)
    requires Announced(parts, a + b, parse)
          == Announced(parts, a, parse) + Announced(PartsAfter(parts, a, parse), b, parse)
    requires PartsAfter(parts, a + b, parse) == PartsAfter(PartsAfter(parts, a, parse), b, parse)
    ensures Announced(parts, a + b + [x], parse)
         == Announced(parts, a, parse) + Announced(PartsAfter(parts, a, parse), b + [x], parse)
  {
    var next := PartsAfter(parts, a, parse);
    AnnouncedLast(parts, a + b, x, parse);
    AnnouncedLast(next, b, x, parse);
    Regroup(Announced(parts, a, parse), Announced(next, b, parse), Announces(PartsAfter(next, b, parse), x, parse));
  }

  lemma {:induction false} AnnouncedSplit(parts: seq<Part>, a: seq<Body>, b: seq<Body>, parse: string -> Option<Args>)
    ensures Announced(parts, a + b, parse)
         == Announced(parts, a, parse) + Announced(PartsAfter(parts, a, parse), b, parse)
  {
    if b == [] {
      assert a + b == a;
      assert Announced(parts, a, parse) + [] == Announced(parts, a, parse);
    } else {
      var before, x := b[..|b| - 1], b[|b| - 1];
      LastApart(a, b);
      AnnouncedSplit(parts, a, before, parse);
      PartsAfterSplit(parts, a, before, parse);
      AnnouncedSplitLast(parts, a, before, x, parse);
    }
  }

  lemma {:induction false} OnlyStepsAreAnnounced(parts: seq<Part>, bodies: seq<Body>, parse: string -> Option<Args>)
    ensures Announced(parts, bodies, parse) == Announced(parts, Filter(bodies, IsStep()), parse)
  {
    if bodies != [] {
      var n := |bodies| - 1;
      var steps := Filter(bodies[..n], IsStep());
      OnlyStepsAreAnnounced(parts, bodies[..n], parse);
      OnlyStepsChangeParts(parts, bodies[..n], parse);
      assert bodies == bodies[..n] + [bodies[n]];
      FilterLast(bodies[..n], bodies[n], IsStep());
      assert (steps + [bodies[n]])[..|steps|] == steps;
    }
  }

  lemma {:induction false} NothingBeforeTheStop(parts: seq<Part>, bodies: seq<Body>, parse: string -> Option<Args>)
    requires forall i :: 0 <= i < |bodies| ==> !bodies[i].StepStop?
    ensures Announced(parts, bodies, parse) == []
  {
    if bodies != [] {
      NothingBeforeTheStop(parts, bodies[..|bodies| - 1], parse);
    }
  }

  /** What a step announces: its own call with its own arguments, if it is one. */
  function CallOf(step: Step, parse: string -> Option<Args>): seq<Part> {
    if step.kind.FunctionCallStep? then ClosedPart(step, parse) else []
  }

  function CallsOf(steps: seq<Step>, parse: string -> Option<Args>): seq<Part> {
    if steps == [] then [] else CallsOf(steps[..|steps| - 1], parse) + CallOf(steps[|steps| - 1], parse)
  }

  lemma StepAnnounces(done: seq<Part>, step: Step, parse: string -> Option<Args>)
    requires NoneOpen(done)
    ensures Announced(done, BodiesOf(step), parse) == CallOf(step, parse)
  {
    var running := [StepStart(step.kind)] + DeltaBodies(step.deltas);
    assert BodiesOf(step)[..|running|] == running;
    NothingBeforeTheStop(done, running, parse);
    MidStep(done, step.kind, step.deltas, parse);
    StopAnnounces(done, step, parse);
  }

  lemma StopAnnounces(done: seq<Part>, step: Step, parse: string -> Option<Args>)
    requires NoneOpen(done)
    ensures Announces(done + OpenPart(step.kind, step.deltas) + Added(step.deltas), StepStop, parse)
         == CallOf(step, parse)
  {
    StopCloses(done, step, "", parse);
    if step.kind.FunctionCallStep? {
      var p := ClosedPart(step, parse)[0];
      var r := Piece(p, false, "");
      assert [r][..0] == [] && CallsIn([]) == [];
      assert [p][1..] == [] && Filter([p], IsCall()) == [p];
      assert [] + [p] == [p] && ClosedPart(step, parse) == [p];
    }
  }

  lemma {:induction false} StepsAnnounce(steps: seq<Step>, parse: string -> Option<Args>)
    ensures Announced([], AllBodies(steps), parse) == CallsOf(steps, parse)
  {
    if steps != [] {
      var n := |steps| - 1;
      StepsAnnounce(steps[..n], parse);
      StepsContribute(steps[..n], parse);
      StepAnnounces(AllParts(steps[..n], parse), steps[n], parse);
      AnnouncedSplit([], AllBodies(steps[..n]), BodiesOf(steps[n]), parse);
    }
  }

  // ---------------------------------------------------------------------------
  // Whole streams
  // ---------------------------------------------------------------------------

  /** A stream whose step events form complete steps, with any other events between them
      and under any interaction ids: at every moment at most one part is open; the calls
      announced are exactly those of the steps, in order, each with the parse of its own
      argument text; and the content at the end is exactly what the steps mean. */
  lemma WellBracketedStream(previousId: string, events: seq<SseEvent>, steps: seq<Step>, parse: string -> Option<Args>)
    requires Filter(BodiesIn(events), IsStep()) == AllBodies(steps)
    ensures forall m :: 0 <= m <= |events| ==> AtMostOneOpen(Run(Begin(previousId), events[..m], parse).parts)
    ensures var s := Run(Begin(previousId), events, parse);
            && s.parts == AllParts(steps, parse) && NoneOpen(s.parts)
            && CallsIn(s.responses) == CallsOf(steps, parse)
            && Output(previousId, events, parse)
               == s.responses + if AllParts(steps, parse) == [] then [] else [Whole(AllParts(steps, parse), s.id)]
  {
    StepsAreBracketed(steps);
    OnlyStepsBracket(BodiesIn(events));
    forall m | 0 <= m <= |events| ensures AtMostOneOpen(Run(Begin(previousId), events[..m], parse).parts) {
      OneOpenAtATime(previousId, events, parse, m);
    }
    RunParts(Begin(previousId), events, parse);
    OnlyStepsChangeParts([], BodiesIn(events), parse);
    StepsContribute(steps, parse);
    RunAnnounces(Begin(previousId), events, parse);
    OnlyStepsAreAnnounced([], BodiesIn(events), parse);
    StepsAnnounce(steps, parse);
  }

  // ---------------------------------------------------------------------------
  // How often the content is reported
  // ---------------------------------------------------------------------------

  /** The events on which the server reports that the turn is complete. */
  predicate Completes(body: Body) {
    body.Completed? || (body.StatusUpdate? && (body.status == "completed" || body.status == "requires_action"))
  }

  function Completing(events: seq<SseEvent>): nat {
    if events == [] then 0
    else Completing(events[..|events| - 1]) + if Completes(events[|events| - 1].body) then 1 else 0
  }

  /** The id of the interaction after some events: the last one an event carried. */
  function IdAfter(previousId: string, events: seq<SseEvent>): string {
    if events == [] then previousId
    else if |events[|events| - 1].interactionId| > 0 then events[|events| - 1].interactionId
    else IdAfter(previousId, events[..|events| - 1])
  }

  /** The response that reports the turn complete with this content. */
  ghost predicate Reports(r: LlmResponse, parts: seq<Part>) {
    && r.parts == (if parts == [] then None else Some(parts))
    && r.turnComplete && r.stopped && !r.partial && r.failure.None?
  }

  lemma {:induction false} RunId(previousId: string, events: seq<SseEvent>, parse: string -> Option<Args>)
    ensures Run(Begin(previousId), events, parse).id == IdAfter(previousId, events)
  {
    if events != [] {
      var before, e := events[..|events| - 1], events[|events| - 1];
      assert before + [e] == events;
      RunId(previousId, before, parse);
      RunLast(Begin(previousId), before, e, parse);
    }
  }

  /** A response to one event, with the parts and the interaction id before it. */
  ghost predicate RespondsTo(r: LlmResponse, body: Body, parts: seq<Part>, id: string) {
    && r.interactionId == id
    && (Completes(body) ==> Reports(r, parts))
    && (r.turnComplete <==> Completes(body) || r.failure.Some?)
    && (r.stopped ==> Completes(body)) && (r.partial ==> body.StepDelta?)
    && (r.failure.Some? ==> r.parts.None?)
  }

  lemma ConvertResponds(parts: seq<Part>, body: Body, id: string, parse: string -> Option<Args>)
    ensures var yielded := Convert(parts, body, id, parse).1;
            && |yielded| <= 1 && (Completes(body) ==> yielded != [])
            && (yielded != [] ==> RespondsTo(yielded[0], body, parts, id))
  {
  }

  /** Every response carries the latest interaction id; an event by which the server
      completes the turn yields all the content so far, and only such an event and a
      failure complete the turn before the end of the stream. */
  lemma EventYields(previousId: string, events: seq<SseEvent>, e: SseEvent, parse: string -> Option<Args>)
    ensures var before := Run(Begin(previousId), events, parse);
            var after := Run(Begin(previousId), events + [e], parse);
            var n := |before.responses|;
            && before.responses <= after.responses && |after.responses| <= n + 1
            && (Completes(e.body) ==> |after.responses| == n + 1)
            && (|after.responses| == n + 1 ==>
                  RespondsTo(after.responses[n], e.body, before.parts, IdAfter(previousId, events + [e])))
  {
    RunLast(Begin(previousId), events, e, parse);
    RunId(previousId, events + [e], parse);
    ConvertResponds(Run(Begin(previousId), events, parse).parts, e.body, IdAfter(previousId, events + [e]), parse);
  }

  /** The end of the stream yields all the content once more, if there is any. */
  lemma EndYields(previousId: string, events: seq<SseEvent>, parse: string -> Option<Args>)
    ensures var s, output := Run(Begin(previousId), events, parse), Output(previousId, events, parse);
            if s.parts == [] then output == s.responses
            else |output| == |s.responses| + 1 && s.responses <= output && Reports(output[|s.responses|], s.parts)
                 && output[|s.responses|].interactionId == IdAfter(previousId, events)
  {
    RunId(previousId, events, parse);
  }

  /** The responses that complete the turn without an error. */
  predicate IsComplete(r: LlmResponse) { r.turnComplete && r.failure.None? }

  function CompleteIn(responses: seq<LlmResponse>): nat {
    if responses == [] then 0
    else CompleteIn(responses[..|responses| - 1]) + if IsComplete(responses[|responses| - 1]) then 1 else 0
  }

  lemma {:induction false} CompleteInAppend(a: seq<LlmResponse>, b: seq<LlmResponse>)
    ensures CompleteIn(a + b) == CompleteIn(a) + CompleteIn(b)
  {
    if b == [] {
      assert a + b == a;
    } else {
      assert (a + b)[..|a + b| - 1] == a + b[..|b| - 1];
      CompleteInAppend(a, b[..|b| - 1]);
    }
  }

  lemma CompleteInOne(r: LlmResponse)
    ensures CompleteIn([r]) == if IsComplete(r) then 1 else 0
  {
    assert [r][..0] == [];
  }

  lemma CompletesIff(parts: seq<Part>, body: Body, id: string, parse: string -> Option<Args>)
    ensures CompleteIn(Convert(parts, body, id, parse).1) == if Completes(body) then 1 else 0
  {
    var yielded := Convert(parts, body, id, parse).1;
    assert |yielded| <= 1;
    if yielded != [] {
      CompleteInOne(yielded[0]);
      assert yielded == [yielded[0]];
    }
  }

  lemma {:induction false} RunCompletes(s: Stream, events: seq<SseEvent>, parse: string -> Option<Args>)
    ensures CompleteIn(Run(s, events, parse).responses) == CompleteIn(s.responses) + Completing(events)
  {
    if events != [] {
      var n := |events| - 1;
      var before := Run(s, events[..n], parse);
      RunCompletes(s, events[..n], parse);
      assert events[..n] + [events[n]] == events;
      RunLast(s, events[..n], events[n], parse);
      var id := Advance(before, events[n], parse).id;
      CompleteInAppend(before.responses, Convert(before.parts, events[n].body, id, parse).1);
      CompletesIff(before.parts, events[n].body, id, parse);
    }
  }

  /** The events that add a part: the start of a call or a thought, and text or media. */
  predicate Adds(body: Body) {
    match body
    case StepStart(step) => !step.OtherStep?
    case StepDelta(TextDelta(text)) => text != ""
    case StepDelta(MediaDelta(data, uri, _)) => data != "" || uri != ""
    case _ => false
  }

  lemma ConvertAdds(parts: seq<Part>, body: Body, id: string, parse: string -> Option<Args>)
    ensures Convert(parts, body, id, parse).0 == [] <==> parts == [] && !Adds(body)
  {
  }

  /** No part is left exactly when no event adds one. */
  lemma {:induction false} NoPartsIff(s: Stream, events: seq<SseEvent>, parse: string -> Option<Args>)
    ensures Run(s, events, parse).parts == []
       <==> s.parts == [] && forall i :: 0 <= i < |events| ==> !Adds(events[i].body)
    decreases |events|
  {
    if events != [] {
      var next := Advance(s, events[0], parse);
      ConvertAdds(s.parts, events[0].body, next.id, parse);
      NoPartsIff(next, events[1..], parse);
      assert forall i :: 1 <= i < |events| ==> events[i] == events[1..][i - 1];
    }
  }

  /** Every stream yields one complete response per completing event, wherever it stands,
      and one more at its end if some event added a part. */
  lemma CompletionsAreCounted(previousId: string, events: seq<SseEvent>, parse: string -> Option<Args>)
    ensures CompleteIn(Output(previousId, events, parse))
         == Completing(events) + if exists i :: 0 <= i < |events| && Adds(events[i].body) then 1 else 0
  {
    var s := Run(Begin(previousId), events, parse);
    RunCompletes(Begin(previousId), events, parse);
    NoPartsIff(Begin(previousId), events, parse);
    if s.parts != [] {
      CompleteInAppend(s.responses, [Whole(s.parts, s.id)]);
      CompleteInOne(Whole(s.parts, s.id));
    } else {
      assert s.responses + [] == s.responses;
    }
  }

  /** So a turn is reported complete exactly once iff the server reports it once and no
      event adds a part, or never and some event does. */
  lemma ReportedOnceIff(previousId: string, events: seq<SseEvent>, parse: string -> Option<Args>)
    ensures CompleteIn(Output(previousId, events, parse)) == 1
       <==> Completing(events) == if exists i :: 0 <= i < |events| && Adds(events[i].body) then 0 else 1
  {
    CompletionsAreCounted(previousId, events, parse);
  }

  /** A stream that ends by reporting its completion yields its content twice in a row:
      once for that event and once for the end of the stream. */
  lemma {:induction false} CompletionIsReportedTwice(previousId: string, events: seq<SseEvent>, e: SseEvent,
                                                     parse: string -> Option<Args>)
    requires Completes(e.body)
    ensures var s := Run(Begin(previousId), events + [e], parse);
            s.parts != [] ==>
              Output(previousId, events + [e], parse)
              == Run(Begin(previousId), events, parse).responses + [Whole(s.parts, s.id), Whole(s.parts, s.id)]
  {
    RunLast(Begin(previousId), events, e, parse);
  }
}
