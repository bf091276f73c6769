/** The Holodeck sandbox: a bounded event ledger under an operator's control (src/holodeck.rs).

    Normalization form C and the hashes are the fields of `Kernel`.  Members that depend on them say which of their
    published properties they use, in `Lawful`. */
module Holodeck {
  import opened Wrappers
  import Lex
  import Utf8
  import Wire

  const MAX_HOLODECK_ANCHORS := 16
  const MAX_HOLODECK_TEXT_BYTES := 4_096
  const CHAIN_DOMAIN := "qsol-fed-holodeck-event-chain/1\0"
  const EVENT_ID_CHARS := 79

  datatype Kind =
    | ProgramStart | SyntheticNarrative | SyntheticTransition | SafetyTrip
    | OperatorFreeze | OperatorResume | ProgramEnd

  datatype State = Running | Frozen | Ended

  datatype Effect =
    | FederationPeerMutation | TrustMutation | CapabilityGrant | EvidencePromotion | GovernanceMutation
    | CitizenshipMutation | RealWorldStoreMutation | RemoteToolInvocation | NetworkAccess | CredentialAccess
    | SpawnNestedHolodeck | DisableSafeguards

  datatype Event = Event(
    programId: string, worldId: string, sequence: nat, eventId: string, kind: Kind,
    actor: Option<string>, text: string, sourceRefs: seq<string>)

  datatype Program = Program(objectRefs: seq<string>, bundleRef: string, maxEvents: nat)

  datatype Plan = Plan(programId: string, worldId: string, anchors: seq<string>, entities: seq<string>)

  datatype Sandbox = Sandbox(program: Program, plan: Plan, events: seq<Event>, state: State)

  datatype Receipt = Receipt(
    programId: string, worldId: string, finalState: State, eventCount: nat, chainHash: string, bundleRef: string)

  /** What the sandbox itself writes into an event. */
  datatype Wording = Wording(start: string, freeze: string, resume: string, trip: Effect -> string)

  datatype Kernel = Kernel(nfc: string -> string, idOf: Event -> string, digest: string -> string, wording: Wording)

  predicate IsAscii(s: string) {
    forall i | 0 <= i < |s| :: s[i] < '\U{80}'
  }

  predicate Short(s: string) {
    IsAscii(s) && 0 < |s| <= 256
  }

  /** Text in ASCII is already in form C (Unicode Annex #15), an event id is a prefix and 64 digits, and the sandbox
      words its own events briefly and in ASCII. */
  ghost predicate Lawful(k: Kernel) {
    && (forall s | IsAscii(s) :: k.nfc(s) == s) && (forall e :: |k.idOf(e)| == EVENT_ID_CHARS)
    && Short(k.wording.start) && Short(k.wording.freeze) && Short(k.wording.resume)
    && (forall e :: Short(k.wording.trip(e)))
  }

  datatype Fault =
    | NotRunning | AlreadyEnded | AlreadyFrozen | ResumeNeedsFrozen | ActorUnknown | TextInvalid
    | TooManyRefs | RefInvalid | LimitReached | NotEncodable

  // ---------------------------------------------------------------- the ledger

  predicate TextOk(text: string) {
    0 < |Utf8.Encode(text)| <= MAX_HOLODECK_TEXT_BYTES
  }

  predicate ActorOk(plan: Plan, actor: Option<string>) {
    actor.Some? ==> actor.value in plan.entities
  }

  function RefsFault(program: Program, refs: seq<string>): Option<Fault> {
    if |refs| > MAX_HOLODECK_ANCHORS then Some(TooManyRefs)
    else if Lex.Distinct(refs) && forall i | 0 <= i < |refs| :: refs[i] in program.objectRefs then None
    else Some(RefInvalid)
  }

  /** `validate_event_source_refs`: one pass with a set of what was seen. */
  method ValidateEventSourceRefs(program: Program, refs: seq<string>) returns (fault: Option<Fault>)
    ensures fault == RefsFault(program, refs)
  {
    if |refs| > MAX_HOLODECK_ANCHORS {
      return Some(TooManyRefs);
    }
    var seen: set<string> := {};
    for i := 0 to |refs|
      invariant seen == set r | r in refs[..i]
      invariant Lex.Distinct(refs[..i]) && forall j | 0 <= j < i :: refs[j] in program.objectRefs
    {
      assert refs[..i + 1] == refs[..i] + [refs[i]];
      if refs[i] in seen || refs[i] !in program.objectRefs {
        if refs[i] in seen {
          var j :| 0 <= j < |refs[..i]| && refs[..i][j] == refs[i];
          assert refs[j] == refs[i];
        }
        return Some(RefInvalid);
      }
      seen := seen + {refs[i]};
    }
    assert refs[..|refs|] == refs;
    fault := None;
  }

  /** The id is taken over canonical bytes, in which the text is normalized. */
  function Projection(k: Kernel, e: Event): Event {
    e.(eventId := "", text := k.nfc(e.text))
  }

  /** Why `push_event` would refuse, if it would. */
  function PushFault(k: Kernel, s: Sandbox, text: string, refs: seq<string>): Option<Fault> {
    if |s.events| >= s.program.maxEvents then Some(LimitReached)
    else if !TextOk(text) then Some(TextInvalid)
    else if RefsFault(s.program, refs).Some? then RefsFault(s.program, refs)
    else if |Utf8.Encode(k.nfc(text))| > Wire.MAX_STRING_UTF8 then Some(NotEncodable)
    else None
  }

  function NewEvent(k: Kernel, s: Sandbox, kind: Kind, actor: Option<string>, text: string, refs: seq<string>): Event {
    var e := Event(s.plan.programId, s.plan.worldId, |s.events| + 1, "", kind, actor, text, refs);
    e.(eventId := k.idOf(Projection(k, e)))
  }

  function Push(k: Kernel, s: Sandbox, kind: Kind, actor: Option<string>, text: string, refs: seq<string>)
    : Result<Sandbox, Fault>
  {
    var fault := PushFault(k, s, text, refs);
    if fault.Some? then Err(fault.value)
    else Ok(s.(events := s.events + [NewEvent(k, s, kind, actor, text, refs)]))
  }

  function Chain(events: seq<Event>): string {
    if events == [] then CHAIN_DOMAIN else Chain(events[..|events| - 1]) + events[|events| - 1].eventId
  }

  function ReceiptOf(k: Kernel, s: Sandbox): Receipt {
    Receipt(s.plan.programId, s.plan.worldId, s.state, |s.events|, k.digest(Chain(s.events)), s.program.bundleRef)
  }

  // ---------------------------------------------------------------- commands

  datatype Command =
    | Narrative(actor: Option<string>, text: string, refs: seq<string>)
    | Transition(actor: Option<string>, text: string, refs: seq<string>)
    | Attempt(actor: Option<string>, effect: Effect)
    | Freeze
    | Resume
    | End(reason: string)

  datatype Answer = Entered(event: Event) | Closed(receipt: Receipt) | Refused(fault: Fault)

  /** Appends, then takes the given state; a refused append leaves the sandbox as given. */
  function Enter(k: Kernel, s: Sandbox, kind: Kind, actor: Option<string>, text: string, refs: seq<string>,
                 after: State)
    : (Sandbox, Answer)
  {
    var pushed := Push(k, s, kind, actor, text, refs);
    if pushed.Err? then (s, Refused(pushed.error))
    else (pushed.value.(state := after), Entered(NewEvent(k, s, kind, actor, text, refs)))
  }

  function Synthetic(k: Kernel, s: Sandbox, kind: Kind, actor: Option<string>, text: string, refs: seq<string>)
    : (Sandbox, Answer)
  {
    if s.state != Running then (s, Refused(NotRunning))
    else if !ActorOk(s.plan, actor) then (s, Refused(ActorUnknown))
    else if !TextOk(text) then (s, Refused(TextInvalid))
    else if RefsFault(s.program, refs).Some? then (s, Refused(RefsFault(s.program, refs).value))
    else Enter(k, s, kind, actor, text, refs, Running)
  }

  function Ending(k: Kernel, s: Sandbox, reason: string): (Sandbox, Answer) {
    if !TextOk(reason) then (s, Refused(TextInvalid))
    else
      var pushed := if s.state == Ended || |s.events| >= s.program.maxEvents then Ok(s)
                    else Push(k, s, ProgramEnd, None, reason, []);
      if pushed.Err? then (s, Refused(pushed.error))
      else
        var ended := pushed.value.(state := Ended);
        (ended, Closed(ReceiptOf(k, ended)))
  }

  function Step(k: Kernel, s: Sandbox, c: Command): (Sandbox, Answer) {
    match c
    case Narrative(actor, text, refs) => Synthetic(k, s, SyntheticNarrative, actor, text, refs)
    case Transition(actor, text, refs) => Synthetic(k, s, SyntheticTransition, actor, text, refs)
    case Attempt(actor, effect) =>
      if s.state == Ended then (s, Refused(AlreadyEnded))
      else if !ActorOk(s.plan, actor) then (s, Refused(ActorUnknown))
      else Enter(k, s.(state := Frozen), SafetyTrip, actor, k.wording.trip(effect), [], Frozen)
    case Freeze =>
      if s.state == Ended then (s, Refused(AlreadyEnded))
      else if s.state == Frozen then (s, Refused(AlreadyFrozen))
      else Enter(k, s, OperatorFreeze, None, k.wording.freeze, [], Frozen)
    case Resume =>
      if s.state != Frozen then (s, Refused(ResumeNeedsFrozen))
      else Enter(k, s, OperatorResume, None, k.wording.resume, [], Running)
    case End(reason) => Ending(k, s, reason)
  }

  function Start(k: Kernel, program: Program, plan: Plan): Result<Sandbox, Fault> {
    Push(k, Sandbox(program, plan, [], Running), ProgramStart, None, k.wording.start, plan.anchors)
  }

  class HolodeckSandbox {
    const kernel: Kernel
    const program: Program
    const plan: Plan
    var events: seq<Event>
    var state: State

    function View(): Sandbox
      reads this
    {
      Sandbox(program, plan, events, state)
    }

    constructor (kernel: Kernel, started: Sandbox)
      ensures this.kernel == kernel && View() == started
    {
      this.kernel, program, plan := kernel, started.program, started.plan;
      events, state := started.events, started.state;
    }

    method PushEvent(kind: Kind, actor: Option<string>, text: string, refs: seq<string>)
      returns (r: Result<Event, Fault>)
      modifies this
      ensures match r
              case Ok(e) => && Push(kernel, old(View()), kind, actor, text, refs) == Ok(View())
                            && e == NewEvent(kernel, old(View()), kind, actor, text, refs)
              case Err(f) => Push(kernel, old(View()), kind, actor, text, refs) == Err(f) && View() == old(View())
    {
      if |events| >= program.maxEvents {
        return Err(LimitReached);
      }
      if !TextOk(text) {
        return Err(TextInvalid);
      }
      var fault := ValidateEventSourceRefs(program, refs);
      if fault.Some? {
        return Err(fault.value);
      }
      var e := Event(plan.programId, plan.worldId, |events| + 1, "", kind, actor, text, refs);
      if |Utf8.Encode(kernel.nfc(text))| > Wire.MAX_STRING_UTF8 {
        return Err(NotEncodable);
      }
      e := e.(eventId := kernel.idOf(Projection(kernel, e)));
      events := events + [e];
      r := Ok(e);
    }

    method RecordSynthetic(kind: Kind, actor: Option<string>, text: string, refs: seq<string>) returns (a: Answer)
      modifies this
      ensures (View(), a) == Synthetic(kernel, old(View()), kind, actor, text, refs)
    {
      if state != Running {
        return Refused(NotRunning);
      }
      if !ActorOk(plan, actor) {
        return Refused(ActorUnknown);
      }
      if !TextOk(text) {
        return Refused(TextInvalid);
      }
      var fault := ValidateEventSourceRefs(program, refs);
      if fault.Some? {
        return Refused(fault.value);
      }
      var r := PushEvent(kind, actor, text, refs);
      a := if r.Ok? then Entered(r.value) else Refused(r.error);
    }

    method AttemptBoundaryEffect(actor: Option<string>, effect: Effect) returns (a: Answer)
      modifies this
      ensures (View(), a) == Step(kernel, old(View()), Attempt(actor, effect))
    {
      if state == Ended {
        return Refused(AlreadyEnded);
      }
      if !ActorOk(plan, actor) {
        return Refused(ActorUnknown);
      }
      state := Frozen;
      var r := PushEvent(SafetyTrip, actor, kernel.wording.trip(effect), []);
      a := if r.Ok? then Entered(r.value) else Refused(r.error);
    }

    method FreezeProgram() returns (a: Answer)
      modifies this
      ensures (View(), a) == Step(kernel, old(View()), Freeze)
    {
      if state == Ended {
        return Refused(AlreadyEnded);
      }
      if state == Frozen {
        return Refused(AlreadyFrozen);
      }
      var r := PushEvent(OperatorFreeze, None, kernel.wording.freeze, []);
      if r.Err? {
        return Refused(r.error);
      }
      state := Frozen;
      a := Entered(r.value);
    }

    method ResumeProgram() returns (a: Answer)
      modifies this
      ensures (View(), a) == Step(kernel, old(View()), Resume)
    {
      if state != Frozen {
        return Refused(ResumeNeedsFrozen);
      }
      var r := PushEvent(OperatorResume, None, kernel.wording.resume, []);
      if r.Err? {
        return Refused(r.error);
      }
      state := Running;
      a := Entered(r.value);
    }

    method EndProgram(reason: string) returns (a: Answer)
      modifies this
      ensures (View(), a) == Step(kernel, old(View()), End(reason))
    {
      if !TextOk(reason) {
        return Refused(TextInvalid);
      }
      if state != Ended {
        if |events| < program.maxEvents {
          var r := PushEvent(ProgramEnd, None, reason, []);
          if r.Err? {
            return Refused(r.error);
          }
        }
        state := Ended;
      }
      var receipt := IssueReceipt();
      a := Closed(receipt);
    }

    /** `HolodeckReceipt::from_sandbox`: the ids in order, behind the domain. */
    method IssueReceipt() returns (receipt: Receipt)
      ensures receipt == ReceiptOf(kernel, View())
    {
      var chain := CHAIN_DOMAIN;
      for i := 0 to |events|
        invariant chain == Chain(events[..i])
      {
        assert events[..i + 1][..i] == events[..i];
        chain := chain + events[i].eventId;
      }
      assert events[..|events|] == events;
      receipt := Receipt(plan.programId, plan.worldId, state, |events|, kernel.digest(chain), program.bundleRef);
    }
  }

  function Run(k: Kernel, s: Sandbox, commands: seq<Command>): Sandbox
    decreases |commands|
  {
    if commands == [] then s else Run(k, Step(k, s, commands[0]).0, commands[1..])
  }

  // ---------------------------------------------------------------- what a ledger says about the program

  /** Where a program stands after a ledger, or that no program writes such a ledger. */
  datatype Phase = NotStarted | In(state: State) | Impossible

  predicate Admits(p: Phase, kind: Kind) {
    match kind
    case ProgramStart => p == NotStarted
    case OperatorResume => p == In(Frozen)
    case SafetyTrip => p == In(Running) || p == In(Frozen)
    case ProgramEnd => p == In(Running) || p == In(Frozen)
    case _ => p == In(Running)
  }

  function After(kind: Kind): State {
    if Stops(kind) then Frozen else if kind == ProgramEnd then Ended else Running
  }

  function Advance(p: Phase, kind: Kind): Phase {
    if Admits(p, kind) then In(After(kind)) else Impossible
  }

  function Replay(events: seq<Event>): (r: Phase)
    ensures r == NotStarted <==> events == []
  {
    if events == [] then NotStarted
    else Advance(Replay(events[..|events| - 1]), events[|events| - 1].kind)
  }

  lemma ReplayAppend(events: seq<Event>, e: Event)
    ensures Replay(events + [e]) == Advance(Replay(events), e.kind)
  {
  }

  /** The ledger shows the state of the program; only when it is full may the program have gone on, towards more
      restriction, without an entry. */
  ghost predicate Shows(s: Sandbox) {
    || Replay(s.events) == In(s.state)
    || (&& |s.events| == s.program.maxEvents
        && (|| (Replay(s.events) == In(Running) && s.state != Running)
            || (Replay(s.events) == In(Frozen) && s.state == Ended)))
  }

  ghost predicate Authentic(k: Kernel, s: Sandbox, i: nat)
    requires i < |s.events|
  {
    var e := s.events[i];
    && e.sequence == i + 1 && e.programId == s.plan.programId && e.worldId == s.plan.worldId
    && e.eventId
       == k.idOf(Event(s.plan.programId, s.plan.worldId, i + 1, "", e.kind, e.actor, k.nfc(e.text), e.sourceRefs))
    && 0 < |Utf8.Encode(e.text)| <= 4_096 && |Utf8.Encode(k.nfc(e.text))| <= 8_192
    && |e.sourceRefs| <= 16 && Lex.Distinct(e.sourceRefs)
    && (forall j | 0 <= j < |e.sourceRefs| :: e.sourceRefs[j] in s.program.objectRefs)
    && (e.actor.None? || e.actor.value in s.plan.entities)
  }

  ghost predicate Sound(k: Kernel, s: Sandbox) {
    && Shows(s) && |s.events| <= s.program.maxEvents
    && forall i | 0 <= i < |s.events| :: Authentic(k, s, i)
  }

  lemma PushedSound(k: Kernel, s: Sandbox, kind: Kind, actor: Option<string>, text: string, refs: seq<string>,
                    u: Sandbox)
    requires |s.events| <= s.program.maxEvents && forall i | 0 <= i < |s.events| :: Authentic(k, s, i)
    requires PushFault(k, s, text, refs).None? && ActorOk(s.plan, actor)
    requires u.program == s.program && u.plan == s.plan
    requires u.events == s.events + [NewEvent(k, s, kind, actor, text, refs)]
    ensures |u.events| <= u.program.maxEvents && forall i | 0 <= i < |u.events| :: Authentic(k, u, i)
    ensures Replay(u.events) == Advance(Replay(s.events), kind)
  {
    ReplayAppend(s.events, NewEvent(k, s, kind, actor, text, refs));
    forall i | 0 <= i < |u.events|
      ensures Authentic(k, u, i)
    {
      assert i < |s.events| ==> Authentic(k, s, i) && u.events[i] == s.events[i];
    }
  }

  lemma StartSound(k: Kernel, program: Program, plan: Plan)
    requires Start(k, program, plan).Ok?
    ensures Sound(k, Start(k, program, plan).value)
  {
  }

  lemma {:induction false} AsciiLength(s: string)
    requires IsAscii(s)
    ensures |Utf8.Encode(s)| == |s|
  {
    if s != [] {
      AsciiLength(s[1..]);
    }
  }

  /** The sandbox's own texts never fail to encode. */
  lemma OwnTextFits(k: Kernel, s: Sandbox, text: string)
    requires Lawful(k) && Short(text) && |s.events| < s.program.maxEvents
    ensures PushFault(k, s, text, []).None?
  {
    AsciiLength(text);
  }

  lemma EnterSound(k: Kernel, s: Sandbox, kind: Kind, actor: Option<string>, text: string, refs: seq<string>,
                   after: State)
    requires Sound(k, s) && Advance(In(s.state), kind) == In(after) && ActorOk(s.plan, actor)
    ensures Sound(k, Enter(k, s, kind, actor, text, refs, after).0)
  {
    var u := Enter(k, s, kind, actor, text, refs, after).0;
    if PushFault(k, s, text, refs).None? {
      PushedSound(k, s, kind, actor, text, refs, u);
    }
  }

  lemma AttemptSound(k: Kernel, s: Sandbox, actor: Option<string>, effect: Effect)
    requires Sound(k, s) && Lawful(k)
    ensures Sound(k, Step(k, s, Attempt(actor, effect)).0)
  {
    if s.state != Ended && ActorOk(s.plan, actor) {
      var text := k.wording.trip(effect);
      var frozen := s.(state := Frozen);
      var u := Enter(k, frozen, SafetyTrip, actor, text, [], Frozen).0;
      forall i | 0 <= i < |s.events|
        ensures Authentic(k, frozen, i)
      {
        assert Authentic(k, s, i);
      }
      if |s.events| < s.program.maxEvents {
        OwnTextFits(k, frozen, text);
        PushedSound(k, frozen, SafetyTrip, actor, text, [], u);
      }
    }
  }

  lemma EndingSound(k: Kernel, s: Sandbox, reason: string)
    requires Sound(k, s)
    ensures Sound(k, Ending(k, s, reason).0)
  {
    var u := Ending(k, s, reason).0;
    if s.state != Ended && |s.events| < s.program.maxEvents && PushFault(k, s, reason, []).None? {
      PushedSound(k, s, ProgramEnd, None, reason, [], u);
    } else {
      forall i | 0 <= i < |u.events|
        ensures Authentic(k, u, i)
      {
        assert Authentic(k, s, i);
      }
    }
  }

  lemma StepSound(k: Kernel, s: Sandbox, c: Command)
    requires Sound(k, s) && Lawful(k)
    ensures Sound(k, Step(k, s, c).0)
  {
    match c {
      case Narrative(actor, text, refs) =>
        if s.state == Running && ActorOk(s.plan, actor) {
          EnterSound(k, s, SyntheticNarrative, actor, text, refs, Running);
        }
      case Transition(actor, text, refs) =>
        if s.state == Running && ActorOk(s.plan, actor) {
          EnterSound(k, s, SyntheticTransition, actor, text, refs, Running);
        }
      case Attempt(actor, effect) => AttemptSound(k, s, actor, effect);
      case Freeze =>
        if s.state == Running {
          EnterSound(k, s, OperatorFreeze, None, k.wording.freeze, [], Frozen);
        }
      case Resume =>
        if s.state == Frozen {
          EnterSound(k, s, OperatorResume, None, k.wording.resume, [], Running);
        }
      case End(reason) => EndingSound(k, s, reason);
    }
  }

  lemma {:induction false} RunSound(k: Kernel, s: Sandbox, commands: seq<Command>)
    requires Sound(k, s) && Lawful(k)
    ensures Sound(k, Run(k, s, commands))
    decreases |commands|
  {
    if commands != [] {
      StepSound(k, s, commands[0]);
      RunSound(k, Step(k, s, commands[0]).0, commands[1..]);
    }
  }

  // ---------------------------------------------------------------- the shape of possible ledgers

  /** Every prefix of a possible ledger is possible. */
  lemma {:induction false} PrefixPossible(events: seq<Event>, n: nat)
    requires Replay(events) != Impossible && n <= |events|
    ensures Replay(events[..n]) != Impossible
    decreases |events|
  {
    if n < |events| {
      var shorter := events[..|events| - 1];
      PrefixPossible(shorter, n);
      assert shorter[..n] == events[..n];
    } else {
      assert events[..n] == events;
    }
  }

  lemma ReplayAt(events: seq<Event>, i: nat)
    requires Replay(events) != Impossible && i < |events|
    ensures Replay(events[..i + 1]) == Advance(Replay(events[..i]), events[i].kind) != Impossible
  {
    PrefixPossible(events, i + 1);
    assert events[..i + 1][..i] == events[..i];
  }

  predicate Stops(kind: Kind) {
    kind == SafetyTrip || kind == OperatorFreeze
  }

  predicate IsSynthetic(kind: Kind) {
    kind == SyntheticNarrative || kind == SyntheticTransition
  }

  ghost predicate ResumedBetween(events: seq<Event>, i: int, j: int) {
    exists m :: 0 <= i < m < j <= |events| && events[m].kind == OperatorResume
  }

  /** A program that was stopped and runs again was resumed in between. */
  lemma {:induction false} RunningAgain(events: seq<Event>, i: nat, j: nat)
    requires Replay(events) != Impossible && i < j <= |events|
    requires Stops(events[i].kind) && Replay(events[..j]) == In(Running)
    ensures ResumedBetween(events, i, j)
    decreases j
  {
    ReplayAt(events, j - 1);
    if events[j - 1].kind != OperatorResume {
      RunningAgain(events, i, j - 1);
      var m :| i < m < j - 1 && events[m].kind == OperatorResume;
      assert ResumedBetween(events, i, j);
    }
  }

  /** In every run the ledger is bounded and numbered from one, begins with its only ProgramStart, has a ProgramEnd
      only in last place and then only in an ended program, and has an operator's resume between a stop and any later
      synthetic event. */
  lemma LedgerOfEveryRun(k: Kernel, program: Program, plan: Plan, commands: seq<Command>)
    requires Lawful(k) && Start(k, program, plan).Ok?
    ensures var s := Run(k, Start(k, program, plan).value, commands);
            && 0 < |s.events| <= s.program.maxEvents
            && (forall i | 0 <= i < |s.events| ::
                  && Authentic(k, s, i)
                  && (s.events[i].kind == ProgramStart <==> i == 0)
                  && (s.events[i].kind == ProgramEnd ==> i == |s.events| - 1 && s.state == Ended))
            && (forall i, j | 0 <= i < j < |s.events| && Stops(s.events[i].kind) && IsSynthetic(s.events[j].kind) ::
                  ResumedBetween(s.events, i, j))
  {
    StartSound(k, program, plan);
    RunSound(k, Start(k, program, plan).value, commands);
    LedgerShape(k, Run(k, Start(k, program, plan).value, commands));
  }

  lemma EndIsLast(events: seq<Event>, i: nat)
    requires Replay(events) != Impossible && i < |events| && events[i].kind == ProgramEnd
    ensures i == |events| - 1 && Replay(events) == In(Ended)
  {
  }

  lemma LedgerShape(k: Kernel, s: Sandbox)
    requires Sound(k, s)
    ensures 0 < |s.events| <= s.program.maxEvents
    ensures forall i | 0 <= i < |s.events| ::
              && Authentic(k, s, i)
              && (s.events[i].kind == ProgramStart <==> i == 0)
              && (s.events[i].kind == ProgramEnd ==> i == |s.events| - 1 && s.state == Ended)
    ensures forall i, j | 0 <= i < j < |s.events| && Stops(s.events[i].kind) && IsSynthetic(s.events[j].kind) ::
              ResumedBetween(s.events, i, j)
  {
    forall i | 0 <= i < |s.events|
      ensures s.events[i].kind == ProgramStart <==> i == 0
      ensures s.events[i].kind == ProgramEnd ==> i == |s.events| - 1 && s.state == Ended
    {
      ReplayAt(s.events, i);
      if s.events[i].kind == ProgramEnd {
        EndIsLast(s.events, i);
      }
    }
    forall i, j | 0 <= i < j < |s.events| && Stops(s.events[i].kind) && IsSynthetic(s.events[j].kind)
      ensures ResumedBetween(s.events, i, j)
    {
      ReplayAt(s.events, j);
      RunningAgain(s.events, i, j);
    }
  }

  // ---------------------------------------------------------------- stopping and ending

  /** A boundary attempt freezes a running program exactly when its actor belongs to the program's plan; from anyone
      else, or after the end, it is refused and changes nothing.  The freeze does not depend on the ledger, and if the
      ledger is full no later commands make the program run again or add an entry. */
  lemma BoundaryAttemptFreezes(k: Kernel, s: Sandbox, actor: Option<string>, effect: Effect, later: seq<Command>)
    ensures var (u, a) := Step(k, s, Attempt(actor, effect));
            var known := actor.None? || actor.value in s.plan.entities;
            && (s.state == Running ==> (u.state == Frozen <==> known))
            && (s.state == Ended || !known ==> u == s && a.Refused?)
            && (s.state != Ended && known ==> u.state == Frozen)
            && (u.state == Frozen && |u.events| >= u.program.maxEvents ==>
                  Run(k, u, later).events == u.events && Run(k, u, later).state != Running)
  {
    var u := Step(k, s, Attempt(actor, effect)).0;
    if u.state == Frozen && |u.events| >= u.program.maxEvents {
      FullStaysStopped(k, u, later);
    }
  }

  lemma {:induction false} FullStaysStopped(k: Kernel, s: Sandbox, later: seq<Command>)
    requires s.state != Running && |s.events| >= s.program.maxEvents
    ensures Run(k, s, later).events == s.events && Run(k, s, later).state != Running
    decreases |later|
  {
    if later != [] {
      FullStaysStopped(k, Step(k, s, later[0]).0, later[1..]);
    }
  }

  /** The answer to a command that writes an entry, and the entry. */
  predicate Writes(k: Kernel, s: Sandbox, c: Command, kind: Kind, actor: Option<string>, text: string,
                   refs: seq<string>)
  {
    var (u, a) := Step(k, s, c);
    && a.Entered? && u.events == s.events + [a.event] && u.program == s.program && u.plan == s.plan
    && a.event.kind == kind && a.event.actor == actor && a.event.text == text && a.event.sourceRefs == refs
    && a.event.sequence == |s.events| + 1
  }

  /** A synthetic event is entered exactly in a running program, by nobody or a member of its plan, with a text of 1 to
      4096 bytes and at most 8192 once normalized, at most 16 distinct references to the source, and room; it is entered
      as given, the program runs on, and otherwise nothing changes. */
  lemma SyntheticEnteredIff(k: Kernel, s: Sandbox, c: Command)
    requires c.Narrative? || c.Transition?
    ensures Step(k, s, c).1.Entered? <==>
            && s.state == Running && (c.actor.None? || c.actor.value in s.plan.entities)
            && 0 < |Utf8.Encode(c.text)| <= 4_096 && |Utf8.Encode(k.nfc(c.text))| <= 8_192
            && |c.refs| <= 16 && Lex.Distinct(c.refs)
            && (forall i | 0 <= i < |c.refs| :: c.refs[i] in s.program.objectRefs)
            && |s.events| < s.program.maxEvents
    ensures Step(k, s, c).1.Entered? ==>
              && Writes(k, s, c, if c.Narrative? then SyntheticNarrative else SyntheticTransition, c.actor, c.text,
                        c.refs)
              && Step(k, s, c).0.state == Running
    ensures !Step(k, s, c).1.Entered? ==> Step(k, s, c).0 == s && Step(k, s, c).1.Refused?
  {
  }

  /** A program starts exactly if it has room for an event and its plan is anchored in at most 16 different references
      to the source; it then runs, with its start on the ledger. */
  lemma StartedIff(k: Kernel, program: Program, plan: Plan)
    requires Lawful(k)
    ensures Start(k, program, plan).Ok? <==>
            && program.maxEvents > 0 && |plan.anchors| <= 16 && Lex.Distinct(plan.anchors)
            && forall i | 0 <= i < |plan.anchors| :: plan.anchors[i] in program.objectRefs
    ensures Start(k, program, plan).Ok? ==>
              var s := Start(k, program, plan).value;
              && s.program == program && s.plan == plan && s.state == Running && |s.events| == 1
              && s.events[0].(eventId := "")
                 == Event(plan.programId, plan.worldId, 1, "", ProgramStart, None, k.wording.start, plan.anchors)
  {
    AsciiLength(k.wording.start);
  }

  /** An attempt is entered exactly if it is made by nobody or a member of the plan, before the end and while there is
      room. */
  lemma AttemptEnteredIff(k: Kernel, s: Sandbox, actor: Option<string>, effect: Effect)
    requires Lawful(k)
    ensures var a := Step(k, s, Attempt(actor, effect)).1;
            && (a.Entered? <==>
                  && s.state != Ended && (actor.None? || actor.value in s.plan.entities)
                  && |s.events| < s.program.maxEvents)
            && (a.Entered? ==> Writes(k, s, Attempt(actor, effect), SafetyTrip, actor, k.wording.trip(effect), []))
  {
    AsciiLength(k.wording.trip(effect));
  }

  /** The operator freezes exactly a running program and resumes exactly a frozen one, while there is room for the
      entry; otherwise nothing changes. */
  lemma OperatorCommandsIff(k: Kernel, s: Sandbox)
    requires Lawful(k)
    ensures var (u, a) := Step(k, s, Freeze);
            if s.state == Running && |s.events| < s.program.maxEvents
            then u.state == Frozen && Writes(k, s, Freeze, OperatorFreeze, None, k.wording.freeze, [])
            else u == s && a.Refused?
    ensures var (u, a) := Step(k, s, Resume);
            if s.state == Frozen && |s.events| < s.program.maxEvents
            then u.state == Running && Writes(k, s, Resume, OperatorResume, None, k.wording.resume, [])
            else u == s && a.Refused?
  {
    if |s.events| < s.program.maxEvents {
      OwnTextFits(k, s, k.wording.freeze);
      OwnTextFits(k, s, k.wording.resume);
    }
  }

  /** Teardown succeeds exactly when the reason has 1 to 4096 bytes and, where an entry is still to be written, its
      normalized form has at most 8192.  The program is then Ended, an entry with the reason was written if there was
      room, and the receipt names the program, the world and the source and counts the ledger. */
  lemma EndSucceedsIff(k: Kernel, s: Sandbox, reason: string)
    ensures Step(k, s, End(reason)).1.Closed? <==>
            && 0 < |Utf8.Encode(reason)| <= 4_096
            && (|| s.state == Ended || |s.events| >= s.program.maxEvents
                || |Utf8.Encode(k.nfc(reason))| <= 8_192)
    ensures Step(k, s, End(reason)).1.Closed? ==>
              var (u, a) := Step(k, s, End(reason));
              && u.state == Ended && u.program == s.program && u.plan == s.plan
              && (if s.state == Ended || |s.events| >= s.program.maxEvents then u.events == s.events
                  else
                    && |u.events| == |s.events| + 1 && u.events[..|s.events|] == s.events
                    && var last := u.events[|s.events|];
                       last.kind == ProgramEnd && last.text == reason && last.actor == None && last.sourceRefs == [])
              && a.receipt.finalState == Ended && a.receipt.eventCount == |u.events|
              && a.receipt.programId == s.plan.programId && a.receipt.worldId == s.plan.worldId
              && a.receipt.bundleRef == s.program.bundleRef && a.receipt.chainHash == k.digest(Chain(u.events))
    ensures !Step(k, s, End(reason)).1.Closed? ==> Step(k, s, End(reason)).0 == s
  {
  }

  lemma {:induction false} RepeatedLength(c: char, n: nat, s: string)
    requires |s| == n && forall i | 0 <= i < n :: s[i] == c
    ensures |Utf8.Encode(s)| == n * |Utf8.EncodeChar(c)|
    decreases n
  {
    if n > 0 {
      RepeatedLength(c, n - 1, s[1..]);
    }
  }

  /** Not every reason the length check admits ends the program: 1024 musical eighth notes (U+1D160) are 4096 bytes,
      and Unicode's composition exclusions make each of them three characters of four bytes in form C. */
  lemma ReasonThatCannotEnd(k: Kernel, s: Sandbox, reason: string)
    requires |reason| == 1024 && forall i | 0 <= i < 1024 :: reason[i] == '\U{1D160}'
    requires |k.nfc(reason)| == 3072 && forall i | 0 <= i < 3072 :: |Utf8.EncodeChar(k.nfc(reason)[i])| == 4
    requires s.state != Ended && |s.events| < s.program.maxEvents
    ensures TextOk(reason) && Step(k, s, End(reason)) == (s, Refused(NotEncodable))
  {
    RepeatedLength('\U{1D160}', 1024, reason);
    FourByteLength(k.nfc(reason));
  }

  lemma {:induction false} FourByteLength(s: string)
    requires forall i | 0 <= i < |s| :: |Utf8.EncodeChar(s[i])| == 4
    ensures |Utf8.Encode(s)| == 4 * |s|
  {
    if s != [] {
      FourByteLength(s[1..]);
    }
  }

  /** An ended program never changes again, and every later teardown with a valid reason gives the same receipt. */
  lemma {:induction false} EndFreezesReceipt(k: Kernel, s: Sandbox, later: seq<Command>, reason: string)
    requires s.state == Ended
    ensures Run(k, s, later) == s
    ensures TextOk(reason) ==> Step(k, Run(k, s, later), End(reason)) == (s, Closed(ReceiptOf(k, s)))
    decreases |later|
  {
    if later != [] {
      assert Step(k, s, later[0]).0 == s;
      EndFreezesReceipt(k, s, later[1..], reason);
    }
  }

  // ---------------------------------------------------------------- what a receipt commits to

  /** Two events of the ledgers with different projections have one id. */
  ghost predicate Collision(k: Kernel, a: seq<Event>, b: seq<Event>) {
    exists x, y :: x in a && y in b && Projection(k, x) != Projection(k, y)
                   && k.idOf(Projection(k, x)) == k.idOf(Projection(k, y))
  }

  lemma {:induction false} ChainLength(k: Kernel, s: Sandbox, n: nat)
    requires Lawful(k) && Sound(k, s) && n <= |s.events|
    ensures |Chain(s.events[..n])| == |CHAIN_DOMAIN| + EVENT_ID_CHARS * n
  {
    if n > 0 {
      assert Authentic(k, s, n - 1);
      assert s.events[..n][..n - 1] == s.events[..n - 1];
      ChainLength(k, s, n - 1);
    }
  }

  lemma {:induction false} ChainSplits(k: Kernel, s: Sandbox, t: Sandbox, n: nat, i: nat)
    requires Lawful(k) && Sound(k, s) && Sound(k, t) && i < n <= |s.events| && n <= |t.events|
    requires Chain(s.events[..n]) == Chain(t.events[..n])
    ensures s.events[i].eventId == t.events[i].eventId
  {
    assert Authentic(k, s, n - 1) && Authentic(k, t, n - 1);
    var a, b := s.events[..n], t.events[..n];
    assert a[..n - 1] == s.events[..n - 1] && b[..n - 1] == t.events[..n - 1];
    ChainLength(k, s, n - 1);
    ChainLength(k, t, n - 1);
    var c := Chain(a[..n - 1]);
    assert c == Chain(a)[..|c|] == Chain(b)[..|c|] == Chain(b[..n - 1]);
    assert a[n - 1].eventId == Chain(a)[|c|..] == Chain(b)[|c|..] == b[n - 1].eventId;
    if i < n - 1 {
      ChainSplits(k, s, t, n - 1, i);
    }
  }

  /** Two receipts with one count and one chain hash stand for ledgers that agree event by event, up to normalization
      of the texts, unless a hash collides. */
  lemma ReceiptCommits(k: Kernel, s: Sandbox, t: Sandbox)
    requires Lawful(k) && Sound(k, s) && Sound(k, t)
    requires ReceiptOf(k, s).eventCount == ReceiptOf(k, t).eventCount
    requires ReceiptOf(k, s).chainHash == ReceiptOf(k, t).chainHash
    ensures || (forall i | 0 <= i < |s.events| :: Projection(k, s.events[i]) == Projection(k, t.events[i]))
            || Chain(s.events) != Chain(t.events)
            || Collision(k, s.events, t.events)
  {
    if Chain(s.events) == Chain(t.events) && !Collision(k, s.events, t.events) {
      var n := |s.events|;
      assert s.events[..n] == s.events && t.events[..n] == t.events;
      forall i | 0 <= i < n
        ensures Projection(k, s.events[i]) == Projection(k, t.events[i])
      {
        ChainSplits(k, s, t, n, i);
        assert Authentic(k, s, i) && Authentic(k, t, i);
        assert s.events[i] in s.events && t.events[i] in t.events;
      }
    }
  }
}
