/** The deny-by-default tool gateway: screening, the retry loop around the handler, and the audit trail,
    with any number of invocations interleaved at their awaits. */
module McpGateway {
  import opened Wrappers
  import opened PyText
  import opened SlidingWindow
  import RateLimiter

  datatype Tool = Tool(allowedAgents: set<string>, requiredRoles: set<string>)

  /** One invocation. The fingerprint is absent when the arguments cannot be serialised;
      `argumentsValid` is the verdict of the tool's input schema. */
  datatype Call = Call(
    tool: string, subject: string, agent: string, roles: set<string>, requestId: string,
    fingerprint: Option<string>, argumentsValid: bool)

  datatype Outcome = Success | Denied | Invalid | Timeout | Error

  /** What one awaited handler run comes to: a schema-valid result, a timeout, a missing or invalid
      result, any other exception, or cancellation of the invoking task. */
  datatype Reply = Valid(value: string) | TimedOut | NoResult | Raised | Cancelled

  datatype Ending =
    | Returned(value: string)
    | ToolNotFound
    | AccessDenied
    | InvalidArguments
    | NoValidResult
    | ExecutionFailed
    | ExecutionTimedOut
    | WasCancelled
    | NotSerialisable

  datatype AuditRecord = AuditRecord(
    requestId: string, subject: string, agent: string, tool: string, fingerprint: string,
    outcome: Outcome, attempts: nat)

  /** A limit that the constructor does not refuse. */
  type Positive = n: int | n >= 1 witness 1

  datatype Config = Config(maxAttempts: Positive, rateLimit: Positive, window: real)

  function Key(subject: string, tool: string): string {
    subject + ":" + tool
  }

  /** The record's model strips white space off every text it is given. */
  function Record(call: Call, outcome: Outcome, attempts: nat): AuditRecord
    requires call.fingerprint.Some?
  {
    AuditRecord(Strip(call.requestId), Strip(call.subject), Strip(call.agent), Strip(call.tool),
                Strip(call.fingerprint.value), outcome, attempts)
  }

  /** The record names the call's request, caller, agent, tool and fingerprint, each without white space around it. */
  ghost predicate Describes(record: AuditRecord, call: Call, outcome: Outcome, attempts: nat) {
    && record.requestId == Strip(call.requestId) && record.subject == Strip(call.subject)
    && record.agent == Strip(call.agent) && record.tool == Strip(call.tool)
    && call.fingerprint.Some? && record.fingerprint == Strip(call.fingerprint.value)
    && record.outcome == outcome && record.attempts == attempts
  }

  // ---- Screening ----

  predicate Authorised(tools: map<string, Tool>, call: Call) {
    && call.tool in tools
    && call.agent in tools[call.tool].allowedAgents
    && tools[call.tool].requiredRoles <= call.roles
  }

  datatype Screening = Refused(ending: Ending, outcome: Outcome) | Cleared

  /** Fingerprint, then the checks in order, with the purged or extended request deques.
      Only authorised calls reach the limiter. */
  function Screen(config: Config, tools: map<string, Tool>, requests: map<string, seq<real>>, call: Call, now: real)
    : (Screening, map<string, seq<real>>)
  {
    if call.fingerprint.None? then (Refused(NotSerialisable, Error), requests)
    else if call.tool !in tools then (Refused(ToolNotFound, Denied), requests)
    else if call.agent !in tools[call.tool].allowedAgents then (Refused(AccessDenied, Denied), requests)
    else if !(tools[call.tool].requiredRoles <= call.roles) then (Refused(AccessDenied, Denied), requests)
    else
      var (allowed, after) :=
        RateLimiter.Check(requests, Key(call.subject, call.tool), now, config.window, config.rateLimit);
      if !allowed then (Refused(AccessDenied, Denied), after)
      else if !call.argumentsValid then (Refused(InvalidArguments, Invalid), after)
      else (Cleared, after)
  }

  // ---- The retry loop, one reply at a time ----

  /** `replies` are those already received; attempt |replies| + 1 is running. */
  datatype Flight = Flight(call: Call, replies: seq<Reply>)

  datatype Finish = Finish(ending: Ending, outcome: Outcome, attempts: nat)

  function Seen(reply: Reply): Outcome {
    if reply.TimedOut? then Timeout else Error
  }

  /** None means another attempt follows. A cancellation reports the outcome left by the attempt before it. */
  function React(replies: seq<Reply>, reply: Reply, maxAttempts: int): Option<Finish> {
    var attempt := |replies| + 1;
    match reply
    case Valid(value) => Some(Finish(Returned(value), Success, attempt))
    case TimedOut => if attempt < maxAttempts then None else Some(Finish(ExecutionTimedOut, Timeout, attempt))
    case NoResult => Some(Finish(NoValidResult, Error, attempt))
    case Raised => if attempt == maxAttempts then Some(Finish(ExecutionFailed, Error, attempt)) else None
    case Cancelled =>
      Some(Finish(WasCancelled, if replies == [] then Error else Seen(replies[|replies| - 1]), attempt))
  }

  predicate Retriable(reply: Reply) {
    reply.TimedOut? || reply.Raised?
  }

  /** What a finished loop means: it stopped at the first reply that is not retriable, or used every attempt,
      and what it returns or raises, what it audits and how many attempts it counts all describe that reply. */
  ghost predicate Settles(replies: seq<Reply>, maxAttempts: int, f: Finish) {
    && 1 <= f.attempts <= maxAttempts && f.attempts <= |replies|
    && (forall i :: 0 <= i < f.attempts - 1 ==> Retriable(replies[i]))
    && match replies[f.attempts - 1]
       case Valid(value) => f.ending == Returned(value) && f.outcome == Success
       case TimedOut => f.attempts == maxAttempts && f.ending == ExecutionTimedOut && f.outcome == Timeout
       case NoResult => f.ending == NoValidResult && f.outcome == Error
       case Raised => f.attempts == maxAttempts && f.ending == ExecutionFailed && f.outcome == Error
       case Cancelled =>
         f.ending == WasCancelled &&
         f.outcome == (if f.attempts == 1 then Error else Seen(replies[f.attempts - 2]))
  }

  /** The loop's answer is a function of the handler's replies. */
  lemma SettlesOneWay(replies: seq<Reply>, maxAttempts: int, f: Finish, g: Finish)
    requires Settles(replies, maxAttempts, f) && Settles(replies, maxAttempts, g)
    ensures f == g
  {
  }

  lemma ReactSettles(replies: seq<Reply>, reply: Reply, maxAttempts: int)
    requires |replies| < maxAttempts
    requires forall i :: 0 <= i < |replies| ==> Retriable(replies[i])
    ensures
      match React(replies, reply, maxAttempts)
      case Some(f) => Settles(replies + [reply], maxAttempts, f) && f.attempts == |replies| + 1
      case None => Retriable(reply) && |replies| + 1 < maxAttempts
  {
  }

  // ---- The gateway as interleaved steps ----

  datatype Admission = Admission(at: real, id: nat)

  /** What the run has seen so far: kept for stating properties, never consulted by the steps. */
  datatype Log = Log(
    calls: map<nat, Call>, executions: map<nat, nat>, heard: map<nat, seq<Reply>>, finished: map<nat, Finish>,
    audited: seq<nat>, admitted: map<string, seq<Admission>>)

  datatype State = State(
    config: Config, tools: map<string, Tool>, requests: map<string, seq<real>>, audit: seq<AuditRecord>,
    flights: map<nat, Flight>, clock: real, log: Log)

  datatype Event =
    | Register(name: string, tool: Tool)
    | Start(id: nat, call: Call, now: real)
    | Resume(id: nat, reply: Reply)

  function Initial(config: Config): State {
    State(config, map[], map[], [], map[], 0.0, Log(map[], map[], map[], map[], [], map[]))
  }

  /** The `finally` block: one record per finished invocation, unless its arguments had no fingerprint. */
  function End(s: State, id: nat, call: Call, f: Finish): State {
    var log := s.log.(finished := s.log.finished[id := f]);
    if call.fingerprint.None? then s.(flights := s.flights - {id}, log := log)
    else
      s.(flights := s.flights - {id}, audit := s.audit + [Record(call, f.outcome, f.attempts)],
         log := log.(audited := log.audited + [id]))
  }

  function AdmissionsOf(admitted: map<string, seq<Admission>>, key: string): seq<Admission> {
    if key in admitted then admitted[key] else []
  }

  predicate Admits(s: State, call: Call, now: real) {
    && call.fingerprint.Some? && Authorised(s.tools, call)
    && RateLimiter.Check(s.requests, Key(call.subject, call.tool), now, s.config.window, s.config.rateLimit).0
  }

  /** The call is known and screened; an admission is remembered even if its arguments turn out invalid. */
  function Enrol(s: State, id: nat, call: Call, now: real): State {
    var key := Key(call.subject, call.tool);
    var admitted := if Admits(s, call, now)
      then s.log.admitted[key := AdmissionsOf(s.log.admitted, key) + [Admission(now, id)]]
      else s.log.admitted;
    s.(requests := Screen(s.config, s.tools, s.requests, call, now).1, clock := now,
       log := s.log.(calls := s.log.calls[id := call], executions := s.log.executions[id := 0],
                      heard := s.log.heard[id := []], admitted := admitted))
  }

  /** The first await of the handler. */
  function Launch(s: State, id: nat, call: Call): State {
    s.(flights := s.flights[id := Flight(call, [])],
       log := s.log.(executions := s.log.executions[id := Executions(s.log, id) + 1]))
  }

  function Begin(s: State, id: nat, call: Call, now: real): State {
    match Screen(s.config, s.tools, s.requests, call, now).0
    case Refused(ending, outcome) => End(Enrol(s, id, call, now), id, call, Finish(ending, outcome, 0))
    case Cleared => Launch(Enrol(s, id, call, now), id, call)
  }

  function Executions(log: Log, id: nat): nat {
    if id in log.executions then log.executions[id] else 0
  }

  function Continue(s: State, id: nat, reply: Reply): State
    requires id in s.flights
  {
    var flight := s.flights[id];
    var heard := s.log.heard[id := flight.replies + [reply]];
    match React(flight.replies, reply, s.config.maxAttempts)
    case Some(f) => End(s.(log := s.log.(heard := heard)), id, flight.call, f)
    case None =>
      s.(flights := s.flights[id := Flight(flight.call, flight.replies + [reply])],
         log := s.log.(heard := heard, executions := s.log.executions[id := Executions(s.log, id) + 1]))
  }

  /** Everything between two awaits of one invocation happens in one step. */
  function Step(s: State, e: Event): State {
    match e
    case Register(name, tool) => if name in s.tools then s else s.(tools := s.tools[name := tool])
    case Start(id, call, now) => if id in s.log.calls || now < s.clock then s else Begin(s, id, call, now)
    case Resume(id, reply) => if id in s.flights then Continue(s, id, reply) else s
  }

  function Run(s: State, events: seq<Event>): State {
    if events == [] then s else Step(Run(s, events[..|events| - 1]), events[|events| - 1])
  }

  // ---- The invariant ----

  ghost predicate Distinct(ids: seq<nat>) {
    forall i, j :: 0 <= i < j < |ids| ==> ids[i] != ids[j]
  }

  /** A call that got as far as its handler had passed every check and been admitted by the limiter. */
  ghost predicate RanLegally(s: State, id: nat)
    requires id in s.log.calls
  {
    var call := s.log.calls[id];
    && Authorised(s.tools, call) && call.argumentsValid && call.fingerprint.Some?
    && exists a :: a in AdmissionsOf(s.log.admitted, Key(call.subject, call.tool)) && a.id == id
  }

  ghost predicate FlightOk(s: State, id: nat)
    requires id in s.flights
  {
    var replies := s.flights[id].replies;
    && id in s.log.calls && s.flights[id].call == s.log.calls[id]
    && id in s.log.executions && s.log.executions[id] == |replies| + 1 <= s.config.maxAttempts
    && (forall i :: 0 <= i < |replies| ==> Retriable(replies[i]))
    && RanLegally(s, id)
    && id in s.log.heard && s.log.heard[id] == replies
  }

  /** A call refused before its handler ran: no attempt, and the outcome that goes with the refusal. */
  predicate Refusal(f: Finish) {
    f.attempts == 0 &&
    match f.ending
    case ToolNotFound => f.outcome == Denied
    case AccessDenied => f.outcome == Denied
    case InvalidArguments => f.outcome == Invalid
    case NotSerialisable => f.outcome == Error
    case _ => false
  }

  /** A finished call either was refused, or ran its handler legally and ended as its replies say. */
  ghost predicate Explained(s: State, id: nat)
    requires id in s.log.finished && id in s.log.calls
  {
    || Refusal(s.log.finished[id])
    || (RanLegally(s, id) && id in s.log.heard && Settles(s.log.heard[id], s.config.maxAttempts, s.log.finished[id]))
  }

  ghost predicate FinishOk(s: State, id: nat)
    requires id in s.log.finished
  {
    && id in s.log.calls && id !in s.flights
    && id in s.log.executions && s.log.executions[id] == s.log.finished[id].attempts
    && s.log.executions[id] <= s.config.maxAttempts
    && Explained(s, id)
    && (id in s.log.audited <==> s.log.calls[id].fingerprint.Some?)
  }

  ghost predicate CallOk(s: State, id: nat) {
    && (id in s.flights ==> FlightOk(s, id))
    && (id in s.log.finished ==> FinishOk(s, id))
    && (id in s.log.calls ==> id in s.flights || id in s.log.finished)
    && (id in s.log.executions ==> id in s.log.calls)
  }

  ghost predicate AuditOk(s: State, i: nat)
    requires i < |s.audit| == |s.log.audited|
  {
    var id := s.log.audited[i];
    && id in s.log.finished && id in s.log.calls && s.log.calls[id].fingerprint.Some?
    && s.audit[i] == Record(s.log.calls[id], s.log.finished[id].outcome, s.log.finished[id].attempts)
  }

  ghost predicate Inv(s: State) {
    && |s.audit| == |s.log.audited| && Distinct(s.log.audited)
    && (forall i :: 0 <= i < |s.audit| ==> AuditOk(s, i))
    && (forall id :: CallOk(s, id))
  }

  /** The invocation an event belongs to. */
  predicate Concerns(e: Event, id: nat) {
    !e.Register? && e.id == id
  }

  ghost predicate Untouched(s: State, t: State, id: nat) {
    && (id in s.flights <==> id in t.flights) && (id in s.flights ==> t.flights[id] == s.flights[id])
    && (id in s.log.calls <==> id in t.log.calls) && (id in s.log.calls ==> t.log.calls[id] == s.log.calls[id])
    && (id in s.log.finished <==> id in t.log.finished)
    && (id in s.log.finished ==> t.log.finished[id] == s.log.finished[id])
    && (id in s.log.executions <==> id in t.log.executions)
    && (id in s.log.executions ==> t.log.executions[id] == s.log.executions[id])
    && (id in s.log.heard ==> id in t.log.heard && t.log.heard[id] == s.log.heard[id])
  }

  lemma EnrolTouchesOne(s: State, own: nat, call: Call, now: real, id: nat)
    requires id != own
    ensures Untouched(s, Enrol(s, own, call, now), id)
  {
  }

  lemma EndTouchesOne(s: State, own: nat, call: Call, f: Finish, id: nat)
    requires id != own
    ensures Untouched(s, End(s, own, call, f), id)
  {
  }

  lemma BeginTouchesOne(s: State, own: nat, call: Call, now: real, id: nat)
    requires id != own
    ensures Untouched(s, Begin(s, own, call, now), id)
  {
    EnrolTouchesOne(s, own, call, now, id);
    var f := Screen(s.config, s.tools, s.requests, call, now).0;
    if f.Refused? {
      EndTouchesOne(Enrol(s, own, call, now), own, call, Finish(f.ending, f.outcome, 0), id);
    }
  }

  lemma ContinueTouchesOne(s: State, own: nat, reply: Reply, id: nat)
    requires id != own && own in s.flights
    ensures Untouched(s, Continue(s, own, reply), id)
  {
    var flight := s.flights[own];
    var f := React(flight.replies, reply, s.config.maxAttempts);
    if f.Some? {
      var heard := s.(log := s.log.(heard := s.log.heard[own := flight.replies + [reply]]));
      EndTouchesOne(heard, own, flight.call, f.value, id);
    }
  }

  lemma OthersUntouched(s: State, e: Event, id: nat)
    requires !Concerns(e, id)
    ensures Untouched(s, Step(s, e), id)
  {
    match e
    case Register(_, _) =>
    case Start(own, call, now) =>
      if own !in s.log.calls && now >= s.clock {
        BeginTouchesOne(s, own, call, now, id);
      }
    case Resume(own, reply) =>
      if own in s.flights {
        ContinueTouchesOne(s, own, reply, id);
      }
  }

  lemma OthersAuditUntouched(s: State, e: Event, id: nat)
    requires !Concerns(e, id)
    ensures id in s.log.audited <==> id in Step(s, e).log.audited
  {
    AuditOnlyGrows(s, e);
  }

  lemma AdmissionsGrow(s: State, e: Event, k: string, a: Admission)
    requires a in AdmissionsOf(s.log.admitted, k)
    ensures a in AdmissionsOf(Step(s, e).log.admitted, k)
  {
    match e
    case Register(_, _) =>
    case Start(id, call, now) =>
      if id !in s.log.calls && now >= s.clock {
        assert a in AdmissionsOf(Enrol(s, id, call, now).log.admitted, k);
      }
    case Resume(_, _) =>
  }

  lemma PermissionsGrow(s: State, e: Event)
    ensures
      var t := Step(s, e);
      && t.config == s.config
      && (forall n :: n in s.tools ==> n in t.tools && t.tools[n] == s.tools[n])
      && (forall k, a :: a in AdmissionsOf(s.log.admitted, k) ==> a in AdmissionsOf(t.log.admitted, k))
  {
    forall k, a | a in AdmissionsOf(s.log.admitted, k) ensures a in AdmissionsOf(Step(s, e).log.admitted, k) {
      AdmissionsGrow(s, e, k, a);
    }
  }

  /** No audit record is ever changed or dropped, and one step writes at most one. */
  lemma AuditOnlyGrows(s: State, e: Event)
    ensures
      var t := Step(s, e);
      || (t.audit == s.audit && t.log.audited == s.log.audited)
      || (!e.Register? && t.log.audited == s.log.audited + [e.id] &&
          |t.audit| == |s.audit| + 1 && t.audit[..|s.audit|] == s.audit && e.id in t.log.finished)
  {
    hide Record, Screen, React, Admits;
  }

  lemma StillLegal(s: State, t: State, id: nat)
    requires id in s.log.calls && id in t.log.calls && t.log.calls[id] == s.log.calls[id] && RanLegally(s, id)
    requires forall n :: n in s.tools ==> n in t.tools && t.tools[n] == s.tools[n]
    requires forall k, a :: a in AdmissionsOf(s.log.admitted, k) ==> a in AdmissionsOf(t.log.admitted, k)
    ensures RanLegally(t, id)
  {
    var key := Key(s.log.calls[id].subject, s.log.calls[id].tool);
    var a :| a in AdmissionsOf(s.log.admitted, key) && a.id == id;
    assert a in AdmissionsOf(t.log.admitted, key);
  }

  lemma NotAudited(s: State, id: nat)
    requires Inv(s) && id !in s.log.finished
    ensures id !in s.log.audited
  {
    assert forall i :: 0 <= i < |s.audit| && s.log.audited[i] == id ==> AuditOk(s, i);
  }

  lemma BeginFlightOk(s: State, id: nat, call: Call, now: real)
    requires Inv(s) && id !in s.log.calls && id !in s.flights && id in Begin(s, id, call, now).flights
    ensures FlightOk(Begin(s, id, call, now), id)
  {
    var t := Begin(s, id, call, now);
    var key := Key(call.subject, call.tool);
    assert AdmissionsOf(t.log.admitted, key)[|AdmissionsOf(s.log.admitted, key)|] == Admission(now, id);
  }

  lemma EndOk(s: State, id: nat, call: Call, f: Finish)
    requires id in s.log.calls && s.log.calls[id] == call && id !in s.log.audited
    requires id in s.log.executions && s.log.executions[id] == f.attempts <= s.config.maxAttempts
    requires
      || Refusal(f)
      || (RanLegally(s, id) && id in s.log.heard && Settles(s.log.heard[id], s.config.maxAttempts, f))
    ensures FinishOk(End(s, id, call, f), id)
  {
    hide Record, Settles, Authorised;
    var t := End(s, id, call, f);
    assert t.log.audited == s.log.audited || t.log.audited[|s.log.audited|] == id;
    if !Refusal(f) {
      StillLegal(s, t, id);
    }
  }

  lemma BeginFinishOk(s: State, id: nat, call: Call, now: real)
    requires Inv(s) && id !in s.flights && id !in s.log.finished && id in Begin(s, id, call, now).log.finished
    ensures FinishOk(Begin(s, id, call, now), id)
  {
    NotAudited(s, id);
    var f := Screen(s.config, s.tools, s.requests, call, now).0;
    EndOk(Enrol(s, id, call, now), id, call, Finish(f.ending, f.outcome, 0));
  }

  lemma BeginOk(s: State, id: nat, call: Call, now: real)
    requires Inv(s) && id !in s.log.calls && now >= s.clock
    ensures CallOk(Begin(s, id, call, now), id)
  {
    assert CallOk(s, id);
    if id in Begin(s, id, call, now).flights {
      BeginFlightOk(s, id, call, now);
    }
    if id in Begin(s, id, call, now).log.finished {
      BeginFinishOk(s, id, call, now);
    }
  }

  lemma ContinueOk(s: State, id: nat, reply: Reply)
    requires Inv(s) && id in s.flights
    ensures CallOk(Continue(s, id, reply), id)
  {
    assert CallOk(s, id);
    var t := Continue(s, id, reply);
    ReactSettles(s.flights[id].replies, reply, s.config.maxAttempts);
    StillLegal(s, t, id);
    NotAudited(s, id);
    var flight := s.flights[id];
    var f := React(flight.replies, reply, s.config.maxAttempts);
    if f.Some? {
      var heard := s.(log := s.log.(heard := s.log.heard[id := flight.replies + [reply]]));
      StillLegal(s, heard, id);
      EndOk(heard, id, flight.call, f.value);
    }
  }

  lemma OwnCallOk(s: State, e: Event, id: nat)
    requires Inv(s) && Concerns(e, id)
    ensures CallOk(Step(s, e), id)
  {
    match e
    case Start(_, call, now) =>
      if id !in s.log.calls && now >= s.clock {
        BeginOk(s, id, call, now);
      }
    case Resume(_, reply) =>
      if id in s.flights {
        ContinueOk(s, id, reply);
      }
  }

  lemma OtherCallOk(s: State, e: Event, id: nat)
    requires Inv(s) && !Concerns(e, id)
    ensures CallOk(Step(s, e), id)
  {
    OthersUntouched(s, e, id);
    OthersAuditUntouched(s, e, id);
    assert CallOk(s, id);
    PermissionsGrow(s, e);
    if id in s.flights {
      StillLegal(s, Step(s, e), id);
    } else if id in s.log.finished {
      if !Refusal(s.log.finished[id]) {
        StillLegal(s, Step(s, e), id);
      }
    }
  }

  lemma OldRecordStays(s: State, e: Event, i: nat)
    requires Inv(s) && i < |s.audit| && Step(s, e) != s
    requires |Step(s, e).audit| == |Step(s, e).log.audited|
    ensures i < |Step(s, e).audit| && AuditOk(Step(s, e), i) && !Concerns(e, s.log.audited[i])
  {
    AuditOnlyGrows(s, e);
    var id := s.log.audited[i];
    assert AuditOk(s, i) && CallOk(s, id);
    assert !Concerns(e, id);
    OthersUntouched(s, e, id);
  }

  lemma AuditStaysOk(s: State, e: Event)
    requires Inv(s)
    ensures
      var t := Step(s, e);
      && |t.audit| == |t.log.audited| && Distinct(t.log.audited)
      && forall i :: 0 <= i < |t.audit| ==> AuditOk(t, i)
  {
    var t := Step(s, e);
    if t != s {
      AuditOnlyGrows(s, e);
      forall i | 0 <= i < |s.audit| ensures AuditOk(t, i) && !Concerns(e, s.log.audited[i]) {
        OldRecordStays(s, e, i);
      }
      if |t.audit| > |s.audit| {
        NewRecordOk(s, e);
      }
    }
  }

  lemma NewRecordOk(s: State, e: Event)
    requires Inv(s) && |Step(s, e).audit| > |s.audit| && |Step(s, e).audit| == |Step(s, e).log.audited|
    ensures AuditOk(Step(s, e), |s.audit|)
  {
    if e.Resume? && e.id in s.flights {
      assert CallOk(s, e.id);
    }
  }

  lemma StepKeepsInv(s: State, e: Event)
    requires Inv(s)
    ensures Inv(Step(s, e))
  {
    AuditStaysOk(s, e);
    PermissionsGrow(s, e);
    forall id: nat
      ensures CallOk(Step(s, e), id)
    {
      if Concerns(e, id) {
        OwnCallOk(s, e, id);
      } else {
        OtherCallOk(s, e, id);
      }
    }
  }

  lemma {:induction false} RunKeepsInv(config: Config, events: seq<Event>)
    ensures Inv(Run(Initial(config), events)) && Run(Initial(config), events).config == config
  {
    if events != [] {
      var n := |events| - 1;
      RunKeepsInv(config, events[..n]);
      StepKeepsInv(Run(Initial(config), events[..n]), events[n]);
      PermissionsGrow(Run(Initial(config), events[..n]), events[n]);
    }
  }

  // ---- What every run guarantees ----

  /** Every finished invocation has exactly one audit record, saying how it ended and how often its handler ran,
      except one whose arguments could not be fingerprinted, which has none. */
  lemma AuditedOnceUnlessUnfingerprinted(config: Config, events: seq<Event>, id: nat)
    requires id in Run(Initial(config), events).log.finished
    ensures
      var s := Run(Initial(config), events);
      && id in s.log.calls && |s.audit| == |s.log.audited| && Distinct(s.log.audited)
      && (id in s.log.audited <==> s.log.calls[id].fingerprint.Some?)
      && forall i :: 0 <= i < |s.audit| && s.log.audited[i] == id ==>
           Describes(s.audit[i], s.log.calls[id], s.log.finished[id].outcome, Executions(s.log, id))
  {
    RunKeepsInv(config, events);
    var s := Run(Initial(config), events);
    assert CallOk(s, id);
    forall i | 0 <= i < |s.audit| && s.log.audited[i] == id
      ensures Describes(s.audit[i], s.log.calls[id], s.log.finished[id].outcome, Executions(s.log, id))
    {
      assert AuditOk(s, i);
    }
  }

  lemma UnstrippedExactly(s: string)
    ensures Strip(s) == s <==> Trimmed(s)
  {
    var lo, hi := StripBounds(s);
    if Trimmed(s) {
      StripOfTrimmed(s);
    }
  }

  /** A record names the tool that was called exactly when the name has no white space at either end. */
  lemma RecordNamesToolExactly(config: Config, events: seq<Event>, i: nat)
    requires i < |Run(Initial(config), events).audit|
    ensures
      var s := Run(Initial(config), events);
      && |s.log.audited| == |s.audit| && s.log.audited[i] in s.log.calls
      && (s.audit[i].tool == s.log.calls[s.log.audited[i]].tool <==> Trimmed(s.log.calls[s.log.audited[i]].tool))
  {
    hide Strip, Trimmed;
    RunKeepsInv(config, events);
    var s := Run(Initial(config), events);
    assert AuditOk(s, i);
    UnstrippedExactly(s.log.calls[s.log.audited[i]].tool);
  }

  /** A cancelled call is audited with what the attempt before it left: as an error exactly when there was none or it
      raised, and as a timeout exactly when it timed out. */
  lemma CancelledRepeatsOutcome(config: Config, events: seq<Event>, id: nat)
    requires id in Run(Initial(config), events).log.finished
    requires Run(Initial(config), events).log.finished[id].ending == WasCancelled
    ensures
      var s := Run(Initial(config), events);
      var f := s.log.finished[id];
      && id in s.log.heard && 1 <= f.attempts <= |s.log.heard[id]|
      && (f.outcome == Timeout <==> f.attempts > 1 && s.log.heard[id][f.attempts - 2].TimedOut?)
      && (f.outcome == Error <==> f.attempts == 1 || s.log.heard[id][f.attempts - 2].Raised?)
  {
    hide Run, Step, RanLegally, AuditOk, Record;
    RunKeepsInv(config, events);
    var s := Run(Initial(config), events);
    assert CallOk(s, id) && Settles(s.log.heard[id], config.maxAttempts, s.log.finished[id]);
  }

  /** A timeout, then a cancellation: the trail records a timeout. */
  lemma CancelledIsAuditedAsTimeout()
    ensures
      var call := Call("t", "s", "payments", {}, "r", Some("f"), true);
      var events := [Register("t", Tool({"payments"}, {})), Start(0, call, 0.0),
                     Resume(0, TimedOut), Resume(0, Cancelled)];
      Run(Initial(Config(2, 1, 1.0)), events).audit == [AuditRecord("r", "s", "payments", "t", "f", Timeout, 2)]
  {
    var call := Call("t", "s", "payments", {}, "r", Some("f"), true);
    var e, f := Register("t", Tool({"payments"}, {})), Start(0, call, 0.0);
    var s := Initial(Config(2, 1, 1.0));
    FourSteps(s, e, f, Resume(0, TimedOut), Resume(0, Cancelled));
    hide Step, Strip;
    FirstCallLaunched(call);
    TimeoutThenCancelled(Step(Step(s, e), f), call);
    ShortTexts();
  }

  lemma FourSteps(s: State, e: Event, f: Event, g: Event, h: Event)
    ensures Run(s, [e, f, g, h]) == Step(Step(Step(Step(s, e), f), g), h)
  {
    hide Step;
    assert [e, f, g, h][..3] == [e, f, g] && [e, f, g][..2] == [e, f] && [e, f][..1] == [e] && [e][..0] == [];
    assert Run(s, [e]) == Step(s, e);
    assert Run(s, [e, f]) == Step(Run(s, [e]), f);
    assert Run(s, [e, f, g]) == Step(Run(s, [e, f]), g);
  }

  lemma FirstCallLaunched(call: Call)
    requires call == Call("t", "s", "payments", {}, "r", Some("f"), true)
    ensures
      var s := Step(Initial(Config(2, 1, 1.0)), Register("t", Tool({"payments"}, {})));
      var t := Step(s, Start(0, call, 0.0));
      && t.config.maxAttempts == 2 && t.audit == [] && 0 in t.flights && t.flights[0] == Flight(call, [])
  {
  }

  lemma TimeoutThenCancelled(s: State, call: Call)
    requires s.config.maxAttempts == 2 && 0 in s.flights && s.flights[0] == Flight(call, []) && call.fingerprint.Some?
    ensures Step(Step(s, Resume(0, TimedOut)), Resume(0, Cancelled)).audit == s.audit + [Record(call, Timeout, 2)]
  {
    hide Record;
    var t := Step(s, Resume(0, TimedOut));
    assert t.flights[0] == Flight(call, [TimedOut]);
  }

  lemma ShortTexts()
    ensures Strip("r") == "r" && Strip("s") == "s" && Strip("payments") == "payments" && Strip("t") == "t"
    ensures Strip("f") == "f"
  {
    hide Strip;
    StripOfTrimmed("r");
    StripOfTrimmed("s");
    StripOfTrimmed("payments");
    StripOfTrimmed("t");
    StripOfTrimmed("f");
  }

  /** The trail at any moment is a prefix of the trail at any later one. */
  lemma {:induction false} AuditIsAppendOnly(s: State, events: seq<Event>, n: nat)
    requires n <= |events|
    ensures Run(s, events[..n]).audit <= Run(s, events).audit
  {
    if n == |events| {
      assert events[..n] == events;
    } else {
      var m := |events| - 1;
      AuditIsAppendOnly(s, events[..m], n);
      assert events[..m][..n] == events[..n];
      AuditOnlyGrows(Run(s, events[..m]), events[m]);
    }
  }

  /** A handler runs only for a call that passed every check, at most maxAttempts times, and a finished call
      was refused without running or ended exactly as its replies say. */
  lemma HandlersRunOnlyWhenCleared(config: Config, events: seq<Event>, id: nat)
    requires id in Run(Initial(config), events).log.calls
    ensures
      var s := Run(Initial(config), events);
      && Executions(s.log, id) <= config.maxAttempts
      && (Executions(s.log, id) > 0 ==> RanLegally(s, id))
      && (id in s.log.finished ==> s.log.finished[id].attempts == Executions(s.log, id) && Explained(s, id))
  {
    RunKeepsInv(config, events);
    var s := Run(Initial(config), events);
    assert CallOk(s, id);
  }

  /** Such a call does occur: its arguments cannot be serialised, and it ends without a trace in the trail. */
  lemma UnfingerprintedCallIsNotAudited(config: Config, call: Call)
    requires call.fingerprint.None?
    ensures
      var s := Run(Initial(config), [Start(0, call, 0.0)]);
      0 in s.log.finished && s.log.finished[0] == Finish(NotSerialisable, Error, 0) && s.audit == []
  {
    var events := [Start(0, call, 0.0)];
    assert events[..0] == [];
    assert Run(Initial(config), events) == Step(Initial(config), events[0]);
  }

  /** A call screened in state s ended at once, for the first check it failed there, or was passed to its handler and,
      if it has ended, ended as the replies say. */
  ghost predicate NamesTheCheck(s: State, call: Call, now: real, t: State, id: nat) {
    && id in t.log.calls && t.log.calls[id] == call
    && if Admits(s, call, now) && call.argumentsValid then
         && Executions(t.log, id) >= 1
         && (id in t.log.finished ==>
               id in t.log.heard && Settles(t.log.heard[id], t.config.maxAttempts, t.log.finished[id]))
       else
         && Executions(t.log, id) == 0 && id in t.log.finished && Refusal(t.log.finished[id])
         && var ending := t.log.finished[id].ending;
         && (ending == NotSerialisable <==> call.fingerprint.None?)
         && (ending == ToolNotFound <==> call.fingerprint.Some? && call.tool !in s.tools)
         && (ending == AccessDenied <==> call.fingerprint.Some? && call.tool in s.tools && !Admits(s, call, now))
         && (ending == InvalidArguments <==> Admits(s, call, now))
  }

  lemma RefusedNamesTheCheck(s: State, id: nat, call: Call, now: real)
    requires Screen(s.config, s.tools, s.requests, call, now).0.Refused?
    ensures NamesTheCheck(s, call, now, Begin(s, id, call, now), id)
  {
    hide RateLimiter.Check, Settles, Record, Key, AdmissionsOf;
    var t := Enrol(s, id, call, now);
    assert Executions(t.log, id) == 0;
  }

  lemma ClearedNamesTheCheck(s: State, id: nat, call: Call, now: real)
    requires id !in s.log.finished && Screen(s.config, s.tools, s.requests, call, now).0.Cleared?
    ensures NamesTheCheck(s, call, now, Begin(s, id, call, now), id)
  {
    hide RateLimiter.Check, Settles, Record, Key, AdmissionsOf;
  }

  lemma BeginNamesTheCheck(s: State, id: nat, call: Call, now: real)
    requires id !in s.log.finished
    ensures NamesTheCheck(s, call, now, Begin(s, id, call, now), id)
  {
    hide Screen, NamesTheCheck, Begin;
    if Screen(s.config, s.tools, s.requests, call, now).0.Refused? {
      RefusedNamesTheCheck(s, id, call, now);
    } else {
      ClearedNamesTheCheck(s, id, call, now);
    }
  }

  lemma StepKeepsName(s: State, call: Call, now: real, t: State, id: nat, e: Event)
    requires Inv(t) && NamesTheCheck(s, call, now, t, id)
    ensures NamesTheCheck(s, call, now, Step(t, e), id)
  {
    hide Settles;
    assert CallOk(t, id);
    if Concerns(e, id) {
      OwnCallOk(t, e, id);
      assert e.Resume? && id in t.flights ==> Executions(Step(t, e).log, id) >= 1;
    } else {
      OthersUntouched(t, e, id);
      PermissionsGrow(t, e);
    }
  }

  /** In every interleaving, whatever follows: the ending names the check that failed when the call was screened at
      step k, and only a call that passed them all has its handler executed. */
  lemma {:induction false} EndingNamesTheCheck(config: Config, events: seq<Event>, k: nat,
                                               id: nat, call: Call, now: real)
    requires k < |events| && events[k] == Start(id, call, now)
    requires var s := Run(Initial(config), events[..k]); id !in s.log.calls && now >= s.clock
    ensures NamesTheCheck(Run(Initial(config), events[..k]), call, now, Run(Initial(config), events), id)
  {
    hide NamesTheCheck, Begin;
    var m := |events| - 1;
    RunKeepsInv(config, events[..m]);
    if m == k {
      assert CallOk(Run(Initial(config), events[..k]), id);
      BeginNamesTheCheck(Run(Initial(config), events[..k]), id, call, now);
    } else {
      assert events[..m][..k] == events[..k];
      EndingNamesTheCheck(config, events[..m], k, id, call, now);
      StepKeepsName(Run(Initial(config), events[..k]), call, now, Run(Initial(config), events[..m]), id, events[m]);
    }
  }

  // ---- The rate limit over a run ----

  function Times(admissions: seq<Admission>): seq<real> {
    seq(|admissions|, i requires 0 <= i < |admissions| => admissions[i].at)
  }

  ghost predicate Bounded(times: seq<real>, deque: seq<real>, clock: real, window: real, limit: int) {
    && RateLimiter.Tracks(times, deque, clock, window)
    && Admitted(RateLimiter.Ones(times), window, limit as real)
  }

  function TimesOf(s: State, key: string): seq<real> {
    Times(AdmissionsOf(s.log.admitted, key))
  }

  ghost predicate KeyWithin(s: State, key: string) {
    Bounded(TimesOf(s, key), RateLimiter.Stamps(s.requests, key), s.clock, s.config.window, s.config.rateLimit)
  }

  lemma BoundedLater(times: seq<real>, deque: seq<real>, clock: real, now: real, window: real, limit: int)
    requires Bounded(times, deque, clock, window, limit) && clock <= now
    ensures Bounded(times, deque, now, window, limit)
  {
  }

  lemma BoundedCheck(times: seq<real>, requests: map<string, seq<real>>, key: string,
                     clock: real, now: real, window: real, limit: int)
    requires Bounded(times, RateLimiter.Stamps(requests, key), clock, window, limit) && clock <= now
    ensures
      var (allowed, after) := RateLimiter.Check(requests, key, now, window, limit);
      Bounded(if allowed then times + [now] else times, RateLimiter.Stamps(after, key), now, window, limit)
  {
    RateLimiter.CheckMatchesScan(times, requests, key, clock, now, window, limit);
    if RateLimiter.Check(requests, key, now, window, limit).0 {
      RateLimiter.AppendAdmits(times, clock, now, window, limit);
    }
  }

  /** Screening touches the deque and the admissions of the caller's own key only, and only past the role check. */
  lemma EnrolledLedger(s: State, id: nat, call: Call, now: real, key: string)
    ensures
      var t := Enrol(s, id, call, now);
      if call.fingerprint.Some? && Authorised(s.tools, call) && key == Key(call.subject, call.tool) then
        var (allowed, after) := RateLimiter.Check(s.requests, key, now, s.config.window, s.config.rateLimit);
        && RateLimiter.Stamps(t.requests, key) == RateLimiter.Stamps(after, key)
        && TimesOf(t, key) == if allowed then TimesOf(s, key) + [now] else TimesOf(s, key)
      else
        RateLimiter.Stamps(t.requests, key) == RateLimiter.Stamps(s.requests, key) && TimesOf(t, key) == TimesOf(s, key)
  {
    var t := Enrol(s, id, call, now);
    if Admits(s, call, now) && key == Key(call.subject, call.tool) {
      assert TimesOf(t, key) == TimesOf(s, key) + [now];
    }
  }

  lemma BeginKeepsEnrolledLedger(s: State, id: nat, call: Call, now: real)
    ensures
      var t, u := Begin(s, id, call, now), Enrol(s, id, call, now);
      && t.requests == u.requests && t.log.admitted == u.log.admitted
      && t.clock == now && t.config == s.config
  {
  }

  lemma ContinueKeepsLedger(s: State, id: nat, reply: Reply)
    requires id in s.flights
    ensures
      var t := Continue(s, id, reply);
      && t.requests == s.requests && t.log.admitted == s.log.admitted
      && t.clock == s.clock && t.config == s.config
  {
  }

  lemma StepKeepsWithin(s: State, e: Event, key: string)
    requires KeyWithin(s, key)
    ensures KeyWithin(Step(s, e), key)
  {
    match e
    case Register(_, _) =>
    case Start(id, call, now) =>
      if id !in s.log.calls && now >= s.clock {
        BeginKeepsEnrolledLedger(s, id, call, now);
        EnrolledLedger(s, id, call, now, key);
        BoundedCheck(TimesOf(s, key), s.requests, key, s.clock, now, s.config.window, s.config.rateLimit);
        BoundedLater(TimesOf(s, key), RateLimiter.Stamps(s.requests, key), s.clock, now,
                     s.config.window, s.config.rateLimit);
      }
    case Resume(id, reply) =>
      if id in s.flights {
        ContinueKeepsLedger(s, id, reply);
      }
  }

  lemma {:induction false} RunKeepsWithin(config: Config, events: seq<Event>, key: string)
    ensures KeyWithin(Run(Initial(config), events), key)
  {
    if events != [] {
      RunKeepsWithin(config, events[..|events| - 1], key);
      StepKeepsWithin(Run(Initial(config), events[..|events| - 1]), events[|events| - 1], key);
    }
  }

  /** Each admission, charged with the handler runs it led to. */
  function Charges(log: Log, admissions: seq<Admission>): seq<Entry> {
    seq(|admissions|, i requires 0 <= i < |admissions| =>
      Entry(admissions[i].at, Executions(log, admissions[i].id) as real))
  }

  lemma RunsPerCall(config: Config, events: seq<Event>, id: nat)
    ensures Executions(Run(Initial(config), events).log, id) <= config.maxAttempts
  {
    RunKeepsInv(config, events);
    assert CallOk(Run(Initial(config), events), id);
  }

  lemma ChargesScale(log: Log, admissions: seq<Admission>, m: int, p: real -> bool)
    requires forall i :: 0 <= i < |admissions| ==> Executions(log, admissions[i].id) <= m
    ensures Total(Pick(Charges(log, admissions), p))
         <= Scaled(m as real, RateLimiter.Count(Times(admissions), p) as real)
  {
    var ones, charges := RateLimiter.Ones(Times(admissions)), Charges(log, admissions);
    RateLimiter.CountIsTotal(Times(admissions), p);
    forall i | 0 <= i < |ones|
      ensures ones[i].at == charges[i].at && charges[i].cost <= Scaled(m as real, ones[i].cost)
    {
      assert Executions(log, admissions[i].id) <= m;
      assert ones[i].cost == 1.0;
    }
    hide Total, Pick, Scaled;
    ScaledTotal(ones, charges, m as real, p);
  }

  lemma ScaleBound(m: real, x: real, y: real)
    requires m >= 0.0 && x <= y
    ensures Scaled(m, x) <= Scaled(m, y)
  {
    assert m * (y - x) >= 0.0;
  }

  lemma ChargesBounded(log: Log, admissions: seq<Admission>, limit: int, m: int, p: real -> bool)
    requires m >= 0 && RateLimiter.Count(Times(admissions), p) <= limit
    requires forall i :: 0 <= i < |admissions| ==> Executions(log, admissions[i].id) <= m
    ensures Total(Pick(Charges(log, admissions), p)) <= Scaled(m as real, limit as real)
  {
    hide Total, Pick, Scaled, RateLimiter.Count, Charges, Times;
    ChargesScale(log, admissions, m, p);
    ScaleBound(m as real, RateLimiter.Count(Times(admissions), p) as real, limit as real);
  }

  /** In any window of any run, one key is admitted at most rateLimit times. */
  lemma AtMostLimitAdmittedPerWindow(config: Config, events: seq<Event>, key: string, p: real -> bool)
    requires Within(p, config.window)
    ensures RateLimiter.Count(TimesOf(Run(Initial(config), events), key), p) <= config.rateLimit
  {
    var s := Run(Initial(config), events);
    ConfigIsFixed(Initial(config), events);
    RunKeepsWithin(config, events, key);
    RateLimiter.CountWithin(TimesOf(s, key), s.clock, config.window, config.rateLimit, p);
  }

  lemma {:induction false} ConfigIsFixed(s: State, events: seq<Event>)
    ensures Run(s, events).config == s.config
  {
    if events != [] {
      ConfigIsFixed(s, events[..|events| - 1]);
      PermissionsGrow(Run(s, events[..|events| - 1]), events[|events| - 1]);
    }
  }

  /** All the handler runs ever led to by one window's admissions for a key are at most rateLimit * maxAttempts. */
  lemma WindowBoundsHandlerRuns(config: Config, events: seq<Event>, key: string, p: real -> bool)
    requires Within(p, config.window)
    ensures
      var s := Run(Initial(config), events);
      Total(Pick(Charges(s.log, AdmissionsOf(s.log.admitted, key)), p))
        <= Scaled(config.maxAttempts as real, config.rateLimit as real)
  {
    hide Total, Pick, Scaled, RateLimiter.Count, Charges, Times, Run, Executions;
    var s := Run(Initial(config), events);
    var admissions := AdmissionsOf(s.log.admitted, key);
    AtMostLimitAdmittedPerWindow(config, events, key, p);
    forall i | 0 <= i < |admissions| ensures Executions(s.log, admissions[i].id) <= config.maxAttempts {
      RunsPerCall(config, events, admissions[i].id);
    }
    ChargesBounded(s.log, admissions, config.rateLimit, config.maxAttempts, p);
  }

  // ---- Keys ----

  /** Some pair of different callers or tools shares a limiter key exactly when one tool's name
      is another's preceded by something and a colon. */
  lemma KeysCollideOnlyThroughColons(t: string, u: string)
    ensures
      (exists s, v :: s != "" && v != "" && (s, t) != (v, u) && |t| <= |u| && Key(s, t) == Key(v, u))
      <==> (exists p :: u == p + ":" + t)
  {
    if s, v :| s != "" && v != "" && (s, t) != (v, u) && |t| <= |u| && Key(s, t) == Key(v, u) {
      CollisionSplitsName(s, t, v, u);
    }
    if p :| u == p + ":" + t {
      var s := "x:" + p;
      assert Key(s, t) == "x:" + p + ":" + t;
      assert Key("x", u) == "x" + ":" + (p + ":" + t) == "x:" + p + ":" + t;
      assert (s, t) != ("x", u);
    }
  }

  lemma CollisionSplitsName(s: string, t: string, v: string, u: string)
    requires (s, t) != (v, u) && |t| <= |u| && Key(s, t) == Key(v, u)
    ensures exists p :: u == p + ":" + t
  {
    var k := Key(s, t);
    assert |s| + |t| == |v| + |u|;
    assert k[|s| + 1..] == t && k[|v| + 1..] == u;
    assert k[..|s|] == s;
    assert k[..|v|] == v;
    var d := |u| - |t| - 1;
    assert u[d] == k[|s|] == ':';
    assert u == u[..d] + ":" + t by {
      assert u[d + 1..] == t;
      assert u == u[..d] + [u[d]] + u[d + 1..];
    }
  }

  // ---- The gateway object, one invocation at a time ----

  class GovernedMcpGateway {
    const config: Config
    var tools: map<string, Tool>
    var requests: map<string, seq<real>>
    var audit: seq<AuditRecord>

    constructor (config: Config)
      ensures this.config == config && tools == map[] && requests == map[] && audit == []
    {
      this.config := config;
      tools, requests, audit := map[], map[], [];
    }

    /** Refuses a name already taken. */
    method RegisterTool(name: string, tool: Tool) returns (registered: bool)
      modifies this`tools
      ensures registered == (name !in old(tools))
      ensures tools == if registered then old(tools)[name := tool] else old(tools)
    {
      registered := name !in tools;
      if registered {
        tools := tools[name := tool];
      }
    }

    method CheckRateLimit(subject: string, tool: string, now: real) returns (allowed: bool)
      modifies this`requests
      ensures (allowed, requests) ==
        RateLimiter.Check(old(requests), Key(subject, tool), now, config.window, config.rateLimit)
    {
      var key := Key(subject, tool);
      var live := RateLimiter.PopExpired(RateLimiter.Stamps(requests, key), now - config.window);
      allowed := |live| < config.rateLimit;
      requests := if allowed then requests[key := live + [now]] else requests[key := live];
    }

    /** Everything before the handler is first awaited. */
    method ScreenCall(call: Call, now: real) returns (screening: Screening)
      modifies this`requests
      ensures (screening, requests) == Screen(config, tools, old(requests), call, now)
    {
      if call.fingerprint.None? {
        return Refused(NotSerialisable, Error);
      }
      if call.tool !in tools {
        return Refused(ToolNotFound, Denied);
      }
      var registration := tools[call.tool];
      if call.agent !in registration.allowedAgents {
        return Refused(AccessDenied, Denied);
      }
      if !(registration.requiredRoles <= call.roles) {
        return Refused(AccessDenied, Denied);
      }
      var allowed := CheckRateLimit(call.subject, call.tool, now);
      if !allowed {
        return Refused(AccessDenied, Denied);
      }
      if !call.argumentsValid {
        return Refused(InvalidArguments, Invalid);
      }
      return Cleared;
    }

    /** The retry loop; replies[i] is what the handler's run number i + 1 would come to. */
    method RunHandler(replies: seq<Reply>) returns (f: Finish)
      requires |replies| >= config.maxAttempts
      ensures Settles(replies, config.maxAttempts, f)
    {
      var attempts := 0;
      var outcome := Error;
      while attempts < config.maxAttempts
        invariant 0 <= attempts <= config.maxAttempts
        invariant forall i :: 0 <= i < attempts ==> Retriable(replies[i])
        invariant outcome == if attempts == 0 then Error else Seen(replies[attempts - 1])
        invariant attempts == config.maxAttempts ==> replies[attempts - 1].TimedOut?
      {
        attempts := attempts + 1;
        match replies[attempts - 1] {
          case Valid(value) =>
            return Finish(Returned(value), Success, attempts);
          case TimedOut =>
            outcome := Timeout;
          case NoResult =>
            return Finish(NoValidResult, Error, attempts);
          case Raised =>
            outcome := Error;
            if attempts == config.maxAttempts {
              return Finish(ExecutionFailed, Error, attempts);
            }
          case Cancelled =>
            return Finish(WasCancelled, outcome, attempts);
        }
      }
      return Finish(ExecutionTimedOut, outcome, attempts);
    }

    method Invoke(call: Call, now: real, replies: seq<Reply>) returns (f: Finish)
      requires |replies| >= config.maxAttempts
      modifies this`requests, this`audit
      ensures requests == Screen(config, tools, old(requests), call, now).1
      ensures
        match Screen(config, tools, old(requests), call, now).0
        case Refused(ending, outcome) => f == Finish(ending, outcome, 0)
        case Cleared => Settles(replies, config.maxAttempts, f)
      ensures call.fingerprint.None? ==> audit == old(audit)
      ensures call.fingerprint.Some? ==>
        && |audit| == |old(audit)| + 1 && audit[..|old(audit)|] == old(audit)
        && Describes(audit[|old(audit)|], call, f.outcome, f.attempts)
    {
      var screening := ScreenCall(call, now);
      match screening {
        case Refused(ending, outcome) => f := Finish(ending, outcome, 0);
        case Cleared => f := RunHandler(replies);
      }
      if call.fingerprint.Some? {
        audit := audit + [Record(call, f.outcome, f.attempts)];
      }
    }
  }
}
