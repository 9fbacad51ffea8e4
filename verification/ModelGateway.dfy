/** The model gateway: allowlist, PII and content-safety guards, one budget reservation, then the provider under
    retry, with any number of generations interleaved at their awaits. */
module ModelGateway {
  import opened Wrappers
  import SlidingWindow
  import TenantBudget
  import Pricing
  import Rounding

  /** What the PII analyzer can raise: the two errors that the retry loop would catch, or any other. */
  datatype ScanError = ScanTimeout | ScanProviderFailure | ScanCrash

  datatype ScanVerdict = Clean(text: string) | PiiBlocked | Raises(error: ScanError)

  datatype Finding = Finding(category: string, severity: int)

  /** The answer to one awaited safety check. */
  datatype SafetyReply = Findings(findings: seq<Finding>) | Unavailable | CheckCancelled

  datatype Request = Request(model: string, messages: seq<string>, tenant: string, maxTokens: nat)

  /** The answer to one awaited provider call. */
  datatype ProviderReply =
    | Raw(content: string, model: string, usage: Pricing.Usage)
    | TimedOut
    | ProviderFailure
    | Crash
    | CallCancelled

  /** `scan` is the PII guard (the identity when not configured); `thresholds` the safety policy, if configured. */
  datatype Gateway = Gateway(
    allowed: set<string>, limits: TenantBudget.Limits, prices: Pricing.Prices, maxAttempts: int,
    scan: string -> ScanVerdict, thresholds: Option<map<string, int>>)

  datatype Completion = Completion(content: string, model: string, usage: Pricing.Usage, cost: real)

  datatype Telemetry = Success | Error | Timeout | ProviderError | PiiBlock | SafetyBlock

  datatype Ending =
    | Returned(completion: Completion)
    | NotAllowed
    | RequestPiiBlocked
    | RequestScanFailed(error: ScanError)
    | RequestUnsafe
    | OverBudget
    | ResultPiiBlocked
    | ResultUnsafe
    | ProviderFailed
    | TimedOutAtLast
    | Crashed
    | Cancelled

  /** Telemetry is recorded only once the reservation has been made. */
  datatype Finish = Finish(ending: Ending, telemetry: Option<Telemetry>)

  // ---- The guards ----

  function SanitizeAll(scan: string -> ScanVerdict, messages: seq<string>): Option<seq<string>> {
    if messages == [] then Some([])
    else
      var n := |messages| - 1;
      match (SanitizeAll(scan, messages[..n]), scan(messages[n]))
      case (Some(texts), Clean(text)) => Some(texts + [text])
      case _ => None
  }

  /** Sanitising succeeds exactly when every message scans clean, and yields the clean texts in order. */
  lemma {:induction false} SanitizeAllMeaning(scan: string -> ScanVerdict, messages: seq<string>, texts: seq<string>)
    ensures SanitizeAll(scan, messages) == Some(texts) <==>
      |texts| == |messages| && forall i :: 0 <= i < |messages| ==> scan(messages[i]) == Clean(texts[i])
  {
    if messages != [] {
      var n := |messages| - 1;
      if |texts| == |messages| {
        SanitizeAllMeaning(scan, messages[..n], texts[..n]);
        assert texts == texts[..n] + [texts[n]];
      } else if SanitizeAll(scan, messages[..n]).Some? {
        SanitizeAllMeaning(scan, messages[..n], SanitizeAll(scan, messages[..n]).value);
      }
    }
  }

  /** The first verdict that is not clean, if any. */
  function FirstUnclean(scan: string -> ScanVerdict, messages: seq<string>): Option<ScanVerdict> {
    if messages == [] then None
    else
      var n := |messages| - 1;
      var earlier := FirstUnclean(scan, messages[..n]);
      if earlier.Some? then earlier else if scan(messages[n]).Clean? then None else Some(scan(messages[n]))
  }

  /** A message whose scan is not clean, after messages that all scan clean. */
  ghost predicate StopsAt(scan: string -> ScanVerdict, messages: seq<string>, i: nat, verdict: ScanVerdict) {
    && i < |messages| && scan(messages[i]) == verdict && !verdict.Clean?
    && forall j :: 0 <= j < i ==> scan(messages[j]).Clean?
  }

  /** Either the messages sanitise, or the scan stops at the first message that is not clean, with its verdict. */
  lemma {:induction false} FirstUncleanMeaning(scan: string -> ScanVerdict, messages: seq<string>)
    ensures FirstUnclean(scan, messages) == None <==> SanitizeAll(scan, messages).Some?
    ensures FirstUnclean(scan, messages).Some? ==>
      exists i: nat :: StopsAt(scan, messages, i, FirstUnclean(scan, messages).value)
  {
    if messages != [] {
      var n := |messages| - 1;
      FirstUncleanMeaning(scan, messages[..n]);
      match FirstUnclean(scan, messages[..n])
      case Some(verdict) =>
        var i: nat :| StopsAt(scan, messages[..n], i, verdict);
        StopsInPrefix(scan, messages, n, i, verdict);
      case None =>
        SanitizeAllMeaning(scan, messages[..n], SanitizeAll(scan, messages[..n]).value);
        forall j | 0 <= j < n ensures scan(messages[j]).Clean? {
          assert messages[..n][j] == messages[j];
        }
        var last := scan(messages[n]);
        if !last.Clean? {
          assert StopsAt(scan, messages, n, last);
        }
    }
  }

  lemma StopsInPrefix(scan: string -> ScanVerdict, messages: seq<string>, n: nat, i: nat, verdict: ScanVerdict)
    requires n <= |messages| && StopsAt(scan, messages[..n], i, verdict)
    ensures StopsAt(scan, messages, i, verdict)
  {
    forall j | 0 <= j < i ensures scan(messages[j]).Clean? {
      assert messages[..n][j] == messages[j];
    }
  }

  lemma {:induction false} FirstUncleanStays(scan: string -> ScanVerdict, messages: seq<string>, n: nat)
    requires n <= |messages| && FirstUnclean(scan, messages[..n]).Some?
    ensures FirstUnclean(scan, messages) == FirstUnclean(scan, messages[..n])
  {
    if n == |messages| {
      assert messages[..n] == messages;
    } else {
      var m := |messages| - 1;
      assert messages[..m][..n] == messages[..n];
      FirstUncleanStays(scan, messages[..m], n);
    }
  }

  /** How a request that does not sanitise ends: an analyzer's own exception reaches the caller as it is. */
  function Unscanned(verdict: ScanVerdict): Ending
    requires !verdict.Clean?
  {
    if verdict.Raises? then RequestScanFailed(verdict.error) else RequestPiiBlocked
  }

  /** What an attempt comes to once the provider's text is scanned: the scan runs inside the same `try`, so an exception
      it raises is caught, or not, as the provider's would be. */
  function Attempted(g: Gateway, answer: ProviderReply): ProviderReply {
    if !answer.Raw? then answer
    else match g.scan(answer.content)
      case Raises(ScanTimeout) => TimedOut
      case Raises(ScanProviderFailure) => ProviderFailure
      case Raises(ScanCrash) => Crash
      case _ => answer
  }

  function Threshold(thresholds: map<string, int>, category: string): int {
    if category in thresholds then thresholds[category] else 8
  }

  predicate Passes(thresholds: map<string, int>, reply: SafetyReply) {
    && reply.Findings?
    && forall i :: 0 <= i < |reply.findings| ==>
         reply.findings[i].severity < Threshold(thresholds, reply.findings[i].category)
  }

  /** A finding at or above its category's threshold. Severities go from 0 to 7, so a category without a threshold has
      no harmful finding. */
  ghost predicate Harmful(thresholds: map<string, int>, f: Finding) {
    if f.category in thresholds then f.severity >= thresholds[f.category] else f.severity >= 8
  }

  /** The check was answered, and with no harmful finding. */
  ghost predicate Safe(thresholds: map<string, int>, reply: SafetyReply) {
    reply.Findings? && forall f :: f in reply.findings ==> !Harmful(thresholds, f)
  }

  lemma PassesExactly(thresholds: map<string, int>, reply: SafetyReply)
    ensures Passes(thresholds, reply) <==> Safe(thresholds, reply)
  {
    if reply.Findings? && Safe(thresholds, reply) {
      forall i | 0 <= i < |reply.findings|
        ensures reply.findings[i].severity < Threshold(thresholds, reply.findings[i].category)
      {
        assert reply.findings[i] in reply.findings;
      }
    }
  }

  /** The first non-empty text at or after `from`: empty texts are never sent for checking. */
  function NextText(texts: seq<string>, from: nat): nat
    decreases |texts| - from
  {
    if from >= |texts| then |texts| else if texts[from] != "" then from else NextText(texts, from + 1)
  }

  function NonEmpty(texts: seq<string>): seq<string> {
    if texts == [] then []
    else
      var n := |texts| - 1;
      NonEmpty(texts[..n]) + if texts[n] == "" then [] else [texts[n]]
  }

  lemma {:induction false} NextTextSkipsOnlyEmpty(texts: seq<string>, from: nat)
    requires from <= |texts|
    ensures
      var i := NextText(texts, from);
      && from <= i <= |texts|
      && NonEmpty(texts[..i]) == NonEmpty(texts[..from])
      && (i < |texts| ==> texts[i] != "" && NonEmpty(texts[..i + 1]) == NonEmpty(texts[..from]) + [texts[i]])
    decreases |texts| - from
  {
    if from < |texts| {
      assert texts[..from + 1][..from] == texts[..from];
      if texts[from] == "" {
        NextTextSkipsOnlyEmpty(texts, from + 1);
      }
    }
  }

  lemma NonEmptyStep(texts: seq<string>, i: nat)
    requires i < |texts|
    ensures NonEmpty(texts[..i + 1]) == NonEmpty(texts[..i]) + if texts[i] == "" then [] else [texts[i]]
  {
    assert texts[..i + 1][..i] == texts[..i];
  }

  function Length(texts: seq<string>): nat {
    if texts == [] then 0 else Length(texts[..|texts| - 1]) + |texts[|texts| - 1]|
  }

  /** A quarter of the characters, but never none; with the completion cap, what is reserved for. */
  function Preflight(request: Request): Pricing.Usage {
    var quarter := Length(request.messages) / 4;
    Pricing.Usage(if quarter < 1 then 1 else quarter, request.maxTokens)
  }

  // ---- One generation, between its awaits ----

  /** Where a generation stands. `request` is the sanitised request; `outcome` what telemetry would now report.
      AtBudget is never observed between steps. */
  datatype Stage =
    | CheckingRequest(request: Request, index: nat)
    | AtBudget(request: Request)
    | Calling(request: Request, attempt: nat, outcome: Telemetry)
    | CheckingResult(request: Request, attempt: nat, outcome: Telemetry, raw: ProviderReply, text: string)
    | Done(finish: Finish)

  /** What a generation has done and been told so far, consulted by no step: the amounts reserved, the messages each
      provider call was shown, the texts that passed the safety check, the provider's and the safety service's
      answers, and the budget's verdict. */
  datatype Generation = Generation(
    submitted: Request, stage: Stage, paid: seq<real>, sent: seq<seq<string>>, cleared: seq<string>,
    heard: seq<ProviderReply>, checked: seq<SafetyReply>, verdict: Option<TenantBudget.Verdict>)

  function Fresh(request: Request): Generation {
    Generation(request, Done(Finish(NotAllowed, None)), [], [], [], [], [], None)
  }

  function EndWith(c: Generation, ending: Ending, telemetry: Option<Telemetry>): Generation {
    c.(stage := Done(Finish(ending, telemetry)))
  }

  function CallProvider(c: Generation, request: Request, attempt: nat, outcome: Telemetry): Generation {
    c.(stage := Calling(request, attempt, outcome), sent := c.sent + [request.messages])
  }

  /** Goes on to the next text to check, or to the budget when none is left. */
  function Advance(g: Gateway, c: Generation, request: Request, from: nat): Generation {
    var i := NextText(request.messages, from);
    c.(stage := if g.thresholds.None? || i >= |request.messages| then AtBudget(request)
                else CheckingRequest(request, i))
  }

  function Open(g: Gateway, request: Request): Generation {
    var c := Fresh(request);
    if request.model !in g.allowed then c
    else match SanitizeAll(g.scan, request.messages)
      case None =>
        FirstUncleanMeaning(g.scan, request.messages);
        EndWith(c, Unscanned(FirstUnclean(g.scan, request.messages).value), None)
      case Some(messages) => Advance(g, c, request.(messages := messages), 0)
  }

  function Complete(g: Gateway, c: Generation, raw: ProviderReply, text: string): Generation
    requires raw.Raw?
  {
    EndWith(c, Returned(Completion(text, raw.model, raw.usage, Pricing.Estimate(g.prices, raw.model, raw.usage))),
            Some(Success))
  }

  function OnSafety(g: Gateway, c: Generation, reply: SafetyReply): Generation {
    var passed := g.thresholds.Some? && Passes(g.thresholds.value, reply);
    var d := c.(checked := c.checked + [reply]);
    match c.stage
    case CheckingRequest(request, i) =>
      if passed && i < |request.messages| then
        Advance(g, d.(cleared := d.cleared + [request.messages[i]]), request, i + 1)
      else EndWith(d, if reply.CheckCancelled? then Cancelled else RequestUnsafe, None)
    case CheckingResult(_, _, outcome, raw, text) =>
      if passed && raw.Raw? then Complete(g, d.(cleared := d.cleared + [text]), raw, text)
      else if reply.CheckCancelled? then EndWith(d, Cancelled, Some(outcome))
      else EndWith(d, ResultUnsafe, Some(SafetyBlock))
    case _ => c
  }

  function OnProvider(g: Gateway, c: Generation, answer: ProviderReply): Generation
    requires c.stage.Calling?
  {
    var Calling(request, attempt, outcome) := c.stage;
    var d := c.(heard := c.heard + [answer]);
    match Attempted(g, answer)
    case Raw(content, _, _) => (
      match g.scan(content)
      case Clean(text) =>
        if g.thresholds.None? || text == "" then Complete(g, d, answer, text)
        else d.(stage := CheckingResult(request, attempt, outcome, answer, text))
      case _ => EndWith(d, ResultPiiBlocked, Some(PiiBlock)))
    case TimedOut =>
      if attempt < g.maxAttempts then CallProvider(d, request, attempt + 1, Timeout)
      else EndWith(d, TimedOutAtLast, Some(Timeout))
    case ProviderFailure =>
      if attempt == g.maxAttempts then EndWith(d, ProviderFailed, Some(ProviderError))
      else CallProvider(d, request, attempt + 1, ProviderError)
    case Crash => EndWith(d, Crashed, Some(outcome))
    case CallCancelled => EndWith(d, Cancelled, Some(outcome))
  }

  // ---- Any number of generations, interleaved ----

  datatype Reservation = Reservation(id: nat, tenant: string, at: real, amount: real)

  datatype State = State(
    accepted: map<string, seq<SlidingWindow.Entry>>, clock: real, calls: map<nat, Generation>,
    reserved: seq<Reservation>)

  datatype Event =
    | Submit(id: nat, request: Request, now: real)
    | SafetyAnswer(id: nat, reply: SafetyReply, now: real)
    | ProviderAnswer(id: nat, answer: ProviderReply)

  const INITIAL := State(map[], 0.0, map[], [])

  function Quote(g: Gateway, request: Request): real {
    Pricing.Estimate(g.prices, request.model, Preflight(request))
  }

  /** The reservation made, the first provider call starts. */
  function FirstCall(g: Gateway, c: Generation): Generation
    requires c.stage.AtBudget?
  {
    CallProvider(c.(paid := c.paid + [Quote(g, c.stage.request)], verdict := Some(TenantBudget.Reserved)),
                 c.stage.request, 1, Error)
  }

  /** The budget check, the reservation and the first provider call, with no await between them. */
  function ReserveAndCall(g: Gateway, s: State, id: nat, c: Generation, now: real): State
    requires c.stage.AtBudget?
  {
    var request := c.stage.request;
    var amount := Quote(g, request);
    var (verdict, accepted) := TenantBudget.Reserve(g.limits, s.accepted, request.tenant, now, amount);
    var d := c.(verdict := Some(verdict));
    if verdict != TenantBudget.Reserved then
      s.(clock := now, calls := s.calls[id := EndWith(d, OverBudget, None)])
    else
      State(accepted, now, s.calls[id := CallProvider(d.(paid := d.paid + [amount]), request, 1, Error)],
            s.reserved + [Reservation(id, request.tenant, now, amount)])
  }

  function Store(g: Gateway, s: State, id: nat, c: Generation, now: real): State {
    if c.stage.AtBudget? then ReserveAndCall(g, s, id, c, now) else s.(clock := now, calls := s.calls[id := c])
  }

  /** Everything between two awaits of one generation happens in one step. */
  function Step(g: Gateway, s: State, e: Event): State {
    match e
    case Submit(id, request, now) =>
      if id in s.calls || now < s.clock then s else Store(g, s, id, Open(g, request), now)
    case SafetyAnswer(id, reply, now) =>
      if id in s.calls && now >= s.clock then Store(g, s, id, OnSafety(g, s.calls[id], reply), now) else s
    case ProviderAnswer(id, answer) =>
      if id in s.calls && s.calls[id].stage.Calling? then
        s.(calls := s.calls[id := OnProvider(g, s.calls[id], answer)])
      else s
  }

  function Run(g: Gateway, events: seq<Event>): State {
    if events == [] then INITIAL else Step(g, Run(g, events[..|events| - 1]), events[|events| - 1])
  }

  // ---- What holds of each generation ----

  /** Both request guards are behind it: allowed model, sanitised messages, and, when safety is on,
      the non-empty ones before `upTo` checked in order. */
  ghost predicate Guarded(g: Gateway, c: Generation, request: Request, upTo: nat) {
    && c.submitted.model in g.allowed
    && SanitizeAll(g.scan, c.submitted.messages) == Some(request.messages)
    && request == c.submitted.(messages := request.messages)
    && upTo <= |request.messages|
    && c.cleared == if g.thresholds.Some? then NonEmpty(request.messages[..upTo]) else []
  }

  /** One reservation at the quoted price, then between one and maxAttempts provider calls,
      each shown the sanitised messages and nothing else. */
  ghost predicate Charged(g: Gateway, c: Generation, request: Request) {
    && c.paid == [Quote(g, request)]
    && 1 <= |c.sent| <= g.maxAttempts
    && forall i :: 0 <= i < |c.sent| ==> c.sent[i] == request.messages
  }

  predicate Unpaid(c: Generation) {
    c.paid == [] && c.sent == [] && c.heard == []
  }

  predicate Retriable(g: Gateway, answer: ProviderReply) {
    Attempted(g, answer).TimedOut? || Attempted(g, answer).ProviderFailure?
  }

  /** What telemetry would report after these answers, all of them retriable. */
  function Lingering(g: Gateway, heard: seq<ProviderReply>): Telemetry {
    if heard == [] then Error else if Attempted(g, heard[|heard| - 1]).TimedOut? then Timeout else ProviderError
  }

  ghost predicate PassedUpTo(g: Gateway, c: Generation, n: nat) {
    && g.thresholds.Some? && n <= |c.checked|
    && forall i :: 0 <= i < n ==> Safe(g.thresholds.value, c.checked[i])
  }

  /** Every safety answer so far let its text pass. */
  ghost predicate AllPassed(g: Gateway, c: Generation) {
    |c.checked| == |c.cleared| && (c.checked != [] ==> PassedUpTo(g, c, |c.checked|))
  }

  /** The latest safety answer did not let its text pass, and every one before it did. */
  ghost predicate LastFailed(g: Gateway, c: Generation) {
    && |c.checked| == |c.cleared| + 1 && PassedUpTo(g, c, |c.cleared|)
    && !Safe(g.thresholds.value, c.checked[|c.cleared|])
  }

  /** Some message's check failed, after every non-empty message before it had passed. */
  ghost predicate FailedText(g: Gateway, c: Generation) {
    && c.submitted.model in g.allowed && c.verdict == None && LastFailed(g, c)
    && match SanitizeAll(g.scan, c.submitted.messages)
       case None => false
       case Some(messages) =>
         exists i :: 0 <= i < |messages| && messages[i] != "" && c.cleared == NonEmpty(messages[..i])
  }

  /** The ending of a call refused before it reached the provider names the guard that refused it, and every guard
      before that one had passed. */
  ghost predicate RefusedOk(g: Gateway, c: Generation, ending: Ending) {
    && Unpaid(c)
    && match ending
       case NotAllowed =>
         c.submitted.model !in g.allowed && c.checked == [] && c.cleared == [] && c.verdict == None
       case RequestPiiBlocked =>
         && c.submitted.model in g.allowed && FirstUnclean(g.scan, c.submitted.messages) == Some(PiiBlocked)
         && c.checked == [] && c.cleared == [] && c.verdict == None
       case RequestScanFailed(error) =>
         && c.submitted.model in g.allowed && FirstUnclean(g.scan, c.submitted.messages) == Some(Raises(error))
         && c.checked == [] && c.cleared == [] && c.verdict == None
       case RequestUnsafe => FailedText(g, c) && !c.checked[|c.cleared|].CheckCancelled?
       case Cancelled => FailedText(g, c) && c.checked[|c.cleared|].CheckCancelled?
       case OverBudget =>
         && c.verdict.Some? && c.verdict.value != TenantBudget.Reserved && AllPassed(g, c)
         && (match SanitizeAll(g.scan, c.submitted.messages)
             case None => false
             case Some(messages) => Guarded(g, c, c.submitted.(messages := messages), |messages|))
       case _ => false
  }

  /** The ending of a call that reached the provider is the one its last answer calls for: a scanned and checked
      completion of what the provider said, priced at the provider's model and usage, or the failure that answer is. A
      timeout or provider failure ends the call at the last attempt only. */
  ghost predicate Answered(g: Gateway, c: Generation, messages: seq<string>, f: Finish)
    requires c.heard != []
  {
    var n := |c.heard| - 1;
    var base := if g.thresholds.Some? then NonEmpty(messages) else [];
    match Attempted(g, c.heard[n])
    case Raw(content, model, usage) => (
      match g.scan(content)
      case Clean(text) =>
        var completion := Completion(text, model, usage, Pricing.Estimate(g.prices, model, usage));
        var done := Finish(Returned(completion), Some(Success));
        if g.thresholds.None? || text == "" then AllPassed(g, c) && c.cleared == base && f == done
        else if |c.checked| == |c.cleared| then AllPassed(g, c) && c.cleared == base + [text] && f == done
        else
          && LastFailed(g, c) && c.cleared == base
          && f == if c.checked[|c.cleared|].CheckCancelled? then Finish(Cancelled, Some(Lingering(g, c.heard[..n])))
                  else Finish(ResultUnsafe, Some(SafetyBlock))
      case _ => AllPassed(g, c) && c.cleared == base && f == Finish(ResultPiiBlocked, Some(PiiBlock)))
    case TimedOut =>
      AllPassed(g, c) && c.cleared == base && n + 1 == g.maxAttempts && f == Finish(TimedOutAtLast, Some(Timeout))
    case ProviderFailure =>
      AllPassed(g, c) && c.cleared == base && n + 1 == g.maxAttempts && f == Finish(ProviderFailed, Some(ProviderError))
    case Crash =>
      AllPassed(g, c) && c.cleared == base && f == Finish(Crashed, Some(Lingering(g, c.heard[..n])))
    case CallCancelled =>
      AllPassed(g, c) && c.cleared == base && f == Finish(Cancelled, Some(Lingering(g, c.heard[..n])))
  }

  /** Reserved once at the quoted price; one answer per provider call, all but the last retriable. */
  ghost predicate PlayedOk(g: Gateway, c: Generation, f: Finish) {
    && c.submitted.model in g.allowed && c.verdict == Some(TenantBudget.Reserved)
    && c.heard != [] && |c.heard| == |c.sent|
    && (forall i :: 0 <= i < |c.heard| - 1 ==> Retriable(g, c.heard[i]))
    && match SanitizeAll(g.scan, c.submitted.messages)
       case None => false
       case Some(messages) =>
         Charged(g, c, c.submitted.(messages := messages)) && Answered(g, c, messages, f)
  }

  ghost predicate FinishOk(g: Gateway, c: Generation, f: Finish) {
    if f.telemetry.None? then RefusedOk(g, c, f.ending) else PlayedOk(g, c, f)
  }

  ghost predicate CallOk(g: Gateway, c: Generation) {
    match c.stage
    case CheckingRequest(request, i) =>
      && Unpaid(c) && c.verdict == None && Guarded(g, c, request, i) && AllPassed(g, c)
      && g.thresholds.Some? && i < |request.messages| && request.messages[i] != ""
    case AtBudget(request) =>
      Unpaid(c) && c.verdict == None && Guarded(g, c, request, |request.messages|) && AllPassed(g, c)
    case Calling(request, attempt, outcome) =>
      && Reserved(g, c, request, attempt)
      && |c.heard| == attempt - 1 && (forall i :: 0 <= i < |c.heard| ==> Retriable(g, c.heard[i]))
      && outcome == Lingering(g, c.heard)
    case CheckingResult(request, attempt, outcome, raw, text) =>
      && Reserved(g, c, request, attempt)
      && |c.heard| == attempt && (forall i :: 0 <= i < attempt - 1 ==> Retriable(g, c.heard[i]))
      && outcome == Lingering(g, c.heard[..attempt - 1])
      && g.thresholds.Some? && text != ""
      && raw.Raw? && c.heard[attempt - 1] == raw && g.scan(raw.content) == Clean(text)
    case Done(f) => FinishOk(g, c, f)
  }

  ghost predicate Reserved(g: Gateway, c: Generation, request: Request, attempt: nat) {
    && Charged(g, c, request) && Guarded(g, c, request, |request.messages|) && AllPassed(g, c)
    && c.verdict == Some(TenantBudget.Reserved) && |c.sent| == attempt
  }

  lemma AdvanceOk(g: Gateway, c: Generation, request: Request, from: nat)
    requires Unpaid(c) && c.verdict == None && Guarded(g, c, request, from) && AllPassed(g, c)
    ensures CallOk(g, Advance(g, c, request, from))
  {
    hide NextText, NonEmpty, SanitizeAll, FirstUnclean, Safe;
    SameChecks(g, c, Advance(g, c, request, from));
    NextTextSkipsOnlyEmpty(request.messages, from);
    assert request.messages[..|request.messages|] == request.messages;
  }

  lemma OpenOk(g: Gateway, request: Request)
    ensures CallOk(g, Open(g, request))
  {
    var c := Fresh(request);
    FirstUncleanMeaning(g.scan, request.messages);
    match SanitizeAll(g.scan, request.messages)
    case None =>
    case Some(messages) =>
      if request.model in g.allowed {
        assert messages[..0] == [];
        AdvanceOk(g, c, request.(messages := messages), 0);
      }
  }

  lemma OneMorePassed(g: Gateway, c: Generation, reply: SafetyReply, text: string)
    requires AllPassed(g, c) && g.thresholds.Some?
    ensures
      if Passes(g.thresholds.value, reply) then
        AllPassed(g, c.(checked := c.checked + [reply], cleared := c.cleared + [text]))
      else LastFailed(g, c.(checked := c.checked + [reply]))
  {
    hide Passes, Safe;
    PassesExactly(g.thresholds.value, reply);
  }

  lemma RequestCheckOk(g: Gateway, c: Generation, reply: SafetyReply)
    requires CallOk(g, c) && c.stage.CheckingRequest?
    ensures CallOk(g, OnSafety(g, c, reply))
  {
    hide Passes, Safe, Advance, SanitizeAll, AllPassed, LastFailed, FailedText;
    var request, i := c.stage.request, c.stage.index;
    NonEmptyStep(request.messages, i);
    OneMorePassed(g, c, reply, request.messages[i]);
    if Passes(g.thresholds.value, reply) {
      AdvanceOk(g, c.(checked := c.checked + [reply], cleared := c.cleared + [request.messages[i]]), request, i + 1);
      AdvanceStage(g, c, reply);
    } else {
      RequestFailed(g, c, reply);
    }
  }

  lemma RequestFailed(g: Gateway, c: Generation, reply: SafetyReply)
    requires CallOk(g, c) && c.stage.CheckingRequest? && !Passes(g.thresholds.value, reply)
    ensures
      var d := OnSafety(g, c, reply);
      && FailedText(g, d) && d.checked[|d.cleared|] == reply && Unpaid(d)
      && d.stage == Done(Finish(if reply.CheckCancelled? then Cancelled else RequestUnsafe, None))
  {
    hide Passes, Safe, Advance, SanitizeAll, NonEmpty;
    OneMorePassed(g, c, reply, "");
    SameChecks(g, c.(checked := c.checked + [reply]), OnSafety(g, c, reply));
  }

  lemma AdvanceStage(g: Gateway, c: Generation, reply: SafetyReply)
    requires c.stage.CheckingRequest? && g.thresholds.Some? && Passes(g.thresholds.value, reply)
    requires c.stage.index < |c.stage.request.messages|
    ensures
      var request, i := c.stage.request, c.stage.index;
      OnSafety(g, c, reply) ==
        Advance(g, c.(checked := c.checked + [reply], cleared := c.cleared + [request.messages[i]]), request, i + 1)
  {
  }

  lemma ResultPassed(g: Gateway, c: Generation, reply: SafetyReply)
    requires CallOk(g, c) && c.stage.CheckingResult? && Passes(g.thresholds.value, reply)
    ensures CallOk(g, OnSafety(g, c, reply))
  {
    hide Passes, Safe, SanitizeAll, NonEmpty, AllPassed, LastFailed, Lingering;
    var request, text := c.stage.request, c.stage.text;
    assert request.messages[..|request.messages|] == request.messages;
    OneMorePassed(g, c, reply, text);
    var d := OnSafety(g, c, reply);
    SameChecks(g, c.(checked := c.checked + [reply], cleared := c.cleared + [text]), d);
    CheckedCounts(g, d);
  }

  lemma ResultFailed(g: Gateway, c: Generation, reply: SafetyReply)
    requires CallOk(g, c) && c.stage.CheckingResult? && !Passes(g.thresholds.value, reply)
    ensures CallOk(g, OnSafety(g, c, reply))
  {
    hide Passes, Safe, SanitizeAll, NonEmpty, AllPassed, LastFailed, Lingering;
    var request := c.stage.request;
    assert request.messages[..|request.messages|] == request.messages;
    OneMorePassed(g, c, reply, "");
    var d := OnSafety(g, c, reply);
    SameChecks(g, c.(checked := c.checked + [reply]), d);
    CheckedCounts(g, c);
    CheckedCounts(g, d);
  }

  lemma CheckedCounts(g: Gateway, c: Generation)
    ensures AllPassed(g, c) ==> |c.checked| == |c.cleared|
    ensures LastFailed(g, c) ==> |c.checked| == |c.cleared| + 1
  {
  }

  lemma OnSafetyOk(g: Gateway, c: Generation, reply: SafetyReply)
    requires CallOk(g, c)
    ensures CallOk(g, OnSafety(g, c, reply))
  {
    hide Passes, Safe, FinishOk, Reserved, AllPassed, Advance, Complete;
    if c.stage.CheckingRequest? {
      RequestCheckOk(g, c, reply);
    } else if c.stage.CheckingResult? {
      if Passes(g.thresholds.value, reply) {
        ResultPassed(g, c, reply);
      } else {
        ResultFailed(g, c, reply);
      }
    }
  }

  /** The provider's text, with both guards behind it, completes or goes to the safety check. */
  lemma OnTextOk(g: Gateway, c: Generation, answer: ProviderReply)
    requires CallOk(g, c) && c.stage.Calling? && Attempted(g, answer).Raw?
    ensures CallOk(g, OnProvider(g, c, answer)) && !OnProvider(g, c, answer).stage.AtBudget?
  {
    hide CallOk, Answered, Lingering;
    var verdict := g.scan(answer.content);
    if verdict.Clean? && g.thresholds.Some? && verdict.text != "" {
      TextToCheckOk(g, c, answer, verdict.text);
    } else {
      var f := TextAnswered(g, c, answer);
      AnsweredOk(g, c, answer, f);
    }
  }

  lemma TextToCheckOk(g: Gateway, c: Generation, answer: ProviderReply, text: string)
    requires CallOk(g, c) && c.stage.Calling? && answer.Raw? && g.scan(answer.content) == Clean(text)
    requires g.thresholds.Some? && text != ""
    ensures
      var Calling(request, attempt, outcome) := c.stage;
      CallOk(g, c.(heard := c.heard + [answer], stage := CheckingResult(request, attempt, outcome, answer, text)))
  {
    hide Charged, Guarded, SanitizeAll, FirstUnclean, NonEmpty, Quote, Passes, Safe, AllPassed, LastFailed, Lingering;
    var Calling(request, attempt, outcome) := c.stage;
    var d := c.(heard := c.heard + [answer], stage := CheckingResult(request, attempt, outcome, answer, text));
    assert (c.heard + [answer])[..|c.heard|] == c.heard;
    SameChecks(g, c, d);
    SameCharges(g, c, d, request);
    SameGuards(g, c, d, request, |request.messages|);
  }

  /** Guards are the submitted request and the cleared texts alone. */
  lemma SameGuards(g: Gateway, c: Generation, d: Generation, request: Request, upTo: nat)
    requires Guarded(g, c, request, upTo) && c.submitted == d.submitted && c.cleared == d.cleared
    ensures Guarded(g, d, request, upTo)
  {
  }

  lemma TextAnswered(g: Gateway, c: Generation, answer: ProviderReply) returns (f: Finish)
    requires CallOk(g, c) && c.stage.Calling? && Attempted(g, answer).Raw?
    requires !g.scan(answer.content).Clean? || g.thresholds.None? || g.scan(answer.content).text == ""
    ensures f.telemetry.Some? && OnProvider(g, c, answer) == c.(heard := c.heard + [answer], stage := Done(f))
    ensures Answered(g, OnProvider(g, c, answer), c.stage.request.messages, f)
  {
    hide Charged, SanitizeAll, FirstUnclean, NonEmpty, Pricing.Estimate, Quote, Passes, Safe, AllPassed, LastFailed;
    var messages := c.stage.request.messages;
    assert messages[..|messages|] == messages;
    SameChecks(g, c, OnProvider(g, c, answer));
    f := OnProvider(g, c, answer).stage.finish;
  }

  /** Checks are counted by the safety answers and the cleared texts alone. */
  lemma SameChecks(g: Gateway, c: Generation, d: Generation)
    requires c.checked == d.checked && c.cleared == d.cleared
    ensures AllPassed(g, c) <==> AllPassed(g, d)
    ensures LastFailed(g, c) <==> LastFailed(g, d)
  {
  }

  lemma OnRetryOk(g: Gateway, c: Generation, answer: ProviderReply)
    requires CallOk(g, c) && c.stage.Calling? && Retriable(g, answer) && c.stage.attempt < g.maxAttempts
    ensures CallOk(g, OnProvider(g, c, answer)) && !OnProvider(g, c, answer).stage.AtBudget?
  {
    hide SanitizeAll, FirstUnclean, NonEmpty, Pricing.Estimate, Preflight, Passes, Safe, AllPassed, LastFailed;
    var request := c.stage.request;
    assert request.messages[..|request.messages|] == request.messages;
    assert (c.heard + [answer])[..|c.heard|] == c.heard;
    SameChecks(g, c, OnProvider(g, c, answer));
  }

  /** Charges are the reservations and the messages sent alone. */
  lemma SameCharges(g: Gateway, c: Generation, d: Generation, request: Request)
    requires Charged(g, c, request) && c.paid == d.paid && c.sent == d.sent
    ensures Charged(g, d, request) && 1 <= |d.sent| <= g.maxAttempts
  {
  }

  /** A call whose ending is the one its new last answer calls for is sound. */
  lemma AnsweredOk(g: Gateway, c: Generation, answer: ProviderReply, f: Finish)
    requires CallOk(g, c) && c.stage.Calling? && f.telemetry.Some?
    requires Answered(g, c.(heard := c.heard + [answer], stage := Done(f)), c.stage.request.messages, f)
    ensures CallOk(g, c.(heard := c.heard + [answer], stage := Done(f)))
  {
    hide Answered, Charged, SanitizeAll, FirstUnclean, NonEmpty, Passes, Safe, AllPassed, LastFailed, Attempted;
    hide Lingering;
    SameCharges(g, c, c.(heard := c.heard + [answer], stage := Done(f)), c.stage.request);
  }

  lemma OnFailureOk(g: Gateway, c: Generation, answer: ProviderReply)
    requires CallOk(g, c) && c.stage.Calling? && !Attempted(g, answer).Raw?
    requires !(Retriable(g, answer) && c.stage.attempt < g.maxAttempts)
    ensures CallOk(g, OnProvider(g, c, answer)) && !OnProvider(g, c, answer).stage.AtBudget?
  {
    hide CallOk, Answered, Attempted, Lingering;
    var f := FailureAnswered(g, c, answer);
    AnsweredOk(g, c, answer, f);
  }

  lemma FailureAnswered(g: Gateway, c: Generation, answer: ProviderReply) returns (f: Finish)
    requires CallOk(g, c) && c.stage.Calling? && !Attempted(g, answer).Raw?
    requires !(Retriable(g, answer) && c.stage.attempt < g.maxAttempts)
    ensures f.telemetry.Some? && OnProvider(g, c, answer) == c.(heard := c.heard + [answer], stage := Done(f))
    ensures Answered(g, OnProvider(g, c, answer), c.stage.request.messages, f)
  {
    hide Charged, SanitizeAll, FirstUnclean, NonEmpty, Quote, Complete, Attempted, Passes, Safe, AllPassed, LastFailed;
    var d := OnProvider(g, c, answer);
    var messages := c.stage.request.messages;
    assert messages[..|messages|] == messages;
    assert (c.heard + [answer])[..|c.heard|] == c.heard;
    SameCharges(g, c, c, c.stage.request);
    SameChecks(g, c, d);
    f := d.stage.finish;
  }

  lemma OnProviderOk(g: Gateway, c: Generation, answer: ProviderReply)
    requires CallOk(g, c) && c.stage.Calling?
    ensures CallOk(g, OnProvider(g, c, answer)) && !OnProvider(g, c, answer).stage.AtBudget?
  {
    hide CallOk, OnProvider;
    if Attempted(g, answer).Raw? {
      OnTextOk(g, c, answer);
    } else if Retriable(g, answer) && c.stage.attempt < g.maxAttempts {
      OnRetryOk(g, c, answer);
    } else {
      OnFailureOk(g, c, answer);
    }
  }

  lemma PaidOk(g: Gateway, c: Generation)
    requires CallOk(g, c) && c.stage.AtBudget? && g.maxAttempts >= 1
    ensures CallOk(g, FirstCall(g, c))
    ensures forall v :: v != TenantBudget.Reserved ==> CallOk(g, EndWith(c.(verdict := Some(v)), OverBudget, None))
  {
    hide SanitizeAll, NonEmpty, Pricing.Estimate, Preflight, Passes, Safe;
    var request := c.stage.request;
    SameChecks(g, c, FirstCall(g, c));
    forall v | v != TenantBudget.Reserved ensures CallOk(g, EndWith(c.(verdict := Some(v)), OverBudget, None)) {
      SameChecks(g, c, EndWith(c.(verdict := Some(v)), OverBudget, None));
    }
  }

  // ---- The answers determine the ending ----

  /** Two ended calls that submitted the same and were told the same by the budget, the safety service and the provider
      ended the same. */
  lemma AnswersDetermineEnding(g: Gateway, c: Generation, d: Generation, f: Finish, h: Finish)
    requires FinishOk(g, c, f) && FinishOk(g, d, h)
    requires c.submitted == d.submitted && c.heard == d.heard && c.checked == d.checked && c.verdict == d.verdict
    ensures f == h
  {
    hide SanitizeAll, NonEmpty, Pricing.Estimate, Passes, Safe, Lingering;
  }

  // ---- What holds of the whole state ----

  ghost predicate Inv(g: Gateway, s: State) {
    forall id :: id in s.calls ==> CallOk(g, s.calls[id]) && !s.calls[id].stage.AtBudget?
  }

  lemma StoreKeepsInv(g: Gateway, s: State, id: nat, c: Generation, now: real)
    requires Inv(g, s) && CallOk(g, c) && g.maxAttempts >= 1
    ensures Inv(g, Store(g, s, id, c, now))
  {
    hide CallOk, Quote, TenantBudget.Reserve;
    if c.stage.AtBudget? {
      PaidOk(g, c);
    }
  }

  lemma SafetyKeepsInv(g: Gateway, s: State, id: nat, reply: SafetyReply, now: real)
    requires Inv(g, s) && g.maxAttempts >= 1 && id in s.calls
    ensures Inv(g, Store(g, s, id, OnSafety(g, s.calls[id], reply), now))
  {
    OnSafetyOk(g, s.calls[id], reply);
    StoreKeepsInv(g, s, id, OnSafety(g, s.calls[id], reply), now);
  }

  lemma StepKeepsInv(g: Gateway, s: State, e: Event)
    requires Inv(g, s) && g.maxAttempts >= 1
    ensures Inv(g, Step(g, s, e))
  {
    hide CallOk, Open, OnSafety, OnProvider, Store;
    match e
    case Submit(id, request, now) =>
      OpenOk(g, request);
      StoreKeepsInv(g, s, id, Open(g, request), now);
    case SafetyAnswer(id, reply, now) =>
      if id in s.calls && now >= s.clock {
        SafetyKeepsInv(g, s, id, reply, now);
      }
    case ProviderAnswer(id, answer) =>
      if id in s.calls && s.calls[id].stage.Calling? {
        OnProviderOk(g, s.calls[id], answer);
      }
  }

  lemma {:induction false} RunKeepsInv(g: Gateway, events: seq<Event>)
    requires g.maxAttempts >= 1
    ensures Inv(g, Run(g, events))
  {
    if events != [] {
      RunKeepsInv(g, events[..|events| - 1]);
      StepKeepsInv(g, Run(g, events[..|events| - 1]), events[|events| - 1]);
    }
  }

  // ---- What every run guarantees ----

  /** In any interleaving a call that has ended did so as it was told to. Refused before the provider: nothing was
      reserved, and the ending names the guard that refused it, every earlier one having passed. Otherwise: one
      reservation at the quoted price, one answer for each of at most maxAttempts provider calls on exactly the
      sanitised messages, and the ending its last answer calls for; a returned completion is the clean scan of that
      answer's text, passed by the safety check, with the answer's model and usage. */
  lemma EndedCallsAreGuarded(g: Gateway, events: seq<Event>, id: nat)
    requires g.maxAttempts >= 1
    requires var s := Run(g, events); id in s.calls && s.calls[id].stage.Done?
    ensures
      var c := Run(g, events).calls[id];
      FinishOk(g, c, c.stage.finish)
  {
    RunKeepsInv(g, events);
  }

  /** Whenever the provider is shown anything, in any interleaving, it is the sanitised messages of an allowed
      request, every non-empty one of which has passed the safety check, and one reservation has been made. */
  lemma ProviderSeesOnlyGuardedText(g: Gateway, events: seq<Event>, id: nat, i: nat)
    requires g.maxAttempts >= 1
    requires var s := Run(g, events); id in s.calls && i < |s.calls[id].sent|
    ensures
      var c := Run(g, events).calls[id];
      && c.submitted.model in g.allowed && |c.paid| == 1 && |c.sent| <= g.maxAttempts
      && SanitizeAll(g.scan, c.submitted.messages) == Some(c.sent[i])
      && (g.thresholds.Some? ==> NonEmpty(c.sent[i]) <= c.cleared)
  {
    RunKeepsInv(g, events);
    var c := Run(g, events).calls[id];
    assert CallOk(g, c);
    if !c.stage.Done? {
      var messages := c.stage.request.messages;
      assert messages[..|messages|] == messages;
    }
  }

  // ---- What the safety answers allow ----

  lemma {:induction false} NonEmptyHolds(texts: seq<string>, j: nat)
    requires j < |texts| && texts[j] != ""
    ensures texts[j] in NonEmpty(texts)
  {
    if j < |texts| - 1 {
      NonEmptyHolds(texts[..|texts| - 1], j);
    }
  }

  /** Answer k was given for this text, and holds no finding at or above its category's threshold. */
  ghost predicate Vouches(thresholds: map<string, int>, c: Generation, text: string, k: nat) {
    && k < |c.checked| && k < |c.cleared| && c.cleared[k] == text && c.checked[k].Findings?
    && forall f :: f in c.checked[k].findings && f.category in thresholds ==> f.severity < thresholds[f.category]
  }

  lemma ClearedIsVouchedFor(g: Gateway, c: Generation, text: string)
    requires g.thresholds.Some? && text in c.cleared && |c.cleared| <= |c.checked| && PassedUpTo(g, c, |c.cleared|)
    ensures exists k :: Vouches(g.thresholds.value, c, text, k)
  {
    var k :| 0 <= k < |c.cleared| && c.cleared[k] == text;
    assert Safe(g.thresholds.value, c.checked[k]);
    assert Vouches(g.thresholds.value, c, text, k);
  }

  lemma ClearedArePassed(g: Gateway, c: Generation)
    requires CallOk(g, c) && g.thresholds.Some? && c.cleared != []
    ensures |c.cleared| <= |c.checked| && PassedUpTo(g, c, |c.cleared|)
  {
    hide SanitizeAll, FirstUnclean, NonEmpty, Safe, Charged, Quote, Lingering;
  }

  /** In every interleaving, each non-empty message that the provider is shown was answered by the safety service with
      findings, none of them at or above its category's threshold. */
  lemma SentTextsAreSafe(g: Gateway, events: seq<Event>, id: nat, i: nat, j: nat)
    requires g.maxAttempts >= 1 && g.thresholds.Some?
    requires
      var s := Run(g, events);
      id in s.calls && i < |s.calls[id].sent| && j < |s.calls[id].sent[i]| && s.calls[id].sent[i][j] != ""
    ensures
      var c := Run(g, events).calls[id];
      exists k :: Vouches(g.thresholds.value, c, c.sent[i][j], k)
  {
    hide CallOk, Vouches, PassedUpTo, NonEmpty;
    RunKeepsInv(g, events);
    ProviderSeesOnlyGuardedText(g, events, id, i);
    var c := Run(g, events).calls[id];
    NonEmptyHolds(c.sent[i], j);
    assert c.sent[i][j] in c.cleared;
    ClearedArePassed(g, c);
    ClearedIsVouchedFor(g, c, c.sent[i][j]);
  }

  /** And so was the text of a completion that is returned, unless it is empty. */
  lemma ReturnedTextIsSafe(g: Gateway, events: seq<Event>, id: nat)
    requires g.maxAttempts >= 1 && g.thresholds.Some?
    requires
      var s := Run(g, events);
      && id in s.calls && s.calls[id].stage.Done? && s.calls[id].stage.finish.ending.Returned?
      && s.calls[id].stage.finish.ending.completion.content != ""
    ensures
      var c := Run(g, events).calls[id];
      exists k :: Vouches(g.thresholds.value, c, c.stage.finish.ending.completion.content, k)
  {
    hide Run, CallOk, Vouches, PassedUpTo, NonEmpty, SanitizeAll, FirstUnclean, Charged, Quote, Lingering, Safe;
    RunKeepsInv(g, events);
    EndedCallsAreGuarded(g, events, id);
    var c := Run(g, events).calls[id];
    assert c.cleared[|c.cleared| - 1] == c.stage.finish.ending.completion.content;
    ClearedArePassed(g, c);
    ClearedIsVouchedFor(g, c, c.stage.finish.ending.completion.content);
  }

  /** An answer that stops a call: none came, or it holds a finding at or above its category's threshold. */
  ghost predicate Alarming(thresholds: map<string, int>, reply: SafetyReply) {
    || reply.Unavailable?
    || (reply.Findings? && exists f :: f in reply.findings && Harmful(thresholds, f))
  }

  ghost predicate EndedUnsafe(c: Generation) {
    c.stage.Done? && (c.stage.finish.ending.RequestUnsafe? || c.stage.finish.ending.ResultUnsafe?)
  }

  ghost predicate Alarmed(g: Gateway, c: Generation) {
    g.thresholds.Some? && exists k :: 0 <= k < |c.checked| && Alarming(g.thresholds.value, c.checked[k])
  }

  lemma AlarmingIsUnsafe(thresholds: map<string, int>, reply: SafetyReply)
    ensures Safe(thresholds, reply) <==> !Alarming(thresholds, reply) && !reply.CheckCancelled?
    ensures Alarming(thresholds, reply) ==> !reply.CheckCancelled?
  {
  }

  lemma AllPassedIsQuiet(g: Gateway, c: Generation)
    ensures AllPassed(g, c) ==> !Alarmed(g, c)
    ensures LastFailed(g, c) ==> (Alarmed(g, c) <==> !c.checked[|c.cleared|].CheckCancelled?)
  {
    hide Safe, Alarming;
    if g.thresholds.Some? {
      forall k | 0 <= k < |c.checked|
        ensures Safe(g.thresholds.value, c.checked[k]) <==>
          !Alarming(g.thresholds.value, c.checked[k]) && !c.checked[k].CheckCancelled?
        ensures Alarming(g.thresholds.value, c.checked[k]) ==> !c.checked[k].CheckCancelled?
      {
        AlarmingIsUnsafe(g.thresholds.value, c.checked[k]);
      }
    }
  }

  /** In every interleaving a call ends as unsafe exactly when some safety answer was missing or held a finding at or
      above its category's threshold; before the provider was shown anything, as an unsafe request, and afterwards as
      an unsafe result. */
  lemma UnsafeEndingsExactly(g: Gateway, events: seq<Event>, id: nat)
    requires g.maxAttempts >= 1 && id in Run(g, events).calls
    ensures
      var c := Run(g, events).calls[id];
      && (EndedUnsafe(c) <==> Alarmed(g, c))
      && (EndedUnsafe(c) ==> (c.stage.finish.ending.RequestUnsafe? <==> c.sent == []))
  {
    hide Run, SanitizeAll, FirstUnclean, NonEmpty, Safe, Charged, Guarded, Quote, Lingering;
    hide AllPassed, LastFailed, Alarmed, Attempted;
    RunKeepsInv(g, events);
    var c := Run(g, events).calls[id];
    assert CallOk(g, c) && !c.stage.AtBudget?;
    AllPassedIsQuiet(g, c);
    NeverChecked(g, c);
  }

  lemma NeverChecked(g: Gateway, c: Generation)
    ensures c.checked == [] ==> !Alarmed(g, c)
  {
  }

  /** So findings of categories without a threshold, of severity 7 at most, stop nothing. */
  lemma UnlistedCategoriesStopNothing(g: Gateway, events: seq<Event>, id: nat)
    requires g.maxAttempts >= 1 && g.thresholds.Some? && id in Run(g, events).calls
    requires
      var c := Run(g, events).calls[id];
      forall k :: 0 <= k < |c.checked| ==>
        && c.checked[k].Findings?
        && forall f :: f in c.checked[k].findings ==> f.category !in g.thresholds.value && f.severity <= 7
    ensures !EndedUnsafe(Run(g, events).calls[id])
  {
    hide Run, EndedUnsafe;
    UnsafeEndingsExactly(g, events, id);
  }

  /** Harmful text is refused: a finding above its threshold, on a message of the request. */
  lemma HarmfulRequestIsRefused(message: string)
    requires message != ""
    ensures
      var g := SmallGateway().(thresholds := Some(map["Violence" := 4]));
      var s := Run(g, [Submit(0, Request("m", [message], "t", 0), 0.0),
                       SafetyAnswer(0, Findings([Finding("Violence", 6)]), 0.0)]);
      0 in s.calls && s.calls[0].stage == Done(Finish(RequestUnsafe, None))
  {
    var g := SmallGateway().(thresholds := Some(map["Violence" := 4]));
    var reply := Findings([Finding("Violence", 6)]);
    var e, f := Submit(0, Request("m", [message], "t", 0), 0.0), SafetyAnswer(0, reply, 0.0);
    hide Step, SmallGateway, Safe;
    TwoSteps(g, e, f);
    SmallRequestIsChecked(message);
    SixIsHarmful();
    HarmfulStops(g, Step(g, INITIAL, e), reply);
  }

  lemma SixIsHarmful()
    ensures !Safe(map["Violence" := 4], Findings([Finding("Violence", 6)]))
  {
    assert Finding("Violence", 6) in [Finding("Violence", 6)];
    assert Harmful(map["Violence" := 4], Finding("Violence", 6));
  }

  lemma SmallRequestIsChecked(message: string)
    requires message != ""
    ensures
      var g := SmallGateway().(thresholds := Some(map["Violence" := 4]));
      var request := Request("m", [message], "t", 0);
      var s := Step(g, INITIAL, Submit(0, request, 0.0));
      && 0 in s.calls && s.calls[0].stage == CheckingRequest(request, 0) && s.clock == 0.0
      && g.thresholds == Some(map["Violence" := 4])
  {
    var g := SmallGateway().(thresholds := Some(map["Violence" := 4]));
    hide SanitizeAll, ReserveAndCall;
    assert g.scan(message) == Clean(message);
    SanitizeAllMeaning(g.scan, [message], [message]);
  }

  lemma HarmfulStops(g: Gateway, s: State, reply: SafetyReply)
    requires 0 in s.calls && s.calls[0].stage.CheckingRequest? && s.clock <= 0.0
    requires g.thresholds.Some? && reply.Findings? && !Safe(g.thresholds.value, reply)
    ensures
      var t := Step(g, s, SafetyAnswer(0, reply, 0.0));
      0 in t.calls && t.calls[0].stage == Done(Finish(RequestUnsafe, None))
  {
    hide Passes, Safe;
    PassesExactly(g.thresholds.value, reply);
  }

  lemma TwoSteps(g: Gateway, e: Event, f: Event)
    ensures Run(g, [e, f]) == Step(g, Step(g, INITIAL, e), f)
  {
    hide Step;
    assert [e, f][..1] == [e] && [e][..0] == [];
    assert Run(g, [e]) == Step(g, INITIAL, e);
  }

  // ---- What telemetry reports of an ending it does not know ----

  /** An exception nobody expects, and a cancellation after the reservation, report what the attempt before it left:
      telemetry says Error exactly when it was the first provider call. */
  lemma UnexpectedEndingsRepeatTelemetry(g: Gateway, events: seq<Event>, id: nat)
    requires g.maxAttempts >= 1
    requires var s := Run(g, events); id in s.calls && s.calls[id].stage.Done?
    requires
      var c := Run(g, events).calls[id];
      c.stage.finish.ending.Crashed? || (c.stage.finish.ending.Cancelled? && c.sent != [])
    ensures
      var c := Run(g, events).calls[id];
      var n, telemetry := |c.sent|, c.stage.finish.telemetry;
      && n == |c.heard| && (telemetry == Some(Error) <==> n == 1)
      && (telemetry == Some(Timeout) <==> n > 1 && Attempted(g, c.heard[n - 2]).TimedOut?)
      && (telemetry == Some(ProviderError) <==> n > 1 && Attempted(g, c.heard[n - 2]).ProviderFailure?)
  {
    hide Run, AllPassed, LastFailed, Guarded, NonEmpty, SanitizeAll, FirstUnclean, Quote, Passes, Safe;
    EndedCallsAreGuarded(g, events, id);
    LastLingers(g, Run(g, events).calls[id].heard);
  }

  lemma LastLingers(g: Gateway, heard: seq<ProviderReply>)
    requires heard != [] && forall i :: 0 <= i < |heard| - 1 ==> Retriable(g, heard[i])
    ensures
      var n, lingering := |heard|, Lingering(g, heard[..|heard| - 1]);
      && (lingering == Error <==> n == 1)
      && (lingering == Timeout <==> n > 1 && Attempted(g, heard[n - 2]).TimedOut?)
      && (lingering == ProviderError <==> n > 1 && Attempted(g, heard[n - 2]).ProviderFailure?)
  {
    if |heard| > 1 {
      assert Retriable(g, heard[|heard| - 2]);
    }
  }

  /** One model, free of charge, and two attempts. */
  function SmallGateway(): Gateway {
    Gateway({"m"}, TenantBudget.Limits(map[], Some(1.0), 1.0), map["m" := Pricing.ModelPrice(0.0, 0.0)], 2,
            text => Clean(text), None)
  }

  /** A timeout, then an exception that is none: telemetry reports a timeout. */
  lemma CrashIsReportedAsTimeout()
    ensures
      var s := Run(SmallGateway(), [Submit(0, Request("m", [], "t", 0), 0.0), ProviderAnswer(0, TimedOut),
                                    ProviderAnswer(0, Crash)]);
      0 in s.calls && s.calls[0].stage == Done(Finish(Crashed, Some(Timeout)))
  {
    var g := SmallGateway();
    var request := Request("m", [], "t", 0);
    var e, f, h := Submit(0, request, 0.0), ProviderAnswer(0, TimedOut), ProviderAnswer(0, Crash);
    hide Step, OnProvider, SmallGateway;
    ThreeSteps(g, e, f, h);
    SmallGatewayCalls();
    var s := Step(g, INITIAL, e);
    ProviderSteps(g, s, TimedOut);
    ProviderSteps(g, Step(g, s, f), Crash);
  }

  lemma SmallGatewayCalls()
    ensures
      var request := Request("m", [], "t", 0);
      var s := Step(SmallGateway(), INITIAL, Submit(0, request, 0.0));
      && 0 in s.calls && s.calls[0].stage == Calling(request, 1, Error) && SmallGateway().maxAttempts == 2
  {
    hide Quote, SlidingWindow.Spent;
    var g, request := SmallGateway(), Request("m", [], "t", 0);
    SmallQuote(g, request);
    assert SlidingWindow.Spent([], 0.0, 1.0) == 0.0;
    assert Open(g, request).stage == AtBudget(request);
    assert TenantBudget.Reserve(g.limits, map[], "t", 0.0, 0.0).0 == TenantBudget.Reserved;
  }

  lemma SmallQuote(g: Gateway, request: Request)
    requires request.model in g.prices && g.prices[request.model] == Pricing.ModelPrice(0.0, 0.0)
    ensures Quote(g, request) == 0.0
    ensures SlidingWindow.Spent([], 0.0, 1.0) == 0.0
  {
    hide Preflight, Rounding.Round;
    var usage := Preflight(request);
    assert Pricing.TokenCost(usage.prompt, 0.0) == 0.0 && Pricing.TokenCost(usage.completion, 0.0) == 0.0;
    Rounding.RoundExact(0, 0.0, Pricing.GRID);
  }

  lemma ProviderSteps(g: Gateway, s: State, answer: ProviderReply)
    requires 0 in s.calls && s.calls[0].stage.Calling? && !answer.Raw?
    ensures
      var t := Step(g, s, ProviderAnswer(0, answer));
      var Calling(request, attempt, outcome) := s.calls[0].stage;
      && 0 in t.calls
      && (answer.TimedOut? && attempt < g.maxAttempts ==> t.calls[0].stage == Calling(request, attempt + 1, Timeout))
      && (answer.Crash? ==> t.calls[0].stage == Done(Finish(Crashed, Some(outcome))))
  {
  }

  lemma ThreeSteps(g: Gateway, e: Event, f: Event, h: Event)
    ensures Run(g, [e, f, h]) == Step(g, Step(g, Step(g, INITIAL, e), f), h)
  {
    hide Step;
    assert [e, f, h][..2] == [e, f] && [e, f][..1] == [e] && [e][..0] == [];
    assert Run(g, [e]) == Step(g, INITIAL, e);
    assert Run(g, [e, f]) == Step(g, Run(g, [e]), f);
  }

  // ---- Reservations, and what is later charged against them ----

  function EntriesOf(reserved: seq<Reservation>, tenant: string): seq<SlidingWindow.Entry> {
    if reserved == [] then []
    else
      var n := |reserved| - 1;
      EntriesOf(reserved[..n], tenant) +
      if reserved[n].tenant == tenant then [SlidingWindow.Entry(reserved[n].at, reserved[n].amount)] else []
  }

  /** What a call was finally charged: the repriced cost of what it returned, or nothing. */
  function ChargeOf(calls: map<nat, Generation>, id: nat): real {
    if id in calls && calls[id].stage.Done? && calls[id].stage.finish.ending.Returned? then
      calls[id].stage.finish.ending.completion.cost
    else 0.0
  }

  /** In every interleaving the charge of a call that returned is the price of the usage the provider reported, at the
      rates of the model that answered and to the nearest 1e-8 GBP; any other call is charged nothing. */
  lemma ChargedAsReported(g: Gateway, events: seq<Event>, id: nat)
    requires g.maxAttempts >= 1 && id in Run(g, events).calls
    ensures
      var calls := Run(g, events).calls;
      var stage := calls[id].stage;
      if stage.Done? && stage.finish.ending.Returned? then
        var Completion(_, model, usage, _) := stage.finish.ending.completion;
        var price := if model in g.prices then g.prices[model] else Pricing.ModelPrice(0.001, 0.002);
        Rounding.RoundedTo(
          ChargeOf(calls, id),
          usage.prompt as real / 1000.0 * price.prompt + usage.completion as real / 1000.0 * price.completion,
          100000000.0)
      else ChargeOf(calls, id) == 0.0
  {
    hide Run, SanitizeAll, FirstUnclean, NonEmpty, Safe, Charged, Guarded, Quote, Lingering, AllPassed, LastFailed;
    hide Pricing.Estimate, Rounding.RoundedTo;
    var c := Run(g, events).calls[id];
    if c.stage.Done? && c.stage.finish.ending.Returned? {
      EndedCallsAreGuarded(g, events, id);
      var completion := c.stage.finish.ending.completion;
      Pricing.EstimateMeaning(g.prices, completion.model, completion.usage);
    }
  }

  /** The same ledger with each reservation replaced by its call's final charge. */
  function ChargesOf(calls: map<nat, Generation>, reserved: seq<Reservation>, tenant: string)
    : seq<SlidingWindow.Entry>
  {
    if reserved == [] then []
    else
      var n := |reserved| - 1;
      ChargesOf(calls, reserved[..n], tenant) +
      if reserved[n].tenant != tenant then []
      else [SlidingWindow.Entry(reserved[n].at, ChargeOf(calls, reserved[n].id))]
  }

  ghost predicate Booked(s: State, k: nat)
    requires k < |s.reserved|
  {
    var r := s.reserved[k];
    r.id in s.calls && s.calls[r.id].paid == [r.amount] && s.calls[r.id].submitted.tenant == r.tenant
  }

  /** Each call that has paid appears in the ledger of reservations exactly once. */
  ghost predicate Books(s: State) {
    && (forall k :: 0 <= k < |s.reserved| ==> Booked(s, k))
    && (forall j, k :: 0 <= j < k < |s.reserved| ==> s.reserved[j].id != s.reserved[k].id)
    && (forall id :: id in s.calls && s.calls[id].paid != [] ==>
          exists k :: 0 <= k < |s.reserved| && s.reserved[k].id == id)
  }

  ghost predicate Ledger(g: Gateway, s: State, tenant: string) {
    && TenantBudget.Sound(g.limits, s.accepted, s.clock)
    && TenantBudget.HistoryOf(s.accepted, tenant) == EntriesOf(s.reserved, tenant)
  }

  lemma SameBooks(s: State, t: State, id: nat, c: Generation)
    requires Books(s) && t.reserved == s.reserved && t.calls == s.calls[id := c]
    requires if id in s.calls then c.paid == s.calls[id].paid && c.submitted == s.calls[id].submitted else c.paid == []
    ensures Books(t)
  {
    forall k | 0 <= k < |t.reserved| ensures Booked(t, k) {
      assert Booked(s, k);
    }
  }

  lemma NewBooking(s: State, t: State, r: Reservation, c: Generation)
    requires Books(s) && t.reserved == s.reserved + [r] && t.calls == s.calls[r.id := c]
    requires r.id in s.calls ==> s.calls[r.id].paid == []
    requires c.paid == [r.amount] && c.submitted.tenant == r.tenant
    ensures Books(t)
  {
    forall k | 0 <= k < |s.reserved| ensures Booked(t, k) && s.reserved[k].id != r.id {
      assert Booked(s, k);
    }
    forall id | id in t.calls && t.calls[id].paid != []
      ensures exists k :: 0 <= k < |t.reserved| && t.reserved[k].id == id
    {
      if id == r.id {
        assert t.reserved[|s.reserved|].id == id;
      } else {
        var k :| 0 <= k < |s.reserved| && s.reserved[k].id == id;
        assert t.reserved[k].id == id;
      }
    }
  }

  lemma StoreKeepsBooks(g: Gateway, s: State, id: nat, c: Generation, now: real)
    requires Books(s)
    requires if id in s.calls then c.paid == s.calls[id].paid && c.submitted == s.calls[id].submitted else c.paid == []
    requires c.stage.AtBudget? ==> c.paid == [] && c.stage.request.tenant == c.submitted.tenant
    ensures Books(Store(g, s, id, c, now))
  {
    var t := Store(g, s, id, c, now);
    if t.reserved == s.reserved {
      SameBooks(s, t, id, t.calls[id]);
    } else {
      NewBooking(s, t, t.reserved[|s.reserved|], t.calls[id]);
    }
  }

  lemma OpenPaysNothing(g: Gateway, request: Request)
    ensures
      var c := Open(g, request);
      && c.paid == [] && c.submitted == request
      && (c.stage.AtBudget? ==> c.stage.request.tenant == request.tenant)
  {
  }

  lemma SafetyPaysNothing(g: Gateway, c: Generation, reply: SafetyReply)
    requires CallOk(g, c) && !c.stage.AtBudget?
    ensures
      var d := OnSafety(g, c, reply);
      && d.paid == c.paid && d.submitted == c.submitted
      && (d.stage.AtBudget? ==> d.paid == [] && d.stage.request.tenant == d.submitted.tenant)
  {
  }

  lemma StepKeepsBooks(g: Gateway, s: State, e: Event)
    requires Inv(g, s) && Books(s)
    ensures Books(Step(g, s, e))
  {
    hide Open, OnSafety, Store, CallOk;
    match e
    case Submit(id, request, now) =>
      if id !in s.calls && now >= s.clock {
        OpenPaysNothing(g, request);
        StoreKeepsBooks(g, s, id, Open(g, request), now);
      }
    case SafetyAnswer(id, reply, now) =>
      if id in s.calls && now >= s.clock {
        SafetyPaysNothing(g, s.calls[id], reply);
        StoreKeepsBooks(g, s, id, OnSafety(g, s.calls[id], reply), now);
      }
    case ProviderAnswer(id, answer) =>
      if id in s.calls && s.calls[id].stage.Calling? {
        SameBooks(s, Step(g, s, e), id, OnProvider(g, s.calls[id], answer));
      }
  }

  lemma LaterStillSound(limits: TenantBudget.Limits, accepted: map<string, seq<SlidingWindow.Entry>>,
                        clock: real, now: real)
    requires TenantBudget.Sound(limits, accepted, clock) && clock <= now
    ensures TenantBudget.Sound(limits, accepted, now)
  {
    forall t | t in accepted ensures TenantBudget.SoundLedger(limits, t, accepted[t], now) {
      assert TenantBudget.SoundLedger(limits, t, accepted[t], clock);
    }
  }

  lemma StoreKeepsLedger(g: Gateway, s: State, id: nat, c: Generation, now: real, tenant: string)
    requires Ledger(g, s, tenant) && now >= s.clock
    ensures Ledger(g, Store(g, s, id, c, now), tenant)
  {
    if c.stage.AtBudget? {
      var r := Reservation(id, c.stage.request.tenant, now, Quote(g, c.stage.request));
      TenantBudget.ReserveKeepsSound(g.limits, s.accepted, s.clock, r.tenant, now, r.amount);
      assert (s.reserved + [r])[..|s.reserved|] == s.reserved;
    } else {
      LaterStillSound(g.limits, s.accepted, s.clock, now);
    }
  }

  lemma StepKeepsLedger(g: Gateway, s: State, e: Event, tenant: string)
    requires Ledger(g, s, tenant)
    ensures Ledger(g, Step(g, s, e), tenant)
  {
    match e
    case Submit(id, request, now) =>
      if id !in s.calls && now >= s.clock {
        StoreKeepsLedger(g, s, id, Open(g, request), now, tenant);
      }
    case SafetyAnswer(id, reply, now) =>
      if id in s.calls && now >= s.clock {
        StoreKeepsLedger(g, s, id, OnSafety(g, s.calls[id], reply), now, tenant);
      }
    case ProviderAnswer(_, _) =>
  }

  lemma {:induction false} RunKeepsBooks(g: Gateway, events: seq<Event>, tenant: string)
    requires g.maxAttempts >= 1
    ensures Books(Run(g, events)) && Ledger(g, Run(g, events), tenant)
  {
    if events != [] {
      var init := events[..|events| - 1];
      RunKeepsBooks(g, init, tenant);
      RunKeepsInv(g, init);
      StepKeepsBooks(g, Run(g, init), events[|events| - 1]);
      StepKeepsLedger(g, Run(g, init), events[|events| - 1], tenant);
    }
  }

  // ---- The budget's verdict is the ledger's ----

  /** The tenant has a ceiling, its own or else the fallback, and its reservations still in the window leave room for
      the quote. */
  predicate Fits(g: Gateway, reserved: seq<Reservation>, request: Request, now: real) {
    var total :=
      SlidingWindow.Spent(EntriesOf(reserved, request.tenant), now, g.limits.window) + Quote(g, request);
    if request.tenant in g.limits.ceilings then total <= g.limits.ceilings[request.tenant]
    else g.limits.fallback.Some? && total <= g.limits.fallback.value
  }

  /** Event e, met in state s, is the generation's own and consulted the budget: the verdict is Reserved exactly when
      the quote for the sanitised request fits the reservations made so far. */
  ghost predicate Decides(g: Gateway, s: State, e: Event, id: nat, c: Generation) {
    && !e.ProviderAnswer? && e.id == id && c.verdict.Some?
    && match SanitizeAll(g.scan, c.submitted.messages)
       case None => false
       case Some(messages) =>
         c.verdict.value == TenantBudget.Reserved <==>
           Fits(g, s.reserved, c.submitted.(messages := messages), e.now)
  }

  lemma StoreDecides(g: Gateway, s: State, id: nat, c: Generation, now: real)
    requires CallOk(g, c) && Ledger(g, s, c.submitted.tenant)
    ensures
      var d := Store(g, s, id, c, now).calls[id];
      && d.submitted == c.submitted
      && if c.stage.AtBudget? then
           && d.verdict.Some? && SanitizeAll(g.scan, c.submitted.messages) == Some(c.stage.request.messages)
           && c.stage.request == c.submitted.(messages := c.stage.request.messages)
           && (d.verdict.value == TenantBudget.Reserved <==> Fits(g, s.reserved, c.stage.request, now))
         else d.verdict == c.verdict
  {
    hide SanitizeAll, EntriesOf, AllPassed, NonEmpty, Quote;
  }

  lemma OpenIsUndecided(g: Gateway, request: Request)
    ensures Open(g, request).verdict == None && Open(g, request).submitted == request
  {
  }

  lemma SafetyKeepsVerdict(g: Gateway, c: Generation, reply: SafetyReply)
    ensures OnSafety(g, c, reply).verdict == c.verdict && OnSafety(g, c, reply).submitted == c.submitted
  {
  }

  lemma ProviderKeepsVerdict(g: Gateway, c: Generation, answer: ProviderReply)
    requires c.stage.Calling?
    ensures OnProvider(g, c, answer).verdict == c.verdict && OnProvider(g, c, answer).submitted == c.submitted
  {
  }

  /** A step leaves a generation's verdict alone or decides it. */
  lemma StepDecides(g: Gateway, s: State, e: Event, id: nat)
    requires g.maxAttempts >= 1 && Inv(g, s) && id in Step(g, s, e).calls
    requires forall tenant :: Ledger(g, s, tenant)
    ensures
      var d := Step(g, s, e).calls[id];
      || d.verdict == None
      || Decides(g, s, e, id, d)
      || (id in s.calls && d.verdict == s.calls[id].verdict && d.submitted == s.calls[id].submitted)
  {
    hide CallOk, Open, OnSafety, OnProvider, Store, Ledger, Fits, SanitizeAll;
    match e
    case Submit(own, request, now) =>
      if own !in s.calls && now >= s.clock {
        OpenOk(g, request);
        OpenIsUndecided(g, request);
        StoreDecides(g, s, own, Open(g, request), now);
        StoreTouchesOne(g, s, own, Open(g, request), now);
      }
    case SafetyAnswer(own, reply, now) =>
      if own in s.calls && now >= s.clock {
        OnSafetyOk(g, s.calls[own], reply);
        SafetyKeepsVerdict(g, s.calls[own], reply);
        StoreDecides(g, s, own, OnSafety(g, s.calls[own], reply), now);
        StoreTouchesOne(g, s, own, OnSafety(g, s.calls[own], reply), now);
      }
    case ProviderAnswer(own, answer) =>
      if own in s.calls && s.calls[own].stage.Calling? {
        ProviderKeepsVerdict(g, s.calls[own], answer);
      }
  }

  lemma StoreTouchesOne(g: Gateway, s: State, own: nat, c: Generation, now: real)
    ensures Store(g, s, own, c, now).calls.Keys == s.calls.Keys + {own}
    ensures forall id :: id in s.calls && id != own ==> Store(g, s, own, c, now).calls[id] == s.calls[id]
  {
  }

  ghost predicate DecidedAt(g: Gateway, events: seq<Event>, k: nat, id: nat, c: Generation) {
    k < |events| && Decides(g, Run(g, events[..k]), events[k], id, c)
  }

  /** In every interleaving a verdict was given at one of the generation's own steps, and is Reserved exactly when, of
      the tenant's reservations made before that step, those in the window then left room for the quote. */
  lemma {:induction false} VerdictIsTheLedgers(g: Gateway, events: seq<Event>, id: nat)
    requires g.maxAttempts >= 1
    requires id in Run(g, events).calls && Run(g, events).calls[id].verdict.Some?
    ensures exists k: nat :: DecidedAt(g, events, k, id, Run(g, events).calls[id])
  {
    hide Step, Inv, Ledger, Decides;
    if events != [] {
      var n := |events| - 1;
      var s, c := Run(g, events[..n]), Run(g, events).calls[id];
      RunKeepsInv(g, events[..n]);
      forall tenant ensures Ledger(g, s, tenant) {
        RunKeepsBooks(g, events[..n], tenant);
      }
      StepDecides(g, s, events[n], id);
      if Decides(g, s, events[n], id, c) {
        assert DecidedAt(g, events, n, id, c);
      } else {
        VerdictIsTheLedgers(g, events[..n], id);
        var k: nat :| DecidedAt(g, events[..n], k, id, s.calls[id]);
        assert events[..n][..k] == events[..k];
        SameVerdict(g, Run(g, events[..k]), events[k], id, s.calls[id], c);
        assert DecidedAt(g, events, k, id, c);
      }
    }
  }

  lemma SameVerdict(g: Gateway, s: State, e: Event, id: nat, c: Generation, d: Generation)
    requires Decides(g, s, e, id, c) && c.submitted == d.submitted && c.verdict == d.verdict
    ensures Decides(g, s, e, id, d)
  {
    hide Fits, SanitizeAll;
  }

  /** So a generation ends over budget only where the ledger had no room, and reserves only where it had. */
  lemma BudgetEndingsAreTheLedgers(g: Gateway, events: seq<Event>, id: nat)
    requires g.maxAttempts >= 1
    requires var s := Run(g, events); id in s.calls
    ensures
      var c := Run(g, events).calls[id];
      && (c.paid != [] ==> c.verdict == Some(TenantBudget.Reserved))
      && (c.stage.Done? && c.stage.finish.ending.OverBudget? ==>
            c.verdict.Some? && c.verdict.value != TenantBudget.Reserved)
      && (c.verdict.Some? ==> exists k: nat :: DecidedAt(g, events, k, id, c))
  {
    hide Run, AllPassed, LastFailed, Guarded, NonEmpty, SanitizeAll, FirstUnclean, Passes, Safe, Charged, DecidedAt;
    RunKeepsInv(g, events);
    var c := Run(g, events).calls[id];
    assert CallOk(g, c);
    if c.verdict.Some? {
      VerdictIsTheLedgers(g, events, id);
    }
  }

  /** The messages' texts in one piece. */
  function Flat(texts: seq<string>): string {
    if texts == [] then "" else Flat(texts[..|texts| - 1]) + texts[|texts| - 1]
  }

  lemma {:induction false} LengthIsTotal(texts: seq<string>)
    ensures Length(texts) == |Flat(texts)|
  {
    if texts != [] {
      LengthIsTotal(texts[..|texts| - 1]);
    }
  }

  /** A token for every four characters, and one for fewer. */
  ghost predicate EstimatedFor(tokens: nat, characters: nat) {
    if characters < 4 then tokens == 1 else 4 * tokens <= characters < 4 * tokens + 4
  }

  lemma PreflightMeaning(request: Request)
    ensures EstimatedFor(Preflight(request).prompt, |Flat(request.messages)|)
    ensures Preflight(request).completion == request.maxTokens
  {
    LengthIsTotal(request.messages);
  }

  /** In every interleaving what a call reserves is the price, at the model's rates and to the nearest 1e-8 GBP, of its
      completion cap and of a token for every four characters of the messages that the provider is then shown. */
  lemma ReservedIsEstimate(g: Gateway, events: seq<Event>, id: nat) returns (tokens: nat)
    requires g.maxAttempts >= 1
    requires var s := Run(g, events); id in s.calls && s.calls[id].paid != []
    ensures
      var c := Run(g, events).calls[id];
      var model := c.submitted.model;
      var price := if model in g.prices then g.prices[model] else Pricing.ModelPrice(0.001, 0.002);
      && |c.paid| == 1 && c.sent != [] && EstimatedFor(tokens, |Flat(c.sent[0])|)
      && Rounding.RoundedTo(
           c.paid[0],
           tokens as real / 1000.0 * price.prompt + c.submitted.maxTokens as real / 1000.0 * price.completion,
           100000000.0)
  {
    hide Run, SanitizeAll, FirstUnclean, NonEmpty, Guarded, AllPassed, LastFailed, Answered, Preflight, Flat;
    hide EstimatedFor, Pricing.Estimate, Rounding.RoundedTo;
    RunKeepsInv(g, events);
    var c := Run(g, events).calls[id];
    assert CallOk(g, c);
    var request := QuotedRequest(g, c);
    PreflightMeaning(request);
    tokens := Preflight(request).prompt;
    Pricing.EstimateMeaning(g.prices, request.model, Preflight(request));
  }

  lemma QuotedRequest(g: Gateway, c: Generation) returns (request: Request)
    requires CallOk(g, c) && c.paid != []
    ensures c.sent != [] && request == c.submitted.(messages := c.sent[0]) && c.paid == [Quote(g, request)]
  {
    hide SanitizeAll, FirstUnclean, NonEmpty, AllPassed, LastFailed, Answered, Quote, Lingering, Attempted;
    request := c.submitted.(messages := c.sent[0]);
  }

  /** The provider answered on the model asked for, within the tokens the preflight reserved for. */
  ghost predicate WithinEstimate(c: Generation, messages: seq<string>) {
    c.stage.Done? && c.stage.finish.ending.Returned? ==>
      && c.stage.finish.ending.completion.model == c.submitted.model
      && Pricing.Covers(Preflight(c.submitted.(messages := messages)), c.stage.finish.ending.completion.usage)
  }

  ghost predicate Honest(g: Gateway, s: State) {
    forall id :: id in s.calls ==>
      match SanitizeAll(g.scan, s.calls[id].submitted.messages)
      case None => true
      case Some(messages) => WithinEstimate(s.calls[id], messages)
  }

  lemma ChargeWithinReservation(g: Gateway, s: State, k: nat)
    requires Inv(g, s) && Books(s) && Honest(g, s) && Pricing.NonNegative(g.prices) && k < |s.reserved|
    ensures 0.0 <= ChargeOf(s.calls, s.reserved[k].id) <= s.reserved[k].amount
  {
    assert Booked(s, k);
    var c := s.calls[s.reserved[k].id];
    assert CallOk(g, c);
    var messages := SanitizeAll(g.scan, c.submitted.messages);
    assert messages.Some?;
    var request := c.submitted.(messages := messages.value);
    assert s.reserved[k].amount == Quote(g, request);
    var quoted := Preflight(request);
    Pricing.EstimateIsMonotone(g.prices, request.model, quoted, quoted);
    if c.stage.Done? && c.stage.finish.ending.Returned? {
      Pricing.EstimateIsMonotone(g.prices, request.model, c.stage.finish.ending.completion.usage, quoted);
    }
  }

  lemma {:induction false} ChargesBelowReservations(calls: map<nat, Generation>, reserved: seq<Reservation>,
                                                    tenant: string)
    requires forall k :: 0 <= k < |reserved| ==> 0.0 <= ChargeOf(calls, reserved[k].id) <= reserved[k].amount
    ensures
      var charges, entries := ChargesOf(calls, reserved, tenant), EntriesOf(reserved, tenant);
      && |charges| == |entries| && SlidingWindow.NonNegative(entries)
      && forall i :: 0 <= i < |charges| ==>
           charges[i].at == entries[i].at && charges[i].cost <= SlidingWindow.Scaled(1.0, entries[i].cost)
  {
    if reserved != [] {
      ChargesBelowReservations(calls, reserved[..|reserved| - 1], tenant);
    }
  }

  lemma ChargesWithinReservations(g: Gateway, s: State)
    requires Inv(g, s) && Books(s) && Pricing.NonNegative(g.prices) && Honest(g, s)
    ensures forall k :: 0 <= k < |s.reserved| ==> 0.0 <= ChargeOf(s.calls, s.reserved[k].id) <= s.reserved[k].amount
  {
    forall k | 0 <= k < |s.reserved| ensures 0.0 <= ChargeOf(s.calls, s.reserved[k].id) <= s.reserved[k].amount {
      ChargeWithinReservation(g, s, k);
    }
  }

  lemma ChargesBelowLedger(g: Gateway, s: State, tenant: string, p: real -> bool)
    requires Inv(g, s) && Books(s) && Pricing.NonNegative(g.prices) && Honest(g, s)
    ensures SlidingWindow.NonNegative(EntriesOf(s.reserved, tenant))
    ensures SlidingWindow.Total(SlidingWindow.Pick(ChargesOf(s.calls, s.reserved, tenant), p))
         <= SlidingWindow.Total(SlidingWindow.Pick(EntriesOf(s.reserved, tenant), p))
  {
    hide SlidingWindow.Total, SlidingWindow.Pick, Inv, Books, Honest, ChargeOf, ChargesOf, EntriesOf;
    ChargesWithinReservations(g, s);
    ChargesBelowReservations(s.calls, s.reserved, tenant);
    SlidingWindow.ScaledTotal(EntriesOf(s.reserved, tenant), ChargesOf(s.calls, s.reserved, tenant), 1.0, p);
  }

  lemma LedgerWithinCeiling(g: Gateway, s: State, tenant: string, p: real -> bool)
    requires Ledger(g, s, tenant) && SlidingWindow.NonNegative(EntriesOf(s.reserved, tenant))
    requires g.limits.CeilingFor(tenant).Some? && SlidingWindow.Within(p, g.limits.window)
    ensures SlidingWindow.Total(SlidingWindow.Pick(EntriesOf(s.reserved, tenant), p))
         <= g.limits.CeilingFor(tenant).value
  {
    var entries := EntriesOf(s.reserved, tenant);
    if tenant in s.accepted {
      assert TenantBudget.SoundLedger(g.limits, tenant, s.accepted[tenant], s.clock);
    }
    SlidingWindow.AdmittedBoundsEveryWindow(entries, g.limits.window, g.limits.CeilingFor(tenant).value);
  }

  /** Over any window p of reservation times, in any run, what a tenant is finally charged is at most what it
      reserved there, and, for a window no longer than the budget's, at most its ceiling. */
  lemma ChargesStayWithinCeiling(g: Gateway, events: seq<Event>, tenant: string, p: real -> bool)
    requires g.maxAttempts >= 1 && Pricing.NonNegative(g.prices)
    requires Honest(g, Run(g, events))
    ensures
      var s := Run(g, events);
      var charged := SlidingWindow.Total(SlidingWindow.Pick(ChargesOf(s.calls, s.reserved, tenant), p));
      && charged <= SlidingWindow.Total(SlidingWindow.Pick(EntriesOf(s.reserved, tenant), p))
      && (SlidingWindow.Within(p, g.limits.window) && g.limits.CeilingFor(tenant).Some? ==>
            charged <= g.limits.CeilingFor(tenant).value)
  {
    RunKeepsInv(g, events);
    RunKeepsBooks(g, events, tenant);
    ChargesBelowLedger(g, Run(g, events), tenant, p);
    if SlidingWindow.Within(p, g.limits.window) && g.limits.CeilingFor(tenant).Some? {
      LedgerWithinCeiling(g, Run(g, events), tenant, p);
    }
  }

  // ---- The gateway object, one generation at a time ----

  /** The rest of a generation, given what each attempt's provider call and result check would answer. */
  function Play(g: Gateway, c: Generation, answers: seq<ProviderReply>, verdicts: seq<SafetyReply>): Generation
    decreases if c.stage.Calling? then g.maxAttempts - c.stage.attempt else -1
  {
    if !c.stage.Calling? || !(1 <= c.stage.attempt <= g.maxAttempts <= |answers|) || |verdicts| < |answers| then c
    else
      var d := OnProvider(g, c, answers[c.stage.attempt - 1]);
      Play(g, if d.stage.CheckingResult? then OnSafety(g, d, verdicts[c.stage.attempt - 1]) else d, answers, verdicts)
  }

  lemma SanitizeKeepsCount(scan: string -> ScanVerdict, messages: seq<string>)
    ensures SanitizeAll(scan, messages).Some? ==> |SanitizeAll(scan, messages).value| == |messages|
  {
    if SanitizeAll(scan, messages).Some? {
      SanitizeAllMeaning(scan, messages, SanitizeAll(scan, messages).value);
    }
  }

  /** The request-side safety checks, given what each of them would answer. */
  function Vet(g: Gateway, c: Generation, replies: seq<SafetyReply>): Generation
    decreases |replies|
  {
    if !c.stage.CheckingRequest? || replies == [] then c else Vet(g, OnSafety(g, c, replies[0]), replies[1..])
  }

  function Noted(c: Generation, texts: seq<string>, replies: seq<SafetyReply>): Generation {
    c.(cleared := c.cleared + texts, checked := c.checked + replies)
  }

  lemma VetSkipsEmpty(g: Gateway, c: Generation, request: Request, i: nat)
    requires i < |request.messages| && request.messages[i] == ""
    ensures Advance(g, c, request, i) == Advance(g, c, request, i + 1)
  {
  }

  lemma VetChecksText(g: Gateway, c: Generation, request: Request, i: nat, replies: seq<SafetyReply>)
    requires i < |request.messages| && request.messages[i] != "" && g.thresholds.Some? && replies != []
    ensures Vet(g, Advance(g, c, request, i), replies) ==
      if Passes(g.thresholds.value, replies[0]) then
        Vet(g, Advance(g, Noted(c, [request.messages[i]], [replies[0]]), request, i + 1), replies[1..])
      else EndWith(Noted(c, [], [replies[0]]), if replies[0].CheckCancelled? then Cancelled else RequestUnsafe, None)
  {
    hide Passes, Safe;
    var d := c.(stage := CheckingRequest(request, i));
    assert Advance(g, c, request, i) == d;
    assert c.cleared + [] == c.cleared;
    assert OnSafety(g, d, replies[0]) ==
      if Passes(g.thresholds.value, replies[0]) then
        Advance(g, Noted(d, [request.messages[i]], [replies[0]]), request, i + 1)
      else EndWith(Noted(d, [], [replies[0]]), if replies[0].CheckCancelled? then Cancelled else RequestUnsafe, None);
  }

  lemma NotedTwice(c: Generation, texts: seq<string>, replies: seq<SafetyReply>,
                   more: seq<string>, next: seq<SafetyReply>)
    ensures Noted(Noted(c, texts, replies), more, next) == Noted(c, texts + more, replies + next)
    ensures Noted(c, [], []) == c
  {
  }

  lemma VetDone(g: Gateway, c: Generation, request: Request, replies: seq<SafetyReply>)
    ensures Vet(g, Advance(g, c, request, |request.messages|), replies) == c.(stage := AtBudget(request))
  {
  }

  lemma EmptyHasNoTexts(texts: seq<string>)
    ensures NonEmpty(texts[..0]) == []
  {
  }

  lemma {:induction false} VetOk(g: Gateway, c: Generation, replies: seq<SafetyReply>)
    requires CallOk(g, c)
    ensures CallOk(g, Vet(g, c, replies))
    decreases |replies|
  {
    hide CallOk, OnSafety;
    if c.stage.CheckingRequest? && replies != [] {
      OnSafetyOk(g, c, replies[0]);
      VetOk(g, OnSafety(g, c, replies[0]), replies[1..]);
    }
  }

  lemma {:induction false} PlayOk(g: Gateway, c: Generation, answers: seq<ProviderReply>, verdicts: seq<SafetyReply>)
    requires CallOk(g, c)
    ensures CallOk(g, Play(g, c, answers, verdicts))
    decreases if c.stage.Calling? then g.maxAttempts - c.stage.attempt else -1
  {
    hide CallOk;
    if c.stage.Calling? && 1 <= c.stage.attempt <= g.maxAttempts <= |answers| && |verdicts| >= |answers| {
      var d := OnProvider(g, c, answers[c.stage.attempt - 1]);
      OnProviderOk(g, c, answers[c.stage.attempt - 1]);
      if d.stage.CheckingResult? {
        OnSafetyOk(g, d, verdicts[c.stage.attempt - 1]);
        PlayOk(g, OnSafety(g, d, verdicts[c.stage.attempt - 1]), answers, verdicts);
      } else {
        PlayOk(g, d, answers, verdicts);
      }
    }
  }

  /** So a generation played through alone carries the same guarantees as one in any interleaving. */
  lemma PlayedCallsAreGuarded(g: Gateway, request: Request, replies: seq<SafetyReply>,
                              answers: seq<ProviderReply>, verdicts: seq<SafetyReply>)
    requires g.maxAttempts >= 1
    ensures
      var c := Vet(g, Open(g, request), replies);
      && (c.stage.Done? ==> FinishOk(g, c, c.stage.finish))
      && (c.stage.AtBudget? ==>
            var played := Play(g, FirstCall(g, c), answers, verdicts);
            played.stage.Done? ==> FinishOk(g, played, played.stage.finish))
  {
    hide OnSafety, OnProvider, Vet, Play, Open, FinishOk;
    OpenOk(g, request);
    VetOk(g, Open(g, request), replies);
    var c := Vet(g, Open(g, request), replies);
    if c.stage.AtBudget? {
      PaidOk(g, c);
      PlayOk(g, FirstCall(g, c), answers, verdicts);
    }
  }

  class GovernedModelGateway {
    const gateway: Gateway
    const budget: TenantBudget.TenantBudgetPolicy

    constructor (gateway: Gateway, budget: TenantBudget.TenantBudgetPolicy)
      requires gateway.maxAttempts >= 1 && budget.limits == gateway.limits
      ensures this.gateway == gateway && this.budget == budget
    {
      this.gateway, this.budget := gateway, budget;
    }

    /** The clean texts, or the verdict of the first message that is blocked or whose scan raises. */
    method SanitizeMessages(messages: seq<string>) returns (r: Result<seq<string>, ScanVerdict>)
      ensures
        match r
        case Ok(texts) => SanitizeAll(gateway.scan, messages) == Some(texts)
        case Err(verdict) => FirstUnclean(gateway.scan, messages) == Some(verdict) && !verdict.Clean?
    {
      var texts: seq<string> := [];
      for i := 0 to |messages|
        invariant SanitizeAll(gateway.scan, messages[..i]) == Some(texts)
        invariant FirstUnclean(gateway.scan, messages[..i]) == None
      {
        assert messages[..i + 1][..i] == messages[..i];
        var verdict := gateway.scan(messages[i]);
        if !verdict.Clean? {
          FirstUncleanStays(gateway.scan, messages, i + 1);
          return Err(verdict);
        }
        texts := texts + [verdict.text];
      }
      assert messages[..|messages|] == messages;
      return Ok(texts);
    }

    /** The request-side safety loop: empty texts are passed over, and the first failure ends it. */
    method CheckTexts(ghost c: Generation, request: Request, replies: seq<SafetyReply>)
      returns (failure: Option<SafetyReply>, cleared: seq<string>)
      requires gateway.thresholds.Some? && |replies| >= |request.messages|
      ensures cleared <= NonEmpty(request.messages) && (failure.None? <==> cleared == NonEmpty(request.messages))
      ensures forall i :: 0 <= i < |cleared| ==> i < |replies| && Safe(gateway.thresholds.value, replies[i])
      ensures failure.Some? ==> !Safe(gateway.thresholds.value, failure.value)
      ensures
        var v := Vet(gateway, Advance(gateway, c, request, 0), replies);
        match failure
        case None => |cleared| <= |replies| && v == Noted(c, cleared, replies[..|cleared|]).(stage := AtBudget(request))
        case Some(reply) =>
          && |cleared| < |replies| && reply == replies[|cleared|]
          && v == EndWith(Noted(c, cleared, replies[..|cleared| + 1]),
                          if reply.CheckCancelled? then Cancelled else RequestUnsafe, None)
    {
      hide OnSafety, Passes, Safe, Vet, Advance, NonEmpty, EndWith, Noted;
      var texts := request.messages;
      ghost var all := Vet(gateway, Advance(gateway, c, request, 0), replies);
      cleared := [];
      NotedTwice(c, [], [], [], []);
      assert replies[0..] == replies && replies[..0] == [];
      EmptyHasNoTexts(texts);
      for i := 0 to |texts|
        invariant cleared == NonEmpty(texts[..i]) && |cleared| <= i
        invariant forall k :: 0 <= k < |cleared| ==> Safe(gateway.thresholds.value, replies[k])
        invariant all ==
          Vet(gateway, Advance(gateway, Noted(c, cleared, replies[..|cleared|]), request, i), replies[|cleared|..])
      {
        NonEmptyStep(texts, i);
        ghost var k := |cleared|;
        ghost var noted := Noted(c, cleared, replies[..k]);
        if texts[i] == "" {
          VetSkipsEmpty(gateway, noted, request, i);
          continue;
        }
        var reply := replies[|cleared|];
        PassesExactly(gateway.thresholds.value, reply);
        VetChecksText(gateway, noted, request, i, replies[k..]);
        NotedTwice(c, cleared, replies[..k], [], [reply]);
        NotedTwice(c, cleared, replies[..k], [texts[i]], [reply]);
        assert replies[..k] + [reply] == replies[..k + 1] && cleared + [] == cleared;
        if !Passes(gateway.thresholds.value, reply) {
          NonEmptyPrefix(texts, i + 1);
          return Some(reply), cleared;
        }
        assert replies[k..][1..] == replies[k + 1..];
        cleared := cleared + [texts[i]];
      }
      assert texts[..|texts|] == texts;
      VetDone(gateway, Noted(c, cleared, replies[..|cleared|]), request, replies[|cleared|..]);
      failure := None;
    }

    /** The retry loop from the first provider call on. */
    method CallWithRetry(ghost start: Generation, answers: seq<ProviderReply>, verdicts: seq<SafetyReply>)
      returns (f: Finish)
      requires start.stage.Calling? && start.stage.attempt == 1 && start.stage.outcome == Error
      requires 1 <= gateway.maxAttempts <= |answers| <= |verdicts|
      ensures Play(gateway, start, answers, verdicts).stage == Done(f)
      ensures f.ending.Returned? && gateway.thresholds.Some? && f.ending.completion.content != "" ==>
        exists i :: 0 <= i < gateway.maxAttempts && Safe(gateway.thresholds.value, verdicts[i])
      ensures f.ending.ResultUnsafe? ==>
        && gateway.thresholds.Some?
        && exists i :: 0 <= i < gateway.maxAttempts && Alarming(gateway.thresholds.value, verdicts[i])
    {
      hide Safe, Alarming, Passes, Pricing.Estimate, Guarded, Charged, Answered, FinishOk;
      var attempt, outcome := 1, Error;
      ghost var c := start;
      while attempt <= gateway.maxAttempts
        invariant 1 <= attempt <= gateway.maxAttempts + 1
        invariant attempt <= gateway.maxAttempts ==>
          && c.stage == Calling(start.stage.request, attempt, outcome)
          && Play(gateway, c, answers, verdicts) == Play(gateway, start, answers, verdicts)
        invariant attempt > gateway.maxAttempts ==>
          Play(gateway, start, answers, verdicts).stage == Done(Finish(TimedOutAtLast, Some(outcome)))
        decreases gateway.maxAttempts - attempt
      {
        ghost var d := OnProvider(gateway, c, answers[attempt - 1]);
        match Attempted(gateway, answers[attempt - 1]) {
          case Raw(content, model, usage) =>
            var verdict := gateway.scan(content);
            if !verdict.Clean? {
              return Finish(ResultPiiBlocked, Some(PiiBlock));
            }
            if gateway.thresholds.Some? {
              PassesExactly(gateway.thresholds.value, verdicts[attempt - 1]);
              AlarmingIsUnsafe(gateway.thresholds.value, verdicts[attempt - 1]);
            }
            if gateway.thresholds.Some? && verdict.text != ""
               && !Passes(gateway.thresholds.value, verdicts[attempt - 1]) {
              if verdicts[attempt - 1].CheckCancelled? {
                return Finish(Cancelled, Some(outcome));
              }
              return Finish(ResultUnsafe, Some(SafetyBlock));
            }
            return Finish(Returned(Completion(verdict.text, model, usage,
                                              Pricing.Estimate(gateway.prices, model, usage))), Some(Success));
          case TimedOut =>
            outcome := Timeout;
          case ProviderFailure =>
            outcome := ProviderError;
            if attempt == gateway.maxAttempts {
              return Finish(ProviderFailed, Some(outcome));
            }
          case Crash =>
            return Finish(Crashed, Some(outcome));
          case CallCancelled =>
            return Finish(Cancelled, Some(outcome));
        }
        c := d;
        attempt := attempt + 1;
      }
      return Finish(TimedOutAtLast, Some(outcome));
    }

    /** The budget check against the real, lazily purged ledger. */
    method ReserveBudget(request: Request, now: real) returns (amount: Option<real>)
      requires budget.Valid() && now >= budget.clock && budget.limits == gateway.limits
      modifies budget
      ensures budget.Valid() && budget.clock == now
      ensures
        var (verdict, accepted) :=
          TenantBudget.Reserve(gateway.limits, old(budget.accepted), request.tenant, now, Quote(gateway, request));
        && budget.accepted == accepted
        && amount == if verdict == TenantBudget.Reserved then Some(Quote(gateway, request)) else None
    {
      var quote := Quote(gateway, request);
      var verdict := budget.CheckAndReserve(request.tenant, quote, now);
      amount := if verdict == TenantBudget.Reserved then Some(quote) else None;
    }

    /** One generation: allowlist, PII guard, content safety, budget, provider. Whatever refuses it first ends it
        with nothing reserved; past the reservation it plays out as the interleaved steps say. */
    method Generate(request: Request, now: real, replies: seq<SafetyReply>,
                    answers: seq<ProviderReply>, verdicts: seq<SafetyReply>) returns (f: Finish)
      requires budget.Valid() && now >= budget.clock && budget.limits == gateway.limits
      requires |replies| >= |request.messages| && 1 <= gateway.maxAttempts <= |answers| <= |verdicts|
      modifies budget
      ensures budget.Valid()
      ensures
        var c := Vet(gateway, Open(gateway, request), replies);
        if c.stage.AtBudget? then
          var clean := c.stage.request;
          var (verdict, accepted) :=
            TenantBudget.Reserve(gateway.limits, old(budget.accepted), clean.tenant, now, Quote(gateway, clean));
          && budget.accepted == accepted
          && if verdict != TenantBudget.Reserved then f == Finish(OverBudget, None)
             else
               var played := Play(gateway, FirstCall(gateway, c), answers, verdicts);
               played.stage == Done(f) && FinishOk(gateway, played, f)
        else c.stage == Done(f) && FinishOk(gateway, c, f) && budget.accepted == old(budget.accepted)
    {
      PlayedCallsAreGuarded(gateway, request, replies, answers, verdicts);
      hide OnSafety, OnProvider, Passes, Safe, Quote, NextText, SanitizeAll;
      ghost var entry := Open(gateway, request);
      ghost var c := Fresh(request);
      if request.model !in gateway.allowed {
        return Finish(NotAllowed, None);
      }
      var messages := SanitizeMessages(request.messages);
      FirstUncleanMeaning(gateway.scan, request.messages);
      if messages.Err? {
        return Finish(Unscanned(messages.error), None);
      }
      var clean := request.(messages := messages.value);
      SanitizeKeepsCount(gateway.scan, request.messages);
      if gateway.thresholds.Some? {
        var failure, cleared := CheckTexts(c, clean, replies);
        if failure.Some? {
          return Finish(if failure.value.CheckCancelled? then Cancelled else RequestUnsafe, None);
        }
      }
      ghost var vetted := Vet(gateway, entry, replies);
      assert vetted.stage == AtBudget(clean);
      var amount := ReserveBudget(clean, now);
      if amount.None? {
        return Finish(OverBudget, None);
      }
      f := CallWithRetry(FirstCall(gateway, vetted), answers, verdicts);
    }
  }

  lemma {:induction false} NonEmptyPrefix(texts: seq<string>, n: nat)
    requires n <= |texts|
    ensures NonEmpty(texts[..n]) <= NonEmpty(texts)
  {
    if n < |texts| {
      var m := |texts| - 1;
      NonEmptyPrefix(texts[..m], n);
      assert texts[..m][..n] == texts[..n];
    } else {
      assert texts[..n] == texts;
    }
  }
}
