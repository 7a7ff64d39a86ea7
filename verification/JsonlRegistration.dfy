/** Registration in the line relay: which requests of its own it writes to the App Server, and when it is ready. */
module JsonlRegistration {
  import opened Wrappers
  import opened Json
  import opened RelaySpec
  import opened JsonlSpec
  import RelayRegistration
  import JsonlDelivery
  import Ids

  // ---- What the events say ------------------------------------------------------------------------------

  /** The phase, and the id of the last initialize request. */
  datatype Registration = Registration(phase: Phase, initializeId: Option<Json>)

  /** e is the App Server's message with this id. */
  predicate HasTheId(e: LineEvent, id: Json) {
    e.FromServer? && e.line.Some? && Field(e.line.value, "id") == Some(id)
  }

  predicate AnswersAdd(cfg: Config, e: LineEvent) {
    HasTheId(e, Str(Ids.AddId(cfg.environmentId)))
  }

  predicate AnswersStatus(cfg: Config, e: LineEvent) {
    HasTheId(e, Str(Ids.StatusId(cfg.environmentId))) && !AnswersAdd(cfg, e)
  }

  /** e is the answer to the initialize request that waits. */
  predicate AnswersInitialize(cfg: Config, was: Registration, e: LineEvent) {
    && !AnswersAdd(cfg, e) && !AnswersStatus(cfg, e)
    && was.phase == WaitingForInitialize && was.initializeId.Some? && HasTheId(e, was.initializeId.value)
  }

  function Next(cfg: Config, was: Registration, e: LineEvent): Registration {
    var m := JsonlDelivery.LineRequest(cfg, e);
    Registration(
      if AnswersAdd(cfg, e) then Polling(1)
      else if AnswersStatus(cfg, e) then
        if StatusReady(e.line.value) == Some(true) then Ready
        else if was.phase.Polling? then Polling(was.phase.attempts + 1)
        else was.phase
      else if AnswersInitialize(cfg, was, e) then Registering
      else was.phase,
      if m.Some? && Field(m.value, "method") == Some(Str("initialize")) then Field(m.value, "id") else was.initializeId)
  }

  /** The request of the relay's own that e causes: environment/add for the awaited initialize answer,
      environment/status for an answer to environment/add or a status that is not ready yet. */
  function Causes(cfg: Config, was: Registration, e: LineEvent): seq<Json> {
    if AnswersAdd(cfg, e) || (AnswersStatus(cfg, e) && StatusReady(e.line.value) == Some(false)) then [StatusRequest(cfg)]
    else if AnswersInitialize(cfg, was, e) then [AddRequest(cfg)]
    else []
  }

  /** The initialize request that e takes in, which goes on at once. */
  function Starts(cfg: Config, e: LineEvent): seq<Json> {
    var m := JsonlDelivery.LineRequest(cfg, e);
    if m.Some? && Field(m.value, "method") == Some(Str("initialize")) then [m.value] else []
  }

  function Started(cfg: Config, events: seq<LineEvent>): seq<Json> {
    if events == [] then [] else Started(cfg, events[..|events| - 1]) + Starts(cfg, events[|events| - 1])
  }

  /** Registration after the events. */
  function Registered(cfg: Config, events: seq<LineEvent>): Registration {
    if events == [] then Registration(WaitingForInitialize, None)
    else Next(cfg, Registered(cfg, events[..|events| - 1]), events[|events| - 1])
  }

  /** The requests of the relay's own that the events cause. */
  function Caused(cfg: Config, events: seq<LineEvent>): seq<Json> {
    if events == [] then []
    else
      var init := events[..|events| - 1];
      Caused(cfg, init) + Causes(cfg, Registered(cfg, init), events[|events| - 1])
  }

  // ---- What the relay does ------------------------------------------------------------------------------

  function RegistrationOf(s: LineState): Registration {
    Registration(s.phase, s.initializeId)
  }

  /** The requests of the relay's own on the App Server's wire. */
  function Internals(out: seq<Line>): seq<Json> {
    if out == [] then []
    else
      var last := out[|out| - 1];
      Internals(out[..|out| - 1]) + (if last.Internal? then [last.message] else [])
  }

  /** The initialize requests on the App Server's wire. */
  function Initials(out: seq<Line>): seq<Json> {
    if out == [] then []
    else
      var last := out[|out| - 1];
      Initials(out[..|out| - 1]) + (if last.Initialize? then [last.message] else [])
  }

  lemma InternalsPut(out: seq<Line>, line: Line)
    ensures Internals(out + [line]) == Internals(out) + (if line.Internal? then [line.message] else [])
    ensures Initials(out + [line]) == Initials(out) + (if line.Initialize? then [line.message] else [])
  {
    assert (out + [line])[..|out|] == out;
  }

  lemma {:induction false} DrainInternals(cfg: Config, s: LineState)
    ensures var r := DrainLines(cfg, s);
            && Internals(r.out) == Internals(s.out) && Initials(r.out) == Initials(s.out)
            && r.phase == s.phase && r.initializeId == s.initializeId
    decreases |s.held|
  {
    hide Internals, Initials;
    if s.held != [] {
      InternalsPut(s.out, Request(s.held[0]));
      DrainInternals(cfg, Put(s.(held := s.held[1..], heldBytes := SatSub(s.heldBytes, |cfg.encode(s.held[0])|)), Request(s.held[0])));
    }
  }

  ghost predicate Turned(cfg: Config, s: LineState, e: LineEvent, r: LineStep) {
    if r.LineNext? then
      && RegistrationOf(r.state) == Next(cfg, RegistrationOf(s), e)
      && Internals(r.state.out) == Internals(s.out) + Causes(cfg, RegistrationOf(s), e)
      && Initials(r.state.out) == Initials(s.out) + Starts(cfg, e)
      && (AnswersStatus(cfg, e) && StatusReady(e.line.value) != Some(true) ==>
            StatusReady(e.line.value) == Some(false) && s.phase.Polling? && s.phase.attempts < MAX_STATUS_ATTEMPTS)
    else Internals(LineTrace(r)) == Internals(s.out) && Initials(LineTrace(r)) == Initials(s.out)
  }

  lemma SameMethod(cfg: Config, raw: Json)
    ensures Rewrite(cfg, raw).Some? ==>
              Method(Rewrite(cfg, raw).value) == Method(raw)
              && (Method(raw) == Some("initialize") <==> Field(Rewrite(cfg, raw).value, "method") == Some(Str("initialize")))
  {
    hide Environments;
  }

  lemma ClientTurn(cfg: Config, s: LineState, e: LineEvent)
    requires e.FromClient?
    ensures Turned(cfg, s, e, HandleClientLine(cfg, s, e.line))
  {
    hide Rewrite, Internals, Initials, SatAdd;
    if e.line.Some? && Rewrite(cfg, e.line.value).Some? {
      var m := Rewrite(cfg, e.line.value).value;
      SameMethod(cfg, e.line.value);
      InternalsPut(s.out, Initialize(m));
      InternalsPut(s.out, Request(m));
      assert Internals(s.out) + [] == Internals(s.out) && Initials(s.out) + [] == Initials(s.out);
    }
  }

  lemma StatusTurn(cfg: Config, s: LineState, e: LineEvent)
    requires AnswersStatus(cfg, e)
    ensures Turned(cfg, s, e, LineStatus(cfg, s, e.line.value))
  {
    hide Internals, Initials, StatusReady, DrainLines, StatusRequest, Ids.AddId, Ids.StatusId;
    InternalsPut(s.out, Internal(StatusRequest(cfg)));
    DrainInternals(cfg, s.(phase := Ready));
    NoLineRequest(cfg, e);
    assert Internals(s.out) + [] == Internals(s.out) && Initials(s.out) + [] == Initials(s.out);
  }

  lemma NoLineRequest(cfg: Config, e: LineEvent)
    requires !e.FromClient?
    ensures JsonlDelivery.LineRequest(cfg, e).None?
  {
  }

  lemma AddTurn(cfg: Config, s: LineState, e: LineEvent)
    requires AnswersAdd(cfg, e)
    ensures Turned(cfg, s, e, HandleServerLine(cfg, s, e.line, e.saveWorks))
  {
    hide Internals, Initials, StatusReady, StatusRequest, Ids.AddId, Ids.StatusId;
    InternalsPut(s.out, Internal(StatusRequest(cfg)));
    NoLineRequest(cfg, e);
    assert Initials(s.out) + [] == Initials(s.out);
  }

  lemma AnswerTurn(cfg: Config, s: LineState, e: LineEvent)
    requires e.FromServer? && e.line.Some? && !AnswersAdd(cfg, e) && !AnswersStatus(cfg, e)
    ensures Turned(cfg, s, e, AnswerLine(cfg, s, e.line.value, e.saveWorks))
  {
    hide Internals, Initials, FilterThreadList, AddRequest, RecordOwned, AnswersAdd, AnswersStatus, JsonlSpec.Remembered, Forget, HasError;
    var v := e.line.value;
    var r := AnswerLine(cfg, s, v, e.saveWorks);
    NoLineRequest(cfg, e);
    var answer := LineTrace(r)[|s.out|];
    InternalsPut(s.out, answer);
    InternalsPut(s.out + [answer], Internal(AddRequest(cfg)));
    assert Internals(s.out) + [] == Internals(s.out) && Initials(s.out) + [] == Initials(s.out);
    assert !answer.Internal?;
  }

  lemma LineRegistrationTurn(cfg: Config, s: LineState, e: LineEvent)
    ensures Turned(cfg, s, e, HandleLine(cfg, s, e))
  {
    hide HandleClientLine, AnswerLine, LineStatus, RecordOwned, Turned, Ids.AddId, Ids.StatusId, StatusRequest;
    match e
    case FromClient(_) => ClientTurn(cfg, s, e);
    case FromServer(line, _) =>
      if line.None? {
        PlainTurn(cfg, s, e, LineFailed(s.out));
      } else if AnswersAdd(cfg, e) {
        AddTurn(cfg, s, e);
      } else if AnswersStatus(cfg, e) {
        StatusTurn(cfg, s, e);
      } else {
        AnswerTurn(cfg, s, e);
      }
    case LineGone => PlainTurn(cfg, s, e, LineClosed(s.out));
    case LineBroken => PlainTurn(cfg, s, e, LineFailed(s.out));
    case LineElsewhere(response, saveWorks) => PlainTurn(cfg, s, e, LineNext(RecordLine(s, response, saveWorks)));
  }

  lemma PlainTurn(cfg: Config, s: LineState, e: LineEvent, r: LineStep)
    requires !e.FromClient? && (e.FromServer? ==> !r.LineNext?)
    requires LineTrace(r) == s.out && (r.LineNext? ==> RegistrationOf(r.state) == RegistrationOf(s))
    ensures Turned(cfg, s, e, r)
  {
    hide Internals, Initials;
    NoLineRequest(cfg, e);
    assert Internals(s.out) + [] == Internals(s.out) && Initials(s.out) + [] == Initials(s.out);
  }

  // ---- Over all runs ------------------------------------------------------------------------------------

  /** The events before the one that stopped the relay, if one did. */
  ghost function Survived(cfg: Config, s0: LineState, events: seq<LineEvent>): seq<LineEvent>
    decreases |events|
  {
    if LineRun(cfg, s0, events).LineNext? || events == [] then events
    else Survived(cfg, s0, events[..|events| - 1])
  }

  /** Over all runs: the relay's phase and initialize id are what the events make of them; its own requests on the
      App Server's wire are exactly those the events cause, in order; and so are the client's initialize requests. */
  lemma {:induction false} LineRegistration(cfg: Config, scope: Option<Scope>, events: seq<LineEvent>)
    ensures var r := LineRun(cfg, LineInitial(scope), events);
            && Internals(LineTrace(r)) == Caused(cfg, Survived(cfg, LineInitial(scope), events))
            && Initials(LineTrace(r)) == Started(cfg, Survived(cfg, LineInitial(scope), events))
            && (r.LineNext? ==> RegistrationOf(r.state) == Registered(cfg, events))
  {
    hide HandleLine, Next, Causes, Starts;
    var s0 := LineInitial(scope);
    if events != [] {
      var n := |events| - 1;
      LineRegistration(cfg, scope, events[..n]);
      var before := LineRun(cfg, s0, events[..n]);
      if before.LineNext? {
        LineRegistrationTurn(cfg, before.state, events[n]);
      }
    }
  }

  /** Over all runs: lines are held exactly from an initialize request on until registration is ready. */
  lemma LineGateExactly(cfg: Config, scope: Option<Scope>, events: seq<LineEvent>)
    requires LineRun(cfg, LineInitial(scope), events).LineNext?
    ensures var s := LineRun(cfg, LineInitial(scope), events).state;
            && (LineGateOpen(s) <==> Registered(cfg, events).initializeId.None? || Registered(cfg, events).phase == Ready)
            && (Registered(cfg, events).initializeId.None? || Registered(cfg, events).phase == Ready ==> s.held == [])
  {
    hide LineRun, Registered, ForwardedLines, ReceivedLines;
    LineRegistration(cfg, scope, events);
    JsonlFirstInFirstOut(cfg, scope, events);
  }

  // ---- How often, and in which order --------------------------------------------------------------------

  function Count(requests: seq<Json>, request: Json): nat {
    if requests == [] then 0
    else Count(requests[..|requests| - 1], request) + (if requests[|requests| - 1] == request then 1 else 0)
  }

  lemma CountAppend(requests: seq<Json>, last: Json, request: Json)
    ensures Count(requests + [last], request) == Count(requests, request) + (if last == request then 1 else 0)
  {
    assert (requests + [last])[..|requests|] == requests;
  }

  lemma RequestsDiffer(cfg: Config)
    ensures AddRequest(cfg) != StatusRequest(cfg)
  {
    assert AddRequest(cfg).fields["method"] == Str("environment/add");
    assert StatusRequest(cfg).fields["method"] == Str("environment/status");
  }

  /** At most one environment/add, whatever the servers answer, and none before the initialize answer. */
  lemma {:induction false} AtMostOneLineAdd(cfg: Config, events: seq<LineEvent>)
    ensures var adds := Count(Caused(cfg, events), AddRequest(cfg));
            adds <= 1 && (Registered(cfg, events).phase == WaitingForInitialize ==> adds == 0)
  {
    hide StatusReady, AddRequest, StatusRequest, AnswersAdd, AnswersStatus, Count;
    RequestsDiffer(cfg);
    if events == [] {
      assert Count([], AddRequest(cfg)) == 0 by { NothingCounted(AddRequest(cfg)); }
    } else {
      var init, e := events[..|events| - 1], events[|events| - 1];
      AtMostOneLineAdd(cfg, init);
      var caused := Causes(cfg, Registered(cfg, init), e);
      if caused != [] {
        CountAppend(Caused(cfg, init), caused[0], AddRequest(cfg));
      } else {
        assert Caused(cfg, init) + [] == Caused(cfg, init);
      }
    }
  }

  lemma NothingCounted(request: Json)
    ensures Count([], request) == 0
  {
  }

  /** In every reachable state that polls, the attempt counter is between 1 and 200. */
  lemma {:induction false} LineAttempts(cfg: Config, scope: Option<Scope>, events: seq<LineEvent>)
    requires LineRun(cfg, LineInitial(scope), events).LineNext?
    ensures var phase := LineRun(cfg, LineInitial(scope), events).state.phase; phase.Polling? ==> 1 <= phase.attempts <= 200
  {
    hide HandleLine, StatusReady, AnswersAdd, AnswersStatus, Internals, Initials;
    if events != [] {
      var n := |events| - 1;
      LineAttempts(cfg, scope, events[..n]);
      LineRegistrationTurn(cfg, LineRun(cfg, LineInitial(scope), events[..n]).state, events[n]);
    }
  }

  /** How many answers with this id came. */
  function Answers(events: seq<LineEvent>, id: string): nat {
    if events == [] then 0
    else Answers(events[..|events| - 1], id) + (if HasTheId(events[|events| - 1], Str(id)) then 1 else 0)
  }

  function Adds(cfg: Config, events: seq<LineEvent>): nat {
    Count(Caused(cfg, events), AddRequest(cfg))
  }

  function Statuses(cfg: Config, events: seq<LineEvent>): nat {
    Count(Caused(cfg, events), StatusRequest(cfg))
  }

  /** The App Server answers each request of the relay at most once, and only after it was written. */
  predicate Solicited(cfg: Config, events: seq<LineEvent>) {
    events != [] ==>
      var init, e := events[..|events| - 1], events[|events| - 1];
      && Solicited(cfg, init)
      && (AnswersAdd(cfg, e) ==> Answers(init, Ids.AddId(cfg.environmentId)) < Adds(cfg, init))
      && (AnswersStatus(cfg, e) ==> Answers(init, Ids.StatusId(cfg.environmentId)) < Statuses(cfg, init))
  }

  predicate Balanced(phase: Phase, adds: nat, addsAnswered: nat, statuses: nat, statusesAnswered: nat) {
    match phase
    case WaitingForInitialize => adds == addsAnswered == statuses == statusesAnswered == 0
    case Registering => adds == 1 && addsAnswered == statuses == statusesAnswered == 0
    case Polling(attempts) => adds == addsAnswered == 1 && attempts == statuses == statusesAnswered + 1
    case Ready => adds == addsAnswered == 1 && 1 <= statuses == statusesAnswered
  }

  lemma StatusIsNotAdd(cfg: Config, e: LineEvent)
    ensures AnswersStatus(cfg, e) <==> HasTheId(e, Str(Ids.StatusId(cfg.environmentId)))
  {
    Ids.InternalIdsDiffer(cfg.environmentId, Ids.EnvironmentAdd, Ids.EnvironmentStatus);
  }

  /** With an App Server that answers in order, registration only moves forward, and while polling the attempt counter is
      the number of environment/status requests written; every request but the last has been answered. */
  lemma {:induction false} LineLedger(cfg: Config, scope: Option<Scope>, events: seq<LineEvent>)
    requires LineRun(cfg, LineInitial(scope), events).LineNext? && Solicited(cfg, events)
    ensures Balanced(Registered(cfg, events).phase,
                     Adds(cfg, events), Answers(events, Ids.AddId(cfg.environmentId)),
                     Statuses(cfg, events), Answers(events, Ids.StatusId(cfg.environmentId)))
    ensures events != [] ==>
              RelayRegistration.Rank(Registered(cfg, events[..|events| - 1]).phase) <= RelayRegistration.Rank(Registered(cfg, events).phase)
  {
    hide HandleLine, StatusReady, AnswersAdd, AnswersStatus, HasTheId, Internals, Initials, Count, AddRequest, StatusRequest;
    NothingCounted(AddRequest(cfg));
    NothingCounted(StatusRequest(cfg));
    if events != [] {
      var n := |events| - 1;
      var init, e := events[..n], events[n];
      LineLedger(cfg, scope, init);
      LineRegistration(cfg, scope, init);
      LineAttempts(cfg, scope, init);
      LineRegistrationTurn(cfg, LineRun(cfg, LineInitial(scope), init).state, e);
      StatusIsNotAdd(cfg, e);
      AddHasTheId(cfg, e);
      RequestsDiffer(cfg);
      var caused := Causes(cfg, Registered(cfg, init), e);
      if caused != [] {
        CountAppend(Caused(cfg, init), caused[0], AddRequest(cfg));
        CountAppend(Caused(cfg, init), caused[0], StatusRequest(cfg));
      } else {
        assert Caused(cfg, init) + [] == Caused(cfg, init);
      }
    }
  }

  lemma AddHasTheId(cfg: Config, e: LineEvent)
    ensures AnswersAdd(cfg, e) <==> HasTheId(e, Str(Ids.AddId(cfg.environmentId)))
    ensures !(AnswersAdd(cfg, e) && AnswersStatus(cfg, e))
  {
  }
}
