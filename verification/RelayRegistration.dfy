/** Environment registration: at most one environment/add, and the polling budget. */
module RelayRegistration {
  import opened Wrappers
  import opened Json
  import opened RelaySpec
  import opened RelayFrames
  import Ids

  const ADD: set<Kind> := {ToServerAdd}
  const STATUS: set<Kind> := {ToServerStatus}

  function Adds(out: seq<Sent>): seq<Sent> {
    Select(out, ADD)
  }

  function Statuses(out: seq<Sent>): seq<Sent> {
    Select(out, STATUS)
  }

  predicate IsAnswer(e: Event, id: string) {
    e.ServerText? && e.text.Some? && HasId(e.text.value, id)
  }

  predicate AnswersAdd(cfg: Config, e: Event) {
    IsAnswer(e, Ids.AddId(cfg.environmentId))
  }

  predicate AnswersStatus(cfg: Config, e: Event) {
    IsAnswer(e, Ids.StatusId(cfg.environmentId)) && !AnswersAdd(cfg, e)
  }

  predicate AnswersInitialize(cfg: Config, s: State, e: Event) {
    e.ServerText? && e.text.Some? && !AnswersAdd(cfg, e) && !AnswersStatus(cfg, e) && IsInitializeResponse(s, e.text.value)
  }

  /** The phase after a turn that does not stop the relay. */
  function PhaseAfter(cfg: Config, s: State, e: Event): Phase {
    if AnswersAdd(cfg, e) then Polling(1)
    else if AnswersStatus(cfg, e) then
      if StatusReady(e.text.value) == Some(true) then Ready
      else if s.phase.Polling? then Polling(s.phase.attempts + 1)
      else s.phase
    else if AnswersInitialize(cfg, s, e) then Registering
    else s.phase
  }

  function NewAdds(cfg: Config, s: State, e: Event): seq<Sent> {
    if AnswersInitialize(cfg, s, e) then [EnvironmentAdd(AddRequest(cfg))] else []
  }

  function NewStatuses(cfg: Config, e: Event): seq<Sent> {
    if AnswersAdd(cfg, e) || (AnswersStatus(cfg, e) && StatusReady(e.text.value) == Some(false)) then
      [EnvironmentStatus(StatusRequest(cfg))]
    else []
  }

  /** How a turn changes the phase and what it asks of the App Server. */
  ghost predicate Turned(cfg: Config, s: State, e: Event, r: Step) {
    if r.Next? then
      && r.state.phase == PhaseAfter(cfg, s, e)
      && Adds(r.state.out) == Adds(s.out) + NewAdds(cfg, s, e)
      && Statuses(r.state.out) == Statuses(s.out) + NewStatuses(cfg, e)
      && (AnswersStatus(cfg, e) && StatusReady(e.text.value) != Some(true) ==>
            && StatusReady(e.text.value) == Some(false)
            && s.phase.Polling? && s.phase.attempts < MAX_STATUS_ATTEMPTS)
    else
      || Adds(r.sent) == Adds(s.out)
      || Adds(r.sent) == Adds(s.out) + NewAdds(cfg, s, e)
  }

  lemma Quiet(before: seq<Sent>, after: seq<Sent>, kinds: set<Kind>)
    requires Emits(before, after, kinds) && kinds !! (ADD + STATUS)
    ensures Adds(after) == Adds(before) && Statuses(after) == Statuses(before)
  {
    EmitsSelect(before, after, kinds, ADD);
    EmitsSelect(before, after, kinds, STATUS);
  }

  /** A step that concerns registration only through r1, followed by the loop tail. */
  lemma TailTurned(cfg: Config, s: State, e: Event, r1: Step)
    requires Turned(cfg, s, e, r1)
    ensures Turned(cfg, s, e, ThenTail(cfg, r1))
  {
    hide LoopTail, Adds, Statuses, NewAdds, NewStatuses, PhaseAfter, AnswersStatus;
    if r1.Next? {
      LoopTailFrame(cfg, r1.state);
      Quiet(r1.state.out, Trace(LoopTail(cfg, r1.state)), TAIL);
    }
  }

  lemma PlainTurned(cfg: Config, s: State, e: Event, r: Step, kinds: set<Kind>)
    requires !AnswersAdd(cfg, e) && !AnswersStatus(cfg, e) && !AnswersInitialize(cfg, s, e)
    requires Emits(s.out, Trace(r), kinds) && kinds !! (ADD + STATUS)
    requires r.Next? ==> r.state.phase == s.phase
    ensures Turned(cfg, s, e, r)
  {
    hide Adds, Statuses, AnswersAdd, AnswersStatus, AnswersInitialize;
    Quiet(s.out, Trace(r), kinds);
    assert Adds(s.out) + [] == Adds(s.out) && Statuses(s.out) + [] == Statuses(s.out);
  }

  lemma ServerMessageTurned(cfg: Config, s: State, e: Event)
    requires e.ServerText? && e.text.Some? && !AnswersAdd(cfg, e) && !AnswersStatus(cfg, e)
    ensures Turned(cfg, s, e, HandleServerMessage(cfg, s, e.text.value, e.order, e.saveWorks))
  {
    hide HandleStartAnswer, FilterThreadList, AddRequest, FindAnswered, Select;
    var v := e.text.value;
    var r := HandleServerMessage(cfg, s, v, e.order, e.saveWorks);
    if IsInitializeResponse(s, v) {
      if r.Next? {
        SelectAppend(s.out, EnvironmentAdd(AddRequest(cfg)), ADD);
        SelectAppend(s.out, EnvironmentAdd(AddRequest(cfg)), STATUS);
        assert Statuses(s.out) + [] == Statuses(s.out);
      }
    } else {
      ServerMessageFrame(cfg, s, v, e.order, e.saveWorks);
      NoAdd(cfg, s, v, e.order, e.saveWorks);
      PlainTurned(cfg, s, e, r, {ToClientStart, ToClientList, ToClientFromServer});
    }
  }

  lemma NoAdd(cfg: Config, s: State, v: Json, order: seq<string>, saveWorks: bool)
    requires !IsInitializeResponse(s, v)
    ensures var r := HandleServerMessage(cfg, s, v, order, saveWorks);
            Emits(s.out, Trace(r), {ToClientStart, ToClientList, ToClientFromServer})
  {
    hide HandleStartAnswer, FilterThreadList;
    var answered := FindAnswered(order, s.pending, v);
    if answered.Some? {
      StartAnswerFrame(s, answered.value, v, saveWorks);
    }
  }

  lemma StatusTurned(cfg: Config, s: State, e: Event)
    requires AnswersStatus(cfg, e)
    ensures Turned(cfg, s, e, HandleStatus(cfg, s, e.text.value))
  {
    hide Drain, StatusReady, StatusRequest, Select, AnswersAdd;
    var r := HandleStatus(cfg, s, e.text.value);
    var ready := StatusReady(e.text.value);
    assert Adds(s.out) + [] == Adds(s.out) && Statuses(s.out) + [] == Statuses(s.out);
    if ready == Some(true) {
      DrainFrame(cfg, s.(phase := Ready));
      Quiet(s.out, Trace(r), FORWARDS);
    } else if r.Next? {
      SelectAppend(s.out, EnvironmentStatus(StatusRequest(cfg)), ADD);
      SelectAppend(s.out, EnvironmentStatus(StatusRequest(cfg)), STATUS);
    }
  }

  lemma AddTurned(cfg: Config, s: State, e: Event)
    requires AnswersAdd(cfg, e)
    ensures Turned(cfg, s, e, BeginStatusPoll(cfg, s, e.text.value))
  {
    hide StatusRequest, Select;
    var r := BeginStatusPoll(cfg, s, e.text.value);
    assert Adds(s.out) + [] == Adds(s.out);
    if r.Next? {
      SelectAppend(s.out, EnvironmentStatus(StatusRequest(cfg)), ADD);
      SelectAppend(s.out, EnvironmentStatus(StatusRequest(cfg)), STATUS);
    }
  }

  lemma ClientTextTurned(cfg: Config, s: State, e: Event)
    requires e.ClientText?
    ensures Turned(cfg, s, e, HandleClientText(cfg, s, e.text))
  {
    hide AcceptClientText, Rewrite, Turned;
    var r := HandleClientText(cfg, s, e.text);
    if e.text.Some? && Rewrite(cfg, e.text.value).Some? {
      AcceptFrame(cfg, s, Rewrite(cfg, e.text.value).value);
    }
    PlainTurned(cfg, s, e, r, FORWARDS + {ToServerInitialize, ToHostInitialize});
  }

  lemma RegistrationTurn(cfg: Config, s: State, e: Event)
    ensures Turned(cfg, s, e, Handle(cfg, s, e))
  {
    hide LoopTail, HandleHostMessage, HandleServerMessage, HandleClientText, RecordOwned, SendExpired,
         HandleStatus, BeginStatusPoll, Turned, Emits;
    match e
    case ClientText(text) =>
      ClientTextTurned(cfg, s, e);
      TailTurned(cfg, s, e, HandleClientText(cfg, s, text));
    case ServerText(text, order, saveWorks) =>
      if text.None? {
        PlainTurned(cfg, s, e, Failed(s.out), {}) by { SentNothing(s.out); }
      } else if AnswersAdd(cfg, e) {
        AddTurned(cfg, s, e);
      } else if AnswersStatus(cfg, e) {
        StatusTurned(cfg, s, e);
      } else {
        ServerMessageTurned(cfg, s, e);
        TailTurned(cfg, s, e, HandleServerMessage(cfg, s, text.value, order, saveWorks));
      }
    case ClientOther(frame) =>
      var s1 := Send(s, ServerFrame(frame));
      PlainTurned(cfg, s, e, Next(s1), {ToServerFrame}) by { SentOne(s.out, ServerFrame(frame)); }
      TailTurned(cfg, s, e, Next(s1));
    case ServerOther(frame) =>
      var s1 := Send(s, ClientFrame(frame));
      PlainTurned(cfg, s, e, Next(s1), {ToClientFrame}) by { SentOne(s.out, ClientFrame(frame)); }
      TailTurned(cfg, s, e, Next(s1));
    case HostLine(line, order) =>
      if line.None? {
        PlainTurned(cfg, s, e, Failed(s.out), {}) by { SentNothing(s.out); }
      } else {
        HostMessageFrame(cfg, s, line.value, order);
        PlainTurned(cfg, s, e, HandleHostMessage(cfg, s, line.value, order), {ToServerStart, ToHostRead, ToClientFromHost});
        TailTurned(cfg, s, e, HandleHostMessage(cfg, s, line.value, order));
      }
    case Gone => PlainTurned(cfg, s, e, Closed(s.out), {}) by { SentNothing(s.out); }
    case Broken => PlainTurned(cfg, s, e, Failed(s.out), {}) by { SentNothing(s.out); }
    case Expiry(expired) =>
      SendExpiredFrame(s, expired);
      PlainTurned(cfg, s, e, SendExpired(s, expired), {ToServerStart});
      TailTurned(cfg, s, e, SendExpired(s, expired));
    case ScopeElsewhere(response, saveWorks) =>
      RecordFrame(s, response, saveWorks);
      PlainTurned(cfg, s, e, Next(RecordOwned(s, response, saveWorks)), {}) by { SentNothing(s.out); }
  }

  lemma SentNothing(out: seq<Sent>)
    ensures Emits(out, out, {})
  {
  }

  lemma SentOne(out: seq<Sent>, frame: Sent)
    ensures Emits(out, out + [frame], {KindOf(frame)})
  {
  }

  // ---- Over all runs ---------------------------------------------------------------------

  ghost predicate PhaseInv(cfg: Config, s: State) {
    && (Adds(s.out) == [] || Adds(s.out) == [EnvironmentAdd(AddRequest(cfg))])
    && (s.phase == WaitingForInitialize ==> Adds(s.out) == [])
    && (s.phase.Polling? ==> 1 <= s.phase.attempts <= MAX_STATUS_ATTEMPTS)
  }

  lemma PhaseKept(cfg: Config, s: State, e: Event)
    requires PhaseInv(cfg, s)
    ensures var r := Handle(cfg, s, e);
            if r.Next? then PhaseInv(cfg, r.state)
            else Adds(r.sent) == [] || Adds(r.sent) == [EnvironmentAdd(AddRequest(cfg))]
  {
    hide Handle, Adds, Statuses, AddRequest, StatusRequest, AnswersAdd, StatusReady;
    RegistrationTurn(cfg, s, e);
  }

  /** A connection asks the App Server for the environment at most once, however its run goes,
      and polls at most 200 times in a row. */
  lemma {:induction false} AtMostOneAdd(cfg: Config, scope: Option<Scope>, events: seq<Event>)
    ensures var r := Run(cfg, Initial(scope), events);
            && (Adds(Trace(r)) == [] || Adds(Trace(r)) == [EnvironmentAdd(AddRequest(cfg))])
            && (r.Next? ==> PhaseInv(cfg, r.state))
  {
    hide Handle, AddRequest;
    if events != [] {
      AtMostOneAdd(cfg, scope, events[..|events| - 1]);
      var before := Run(cfg, Initial(scope), events[..|events| - 1]);
      if before.Next? {
        PhaseKept(cfg, before.state, events[|events| - 1]);
      }
    }
  }

  function Rank(phase: Phase): nat {
    match phase
    case WaitingForInitialize => 0
    case Registering => 1
    case Polling(attempts) => 1 + attempts
    case Ready => MAX_STATUS_ATTEMPTS + 2
  }

  /** The only thing that moves registration back is a further environment/add response. */
  lemma GoesBackExactlyWhen(cfg: Config, s: State, e: Event)
    requires PhaseInv(cfg, s) && Handle(cfg, s, e).Next?
    ensures Rank(Handle(cfg, s, e).state.phase) < Rank(s.phase)
            <==> AnswersAdd(cfg, e) && Rank(s.phase) > Rank(Polling(1))
  {
    hide Handle, Adds, Statuses, AnswersAdd, StatusReady;
    RegistrationTurn(cfg, s, e);
  }

  /** How many answers to the request id the run has processed. */
  ghost function Answered(cfg: Config, s: State, events: seq<Event>, id: string): nat {
    if events == [] then 0
    else
      var before, e := Run(cfg, s, events[..|events| - 1]), events[|events| - 1];
      Answered(cfg, s, events[..|events| - 1], id)
        + (if before.Next? && Enabled(before.state, e) && IsAnswer(e, id) then 1 else 0)
  }

  ghost function AddsAnswered(cfg: Config, s: State, events: seq<Event>): nat {
    Answered(cfg, s, events, Ids.AddId(cfg.environmentId))
  }

  ghost function StatusesAnswered(cfg: Config, s: State, events: seq<Event>): nat {
    Answered(cfg, s, events, Ids.StatusId(cfg.environmentId))
  }

  /** The App Server answers each environment request at most once, and only after it was sent. */
  ghost predicate Solicited(cfg: Config, s: State, events: seq<Event>) {
    if events == [] then true
    else
      var init, e := events[..|events| - 1], events[|events| - 1];
      var before := Run(cfg, s, init);
      && Solicited(cfg, s, init)
      && (before.Next? && AnswersAdd(cfg, e) ==> AddsAnswered(cfg, s, init) < |Adds(before.state.out)|)
      && (before.Next? && AnswersStatus(cfg, e) ==> StatusesAnswered(cfg, s, init) < |Statuses(before.state.out)|)
  }

  ghost predicate Ledger(s: State, addsAnswered: nat, statusesAnswered: nat) {
    var adds, statuses := |Adds(s.out)|, |Statuses(s.out)|;
    match s.phase
    case WaitingForInitialize => adds == addsAnswered == statuses == statusesAnswered == 0
    case Registering => adds == 1 && addsAnswered == statuses == statusesAnswered == 0
    case Polling(attempts) =>
      adds == addsAnswered == 1 && attempts == statuses == statusesAnswered + 1 && statuses <= MAX_STATUS_ATTEMPTS
    case Ready => adds == addsAnswered == 1 && 1 <= statuses == statusesAnswered <= MAX_STATUS_ATTEMPTS
  }

  lemma LedgerKept(cfg: Config, s: State, e: Event, adds: nat, statuses: nat)
    requires Ledger(s, adds, statuses)
    requires AnswersAdd(cfg, e) ==> adds < |Adds(s.out)|
    requires AnswersStatus(cfg, e) ==> statuses < |Statuses(s.out)|
    ensures var r := Handle(cfg, s, e);
            r.Next? ==>
              && Ledger(r.state, adds + (if AnswersAdd(cfg, e) then 1 else 0), statuses + (if AnswersStatus(cfg, e) then 1 else 0))
              && Rank(s.phase) <= Rank(r.state.phase)
  {
    hide Handle, Adds, Statuses, AddRequest, StatusRequest, AnswersAdd, StatusReady;
    RegistrationTurn(cfg, s, e);
  }

  lemma StatusIsNotAdd(cfg: Config, e: Event)
    ensures AnswersStatus(cfg, e) <==> IsAnswer(e, Ids.StatusId(cfg.environmentId))
  {
    if Ids.AddId(cfg.environmentId) == Ids.StatusId(cfg.environmentId) {
      Ids.InternalIdsDistinct(cfg.environmentId, Ids.EnvironmentAdd, Ids.EnvironmentStatus);
    }
  }

  /** With an App Server that answers in order, registration only moves forward, and while polling
      the attempt counter is the number of environment/status requests sent. */
  lemma {:induction false} RegistrationLedger(cfg: Config, scope: Option<Scope>, events: seq<Event>)
    requires Solicited(cfg, Initial(scope), events)
    ensures var s0 := Initial(scope);
            var r := Run(cfg, s0, events);
            && (r.Next? ==> Ledger(r.state, AddsAnswered(cfg, s0, events), StatusesAnswered(cfg, s0, events)))
            && (r.Next? && events != [] ==>
                  Rank(Run(cfg, s0, events[..|events| - 1]).state.phase) <= Rank(r.state.phase))
  {
    hide Handle, Adds, Statuses, AnswersAdd, AnswersStatus, Ledger, Rank;
    var s0 := Initial(scope);
    if events == [] {
      assert Ledger(s0, 0, 0) by { EmptyLedger(scope); }
    } else {
      var init, e := events[..|events| - 1], events[|events| - 1];
      RegistrationLedger(cfg, scope, init);
      var before := Run(cfg, s0, init);
      if before.Next? && Enabled(before.state, e) {
        StatusIsNotAdd(cfg, e);
        LedgerKept(cfg, before.state, e, AddsAnswered(cfg, s0, init), StatusesAnswered(cfg, s0, init));
        assert AnswersAdd(cfg, e) <==> IsAnswer(e, Ids.AddId(cfg.environmentId)) by { AddIsAnswer(cfg, e); }
      }
    }
  }

  lemma AddIsAnswer(cfg: Config, e: Event)
    ensures AnswersAdd(cfg, e) <==> IsAnswer(e, Ids.AddId(cfg.environmentId))
  {
  }

  lemma EmptyLedger(scope: Option<Scope>)
    ensures Ledger(Initial(scope), 0, 0)
  {
  }

  // ---- What is asked, and what counts as ready ---------------------------------------------------------

  /** environment/add names the environment and the port the executor listens on. */
  lemma AddRequestIs(cfg: Config)
    ensures var m := AddRequest(cfg);
            && m.Obj? && m.fields.Keys == {"id", "method", "params"}
            && Field(m, "id") == Some(Str(Ids.AddId(cfg.environmentId)))
            && Field(m, "method") == Some(Str("environment/add"))
            && Field(m, "params") == Some(Obj(map[
                 "environmentId" := Str(cfg.environmentId),
                 "execServerUrl" := Str("ws://127.0.0.1:" + Ids.Decimal(cfg.localExecPort)),
                 "connectTimeoutMs" := Num(10000)]))
  {
  }

  /** environment/status asks for the same environment. */
  lemma StatusRequestIs(cfg: Config)
    ensures var m := StatusRequest(cfg);
            && m.Obj? && m.fields.Keys == {"id", "method", "params"}
            && Field(m, "id") == Some(Str(Ids.StatusId(cfg.environmentId)))
            && Field(m, "method") == Some(Str("environment/status"))
            && Field(m, "params") == Some(Obj(map["environmentId" := Str(cfg.environmentId)]))
  {
  }

  /** The member name of object v. */
  predicate Member(v: Json, name: string, x: Json) {
    v.Obj? && name in v.fields && v.fields[name] == x
  }

  /** A status answer says whether the environment is ready exactly when it is no error and its result has a status
      text; and it is ready exactly when that text is "ready". */
  lemma StatusReadyExactly(v: Json, text: string)
    ensures StatusReady(v).Some? <==> (forall x :: !Member(v, "error", x)) && exists result, status :: Member(v, "result", result) && Member(result, "status", Str(status))
    ensures (forall x :: !Member(v, "error", x)) && (exists result :: Member(v, "result", result) && Member(result, "status", Str(text))) ==>
              StatusReady(v) == Some(text == "ready")
  {
    if StatusReady(v).Some? {
      var result := Field(v, "result").value;
      var status := StringField(result, "status").value;
      assert Member(v, "result", result) && Member(result, "status", Str(status));
      assert forall x :: !Member(v, "error", x);
    }
    if HasError(v) {
      assert Member(v, "error", Field(v, "error").value);
    }
  }
}
