/** The older line relay: one App Server, and the same "hold, then first in first out" discipline. */
module JsonlSpec {
  import opened Wrappers
  import opened Json
  import opened RelaySpec
  import Dispatcher
  import Ids

  /** A line put on a wire: the client's own, the relay's own, or an answer to the client, which is passed on as it
      is or filtered by the scope. */
  datatype Line =
    | Initialize(message: Json)
    | Request(message: Json)
    | Internal(message: Json)
    | Answer(response: Json)
    | ListAnswer(response: Json, scope: Option<Scope>, message: Json)

  datatype LineState = LineState(
    initializeId: Option<Json>,
    phase: Phase,
    held: seq<Json>,
    heldBytes: nat,
    startIds: set<Json>,
    listIds: set<Json>,
    scope: Option<Scope>,
    savedScope: Option<Scope>,
    out: seq<Line>)

  datatype LineStep =
    | LineNext(state: LineState)
    | LineClosed(sent: seq<Line>)
    | LineFailed(sent: seq<Line>)

  datatype LineEvent =
    | FromClient(line: Option<Json>)
    | FromServer(line: Option<Json>, saveWorks: bool)
    | LineGone
    | LineBroken
    | LineElsewhere(response: Json, saveWorks: bool)

  function LineInitial(scope: Option<Scope>): LineState {
    LineState(None, WaitingForInitialize, [], 0, {}, {}, scope, scope, [])
  }

  function LineTrace(step: LineStep): seq<Line> {
    match step case LineNext(s) => s.out case LineClosed(sent) => sent case LineFailed(sent) => sent
  }

  function Put(s: LineState, line: Line): LineState {
    s.(out := s.out + [line])
  }

  predicate LineGateOpen(s: LineState) {
    s.initializeId.None? || s.phase == Ready
  }

  function Remember(ids: set<Json>, m: Json): set<Json> {
    if Field(m, "id").Some? then ids + {Field(m, "id").value} else ids
  }

  predicate Remembered(ids: set<Json>, m: Json) {
    Field(m, "id").Some? && Field(m, "id").value in ids
  }

  function Forget(ids: set<Json>, m: Json): set<Json> {
    if Field(m, "id").Some? then ids - {Field(m, "id").value} else ids
  }

  function AcceptLine(cfg: Config, s: LineState, m: Json): LineStep {
    var verb := Method(m);
    var isInitialize := verb == Some("initialize");
    var s1 := s.(
      initializeId := if isInitialize then Field(m, "id") else s.initializeId,
      startIds := if verb == Some("thread/start") then Remember(s.startIds, m) else s.startIds,
      listIds := if verb == Some("thread/list") then Remember(s.listIds, m) else s.listIds);
    if !LineGateOpen(s1) && !isInitialize then
      var bytes := SatAdd(s1.heldBytes, |cfg.encode(m)|);
      if bytes > MAX_PENDING_CLIENT_BYTES then LineFailed(s.out)
      else LineNext(s1.(held := s1.held + [m], heldBytes := bytes))
    else LineNext(Put(s1, if isInitialize then Initialize(m) else Request(m)))
  }

  function HandleClientLine(cfg: Config, s: LineState, line: Option<Json>): LineStep {
    if line.None? then LineFailed(s.out)
    else
      var m := Rewrite(cfg, line.value);
      if m.None? then LineFailed(s.out) else AcceptLine(cfg, s, m.value)
  }

  function DrainLines(cfg: Config, s: LineState): LineState
    decreases |s.held|
  {
    if s.held == [] then s
    else
      DrainLines(cfg, Put(s.(held := s.held[1..], heldBytes := SatSub(s.heldBytes, |cfg.encode(s.held[0])|)),
                          Request(s.held[0])))
  }

  function LineStatus(cfg: Config, s: LineState, v: Json): LineStep {
    var ready := StatusReady(v);
    if ready.None? then LineFailed(s.out)
    else if ready.value then LineNext(DrainLines(cfg, s.(phase := Ready)))
    else if !s.phase.Polling? || s.phase.attempts + 1 > MAX_STATUS_ATTEMPTS then LineFailed(s.out)
    else LineNext(Put(s.(phase := Polling(s.phase.attempts + 1)), Internal(StatusRequest(cfg))))
  }

  /** Recording ownership, as record_owned_thread does for either relay. */
  function RecordLine(s: LineState, response: Json, saveWorks: bool): LineState {
    var recorded := RecordOwned(Initial(s.scope).(savedScope := s.savedScope), response, saveWorks);
    s.(scope := recorded.scope, savedScope := recorded.savedScope)
  }

  function AnswerLine(cfg: Config, s: LineState, v: Json, saveWorks: bool): LineStep {
    var isInitializeResponse :=
      s.phase == WaitingForInitialize && s.initializeId.Some? && Field(v, "id") == s.initializeId;
    var s1 := if Remembered(s.startIds, v) then RecordLine(s, v, saveWorks).(startIds := Forget(s.startIds, v)) else s;
    var message := if Remembered(s.listIds, v) then FilterThreadList(v, s1.scope) else v;
    var answer := if Remembered(s.listIds, v) then ListAnswer(v, s1.scope, message) else Answer(v);
    var s2 := Put(s1.(listIds := Forget(s.listIds, v)), answer);
    if !isInitializeResponse then LineNext(s2)
    else if HasError(message) then LineFailed(s2.out)
    else LineNext(Put(s2.(phase := Registering), Internal(AddRequest(cfg))))
  }

  function HandleServerLine(cfg: Config, s: LineState, line: Option<Json>, saveWorks: bool): LineStep {
    if line.None? then LineFailed(s.out)
    else if IsAddResponse(cfg, line.value) then
      if HasError(line.value) then LineFailed(s.out)
      else LineNext(Put(s.(phase := Polling(1)), Internal(StatusRequest(cfg))))
    else if IsStatusResponse(cfg, line.value) then LineStatus(cfg, s, line.value)
    else AnswerLine(cfg, s, line.value, saveWorks)
  }

  function HandleLine(cfg: Config, s: LineState, e: LineEvent): LineStep {
    match e
    case FromClient(line) => HandleClientLine(cfg, s, line)
    case FromServer(line, saveWorks) => HandleServerLine(cfg, s, line, saveWorks)
    case LineGone => LineClosed(s.out)
    case LineBroken => LineFailed(s.out)
    case LineElsewhere(response, saveWorks) => LineNext(RecordLine(s, response, saveWorks))
  }

  function LineRun(cfg: Config, s: LineState, events: seq<LineEvent>): LineStep {
    if events == [] then LineNext(s)
    else
      var before := LineRun(cfg, s, events[..|events| - 1]);
      if before.LineNext? then HandleLine(cfg, before.state, events[|events| - 1]) else before
  }

  // ---- Refinement of the dispatcher --------------------------------------------------------

  /** The client's lines, other than initialize, in the order they were forwarded. */
  function ForwardedLines(out: seq<Line>): seq<Json> {
    if out == [] then []
    else
      ForwardedLines(out[..|out| - 1]) + (if out[|out| - 1].Request? then [out[|out| - 1].message] else [])
  }

  function LineBytes(cfg: Config, held: seq<Json>): nat {
    if held == [] then 0 else |cfg.encode(held[0])| + LineBytes(cfg, held[1..])
  }

  lemma {:induction false} LineBytesAppend(cfg: Config, held: seq<Json>, m: Json)
    ensures LineBytes(cfg, held + [m]) == LineBytes(cfg, held) + |cfg.encode(m)|
  {
    if held == [] {
      assert (held + [m])[1..] == [];
    } else {
      assert (held + [m])[1..] == held[1..] + [m];
      LineBytesAppend(cfg, held[1..], m);
    }
  }

  ghost predicate LineHead(cfg: Config, s: LineState, h: Dispatcher.Hold<Json>) {
    && ForwardedLines(s.out) == h.done
    && s.held == h.held
    && s.heldBytes == LineBytes(cfg, s.held) <= MAX_PENDING_CLIENT_BYTES
    && (LineGateOpen(s) ==> s.held == [])
  }

  function LineArrival(cfg: Config, e: LineEvent): Option<Json> {
    if !e.FromClient? || e.line.None? then None
    else
      var m := Rewrite(cfg, e.line.value);
      if m.None? || Method(m.value) == Some("initialize") then None else m
  }

  lemma {:induction false} DrainLinesDone(cfg: Config, s: LineState)
    requires s.heldBytes == LineBytes(cfg, s.held)
    ensures var r := DrainLines(cfg, s);
            && ForwardedLines(r.out) == ForwardedLines(s.out) + s.held
            && r == s.(held := [], heldBytes := 0, out := r.out)
    decreases |s.held|
  {
    if s.held != [] {
      var s1 := Put(s.(held := s.held[1..], heldBytes := SatSub(s.heldBytes, |cfg.encode(s.held[0])|)), Request(s.held[0]));
      assert s1.out[..|s.out|] == s.out;
      DrainLinesDone(cfg, s1);
      assert ForwardedLines(s.out) + [s.held[0]] + s.held[1..] == ForwardedLines(s.out) + s.held;
    }
  }

  function LineTurn(cfg: Config, s: LineState, e: LineEvent, s': LineState): Dispatcher.Turn<Json> {
    Dispatcher.Turn(LineArrival(cfg, e), LineGateOpen(s), LineGateOpen(s'))
  }

  ghost predicate LineTurnSettles(cfg: Config, s: LineState, e: LineEvent, h: Dispatcher.Hold<Json>, r: LineStep) {
    if r.LineNext? then LineHead(cfg, r.state, Dispatcher.Advance(h, LineTurn(cfg, s, e, r.state)))
    else ForwardedLines(r.sent) == h.done
  }

  lemma RewriteInitializeHasId(cfg: Config, raw: Json)
    ensures var m := Rewrite(cfg, raw);
            m.Some? && Method(m.value) == Some("initialize") ==> Field(m.value, "id").Some?
  {
    hide Environments;
  }

  lemma AcceptLineRefines(cfg: Config, s: LineState, e: LineEvent, h: Dispatcher.Hold<Json>)
    requires LineHead(cfg, s, h) && e.FromClient?
    ensures LineTurnSettles(cfg, s, e, h, HandleClientLine(cfg, s, e.line))
  {
    hide Rewrite;
    if e.line.Some? && Rewrite(cfg, e.line.value).Some? {
      var m := Rewrite(cfg, e.line.value).value;
      RewriteInitializeHasId(cfg, e.line.value);
      LineBytesAppend(cfg, s.held, m);
      var r := AcceptLine(cfg, s, m);
      if r.LineNext? && r.state.out != s.out {
        assert r.state.out[..|s.out|] == s.out;
      }
    }
  }

  lemma PutOther(out: seq<Line>, line: Line)
    ensures !line.Request? ==> ForwardedLines(out + [line]) == ForwardedLines(out)
  {
    assert (out + [line])[..|out|] == out;
  }

  /** A turn that forwards nothing and does not open the gate. */
  lemma LineShortTurn(cfg: Config, s: LineState, e: LineEvent, h: Dispatcher.Hold<Json>, r: LineStep)
    requires LineHead(cfg, s, h) && !e.FromClient?
    requires ForwardedLines(LineTrace(r)) == ForwardedLines(s.out)
    requires r.LineNext? ==>
               && r.state.held == s.held && r.state.heldBytes == s.heldBytes && r.state.initializeId == s.initializeId
               && (r.state.phase == Ready ==> s.phase == Ready)
    ensures LineTurnSettles(cfg, s, e, h, r)
  {
    hide ForwardedLines;
    assert h.held == [] ==> h.done + h.held == h.done;
  }

  lemma LineStatusRefines(cfg: Config, s: LineState, e: LineEvent, v: Json, h: Dispatcher.Hold<Json>)
    requires LineHead(cfg, s, h) && e.FromServer?
    ensures LineTurnSettles(cfg, s, e, h, LineStatus(cfg, s, v))
  {
    hide StatusReady, StatusRequest, DrainLines, ForwardedLines;
    if StatusReady(v) == Some(true) {
      DrainLinesDone(cfg, s.(phase := Ready));
    } else {
      PutOther(s.out, Internal(StatusRequest(cfg)));
      LineShortTurn(cfg, s, e, h, LineStatus(cfg, s, v));
    }
  }

  lemma AnswerLineRefines(cfg: Config, s: LineState, e: LineEvent, v: Json, saveWorks: bool, h: Dispatcher.Hold<Json>)
    requires LineHead(cfg, s, h) && e.FromServer?
    ensures LineTurnSettles(cfg, s, e, h, AnswerLine(cfg, s, v, saveWorks))
  {
    hide FilterThreadList, AddRequest, RecordOwned, Forget, Remembered, ForwardedLines;
    var r := AnswerLine(cfg, s, v, saveWorks);
    var answer := LineTrace(r)[|s.out|];
    PutOther(s.out, answer);
    PutOther(s.out + [answer], Internal(AddRequest(cfg)));
    LineShortTurn(cfg, s, e, h, r);
  }

  lemma LineStops(cfg: Config, s: LineState, e: LineEvent, h: Dispatcher.Hold<Json>)
    requires LineHead(cfg, s, h)
    ensures LineTurnSettles(cfg, s, e, h, LineFailed(s.out)) && LineTurnSettles(cfg, s, e, h, LineClosed(s.out))
  {
  }

  lemma ServerLineRefines(cfg: Config, s: LineState, e: LineEvent, h: Dispatcher.Hold<Json>)
    requires LineHead(cfg, s, h) && e.FromServer?
    ensures LineTurnSettles(cfg, s, e, h, HandleServerLine(cfg, s, e.line, e.saveWorks))
  {
    hide AnswerLine, LineStatus, StatusRequest, IsAddResponse, IsStatusResponse, LineTurnSettles, LineHead, ForwardedLines;
    LineStops(cfg, s, e, h);
    if e.line.Some? {
      if IsAddResponse(cfg, e.line.value) {
        PutOther(s.out, Internal(StatusRequest(cfg)));
        if !HasError(e.line.value) {
          LineShortTurn(cfg, s, e, h, LineNext(Put(s.(phase := Polling(1)), Internal(StatusRequest(cfg)))));
        }
      } else if IsStatusResponse(cfg, e.line.value) {
        LineStatusRefines(cfg, s, e, e.line.value, h);
      } else {
        AnswerLineRefines(cfg, s, e, e.line.value, e.saveWorks, h);
      }
    }
  }

  lemma LineTurnRefines(cfg: Config, s: LineState, e: LineEvent, h: Dispatcher.Hold<Json>)
    requires LineHead(cfg, s, h)
    ensures LineTurnSettles(cfg, s, e, h, HandleLine(cfg, s, e))
  {
    hide HandleClientLine, HandleServerLine, RecordOwned, LineTurnSettles, LineHead, ForwardedLines;
    LineStops(cfg, s, e, h);
    match e
    case FromClient(_) => AcceptLineRefines(cfg, s, e, h);
    case FromServer(_, _) => ServerLineRefines(cfg, s, e, h);
    case LineGone =>
    case LineBroken =>
    case LineElsewhere(response, saveWorks) => LineShortTurn(cfg, s, e, h, LineNext(RecordLine(s, response, saveWorks)));
  }

  ghost function LineTurns(cfg: Config, s: LineState, events: seq<LineEvent>): seq<Dispatcher.Turn<Json>> {
    if events == [] then []
    else
      var before := LineRun(cfg, s, events[..|events| - 1]);
      var after := LineRun(cfg, s, events);
      LineTurns(cfg, s, events[..|events| - 1])
        + (if before.LineNext? && after.LineNext? then [LineTurn(cfg, before.state, events[|events| - 1], after.state)] else [])
  }

  ghost function ReceivedLines(cfg: Config, s: LineState, events: seq<LineEvent>): seq<Json> {
    if events == [] then []
    else
      ReceivedLines(cfg, s, events[..|events| - 1])
        + (if LineRun(cfg, s, events[..|events| - 1]).LineNext? then Listed(LineArrival(cfg, events[|events| - 1])) else [])
  }

  /** The line relay's runs are runs of the same abstract dispatcher. */
  lemma {:induction false} JsonlRefinesDispatcher(cfg: Config, scope: Option<Scope>, events: seq<LineEvent>)
    ensures var r, turns := LineRun(cfg, LineInitial(scope), events), LineTurns(cfg, LineInitial(scope), events);
            r.LineNext? ==>
              && LineHead(cfg, r.state, Dispatcher.Play(turns))
              && Dispatcher.Continuous(turns)
              && Dispatcher.Arrivals(turns) == ReceivedLines(cfg, LineInitial(scope), events)
              && (turns != [] ==> turns[|turns| - 1].openAfter == LineGateOpen(r.state))
              && (turns == [] ==> LineGateOpen(r.state))
  {
    hide HandleLine, LineArrival, LineGateOpen, LineHead;
    var s0 := LineInitial(scope);
    if events == [] {
      assert LineHead(cfg, s0, Dispatcher.Hold([], [])) && LineGateOpen(s0) by { LineInitialHead(cfg, scope); }
    } else {
      var init, e := events[..|events| - 1], events[|events| - 1];
      JsonlRefinesDispatcher(cfg, scope, init);
      var before := LineRun(cfg, s0, init);
      if before.LineNext? && LineRun(cfg, s0, events).LineNext? {
        LineTurnRefines(cfg, before.state, e, Dispatcher.Play(LineTurns(cfg, s0, init)));
        assert LineTurns(cfg, s0, events)[..|LineTurns(cfg, s0, init)|] == LineTurns(cfg, s0, init);
      }
    }
  }

  lemma LineInitialHead(cfg: Config, scope: Option<Scope>)
    ensures LineHead(cfg, LineInitial(scope), Dispatcher.Hold([], [])) && LineGateOpen(LineInitial(scope))
  {
  }

  /** The same guarantee as for the WebSocket relay: forwarded, then held, is what was received; and however a
      run ends, what was forwarded is a prefix of what was received. */
  lemma {:induction false} JsonlFirstInFirstOut(cfg: Config, scope: Option<Scope>, events: seq<LineEvent>)
    ensures var r, received := LineRun(cfg, LineInitial(scope), events), ReceivedLines(cfg, LineInitial(scope), events);
            if r.LineNext? then
              && ForwardedLines(r.state.out) + r.state.held == received
              && (LineGateOpen(r.state) ==> r.state.held == [])
              && r.state.heldBytes == LineBytes(cfg, r.state.held) <= MAX_PENDING_CLIENT_BYTES
            else ForwardedLines(r.sent) <= received
  {
    hide HandleLine, LineArrival, LineTurns, LineGateOpen, ForwardedLines;
    var s0 := LineInitial(scope);
    var r := LineRun(cfg, s0, events);
    JsonlRefinesDispatcher(cfg, scope, events);
    if r.LineNext? {
      Dispatcher.FirstInFirstOut(LineTurns(cfg, s0, events));
    } else {
      var init := events[..|events| - 1];
      var before := LineRun(cfg, s0, init);
      if before.LineNext? {
        JsonlRefinesDispatcher(cfg, scope, init);
        Dispatcher.FirstInFirstOut(LineTurns(cfg, s0, init));
        LineTurnRefines(cfg, before.state, events[|events| - 1], Dispatcher.Play(LineTurns(cfg, s0, init)));
      } else {
        JsonlFirstInFirstOut(cfg, scope, init);
      }
    }
  }
}
