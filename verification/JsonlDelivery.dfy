/** Ownership and list filtering in the line relay, over all runs. */
module JsonlDelivery {
  import opened Wrappers
  import opened Json
  import opened RelaySpec
  import opened JsonlSpec
  import opened RelayDelivery
  import RelayRewrite

  // ---- One turn -------------------------------------------------------------------------------

  /** e is a message of the App Server that is passed to the client. */
  predicate ForClient(cfg: Config, e: LineEvent) {
    e.FromServer? && e.line.Some? && NoEnvironmentAnswer(cfg, e.line.value)
  }

  /** v carries one of these ids. */
  predicate HasOneOf(ids: set<Json>, v: Json) {
    Field(v, "id").Some? && Field(v, "id").value in ids
  }

  /** The thread that e makes one of the client's own, when the thread/start requests with startIds have no answer yet:
      one that such an answer names, or one that another connection of the bridge recorded. */
  function RecordedBy(cfg: Config, startIds: set<Json>, e: LineEvent): Option<string> {
    if ForClient(cfg, e) && HasOneOf(startIds, e.line.value) then StartedThread(e.line.value)
    else if e.LineElsewhere? then StartedThread(e.response)
    else None
  }

  function Named(id: Option<string>): set<string> {
    if id.Some? then {id.value} else {}
  }

  function ScopeAfter(cfg: Config, s: LineState, e: LineEvent): Option<Scope> {
    Grown(s.scope, Named(RecordedBy(cfg, s.startIds, e)))
  }

  predicate LineSaves(e: LineEvent) {
    (e.FromServer? && e.saveWorks) || (e.LineElsewhere? && e.saveWorks)
  }

  predicate Safe(scope: Option<Scope>) {
    scope.Some? ==> forall t :: t in scope.value.threadIds ==> ValidThreadId(t)
  }

  /** The stored scope follows memory when a thread was added and the save went through. */
  function StoredAfter(cfg: Config, s: LineState, e: LineEvent): Option<Scope> {
    var after := ScopeAfter(cfg, s, e);
    if after != s.scope && LineSaves(e) && Safe(after) then after else s.savedScope
  }

  lemma RecordLineIs(s: LineState, response: Json, saveWorks: bool)
    ensures var r, after := RecordLine(s, response, saveWorks), Grown(s.scope, Named(StartedThread(response)));
            && r.scope == after
            && r.savedScope == (if after != s.scope && saveWorks && Safe(after) then after else s.savedScope)
            && r == s.(scope := r.scope, savedScope := r.savedScope)
  {
    hide StartedThread, ValidThreadId;
    var id := StartedThread(response);
    if s.scope.Some? && s.scope.value.enabled {
      var ids := s.scope.value.threadIds;
      assert ids + {} == ids;
      if id.Some? && id.value in ids {
        assert ids + {id.value} == ids;
      }
    }
  }

  lemma GrownByNone(scope: Option<Scope>)
    ensures Grown(scope, {}) == scope
  {
    if scope.Some? {
      assert scope.value.threadIds + {} == scope.value.threadIds;
    }
  }

  /** Why line followed the lines before it, in a turn that began in state s with event e. */
  predicate LineCause(cfg: Config, s: LineState, e: LineEvent, before: seq<Line>, line: Line) {
    match line
    case Answer(response) =>
      ForClient(cfg, e) && e.line == Some(response) && before == s.out && !Remembered(s.listIds, response)
    case ListAnswer(response, scope, m) =>
      && ForClient(cfg, e) && e.line == Some(response) && before == s.out && Remembered(s.listIds, response)
      && scope == ScopeAfter(cfg, s, e) && m == FilterThreadList(response, scope)
    case _ => true
  }

  predicate AllLinesCaused(cfg: Config, s: LineState, e: LineEvent, out: seq<Line>) {
    && s.out <= out
    && forall i :: |s.out| <= i < |out| ==> LineCause(cfg, s, e, out[..i], out[i])
  }

  predicate ToServer(line: Line) {
    line.Initialize? || line.Request? || line.Internal?
  }

  /** More lines for the App Server need no cause. */
  lemma ServerLinesCaused(cfg: Config, s: LineState, e: LineEvent, out: seq<Line>, after: seq<Line>)
    requires AllLinesCaused(cfg, s, e, out) && out <= after
    requires forall i :: |out| <= i < |after| ==> ToServer(after[i])
    ensures AllLinesCaused(cfg, s, e, after)
  {
    hide ScopeAfter, FilterThreadList, ForClient, Remembered;
    forall i | |s.out| <= i < |after| ensures LineCause(cfg, s, e, after[..i], after[i]) {
      if i < |out| {
        assert after[..i] == out[..i] && after[i] == out[i];
      }
    }
  }

  lemma {:induction false} DrainLinesAre(cfg: Config, s: LineState)
    ensures var r := DrainLines(cfg, s);
            && s.out <= r.out && (forall i :: |s.out| <= i < |r.out| ==> ToServer(r.out[i]))
            && r == s.(held := r.held, heldBytes := r.heldBytes, out := r.out)
    decreases |s.held|
  {
    if s.held != [] {
      DrainLinesAre(cfg, Put(s.(held := s.held[1..], heldBytes := SatSub(s.heldBytes, |cfg.encode(s.held[0])|)),
                             Request(s.held[0])));
    }
  }

  ghost predicate LineScoped(cfg: Config, s: LineState, e: LineEvent, r: LineStep) {
    && AllLinesCaused(cfg, s, e, LineTrace(r))
    && (r.LineNext? ==> r.state.scope == ScopeAfter(cfg, s, e) && r.state.savedScope == StoredAfter(cfg, s, e))
  }

  /** A turn that only adds lines for the App Server, and is no answer to the client. */
  lemma PlainScoped(cfg: Config, s: LineState, e: LineEvent, r: LineStep)
    requires s.out <= LineTrace(r) && forall i :: |s.out| <= i < |LineTrace(r)| ==> ToServer(LineTrace(r)[i])
    requires !ForClient(cfg, e) && !e.LineElsewhere?
    requires r.LineNext? ==> r.state.scope == s.scope && r.state.savedScope == s.savedScope
    ensures LineScoped(cfg, s, e, r)
  {
    hide FilterThreadList, ForClient;
    GrownByNone(s.scope);
    assert AllLinesCaused(cfg, s, e, s.out);
    ServerLinesCaused(cfg, s, e, s.out, LineTrace(r));
  }

  lemma AnswerScoped(cfg: Config, s: LineState, e: LineEvent)
    requires ForClient(cfg, e)
    ensures LineScoped(cfg, s, e, AnswerLine(cfg, s, e.line.value, e.saveWorks))
  {
    hide FilterThreadList, AddRequest, RecordLine, NoEnvironmentAnswer, Forget, Grown, HasError;
    var v := e.line.value;
    var r := AnswerLine(cfg, s, v, e.saveWorks);
    AnswerScope(cfg, s, e);
    var answer := LineTrace(r)[|s.out|];
    var out := s.out + [answer];
    hide Remembered, ScopeAfter, StoredAfter;
    assert AllLinesCaused(cfg, s, e, out) by { OneLineCaused(cfg, s, e, answer); }
    ServerLinesCaused(cfg, s, e, out, LineTrace(r));
  }

  lemma AnswerScope(cfg: Config, s: LineState, e: LineEvent)
    requires ForClient(cfg, e)
    ensures var v := e.line.value;
            var recorded := if Remembered(s.startIds, v) then RecordLine(s, v, e.saveWorks) else s;
            && recorded.scope == ScopeAfter(cfg, s, e) && recorded.savedScope == StoredAfter(cfg, s, e)
            && recorded == s.(scope := recorded.scope, savedScope := recorded.savedScope)
  {
    hide RecordLine, NoEnvironmentAnswer, Grown, Safe;
    RecordLineIs(s, e.line.value, e.saveWorks);
    GrownByNone(s.scope);
  }

  lemma OneLineCaused(cfg: Config, s: LineState, e: LineEvent, line: Line)
    requires LineCause(cfg, s, e, s.out, line)
    ensures AllLinesCaused(cfg, s, e, s.out + [line])
  {
    hide LineCause;
    assert (s.out + [line])[..|s.out|] == s.out;
  }

  lemma StatusScoped(cfg: Config, s: LineState, e: LineEvent, v: Json)
    requires e.FromServer? && e.line == Some(v) && !ForClient(cfg, e)
    ensures LineScoped(cfg, s, e, LineStatus(cfg, s, v))
  {
    hide DrainLines, StatusReady, StatusRequest, LineScoped, ForClient;
    DrainLinesAre(cfg, s.(phase := Ready));
    PlainScoped(cfg, s, e, LineStatus(cfg, s, v));
  }

  lemma ServerLineScoped(cfg: Config, s: LineState, e: LineEvent)
    requires e.FromServer?
    ensures LineScoped(cfg, s, e, HandleServerLine(cfg, s, e.line, e.saveWorks))
  {
    hide AnswerLine, LineStatus, StatusRequest, IsAddResponse, IsStatusResponse, LineScoped;
    var r := HandleServerLine(cfg, s, e.line, e.saveWorks);
    if e.line.None? || IsAddResponse(cfg, e.line.value) {
      PlainScoped(cfg, s, e, r);
    } else if IsStatusResponse(cfg, e.line.value) {
      StatusScoped(cfg, s, e, e.line.value);
    } else {
      AnswerScoped(cfg, s, e);
    }
  }

  lemma AcceptScoped(cfg: Config, s: LineState, e: LineEvent)
    requires e.FromClient?
    ensures LineScoped(cfg, s, e, HandleClientLine(cfg, s, e.line))
  {
    hide Rewrite, LineScoped, SatAdd;
    PlainScoped(cfg, s, e, HandleClientLine(cfg, s, e.line));
  }

  lemma LineTurnScoped(cfg: Config, s: LineState, e: LineEvent)
    ensures LineScoped(cfg, s, e, HandleLine(cfg, s, e))
  {
    hide HandleClientLine, HandleServerLine, RecordLine;
    match e
    case FromClient(_) => AcceptScoped(cfg, s, e);
    case FromServer(_, _) => ServerLineScoped(cfg, s, e);
    case LineGone => PlainScoped(cfg, s, e, LineClosed(s.out));
    case LineBroken => PlainScoped(cfg, s, e, LineFailed(s.out));
    case LineElsewhere(response, saveWorks) => RecordLineIs(s, response, saveWorks);
  }

  // ---- Over all runs ------------------------------------------------------------------------------

  // ---- What the events say ------------------------------------------------------------------------

  /** The request that e takes in, once rewritten. */
  function LineRequest(cfg: Config, e: LineEvent): Option<Json> {
    if e.FromClient? && e.line.Some? then Rewrite(cfg, e.line.value) else None
  }

  /** e takes in a request of this method with this id. */
  predicate Asks(cfg: Config, e: LineEvent, verb: string, id: Json) {
    var m := LineRequest(cfg, e);
    m.Some? && Method(m.value) == Some(verb) && Field(m.value, "id") == Some(id)
  }

  /** e is the App Server's answer with this id. */
  predicate AnswersId(cfg: Config, e: LineEvent, id: Json) {
    ForClient(cfg, e) && Field(e.line.value, "id") == Some(id)
  }

  /** The ids of the requests of this method that have no answer yet. */
  function Awaited(cfg: Config, events: seq<LineEvent>, verb: string): set<Json> {
    if events == [] then {}
    else
      var earlier, e := Awaited(cfg, events[..|events| - 1], verb), events[|events| - 1];
      var m := LineRequest(cfg, e);
      if m.Some? then
        if Method(m.value) == Some(verb) && Field(m.value, "id").Some? then earlier + {Field(m.value, "id").value} else earlier
      else if ForClient(cfg, e) && Field(e.line.value, "id").Some? then earlier - {Field(e.line.value, "id").value}
      else earlier
  }

  /** The request at k has no answer up to the end of events. */
  ghost predicate Unanswered(cfg: Config, events: seq<LineEvent>, verb: string, id: Json, k: nat) {
    && k < |events| && Asks(cfg, events[k], verb, id)
    && forall j :: k < j < |events| ==> !AnswersId(cfg, events[j], id)
  }

  /** By position: an id is awaited exactly when some request with it was taken in and not answered since. */
  lemma {:induction false} AwaitedExactly(cfg: Config, events: seq<LineEvent>, verb: string, id: Json)
    ensures id in Awaited(cfg, events, verb) <==> exists k: nat :: Unanswered(cfg, events, verb, id, k)
  {
    hide ForClient, Rewrite;
    if events != [] {
      var n := |events| - 1;
      AwaitedExactly(cfg, events[..n], verb, id);
      if Asks(cfg, events[n], verb, id) {
        assert Unanswered(cfg, events, verb, id, n);
      } else {
        forall k: nat | Unanswered(cfg, events[..n], verb, id, k) && !AnswersId(cfg, events[n], id)
          ensures Unanswered(cfg, events, verb, id, k)
        {
          assert forall j :: k < j < n ==> events[..n][j] == events[j];
        }
        forall k: nat | Unanswered(cfg, events, verb, id, k)
          ensures Unanswered(cfg, events[..n], verb, id, k) && !AnswersId(cfg, events[n], id)
        {
          assert k < n && events[..n][k] == events[k];
        }
        NotAskedHere(cfg, events[n], verb, id, Awaited(cfg, events[..n], verb), Awaited(cfg, events, verb));
      }
    }
  }

  lemma NotAskedHere(cfg: Config, e: LineEvent, verb: string, id: Json, earlier: set<Json>, later: set<Json>)
    requires !Asks(cfg, e, verb, id)
    requires later == var m := LineRequest(cfg, e);
      if m.Some? then
        if Method(m.value) == Some(verb) && Field(m.value, "id").Some? then earlier + {Field(m.value, "id").value} else earlier
      else if ForClient(cfg, e) && Field(e.line.value, "id").Some? then earlier - {Field(e.line.value, "id").value}
      else earlier
    ensures id in later <==> id in earlier && !AnswersId(cfg, e, id)
  {
  }

  /** What a turn does to the ids that wait for answers. */
  lemma IdsTurn(cfg: Config, s: LineState, e: LineEvent)
    requires HandleLine(cfg, s, e).LineNext?
    ensures var r, m := HandleLine(cfg, s, e).state, LineRequest(cfg, e);
            var id := if m.Some? then Field(m.value, "id") else if ForClient(cfg, e) then Field(e.line.value, "id") else None;
            if id.None? then r.startIds == s.startIds && r.listIds == s.listIds
            else if m.Some? then
              && r.startIds == (if Method(m.value) == Some("thread/start") then s.startIds + {id.value} else s.startIds)
              && r.listIds == (if Method(m.value) == Some("thread/list") then s.listIds + {id.value} else s.listIds)
            else r.startIds == s.startIds - {id.value} && r.listIds == s.listIds - {id.value}
  {
    hide Rewrite, DrainLines, StatusReady, StatusRequest, AddRequest, FilterThreadList, RecordOwned, IsAddResponse, IsStatusResponse, HasError;
    DrainLinesAre(cfg, s.(phase := Ready));
  }

  /** Over all runs: the ids kept for thread/start and thread/list are exactly those of the requests taken in that the
      App Server has not answered. */
  lemma {:induction false} LineIdsExactly(cfg: Config, scope: Option<Scope>, events: seq<LineEvent>)
    requires LineRun(cfg, LineInitial(scope), events).LineNext?
    ensures var s := LineRun(cfg, LineInitial(scope), events).state;
            s.startIds == Awaited(cfg, events, "thread/start") && s.listIds == Awaited(cfg, events, "thread/list")
  {
    hide HandleLine, ForClient, Rewrite;
    if events != [] {
      var n := |events| - 1;
      LineIdsExactly(cfg, scope, events[..n]);
      IdsTurn(cfg, LineRun(cfg, LineInitial(scope), events[..n]).state, events[n]);
    }
  }

  /** The threads recorded by the events. */
  function LineRecorded(cfg: Config, events: seq<LineEvent>): set<string> {
    if events == [] then {}
    else
      var init := events[..|events| - 1];
      LineRecorded(cfg, init) + Named(RecordedBy(cfg, Awaited(cfg, init, "thread/start"), events[|events| - 1]))
  }

  lemma GrownTwice(initial: Option<Scope>, ids: set<string>, more: set<string>)
    ensures Grown(Grown(initial, ids), more) == Grown(initial, ids + more)
    ensures Within(Grown(initial, ids), Grown(initial, ids + more))
  {
    if initial.Some? {
      assert initial.value.threadIds + ids + more == initial.value.threadIds + (ids + more);
    }
  }

  /** Over all runs the scope is the initial one and exactly the threads recorded, that is, those named in answers to
      thread/start requests of this client and those recorded elsewhere; and the stored scope is part of it. */
  lemma {:induction false} LineScopeExactly(cfg: Config, initial: Option<Scope>, events: seq<LineEvent>)
    ensures var r := LineRun(cfg, LineInitial(initial), events);
            r.LineNext? ==>
              && r.state.scope == Grown(initial, LineRecorded(cfg, events))
              && Within(r.state.savedScope, r.state.scope)
  {
    hide HandleLine, Grown, RecordedBy, AllLinesCaused;
    var s0 := LineInitial(initial);
    if events == [] {
      GrownByNone(initial);
    } else {
      var init := events[..|events| - 1];
      LineScopeExactly(cfg, initial, init);
      var before := LineRun(cfg, s0, init);
      if before.LineNext? {
        var e := events[|events| - 1];
        LineTurnScoped(cfg, before.state, e);
        LineIdsExactly(cfg, initial, init);
        GrownTwice(initial, LineRecorded(cfg, init), Named(RecordedBy(cfg, before.state.startIds, e)));
      }
    }
  }

  ghost predicate LineCausedBy(cfg: Config, s0: LineState, events: seq<LineEvent>, k: nat, i: nat)
    requires i < |LineTrace(LineRun(cfg, s0, events))|
  {
    && k < |events| && LineRun(cfg, s0, events[..k]).LineNext?
    && var out, before := LineTrace(LineRun(cfg, s0, events)), LineRun(cfg, s0, events[..k]).state;
      |before.out| <= i && LineCause(cfg, before, events[k], out[..i], out[i])
  }

  /** Over all runs, every line on the wires has its cause in one of the events. */
  lemma {:induction false} LinesCaused(cfg: Config, s0: LineState, events: seq<LineEvent>, i: nat)
    requires |s0.out| <= i < |LineTrace(LineRun(cfg, s0, events))|
    ensures exists k: nat :: LineCausedBy(cfg, s0, events, k, i)
  {
    hide HandleLine, LineCause;
    var n := |events| - 1;
    var init := events[..n];
    var before, after := LineRun(cfg, s0, init), LineRun(cfg, s0, events);
    if before.LineNext? {
      LineTurnScoped(cfg, before.state, events[n]);
    }
    var out := LineTrace(after);
    if before.LineNext? && i >= |before.state.out| {
      assert LineCausedBy(cfg, s0, events, n, i);
    } else {
      LinesCaused(cfg, s0, init, i);
      var k: nat :| LineCausedBy(cfg, s0, init, k, i);
      assert init[..k] == events[..k] && init[k] == events[k];
      assert out[..i] == LineTrace(before)[..i] && out[i] == LineTrace(before)[i];
      assert LineCausedBy(cfg, s0, events, k, i);
    }
  }

  /** The list was line k of the run, which answers a thread/list request, and was filtered by exactly the initial scope
      and the threads recorded up to and including it. */
  ghost predicate LineFilteredAt(cfg: Config, initial: Option<Scope>, events: seq<LineEvent>, k: nat, line: Line) {
    && k < |events| && line.ListAnswer? && events[k].FromServer? && events[k].line == Some(line.response)
    && HasOneOf(Awaited(cfg, events[..k], "thread/list"), line.response)
    && line.scope == Grown(initial, LineRecorded(cfg, events[..k + 1]))
    && line.message == FilterThreadList(line.response, line.scope)
  }

  /** Over all runs, every list delivered is what the App Server sent, restricted to exactly those threads. */
  lemma LineListsFilteredExactly(cfg: Config, initial: Option<Scope>, events: seq<LineEvent>, i: nat)
    requires i < |LineTrace(LineRun(cfg, LineInitial(initial), events))|
    ensures var line := LineTrace(LineRun(cfg, LineInitial(initial), events))[i];
            line.ListAnswer? ==> exists k: nat :: LineFilteredAt(cfg, initial, events, k, line)
  {
    hide LineRun, RecordedBy, FilterThreadList, ForClient, Grown, LineRecorded, Awaited;
    var s0 := LineInitial(initial);
    var line := LineTrace(LineRun(cfg, s0, events))[i];
    if line.ListAnswer? {
      assert |s0.out| == 0;
      LinesCaused(cfg, s0, events, i);
      var k: nat :| LineCausedBy(cfg, s0, events, k, i);
      LineIdsExactly(cfg, initial, events[..k]);
      ScopeNext(cfg, initial, events, k);
      assert events[k].FromServer? by { ForClientServer(cfg, events[k]); }
      assert LineFilteredAt(cfg, initial, events, k, line);
    }
  }

  /** The scope after event k, in terms of the events. */
  lemma ScopeNext(cfg: Config, initial: Option<Scope>, events: seq<LineEvent>, k: nat)
    requires k < |events| && LineRun(cfg, LineInitial(initial), events[..k]).LineNext?
    ensures ScopeAfter(cfg, LineRun(cfg, LineInitial(initial), events[..k]).state, events[k])
         == Grown(initial, LineRecorded(cfg, events[..k + 1]))
  {
    hide LineRun, RecordedBy, Grown, Awaited;
    var before := LineRun(cfg, LineInitial(initial), events[..k]).state;
    LineScopeExactly(cfg, initial, events[..k]);
    LineIdsExactly(cfg, initial, events[..k]);
    GrownTwice(initial, LineRecorded(cfg, events[..k]), Named(RecordedBy(cfg, before.startIds, events[k])));
    assert events[..k + 1][..k] == events[..k];
  }

  lemma ForClientServer(cfg: Config, e: LineEvent)
    requires ForClient(cfg, e)
    ensures e.FromServer?
  {
  }

  /** Over all runs, every other answer is a line of the App Server, unchanged; it answers no thread/list request
      and no request of the relay's own. */
  lemma LineOthersUnchanged(cfg: Config, scope: Option<Scope>, events: seq<LineEvent>, i: nat)
    requires i < |LineTrace(LineRun(cfg, LineInitial(scope), events))|
    ensures var line := LineTrace(LineRun(cfg, LineInitial(scope), events))[i];
            line.Answer? ==>
              exists k: nat :: && k < |events| && LineRun(cfg, LineInitial(scope), events[..k]).LineNext?
                               && events[k].FromServer? && events[k].line == Some(line.response)
                               && NoEnvironmentAnswer(cfg, line.response)
                               && !HasOneOf(Awaited(cfg, events[..k], "thread/list"), line.response)
  {
    hide LineRun, NoEnvironmentAnswer, Awaited;
    var s0 := LineInitial(scope);
    var line := LineTrace(LineRun(cfg, s0, events))[i];
    if line.Answer? {
      assert |s0.out| == 0;
      LinesCaused(cfg, s0, events, i);
      var k: nat :| LineCausedBy(cfg, s0, events, k, i);
      LineIdsExactly(cfg, scope, events[..k]);
    }
  }

  // ---- What the client gets, exactly --------------------------------------------------------------------

  /** The lines written to the client. */
  function ClientLines(out: seq<Line>): seq<Line> {
    if out == [] then []
    else
      var last := out[|out| - 1];
      ClientLines(out[..|out| - 1]) + (if ToServer(last) then [] else [last])
  }

  /** What the events bring the client: every line of the App Server but the answers to the relay's own requests, once
      and in order; filtered by the threads recorded so far when it answers a thread/list request, and as it is
      otherwise. */
  function DueLines(cfg: Config, initial: Option<Scope>, events: seq<LineEvent>): seq<Line> {
    if events == [] then []
    else
      var init, e := events[..|events| - 1], events[|events| - 1];
      var scope := Grown(initial, LineRecorded(cfg, events));
      DueLines(cfg, initial, init)
        + (if !ForClient(cfg, e) then []
           else if HasOneOf(Awaited(cfg, init, "thread/list"), e.line.value) then
             [ListAnswer(e.line.value, scope, FilterThreadList(e.line.value, scope))]
           else [Answer(e.line.value)])
  }

  /** The events up to and including the one that stopped the relay. */
  ghost function Taken(cfg: Config, s0: LineState, events: seq<LineEvent>): seq<LineEvent> {
    if events == [] || LineRun(cfg, s0, events[..|events| - 1]).LineNext? then events
    else Taken(cfg, s0, events[..|events| - 1])
  }

  lemma {:induction false} NoClientLines(before: seq<Line>, after: seq<Line>)
    requires before <= after && forall i :: |before| <= i < |after| ==> ToServer(after[i])
    ensures ClientLines(after) == ClientLines(before)
    decreases |after|
  {
    if |after| > |before| {
      assert ToServer(after[|after| - 1]);
      NoClientLines(before, after[..|after| - 1]);
    } else {
      assert after == before;
    }
  }

  /** The line that e brings the client in state s. */
  function Brought(cfg: Config, s: LineState, e: LineEvent): seq<Line> {
    if !ForClient(cfg, e) then []
    else if HasOneOf(s.listIds, e.line.value) then
      [ListAnswer(e.line.value, ScopeAfter(cfg, s, e), FilterThreadList(e.line.value, ScopeAfter(cfg, s, e)))]
    else [Answer(e.line.value)]
  }

  lemma QuietLine(cfg: Config, s: LineState, e: LineEvent, r: LineStep)
    requires s.out <= LineTrace(r) && forall i :: |s.out| <= i < |LineTrace(r)| ==> ToServer(LineTrace(r)[i])
    requires !ForClient(cfg, e)
    ensures ClientLines(LineTrace(r)) == ClientLines(s.out) + Brought(cfg, s, e)
  {
    hide ForClient, ClientLines;
    NoClientLines(s.out, LineTrace(r));
  }

  lemma AnswerBrings(cfg: Config, s: LineState, e: LineEvent)
    requires ForClient(cfg, e)
    ensures ClientLines(LineTrace(AnswerLine(cfg, s, e.line.value, e.saveWorks))) == ClientLines(s.out) + Brought(cfg, s, e)
  {
    hide FilterThreadList, AddRequest, RecordLine, NoEnvironmentAnswer, Forget, Grown, HasError, StoredAfter;
    var r := AnswerLine(cfg, s, e.line.value, e.saveWorks);
    AnswerScope(cfg, s, e);
    hide ScopeAfter;
    var answer := LineTrace(r)[|s.out|];
    assert [answer] == Brought(cfg, s, e);
    var out := s.out + [answer];
    assert out[..|s.out|] == s.out;
    NoClientLines(out, LineTrace(r));
  }

  lemma ServerLineBrings(cfg: Config, s: LineState, e: LineEvent)
    requires e.FromServer?
    ensures ClientLines(LineTrace(HandleServerLine(cfg, s, e.line, e.saveWorks))) == ClientLines(s.out) + Brought(cfg, s, e)
  {
    hide AnswerLine, DrainLines, StatusReady, StatusRequest, IsAddResponse, IsStatusResponse, Brought, ClientLines, HasError;
    var r := HandleServerLine(cfg, s, e.line, e.saveWorks);
    DrainLinesAre(cfg, s.(phase := Ready));
    if e.line.Some? && !IsAddResponse(cfg, e.line.value) && !IsStatusResponse(cfg, e.line.value) {
      AnswerBrings(cfg, s, e);
    } else {
      QuietLine(cfg, s, e, r);
    }
  }

  lemma LineBrings(cfg: Config, s: LineState, e: LineEvent)
    ensures ClientLines(LineTrace(HandleLine(cfg, s, e))) == ClientLines(s.out) + Brought(cfg, s, e)
  {
    hide HandleServerLine, RecordOwned, Rewrite, SatAdd, Brought, ClientLines;
    match e
    case FromClient(_) => QuietLine(cfg, s, e, HandleLine(cfg, s, e));
    case FromServer(_, _) => ServerLineBrings(cfg, s, e);
    case LineGone => QuietLine(cfg, s, e, HandleLine(cfg, s, e));
    case LineBroken => QuietLine(cfg, s, e, HandleLine(cfg, s, e));
    case LineElsewhere(_, _) => QuietLine(cfg, s, e, HandleLine(cfg, s, e));
  }

  /** Over all runs, also those that fail: the client has been written exactly what the events bring it. */
  lemma {:induction false} LineClientGetsExactly(cfg: Config, scope: Option<Scope>, events: seq<LineEvent>)
    ensures ClientLines(LineTrace(LineRun(cfg, LineInitial(scope), events)))
         == DueLines(cfg, scope, Taken(cfg, LineInitial(scope), events))
  {
    hide HandleLine, ForClient, LineRecorded, Awaited, FilterThreadList, Grown, ScopeAfter;
    var s0 := LineInitial(scope);
    if events != [] {
      var n := |events| - 1;
      var before := LineRun(cfg, s0, events[..n]);
      LineClientGetsExactly(cfg, scope, events[..n]);
      if before.LineNext? {
        assert Taken(cfg, s0, events[..n]) == events[..n] by { AllTaken(cfg, s0, events[..n]); }
        LineBrings(cfg, before.state, events[n]);
        LineIdsExactly(cfg, scope, events[..n]);
        ScopeNext(cfg, scope, events, n);
        assert events[..n + 1] == events;
      }
    }
  }

  lemma AllTaken(cfg: Config, s0: LineState, events: seq<LineEvent>)
    requires LineRun(cfg, s0, events).LineNext?
    ensures Taken(cfg, s0, events) == events
  {
    hide HandleLine;
  }

  // ---- From a thread/list request to its answer -------------------------------------------------------

  predicate PassedOn(line: Line, id: Json) {
    line.Answer? && Field(line.response, "id") == Some(id)
  }

  predicate Filtered(line: Line, id: Json) {
    line.ListAnswer? && Field(line.response, "id") == Some(id)
  }

  predicate WasFiltered(out: seq<Line>, from: nat, id: Json) {
    exists j :: from <= j < |out| && Filtered(out[j], id)
  }

  ghost predicate LineFilteredFirst(out: seq<Line>, from: nat, id: Json) {
    && from <= |out|
    && forall i :: from <= i < |out| && PassedOn(out[i], id) ==> WasFiltered(out[..i], from, id)
  }

  ghost predicate LineKeepsFiltering(r: LineStep, from: nat, id: Json) {
    && LineFilteredFirst(LineTrace(r), from, id)
    && (r.LineNext? ==> id in r.state.listIds || WasFiltered(r.state.out, from, id))
  }

  /** What a turn may do to the remembered list ids. */
  lemma ListIdsKept(cfg: Config, s: LineState, e: LineEvent, id: Json)
    requires id in s.listIds && HandleLine(cfg, s, e).LineNext?
    ensures var r := HandleLine(cfg, s, e).state;
            id in r.listIds || (|r.out| > |s.out| && Filtered(r.out[|s.out|], id))
  {
    hide Rewrite, DrainLines, StatusReady, StatusRequest, AddRequest, FilterThreadList, RecordOwned, IsAddResponse, IsStatusResponse, HasError;
    DrainLinesAre(cfg, s.(phase := Ready));
  }

  lemma WasFilteredLonger(before: seq<Line>, after: seq<Line>, from: nat, id: Json)
    requires before <= after && WasFiltered(before, from, id)
    ensures WasFiltered(after, from, id)
  {
    var j :| from <= j < |before| && Filtered(before[j], id);
    assert after[j] == before[j];
  }

  lemma LineListTurn(cfg: Config, s: LineState, e: LineEvent, from: nat, id: Json)
    requires LineKeepsFiltering(LineNext(s), from, id)
    ensures LineKeepsFiltering(HandleLine(cfg, s, e), from, id)
  {
    hide HandleLine, WasFiltered, ScopeAfter, FilterThreadList, ForClient;
    LineTurnScoped(cfg, s, e);
    var r := HandleLine(cfg, s, e);
    var out := LineTrace(r);
    forall i | from <= i < |out| && PassedOn(out[i], id) ensures WasFiltered(out[..i], from, id) {
      if i < |s.out| {
        assert out[i] == s.out[i] && out[..i] == s.out[..i];
      } else {
        assert out[..i] == s.out && !Remembered(s.listIds, out[i].response);
      }
    }
    if WasFiltered(s.out, from, id) {
      WasFilteredLonger(s.out, out, from, id);
    } else if r.LineNext? {
      ListIdsKept(cfg, s, e, id);
      if id !in r.state.listIds {
        FilteredHere(r.state.out, from, |s.out|, id);
      }
    }
  }

  lemma FilteredHere(out: seq<Line>, from: nat, j: nat, id: Json)
    requires from <= j < |out| && Filtered(out[j], id)
    ensures WasFiltered(out, from, id)
  {
  }

  lemma LineRequestRemembered(cfg: Config, s: LineState, m: Json)
    requires Method(m) == Some("thread/list") && Field(m, "id").Some? && HandleLine(cfg, s, FromClient(Some(m))).LineNext?
    ensures Field(m, "id").value in HandleLine(cfg, s, FromClient(Some(m))).state.listIds
  {
    assert Rewrite(cfg, m) == Some(m);
  }

  /** The number of lines written by the time event k has been handled. */
  ghost function LinesBy(cfg: Config, scope: Option<Scope>, events: seq<LineEvent>, k: nat): nat
    requires k < |events|
  {
    |LineTrace(LineRun(cfg, LineInitial(scope), events[..k + 1]))|
  }

  /** Over all runs: once a thread/list request has been taken in, no answer with its id is passed on before one
      that was filtered, and until then the id is remembered. */
  lemma {:induction false} LineListAnswersFilteredFirst(cfg: Config, scope: Option<Scope>, events: seq<LineEvent>, k: nat, m: Json)
    requires k < |events| && events[k] == FromClient(Some(m))
    requires Method(m) == Some("thread/list") && Field(m, "id").Some?
    requires LineRun(cfg, LineInitial(scope), events[..k]).LineNext? && LineRun(cfg, LineInitial(scope), events[..k + 1]).LineNext?
    ensures LineKeepsFiltering(LineRun(cfg, LineInitial(scope), events), LinesBy(cfg, scope, events, k), Field(m, "id").value)
    decreases |events|
  {
    hide HandleLine, WasFiltered;
    var s0, n, id := LineInitial(scope), |events| - 1, Field(m, "id").value;
    if k == n {
      assert events[..k + 1] == events;
      LineRequestRemembered(cfg, LineRun(cfg, s0, events[..k]).state, m);
    } else {
      var init := events[..n];
      assert init[..k] == events[..k] && init[..k + 1] == events[..k + 1];
      LineListAnswersFilteredFirst(cfg, scope, init, k, m);
      var before := LineRun(cfg, s0, init);
      if before.LineNext? {
        LineListTurn(cfg, before.state, events[n], LinesBy(cfg, scope, events, k), id);
      }
    }
  }

  // ---- The stored scope -------------------------------------------------------------------------------

  /** When the scope changes it grows, so a stored scope that was part of it and was not saved lags behind. */
  lemma StoredStep(cfg: Config, s: LineState, e: LineEvent)
    requires Within(s.savedScope, s.scope)
    ensures var scope, saved := ScopeAfter(cfg, s, e), StoredAfter(cfg, s, e);
            if scope == s.scope then saved == s.savedScope
            else saved == scope <==> LineSaves(e) && Safe(scope)
  {
    hide RecordedBy, Safe;
    if s.scope.Some? {
      var ids, more := s.scope.value.threadIds, Named(RecordedBy(cfg, s.startIds, e));
      assert ids + more <= ids ==> ids + more == ids;
    }
  }

  /** The last event of the run that added a thread to the scope. */
  ghost function LastLineRecorded(cfg: Config, s0: LineState, events: seq<LineEvent>): (k: Option<nat>)
    ensures k.Some? ==> k.value < |events|
  {
    if events == [] then None
    else
      var n := |events| - 1;
      var before, after := LineRun(cfg, s0, events[..n]), LineRun(cfg, s0, events);
      if before.LineNext? && after.LineNext? && after.state.scope != before.state.scope then Some(n)
      else LastLineRecorded(cfg, s0, events[..n])
  }

  /** Over all runs: while nothing was recorded the stored scope is the initial one; after that it equals memory
      exactly when the save for the last recorded thread went through and no id in the scope is unsafe. */
  lemma {:induction false} LineStoredEqualsMemoryExactly(cfg: Config, scope: Option<Scope>, events: seq<LineEvent>)
    requires LineRun(cfg, LineInitial(scope), events).LineNext?
    ensures var s, last := LineRun(cfg, LineInitial(scope), events).state, LastLineRecorded(cfg, LineInitial(scope), events);
            if last.None? then s.scope == scope && s.savedScope == scope
            else s.savedScope == s.scope <==> LineSaves(events[last.value]) && Safe(s.scope)
  {
    hide HandleLine, Safe, LineSaves, AllLinesCaused, RecordedBy, LineRecorded;
    var s0 := LineInitial(scope);
    if events != [] {
      var n := |events| - 1;
      var before := LineRun(cfg, s0, events[..n]).state;
      LineStoredEqualsMemoryExactly(cfg, scope, events[..n]);
      LineScopeExactly(cfg, scope, events[..n]);
      LineTurnScoped(cfg, before, events[n]);
      StoredStep(cfg, before, events[n]);
    }
  }

  // ---- When the relay stops ---------------------------------------------------------------------------

  /** The relay fails on e. */
  predicate LineStops(cfg: Config, s: LineState, e: LineEvent) {
    match e
    case FromClient(line) =>
      || line.None? || !RelayRewrite.Accepted(line.value)
      || (Method(line.value) != Some("initialize") && !LineGateOpen(s)
          && s.heldBytes + |cfg.encode(LineRequest(cfg, e).value)| > 32 * 1024 * 1024)
    case FromServer(line, _) =>
      if line.None? then true
      else if IsAddResponse(cfg, line.value) then HasError(line.value)
      else if IsStatusResponse(cfg, line.value) then
        var ready := StatusReady(line.value);
        ready.None? || (ready == Some(false) && !(s.phase.Polling? && s.phase.attempts < 200))
      else
        && HasError(line.value) && s.phase == WaitingForInitialize
        && s.initializeId.Some? && Field(line.value, "id") == s.initializeId
    case LineBroken => true
    case _ => false
  }

  lemma ClientLineStops(cfg: Config, s: LineState, e: LineEvent)
    requires e.FromClient?
    ensures var r := HandleLine(cfg, s, e); !r.LineClosed? && (r.LineFailed? <==> LineStops(cfg, s, e))
  {
    hide Rewrite, RelayRewrite.Accepted;
    if e.line.Some? {
      RelayRewrite.RewriteAccepts(cfg, e.line.value);
      SameMethod(cfg, e.line.value);
    }
  }

  lemma SameMethod(cfg: Config, raw: Json)
    ensures Rewrite(cfg, raw).Some? ==> Method(Rewrite(cfg, raw).value) == Method(raw)
  {
    hide Environments;
  }

  lemma ServerLineStops(cfg: Config, s: LineState, e: LineEvent)
    requires e.FromServer?
    ensures var r := HandleLine(cfg, s, e); !r.LineClosed? && (r.LineFailed? <==> LineStops(cfg, s, e))
  {
    hide DrainLines, StatusReady, StatusRequest, AddRequest, FilterThreadList, RecordOwned, IsAddResponse, IsStatusResponse;
    if e.line.Some? {
      var v := e.line.value;
      var scope := if JsonlSpec.Remembered(s.startIds, v) then RecordLine(s, v, e.saveWorks).scope else s.scope;
      FilterOnlyLists(v, scope, "error");
    }
  }

  /** One turn: the relay closes exactly when the App Server is gone, and fails exactly when LineStops says so. */
  lemma LineStopsExactly(cfg: Config, s: LineState, e: LineEvent)
    ensures var r := HandleLine(cfg, s, e); (r.LineClosed? <==> e.LineGone?) && (r.LineFailed? <==> LineStops(cfg, s, e))
  {
    hide HandleClientLine, HandleServerLine, LineStops;
    match e
    case FromClient(_) => ClientLineStops(cfg, s, e);
    case FromServer(_, _) => ServerLineStops(cfg, s, e);
    case LineGone => OtherLineStops(cfg, s, e);
    case LineBroken => OtherLineStops(cfg, s, e);
    case LineElsewhere(_, _) => OtherLineStops(cfg, s, e);
  }

  lemma OtherLineStops(cfg: Config, s: LineState, e: LineEvent)
    requires !e.FromClient? && !e.FromServer?
    ensures var r := HandleLine(cfg, s, e); (r.LineClosed? <==> e.LineGone?) && (r.LineFailed? <==> LineStops(cfg, s, e))
  {
  }
}
