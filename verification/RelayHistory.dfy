/** What the client gets, exactly, and what the relay remembers for it, in terms of the events and the wires alone. */
module RelayHistory {
  import opened Wrappers
  import opened Json
  import opened RelaySpec
  import opened RelayFrames
  import opened RelayLedger
  import RelayRegistration
  import RelayInitialize
  import RelayDelivery
  import RelayThreads
  import RelayCauses
  import Ids

  // ---- What there is to remember ----------------------------------------------------------------

  /** The client's initialize request: not seen, waiting for the App Server's answer, or past that. */
  datatype Initialize = NotAsked | Asked(id: Json) | Over

  /** The open thread starts, the initialize request, the phase of registration, the ids of the thread/list requests that
      have no answer, and the threads that may be shown. */
  datatype View = View(open: map<string, Open>, initialize: Initialize, phase: Phase, lists: set<Json>, scope: Option<Scope>)

  /** v is for the client: it answers no environment request and not the initialize request that waits. */
  predicate ForClient(cfg: Config, initialize: Initialize, v: Json) {
    RelayDelivery.NoEnvironmentAnswer(cfg, v) && !(initialize.Asked? && Field(v, "id") == Some(initialize.id))
  }

  /** v answers the request of the open thread start id: it carries the id of the client's message. */
  predicate Answered(open: map<string, Open>, id: string, v: Json) {
    id in open && open[id].sent && Field(v, "id").Some? && Field(open[id].origin, "id") == Field(v, "id")
  }

  ghost predicate AnswersStart(open: map<string, Open>, v: Json) {
    exists id :: Answered(open, id, v)
  }

  /** The request that a client text is, once rewritten. */
  function Request(cfg: Config, e: Event): Option<Json> {
    if e.ClientText? && e.text.Some? then Rewrite(cfg, e.text.value) else None
  }

  function InitializeNext(cfg: Config, was: Initialize, e: Event): Initialize {
    var m := Request(cfg, e);
    if was.Over? then Over
    else if m.Some? && Method(m.value) == Some("initialize") && Field(m.value, "id").Some? then Asked(Field(m.value, "id").value)
    else if e.ServerText? && e.text.Some? && !ForClient(cfg, was, e.text.value) then Over
    else was
  }

  /** e is the App Server's message with this id. */
  predicate Answers(e: Event, id: string) {
    e.ServerText? && e.text.Some? && Field(e.text.value, "id") == Some(Str(id))
  }

  function PhaseNext(cfg: Config, was: Phase, initialize: Initialize, e: Event): Phase {
    if Answers(e, Ids.AddId(cfg.environmentId)) then Polling(1)
    else if Answers(e, Ids.StatusId(cfg.environmentId)) then
      if StatusReady(e.text.value) == Some(true) then Ready
      else if was.Polling? then Polling(was.attempts + 1)
      else was
    else if initialize.Asked? && e.ServerText? && e.text.Some? && Field(e.text.value, "id") == Some(initialize.id) then Registering
    else was
  }

  ghost function ListsNext(cfg: Config, h: View, e: Event): set<Json> {
    var m := Request(cfg, e);
    if m.Some? && Method(m.value) == Some("thread/list") && Field(m.value, "id").Some? then
      h.lists + {Field(m.value, "id").value}
    else if e.ServerText? && e.text.Some? && ForClient(cfg, h.initialize, e.text.value)
         && !AnswersStart(h.open, e.text.value) && Field(e.text.value, "id").Some? then
      h.lists - {Field(e.text.value, "id").value}
    else h.lists
  }

  function Named(id: Option<string>): set<string> {
    if id.Some? then {id.value} else {}
  }

  /** The thread that e makes one of the client's own: one that a thread/start of this connection started, by the App
      Server's answer, or one that another connection recorded. */
  ghost function RecordedBy(cfg: Config, h: View, e: Event): set<string> {
    if e.ServerText? && e.text.Some? && ForClient(cfg, h.initialize, e.text.value) && AnswersStart(h.open, e.text.value) then
      Named(StartedThread(e.text.value))
    else if e.ScopeElsewhere? then Named(StartedThread(e.response))
    else {}
  }

  ghost function Advance(cfg: Config, h: View, e: Event, out: seq<Sent>): View {
    View(Ledger(out), InitializeNext(cfg, h.initialize, e), PhaseNext(cfg, h.phase, h.initialize, e), ListsNext(cfg, h, e),
         RelayDelivery.Grown(h.scope, RecordedBy(cfg, h, e)))
  }

  /** What the events and the wires say. */
  ghost function History(cfg: Config, scope: Option<Scope>, events: seq<Event>): View {
    if events == [] then View(map[], NotAsked, WaitingForInitialize, {}, scope)
    else
      var init, e := events[..|events| - 1], events[|events| - 1];
      var before := Run(cfg, Initial(scope), init);
      if before.Next? && Enabled(before.state, e) then
        Advance(cfg, History(cfg, scope, init), e, Trace(Run(cfg, Initial(scope), events)))
      else History(cfg, scope, init)
  }

  /** What the relay remembers. */
  function Remembered(s: State): View {
    View(Table(s.pending),
         if s.phase != WaitingForInitialize then Over else if s.initializeId.Some? then Asked(s.initializeId.value) else NotAsked,
         s.phase, s.listIds, s.scope)
  }

  // ---- What the client is due -------------------------------------------------------------------

  const DELIVERED: set<Kind> := {ToClientStart, ToClientList, ToClientFromServer, ToClientFromHost, ToClientFrame}

  /** Everything the client was sent but for the merged initialize response. */
  function Delivered(out: seq<Sent>): seq<Sent> {
    Select(out, DELIVERED)
  }

  ghost predicate AwaitsRead(s: State, readId: string) {
    exists id :: id in s.pending && readId in s.pending[id].outstanding
  }

  /** The host answers a request of the bridge. */
  ghost predicate InternalReply(cfg: Config, s: State, v: Json) {
    var id := StringField(v, "id");
    id.Some? && (id.value == Ids.HostInitializeId(cfg.environmentId) || id.value in s.pending || AwaitsRead(s, id.value))
  }

  ghost predicate DueFromServer(cfg: Config, h: View, v: Json, brought: seq<Sent>) {
    if !ForClient(cfg, h.initialize, v) then brought == []
    else if AnswersStart(h.open, v) then exists id, m :: Answered(h.open, id, v) && brought == [ClientThreadStart(id, v, m)]
    else if Field(v, "id").Some? && Field(v, "id").value in h.lists then
      brought == [ClientThreadList(v, h.scope, FilterThreadList(v, h.scope))]
    else brought == [ClientFromServer(v)]
  }

  /** What e brings the client: every message of the App Server that is for it, once; every line of the host that may
      pass and answers no request of the bridge; every other frame of the App Server; and nothing else. */
  ghost predicate Due(cfg: Config, h: View, s: State, e: Event, brought: seq<Sent>) {
    match e
    case ServerText(text, _, _) => if text.Some? then DueFromServer(cfg, h, text.value, brought) else brought == []
    case HostLine(line, _) =>
      if line.Some? && HostMessageAllowed(cfg, line.value) && !InternalReply(cfg, s, line.value) then
        brought == [ClientFromHost(line.value)]
      else brought == []
    case ServerOther(frame) => brought == [ClientFrame(frame)]
    case _ => brought == []
  }

  /** A turn brings the client what is due; one that ends the relay, that or nothing. */
  ghost predicate Brings(cfg: Config, h: View, s: State, e: Event, r: Step) {
    && Delivered(s.out) <= Delivered(Trace(r))
    && var brought := Delivered(Trace(r))[|Delivered(s.out)|..];
      if r.Next? then Due(cfg, h, s, e, brought) else brought == [] || Due(cfg, h, s, e, brought)
  }

  // ---- One turn: what is sent ---------------------------------------------------------------------

  lemma QuietDelivered(before: seq<Sent>, after: seq<Sent>, kinds: set<Kind>)
    requires Emits(before, after, kinds) && kinds !! DELIVERED
    ensures Delivered(after) == Delivered(before)
  {
    EmitsSelect(before, after, kinds, DELIVERED);
  }

  lemma QuietBrings(cfg: Config, h: View, s: State, e: Event, r: Step, kinds: set<Kind>)
    requires Emits(s.out, Trace(r), kinds) && kinds !! DELIVERED && Due(cfg, h, s, e, [])
    ensures Brings(cfg, h, s, e, r)
  {
    hide Delivered, Due;
    QuietDelivered(s.out, Trace(r), kinds);
    assert Delivered(Trace(r))[|Delivered(s.out)|..] == [];
  }

  lemma StoppedBrings(cfg: Config, h: View, s: State, e: Event, r: Step)
    requires !r.Next? && Trace(r) == s.out
    ensures Brings(cfg, h, s, e, r)
  {
    hide Delivered, Due;
    assert Delivered(Trace(r))[|Delivered(s.out)|..] == [];
  }

  lemma OneBrings(cfg: Config, h: View, s: State, e: Event, r: Step, frame: Sent)
    requires Trace(r) == s.out + [frame] && KindOf(frame) in DELIVERED && Due(cfg, h, s, e, [frame])
    ensures Brings(cfg, h, s, e, r)
  {
    hide Due, Select;
    SelectAppend(s.out, frame, DELIVERED);
    assert Delivered(Trace(r))[|Delivered(s.out)|..] == [frame];
  }

  lemma ThenTailBrings(cfg: Config, h: View, s: State, e: Event, r: Step)
    requires Brings(cfg, h, s, e, r)
    ensures Brings(cfg, h, s, e, ThenTail(cfg, r))
  {
    hide LoopTail, Delivered, Due;
    if r.Next? {
      LoopTailFrame(cfg, r.state);
      QuietDelivered(r.state.out, Trace(LoopTail(cfg, r.state)), TAIL);
    }
  }

  lemma RowAnswers(cfg: Config, s: State, id: string, v: Json)
    requires Tallied(cfg, s)
    ensures Answered(Remembered(s).open, id, v) <==> id in s.pending && RelaySpec.Answers(s.pending[id], v)
  {
    hide Ledger, Ids.MetadataId;
    if id in s.pending {
      assert RelayLedger.Named(cfg, id, s.pending[id]);
    }
  }

  /** Which entry is found, if any. */
  lemma FoundExactly(cfg: Config, s: State, v: Json, order: seq<string>)
    requires Tallied(cfg, s) && Lists(order, s.pending.Keys)
    ensures var found := FindAnswered(order, s.pending, v);
            && (found.Some? ==> Answered(Remembered(s).open, found.value, v))
            && found.Some? == AnswersStart(Remembered(s).open, v)
  {
    hide Answered, RelaySpec.Answers, Tallied, FindAnswered, Remembered;
    var found := FindAnswered(order, s.pending, v);
    if found.Some? {
      RowAnswers(cfg, s, found.value, v);
    }
    if AnswersStart(Remembered(s).open, v) {
      var id :| Answered(Remembered(s).open, id, v);
      RowAnswers(cfg, s, id, v);
    }
  }

  lemma InitializeIsFor(cfg: Config, s: State, v: Json)
    requires RelayDelivery.NoEnvironmentAnswer(cfg, v)
    ensures ForClient(cfg, Remembered(s).initialize, v) <==> !IsInitializeResponse(s, v)
  {
    hide RelayDelivery.NoEnvironmentAnswer;
  }

  lemma ServerMessageBrings(cfg: Config, s: State, e: Event)
    requires Tallied(cfg, s) && Enabled(s, e)
    requires e.ServerText? && e.text.Some? && RelayDelivery.NoEnvironmentAnswer(cfg, e.text.value)
    ensures Brings(cfg, Remembered(s), s, e, HandleServerMessage(cfg, s, e.text.value, e.order, e.saveWorks))
  {
    hide HandleStartAnswer, FilterThreadList, AddRequest, FindAnswered, Brings, Tallied, ForClient, AnswersStart, Answered,
         RelayDelivery.NoEnvironmentAnswer, IsInitializeResponse;
    var v := e.text.value;
    var h := Remembered(s);
    var r := HandleServerMessage(cfg, s, v, e.order, e.saveWorks);
    var answered := FindAnswered(e.order, s.pending, v);
    InitializeIsFor(cfg, s, v);
    FoundExactly(cfg, s, v, e.order);
    if IsInitializeResponse(s, v) {
      QuietBrings(cfg, h, s, e, r, {ToServerAdd});
    } else if answered.Some? {
      StartAnswerBrings(cfg, s, e, answered.value);
    } else if Field(v, "id").Some? && Field(v, "id").value in s.listIds {
      OneBrings(cfg, h, s, e, r, ClientThreadList(v, s.scope, FilterThreadList(v, s.scope)));
    } else {
      OneBrings(cfg, h, s, e, r, ClientFromServer(v));
    }
  }

  lemma StartAnswerBrings(cfg: Config, s: State, e: Event, id: string)
    requires e.ServerText? && e.text.Some? && id in s.pending && Answered(Remembered(s).open, id, e.text.value)
    requires ForClient(cfg, Remembered(s).initialize, e.text.value)
    ensures Brings(cfg, Remembered(s), s, e, HandleStartAnswer(s, id, e.text.value, e.saveWorks))
  {
    hide MergeThread, RecordOwned, ForClient, Answered, Remembered, Brings;
    var r := HandleStartAnswer(s, id, e.text.value, e.saveWorks);
    RecordFrame(s.(pending := s.pending - {id}), e.text.value, e.saveWorks);
    if r.Next? {
      OneBrings(cfg, Remembered(s), s, e, r, r.state.out[|s.out|]);
    } else {
      StoppedBrings(cfg, Remembered(s), s, e, r);
    }
  }

  lemma ServerTextBrings(cfg: Config, s: State, e: Event)
    requires Tallied(cfg, s) && Enabled(s, e) && e.ServerText?
    ensures Brings(cfg, Remembered(s), s, e, HandleServerText(cfg, s, e.text, e.order, e.saveWorks))
  {
    hide ThenTail, HandleServerMessage, HandleStatus, BeginStatusPoll, Brings, Tallied, IsAddResponse, IsStatusResponse, Enabled, Remembered;
    var h := Remembered(s);
    if e.text.None? {
      StoppedBrings(cfg, h, s, e, Failed(s.out));
    } else if IsAddResponse(cfg, e.text.value) {
      StatusPollFrame(cfg, s, e.text.value);
      QuietBrings(cfg, h, s, e, BeginStatusPoll(cfg, s, e.text.value), {ToServerStatus});
    } else if IsStatusResponse(cfg, e.text.value) {
      StatusFrame(cfg, s, e.text.value);
      QuietBrings(cfg, h, s, e, HandleStatus(cfg, s, e.text.value), FORWARDS + {ToServerStatus});
    } else {
      ServerMessageBrings(cfg, s, e);
      ThenTailBrings(cfg, h, s, e, HandleServerMessage(cfg, s, e.text.value, e.order, e.saveWorks));
    }
  }

  lemma ReaderExactly(s: State, readId: string, order: seq<string>)
    requires Lists(order, s.pending.Keys)
    ensures FindReader(order, s.pending, readId).Some? <==> AwaitsRead(s, readId)
  {
    hide FindReader;
  }

  lemma HostMessageBrings(cfg: Config, s: State, e: Event)
    requires Enabled(s, e) && e.HostLine? && e.line.Some?
    ensures Brings(cfg, Remembered(s), s, e, HandleHostMessage(cfg, s, e.line.value, e.order))
  {
    hide HandleThreadReply, HandleReadReply, HostMessageAllowed, FindReader, Ids.HostInitializeId, Remembered, Brings, AwaitsRead;
    var v := e.line.value;
    var h := Remembered(s);
    var id := StringField(v, "id");
    var r := HandleHostMessage(cfg, s, v, e.order);
    if id == Some(Ids.HostInitializeId(cfg.environmentId)) {
      QuietBrings(cfg, h, s, e, r, {});
    } else if id.Some? && id.value in s.pending {
      ThreadReplyFrame(s, id.value, v);
      QuietBrings(cfg, h, s, e, r, {ToServerStart, ToHostRead});
    } else {
      if id.Some? {
        ReaderExactly(s, id.value, e.order);
      }
      var reader := if id.Some? then FindReader(e.order, s.pending, id.value) else None;
      if reader.Some? {
        ReadReplyFrame(cfg, s, reader.value, id.value, v);
        QuietBrings(cfg, h, s, e, r, {ToServerStart});
      } else if HostMessageAllowed(cfg, v) {
        OneBrings(cfg, h, s, e, r, ClientFromHost(v));
      } else {
        QuietBrings(cfg, h, s, e, r, {});
      }
    }
  }

  lemma ClientTextBrings(cfg: Config, h: View, s: State, e: Event)
    requires e.ClientText?
    ensures Brings(cfg, h, s, e, HandleClientText(cfg, s, e.text))
  {
    hide AcceptClientText, Rewrite, Brings;
    if e.text.Some? && Rewrite(cfg, e.text.value).Some? {
      AcceptFrame(cfg, s, Rewrite(cfg, e.text.value).value);
    }
    QuietBrings(cfg, h, s, e, HandleClientText(cfg, s, e.text), FORWARDS + {ToServerInitialize, ToHostInitialize});
  }

  lemma BringsTurn(cfg: Config, s: State, e: Event)
    requires Tallied(cfg, s) && Enabled(s, e)
    ensures Brings(cfg, Remembered(s), s, e, Handle(cfg, s, e))
  {
    hide LoopTail, ThenTail, HandleHostMessage, HandleServerText, HandleClientText, RecordOwned, SendExpired, Brings, Tallied, Enabled,
         Remembered, InternalReply;
    var h := Remembered(s);
    match e
    case ClientText(text) =>
      ClientTextBrings(cfg, h, s, e);
      ThenTailBrings(cfg, h, s, e, HandleClientText(cfg, s, text));
    case ServerText(_, _, _) => ServerTextBrings(cfg, s, e);
    case ClientOther(frame) =>
      QuietBrings(cfg, h, s, e, Next(Send(s, ServerFrame(frame))), {ToServerFrame});
      NextBrings(cfg, h, s, e, Send(s, ServerFrame(frame)));
    case ServerOther(frame) =>
      OneBrings(cfg, h, s, e, Next(Send(s, ClientFrame(frame))), ClientFrame(frame));
      NextBrings(cfg, h, s, e, Send(s, ClientFrame(frame)));
    case HostLine(line, order) =>
      if line.None? {
        StoppedBrings(cfg, h, s, e, Failed(s.out));
      } else {
        HostMessageBrings(cfg, s, e);
        ThenTailBrings(cfg, h, s, e, HandleHostMessage(cfg, s, line.value, order));
      }
    case Gone => StoppedBrings(cfg, h, s, e, Closed(s.out));
    case Broken => StoppedBrings(cfg, h, s, e, Failed(s.out));
    case Expiry(expired) =>
      SendExpiredFrame(s, expired);
      QuietBrings(cfg, h, s, e, SendExpired(s, expired), {ToServerStart});
      ThenTailBrings(cfg, h, s, e, SendExpired(s, expired));
    case ScopeElsewhere(response, saveWorks) =>
      RecordFrame(s, response, saveWorks);
      QuietBrings(cfg, h, s, e, Next(RecordOwned(s, response, saveWorks)), {});
  }

  lemma NextBrings(cfg: Config, h: View, s: State, e: Event, mid: State)
    requires Brings(cfg, h, s, e, Next(mid))
    ensures Brings(cfg, h, s, e, LoopTail(cfg, mid))
  {
    hide LoopTail, Brings;
    ThenTailBrings(cfg, h, s, e, Next(mid));
    assert ThenTail(cfg, Next(mid)) == LoopTail(cfg, mid);
  }

  // ---- One turn: what is remembered -----------------------------------------------------------------

  lemma GrownByNone(scope: Option<Scope>)
    ensures RelayDelivery.Grown(scope, {}) == scope
  {
    if scope.Some? {
      assert scope.value.threadIds + {} == scope.value.threadIds;
    }
  }

  lemma RecordedGrows(s: State, response: Json, saveWorks: bool)
    ensures RecordOwned(s, response, saveWorks).scope == RelayDelivery.Grown(s.scope, Named(StartedThread(response)))
  {
    hide StartedThread, ValidThreadId;
    var id := StartedThread(response);
    if s.scope.Some? && s.scope.value.enabled {
      var ids := s.scope.value.threadIds;
      assert ids + {} == ids;
      if id.Some? && id.value in ids {
        assert ids + {id.value} == ids;
      }
    }
  }

  /** What a turn does to the initialize id, the list ids and the scope. */
  ghost predicate Recalls(cfg: Config, s: State, e: Event, r: Step) {
    r.Next? ==>
      var m, h := Request(cfg, e), Remembered(s);
      && r.state.initializeId == (if m.Some? && Method(m.value) == Some("initialize") then Field(m.value, "id") else s.initializeId)
      && r.state.listIds == ListsNext(cfg, h, e)
      && r.state.scope == RelayDelivery.Grown(s.scope, RecordedBy(cfg, h, e))
  }

  /** e is nothing that has to be remembered, and the step leaves what is remembered alone. */
  lemma PlainRecalls(cfg: Config, s: State, e: Event, r: Step)
    requires Request(cfg, e).None? && !e.ScopeElsewhere?
    requires e.ServerText? && e.text.Some? ==> !ForClient(cfg, Remembered(s).initialize, e.text.value)
    requires r.Next? ==> r.state.initializeId == s.initializeId && r.state.listIds == s.listIds && r.state.scope == s.scope
    ensures Recalls(cfg, s, e, r)
  {
    hide ForClient, AnswersStart;
    GrownByNone(s.scope);
  }

  lemma ThenTailRecalls(cfg: Config, s: State, e: Event, r: Step)
    requires Recalls(cfg, s, e, r)
    ensures Recalls(cfg, s, e, ThenTail(cfg, r))
  {
    hide LoopTail, ListsNext, RecordedBy, Request, Remembered;
    if r.Next? {
      LoopTailFrame(cfg, r.state);
    }
  }

  lemma NoRequest(cfg: Config, e: Event)
    requires !e.ClientText?
    ensures Request(cfg, e).None?
  {
  }

  lemma StartAnswerRecalls(cfg: Config, s: State, e: Event, id: string)
    requires e.ServerText? && e.text.Some? && id in s.pending
    requires ForClient(cfg, Remembered(s).initialize, e.text.value) && AnswersStart(Remembered(s).open, e.text.value)
    ensures Recalls(cfg, s, e, HandleStartAnswer(s, id, e.text.value, e.saveWorks))
  {
    hide MergeThread, RecordOwned, ForClient, AnswersStart, Remembered, StartedThread, RelayDelivery.Grown;
    var s1 := s.(pending := s.pending - {id});
    RecordFrame(s1, e.text.value, e.saveWorks);
    RecordedGrows(s1, e.text.value, e.saveWorks);
    assert Remembered(s).lists == s.listIds by { ListsOf(s); }
  }

  lemma ListsOf(s: State)
    ensures Remembered(s).lists == s.listIds && Remembered(s).scope == s.scope && Remembered(s).open == Table(s.pending)
  {
  }

  lemma ServerMessageRecalls(cfg: Config, s: State, e: Event)
    requires Tallied(cfg, s) && Enabled(s, e)
    requires e.ServerText? && e.text.Some? && RelayDelivery.NoEnvironmentAnswer(cfg, e.text.value)
    ensures Recalls(cfg, s, e, HandleServerMessage(cfg, s, e.text.value, e.order, e.saveWorks))
  {
    hide HandleStartAnswer, FilterThreadList, AddRequest, FindAnswered, Tallied, ForClient, AnswersStart, Answered,
         RelayDelivery.NoEnvironmentAnswer, IsInitializeResponse, Remembered, Recalls;
    var v := e.text.value;
    var r := HandleServerMessage(cfg, s, v, e.order, e.saveWorks);
    var answered := FindAnswered(e.order, s.pending, v);
    InitializeIsFor(cfg, s, v);
    FoundExactly(cfg, s, v, e.order);
    if IsInitializeResponse(s, v) {
      PlainRecalls(cfg, s, e, r);
    } else if answered.Some? {
      StartAnswerRecalls(cfg, s, e, answered.value);
    } else {
      PassedRecalls(cfg, s, e, r);
    }
  }

  lemma PassedRecalls(cfg: Config, s: State, e: Event, r: Step)
    requires e.ServerText? && e.text.Some?
    requires ForClient(cfg, Remembered(s).initialize, e.text.value) && !AnswersStart(Remembered(s).open, e.text.value)
    requires r.Next? && r.state.initializeId == s.initializeId && r.state.scope == s.scope
    requires var id := Field(e.text.value, "id");
             r.state.listIds == if id.Some? && id.value in s.listIds then s.listIds - {id.value} else s.listIds
    ensures Recalls(cfg, s, e, r)
  {
    hide ForClient, AnswersStart, Remembered;
    ListsOf(s);
    GrownByNone(s.scope);
  }

  lemma EnvironmentIsNotFor(cfg: Config, initialize: Initialize, v: Json)
    requires IsAddResponse(cfg, v) || IsStatusResponse(cfg, v)
    ensures !ForClient(cfg, initialize, v)
  {
  }

  lemma ServerTextRecalls(cfg: Config, s: State, e: Event)
    requires Tallied(cfg, s) && Enabled(s, e) && e.ServerText?
    ensures Recalls(cfg, s, e, HandleServerText(cfg, s, e.text, e.order, e.saveWorks))
  {
    hide ThenTail, HandleServerMessage, HandleStatus, BeginStatusPoll, Tallied, IsAddResponse, IsStatusResponse, Enabled, Remembered,
         Recalls, ForClient;
    NoRequest(cfg, e);
    if e.text.None? {
      PlainRecalls(cfg, s, e, Failed(s.out));
    } else if IsAddResponse(cfg, e.text.value) {
      StatusPollFrame(cfg, s, e.text.value);
      EnvironmentIsNotFor(cfg, Remembered(s).initialize, e.text.value);
      PlainRecalls(cfg, s, e, BeginStatusPoll(cfg, s, e.text.value));
    } else if IsStatusResponse(cfg, e.text.value) {
      StatusFrame(cfg, s, e.text.value);
      EnvironmentIsNotFor(cfg, Remembered(s).initialize, e.text.value);
      PlainRecalls(cfg, s, e, HandleStatus(cfg, s, e.text.value));
    } else {
      ServerMessageRecalls(cfg, s, e);
      ThenTailRecalls(cfg, s, e, HandleServerMessage(cfg, s, e.text.value, e.order, e.saveWorks));
    }
  }

  lemma AcceptKeepsIds(cfg: Config, s: State, m: Json)
    requires AcceptClientText(cfg, s, m).Next?
    ensures var r, verb, id := AcceptClientText(cfg, s, m).state, Method(m), Field(m, "id");
            && r.initializeId == (if verb == Some("initialize") then id else s.initializeId)
            && r.listIds == (if verb == Some("thread/list") && id.Some? then s.listIds + {id.value} else s.listIds)
  {
    hide Forward, RequestRoute;
    var verb := Method(m);
    var s1 := s.(listIds := if verb == Some("thread/list") && Field(m, "id").Some?
                            then s.listIds + {Field(m, "id").value} else s.listIds);
    ForwardFrame(cfg, s1, Held(m, RequestRoute(cfg, verb)));
  }

  lemma ClientTextRecalls(cfg: Config, s: State, e: Event)
    requires e.ClientText?
    ensures Recalls(cfg, s, e, HandleClientText(cfg, s, e.text))
  {
    hide AcceptClientText, Rewrite, Remembered;
    ListsOf(s);
    GrownByNone(s.scope);
    if HandleClientText(cfg, s, e.text).Next? {
      var m := Rewrite(cfg, e.text.value).value;
      AcceptFrame(cfg, s, m);
      AcceptKeepsIds(cfg, s, m);
    }
  }

  lemma NextRecalls(cfg: Config, s: State, e: Event, mid: State)
    requires Recalls(cfg, s, e, Next(mid))
    ensures Recalls(cfg, s, e, LoopTail(cfg, mid))
  {
    hide LoopTail, Recalls;
    ThenTailRecalls(cfg, s, e, Next(mid));
    assert ThenTail(cfg, Next(mid)) == LoopTail(cfg, mid);
  }

  lemma RecallsTurn(cfg: Config, s: State, e: Event)
    requires Tallied(cfg, s) && Enabled(s, e)
    ensures Recalls(cfg, s, e, Handle(cfg, s, e))
  {
    hide LoopTail, ThenTail, HandleHostMessage, HandleServerText, HandleClientText, RecordOwned, SendExpired, Recalls, Tallied, Enabled,
         Remembered, ForClient;
    if !e.ClientText? {
      NoRequest(cfg, e);
    }
    match e
    case ClientText(text) =>
      ClientTextRecalls(cfg, s, e);
      ThenTailRecalls(cfg, s, e, HandleClientText(cfg, s, text));
    case ServerText(_, _, _) => ServerTextRecalls(cfg, s, e);
    case ClientOther(frame) =>
      PlainRecalls(cfg, s, e, Next(Send(s, ServerFrame(frame))));
      NextRecalls(cfg, s, e, Send(s, ServerFrame(frame)));
    case ServerOther(frame) =>
      PlainRecalls(cfg, s, e, Next(Send(s, ClientFrame(frame))));
      NextRecalls(cfg, s, e, Send(s, ClientFrame(frame)));
    case HostLine(line, order) =>
      if line.None? {
        PlainRecalls(cfg, s, e, Failed(s.out));
      } else {
        HostMessageFrame(cfg, s, line.value, order);
        PlainRecalls(cfg, s, e, HandleHostMessage(cfg, s, line.value, order));
        ThenTailRecalls(cfg, s, e, HandleHostMessage(cfg, s, line.value, order));
      }
    case Gone => PlainRecalls(cfg, s, e, Closed(s.out));
    case Broken => PlainRecalls(cfg, s, e, Failed(s.out));
    case Expiry(expired) =>
      SendExpiredFrame(s, expired);
      PlainRecalls(cfg, s, e, SendExpired(s, expired));
      ThenTailRecalls(cfg, s, e, SendExpired(s, expired));
    case ScopeElsewhere(response, saveWorks) => ElsewhereRecalls(cfg, s, e);
  }

  lemma ElsewhereRecalls(cfg: Config, s: State, e: Event)
    requires e.ScopeElsewhere?
    ensures Recalls(cfg, s, e, Next(RecordOwned(s, e.response, e.saveWorks)))
  {
    hide RecordOwned, StartedThread, Remembered, RelayDelivery.Grown;
    RecordFrame(s, e.response, e.saveWorks);
    RecordedGrows(s, e.response, e.saveWorks);
    ListsOf(s);
  }

  /** The initialize request is remembered as the history says. */
  lemma InitializeTurn(cfg: Config, s: State, e: Event, s': State)
    requires Handle(cfg, s, e) == Next(s') && Recalls(cfg, s, e, Next(s'))
    ensures Remembered(s').initialize == InitializeNext(cfg, Remembered(s).initialize, e)
    ensures s'.phase == PhaseNext(cfg, s.phase, Remembered(s).initialize, e)
  {
    hide Handle, ListsNext, RecordedBy, Table, StatusReady, AddRequest, StatusRequest, RelayRegistration.Adds, RelayRegistration.Statuses;
    RelayRegistration.RegistrationTurn(cfg, s, e);
    if e.ClientText? && e.text.Some? {
      hide Rewrite;
      RewrittenInitialize(cfg, e.text.value);
    }
  }

  lemma RewrittenInitialize(cfg: Config, raw: Json)
    ensures var m := Rewrite(cfg, raw); m.Some? && Method(m.value) == Some("initialize") ==> Field(m.value, "id").Some?
  {
    hide Environments;
  }

  lemma RemembersTurn(cfg: Config, s: State, e: Event)
    requires Tallied(cfg, s) && Enabled(s, e) && Handle(cfg, s, e).Next?
    ensures var s' := Handle(cfg, s, e).state;
            Tallied(cfg, s') && Remembered(s') == Advance(cfg, Remembered(s), e, s'.out)
  {
    hide Handle, Ledger, Table, ListsNext, RecordedBy, Enabled, InitializeNext, PhaseNext, RelayLedger.Named;
    TallyTurn(cfg, s, e);
    RecallsTurn(cfg, s, e);
    InitializeTurn(cfg, s, e, Handle(cfg, s, e).state);
  }

  // ---- Over all runs ----------------------------------------------------------------------------------

  /** Over all runs: what the relay remembers is what the events and the wires say. In particular its scope is the
      initial one with exactly the threads that the App Server's answers to the requests for this connection's thread
      starts named, and those recorded elsewhere; the list ids are exactly those of the thread/list requests taken in
      that have no answer. */
  lemma {:induction false} RemembersHistory(cfg: Config, scope: Option<Scope>, events: seq<Event>)
    requires Run(cfg, Initial(scope), events).Next?
    ensures var s := Run(cfg, Initial(scope), events).state; Tallied(cfg, s) && Remembered(s) == History(cfg, scope, events)
  {
    hide Handle, Enabled, Advance, Tallied;
    if events == [] {
      assert Tallied(cfg, Initial(scope)) by { InitialTally(cfg, scope); }
    } else {
      var n := |events| - 1;
      RemembersHistory(cfg, scope, events[..n]);
      var before := Run(cfg, Initial(scope), events[..n]).state;
      if Enabled(before, events[n]) {
        RemembersTurn(cfg, before, events[n]);
      }
    }
  }

  lemma InitialTally(cfg: Config, scope: Option<Scope>)
    ensures Tallied(cfg, Initial(scope))
  {
  }

  /** The threads recorded by the events. */
  ghost function RecordedThreads(cfg: Config, scope: Option<Scope>, events: seq<Event>): set<string> {
    if events == [] then {}
    else
      var init, e := events[..|events| - 1], events[|events| - 1];
      var before := Run(cfg, Initial(scope), init);
      RecordedThreads(cfg, scope, init)
        + (if before.Next? && Enabled(before.state, e) then RecordedBy(cfg, History(cfg, scope, init), e) else {})
  }

  lemma GrownTwice(initial: Option<Scope>, ids: set<string>, more: set<string>)
    ensures RelayDelivery.Grown(RelayDelivery.Grown(initial, ids), more) == RelayDelivery.Grown(initial, ids + more)
  {
    if initial.Some? {
      assert initial.value.threadIds + ids + more == initial.value.threadIds + (ids + more);
    }
  }

  lemma {:induction false} HistoryScope(cfg: Config, scope: Option<Scope>, events: seq<Event>)
    ensures History(cfg, scope, events).scope == RelayDelivery.Grown(scope, RecordedThreads(cfg, scope, events))
  {
    hide Run, Enabled, RecordedBy, RelayDelivery.Grown, Ledger, InitializeNext, PhaseNext, ListsNext;
    if events == [] {
      GrownByNone(scope);
    } else {
      var init, e := events[..|events| - 1], events[|events| - 1];
      HistoryScope(cfg, scope, init);
      GrownTwice(scope, RecordedThreads(cfg, scope, init), RecordedBy(cfg, History(cfg, scope, init), e));
      assert RecordedThreads(cfg, scope, init) + {} == RecordedThreads(cfg, scope, init);
    }
  }

  /** Over all runs the scope is the initial one and exactly the threads recorded, and the stored scope is part of it. */
  lemma ScopeExactly(cfg: Config, initial: Option<Scope>, events: seq<Event>)
    requires Run(cfg, Initial(initial), events).Next?
    ensures var s := Run(cfg, Initial(initial), events).state;
            && s.scope == RelayDelivery.Grown(initial, RecordedThreads(cfg, initial, events))
            && RelayDelivery.Within(s.savedScope, s.scope)
  {
    hide Run, History, RecordedThreads, RelayDelivery.Grown, Tallied, Table, RelayDelivery.AllProper, RelayDelivery.StartedIds,
         RelayDelivery.ElsewhereIds;
    RemembersHistory(cfg, initial, events);
    HistoryScope(cfg, initial, events);
    RelayDelivery.DeliveredProperly(cfg, initial, events);
  }

  /** Over all runs: event k brought the client exactly what was due to it by the history before it; the one that ended
      the relay, that or nothing. */
  lemma ClientGetsExactly(cfg: Config, scope: Option<Scope>, events: seq<Event>, k: nat)
    requires RelayCauses.Processed(cfg, Initial(scope), events, k)
    ensures Brings(cfg, History(cfg, scope, events[..k]), Run(cfg, Initial(scope), events[..k]).state, events[k],
                   Run(cfg, Initial(scope), events[..k + 1]))
    ensures Delivered(Trace(Run(cfg, Initial(scope), events[..k + 1]))) <= Delivered(Trace(Run(cfg, Initial(scope), events)))
  {
    hide Run, Handle, Enabled, History, Brings, Remembered, Tallied, Delivered;
    RemembersHistory(cfg, scope, events[..k]);
    RelayCauses.LastEvent(cfg, Initial(scope), events, k);
    BringsTurn(cfg, Run(cfg, Initial(scope), events[..k]).state, events[k]);
    TraceGrows(cfg, Initial(scope), events, k + 1);
    SelectGrows(Trace(Run(cfg, Initial(scope), events[..k + 1])), Trace(Run(cfg, Initial(scope), events)));
  }

  lemma {:induction false} TraceGrows(cfg: Config, s0: State, events: seq<Event>, k: nat)
    requires k <= |events|
    ensures Trace(Run(cfg, s0, events[..k])) <= Trace(Run(cfg, s0, events))
    decreases |events|
  {
    hide Handle, Enabled;
    if k == |events| {
      assert events[..k] == events;
    } else {
      var n := |events| - 1;
      assert events[..n][..k] == events[..k];
      TraceGrows(cfg, s0, events[..n], k);
      var before := Run(cfg, s0, events[..n]);
      if before.Next? {
        RelayCauses.TurnCaused(cfg, before.state, events[n]);
      }
    }
  }

  lemma {:induction false} SelectGrows(before: seq<Sent>, after: seq<Sent>)
    requires before <= after
    ensures Delivered(before) <= Delivered(after)
    decreases |after|
  {
    if |after| > |before| {
      SelectGrows(before, after[..|after| - 1]);
    } else {
      assert after == before;
    }
  }

  /** The list was the text of event k, which answers a thread/list request, and was filtered by exactly the initial
      scope and the threads recorded before. */
  ghost predicate FilteredAt(cfg: Config, initial: Option<Scope>, events: seq<Event>, k: nat, frame: Sent) {
    && RelayCauses.Processed(cfg, Initial(initial), events, k)
    && frame.ClientThreadList? && events[k].ServerText? && events[k].text == Some(frame.response)
    && Field(frame.response, "id").Some? && Field(frame.response, "id").value in History(cfg, initial, events[..k]).lists
    && frame.scope == RelayDelivery.Grown(initial, RecordedThreads(cfg, initial, events[..k]))
    && frame.message == FilterThreadList(frame.response, frame.scope)
  }

  /** Over all runs, every thread list delivered is what the App Server sent, restricted to exactly those threads. */
  lemma ListsFilteredExactly(cfg: Config, initial: Option<Scope>, events: seq<Event>, i: nat)
    requires i < |Trace(Run(cfg, Initial(initial), events))|
    ensures var frame := Trace(Run(cfg, Initial(initial), events))[i];
            frame.ClientThreadList? ==> exists k: nat :: FilteredAt(cfg, initial, events, k, frame)
  {
    hide Run, Enabled, FilterThreadList, History, RecordedThreads, Tallied, Table, RelayDelivery.Grown, RelayDelivery.Within;
    var s0 := Initial(initial);
    var frame := Trace(Run(cfg, s0, events))[i];
    if frame.ClientThreadList? {
      RelayCauses.FramesCaused(cfg, s0, events, i);
      var k: nat :| RelayCauses.CausedBy(cfg, s0, events, k, i);
      RemembersHistory(cfg, initial, events[..k]);
      HistoryScope(cfg, initial, events[..k]);
      assert FilteredAt(cfg, initial, events, k, frame);
    }
  }

  // ---- Lines of the host -------------------------------------------------------------------------------

  /** v carries none of the ids that the bridge uses for its own requests to the host. */
  ghost predicate Foreign(cfg: Config, v: Json) {
    forall id: Ids.InternalId :: RelayDelivery.HostId(id) ==> !HasId(v, Ids.Render(cfg.environmentId, id))
  }

  lemma ForeignIsNoReply(cfg: Config, s: State, v: Json)
    requires Tallied(cfg, s) && RelayThreads.ThreadInv(cfg, s) && Foreign(cfg, v)
    ensures !InternalReply(cfg, s, v)
  {
    hide Ledger, Table, Tallied, RelayThreads.ThreadInv, Ids.MetadataId, Ids.HostInitializeId, Foreign;
    ForeignToHostInitialize(cfg, v);
    forall other | other in s.pending ensures !HasId(v, other) {
      ForeignToShadow(cfg, s, v, other);
    }
    forall other | other in s.pending
      ensures StringField(v, "id").Some? ==> StringField(v, "id").value !in s.pending[other].outstanding
    {
      ForeignToRead(cfg, s, v, other);
    }
  }

  lemma ForeignToHostInitialize(cfg: Config, v: Json)
    requires Foreign(cfg, v)
    ensures !HasId(v, Ids.HostInitializeId(cfg.environmentId))
  {
    RenderedIds(cfg);
    assert !HasId(v, Ids.Render(cfg.environmentId, Ids.HostInitialize));
  }

  lemma ForeignToShadow(cfg: Config, s: State, v: Json, other: string)
    requires Tallied(cfg, s) && Foreign(cfg, v) && other in s.pending
    ensures !HasId(v, other)
  {
    hide Ledger, Table, HasId;
    assert RelayLedger.Named(cfg, other, s.pending[other]);
    var k: nat :| other == Ids.MetadataId(cfg.environmentId, k);
    assert !HasId(v, Ids.Render(cfg.environmentId, Ids.Metadata(k)));
  }

  lemma ForeignToRead(cfg: Config, s: State, v: Json, other: string)
    requires Tallied(cfg, s) && RelayThreads.ThreadInv(cfg, s) && Foreign(cfg, v) && other in s.pending
    ensures StringField(v, "id").Some? ==> StringField(v, "id").value !in s.pending[other].outstanding
  {
    hide Ledger, Table, RelayThreads.Accounted, Ids.MetadataId, Ids.ReadId, RelayThreads.WithinBudget;
    assert RelayLedger.Named(cfg, other, s.pending[other]);
    var k: nat :| other == Ids.MetadataId(cfg.environmentId, k);
    RelayThreads.EntryOf(cfg, s, other);
    RenderedIds(cfg);
    assert forall i: nat :: !HasId(v, Ids.Render(cfg.environmentId, Ids.Read(k, i)));
    assert forall i: nat :: !HasId(v, Ids.ReadId(other, i));
  }

  lemma RenderedIds(cfg: Config)
    ensures Ids.Render(cfg.environmentId, Ids.HostInitialize) == Ids.HostInitializeId(cfg.environmentId)
    ensures forall k: nat :: Ids.Render(cfg.environmentId, Ids.Metadata(k)) == Ids.MetadataId(cfg.environmentId, k)
    ensures forall k: nat, i: nat :: Ids.Render(cfg.environmentId, Ids.Read(k, i)) == Ids.ReadId(Ids.MetadataId(cfg.environmentId, k), i)
  {
  }

  /** Over all runs: every line of the host with no id of the bridge's own is passed on, once, exactly when it may
      pass. */
  lemma HostLinesPassExactly(cfg: Config, scope: Option<Scope>, events: seq<Event>, k: nat)
    requires RelayCauses.Processed(cfg, Initial(scope), events, k) && events[k].HostLine? && events[k].line.Some?
    requires Foreign(cfg, events[k].line.value) && Run(cfg, Initial(scope), events[..k + 1]).Next?
    ensures var v, before, after := events[k].line.value, Run(cfg, Initial(scope), events[..k]).state.out,
                                    Run(cfg, Initial(scope), events[..k + 1]).state.out;
            Delivered(after) == Delivered(before) + if HostMessageAllowed(cfg, v) then [ClientFromHost(v)] else []
  {
    hide Run, Enabled, History, Tallied, Delivered, RelayThreads.ThreadInv, RelayThreads.WireThreads, InternalReply, Foreign,
         HostMessageAllowed, Remembered;
    ClientGetsExactly(cfg, scope, events, k);
    RemembersHistory(cfg, scope, events[..k]);
    RelayThreads.ThreadStartsAccounted(cfg, scope, events[..k]);
    ForeignIsNoReply(cfg, Run(cfg, Initial(scope), events[..k]).state, events[k].line.value);
  }

  // ---- The initialize request, and frames that are no text -------------------------------------------

  const PASSED: set<Kind> := {ToHostInitialize, ToServerInitialize, ToServerFrame}

  function Passed(out: seq<Sent>): seq<Sent> {
    Select(out, PASSED)
  }

  /** What e sends on besides forwarded messages: initialize to both servers, to the host under the bridge's own id; and
      frames that are no text to the App Server. */
  ghost predicate PassedOn(cfg: Config, e: Event, brought: seq<Sent>) {
    var m := Request(cfg, e);
    if e.ClientOther? then brought == [ServerFrame(e.frame)]
    else if m.Some? && Field(m.value, "method") == Some(Str("initialize")) then
      && m.value.Obj?
      && brought == [HostInitialize(Obj(m.value.fields["id" := Str(Ids.HostInitializeId(cfg.environmentId))])), ServerInitialize(m.value)]
    else brought == []
  }

  ghost predicate Passes(cfg: Config, s: State, e: Event, r: Step) {
    && Passed(s.out) <= Passed(Trace(r))
    && var brought := Passed(Trace(r))[|Passed(s.out)|..];
      PassedOn(cfg, e, brought) || (!r.Next? && brought == [])
  }

  lemma QuietPasses(cfg: Config, s: State, e: Event, r: Step, kinds: set<Kind>)
    requires Emits(s.out, Trace(r), kinds) && kinds !! PASSED && (r.Next? ==> PassedOn(cfg, e, []))
    ensures Passes(cfg, s, e, r)
  {
    hide Select, PassedOn;
    EmitsSelect(s.out, Trace(r), kinds, PASSED);
    assert Passed(Trace(r))[|Passed(s.out)|..] == [];
  }

  lemma ThenTailPasses(cfg: Config, s: State, e: Event, r: Step)
    requires Passes(cfg, s, e, r)
    ensures Passes(cfg, s, e, ThenTail(cfg, r))
  {
    hide LoopTail, Select, PassedOn;
    if r.Next? {
      LoopTailFrame(cfg, r.state);
      EmitsSelect(r.state.out, Trace(LoopTail(cfg, r.state)), TAIL, PASSED);
    }
  }

  lemma FramePasses(cfg: Config, s: State, e: Event)
    requires e.ClientOther?
    ensures Passes(cfg, s, e, LoopTail(cfg, Send(s, ServerFrame(e.frame))))
  {
    hide LoopTail, Select;
    var mid := Send(s, ServerFrame(e.frame));
    SelectAppend(s.out, ServerFrame(e.frame), PASSED);
    assert Passed(mid.out)[|Passed(s.out)|..] == [ServerFrame(e.frame)];
    ThenTailPasses(cfg, s, e, Next(mid));
    assert ThenTail(cfg, Next(mid)) == LoopTail(cfg, mid);
  }

  lemma ClientTextPasses(cfg: Config, s: State, e: Event)
    requires e.ClientText?
    ensures Passes(cfg, s, e, HandleClientText(cfg, s, e.text))
  {
    hide Rewrite, Select, Forward, RequestRoute, Ids.HostInitializeId;
    var r := HandleClientText(cfg, s, e.text);
    if e.text.Some? && Rewrite(cfg, e.text.value).Some? {
      var m := Rewrite(cfg, e.text.value).value;
      if Method(m) == Some("initialize") {
        var copy := HostInitialize(With(m, "id", Str(Ids.HostInitializeId(cfg.environmentId))));
        SelectAppend(s.out, copy, PASSED);
        SelectAppend(s.out + [copy], ServerInitialize(m), PASSED);
        assert Passed(Trace(r))[|Passed(s.out)|..] == [copy, ServerInitialize(m)];
      } else {
        OtherTextForwards(cfg, s, m);
        QuietPasses(cfg, s, e, r, FORWARDS);
      }
    } else {
      QuietPasses(cfg, s, e, r, {});
    }
  }

  lemma OtherTextForwards(cfg: Config, s: State, m: Json)
    requires Method(m) != Some("initialize")
    ensures Emits(s.out, Trace(AcceptClientText(cfg, s, m)), FORWARDS)
  {
    hide Forward, RequestRoute;
    var s1 := s.(listIds := if Method(m) == Some("thread/list") && Field(m, "id").Some?
                            then s.listIds + {Field(m, "id").value} else s.listIds);
    ForwardFrame(cfg, s1, Held(m, RequestRoute(cfg, Method(m))));
  }

  lemma PassesTurn(cfg: Config, s: State, e: Event)
    ensures Passes(cfg, s, e, Handle(cfg, s, e))
  {
    hide LoopTail, ThenTail, HandleHostMessage, HandleServerText, HandleClientText, RecordOwned, SendExpired, Passes;
    if !e.ClientText? {
      NoRequest(cfg, e);
    }
    match e
    case ClientText(text) =>
      ClientTextPasses(cfg, s, e);
      ThenTailPasses(cfg, s, e, HandleClientText(cfg, s, text));
    case ServerText(_, _, _) => ServerTextPasses(cfg, s, e);
    case ClientOther(_) => FramePasses(cfg, s, e);
    case ServerOther(frame) =>
      QuietPasses(cfg, s, e, Next(Send(s, ClientFrame(frame))), {ToClientFrame});
      ThenTailPasses(cfg, s, e, Next(Send(s, ClientFrame(frame))));
      assert ThenTail(cfg, Next(Send(s, ClientFrame(frame)))) == LoopTail(cfg, Send(s, ClientFrame(frame))) by {
        TailOfNext(cfg, Send(s, ClientFrame(frame)));
      }
    case HostLine(line, order) =>
      if line.None? {
        QuietPasses(cfg, s, e, Failed(s.out), {});
      } else {
        HostMessageFrame(cfg, s, line.value, order);
        QuietPasses(cfg, s, e, HandleHostMessage(cfg, s, line.value, order), {ToServerStart, ToHostRead, ToClientFromHost});
        ThenTailPasses(cfg, s, e, HandleHostMessage(cfg, s, line.value, order));
      }
    case Gone => QuietPasses(cfg, s, e, Closed(s.out), {});
    case Broken => QuietPasses(cfg, s, e, Failed(s.out), {});
    case Expiry(expired) =>
      SendExpiredFrame(s, expired);
      QuietPasses(cfg, s, e, SendExpired(s, expired), {ToServerStart});
      ThenTailPasses(cfg, s, e, SendExpired(s, expired));
    case ScopeElsewhere(response, saveWorks) =>
      RecordFrame(s, response, saveWorks);
      QuietPasses(cfg, s, e, Next(RecordOwned(s, response, saveWorks)), {});
  }

  lemma TailOfNext(cfg: Config, s: State)
    ensures ThenTail(cfg, Next(s)) == LoopTail(cfg, s)
  {
    hide LoopTail;
  }

  lemma ServerTextPasses(cfg: Config, s: State, e: Event)
    requires e.ServerText?
    ensures Passes(cfg, s, e, HandleServerText(cfg, s, e.text, e.order, e.saveWorks))
  {
    hide ThenTail, HandleServerMessage, HandleStatus, BeginStatusPoll, Passes, IsAddResponse, IsStatusResponse;
    NoRequest(cfg, e);
    if e.text.None? {
      QuietPasses(cfg, s, e, Failed(s.out), {});
    } else if IsAddResponse(cfg, e.text.value) {
      StatusPollFrame(cfg, s, e.text.value);
      QuietPasses(cfg, s, e, BeginStatusPoll(cfg, s, e.text.value), {ToServerStatus});
    } else if IsStatusResponse(cfg, e.text.value) {
      StatusFrame(cfg, s, e.text.value);
      QuietPasses(cfg, s, e, HandleStatus(cfg, s, e.text.value), FORWARDS + {ToServerStatus});
    } else {
      ServerMessageFrame(cfg, s, e.text.value, e.order, e.saveWorks);
      QuietPasses(cfg, s, e, HandleServerMessage(cfg, s, e.text.value, e.order, e.saveWorks),
                  {ToServerAdd, ToClientStart, ToClientList, ToClientFromServer});
      ThenTailPasses(cfg, s, e, HandleServerMessage(cfg, s, e.text.value, e.order, e.saveWorks));
    }
  }

  /** Over all runs: each event sends on exactly this: an initialize request to both servers, and a frame that is no text
      to the App Server. */
  lemma InitializeGoesToBoth(cfg: Config, scope: Option<Scope>, events: seq<Event>, k: nat)
    requires RelayCauses.Processed(cfg, Initial(scope), events, k)
    ensures Passes(cfg, Run(cfg, Initial(scope), events[..k]).state, events[k], Run(cfg, Initial(scope), events[..k + 1]))
  {
    hide Run, Handle, Enabled, Passes;
    RelayCauses.LastEvent(cfg, Initial(scope), events, k);
    PassesTurn(cfg, Run(cfg, Initial(scope), events[..k]).state, events[k]);
  }

  // ---- The gate ----------------------------------------------------------------------------------------

  /** The client has sent an initialize request. */
  ghost predicate Initialized(cfg: Config, scope: Option<Scope>, events: seq<Event>) {
    exists k: nat ::
      && RelayCauses.Processed(cfg, Initial(scope), events, k)
      && Request(cfg, events[k]).Some? && Field(Request(cfg, events[k]).value, "method") == Some(Str("initialize"))
  }

  lemma {:induction false} InitializedExactly(cfg: Config, scope: Option<Scope>, events: seq<Event>)
    requires Run(cfg, Initial(scope), events).Next?
    ensures Run(cfg, Initial(scope), events).state.initializeId.Some? <==> Initialized(cfg, scope, events)
  {
    hide Handle, Enabled, Rewrite, ListsNext, RecordedBy, Tallied, Table;
    var s0 := Initial(scope);
    if events != [] {
      var n := |events| - 1;
      InitializedExactly(cfg, scope, events[..n]);
      var before := Run(cfg, s0, events[..n]).state;
      RemembersHistory(cfg, scope, events[..n]);
      if Enabled(before, events[n]) {
        RecallsTurn(cfg, before, events[n]);
      }
      if events[n].ClientText? && events[n].text.Some? {
        RewrittenInitialize(cfg, events[n].text.value);
      }
      hide Run;
      forall k: nat | k < n ensures RelayCauses.Processed(cfg, s0, events[..n], k) <==> RelayCauses.Processed(cfg, s0, events, k) {
        RelayCauses.SameProcessed(cfg, s0, events, n, k);
      }
    }
  }

  /** Over all runs: client messages are held exactly from an initialize request on until registration is ready and the
      merged response is on the client's wire. */
  lemma GateExactly(cfg: Config, scope: Option<Scope>, events: seq<Event>)
    requires Run(cfg, Initial(scope), events).Next?
    ensures var s := Run(cfg, Initial(scope), events).state;
            GateOpen(s) <==> !Initialized(cfg, scope, events)
                             || (History(cfg, scope, events).phase == Ready && exists i :: 0 <= i < |s.out| && s.out[i].ClientInitialize?)
  {
    hide Run, History, Initialized, Tallied, Table, RelayInitialize.WireOrder, RelayInitialize.OrderInv, Select;
    var s := Run(cfg, Initial(scope), events).state;
    InitializedExactly(cfg, scope, events);
    RemembersHistory(cfg, scope, events);
    RelayInitialize.MergedOnceAndFirst(cfg, scope, events);
    MergedOnWire(s.out);
  }

  lemma {:induction false} MergedOnWire(out: seq<Sent>)
    ensures RelayInitialize.Merged(out) != [] <==> exists i :: 0 <= i < |out| && out[i].ClientInitialize?
  {
    if out != [] {
      MergedOnWire(out[..|out| - 1]);
    }
  }
}
