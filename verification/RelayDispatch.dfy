/** The WebSocket relay forwards client messages first in, first out, and holds them exactly while
    its gate is closed. */
module RelayDispatch {
  import opened Wrappers
  import opened Json
  import opened RelaySpec
  import opened RelayFrames
  import Dispatcher
  import Ids

  // ---- What a forwarded message looks like on the wires ----------------------------------

  /** The frames that forward client messages, in the order they went out. */
  function Dispatched(out: seq<Sent>): seq<Sent> {
    Select(out, FORWARDS)
  }

  function Starts(ms: seq<Held>): nat {
    if ms == [] then 0
    else Starts(ms[..|ms| - 1]) + (if ms[|ms| - 1].route.ThreadStart? then 1 else 0)
  }

  function SequenceAfter(ms: seq<Held>): nat {
    if Starts(ms) > U64_MAX then U64_MAX else Starts(ms)
  }

  /** The frame that forwards m, when ms were forwarded before it. */
  function Image(cfg: Config, ms: seq<Held>, m: Held): Option<Sent> {
    match m.route
    case Local => Some(ServerForward(m.message))
    case Host => Some(HostForward(m.message))
    case ThreadStart =>
      var id := Ids.MetadataId(cfg.environmentId, SequenceAfter(ms + [m]));
      var shadow := ShadowRequest(m.message, id);
      if shadow.Some? then Some(Shadow(id, m.message, shadow.value)) else None
  }

  function Images(cfg: Config, ms: seq<Held>): seq<Sent> {
    if ms == [] then []
    else Images(cfg, ms[..|ms| - 1]) + Listed(Image(cfg, ms[..|ms| - 1], ms[|ms| - 1]))
  }

  /** The forwards on the wires are those of exactly the messages ms, one for each, in this order. */
  ghost predicate Forwarded(cfg: Config, sent: seq<Sent>, ms: seq<Held>) {
    Dispatched(sent) == Images(cfg, ms) && |Images(cfg, ms)| == |ms|
  }

  /** Exactly the messages ms, in this order, have been forwarded. */
  ghost predicate Done(cfg: Config, s: State, ms: seq<Held>) {
    && Forwarded(cfg, s.out, ms)
    && s.sequence == SequenceAfter(ms)
  }

  // ---- The queue -------------------------------------------------------------------------

  function Bytes(cfg: Config, queue: seq<Held>): nat {
    if queue == [] then 0 else |cfg.encode(queue[0].message)| + Bytes(cfg, queue[1..])
  }

  lemma {:induction false} BytesAppend(cfg: Config, queue: seq<Held>, m: Held)
    ensures Bytes(cfg, queue + [m]) == Bytes(cfg, queue) + |cfg.encode(m.message)|
  {
    if queue == [] {
      assert (queue + [m])[1..] == [];
    } else {
      assert (queue + [m])[1..] == queue[1..] + [m];
      BytesAppend(cfg, queue[1..], m);
    }
  }

  /** The byte count is exact and within the budget, and nothing is held behind an open gate. */
  ghost predicate QueueInv(cfg: Config, s: State) {
    && s.queuedBytes == Bytes(cfg, s.queue) <= MAX_PENDING_CLIENT_BYTES
    && (GateOpen(s) ==> s.queue == [])
    && (s.localInit.Some? && s.hostInit.Some? ==> s.initSent)
  }

  /** s' differs from s by neither queue, gate request nor forwarded messages. */
  ghost predicate SameDispatch(s: State, s': State) {
    && s'.queue == s.queue && s'.queuedBytes == s.queuedBytes
    && s'.sequence == s.sequence
    && s'.initializeId == s.initializeId
    && Dispatched(s'.out) == Dispatched(s.out)
  }

  lemma NothingForwarded(before: seq<Sent>, after: seq<Sent>, kinds: set<Kind>)
    requires Emits(before, after, kinds) && kinds !! FORWARDS
    ensures Dispatched(after) == Dispatched(before)
  {
    EmitsSelect(before, after, kinds, FORWARDS);
  }

  // ---- Forwarding ------------------------------------------------------------------------

  lemma ImagesAppend(cfg: Config, ms: seq<Held>, m: Held)
    ensures Images(cfg, ms + [m]) == Images(cfg, ms) + Listed(Image(cfg, ms, m))
    ensures Starts(ms + [m]) == Starts(ms) + (if m.route.ThreadStart? then 1 else 0)
  {
    hide Image;
    assert (ms + [m])[..|ms|] == ms;
  }

  lemma ForwardDone(cfg: Config, s: State, m: Held, ms: seq<Held>)
    requires Done(cfg, s, ms)
    ensures var r := Forward(cfg, s, m);
            if r.Next? then Done(cfg, r.state, ms + [m]) else Forwarded(cfg, r.sent, ms)
  {
    hide ShadowRequest, Ids.MetadataId, Select, Images, Starts;
    ImagesAppend(cfg, ms, m);
    var r := Forward(cfg, s, m);
    if r.Next? {
      var image := Image(cfg, ms, m);
      assert image.Some? && r.state.out == s.out + [image.value];
      SelectAppend(s.out, image.value, FORWARDS);
    }
  }

  /** What was forwarded when draining broke off. */
  ghost predicate BrokeOff(cfg: Config, sent: seq<Sent>, ms: seq<Held>, queue: seq<Held>) {
    exists k :: 0 <= k <= |queue| && Forwarded(cfg, sent, ms + queue[..k])
  }

  lemma {:induction false} DrainDone(cfg: Config, s: State, ms: seq<Held>)
    requires Done(cfg, s, ms)
    ensures var r := Drain(cfg, s);
            if r.Next? then
              Done(cfg, r.state, ms + s.queue)
            else BrokeOff(cfg, r.sent, ms, s.queue)
    decreases |s.queue|
  {
    hide Forward, Done, Dispatched, Images;
    if s.queue == [] {
      assert ms + s.queue == ms;
    } else {
      var m, rest := s.queue[0], s.queue[1..];
      var s1 := Dequeued(cfg, s);
      assert Done(cfg, s1, ms) by { DequeuedDone(cfg, s, ms); }
      ForwardFrame(cfg, s1, m);
      ForwardDone(cfg, s1, m, ms);
      var step := Forward(cfg, s1, m);
      if step.Next? {
        DrainDone(cfg, step.state, ms + [m]);
        assert ms + [m] + rest == ms + s.queue;
        var r := Drain(cfg, step.state);
        if !r.Next? {
          var k :| 0 <= k <= |rest| && Forwarded(cfg, r.sent, ms + [m] + rest[..k]);
          assert ms + [m] + rest[..k] == ms + s.queue[..k + 1];
        }
      } else {
        assert ms + s.queue[..0] == ms;
      }
    }
  }

  lemma DequeuedDone(cfg: Config, s: State, ms: seq<Held>)
    requires s.queue != [] && Done(cfg, s, ms)
    ensures Done(cfg, Dequeued(cfg, s), ms)
  {
  }

  lemma {:induction false} DrainBytes(cfg: Config, s: State)
    requires s.queuedBytes == Bytes(cfg, s.queue)
    ensures var r := Drain(cfg, s); r.Next? ==> r.state.queuedBytes == 0
    decreases |s.queue|
  {
    if s.queue != [] {
      var step := Forward(cfg, Dequeued(cfg, s), s.queue[0]);
      if step.Next? {
        DrainBytes(cfg, step.state);
      }
    }
  }

  // ---- One turn of the loop --------------------------------------------------------------

  /** In the middle of a turn the relay represents the abstract dispatcher h. */
  ghost predicate Mid(cfg: Config, s: State, h: Dispatcher.Hold<Held>) {
    && Done(cfg, s, h.done)
    && s.queue == h.held
    && s.queuedBytes == Bytes(cfg, s.queue) <= MAX_PENDING_CLIENT_BYTES
    && (s.initializeId.None? ==> s.queue == [])
  }

  /** At the head of the loop it does so too, and holds nothing behind an open gate. */
  ghost predicate Head(cfg: Config, s: State, h: Dispatcher.Hold<Held>) {
    Mid(cfg, s, h) && QueueInv(cfg, s)
  }

  /** The relay stopped having forwarded the first of ms, in order, and nothing else. */
  ghost predicate StoppedAt(cfg: Config, sent: seq<Sent>, ms: seq<Held>) {
    exists k :: 0 <= k <= |ms| && Forwarded(cfg, sent, ms[..k])
  }

  function Settle(h: Dispatcher.Hold<Held>, open: bool): Dispatcher.Hold<Held> {
    if open then Dispatcher.Hold(h.done + h.held, []) else h
  }

  lemma StoppedAfter(cfg: Config, sent: seq<Sent>, done: seq<Held>, more: seq<Held>)
    requires Forwarded(cfg, sent, done)
    ensures StoppedAt(cfg, sent, done + more)
  {
    assert (done + more)[..|done|] == done;
  }

  lemma SameMid(cfg: Config, s: State, s': State, h: Dispatcher.Hold<Held>)
    requires Mid(cfg, s, h) && SameDispatch(s, s')
    ensures Mid(cfg, s', h)
  {
  }

  lemma DrainSettles(cfg: Config, s: State, h: Dispatcher.Hold<Held>)
    requires Mid(cfg, s, h) && IsReady(s)
    ensures var r := Drain(cfg, s);
            if r.Next? then Head(cfg, r.state, Settle(h, true)) && IsReady(r.state)
            else StoppedAt(cfg, r.sent, h.done + h.held)
  {
    hide Drain, Done, Images, Dispatched;
    DrainDone(cfg, s, h.done);
    DrainBytes(cfg, s);
    DrainFrame(cfg, s);
    var r := Drain(cfg, s);
    if !r.Next? {
      var k :| 0 <= k <= |h.held| && Forwarded(cfg, r.sent, h.done + h.held[..k]);
      assert (h.done + h.held)[..|h.done| + k] == h.done + h.held[..k];
    }
  }

  lemma SendInitializeSame(cfg: Config, s: State)
    ensures var r := SendInitialize(cfg, s);
            if r.Next? then
              && SameDispatch(s, r.state)
              && (r.state.localInit.Some? && r.state.hostInit.Some? ==> r.state.initSent)
            else r.sent == s.out
  {
    hide MergeInitialize, Dispatched;
    SendInitializeFrame(cfg, s);
    NothingForwarded(s.out, Trace(SendInitialize(cfg, s)), {ToClientInitialize});
  }

  lemma TailSettles(cfg: Config, s: State, h: Dispatcher.Hold<Held>)
    requires Mid(cfg, s, h)
    ensures var r := LoopTail(cfg, s);
            if r.Next? then Head(cfg, r.state, Settle(h, GateOpen(r.state)))
            else StoppedAt(cfg, r.sent, h.done + h.held)
  {
    hide Drain, SendInitialize, Done, Images, Dispatched;
    SendInitializeSame(cfg, s);
    var r := SendInitialize(cfg, s);
    if r.Next? {
      assert Mid(cfg, r.state, h) by { SameMid(cfg, s, r.state, h); }
      if IsReady(r.state) {
        DrainSettles(cfg, r.state, h);
      } else {
        assert h.held == [] ==> h.done + h.held == h.done;
      }
    } else {
      assert Forwarded(cfg, r.sent, h.done) by { DoneSent(cfg, s, h.done); }
      StoppedAfter(cfg, r.sent, h.done, h.held);
    }
  }

  lemma DoneSent(cfg: Config, s: State, ms: seq<Held>)
    requires Done(cfg, s, ms)
    ensures Forwarded(cfg, s.out, ms)
  {
  }

  // ---- Client messages -------------------------------------------------------------------

  /** The message a client text adds to the stream of forwarded messages. */
  function Arrival(cfg: Config, e: Event): Option<Held> {
    if !e.ClientText? || e.text.None? then None
    else
      var m := Rewrite(cfg, e.text.value);
      if m.None? || Method(m.value) == Some("initialize") then None
      else Some(Held(m.value, RequestRoute(cfg, Method(m.value))))
  }

  function Arrived(h: Dispatcher.Hold<Held>, arrival: Option<Held>, open: bool): Dispatcher.Hold<Held> {
    if arrival.None? then h
    else if open then h.(done := h.done + [arrival.value])
    else h.(held := h.held + [arrival.value])
  }

  lemma RewriteKeeps(cfg: Config, raw: Json)
    ensures var m := Rewrite(cfg, raw);
            m.Some? ==> Method(m.value) == Method(raw) && Field(m.value, "id") == Field(raw, "id")
                        && (Method(raw) == Some("initialize") ==> Field(raw, "id").Some?)
  {
    hide Environments;
  }

  lemma AcceptMid(cfg: Config, s: State, m: Json, h: Dispatcher.Hold<Held>)
    requires Head(cfg, s, h)
    requires Method(m) == Some("initialize") ==> Field(m, "id").Some?
    ensures var r := AcceptClientText(cfg, s, m);
            var arrival := if Method(m) == Some("initialize") then None
                           else Some(Held(m, RequestRoute(cfg, Method(m))));
            if r.Next? then Mid(cfg, r.state, Arrived(h, arrival, GateOpen(s)))
            else Forwarded(cfg, r.sent, h.done)
  {
    hide Forward, Images, RequestRoute, Mid, Head, Dispatched, SatAdd, Ids.HostInitializeId;
    var verb := Method(m);
    var held := Held(m, RequestRoute(cfg, verb));
    var s1 := s.(listIds := if verb == Some("thread/list") && Field(m, "id").Some?
                            then s.listIds + {Field(m, "id").value} else s.listIds);
    HeadSent(cfg, s, h);
    if verb == Some("initialize") {
      AcceptInitializeMid(cfg, s, m, h);
    } else if GateOpen(s1) {
      AcceptForwardMid(cfg, s, s1, held, h);
    } else {
      AcceptHeldMid(cfg, s, s1, held, h);
    }
  }

  lemma HeadSent(cfg: Config, s: State, h: Dispatcher.Hold<Held>)
    requires Head(cfg, s, h)
    ensures Forwarded(cfg, s.out, h.done)
  {
  }

  lemma AcceptInitializeMid(cfg: Config, s: State, m: Json, h: Dispatcher.Hold<Held>)
    requires Head(cfg, s, h) && Field(m, "id").Some?
    ensures m.Obj?
    ensures var copy := HostInitialize(With(m, "id", Str(Ids.HostInitializeId(cfg.environmentId))));
            Mid(cfg, Send(Send(s.(initializeId := Field(m, "id")), copy), ServerInitialize(m)), h)
  {
    hide Images, Dispatched, Ids.HostInitializeId;
    var s2 := s.(initializeId := Field(m, "id"));
    var copy := HostInitialize(With(m, "id", Str(Ids.HostInitializeId(cfg.environmentId))));
    NothingForwarded(s2.out, s2.out + [copy] + [ServerInitialize(m)], {ToHostInitialize, ToServerInitialize});
  }

  lemma AcceptForwardMid(cfg: Config, s: State, s1: State, held: Held, h: Dispatcher.Hold<Held>)
    requires Head(cfg, s, h) && s1 == s.(listIds := s1.listIds) && GateOpen(s1)
    ensures var r := Forward(cfg, s1, held);
            if r.Next? then Mid(cfg, r.state, Arrived(h, Some(held), GateOpen(s)))
            else Forwarded(cfg, r.sent, h.done)
  {
    hide Forward, Images, Dispatched;
    ForwardFrame(cfg, s1, held);
    ForwardDone(cfg, s1, held, h.done);
  }

  lemma AcceptHeldMid(cfg: Config, s: State, s1: State, held: Held, h: Dispatcher.Hold<Held>)
    requires Head(cfg, s, h) && s1 == s.(listIds := s1.listIds) && !GateOpen(s1)
    ensures var bytes := SatAdd(s1.queuedBytes, |cfg.encode(held.message)|);
            bytes <= MAX_PENDING_CLIENT_BYTES ==>
              Mid(cfg, s1.(queue := s1.queue + [held], queuedBytes := bytes), Arrived(h, Some(held), GateOpen(s)))
  {
    hide Images, Dispatched;
    BytesAppend(cfg, s.queue, held);
  }

  lemma ClientTextSettles(cfg: Config, s: State, e: Event, h: Dispatcher.Hold<Held>)
    requires Head(cfg, s, h) && e.ClientText?
    ensures TurnSettles(cfg, s, e, h, Handle(cfg, s, e))
  {
    hide AcceptClientText, LoopTail, RequestRoute, Rewrite, Images, Dispatched;
    var open, arrival := GateOpen(s), Arrival(cfg, e);
    var r := HandleClientText(cfg, s, e.text);
    if e.text.Some? && Rewrite(cfg, e.text.value).Some? {
      RewriteKeeps(cfg, e.text.value);
      AcceptMid(cfg, s, Rewrite(cfg, e.text.value).value, h);
    }
    var h1 := Arrived(h, arrival, open);
    assert h1.done + h1.held == h.done + h.held + Listed(arrival);
    if r.Next? {
      TailSettles(cfg, r.state, h1);
    } else {
      StoppedAfter(cfg, r.sent, h.done, h.held + Listed(arrival));
      assert h.done + (h.held + Listed(arrival)) == h.done + h.held + Listed(arrival);
    }
  }

  // ---- Every turn refines the abstract dispatcher ------------------------------------------

  function TurnOf(cfg: Config, s: State, e: Event, s': State): Dispatcher.Turn<Held> {
    Dispatcher.Turn(Arrival(cfg, e), GateOpen(s), GateOpen(s'))
  }

  ghost predicate TurnSettles(cfg: Config, s: State, e: Event, h: Dispatcher.Hold<Held>, r: Step) {
    if r.Next? then Head(cfg, r.state, Dispatcher.Advance(h, TurnOf(cfg, s, e, r.state)))
    else StoppedAt(cfg, r.sent, h.done + h.held + Listed(Arrival(cfg, e)))
  }

  /** A turn that is not a client text: some step that keeps the dispatcher, then the loop tail. */
  lemma PlainTurn(cfg: Config, s: State, e: Event, h: Dispatcher.Hold<Held>, r: Step)
    requires Head(cfg, s, h) && Arrival(cfg, e).None?
    requires if r.Next? then SameDispatch(s, r.state) else Dispatched(r.sent) == Dispatched(s.out)
    ensures TurnSettles(cfg, s, e, h, ThenTail(cfg, r))
  {
    hide LoopTail, Dispatched, Images, Arrival;
    if r.Next? {
      SameMid(cfg, s, r.state, h);
      TailSettles(cfg, r.state, h);
    } else {
      assert Forwarded(cfg, s.out, h.done);
      StoppedAfter(cfg, r.sent, h.done, h.held);
    }
    assert h.done + h.held + Listed(Arrival(cfg, e)) == h.done + h.held;
  }

  /** A turn cut short by `continue`, with the gate neither opened nor anything forwarded. */
  lemma ShortTurn(cfg: Config, s: State, e: Event, h: Dispatcher.Hold<Held>, r: Step)
    requires Head(cfg, s, h) && Arrival(cfg, e).None?
    requires if r.Next? then
               && SameDispatch(s, r.state) && r.state.initSent == s.initSent
               && r.state.localInit == s.localInit && r.state.hostInit == s.hostInit
               && (IsReady(r.state) ==> IsReady(s))
             else r.sent == s.out
    ensures TurnSettles(cfg, s, e, h, r)
  {
    hide Dispatched, Images, Arrival;
    assert h.done + h.held + Listed(Arrival(cfg, e)) == h.done + h.held;
    if r.Next? {
      SameMid(cfg, s, r.state, h);
      assert h.held == [] ==> h.done + h.held == h.done;
    } else {
      StoppedAfter(cfg, r.sent, h.done, h.held);
    }
  }

  lemma StatusTurn(cfg: Config, s: State, e: Event, v: Json, h: Dispatcher.Hold<Held>)
    requires Head(cfg, s, h) && Arrival(cfg, e).None?
    ensures TurnSettles(cfg, s, e, h, HandleStatus(cfg, s, v))
  {
    hide Drain, Images, Arrival, StatusReady, StatusRequest, Done;
    if StatusReady(v) == Some(true) && s.initSent {
      assert h.done + h.held + Listed(Arrival(cfg, e)) == h.done + h.held;
      var s1 := s.(phase := Ready);
      assert Mid(cfg, s1, h) by { SameMid(cfg, s, s1, h); }
      DrainSettles(cfg, s1, h);
    } else {
      ShortTurn(cfg, s, e, h, HandleStatus(cfg, s, v));
    }
  }

  lemma ServerTextSettles(cfg: Config, s: State, e: Event, h: Dispatcher.Hold<Held>)
    requires Head(cfg, s, h) && e.ServerText?
    ensures TurnSettles(cfg, s, e, h, Handle(cfg, s, e))
  {
    hide HandleServerMessage, HandleStatus, LoopTail, Images, Dispatched, Head, TurnSettles, StatusRequest, Ids.AddId, Ids.StatusId;
    var r := HandleServerText(cfg, s, e.text, e.order, e.saveWorks);
    if e.text.None? {
      ShortTurn(cfg, s, e, h, r);
    } else if IsAddResponse(cfg, e.text.value) {
      StatusPollFrame(cfg, s, e.text.value);
      NothingForwarded(s.out, Trace(r), {ToServerStatus});
      ShortTurn(cfg, s, e, h, r);
    } else if IsStatusResponse(cfg, e.text.value) {
      StatusTurn(cfg, s, e, e.text.value, h);
    } else {
      var r1 := HandleServerMessage(cfg, s, e.text.value, e.order, e.saveWorks);
      ServerMessageFrame(cfg, s, e.text.value, e.order, e.saveWorks);
      NothingForwarded(s.out, Trace(r1), {ToServerAdd, ToClientStart, ToClientList, ToClientFromServer});
      PlainTurn(cfg, s, e, h, r1);
    }
  }

  /** Every turn, whatever woke the relay, is a turn of the abstract dispatcher. */
  lemma TurnRefines(cfg: Config, s: State, e: Event, h: Dispatcher.Hold<Held>)
    requires Head(cfg, s, h)
    ensures TurnSettles(cfg, s, e, h, Handle(cfg, s, e))
  {
    hide LoopTail, HandleHostMessage, HandleServerText, HandleClientText, RecordOwned, SendExpired, Images, Head, TurnSettles;
    match e
    case ClientText(_) => ClientTextSettles(cfg, s, e, h);
    case ServerText(_, _, _) => ServerTextSettles(cfg, s, e, h);
    case ClientOther(frame) => PlainTurn(cfg, s, e, h, Next(Send(s, ServerFrame(frame))));
    case ServerOther(frame) => PlainTurn(cfg, s, e, h, Next(Send(s, ClientFrame(frame))));
    case HostLine(line, order) =>
      if line.None? {
        ShortTurn(cfg, s, e, h, Failed(s.out));
      } else {
        var r := HandleHostMessage(cfg, s, line.value, order);
        HostMessageFrame(cfg, s, line.value, order);
        NothingForwarded(s.out, Trace(r), {ToServerStart, ToHostRead, ToClientFromHost});
        PlainTurn(cfg, s, e, h, r);
      }
    case Gone => ShortTurn(cfg, s, e, h, Closed(s.out));
    case Broken => ShortTurn(cfg, s, e, h, Failed(s.out));
    case Expiry(expired) =>
      SendExpiredFrame(s, expired);
      NothingForwarded(s.out, Trace(SendExpired(s, expired)), {ToServerStart});
      PlainTurn(cfg, s, e, h, SendExpired(s, expired));
    case ScopeElsewhere(response, saveWorks) =>
      RecordFrame(s, response, saveWorks);
      ShortTurn(cfg, s, e, h, Next(RecordOwned(s, response, saveWorks)));
  }

  // ---- All runs --------------------------------------------------------------------------

  ghost function Turns(cfg: Config, s: State, events: seq<Event>): seq<Dispatcher.Turn<Held>> {
    if events == [] then []
    else
      var before := Run(cfg, s, events[..|events| - 1]);
      var after := Run(cfg, s, events);
      var e := events[|events| - 1];
      Turns(cfg, s, events[..|events| - 1])
        + (if before.Next? && after.Next? && Enabled(before.state, e) then [TurnOf(cfg, before.state, e, after.state)]
           else [])
  }

  /** The messages the client has sent, apart from initialize, as the relay rewrites and routes them. */
  ghost function Received(cfg: Config, s: State, events: seq<Event>): seq<Held> {
    if events == [] then []
    else
      var before := Run(cfg, s, events[..|events| - 1]);
      Received(cfg, s, events[..|events| - 1])
        + (if before.Next? then Listed(Arrival(cfg, events[|events| - 1])) else [])
  }

  /** The relay's runs are runs of the abstract dispatcher, with the relay's gate. */
  lemma {:induction false} WebSocketRefinesDispatcher(cfg: Config, scope: Option<Scope>, events: seq<Event>)
    ensures var r, turns := Run(cfg, Initial(scope), events), Turns(cfg, Initial(scope), events);
            r.Next? ==>
              && Head(cfg, r.state, Dispatcher.Play(turns))
              && Dispatcher.Continuous(turns)
              && Dispatcher.Arrivals(turns) == Received(cfg, Initial(scope), events)
              && (turns != [] ==> turns[|turns| - 1].openAfter == GateOpen(r.state))
              && (turns == [] ==> GateOpen(r.state))
  {
    hide Handle, Head, GateOpen, Arrival, Enabled;
    var s0 := Initial(scope);
    if events == [] {
      assert Head(cfg, s0, Dispatcher.Hold([], [])) by { InitialHead(cfg, scope); }
      assert GateOpen(s0) by { InitialHead(cfg, scope); }
    } else {
      var init, e := events[..|events| - 1], events[|events| - 1];
      WebSocketRefinesDispatcher(cfg, scope, init);
      var before, after := Run(cfg, s0, init), Run(cfg, s0, events);
      if before.Next? && after.Next? {
        if Enabled(before.state, e) {
          TurnRefines(cfg, before.state, e, Dispatcher.Play(Turns(cfg, s0, init)));
          assert Turns(cfg, s0, events)[..|Turns(cfg, s0, init)|] == Turns(cfg, s0, init);
        } else {
          assert Arrival(cfg, e).None? by { ArrivalEnabled(cfg, before.state, e); }
          assert Turns(cfg, s0, events) == Turns(cfg, s0, init);
        }
      }
    }
  }

  lemma ArrivalEnabled(cfg: Config, s: State, e: Event)
    requires !Enabled(s, e)
    ensures Arrival(cfg, e).None?
  {
  }

  lemma InitialHead(cfg: Config, scope: Option<Scope>)
    ensures Head(cfg, Initial(scope), Dispatcher.Hold([], []))
    ensures GateOpen(Initial(scope))
  {
  }

  /** In every reachable state the forwarded messages followed by the held ones are the received
      ones; the gate holds nothing back once open; the byte budget is exact. However a run ends,
      what was forwarded is a prefix of what was received. */
  lemma {:induction false} FirstInFirstOut(cfg: Config, scope: Option<Scope>, events: seq<Event>)
    ensures var r, received := Run(cfg, Initial(scope), events), Received(cfg, Initial(scope), events);
            if r.Next? then
              && |r.state.queue| <= |received|
              && r.state.queue == received[|received| - |r.state.queue|..]
              && Forwarded(cfg, r.state.out, received[..|received| - |r.state.queue|])
              && QueueInv(cfg, r.state)
            else StoppedAt(cfg, r.sent, received)
  {
    hide Handle, Arrival, Images, Dispatched, GateOpen;
    var s0 := Initial(scope);
    WebSocketRefinesDispatcher(cfg, scope, events);
    var r := Run(cfg, s0, events);
    if r.Next? {
      var h := Dispatcher.Play(Turns(cfg, s0, events));
      Dispatcher.FirstInFirstOut(Turns(cfg, s0, events));
      assert Received(cfg, s0, events)[..|h.done|] == h.done;
    } else if events != [] {
      var init, e := events[..|events| - 1], events[|events| - 1];
      var before := Run(cfg, s0, init);
      if before.Next? {
        WebSocketRefinesDispatcher(cfg, scope, init);
        var h := Dispatcher.Play(Turns(cfg, s0, init));
        Dispatcher.FirstInFirstOut(Turns(cfg, s0, init));
        TurnRefines(cfg, before.state, e, h);
      } else {
        FirstInFirstOut(cfg, scope, init);
        assert Received(cfg, s0, events) == Received(cfg, s0, init);
      }
    }
  }

  /** While the gate stays closed, a turn forwards nothing. */
  lemma HeldBehindClosedGate(cfg: Config, s: State, e: Event, h: Dispatcher.Hold<Held>)
    requires Head(cfg, s, h) && !GateOpen(s)
    ensures var r := Handle(cfg, s, e);
            r.Next? && !GateOpen(r.state) ==> Dispatched(r.state.out) == Dispatched(s.out)
  {
    hide Handle, Arrival, Images, Dispatched, GateOpen;
    TurnRefines(cfg, s, e, h);
  }

  // ---- Which wire a message goes out on --------------------------------------------------------------

  /** The client's messages apart from initialize, as the relay rewrites them. */
  ghost function ReceivedMessages(cfg: Config, s: State, events: seq<Event>): seq<Json> {
    if events == [] then []
    else
      var e := events[|events| - 1];
      var m := if e.ClientText? && e.text.Some? then Rewrite(cfg, e.text.value) else None;
      ReceivedMessages(cfg, s, events[..|events| - 1])
        + (if Run(cfg, s, events[..|events| - 1]).Next? && m.Some? && Field(m.value, "method") != Some(Str("initialize"))
           then [m.value] else [])
  }

  predicate IsThreadStart(m: Json) {
    Field(m, "method") == Some(Str("thread/start"))
  }

  /** m asks for something that the host answers. */
  predicate ForHost(cfg: Config, m: Json) {
    exists verb :: verb in cfg.hostRequests && Field(m, "method") == Some(Str(verb))
  }

  /** frame forwards m on the wire where it belongs: a thread/start as its shadow to the host, a request of the host to
      the host, and everything else, also what has no method, to the App Server. */
  predicate RoutedBy(cfg: Config, frame: Sent, m: Json) {
    if IsThreadStart(m) then frame.Shadow? && frame.origin == m
    else if ForHost(cfg, m) then frame == HostForward(m)
    else frame == ServerForward(m)
  }

  lemma {:induction false} SameReceived(cfg: Config, s: State, events: seq<Event>)
    ensures var held, ms := Received(cfg, s, events), ReceivedMessages(cfg, s, events);
            && |held| == |ms|
            && forall i :: 0 <= i < |ms| ==> held[i] == Held(ms[i], RequestRoute(cfg, Method(ms[i])))
  {
    hide Run, RequestRoute, Rewrite;
    if events != [] {
      SameReceived(cfg, s, events[..|events| - 1]);
    }
  }

  lemma ImageRouted(cfg: Config, ms: seq<Held>, m: Json)
    requires Image(cfg, ms, Held(m, RequestRoute(cfg, Method(m)))).Some?
    ensures RoutedBy(cfg, Image(cfg, ms, Held(m, RequestRoute(cfg, Method(m)))).value, m)
  {
    hide ShadowRequest, Ids.MetadataId, SequenceAfter;
    if Method(m).Some? {
      assert Field(m, "method") == Some(Str(Method(m).value));
    }
  }

  lemma {:induction false} ImageAt(cfg: Config, ms: seq<Held>, i: nat)
    requires |Images(cfg, ms)| == |ms| && i < |ms|
    ensures Image(cfg, ms[..i], ms[i]) == Some(Images(cfg, ms)[i])
    decreases |ms|
  {
    hide Image;
    var n := |ms| - 1;
    ImagesShort(cfg, ms[..n]);
    if i < n {
      ImageAt(cfg, ms[..n], i);
      assert ms[..n][..i] == ms[..i];
    }
  }

  lemma {:induction false} ImagesShort(cfg: Config, ms: seq<Held>)
    ensures |Images(cfg, ms)| <= |ms|
  {
    hide Image;
    if ms != [] {
      ImagesShort(cfg, ms[..|ms| - 1]);
    }
  }

  /** The first n messages have been forwarded, each once, in order, and each on its own wire; and nothing else. */
  ghost predicate Routed(cfg: Config, sent: seq<Sent>, ms: seq<Json>, n: nat) {
    && n <= |ms| && |Dispatched(sent)| == n
    && forall i :: 0 <= i < n ==> RoutedBy(cfg, Dispatched(sent)[i], ms[i])
  }

  lemma ForwardedIsRouted(cfg: Config, sent: seq<Sent>, held: seq<Held>, ms: seq<Json>, n: nat)
    requires n <= |held| == |ms| && Forwarded(cfg, sent, held[..n])
    requires forall i :: 0 <= i < |ms| ==> held[i] == Held(ms[i], RequestRoute(cfg, Method(ms[i])))
    ensures Routed(cfg, sent, ms, n)
  {
    hide Image, RequestRoute, RoutedBy, Dispatched, Images;
    forall i | 0 <= i < n ensures RoutedBy(cfg, Dispatched(sent)[i], ms[i]) {
      ImageAt(cfg, held[..n], i);
      ImageRouted(cfg, held[..n][..i], ms[i]);
    }
  }

  /** Over all runs: the client's messages are forwarded once each, in the order received, on the wire their method
      belongs to; those not forwarded are held, and none are when the gate is open. */
  lemma RoutedInOrder(cfg: Config, scope: Option<Scope>, events: seq<Event>)
    ensures var r, ms := Run(cfg, Initial(scope), events), ReceivedMessages(cfg, Initial(scope), events);
            if r.Next? then
              && |r.state.queue| <= |ms| && Routed(cfg, r.state.out, ms, |ms| - |r.state.queue|)
              && (GateOpen(r.state) ==> r.state.queue == [])
              && forall i :: 0 <= i < |r.state.queue| ==> r.state.queue[i].message == ms[|ms| - |r.state.queue| + i]
            else exists n: nat :: Routed(cfg, r.sent, ms, n)
  {
    hide Run, Forwarded, Routed, GateOpen, RequestRoute, Received, ReceivedMessages;
    var r, held, ms := Run(cfg, Initial(scope), events), Received(cfg, Initial(scope), events),
                       ReceivedMessages(cfg, Initial(scope), events);
    FirstInFirstOut(cfg, scope, events);
    SameReceived(cfg, Initial(scope), events);
    if r.Next? {
      ForwardedIsRouted(cfg, r.state.out, held, ms, |ms| - |r.state.queue|);
    } else {
      var n: nat :| n <= |held| && Forwarded(cfg, r.sent, held[..n]);
      ForwardedIsRouted(cfg, r.sent, held, ms, n);
    }
  }
}
