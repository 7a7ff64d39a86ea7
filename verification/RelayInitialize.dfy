/** The merged initialize response: sent once, after both servers, before any held message. */
module RelayInitialize {
  import opened Wrappers
  import opened Json
  import opened RelaySpec
  import opened RelayFrames
  import opened RelayRegistration
  import Ids

  const MERGED: set<Kind> := {ToClientInitialize}

  function Merged(out: seq<Sent>): seq<Sent> {
    Select(out, MERGED)
  }

  ghost predicate IsMerge(cfg: Config, frame: Sent) {
    frame.ClientInitialize? && MergeInitialize(frame.local, frame.host, cfg.remoteHome) == Some(frame.message)
  }

  /** In the middle of a turn. The App Server's answer is in hand, or already merged, exactly when
      the environment/add request it triggers has been sent. */
  ghost predicate InitMid(cfg: Config, s: State) {
    && (if s.initSent then |Merged(s.out)| == 1 && IsMerge(cfg, Merged(s.out)[0]) else Merged(s.out) == [])
    && (Adds(s.out) != [] <==> s.localInit.Some? || s.initSent)
    && !(s.localInit.Some? && s.initSent)
    && (s.initSent ==> s.hostInit.Some?)
  }

  /** At the head of the loop the merged response has been sent as soon as both servers answered. */
  ghost predicate InitHead(cfg: Config, s: State) {
    && InitMid(cfg, s)
    && !(s.localInit.Some? && s.hostInit.Some?)
  }

  // ---- Nothing is forwarded between the initialize request and the merged response ---------

  ghost predicate Holds(out: seq<Sent>, kind: Kind) {
    exists i :: 0 <= i < |out| && KindOf(out[i]) == kind
  }

  /** Whatever was forwarded after an initialize request was forwarded after the merged response. */
  ghost predicate Ordered(out: seq<Sent>) {
    forall i, j :: 0 <= i < j < |out| && KindOf(out[i]) == ToServerInitialize && KindOf(out[j]) in FORWARDS
      ==> Holds(out[..j], ToClientInitialize)
  }

  ghost predicate OrderInv(s: State) {
    && Ordered(s.out)
    && (s.initSent ==> Holds(s.out, ToClientInitialize))
    && (s.initializeId.None? ==> !Holds(s.out, ToServerInitialize))
  }

  lemma OrderedQuiet(before: seq<Sent>, after: seq<Sent>, kinds: set<Kind>)
    requires Ordered(before) && Emits(before, after, kinds) && kinds !! FORWARDS
    ensures Ordered(after)
  {
    forall i, j | 0 <= i < j < |after| && KindOf(after[i]) == ToServerInitialize && KindOf(after[j]) in FORWARDS
      ensures Holds(after[..j], ToClientInitialize)
    {
      assert j < |before|;
      assert before[i] == after[i] && before[j] == after[j];
      assert after[..j] == before[..j];
    }
  }

  lemma OrderedMerged(before: seq<Sent>, after: seq<Sent>)
    requires Ordered(before) && before <= after && Holds(before, ToClientInitialize)
    ensures Ordered(after) && Holds(after, ToClientInitialize)
  {
    var m :| 0 <= m < |before| && KindOf(before[m]) == ToClientInitialize;
    assert after[m] == before[m];
    forall i, j | 0 <= i < j < |after| && KindOf(after[i]) == ToServerInitialize && KindOf(after[j]) in FORWARDS
      ensures Holds(after[..j], ToClientInitialize)
    {
      if j < |before| {
        assert before[i] == after[i] && before[j] == after[j];
        assert after[..j] == before[..j];
      } else {
        assert after[..j][m] == before[m];
      }
    }
  }

  lemma OrderedFirst(before: seq<Sent>, after: seq<Sent>, kinds: set<Kind>)
    requires Emits(before, after, kinds) && ToServerInitialize !in kinds && !Holds(before, ToServerInitialize)
    ensures Ordered(after) && !Holds(after, ToServerInitialize)
  {
    forall i | 0 <= i < |after| ensures KindOf(after[i]) != ToServerInitialize {
      if i < |before| {
        assert before[i] == after[i];
      }
    }
  }

  // ---- Quiet steps -----------------------------------------------------------------------

  const OWN: set<Kind> := {ToServerInitialize, ToClientInitialize, ToServerAdd}

  /** A step that keeps the initialize bookkeeping and sends nothing of its own. */
  ghost predicate QuietStep(s: State, r: Step, kinds: set<Kind>) {
    && Emits(s.out, Trace(r), kinds) && kinds !! (OWN + FORWARDS)
    && (r.Next? ==>
          && r.state.initializeId == s.initializeId && r.state.initSent == s.initSent
          && r.state.localInit == s.localInit
          && (s.hostInit.Some? ==> r.state.hostInit.Some?))
  }

  ghost predicate MidTurn(cfg: Config, s: State) {
    InitMid(cfg, s) && OrderInv(s)
  }

  ghost predicate HeadTurn(cfg: Config, s: State) {
    InitHead(cfg, s) && OrderInv(s)
  }

  /** What the wires show whatever the outcome of a turn. */
  ghost predicate WireOrder(cfg: Config, out: seq<Sent>) {
    && |Merged(out)| <= 1 && (Merged(out) != [] ==> IsMerge(cfg, Merged(out)[0]))
    && Ordered(out)
  }

  ghost predicate MidOutcome(cfg: Config, r: Step) {
    WireOrder(cfg, Trace(r)) && (r.Next? ==> MidTurn(cfg, r.state))
  }

  ghost predicate HeadOutcome(cfg: Config, r: Step) {
    WireOrder(cfg, Trace(r)) && (r.Next? ==> HeadTurn(cfg, r.state))
  }

  lemma QuietMid(cfg: Config, s: State, r: Step, kinds: set<Kind>)
    requires MidTurn(cfg, s) && QuietStep(s, r, kinds)
    ensures MidOutcome(cfg, r)
  {
    hide Select, Ordered, MergeInitialize;
    EmitsSelect(s.out, Trace(r), kinds, MERGED);
    EmitsSelect(s.out, Trace(r), kinds, ADD);
    OrderedQuiet(s.out, Trace(r), kinds);
    if s.initSent {
      OrderedMerged(s.out, Trace(r));
    }
    if s.initializeId.None? {
      OrderedFirst(s.out, Trace(r), kinds);
    }
  }

  /** Forwarding is safe once the merged response is out, or before any initialize request. */
  lemma ForwardsMid(cfg: Config, s: State, r: Step)
    requires MidTurn(cfg, s) && Emits(s.out, Trace(r), FORWARDS)
    requires s.initSent || s.initializeId.None?
    requires r.Next? ==>
               && r.state.initializeId == s.initializeId && r.state.initSent == s.initSent
               && r.state.localInit == s.localInit && r.state.hostInit == s.hostInit
    ensures MidOutcome(cfg, r)
  {
    hide Select, Ordered, MergeInitialize;
    EmitsSelect(s.out, Trace(r), FORWARDS, MERGED);
    EmitsSelect(s.out, Trace(r), FORWARDS, ADD);
    if s.initSent {
      OrderedMerged(s.out, Trace(r));
    }
    if s.initializeId.None? {
      OrderedFirst(s.out, Trace(r), FORWARDS);
    }
  }

  lemma SendInitializeMid(cfg: Config, s: State)
    requires MidTurn(cfg, s)
    ensures HeadOutcome(cfg, SendInitialize(cfg, s))
  {
    hide Select, Ordered, MergeInitialize;
    var r := SendInitialize(cfg, s);
    if !s.initSent && s.localInit.Some? && s.hostInit.Some? && r.Next? {
      var m := MergeInitialize(s.localInit.value, s.hostInit.value, cfg.remoteHome).value;
      var frame := ClientInitialize(s.localInit.value, s.hostInit.value, m);
      SelectAppend(s.out, frame, MERGED);
      SelectAppend(s.out, frame, ADD);
      OrderedQuiet(s.out, r.state.out, MERGED);
      assert KindOf(r.state.out[|s.out|]) == ToClientInitialize;
      if s.initializeId.None? {
        OrderedFirst(s.out, r.state.out, MERGED);
      }
    }
  }

  lemma TailMid(cfg: Config, s: State)
    requires MidTurn(cfg, s)
    ensures HeadOutcome(cfg, LoopTail(cfg, s))
  {
    hide SendInitialize, Drain, WireOrder, InitMid, OrderInv;
    SendInitializeMid(cfg, s);
    var step := SendInitialize(cfg, s);
    if step.Next? && IsReady(step.state) {
      DrainFrame(cfg, step.state);
      ForwardsMid(cfg, step.state, Drain(cfg, step.state));
    }
  }

  lemma ThenTailMid(cfg: Config, r: Step)
    requires MidOutcome(cfg, r)
    ensures HeadOutcome(cfg, ThenTail(cfg, r))
  {
    hide LoopTail, WireOrder, MidTurn, HeadTurn;
    if r.Next? {
      TailMid(cfg, r.state);
    }
  }

  // ---- The events ------------------------------------------------------------------------

  lemma AcceptInitialize(cfg: Config, s: State, m: Json)
    requires HeadTurn(cfg, s) && Method(m) == Some("initialize") && Field(m, "id").Some?
    ensures MidOutcome(cfg, AcceptClientText(cfg, s, m))
  {
    hide Select, Ordered, MergeInitialize;
    var r := AcceptClientText(cfg, s, m);
    var kinds := {ToHostInitialize, ToServerInitialize};
    assert Emits(s.out, r.state.out, kinds);
    EmitsSelect(s.out, r.state.out, kinds, MERGED);
    EmitsSelect(s.out, r.state.out, kinds, ADD);
    OrderedQuiet(s.out, r.state.out, kinds);
    if s.initSent {
      OrderedMerged(s.out, r.state.out);
    }
  }

  lemma AcceptOther(cfg: Config, s: State, m: Json)
    requires HeadTurn(cfg, s) && Method(m) != Some("initialize")
    ensures MidOutcome(cfg, AcceptClientText(cfg, s, m))
  {
    hide Forward, WireOrder, InitMid, OrderInv, RequestRoute;
    var r := AcceptClientText(cfg, s, m);
    var verb := Method(m);
    var s1 := s.(listIds := if verb == Some("thread/list") && Field(m, "id").Some?
                            then s.listIds + {Field(m, "id").value} else s.listIds);
    assert QuietStep(s, Next(s1), {});
    QuietMid(cfg, s, Next(s1), {});
    if GateOpen(s1) {
      var held := Held(m, RequestRoute(cfg, verb));
      ForwardFrame(cfg, s1, held);
      ForwardsMid(cfg, s1, Forward(cfg, s1, held));
    } else {
      QuietMid(cfg, s1, r, {});
    }
  }

  lemma ClientTextMid(cfg: Config, s: State, text: Option<Json>)
    requires HeadTurn(cfg, s)
    ensures MidOutcome(cfg, HandleClientText(cfg, s, text))
  {
    hide AcceptClientText, WireOrder, MidTurn, HeadTurn, Rewrite;
    if text.Some? && Rewrite(cfg, text.value).Some? {
      var m := Rewrite(cfg, text.value).value;
      if Method(m) == Some("initialize") {
        RewriteNamesInitialize(cfg, text.value);
        AcceptInitialize(cfg, s, m);
      } else {
        AcceptOther(cfg, s, m);
      }
    } else {
      HeadIsMid(cfg, s);
      HeadIsOutcome(cfg, s);
    }
  }

  lemma RewriteNamesInitialize(cfg: Config, raw: Json)
    requires Rewrite(cfg, raw).Some? && Method(Rewrite(cfg, raw).value) == Some("initialize")
    ensures Field(Rewrite(cfg, raw).value, "id").Some?
  {
    hide Environments;
  }

  lemma HeadIsOutcome(cfg: Config, s: State)
    requires MidTurn(cfg, s)
    ensures WireOrder(cfg, s.out)
  {
  }

  lemma RegistrationMid(cfg: Config, s: State, v: Json)
    requires HeadTurn(cfg, s) && PhaseInv(cfg, s) && IsInitializeResponse(s, v)
    ensures MidOutcome(cfg, BeginRegistration(cfg, s, v))
  {
    hide Select, Ordered, MergeInitialize, AddRequest;
    var r := BeginRegistration(cfg, s, v);
    if r.Next? {
      SelectAppend(s.out, EnvironmentAdd(AddRequest(cfg)), MERGED);
      SelectAppend(s.out, EnvironmentAdd(AddRequest(cfg)), ADD);
      OrderedQuiet(s.out, r.state.out, ADD);
      OrderedKeepsAbsence(s, r.state.out);
    }
  }

  lemma OrderedKeepsAbsence(s: State, after: seq<Sent>)
    requires OrderInv(s) && Emits(s.out, after, ADD)
    ensures s.initializeId.None? ==> !Holds(after, ToServerInitialize)
  {
    if s.initializeId.None? {
      OrderedFirst(s.out, after, ADD);
    }
  }

  lemma ServerMessageMid(cfg: Config, s: State, v: Json, order: seq<string>, saveWorks: bool)
    requires HeadTurn(cfg, s) && PhaseInv(cfg, s)
    ensures MidOutcome(cfg, HandleServerMessage(cfg, s, v, order, saveWorks))
  {
    if IsInitializeResponse(s, v) {
      hide BeginRegistration;
      RegistrationMid(cfg, s, v);
    } else {
      hide HandleServerMessage, WireOrder, MidTurn;
      ServerMessageFrame(cfg, s, v, order, saveWorks);
      NoAdd(cfg, s, v, order, saveWorks);
      assert MidTurn(cfg, s) by { HeadIsMid(cfg, s); }
      QuietMid(cfg, s, HandleServerMessage(cfg, s, v, order, saveWorks), {ToClientStart, ToClientList, ToClientFromServer});
    }
  }

  lemma HeadIsMid(cfg: Config, s: State)
    requires HeadTurn(cfg, s)
    ensures MidTurn(cfg, s)
  {
  }

  lemma StatusHead(cfg: Config, s: State, v: Json)
    requires HeadTurn(cfg, s)
    ensures HeadOutcome(cfg, HandleStatus(cfg, s, v))
  {
    hide Drain, StatusReady, StatusRequest, WireOrder, InitMid, OrderInv;
    var r := HandleStatus(cfg, s, v);
    if StatusReady(v) == Some(true) {
      var s1 := s.(phase := Ready);
      assert QuietStep(s, Next(s1), {});
      QuietMid(cfg, s, Next(s1), {});
      if s.initSent {
        DrainFrame(cfg, s1);
        ForwardsMid(cfg, s1, Drain(cfg, s1));
      }
    } else {
      QuietMid(cfg, s, r, STATUS);
    }
  }

  lemma HostInitStays(cfg: Config, s: State, v: Json, order: seq<string>)
    ensures var r := HandleHostMessage(cfg, s, v, order);
            r.Next? && s.hostInit.Some? ==> r.state.hostInit.Some?
  {
    hide HandleThreadReply, HandleReadReply, HostMessageAllowed;
    var id := StringField(v, "id");
    if id.Some? {
      if id.value in s.pending {
        ThreadReplyFrame(s, id.value, v);
      } else {
        var reader := FindReader(order, s.pending, id.value);
        if reader.Some? {
          ReadReplyFrame(cfg, s, reader.value, id.value, v);
        }
      }
    }
  }

  lemma ServerTextMid(cfg: Config, s: State, text: Option<Json>, order: seq<string>, saveWorks: bool)
    requires HeadTurn(cfg, s) && MidTurn(cfg, s) && WireOrder(cfg, s.out) && PhaseInv(cfg, s)
    ensures HeadOutcome(cfg, HandleServerText(cfg, s, text, order, saveWorks))
  {
    hide LoopTail, HandleServerMessage, HandleStatus, BeginStatusPoll, WireOrder, InitMid, OrderInv;
    if text.Some? {
      if IsAddResponse(cfg, text.value) {
        StatusPollFrame(cfg, s, text.value);
        QuietMid(cfg, s, BeginStatusPoll(cfg, s, text.value), STATUS);
      } else if IsStatusResponse(cfg, text.value) {
        StatusHead(cfg, s, text.value);
      } else {
        ServerMessageMid(cfg, s, text.value, order, saveWorks);
        ThenTailMid(cfg, HandleServerMessage(cfg, s, text.value, order, saveWorks));
      }
    }
  }

  lemma InitializeTurn(cfg: Config, s: State, e: Event)
    requires HeadTurn(cfg, s) && PhaseInv(cfg, s)
    ensures HeadOutcome(cfg, Handle(cfg, s, e))
  {
    hide LoopTail, HandleHostMessage, HandleServerText, HandleClientText, RecordOwned, SendExpired,
         WireOrder, InitMid, OrderInv;
    assert MidTurn(cfg, s) by { HeadIsMid(cfg, s); }
    assert WireOrder(cfg, s.out) by { HeadIsOutcome(cfg, s); }
    match e
    case ClientText(text) =>
      ClientTextMid(cfg, s, text);
      ThenTailMid(cfg, HandleClientText(cfg, s, text));
    case ServerText(text, order, saveWorks) =>
      ServerTextMid(cfg, s, text, order, saveWorks);
    case ClientOther(frame) =>
      QuietMid(cfg, s, Next(Send(s, ServerFrame(frame))), {ToServerFrame});
      ThenTailMid(cfg, Next(Send(s, ServerFrame(frame))));
    case ServerOther(frame) =>
      QuietMid(cfg, s, Next(Send(s, ClientFrame(frame))), {ToClientFrame});
      ThenTailMid(cfg, Next(Send(s, ClientFrame(frame))));
    case HostLine(line, order) =>
      if line.Some? {
        HostMessageFrame(cfg, s, line.value, order);
        HostInitStays(cfg, s, line.value, order);
        QuietMid(cfg, s, HandleHostMessage(cfg, s, line.value, order), {ToServerStart, ToHostRead, ToClientFromHost});
        ThenTailMid(cfg, HandleHostMessage(cfg, s, line.value, order));
      }
    case Gone =>
    case Broken =>
    case Expiry(expired) =>
      SendExpiredFrame(s, expired);
      QuietMid(cfg, s, SendExpired(s, expired), {ToServerStart});
      ThenTailMid(cfg, SendExpired(s, expired));
    case ScopeElsewhere(response, saveWorks) =>
      RecordFrame(s, response, saveWorks);
      QuietMid(cfg, s, Next(RecordOwned(s, response, saveWorks)), {});
  }

  /** Over all runs: at most one merged response, always the merge of the two values it is labelled with,
      and nothing forwarded between an initialize request and it; in every reachable state it has
      been sent exactly when both servers have answered. */
  lemma {:induction false} MergedOnceAndFirst(cfg: Config, scope: Option<Scope>, events: seq<Event>)
    ensures var r := Run(cfg, Initial(scope), events);
            && WireOrder(cfg, Trace(r))
            && (r.Next? ==>
                  && HeadTurn(cfg, r.state)
                  && (|Merged(r.state.out)| == 1 <==> Adds(r.state.out) != [] && r.state.hostInit.Some?))
  {
    hide Handle, WireOrder, PhaseInv;
    if events == [] {
      assert WireOrder(cfg, []) && PhaseInv(cfg, Initial(scope)) by { EmptyOrder(cfg, scope); }
    } else {
      var init := events[..|events| - 1];
      MergedOnceAndFirst(cfg, scope, init);
      AtMostOneAdd(cfg, scope, init);
      var before := Run(cfg, Initial(scope), init);
      if before.Next? {
        InitializeTurn(cfg, before.state, events[|events| - 1]);
      }
    }
  }

  lemma EmptyOrder(cfg: Config, scope: Option<Scope>)
    ensures WireOrder(cfg, []) && PhaseInv(cfg, Initial(scope))
  {
  }

  // ---- The merged value ------------------------------------------------------------------

  lemma {:induction false} CopiedField(from: map<string, Json>, names: seq<string>, into: map<string, Json>, name: string)
    ensures Field(Obj(CopyFields(from, names, into)), name)
         == if name in names && name in from then Some(from[name]) else Field(Obj(into), name)
  {
    if names != [] {
      CopiedField(from, names[..|names| - 1], into, name);
      assert name in names <==> name in names[..|names| - 1] || name == names[|names| - 1];
    }
  }

  /** Exactly the slashes at the end are gone. */
  lemma {:induction false} TrimmedSlashes(s: string)
    ensures var t := TrimEndSlashes(s);
            && t <= s && (t != [] ==> t[|t| - 1] != '/')
            && forall i :: |t| <= i < |s| ==> s[i] == '/'
  {
    if s != [] && s[|s| - 1] == '/' {
      TrimmedSlashes(s[..|s| - 1]);
    }
  }

  /** The member of the merged result called name. */
  function MergedField(local: Json, host: Json, remoteHome: Option<string>, name: string): Option<Json> {
    if name == "codexHome" && remoteHome.Some? then Some(Str(TrimEndSlashes(remoteHome.value) + "/.codex"))
    else if name in ["userAgent", "codexHome", "platformFamily", "platformOs"] && Field(host, name).Some? then Field(host, name)
    else Field(local, name)
  }

  /** The merge is the App Server's response with the identity fields of the host, and with every
      other member, inside the result and outside it, kept. */
  lemma MergeKeepsLocal(local: Json, host: Json, remoteHome: Option<string>, name: string)
    requires MergeInitialize(local, host, remoteHome).Some?
    ensures var m := MergeInitialize(local, host, remoteHome).value;
            && (name != "result" ==> Field(m, name) == Field(local, name))
            && Field(m, "result").Some?
            && Field(Field(m, "result").value, name)
               == MergedField(Field(local, "result").value, Field(host, "result").value, remoteHome, name)
  {
    hide TrimEndSlashes;
    var from, into := Field(host, "result").value.fields, Field(local, "result").value.fields;
    CopiedField(from, IDENTITY_FIELDS, into, name);
  }

  /** For two answers right after each other, which comes first makes no difference: not to the merged value, not to
      the state. */
  lemma AnswerOrderIrrelevant(cfg: Config, s: State, local: Event, host: Event)
    requires local.ServerText? && AnswersInitialize(cfg, s, local) && Enabled(s, local)
    requires host.HostLine? && host.line.Some? && HasId(host.line.value, Ids.HostInitializeId(cfg.environmentId))
    requires Enabled(s, host)
    requires s.hostInit.None? && s.localInit.None? && !s.initSent
    ensures var r1, r2 := Run(cfg, s, [local, host]), Run(cfg, s, [host, local]);
            && r1.Next? == r2.Next?
            && (r1.Next? ==> r1 == r2)
  {
    hide MergeInitialize, AddRequest, Drain;
    var l, h := local.text.value, host.line.value;
    assert [local, host][..1] == [local] && [host, local][..1] == [host];
    assert Run(cfg, s, []) == Next(s);
    assert [local][..0] == [] && [host][..0] == [];
    assert Run(cfg, s, [local]) == Handle(cfg, s, local);
    assert Run(cfg, s, [host]) == Handle(cfg, s, host);
    var registered := s.(phase := Registering, localInit := Some(l), out := s.out + [EnvironmentAdd(AddRequest(cfg))]);
    assert Handle(cfg, s, local) == if HasError(l) then Failed(s.out) else Next(registered);
    assert Handle(cfg, s, host) == if HasError(h) then Failed(s.out) else Next(s.(hostInit := Some(h)));
    if !HasError(l) && !HasError(h) {
      assert Handle(cfg, registered, host) == LoopTail(cfg, registered.(hostInit := Some(h)));
      assert Handle(cfg, s.(hostInit := Some(h)), local) == LoopTail(cfg, registered.(hostInit := Some(h)));
    }
  }
}
