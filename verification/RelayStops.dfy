/** When the relay stops: exactly for these events, and for no other. */
module RelayStops {
  import opened Wrappers
  import opened Json
  import opened RelaySpec
  import opened RelayFrames
  import opened RelayRegistration
  import opened RelayThreads
  import opened RelayCauses
  import opened RelayLedger
  import RelayDispatch
  import RelayDelivery
  import RelayReplies
  import RelayRewrite
  import Ids

  // ---- Why it may stop ------------------------------------------------------------------------------

  predicate ResultIsObject(v: Json) {
    Field(v, "result").Some? && Field(v, "result").value.Obj?
  }

  /** The two initialize answers have no merge. */
  predicate Unmergeable(local: Json, host: Json) {
    HasError(host) || !ResultIsObject(local) || !ResultIsObject(host)
  }

  /** The two successful answers to a thread/start have no merge. */
  predicate StartUnmergeable(local: Json, host: Option<Json>) {
    host.Some? && !HasError(local) && !HasError(host.value) && !(ResultIsObject(local) && ResultIsObject(host.value))
  }

  /** A thread/start without an id cannot be forwarded. */
  predicate Unforwardable(h: Held) {
    h.route.ThreadStart? && Field(h.message, "id").None?
  }

  predicate Blocked(queue: seq<Held>) {
    exists h :: h in queue && Unforwardable(h)
  }

  /** e completes the pair of initialize answers. */
  predicate Completes(cfg: Config, s: State, e: Event) {
    !s.initSent && LocalAt(cfg, s, e).Some? && HostAt(cfg, s, e).Some?
  }

  /** The reply has a result.dataBase64. */
  ghost predicate HasData(v: Json, data: string) {
    exists result :: RelayDelivery.Member(v, "result", result) && RelayDelivery.Member(result, "dataBase64", Str(data))
  }

  /** The reply to a read carries data that does not decode to text, or to more than 256 KiB, or to more than fits into
      512 KiB with the texts stored. */
  ghost predicate Unacceptable(cfg: Config, p: Pending, v: Json) {
    exists data ::
      && HasData(v, data)
      && var bytes := cfg.decodeBase64(data);
        || bytes.None? || !cfg.validUtf8(bytes.value)
        || |bytes.value| > 256 * 1024 || TextBytes(p.contents) + |bytes.value| > 512 * 1024
  }

  ghost predicate StopsOnClient(cfg: Config, s: State, e: Event)
    requires e.ClientText?
  {
    || e.text.None? || !RelayRewrite.Accepted(e.text.value)
    || (RelayDispatch.Arrival(cfg, e).Some?
        && if GateOpen(s) then Unforwardable(RelayDispatch.Arrival(cfg, e).value)
           else s.queuedBytes + |cfg.encode(RelayDispatch.Arrival(cfg, e).value.message)| > 32 * 1024 * 1024)
  }

  ghost predicate StopsOnServer(cfg: Config, s: State, e: Event)
    requires e.ServerText?
  {
    if e.text.None? then true
    else
      var v := e.text.value;
      if AnswersAdd(cfg, e) then HasError(v)
      else if AnswersStatus(cfg, e) then
        var ready := StatusReady(v);
        || ready.None?
        || (ready == Some(true) && s.initSent && Blocked(s.queue))
        || (ready == Some(false) && !(s.phase.Polling? && s.phase.attempts < 200))
      else if IsInitializeResponse(s, v) then
        HasError(v) || (Completes(cfg, s, e) && Unmergeable(v, HostAt(cfg, s, e).value))
      else
        var answered := FindAnswered(e.order, s.pending, v);
        answered.Some? && StartUnmergeable(v, s.pending[answered.value].hostResponse)
  }

  ghost predicate StopsOnHost(cfg: Config, s: State, e: Event)
    requires e.HostLine?
  {
    if e.line.None? then true
    else
      var v := e.line.value;
      if AnswersHostInitialize(cfg, e) then
        || HasError(v)
        || (Completes(cfg, s, e) && (Unmergeable(LocalAt(cfg, s, e).value, v) || (s.phase == Ready && Blocked(s.queue))))
      else
        exists id, readId ::
          && id in s.pending && StringField(v, "id") == Some(readId) && readId in s.pending[id].outstanding
          && FindReader(e.order, s.pending, readId) == Some(id) && Unacceptable(cfg, s.pending[id], v)
  }

  /** The relay fails on e. */
  ghost predicate Stops(cfg: Config, s: State, e: Event) {
    match e
    case ClientText(_) => StopsOnClient(cfg, s, e)
    case ServerText(_, _, _) => StopsOnServer(cfg, s, e)
    case HostLine(_, _) => StopsOnHost(cfg, s, e)
    case Broken => true
    case _ => false
  }

  /** Held thread starts have parameters. */
  predicate QueueGood(queue: seq<Held>) {
    forall h :: h in queue && h.route.ThreadStart? ==> ObjectField(h.message, "params").Some?
  }

  ghost predicate HeadInv(cfg: Config, s: State) {
    ThreadInv(cfg, s) && RelayDispatch.QueueInv(cfg, s) && Tallied(cfg, s) && QueueGood(s.queue)
  }

  // ---- Merging and forwarding ---------------------------------------------------------------------------

  lemma MergeFailsExactly(local: Json, host: Json, remoteHome: Option<string>)
    ensures MergeInitialize(local, host, remoteHome).None? <==> Unmergeable(local, host)
  {
    hide CopyFields, TrimEndSlashes;
  }

  lemma StartMergeFailsExactly(local: Json, host: Option<Json>)
    ensures MergedStart(local, host).None? <==> StartUnmergeable(local, host)
  {
    hide CopyFields;
  }

  lemma ForwardFailsExactly(cfg: Config, s: State, m: Held)
    requires m.route.ThreadStart? ==> ObjectField(m.message, "params").Some?
    ensures var r := Forward(cfg, s, m); r.Next? <==> !Unforwardable(m)
    ensures !Forward(cfg, s, m).Closed?
  {
    hide Ids.MetadataId, NextSequence;
    if m.route.ThreadStart? {
      ShadowExists(m.message, Ids.MetadataId(cfg.environmentId, NextSequence(s.sequence)));
    }
  }

  lemma ShadowExists(m: Json, id: string)
    requires ObjectField(m, "params").Some?
    ensures ShadowRequest(m, id).Some?
  {
    assert ObjectField(With(m, "id", Str(id)), "params") == ObjectField(m, "params");
  }

  lemma {:induction false} DrainFailsExactly(cfg: Config, s: State)
    requires QueueGood(s.queue)
    ensures Drain(cfg, s).Next? <==> !Blocked(s.queue)
    ensures !Drain(cfg, s).Closed?
    decreases |s.queue|
  {
    hide Forward, Unforwardable;
    if s.queue != [] {
      ForwardFailsExactly(cfg, Dequeued(cfg, s), s.queue[0]);
      var step := Forward(cfg, Dequeued(cfg, s), s.queue[0]);
      if step.Next? {
        DrainFailsExactly(cfg, step.state);
        assert Blocked(s.queue) <==> Blocked(s.queue[1..]) by { BlockedLater(s.queue); }
      } else {
        assert s.queue[0] in s.queue;
      }
    }
  }

  lemma BlockedLater(queue: seq<Held>)
    requires queue != [] && !Unforwardable(queue[0])
    ensures Blocked(queue) <==> Blocked(queue[1..])
  {
    hide Unforwardable;
    if Blocked(queue) {
      var h :| h in queue && Unforwardable(h);
      assert h in queue[1..];
    }
  }

  /** At the head of the loop, with other entries, frames, list ids or scope, the tail has nothing to do. */
  lemma StillIdle(cfg: Config, s: State, mid: State)
    requires RelayDispatch.QueueInv(cfg, s)
    requires mid.localInit == s.localInit && mid.hostInit == s.hostInit && mid.initSent == s.initSent && mid.phase == s.phase
             && mid.queue == s.queue && mid.initializeId == s.initializeId
    ensures LoopTail(cfg, mid) == Next(mid)
  {
  }

  lemma TailFailsExactly(cfg: Config, mid: State)
    requires QueueGood(mid.queue)
    ensures var merges := !mid.initSent && mid.localInit.Some? && mid.hostInit.Some?;
            && !LoopTail(cfg, mid).Closed?
            && (LoopTail(cfg, mid).Next?
                <==> && !(merges && Unmergeable(mid.localInit.value, mid.hostInit.value))
                     && !(mid.phase == Ready && (mid.initSent || merges) && Blocked(mid.queue)))
  {
    hide Drain, MergeInitialize, Unmergeable, Blocked;
    if !mid.initSent && mid.localInit.Some? && mid.hostInit.Some? {
      MergeFailsExactly(mid.localInit.value, mid.hostInit.value, cfg.remoteHome);
    }
    var step := SendInitialize(cfg, mid);
    if step.Next? {
      DrainFailsExactly(cfg, step.state);
    }
  }

  // ---- The events -----------------------------------------------------------------------------------------

  ghost predicate Decides(cfg: Config, s: State, e: Event, r: Step) {
    !r.Closed? && (r.Next? <==> !Stops(cfg, s, e))
  }

  lemma RewriteGives(cfg: Config, raw: Json)
    ensures Rewrite(cfg, raw).Some? <==> RelayRewrite.Accepted(raw)
    ensures Rewrite(cfg, raw).Some? && Method(Rewrite(cfg, raw).value) == Some("thread/start") ==>
              ObjectField(Rewrite(cfg, raw).value, "params").Some?
  {
    hide Environments;
  }

  lemma ArrivalGood(cfg: Config, e: Event)
    ensures RelayDispatch.Arrival(cfg, e).Some? && RelayDispatch.Arrival(cfg, e).value.route.ThreadStart? ==>
              ObjectField(RelayDispatch.Arrival(cfg, e).value.message, "params").Some?
  {
    hide Rewrite;
    if e.ClientText? && e.text.Some? {
      RewriteGives(cfg, e.text.value);
    }
  }

  lemma ClientDecides(cfg: Config, s: State, e: Event)
    requires HeadInv(cfg, s) && e.ClientText?
    ensures Decides(cfg, s, e, Handle(cfg, s, e))
  {
    hide AcceptClientText, Rewrite, LoopTail, ThreadInv, RelayDispatch.QueueInv, Tallied, QueueGood, RelayRewrite.Accepted, RequestRoute,
         GateOpen;
    if e.text.Some? {
      RewriteGives(cfg, e.text.value);
      if Rewrite(cfg, e.text.value).Some? {
        var m := Rewrite(cfg, e.text.value).value;
        if Method(m) == Some("initialize") {
          InitializeDecides(cfg, s, m);
        } else {
          ArrivalGood(cfg, e);
          AcceptDecides(cfg, s, Held(m, RequestRoute(cfg, Method(m))));
        }
      }
    }
  }

  lemma InitializeDecides(cfg: Config, s: State, m: Json)
    requires RelayDispatch.QueueInv(cfg, s) && Method(m) == Some("initialize")
    ensures AcceptClientText(cfg, s, m).Next? && LoopTail(cfg, AcceptClientText(cfg, s, m).state).Next?
  {
    hide RequestRoute;
  }

  lemma AcceptDecides(cfg: Config, s: State, h: Held)
    requires RelayDispatch.QueueInv(cfg, s) && h.route == RequestRoute(cfg, Method(h.message)) && Method(h.message) != Some("initialize")
    requires h.route.ThreadStart? ==> ObjectField(h.message, "params").Some?
    ensures var r := ThenTail(cfg, AcceptClientText(cfg, s, h.message));
            && !r.Closed?
            && (r.Next? <==> if GateOpen(s) then !Unforwardable(h)
                             else s.queuedBytes + |cfg.encode(h.message)| <= 32 * 1024 * 1024)
  {
    hide Forward, RequestRoute, ObjectField, LoopTail;
    var verb := Method(h.message);
    var s1 := s.(listIds := if verb == Some("thread/list") && Field(h.message, "id").Some?
                            then s.listIds + {Field(h.message, "id").value} else s.listIds);
    assert GateOpen(s1) == GateOpen(s);
    var step := AcceptClientText(cfg, s, h.message);
    if GateOpen(s) {
      ForwardFailsExactly(cfg, s1, h);
      ForwardFrame(cfg, s1, h);
      if step.Next? {
        StillIdle(cfg, s, step.state);
      }
    } else if step.Next? {
      ClosedIdle(cfg, s, step.state);
    }
  }

  lemma ClosedIdle(cfg: Config, s: State, mid: State)
    requires RelayDispatch.QueueInv(cfg, s) && !GateOpen(s)
    requires mid.localInit == s.localInit && mid.hostInit == s.hostInit && mid.initSent == s.initSent && mid.phase == s.phase
    ensures LoopTail(cfg, mid) == Next(mid)
  {
  }

  lemma StatusDecides(cfg: Config, s: State, e: Event)
    requires HeadInv(cfg, s) && AnswersStatus(cfg, e)
    ensures Decides(cfg, s, e, HandleStatus(cfg, s, e.text.value))
  {
    hide Drain, StatusReady, StatusRequest, ThreadInv, RelayDispatch.QueueInv, Tallied, HasId, Blocked;
    DrainFailsExactly(cfg, s.(phase := Ready));
  }

  lemma StartAnswerDecides(cfg: Config, s: State, e: Event, id: string)
    requires RelayDispatch.QueueInv(cfg, s) && id in s.pending && e.ServerText? && e.text.Some?
    ensures var r := ThenTail(cfg, HandleStartAnswer(s, id, e.text.value, e.saveWorks));
            !r.Closed? && (r.Next? <==> !StartUnmergeable(e.text.value, s.pending[id].hostResponse))
  {
    hide RecordOwned, MergeThread, LoopTail, StartUnmergeable;
    StartMergeFailsExactly(e.text.value, s.pending[id].hostResponse);
    var step := HandleStartAnswer(s, id, e.text.value, e.saveWorks);
    StartAnswerFrame(s, id, e.text.value, e.saveWorks);
    if step.Next? {
      StillIdle(cfg, s, step.state);
    }
  }

  lemma InitializeAnswerDecides(cfg: Config, s: State, e: Event)
    requires HeadInv(cfg, s) && AnswersInitialize(cfg, s, e)
    ensures var r := ThenTail(cfg, BeginRegistration(cfg, s, e.text.value));
            && !r.Closed?
            && (r.Next? <==> !(HasError(e.text.value)
                               || (Completes(cfg, s, e) && Unmergeable(e.text.value, HostAt(cfg, s, e).value))))
  {
    hide LoopTail, AddRequest, ThreadInv, RelayDispatch.QueueInv, Tallied, Unmergeable, AnswersAdd, AnswersStatus, Blocked;
    ServerIsNoHost(cfg, e);
    var step := BeginRegistration(cfg, s, e.text.value);
    if step.Next? {
      TailFailsExactly(cfg, step.state);
    }
  }

  lemma ServerMessageDecides(cfg: Config, s: State, e: Event)
    requires HeadInv(cfg, s) && e.ServerText? && e.text.Some? && !AnswersAdd(cfg, e) && !AnswersStatus(cfg, e)
    ensures Decides(cfg, s, e, ThenTail(cfg, HandleServerMessage(cfg, s, e.text.value, e.order, e.saveWorks)))
  {
    hide HandleStartAnswer, FilterThreadList, LoopTail, FindAnswered, ThreadInv, RelayDispatch.QueueInv, Tallied, BeginRegistration,
         AnswersAdd, AnswersStatus, Unmergeable, StartUnmergeable, Completes, IsInitializeResponse;
    var v := e.text.value;
    var answered := FindAnswered(e.order, s.pending, v);
    var step := HandleServerMessage(cfg, s, v, e.order, e.saveWorks);
    if IsInitializeResponse(s, v) {
      InitializeAnswerDecides(cfg, s, e);
    } else if answered.Some? {
      StartAnswerDecides(cfg, s, e, answered.value);
    } else {
      StillIdle(cfg, s, step.state);
    }
  }

  lemma ServerDecides(cfg: Config, s: State, e: Event)
    requires HeadInv(cfg, s) && e.ServerText?
    ensures Decides(cfg, s, e, Handle(cfg, s, e))
  {
    hide ThenTail, HandleServerMessage, HandleStatus, HeadInv, Ids.AddId, Ids.StatusId, Decides, StatusRequest;
    if e.text.Some? {
      if AnswersAdd(cfg, e) {
        AddDecides(cfg, s, e);
      } else if AnswersStatus(cfg, e) {
        StatusDecides(cfg, s, e);
      } else {
        ServerMessageDecides(cfg, s, e);
      }
    } else {
      LostDecides(cfg, s, e);
    }
  }

  lemma AddDecides(cfg: Config, s: State, e: Event)
    requires AnswersAdd(cfg, e)
    ensures Decides(cfg, s, e, BeginStatusPoll(cfg, s, e.text.value))
  {
    hide StatusRequest, HasId;
  }

  lemma LostDecides(cfg: Config, s: State, e: Event)
    requires (e.ServerText? && e.text.None?) || (e.HostLine? && e.line.None?)
    ensures Decides(cfg, s, e, Failed(s.out))
  {
  }

  lemma ReplyNeverStops(cfg: Config, s: State, id: string, v: Json)
    requires HeadInv(cfg, s) && id in s.pending
    ensures ThenTail(cfg, HandleThreadReply(s, id, v)).Next?
  {
    hide LoopTail, SendLocal, IssueReads, InstructionPaths, Tallied, RelayDispatch.QueueInv, ThreadInv, ThreadMid, EntryMid, WireThreads;
    var entry := s.pending[id];
    assert EntryMid(id, entry) by { EntryOf(cfg, s, id); }
    var step := HandleThreadReply(s, id, v);
    ThreadReplyFrame(s, id, v);
    InvIsMid(cfg, s, id);
    SendLocalThreads(cfg, s, id);
    if !HasError(v) && !entry.localSent {
      var s1 := s.(pending := s.pending[id := entry.(hostResponse := Some(v), paths := InstructionPaths(v))]);
      ListedMid(id, entry, v);
      UpdatedMid(cfg, s, id, s1.pending[id]);
      SendLocalThreads(cfg, s1, id);
    }
    assert step.Next?;
    StillIdle(cfg, s, step.state);
  }

  lemma ListedMid(id: string, p: Pending, v: Json)
    requires EntryMid(id, p)
    ensures EntryMid(id, p.(hostResponse := Some(v), paths := InstructionPaths(v)))
  {
    hide ReadsOf, WithinBudget, ObjectField;
    assert |InstructionPaths(v)| <= MAX_INSTRUCTION_SOURCES;
  }

  lemma RecordFailsExactly(cfg: Config, p: Pending, readId: string, v: Json)
    requires readId in p.outstanding && TextBytes(p.contents) <= MAX_INSTRUCTION_TOTAL_BYTES
    ensures RecordRead(cfg, p, readId, v).None? <==> Unacceptable(cfg, p, v)
  {
    hide TextBytes, HasData;
    DataExactly(v);
  }

  lemma DataExactly(v: Json)
    ensures forall data :: HasData(v, data) <==> ReplyData(v) == Some(data)
  {
    forall data | ReplyData(v) == Some(data) ensures HasData(v, data) {
      assert RelayDelivery.Member(v, "result", Field(v, "result").value);
    }
  }

  lemma ReadReplyDecides(cfg: Config, s: State, id: string, readId: string, v: Json)
    requires HeadInv(cfg, s) && id in s.pending && readId in s.pending[id].outstanding
    ensures var r := ThenTail(cfg, HandleReadReply(cfg, s, id, readId, v));
            !r.Closed? && (r.Next? <==> !Unacceptable(cfg, s.pending[id], v))
  {
    hide LoopTail, SendLocal, RecordRead, Tallied, RelayDispatch.QueueInv, ThreadInv, ThreadMid, EntryMid, EntryInv, WireThreads, Unacceptable;
    var entry := s.pending[id];
    EntryOf(cfg, s, id);
    assert TextBytes(entry.contents) <= MAX_INSTRUCTION_TOTAL_BYTES by { BudgetOf(id, entry); }
    RecordFailsExactly(cfg, entry, readId, v);
    RecordedMid(cfg, id, entry, readId, v);
    ReadReplyFrame(cfg, s, id, readId, v);
    var recorded := RecordRead(cfg, entry, readId, v);
    var step := HandleReadReply(cfg, s, id, readId, v);
    if recorded.Some? {
      UpdatedMid(cfg, s, id, recorded.value);
      SendLocalThreads(cfg, s.(pending := s.pending[id := recorded.value]), id);
      StillIdle(cfg, s, step.state);
    }
  }

  lemma BudgetOf(id: string, p: Pending)
    requires EntryInv(id, p)
    ensures TextBytes(p.contents) <= MAX_INSTRUCTION_TOTAL_BYTES
  {
    hide TextBytes;
  }

  lemma HostInitializeDecides(cfg: Config, s: State, e: Event)
    requires HeadInv(cfg, s) && AnswersHostInitialize(cfg, e)
    ensures Decides(cfg, s, e, ThenTail(cfg, HandleHostMessage(cfg, s, e.line.value, e.order)))
  {
    hide LoopTail, HandleThreadReply, HandleReadReply, HostMessageAllowed, FindReader, ThreadInv, Tallied, Unmergeable, Blocked,
         Ids.HostInitializeId;
    ServerIsNoHost(cfg, e);
    var step := HandleHostMessage(cfg, s, e.line.value, e.order);
    if step.Next? {
      TailFailsExactly(cfg, step.state);
      if s.phase == Ready && s.initSent {
        assert s.queue == [];
        assert !Blocked(s.queue) by { NothingBlocked(s.queue); }
      }
    }
  }

  lemma NothingBlocked(queue: seq<Held>)
    requires queue == []
    ensures !Blocked(queue)
  {
  }

  lemma HostMessageDecides(cfg: Config, s: State, e: Event)
    requires HeadInv(cfg, s) && e.HostLine? && e.line.Some? && !AnswersHostInitialize(cfg, e)
    ensures Decides(cfg, s, e, ThenTail(cfg, HandleHostMessage(cfg, s, e.line.value, e.order)))
  {
    hide LoopTail, HandleThreadReply, HandleReadReply, HostMessageAllowed, ThreadInv, Tallied, RelayDispatch.QueueInv, Unacceptable,
         Ids.HostInitializeId, QueueGood;
    var v := e.line.value;
    var id := StringField(v, "id");
    if id.Some? && id.value in s.pending {
      ReplyNeverStops(cfg, s, id.value, v);
      NoReadIsShadow(cfg, s, id.value);
    } else {
      var reader := if id.Some? then FindReader(e.order, s.pending, id.value) else None;
      if reader.Some? {
        ReadReplyDecides(cfg, s, reader.value, id.value, v);
      } else {
        StillIdle(cfg, s, HandleHostMessage(cfg, s, v, e.order).state);
      }
    }
  }

  /** A shadow's id is no read's. */
  lemma NoReadIsShadow(cfg: Config, s: State, id: string)
    requires HeadInv(cfg, s) && id in s.pending
    ensures forall other :: other in s.pending ==> id !in s.pending[other].outstanding
  {
    hide RelayLedger.Ledger, Table, Accounted, RelayDispatch.QueueInv, Ids.MetadataId, Ids.ReadId, WithinBudget, QueueGood;
    assert Named(cfg, id, s.pending[id]);
    var k: nat :| id == Ids.MetadataId(cfg.environmentId, k);
    forall other | other in s.pending ensures id !in s.pending[other].outstanding {
      assert Named(cfg, other, s.pending[other]);
      var j: nat :| other == Ids.MetadataId(cfg.environmentId, j);
      forall i: nat ensures id != Ids.ReadId(other, i) {
        ReadsAreNoShadows(cfg, k, j, i);
      }
      EntryOf(cfg, s, other);
    }
  }

  lemma ReadsAreNoShadows(cfg: Config, k: nat, j: nat, i: nat)
    ensures Ids.MetadataId(cfg.environmentId, k) != Ids.ReadId(Ids.MetadataId(cfg.environmentId, j), i)
  {
    Ids.InternalIdsDiffer(cfg.environmentId, Ids.Metadata(k), Ids.Read(j, i));
  }

  lemma ExpiryDecides(cfg: Config, s: State, e: Event)
    requires HeadInv(cfg, s) && Enabled(s, e) && e.Expiry?
    ensures Handle(cfg, s, e).Next?
  {
    hide LoopTail, SendExpired, ThreadInv, Tallied, RelayDispatch.QueueInv, WireThreads;
    SendExpiredThreads(cfg, s, e.expired);
    SendExpiredFrame(s, e.expired);
    StillIdle(cfg, s, SendExpired(s, e.expired).state);
  }

  lemma OtherDecides(cfg: Config, s: State, e: Event)
    requires HeadInv(cfg, s) && (e.ClientOther? || e.ServerOther? || e.ScopeElsewhere?)
    ensures Handle(cfg, s, e).Next?
  {
    hide LoopTail, RecordOwned, RelayDispatch.QueueInv, ThreadInv, Tallied;
    match e
    case ClientOther(frame) => StillIdle(cfg, s, Send(s, ServerFrame(frame)));
    case ServerOther(frame) => StillIdle(cfg, s, Send(s, ClientFrame(frame)));
    case _ =>
  }

  lemma HostDecides(cfg: Config, s: State, e: Event)
    requires HeadInv(cfg, s) && e.HostLine?
    ensures Decides(cfg, s, e, Handle(cfg, s, e))
  {
    hide ThenTail, HandleHostMessage, HeadInv, Decides;
    if e.line.None? {
      LostDecides(cfg, s, e);
    } else if AnswersHostInitialize(cfg, e) {
      HostInitializeDecides(cfg, s, e);
    } else {
      HostMessageDecides(cfg, s, e);
    }
  }

  /** One turn: the relay closes exactly when the client or the App Server is gone, fails exactly when Stops says so,
      and otherwise goes on. */
  lemma TurnDecides(cfg: Config, s: State, e: Event)
    requires HeadInv(cfg, s) && Enabled(s, e)
    ensures var r := Handle(cfg, s, e); (r.Closed? <==> e.Gone?) && (r.Failed? <==> Stops(cfg, s, e))
  {
    hide HeadInv, StopsOnClient, StopsOnServer, StopsOnHost, ThenTail, LoopTail, HandleServerText, HandleHostMessage, HandleClientText,
         SendExpired, RecordOwned;
    match e
    case ClientText(_) => ClientDecides(cfg, s, e);
    case ServerText(_, _, _) => ServerDecides(cfg, s, e);
    case HostLine(_, _) => HostDecides(cfg, s, e);
    case Expiry(_) => ExpiryDecides(cfg, s, e);
    case ClientOther(_) => OtherDecides(cfg, s, e);
    case ServerOther(_) => OtherDecides(cfg, s, e);
    case ScopeElsewhere(_, _) => OtherDecides(cfg, s, e);
    case Gone =>
    case Broken =>
  }

  // ---- Over all runs ------------------------------------------------------------------------------------

  lemma {:induction false} QueueStaysGood(cfg: Config, scope: Option<Scope>, events: seq<Event>)
    requires Run(cfg, Initial(scope), events).Next?
    ensures QueueGood(Run(cfg, Initial(scope), events).state.queue)
  {
    hide Handle, Enabled, AllCaused, LocalAt, HostAt, ObjectField;
    if events != [] {
      var n := |events| - 1;
      QueueStaysGood(cfg, scope, events[..n]);
      TurnCaused(cfg, Run(cfg, Initial(scope), events[..n]).state, events[n]);
      ArrivalGood(cfg, events[n]);
    }
  }

  lemma HeadReached(cfg: Config, scope: Option<Scope>, events: seq<Event>)
    requires Run(cfg, Initial(scope), events).Next?
    ensures HeadInv(cfg, Run(cfg, Initial(scope), events).state)
  {
    hide Run, ThreadInv, WireThreads, Tallied, QueueGood, RelayDispatch.QueueInv, RelayDispatch.Received, RelayDispatch.Forwarded;
    QueueStaysGood(cfg, scope, events);
    ThreadStartsAccounted(cfg, scope, events);
    TableIsTheWires(cfg, scope, events);
    RelayDispatch.FirstInFirstOut(cfg, scope, events);
  }

  /** Over all runs: an event that is processed ends the relay exactly when it is the end of a connection, a message that
      cannot be read, or one of the refusals that Stops lists; the relay never stops for another reason. */
  lemma StopsExactly(cfg: Config, scope: Option<Scope>, events: seq<Event>, k: nat)
    requires Processed(cfg, Initial(scope), events, k)
    ensures var r := Run(cfg, Initial(scope), events[..k + 1]);
            && (r.Closed? <==> events[k].Gone?)
            && (r.Failed? <==> Stops(cfg, Run(cfg, Initial(scope), events[..k]).state, events[k]))
  {
    hide Run, Handle, Enabled, HeadInv, Stops;
    HeadReached(cfg, scope, events[..k]);
    LastEvent(cfg, Initial(scope), events, k);
    TurnDecides(cfg, Run(cfg, Initial(scope), events[..k]).state, events[k]);
  }
}
