/** The host's replies: which one a thread start is answered with, which sources it waits for, and that every awaited
    source was asked for. */
module RelayReplies {
  import opened Wrappers
  import opened Json
  import opened RelaySpec
  import opened RelayFrames
  import opened RelayProgress
  import RelayThreads
  import RelayLedger
  import Ids

  // ---- One turn -------------------------------------------------------------------------------

  /** A shadow with this id was put on the wire after before. */
  predicate Renewed(before: seq<Sent>, after: seq<Sent>, id: string) {
    exists j :: |before| <= j < |after| && after[j].Shadow? && after[j].id == id
  }

  /** e is a successful reply of the host to the shadow with this id. */
  predicate Succeeds(e: Event, id: string) {
    AnswersShadow(e, id) && !HasError(e.line.value)
  }

  /** m is a request to read the file path, with this id: the three members of a request, and no parameter but the
      path. */
  predicate AsksFor(m: Json, readId: string, path: string) {
    && Field(m, "method") == Some(Str("fs/readFile"))
    && Field(m, "id") == Some(Str(readId))
    && Field(m, "params") == Some(Obj(map["path" := Str(path)]))
    && m.fields.Keys == {"id", "method", "params"}
  }

  lemma ReadRequestAsks(readId: string, path: string)
    ensures AsksFor(ReadRequest(readId, path), readId, path)
  {
  }

  /** frame asks the host for the file path under this id. */
  predicate Asking(frame: Sent, readId: string, path: string) {
    frame.ReadFile? && frame.id == readId && AsksFor(frame.message, readId, path)
  }

  /** The host was asked for this file under this id. */
  predicate Asked(out: seq<Sent>, readId: string, path: string) {
    exists j :: 0 <= j < |out| && Asking(out[j], readId, path)
  }

  /** No reply yet, nothing listed, nothing awaited. */
  predicate Blank(p: Pending) {
    p.hostResponse.None? && p.paths == [] && p.outstanding == map[]
  }

  /** q is p with the same reply and list, and awaits no more. */
  predicate Evolves(p: Pending, q: Pending) {
    && q.hostResponse == p.hostResponse && q.paths == p.paths
    && (p.localSent ==> q.localSent)
    && forall r :: r in q.outstanding ==> r in p.outstanding && q.outstanding[r] == p.outstanding[r]
  }

  /** q is p after the successful reply v: an unsent entry takes over its list, and what it awaits beyond p has been
      asked for. */
  ghost predicate Replied(out: seq<Sent>, p: Pending, v: Json, q: Pending) {
    && q.hostResponse == Some(v)
    && (p.localSent ==> q.localSent)
    && q.paths == (if p.localSent then p.paths else InstructionPaths(v))
    && forall r :: r in q.outstanding ==>
         (r in p.outstanding && q.outstanding[r] == p.outstanding[r]) || Asked(out, r, q.outstanding[r])
  }

  ghost predicate EntriesKept(s: State, s': State) {
    && s.out <= s'.out
    && forall id :: id in s'.pending ==>
         if Renewed(s.out, s'.out, id) then Blank(s'.pending[id])
         else id in s.pending && Evolves(s.pending[id], s'.pending[id])
  }

  ghost predicate EntriesTurned(s: State, e: Event, s': State) {
    && s.out <= s'.out
    && forall id :: id in s'.pending ==>
         if Renewed(s.out, s'.out, id) then Blank(s'.pending[id])
         else
           && id in s.pending
           && if Succeeds(e, id) then Replied(s'.out, s.pending[id], e.line.value, s'.pending[id])
              else Evolves(s.pending[id], s'.pending[id])
  }

  lemma RenewedEither(a: seq<Sent>, b: seq<Sent>, c: seq<Sent>, id: string)
    requires a <= b <= c
    ensures Renewed(a, c, id) <==> Renewed(a, b, id) || Renewed(b, c, id)
  {
    if Renewed(a, b, id) {
      var j :| |a| <= j < |b| && b[j].Shadow? && b[j].id == id;
      assert c[j] == b[j];
    }
    if Renewed(a, c, id) && !Renewed(b, c, id) {
      var j :| |a| <= j < |c| && c[j].Shadow? && c[j].id == id;
      assert c[j] == b[j];
    }
  }

  lemma AskedLonger(before: seq<Sent>, after: seq<Sent>, readId: string, path: string)
    requires before <= after && Asked(before, readId, path)
    ensures Asked(after, readId, path)
  {
    var j :| 0 <= j < |before| && Asking(before[j], readId, path);
    assert after[j] == before[j];
  }

  lemma KeptThen(a: State, b: State, c: State)
    requires EntriesKept(a, b) && EntriesKept(b, c)
    ensures EntriesKept(a, c)
  {
    hide Renewed;
    forall id | id in c.pending
      ensures if Renewed(a.out, c.out, id) then Blank(c.pending[id]) else id in a.pending && Evolves(a.pending[id], c.pending[id])
    {
      RenewedEither(a.out, b.out, c.out, id);
    }
  }

  lemma TurnedThen(s: State, e: Event, mid: State, s': State)
    requires EntriesTurned(s, e, mid) && EntriesKept(mid, s')
    ensures EntriesTurned(s, e, s')
  {
    hide Renewed, InstructionPaths, Asked, HasId, HasError;
    forall id | id in s'.pending && !Renewed(s.out, s'.out, id)
      ensures id in s.pending
      ensures if Succeeds(e, id) then Replied(s'.out, s.pending[id], e.line.value, s'.pending[id])
              else Evolves(s.pending[id], s'.pending[id])
    {
      RenewedEither(s.out, mid.out, s'.out, id);
      if Succeeds(e, id) {
        var q := s'.pending[id];
        forall r | r in q.outstanding
          ensures (r in s.pending[id].outstanding && q.outstanding[r] == s.pending[id].outstanding[r]) || Asked(s'.out, r, q.outstanding[r])
        {
          if Asked(mid.out, r, q.outstanding[r]) {
            AskedLonger(mid.out, s'.out, r, q.outstanding[r]);
          }
        }
      }
    }
    forall id | id in s'.pending && Renewed(s.out, s'.out, id) ensures Blank(s'.pending[id]) {
      RenewedEither(s.out, mid.out, s'.out, id);
    }
  }

  lemma NoneRenewed(before: seq<Sent>, after: seq<Sent>, kinds: set<Kind>, id: string)
    requires Emits(before, after, kinds) && ToHostShadow !in kinds
    ensures !Renewed(before, after, id)
  {
    forall j | |before| <= j < |after| ensures !after[j].Shadow? {
      assert KindOf(after[j]) in kinds;
    }
  }

  /** A step without a shadow after which every entry is one of before, further on. */
  lemma QuietKept(s: State, s': State, kinds: set<Kind>)
    requires Emits(s.out, s'.out, kinds) && ToHostShadow !in kinds
    requires forall id :: id in s'.pending ==> id in s.pending && Evolves(s.pending[id], s'.pending[id])
    ensures EntriesKept(s, s')
  {
    hide Renewed, Evolves;
    forall id ensures !Renewed(s.out, s'.out, id) {
      NoneRenewed(s.out, s'.out, kinds, id);
    }
  }

  lemma SameKept(s: State, s': State, kinds: set<Kind>)
    requires Emits(s.out, s'.out, kinds) && ToHostShadow !in kinds && s'.pending == s.pending
    ensures EntriesKept(s, s')
  {
    QuietKept(s, s', kinds);
  }

  /** A step that is not the host's successful reply to an entry it leaves. */
  lemma KeptIsTurned(s: State, e: Event, s': State)
    requires EntriesKept(s, s') && forall id :: id in s.pending ==> !Succeeds(e, id)
    ensures EntriesTurned(s, e, s')
  {
    hide Renewed, Evolves, Succeeds;
  }

  lemma ForwardKept(cfg: Config, s: State, m: Held)
    ensures Forward(cfg, s, m).Next? ==> EntriesKept(s, Forward(cfg, s, m).state)
  {
    hide ShadowRequest, Ids.MetadataId, Field, NextSequence, Renewed;
    var r := Forward(cfg, s, m);
    if r.Next? {
      var id := Ids.MetadataId(cfg.environmentId, NextSequence(s.sequence));
      if m.route.ThreadStart? {
        forall other ensures Renewed(s.out, r.state.out, other) <==> other == id {
          RenewedByOne(s.out, r.state.out[|s.out|], other);
        }
      } else {
        SameKept(s, r.state, FORWARDS - {ToHostShadow});
      }
    }
  }

  lemma RenewedByOne(out: seq<Sent>, frame: Sent, id: string)
    ensures Renewed(out, out + [frame], id) <==> frame.Shadow? && frame.id == id
  {
    assert (out + [frame])[|out|] == frame;
  }

  lemma {:induction false} DrainKept(cfg: Config, s: State)
    ensures Drain(cfg, s).Next? ==> EntriesKept(s, Drain(cfg, s).state)
    decreases |s.queue|
  {
    hide Forward, EntriesKept;
    if s.queue == [] {
      SameKept(s, s, {});
    } else {
      var step := Forward(cfg, Dequeued(cfg, s), s.queue[0]);
      ForwardKept(cfg, Dequeued(cfg, s), s.queue[0]);
      if step.Next? && Drain(cfg, step.state).Next? {
        DrainKept(cfg, step.state);
        KeptThen(Dequeued(cfg, s), step.state, Drain(cfg, s).state);
        FromDequeued(cfg, s, Drain(cfg, s).state);
      }
    }
  }

  lemma FromDequeued(cfg: Config, s: State, s': State)
    requires s.queue != [] && EntriesKept(Dequeued(cfg, s), s')
    ensures EntriesKept(s, s')
  {
  }

  lemma TailKept(cfg: Config, s: State)
    ensures LoopTail(cfg, s).Next? ==> EntriesKept(s, LoopTail(cfg, s).state)
  {
    hide Drain, SendInitialize, EntriesKept;
    SendInitializeFrame(cfg, s);
    var step := SendInitialize(cfg, s);
    if step.Next? {
      SameKept(s, step.state, {ToClientInitialize});
      if IsReady(step.state) {
        DrainKept(cfg, step.state);
        if Drain(cfg, step.state).Next? {
          KeptThen(s, step.state, Drain(cfg, step.state).state);
        }
      }
    }
  }

  ghost predicate StepTurned(s: State, e: Event, r: Step) {
    r.Next? ==> EntriesTurned(s, e, r.state)
  }

  lemma ThenTailTurned(cfg: Config, s: State, e: Event, r: Step)
    requires StepTurned(s, e, r)
    ensures StepTurned(s, e, ThenTail(cfg, r))
  {
    hide LoopTail, EntriesTurned, EntriesKept;
    if r.Next? {
      TailKept(cfg, r.state);
      if LoopTail(cfg, r.state).Next? {
        TurnedThen(s, e, r.state, LoopTail(cfg, r.state).state);
      }
    }
  }

  lemma SendLocalKept(s: State, id: string)
    ensures SendLocal(s, id).Next? ==> EntriesKept(s, SendLocal(s, id).state)
  {
    hide LocalRequest, Renewed, EntriesKept;
    var r := SendLocal(s, id);
    SendLocalFrame(s, id);
    if r.Next? {
      QuietKept(s, r.state, {ToServerStart});
    }
  }

  lemma {:induction false} SendExpiredKept(s: State, expired: seq<string>)
    ensures SendExpired(s, expired).Next? ==> EntriesKept(s, SendExpired(s, expired).state)
    decreases |expired|
  {
    hide SendLocal, EntriesKept;
    if expired == [] {
      SameKept(s, s, {});
    } else {
      SendLocalKept(s, expired[0]);
      var step := SendLocal(s, expired[0]);
      if step.Next? && SendExpired(step.state, expired[1..]).Next? {
        SendExpiredKept(step.state, expired[1..]);
        KeptThen(s, step.state, SendExpired(s, expired).state);
      }
    }
  }

  // ---- The reply to a shadow --------------------------------------------------------------------

  /** Each read that was issued is on the wire, and whatever else is awaited was awaited before. */
  lemma {:induction false} ReadsAsked(s: State, id: string, paths: seq<string>, k: nat)
    requires id in s.pending && k <= |paths|
    ensures var r, before := IssueReads(s, id, paths, k), s.pending[id].outstanding;
            var after := r.pending[id].outstanding;
            && s.out <= r.out
            && forall readId :: readId in after ==>
                 (readId in before && after[readId] == before[readId]) || Asked(r.out, readId, after[readId])
  {
    hide ReadRequest, Ids.ReadId, IssueReads, Asked;
    RelayThreads.IssuedNone(s, id, paths);
    if k > 0 {
      ReadsAsked(s, id, paths, k - 1);
      RelayThreads.IssuedOne(s, id, paths, k);
      var mid, r := IssueReads(s, id, paths, k - 1), IssueReads(s, id, paths, k);
      var readId := Ids.ReadId(id, k - 1);
      JustAsked(mid.out, readId, paths[k - 1]);
      forall other | other in mid.pending[id].outstanding && Asked(mid.out, other, mid.pending[id].outstanding[other])
        ensures Asked(r.out, other, mid.pending[id].outstanding[other])
      {
        AskedLonger(mid.out, r.out, other, mid.pending[id].outstanding[other]);
      }
    }
  }

  lemma JustAsked(out: seq<Sent>, readId: string, path: string)
    ensures Asked(out + [ReadFile(readId, ReadRequest(readId, path))], readId, path)
  {
    var after := out + [ReadFile(readId, ReadRequest(readId, path))];
    ReadRequestAsks(readId, path);
    assert Asking(after[|out|], readId, path);
  }

  lemma OnlyThis(e: Event, id: string)
    requires AnswersShadow(e, id)
    ensures forall other :: Succeeds(e, other) ==> other == id
  {
  }

  lemma ThreadReplyTurned(s: State, e: Event, id: string)
    requires AnswersShadow(e, id) && id in s.pending
    ensures StepTurned(s, e, HandleThreadReply(s, id, e.line.value))
  {
    hide IssueReads, InstructionPaths, SendLocal, Renewed, Asked, HasId;
    OnlyThis(e, id);
    var entry, v := s.pending[id], e.line.value;
    var r := HandleThreadReply(s, id, v);
    if HasError(v) {
      SendLocalKept(s, id);
      if r.Next? {
        KeptIsTurned(s, e, r.state);
      }
    } else if entry.localSent {
      forall other ensures !Renewed(s.out, s.out, other) {
        NoneRenewed(s.out, s.out, {}, other);
      }
    } else {
      var paths := InstructionPaths(v);
      var s1 := s.(pending := s.pending[id := entry.(hostResponse := Some(v), paths := paths)]);
      forall other ensures !Renewed(s.out, s.out, other) {
        NoneRenewed(s.out, s.out, {}, other);
      }
      assert EntriesTurned(s, e, s1);
      if paths == [] {
        SendLocalKept(s1, id);
        if r.Next? {
          TurnedThen(s, e, s1, r.state);
        }
      } else {
        AskedTurned(s, e, id, s1, paths);
      }
    }
  }

  lemma AskedTurned(s: State, e: Event, id: string, s1: State, paths: seq<string>)
    requires Succeeds(e, id) && id in s.pending && !s.pending[id].localSent && paths == InstructionPaths(e.line.value)
    requires s1 == s.(pending := s.pending[id := s.pending[id].(hostResponse := e.line, paths := paths)])
    ensures EntriesTurned(s, e, IssueReads(s1, id, paths, |paths|))
  {
    hide IssueReads, InstructionPaths, Renewed, Asked, HasId;
    OnlyThis(e, id);
    var r := IssueReads(s1, id, paths, |paths|);
    IssueReadsFrame(s1, id, paths, |paths|);
    RelayThreads.IssueReadsEntry(s1, id, paths, |paths|);
    ReadsAsked(s1, id, paths, |paths|);
    forall other ensures !Renewed(s.out, r.out, other) {
      NoneRenewed(s.out, r.out, {ToHostRead}, other);
    }
  }

  lemma ReadReplyKept(cfg: Config, s: State, id: string, readId: string, v: Json)
    requires id in s.pending && readId in s.pending[id].outstanding
    ensures var r := HandleReadReply(cfg, s, id, readId, v); r.Next? ==> EntriesKept(s, r.state)
  {
    hide SendLocal, EntriesKept, TextBytes, ReplyData;
    var recorded := RecordRead(cfg, s.pending[id], readId, v);
    if recorded.Some? {
      var s1 := s.(pending := s.pending[id := recorded.value]);
      QuietKept(s, s1, {});
      SendLocalKept(s1, id);
      if SendLocal(s1, id).Next? {
        KeptThen(s, s1, SendLocal(s1, id).state);
      }
    }
  }

  lemma ShadowIsNotHostInitialize(cfg: Config, s: State, id: string)
    requires RelayLedger.Tallied(cfg, s) && id in s.pending
    ensures id != Ids.HostInitializeId(cfg.environmentId)
  {
    hide RelayLedger.Ledger;
    assert RelayLedger.Named(cfg, id, s.pending[id]);
    var k: nat :| id == Ids.MetadataId(cfg.environmentId, k);
    Ids.InternalIdsDiffer(cfg.environmentId, Ids.Metadata(k), Ids.HostInitialize);
  }

  lemma HostMessageTurned(cfg: Config, s: State, e: Event)
    requires RelayLedger.Tallied(cfg, s) && e.HostLine? && e.line.Some?
    ensures StepTurned(s, e, HandleHostMessage(cfg, s, e.line.value, e.order))
  {
    hide HandleThreadReply, HandleReadReply, HostMessageAllowed, FindReader, Ids.HostInitializeId, EntriesTurned, EntriesKept,
         RelayLedger.Tallied;
    var v := e.line.value;
    var id := StringField(v, "id");
    var r := HandleHostMessage(cfg, s, v, e.order);
    if id == Some(Ids.HostInitializeId(cfg.environmentId)) {
      if Ids.HostInitializeId(cfg.environmentId) in s.pending {
        ShadowIsNotHostInitialize(cfg, s, Ids.HostInitializeId(cfg.environmentId));
        assert false;
      }
    }
    if id.Some? && id.value in s.pending {
      ThreadReplyTurned(s, e, id.value);
    } else {
      NoShadowAnswered(s, e);
      var reader := if id.Some? then FindReader(e.order, s.pending, id.value) else None;
      if id != Some(Ids.HostInitializeId(cfg.environmentId)) && reader.Some? {
        ReadReplyKept(cfg, s, reader.value, id.value, v);
      } else if r.Next? {
        SameKept(s, r.state, {ToClientFromHost});
      }
      if r.Next? {
        KeptIsTurned(s, e, r.state);
      }
    }
  }

  lemma NoShadowAnswered(s: State, e: Event)
    requires !e.HostLine? || e.line.None? || StringField(e.line.value, "id").None? || StringField(e.line.value, "id").value !in s.pending
    ensures forall id :: id in s.pending ==> !Succeeds(e, id)
  {
  }

  // ---- The turn -----------------------------------------------------------------------------------

  lemma ServerMessageKept(cfg: Config, s: State, v: Json, order: seq<string>, saveWorks: bool)
    ensures var r := HandleServerMessage(cfg, s, v, order, saveWorks); r.Next? ==> EntriesKept(s, r.state)
  {
    hide HandleStartAnswer, FilterThreadList, AddRequest, FindAnswered, IsInitializeResponse, EntriesKept;
    var r := HandleServerMessage(cfg, s, v, order, saveWorks);
    var answered := FindAnswered(order, s.pending, v);
    ServerMessageFrame(cfg, s, v, order, saveWorks);
    if r.Next? {
      if !IsInitializeResponse(s, v) && answered.Some? {
        StartAnswerFrame(s, answered.value, v, saveWorks);
      }
      QuietKept(s, r.state, {ToServerAdd, ToClientStart, ToClientList, ToClientFromServer});
    }
  }

  lemma AcceptKept(cfg: Config, s: State, m: Json)
    ensures var r := AcceptClientText(cfg, s, m); r.Next? ==> EntriesKept(s, r.state)
  {
    hide Forward, RequestRoute, SatAdd, EntriesKept;
    var r := AcceptClientText(cfg, s, m);
    var verb := Method(m);
    var s1 := s.(listIds := if verb == Some("thread/list") && Field(m, "id").Some?
                            then s.listIds + {Field(m, "id").value} else s.listIds);
    if r.Next? {
      if verb != Some("initialize") && GateOpen(s1) {
        ForwardKept(cfg, s1, Held(m, RequestRoute(cfg, verb)));
        KeptFrom(s, s1, r.state);
      } else {
        SameKept(s, r.state, {ToServerInitialize, ToHostInitialize});
      }
    }
  }

  lemma KeptFrom(s: State, s1: State, s': State)
    requires s1.out == s.out && s1.pending == s.pending && EntriesKept(s1, s')
    ensures EntriesKept(s, s')
  {
  }

  lemma StatusKept(cfg: Config, s: State, v: Json)
    ensures var r := HandleStatus(cfg, s, v); r.Next? ==> EntriesKept(s, r.state)
  {
    hide Drain, StatusReady, StatusRequest, EntriesKept;
    var r := HandleStatus(cfg, s, v);
    var s1 := s.(phase := Ready);
    DrainKept(cfg, s1);
    if r.Next? {
      if StatusReady(v) == Some(true) && s.initSent {
        KeptFrom(s, s1, r.state);
      } else {
        SameKept(s, r.state, {ToServerStatus});
      }
    }
  }

  lemma ServerTextKept(cfg: Config, s: State, text: Option<Json>, order: seq<string>, saveWorks: bool)
    ensures var r := HandleServerText(cfg, s, text, order, saveWorks); r.Next? ==> EntriesKept(s, r.state)
  {
    hide LoopTail, HandleServerMessage, HandleStatus, BeginStatusPoll, IsAddResponse, IsStatusResponse, EntriesKept;
    var r := HandleServerText(cfg, s, text, order, saveWorks);
    if r.Next? {
      if IsAddResponse(cfg, text.value) {
        StatusPollFrame(cfg, s, text.value);
        SameKept(s, r.state, {ToServerStatus});
      } else if IsStatusResponse(cfg, text.value) {
        StatusKept(cfg, s, text.value);
      } else {
        ServerMessageKept(cfg, s, text.value, order, saveWorks);
        var mid := HandleServerMessage(cfg, s, text.value, order, saveWorks).state;
        TailKept(cfg, mid);
        KeptThen(s, mid, r.state);
      }
    }
  }

  /** A tail after a step without replies. */
  lemma PlainTurned(cfg: Config, s: State, e: Event, mid: State)
    requires !e.HostLine? && EntriesKept(s, mid)
    ensures StepTurned(s, e, LoopTail(cfg, mid))
  {
    hide LoopTail, EntriesKept, EntriesTurned;
    NoShadowAnswered(s, e);
    KeptIsTurned(s, e, mid);
    ThenTailTurned(cfg, s, e, Next(mid));
    assert ThenTail(cfg, Next(mid)) == LoopTail(cfg, mid);
  }

  lemma RepliesTurn(cfg: Config, s: State, e: Event)
    requires RelayLedger.Tallied(cfg, s)
    ensures StepTurned(s, e, Handle(cfg, s, e))
  {
    hide LoopTail, HandleHostMessage, HandleServerText, AcceptClientText, Rewrite, RecordOwned, SendExpired,
         EntriesTurned, EntriesKept, RelayLedger.Tallied;
    match e
    case ClientText(text) =>
      var step := HandleClientText(cfg, s, text);
      if step.Next? {
        AcceptKept(cfg, s, Rewrite(cfg, text.value).value);
        PlainTurned(cfg, s, e, step.state);
      }
    case ServerText(text, order, saveWorks) =>
      ServerTextKept(cfg, s, text, order, saveWorks);
      NoShadowAnswered(s, e);
      if HandleServerText(cfg, s, text, order, saveWorks).Next? {
        KeptIsTurned(s, e, HandleServerText(cfg, s, text, order, saveWorks).state);
      }
    case ClientOther(frame) =>
      SameKept(s, Send(s, ServerFrame(frame)), {ToServerFrame});
      PlainTurned(cfg, s, e, Send(s, ServerFrame(frame)));
    case ServerOther(frame) =>
      SameKept(s, Send(s, ClientFrame(frame)), {ToClientFrame});
      PlainTurned(cfg, s, e, Send(s, ClientFrame(frame)));
    case HostLine(line, order) =>
      if line.Some? {
        HostMessageTurned(cfg, s, e);
        ThenTailTurned(cfg, s, e, HandleHostMessage(cfg, s, line.value, order));
      }
    case Gone =>
    case Broken =>
    case Expiry(expired) =>
      SendExpiredKept(s, expired);
      if SendExpired(s, expired).Next? {
        PlainTurned(cfg, s, e, SendExpired(s, expired).state);
      }
    case ScopeElsewhere(response, saveWorks) =>
      RecordFrame(s, response, saveWorks);
      SameKept(s, RecordOwned(s, response, saveWorks), {});
      NoShadowAnswered(s, e);
      KeptIsTurned(s, e, RecordOwned(s, response, saveWorks));
  }

  // ---- Over all runs ------------------------------------------------------------------------------

  /** The host's last successful reply to the shadow with this id since the shadow was sent. */
  ghost function HostReply(cfg: Config, s0: State, events: seq<Event>, id: string): Option<Json> {
    if events == [] then None
    else
      var init, e := events[..|events| - 1], events[|events| - 1];
      var before := Run(cfg, s0, init);
      if !before.Next? || !Enabled(before.state, e) then HostReply(cfg, s0, init, id)
      else if Renewed(before.state.out, Trace(Run(cfg, s0, events)), id) then None
      else if Succeeds(e, id) then e.line
      else HostReply(cfg, s0, init, id)
  }

  function Sources(reply: Option<Json>): seq<string> {
    if reply.Some? then InstructionPaths(reply.value) else []
  }

  /** Entry p of the relay's table holds the reply, and while it is unsent its list, and awaits only what was asked
      for. */
  ghost predicate Remembers(out: seq<Sent>, p: Pending, reply: Option<Json>) {
    && p.hostResponse == reply
    && (!p.localSent ==> p.paths == Sources(reply))
    && forall r :: r in p.outstanding ==> Asked(out, r, p.outstanding[r])
  }

  ghost predicate RepliesHeld(cfg: Config, s0: State, events: seq<Event>, s: State) {
    forall id :: id in s.pending ==> Remembers(s.out, s.pending[id], HostReply(cfg, s0, events, id))
  }

  lemma RemembersLonger(before: seq<Sent>, after: seq<Sent>, p: Pending, q: Pending, reply: Option<Json>)
    requires Remembers(before, p, reply) && Evolves(p, q) && before <= after
    ensures Remembers(after, q, reply)
  {
    hide Sources, Asked;
    forall r | r in q.outstanding ensures Asked(after, r, q.outstanding[r]) {
      AskedLonger(before, after, r, q.outstanding[r]);
    }
  }

  lemma RemembersReply(before: seq<Sent>, after: seq<Sent>, p: Pending, v: Json, q: Pending, reply: Option<Json>)
    requires Remembers(before, p, reply) && Replied(after, p, v, q) && before <= after
    ensures Remembers(after, q, Some(v))
  {
    hide InstructionPaths, Asked;
    forall r | r in q.outstanding ensures Asked(after, r, q.outstanding[r]) {
      if r in p.outstanding && q.outstanding[r] == p.outstanding[r] {
        AskedLonger(before, after, r, q.outstanding[r]);
      }
    }
  }

  /** Over all runs: every entry holds the host's last successful reply to its shadow; while it is unsent, the sources
      that reply lists; and each read it awaits was asked for on the host's wire, for that very file. */
  lemma {:induction false} RepliesRemembered(cfg: Config, scope: Option<Scope>, events: seq<Event>)
    requires Run(cfg, Initial(scope), events).Next?
    ensures RepliesHeld(cfg, Initial(scope), events, Run(cfg, Initial(scope), events).state)
  {
    hide Handle, Enabled, Remembers, Renewed, Succeeds, Replied, Evolves, RelayLedger.Tallied;
    var s0 := Initial(scope);
    if events != [] {
      var n := |events| - 1;
      var init, e := events[..n], events[n];
      var before, after := Run(cfg, s0, init).state, Run(cfg, s0, events).state;
      RepliesRemembered(cfg, scope, init);
      if Enabled(before, e) {
        RelayLedger.TableIsTheWires(cfg, scope, init);
        RepliesTurn(cfg, before, e);
        forall id | id in after.pending ensures Remembers(after.out, after.pending[id], HostReply(cfg, s0, events, id)) {
          if Renewed(before.out, after.out, id) {
            BlankRemembers(after.out, after.pending[id]);
          } else if Succeeds(e, id) {
            SucceedsWith(e, id);
            RemembersReply(before.out, after.out, before.pending[id], e.line.value, after.pending[id], HostReply(cfg, s0, init, id));
          } else {
            RemembersLonger(before.out, after.out, before.pending[id], after.pending[id], HostReply(cfg, s0, init, id));
          }
        }
      }
    }
  }

  lemma BlankRemembers(out: seq<Sent>, p: Pending)
    requires Blank(p)
    ensures Remembers(out, p, None)
  {
  }

  lemma SucceedsWith(e: Event, id: string)
    requires Succeeds(e, id)
    ensures e.HostLine? && e.line.Some?
  {
  }
}
