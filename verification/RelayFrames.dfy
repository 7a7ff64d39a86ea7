/** What each part of the WebSocket relay may send, and which part of the state it leaves alone. */
module RelayFrames {
  import opened Wrappers
  import opened Json
  import opened RelaySpec
  import Ids

  datatype Kind =
    | ToServerInitialize | ToServerForward | ToServerStart | ToServerAdd | ToServerStatus | ToServerFrame
    | ToHostInitialize | ToHostForward | ToHostShadow | ToHostRead
    | ToClientInitialize | ToClientStart | ToClientList | ToClientFromServer | ToClientFromHost | ToClientFrame

  function KindOf(frame: Sent): Kind {
    match frame
    case ServerInitialize(_) => ToServerInitialize
    case ServerForward(_) => ToServerForward
    case LocalStart(_, _) => ToServerStart
    case EnvironmentAdd(_) => ToServerAdd
    case EnvironmentStatus(_) => ToServerStatus
    case ServerFrame(_) => ToServerFrame
    case HostInitialize(_) => ToHostInitialize
    case HostForward(_) => ToHostForward
    case Shadow(_, _, _) => ToHostShadow
    case ReadFile(_, _) => ToHostRead
    case ClientInitialize(_, _, _) => ToClientInitialize
    case ClientThreadStart(_, _, _) => ToClientStart
    case ClientThreadList(_, _, _) => ToClientList
    case ClientFromServer(_) => ToClientFromServer
    case ClientFromHost(_) => ToClientFromHost
    case ClientFrame(_) => ToClientFrame
  }

  /** The frames that forward a client message. */
  const FORWARDS: set<Kind> := {ToServerForward, ToHostForward, ToHostShadow}

  /** The frames of the given kinds, in the order they were sent. */
  function Select(out: seq<Sent>, kinds: set<Kind>): seq<Sent> {
    if out == [] then []
    else
      var last := out[|out| - 1];
      Select(out[..|out| - 1], kinds) + (if KindOf(last) in kinds then [last] else [])
  }

  /** after continues before with frames of the given kinds only. */
  ghost predicate Emits(before: seq<Sent>, after: seq<Sent>, kinds: set<Kind>) {
    && before <= after
    && forall i :: |before| <= i < |after| ==> KindOf(after[i]) in kinds
  }

  lemma {:induction false} EmitsSelect(before: seq<Sent>, after: seq<Sent>, kinds: set<Kind>, others: set<Kind>)
    requires Emits(before, after, kinds) && kinds !! others
    ensures Select(after, others) == Select(before, others)
    decreases |after|
  {
    if |after| > |before| {
      assert KindOf(after[|after| - 1]) in kinds;
      EmitsSelect(before, after[..|after| - 1], kinds, others);
    } else {
      assert after == before;
    }
  }

  lemma SelectAppend(out: seq<Sent>, frame: Sent, kinds: set<Kind>)
    ensures Select(out + [frame], kinds) == Select(out, kinds) + (if KindOf(frame) in kinds then [frame] else [])
  {
    assert (out + [frame])[..|out|] == out;
  }

  lemma EmitsMore(before: seq<Sent>, after: seq<Sent>, kinds: set<Kind>, more: set<Kind>)
    requires Emits(before, after, kinds) && kinds <= more
    ensures Emits(before, after, more)
  {
  }

  lemma EmitsThen(a: seq<Sent>, b: seq<Sent>, c: seq<Sent>, kinds: set<Kind>)
    requires Emits(a, b, kinds) && Emits(b, c, kinds)
    ensures Emits(a, c, kinds)
  {
  }

  // ---- Client side -----------------------------------------------------------------------

  lemma ForwardFrame(cfg: Config, s: State, m: Held)
    ensures var r := Forward(cfg, s, m);
            && Emits(s.out, Trace(r), FORWARDS)
            && (!r.Next? ==> r == Failed(s.out))
            && (r.Next? ==> r.state == s.(sequence := r.state.sequence, pending := r.state.pending, out := r.state.out))
  {
    hide ShadowRequest, Ids.MetadataId, NextSequence, Field;
  }

  lemma {:induction false} DrainFrame(cfg: Config, s: State)
    ensures var r := Drain(cfg, s);
            && Emits(s.out, Trace(r), FORWARDS)
            && !r.Closed?
            && (r.Next? ==> r.state == s.(queue := [], queuedBytes := r.state.queuedBytes,
                                          sequence := r.state.sequence, pending := r.state.pending, out := r.state.out))
    decreases |s.queue|
  {
    hide Forward;
    if s.queue != [] {
      ForwardFrame(cfg, Dequeued(cfg, s), s.queue[0]);
      var step := Forward(cfg, Dequeued(cfg, s), s.queue[0]);
      if step.Next? {
        DrainFrame(cfg, step.state);
        EmitsThen(s.out, step.state.out, Trace(Drain(cfg, step.state)), FORWARDS);
      }
    }
  }

  lemma SendInitializeFrame(cfg: Config, s: State)
    ensures var r := SendInitialize(cfg, s);
            && Emits(s.out, Trace(r), {ToClientInitialize})
            && (!r.Next? ==> r == Failed(s.out))
            && (r.Next? ==> r.state == s.(localInit := r.state.localInit, initSent := r.state.initSent, out := r.state.out))
  {
    hide MergeInitialize;
  }

  const TAIL: set<Kind> := FORWARDS + {ToClientInitialize}

  lemma LoopTailFrame(cfg: Config, s: State)
    ensures var r := LoopTail(cfg, s);
            && Emits(s.out, Trace(r), TAIL)
            && !r.Closed?
            && (r.Next? ==> r.state == s.(localInit := r.state.localInit, initSent := r.state.initSent,
                                          queue := r.state.queue, queuedBytes := r.state.queuedBytes,
                                          sequence := r.state.sequence, pending := r.state.pending, out := r.state.out))
  {
    hide SendInitialize, Drain;
    SendInitializeFrame(cfg, s);
    var step := SendInitialize(cfg, s);
    EmitsMore(s.out, Trace(step), {ToClientInitialize}, TAIL);
    if step.Next? && IsReady(step.state) {
      DrainFrame(cfg, step.state);
      EmitsMore(step.state.out, Trace(Drain(cfg, step.state)), FORWARDS, TAIL);
      EmitsThen(s.out, step.state.out, Trace(Drain(cfg, step.state)), TAIL);
    }
  }

  lemma AcceptFrame(cfg: Config, s: State, m: Json)
    ensures var r := AcceptClientText(cfg, s, m);
            && Emits(s.out, Trace(r), FORWARDS + {ToServerInitialize, ToHostInitialize})
            && (!r.Next? ==> r == Failed(s.out))
            && (r.Next? ==> r.state == s.(initializeId := r.state.initializeId, listIds := r.state.listIds,
                                          queue := r.state.queue, queuedBytes := r.state.queuedBytes,
                                          sequence := r.state.sequence, pending := r.state.pending, out := r.state.out))
  {
    hide Forward, RequestRoute;
    var verb := Method(m);
    var s1 := s.(listIds := if verb == Some("thread/list") && Field(m, "id").Some?
                            then s.listIds + {Field(m, "id").value} else s.listIds);
    ForwardFrame(cfg, s1, Held(m, RequestRoute(cfg, verb)));
  }

  // ---- Thread starts ---------------------------------------------------------------------

  lemma SendLocalFrame(s: State, id: string)
    ensures var r := SendLocal(s, id);
            && Emits(s.out, Trace(r), {ToServerStart})
            && (!r.Next? ==> r == Failed(s.out))
            && (r.Next? ==> r.state == s.(pending := r.state.pending, out := r.state.out))
  {
    hide LocalRequest;
  }

  lemma {:induction false} SendExpiredFrame(s: State, expired: seq<string>)
    ensures var r := SendExpired(s, expired);
            && Emits(s.out, Trace(r), {ToServerStart})
            && !r.Closed?
            && (r.Next? ==> r.state == s.(pending := r.state.pending, out := r.state.out))
    decreases |expired|
  {
    hide SendLocal;
    if expired != [] {
      SendLocalFrame(s, expired[0]);
      var step := SendLocal(s, expired[0]);
      if step.Next? {
        SendExpiredFrame(step.state, expired[1..]);
        EmitsThen(s.out, step.state.out, Trace(SendExpired(step.state, expired[1..])), {ToServerStart});
      }
    }
  }

  lemma {:induction false} IssueReadsFrame(s: State, id: string, paths: seq<string>, k: nat)
    requires id in s.pending && k <= |paths|
    ensures var r := IssueReads(s, id, paths, k);
            && Emits(s.out, r.out, {ToHostRead})
            && r == s.(pending := r.pending, out := r.out)
  {
    hide ReadRequest;
    if k > 0 {
      IssueReadsFrame(s, id, paths, k - 1);
    }
  }

  lemma ThreadReplyFrame(s: State, id: string, v: Json)
    requires id in s.pending
    ensures var r := HandleThreadReply(s, id, v);
            && Emits(s.out, Trace(r), {ToServerStart, ToHostRead})
            && (!r.Next? ==> r == Failed(s.out))
            && (r.Next? ==> r.state == s.(pending := r.state.pending, out := r.state.out))
  {
    hide SendLocal, IssueReads, InstructionPaths;
    var paths := InstructionPaths(v);
    var s1 := s.(pending := s.pending[id := s.pending[id].(hostResponse := Some(v), paths := paths)]);
    SendLocalFrame(s, id);
    SendLocalFrame(s1, id);
    IssueReadsFrame(s1, id, paths, |paths|);
  }

  lemma ReadReplyFrame(cfg: Config, s: State, id: string, readId: string, v: Json)
    requires id in s.pending && readId in s.pending[id].outstanding
    ensures var r := HandleReadReply(cfg, s, id, readId, v);
            && Emits(s.out, Trace(r), {ToServerStart})
            && (!r.Next? ==> r == Failed(s.out))
            && (r.Next? ==> r.state == s.(pending := r.state.pending, out := r.state.out))
  {
    hide SendLocal, RecordRead;
    var recorded := RecordRead(cfg, s.pending[id], readId, v);
    if recorded.Some? {
      SendLocalFrame(s.(pending := s.pending[id := recorded.value]), id);
    }
  }

  lemma HostMessageFrame(cfg: Config, s: State, v: Json, order: seq<string>)
    ensures var r := HandleHostMessage(cfg, s, v, order);
            && Emits(s.out, Trace(r), {ToServerStart, ToHostRead, ToClientFromHost})
            && (!r.Next? ==> r == Failed(s.out))
            && (r.Next? ==> r.state == s.(hostInit := r.state.hostInit, pending := r.state.pending, out := r.state.out))
  {
    hide HandleThreadReply, HandleReadReply, HostMessageAllowed;
    var id := StringField(v, "id");
    if id.Some? {
      if id.value in s.pending {
        ThreadReplyFrame(s, id.value, v);
      } else {
        var reader := FindReader(order, s.pending, id.value);
        if reader.Some? {
          ReadReplyFrame(cfg, s, reader.value, id.value, v);
        }
      }
    }
  }

  // ---- App Server side -------------------------------------------------------------------

  lemma RecordFrame(s: State, response: Json, saveWorks: bool)
    ensures var r := RecordOwned(s, response, saveWorks);
            r == s.(scope := r.scope, savedScope := r.savedScope)
  {
    hide StartedThread, ValidThreadId;
  }

  lemma StartAnswerFrame(s: State, id: string, v: Json, saveWorks: bool)
    requires id in s.pending
    ensures var r := HandleStartAnswer(s, id, v, saveWorks);
            && Emits(s.out, Trace(r), {ToClientStart})
            && (!r.Next? ==> r == Failed(s.out))
            && (r.Next? ==> r.state == s.(pending := s.pending - {id}, scope := r.state.scope,
                                          savedScope := r.state.savedScope, out := r.state.out))
  {
    hide MergeThread, RecordOwned;
    RecordFrame(s.(pending := s.pending - {id}), v, saveWorks);
  }

  lemma ServerMessageFrame(cfg: Config, s: State, v: Json, order: seq<string>, saveWorks: bool)
    ensures var r := HandleServerMessage(cfg, s, v, order, saveWorks);
            && Emits(s.out, Trace(r), {ToServerAdd, ToClientStart, ToClientList, ToClientFromServer})
            && (!r.Next? ==> r == Failed(s.out))
            && (r.Next? ==> r.state == s.(phase := r.state.phase, localInit := r.state.localInit,
                                          pending := r.state.pending, listIds := r.state.listIds, scope := r.state.scope,
                                          savedScope := r.state.savedScope, out := r.state.out))
            && (r.Next? && !IsInitializeResponse(s, v) ==> r.state.phase == s.phase && r.state.localInit == s.localInit)
  {
    hide HandleStartAnswer, FilterThreadList, AddRequest;
    var answered := FindAnswered(order, s.pending, v);
    if !IsInitializeResponse(s, v) && answered.Some? {
      StartAnswerFrame(s, answered.value, v, saveWorks);
    }
  }

  lemma StatusFrame(cfg: Config, s: State, v: Json)
    ensures var r := HandleStatus(cfg, s, v);
            && Emits(s.out, Trace(r), FORWARDS + {ToServerStatus})
            && !r.Closed?
            && (r.Next? ==> r.state == s.(phase := r.state.phase, queue := r.state.queue, queuedBytes := r.state.queuedBytes,
                                          sequence := r.state.sequence, pending := r.state.pending, out := r.state.out))
  {
    hide Drain, StatusReady, StatusRequest;
    DrainFrame(cfg, s.(phase := Ready));
  }

  lemma StatusPollFrame(cfg: Config, s: State, v: Json)
    ensures var r := BeginStatusPoll(cfg, s, v);
            && Emits(s.out, Trace(r), {ToServerStatus})
            && (!r.Next? ==> r == Failed(s.out))
            && (r.Next? ==> r.state == s.(phase := r.state.phase, out := r.state.out))
  {
    hide StatusRequest;
  }
}
