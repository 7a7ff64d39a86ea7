/** Where every frame comes from: the event that caused it, the state it met, and the answers it was made of. */
module RelayCauses {
  import opened Wrappers
  import opened Json
  import opened RelaySpec
  import opened RelayFrames
  import opened RelayRegistration
  import RelayInitialize
  import RelayDispatch
  import RelayDelivery
  import RelayThreads
  import RelayProgress
  import RelayReplies
  import RelayLedger
  import Ids

  // ---- One turn -------------------------------------------------------------------------------

  /** The App Server's initialize answer at hand once e has been looked at, unless it is already merged. */
  function LocalAt(cfg: Config, s: State, e: Event): Option<Json> {
    if AnswersInitialize(cfg, s, e) then e.text else s.localInit
  }

  predicate AnswersHostInitialize(cfg: Config, e: Event) {
    e.HostLine? && e.line.Some? && HasId(e.line.value, Ids.HostInitializeId(cfg.environmentId))
  }

  /** The host's latest initialize answer once e has been looked at. */
  function HostAt(cfg: Config, s: State, e: Event): Option<Json> {
    if AnswersHostInitialize(cfg, e) then e.line else s.hostInit
  }

  predicate IsListAnswer(s: State, v: Json) {
    Field(v, "id").Some? && Field(v, "id").value in s.listIds
  }

  /** h was held in s, or comes with e. */
  predicate InLine(cfg: Config, s: State, e: Event, h: Held) {
    h in s.queue || RelayDispatch.Arrival(cfg, e) == Some(h)
  }

  /** Entry id of s once e has been looked at, before anything is sent for it: with the host's reply and its list, or
      with the text of the read that e answers. */
  ghost function EntryAt(cfg: Config, s: State, e: Event, id: string): Option<Pending>
    requires id in s.pending
  {
    var p := s.pending[id];
    if !e.HostLine? || e.line.None? then Some(p)
    else if HasId(e.line.value, id) then
      if HasError(e.line.value) then Some(p)
      else Some(p.(hostResponse := e.line, paths := InstructionPaths(e.line.value)))
    else if StringField(e.line.value, "id").Some? && StringField(e.line.value, "id").value in p.outstanding then
      RecordRead(cfg, p, StringField(e.line.value, "id").value, e.line.value)
    else Some(p)
  }

  /** The request that e causes for entry id, which waits in s. */
  ghost predicate StartCause(cfg: Config, s: State, e: Event, id: string, m: Json) {
    && RelayThreads.Unsent(s, id) && RelayProgress.Concerns(e, id, s.pending[id])
    && EntryAt(cfg, s, e, id).Some? && LocalRequest(EntryAt(cfg, s, e, id).value) == Some(m)
  }

  /** The read that e, a successful reply to the shadow of the waiting entry id, causes at this position: the sources
      it lists are asked for one after the other. */
  predicate ReadCause(s: State, e: Event, before: seq<Sent>, readId: string, m: Json, id: string) {
    && RelayThreads.Unsent(s, id) && RelayReplies.Succeeds(e, id)
    && |s.out| <= |before| < |s.out| + |InstructionPaths(e.line.value)|
    && var i := |before| - |s.out|;
      readId == Ids.ReadId(id, i) && RelayReplies.AsksFor(m, readId, InstructionPaths(e.line.value)[i])
  }

  /** Why frame followed the frames before it, in a turn that began in state s with event e. */
  ghost predicate Cause(cfg: Config, s: State, e: Event, before: seq<Sent>, frame: Sent) {
    match frame
    case ClientThreadList(response, scope, m) =>
      && e.ServerText? && e.text == Some(response) && before == s.out && IsListAnswer(s, response)
      && scope == s.scope && m == FilterThreadList(response, s.scope)
    case ClientFromServer(m) =>
      e.ServerText? && e.text == Some(m) && before == s.out && !IsListAnswer(s, m)
    case ClientThreadStart(id, response, m) =>
      && e.ServerText? && e.text == Some(response) && before == s.out
      && id in s.pending && Answers(s.pending[id], response)
      && Some(m) == MergedStart(response, s.pending[id].hostResponse)
    case ClientFromHost(m) => e.HostLine? && e.line == Some(m) && before == s.out && HostMessageAllowed(cfg, m)
    case ClientFrame(f) => e == ServerOther(f)
    case ServerFrame(f) => e == ClientOther(f)
    case ClientInitialize(local, host, m) =>
      && LocalAt(cfg, s, e) == Some(local) && HostAt(cfg, s, e) == Some(host)
      && MergeInitialize(local, host, cfg.remoteHome) == Some(m)
    case ServerInitialize(m) => ForwardedInitialize(cfg, e) == Some(m)
    case HostInitialize(copy) =>
      && ForwardedInitialize(cfg, e).Some? && ForwardedInitialize(cfg, e).value.Obj?
      && copy == With(ForwardedInitialize(cfg, e).value, "id", Str(Ids.HostInitializeId(cfg.environmentId)))
    case ServerForward(m) => InLine(cfg, s, e, Held(m, Local))
    case HostForward(m) => InLine(cfg, s, e, Held(m, Host))
    case Shadow(id, origin, m) =>
      && InLine(cfg, s, e, Held(origin, ThreadStart)) && ShadowRequest(origin, id) == Some(m)
      && exists k: nat :: id == Ids.MetadataId(cfg.environmentId, k)
    case LocalStart(id, m) => StartCause(cfg, s, e, id, m)
    case ReadFile(readId, m) => exists id :: ReadCause(s, e, before, readId, m, id)
    case EnvironmentAdd(m) => AnswersInitialize(cfg, s, e) && m == AddRequest(cfg)
    case EnvironmentStatus(m) =>
      && (AnswersAdd(cfg, e) || (AnswersStatus(cfg, e) && StatusReady(e.text.value) == Some(false)))
      && m == StatusRequest(cfg)
  }

  /** The answer to a thread/start: the App Server's, merged with the host's reply if there is one. */
  function MergedStart(response: Json, host: Option<Json>): Option<Json> {
    if host.Some? then MergeThread(response, host.value) else Some(response)
  }

  /** The initialize request a client text is, as it is sent on. */
  function ForwardedInitialize(cfg: Config, e: Event): Option<Json> {
    var m := if e.ClientText? && e.text.Some? then Rewrite(cfg, e.text.value) else None;
    if m.Some? && Method(m.value) == Some("initialize") then m else None
  }

  ghost predicate AllCaused(cfg: Config, s: State, e: Event, out: seq<Sent>) {
    && s.out <= out
    && forall i :: |s.out| <= i < |out| ==> Cause(cfg, s, e, out[..i], out[i])
  }

  /** The answers and messages held in s' are those that s held or e brought. */
  predicate Carried(cfg: Config, s: State, e: Event, s': State) {
    && (forall h :: h in s'.queue ==> InLine(cfg, s, e, h))
    && (s'.localInit.Some? ==> s'.localInit == LocalAt(cfg, s, e))
    && s'.hostInit == HostAt(cfg, s, e)
  }

  ghost predicate Caused(cfg: Config, s: State, e: Event, r: Step) {
    AllCaused(cfg, s, e, Trace(r)) && (r.Next? ==> Carried(cfg, s, e, r.state))
  }

  lemma CausedMore(cfg: Config, s: State, e: Event, out: seq<Sent>, after: seq<Sent>)
    requires AllCaused(cfg, s, e, out) && out <= after
    requires forall i :: |out| <= i < |after| ==> Cause(cfg, s, e, after[..i], after[i])
    ensures AllCaused(cfg, s, e, after)
  {
    hide Cause;
    forall i | |s.out| <= i < |after| ensures Cause(cfg, s, e, after[..i], after[i]) {
      if i < |out| {
        assert after[..i] == out[..i] && after[i] == out[i];
      }
    }
  }

  lemma CausedNext(cfg: Config, s: State, e: Event, out: seq<Sent>, frame: Sent)
    requires AllCaused(cfg, s, e, out) && Cause(cfg, s, e, out, frame)
    ensures AllCaused(cfg, s, e, out + [frame])
  {
    hide Cause;
    var after := out + [frame];
    forall i | |s.out| <= i < |after| ensures Cause(cfg, s, e, after[..i], after[i]) {
      if i < |out| {
        assert after[..i] == out[..i] && after[i] == out[i];
      } else {
        assert after[..i] == out;
      }
    }
  }

  lemma NothingCaused(cfg: Config, s: State, e: Event)
    ensures AllCaused(cfg, s, e, s.out)
  {
  }

  /** A step that sends nothing and keeps the answers. */
  lemma QuietCaused(cfg: Config, s: State, e: Event, r: Step)
    requires Trace(r) == s.out
    requires r.Next? ==> Carried(cfg, s, e, r.state)
    ensures Caused(cfg, s, e, r)
  {
    hide Carried, Cause;
  }

  // ---- Forwarded messages -----------------------------------------------------------------------

  /** frame forwards one of the messages of queue. */
  ghost predicate FromQueue(cfg: Config, queue: seq<Held>, frame: Sent) {
    match frame
    case ServerForward(m) => Held(m, Local) in queue
    case HostForward(m) => Held(m, Host) in queue
    case Shadow(id, origin, m) =>
      && Held(origin, ThreadStart) in queue && ShadowRequest(origin, id) == Some(m)
      && exists k: nat :: id == Ids.MetadataId(cfg.environmentId, k)
    case _ => false
  }

  lemma ForwardFrames(cfg: Config, s: State, m: Held)
    ensures var out := Trace(Forward(cfg, s, m)); s.out <= out && forall i :: |s.out| <= i < |out| ==> FromQueue(cfg, [m], out[i])
  {
    hide ShadowRequest, Ids.MetadataId, NextSequence, Field;
  }

  lemma StillFromQueue(cfg: Config, queue: seq<Held>, longer: seq<Held>, frame: Sent)
    requires FromQueue(cfg, queue, frame) && forall h :: h in queue ==> h in longer
    ensures FromQueue(cfg, longer, frame)
  {
    hide ShadowRequest, Ids.MetadataId;
  }

  lemma {:induction false} DrainFrames(cfg: Config, s: State)
    ensures var out := Trace(Drain(cfg, s));
            s.out <= out && forall i :: |s.out| <= i < |out| ==> FromQueue(cfg, s.queue, out[i])
    decreases |s.queue|
  {
    hide Forward, FromQueue;
    if s.queue != [] {
      var s1 := Dequeued(cfg, s);
      ForwardFrames(cfg, s1, s.queue[0]);
      var step := Forward(cfg, s1, s.queue[0]);
      ForwardFrame(cfg, s1, s.queue[0]);
      if step.Next? {
        DrainFrames(cfg, step.state);
      }
      var out := Trace(Drain(cfg, s));
      forall i | |s.out| <= i < |out| ensures FromQueue(cfg, s.queue, out[i]) {
        if i < |Trace(step)| {
          assert out[i] == Trace(step)[i];
          StillFromQueue(cfg, [s.queue[0]], s.queue, out[i]);
        } else {
          StillFromQueue(cfg, s.queue[1..], s.queue, out[i]);
        }
      }
    }
  }

  lemma QueuedCause(cfg: Config, s: State, e: Event, queue: seq<Held>, before: seq<Sent>, frame: Sent)
    requires FromQueue(cfg, queue, frame) && forall h :: h in queue ==> InLine(cfg, s, e, h)
    ensures Cause(cfg, s, e, before, frame)
  {
    hide InLine, ShadowRequest, Ids.MetadataId;
  }

  /** More frames, all of which forward messages in line. */
  lemma QueueCaused(cfg: Config, s: State, e: Event, out: seq<Sent>, after: seq<Sent>, queue: seq<Held>)
    requires AllCaused(cfg, s, e, out) && out <= after
    requires forall i :: |out| <= i < |after| ==> FromQueue(cfg, queue, after[i])
    requires forall h :: h in queue ==> InLine(cfg, s, e, h)
    ensures AllCaused(cfg, s, e, after)
  {
    hide Cause, AllCaused, FromQueue, InLine;
    forall i | |out| <= i < |after| ensures Cause(cfg, s, e, after[..i], after[i]) {
      QueuedCause(cfg, s, e, queue, after[..i], after[i]);
    }
    CausedMore(cfg, s, e, out, after);
  }

  /** A step that sends one frame. */
  lemma OneCaused(cfg: Config, s: State, e: Event, r: Step, frame: Sent)
    requires Trace(r) == s.out + [frame] && Cause(cfg, s, e, s.out, frame)
    requires r.Next? ==> Carried(cfg, s, e, r.state)
    ensures Caused(cfg, s, e, r)
  {
    hide AllCaused, Carried, Cause;
    NothingCaused(cfg, s, e);
    CausedNext(cfg, s, e, s.out, frame);
  }

  lemma TailCaused(cfg: Config, s: State, e: Event, mid: State)
    requires Caused(cfg, s, e, Next(mid))
    ensures Caused(cfg, s, e, LoopTail(cfg, mid))
  {
    hide Drain, MergeInitialize, AllCaused, LocalAt, HostAt, InLine, FromQueue;
    SendInitializeFrame(cfg, mid);
    var step := SendInitialize(cfg, mid);
    assert Caused(cfg, s, e, step) by {
      if step.Next? && step.state.out != mid.out {
        CausedNext(cfg, s, e, mid.out, step.state.out[|mid.out|]);
      }
    }
    if step.Next? && IsReady(step.state) {
      DrainFrame(cfg, step.state);
      DrainFrames(cfg, step.state);
      QueueCaused(cfg, s, e, step.state.out, Trace(Drain(cfg, step.state)), step.state.queue);
    }
  }

  lemma ThenTailCaused(cfg: Config, s: State, e: Event, r: Step)
    requires Caused(cfg, s, e, r)
    ensures Caused(cfg, s, e, ThenTail(cfg, r))
  {
    hide LoopTail, AllCaused, Carried;
    if r.Next? {
      TailCaused(cfg, s, e, r.state);
    }
  }

  lemma SameCarried(cfg: Config, s: State, e: Event, s': State)
    requires s'.localInit == s.localInit && s'.hostInit == s.hostInit && s'.queue == s.queue
    requires !AnswersInitialize(cfg, s, e) && !AnswersHostInitialize(cfg, e)
    ensures Carried(cfg, s, e, s')
  {
    hide RelayDispatch.Arrival;
  }

  lemma ServerMessageCaused(cfg: Config, s: State, e: Event)
    requires e.ServerText? && e.text.Some? && !AnswersAdd(cfg, e) && !AnswersStatus(cfg, e)
    ensures Caused(cfg, s, e, HandleServerMessage(cfg, s, e.text.value, e.order, e.saveWorks))
  {
    hide HandleStartAnswer, FilterThreadList, AddRequest, FindAnswered, AllCaused, AnswersAdd, AnswersStatus, RelayDispatch.Arrival;
    var v := e.text.value;
    var r := HandleServerMessage(cfg, s, v, e.order, e.saveWorks);
    var answered := FindAnswered(e.order, s.pending, v);
    if IsInitializeResponse(s, v) {
      if HasError(v) {
        QuietCaused(cfg, s, e, r);
      } else {
        OneCaused(cfg, s, e, r, EnvironmentAdd(AddRequest(cfg)));
      }
    } else if answered.Some? {
      StartAnswerCaused(cfg, s, e, answered.value);
    } else if IsListAnswer(s, v) {
      OneCaused(cfg, s, e, r, ClientThreadList(v, s.scope, FilterThreadList(v, s.scope)));
    } else {
      OneCaused(cfg, s, e, r, ClientFromServer(v));
    }
  }

  lemma StartAnswerCaused(cfg: Config, s: State, e: Event, id: string)
    requires e.ServerText? && e.text.Some? && !AnswersInitialize(cfg, s, e)
    requires id in s.pending && Answers(s.pending[id], e.text.value)
    ensures Caused(cfg, s, e, HandleStartAnswer(s, id, e.text.value, e.saveWorks))
  {
    hide MergeThread, RecordOwned, AllCaused, AnswersInitialize, AnswersHostInitialize, RelayDispatch.Arrival;
    var r := HandleStartAnswer(s, id, e.text.value, e.saveWorks);
    StartAnswerFrame(s, id, e.text.value, e.saveWorks);
    RecordFrame(s.(pending := s.pending - {id}), e.text.value, e.saveWorks);
    if r.Next? {
      assert !AnswersHostInitialize(cfg, e) by { ServerIsNoHost(cfg, e); }
      OneCaused(cfg, s, e, r, r.state.out[|s.out|]);
    } else {
      QuietCaused(cfg, s, e, r);
    }
  }

  lemma ServerIsNoHost(cfg: Config, e: Event)
    ensures !e.HostLine? ==> !AnswersHostInitialize(cfg, e)
    ensures !e.ServerText? ==> forall s :: !AnswersInitialize(cfg, s, e)
  {
  }

  lemma StatusCaused(cfg: Config, s: State, e: Event)
    requires AnswersStatus(cfg, e)
    ensures Caused(cfg, s, e, HandleStatus(cfg, s, e.text.value))
  {
    hide Drain, StatusReady, StatusRequest, AllCaused, HasId, FromQueue, RelayDispatch.Arrival;
    var v := e.text.value;
    var r := HandleStatus(cfg, s, v);
    NothingCaused(cfg, s, e);
    if StatusReady(v) == Some(true) {
      DrainFrame(cfg, s.(phase := Ready));
      DrainFrames(cfg, s.(phase := Ready));
      QueueCaused(cfg, s, e, s.out, Trace(r), s.queue);
    } else if r.Next? {
      OneCaused(cfg, s, e, r, EnvironmentStatus(StatusRequest(cfg)));
    } else {
      QuietCaused(cfg, s, e, r);
    }
  }

  lemma AddCaused(cfg: Config, s: State, e: Event)
    requires AnswersAdd(cfg, e)
    ensures Caused(cfg, s, e, BeginStatusPoll(cfg, s, e.text.value))
  {
    hide StatusRequest, AllCaused, HasId, RelayDispatch.Arrival;
    var r := BeginStatusPoll(cfg, s, e.text.value);
    if r.Next? {
      OneCaused(cfg, s, e, r, EnvironmentStatus(StatusRequest(cfg)));
    } else {
      QuietCaused(cfg, s, e, r);
    }
  }

  lemma ServerTextCaused(cfg: Config, s: State, e: Event)
    requires e.ServerText?
    ensures Caused(cfg, s, e, HandleServerText(cfg, s, e.text, e.order, e.saveWorks))
  {
    hide ThenTail, HandleServerMessage, HandleStatus, BeginStatusPoll, Caused, Ids.AddId, Ids.StatusId;
    if e.text.None? {
      QuietCaused(cfg, s, e, Failed(s.out));
    } else if IsAddResponse(cfg, e.text.value) {
      AddCaused(cfg, s, e);
    } else if IsStatusResponse(cfg, e.text.value) {
      StatusCaused(cfg, s, e);
    } else {
      ServerMessageCaused(cfg, s, e);
      ThenTailCaused(cfg, s, e, HandleServerMessage(cfg, s, e.text.value, e.order, e.saveWorks));
    }
  }

  // ---- The host's messages ------------------------------------------------------------------------

  /** Sends the request for entry id of s1, which is what e made of it. */
  lemma SendLocalCaused(cfg: Config, s: State, e: Event, s1: State, id: string)
    requires id in s.pending && EntryAt(cfg, s, e, id).Some? && RelayProgress.Concerns(e, id, s.pending[id])
    requires s1 == s.(pending := s.pending[id := EntryAt(cfg, s, e, id).value])
    requires EntryAt(cfg, s, e, id).value.localSent == s.pending[id].localSent
    requires !AnswersInitialize(cfg, s, e) && !AnswersHostInitialize(cfg, e)
    ensures Caused(cfg, s, e, SendLocal(s1, id))
  {
    hide LocalRequest, AllCaused, EntryAt, RelayProgress.Concerns, AnswersInitialize, AnswersHostInitialize, Carried;
    var r := SendLocal(s1, id);
    SendLocalFrame(s1, id);
    if r.Next? {
      SameCarried(cfg, s, e, r.state);
    }
    if r.Next? && !s1.pending[id].localSent {
      OneCaused(cfg, s, e, r, LocalStart(id, LocalRequest(s1.pending[id]).value));
    } else {
      QuietCaused(cfg, s, e, r);
    }
  }

  lemma {:induction false} ReadsCaused(s: State, e: Event, s1: State, id: string, paths: seq<string>, k: nat)
    requires RelayThreads.Unsent(s, id) && RelayReplies.Succeeds(e, id) && paths == InstructionPaths(e.line.value)
    requires id in s1.pending && s1.out == s.out && k <= |paths|
    ensures var out := IssueReads(s1, id, paths, k).out;
            && s.out <= out && |out| == |s.out| + k
            && forall j :: |s.out| <= j < |out| ==>
                 out[j].ReadFile? && ReadCause(s, e, out[..j], out[j].id, out[j].message, id)
  {
    hide ReadRequest, Ids.ReadId, IssueReads, HasId, HasError, RelayThreads.Unsent, InstructionPaths;
    RelayThreads.IssuedNone(s1, id, paths);
    if k > 0 {
      ReadsCaused(s, e, s1, id, paths, k - 1);
      RelayThreads.IssuedOne(s1, id, paths, k);
      var before, out := IssueReads(s1, id, paths, k - 1).out, IssueReads(s1, id, paths, k).out;
      forall j | |s.out| <= j < |out| ensures out[j].ReadFile? && ReadCause(s, e, out[..j], out[j].id, out[j].message, id) {
        if j < |before| {
          assert out[..j] == before[..j] && out[j] == before[j];
        } else {
          assert out[..j] == before;
          RelayReplies.ReadRequestAsks(Ids.ReadId(id, k - 1), paths[k - 1]);
        }
      }
    }
  }

  lemma ThreadReplyCaused(cfg: Config, s: State, e: Event, id: string)
    requires RelayProgress.AnswersShadow(e, id) && id in s.pending && !AnswersHostInitialize(cfg, e)
    ensures Caused(cfg, s, e, HandleThreadReply(s, id, e.line.value))
  {
    hide SendLocal, IssueReads, InstructionPaths, AllCaused, HasId, AnswersInitialize, AnswersHostInitialize, Carried, Caused;
    ServerIsNoHost(cfg, e);
    var entry, v := s.pending[id], e.line.value;
    var r := HandleThreadReply(s, id, v);
    if HasError(v) {
      assert s.(pending := s.pending[id := entry]) == s by { assert s.pending[id := entry] == s.pending; }
      SendLocalCaused(cfg, s, e, s, id);
    } else if entry.localSent {
      SameCarried(cfg, s, e, r.state);
      QuietCaused(cfg, s, e, r);
    } else {
      var paths := InstructionPaths(v);
      var s1 := s.(pending := s.pending[id := entry.(hostResponse := Some(v), paths := paths)]);
      if paths == [] {
        SendLocalCaused(cfg, s, e, s1, id);
      } else {
        var after := IssueReads(s1, id, paths, |paths|);
        IssueReadsFrame(s1, id, paths, |paths|);
        SameCarried(cfg, s, e, after);
        ReadsCaused(s, e, s1, id, paths, |paths|);
        AllReadsCaused(cfg, s, e, after, id);
      }
    }
  }

  lemma AllReadsCaused(cfg: Config, s: State, e: Event, after: State, id: string)
    requires s.out <= after.out && Carried(cfg, s, e, after)
    requires forall j :: |s.out| <= j < |after.out| ==>
               after.out[j].ReadFile? && ReadCause(s, e, after.out[..j], after.out[j].id, after.out[j].message, id)
    ensures Caused(cfg, s, e, Next(after))
  {
    hide ReadCause, Carried;
  }

  lemma ReadReplyCaused(cfg: Config, s: State, e: Event, id: string, readId: string)
    requires e.HostLine? && e.line.Some? && StringField(e.line.value, "id") == Some(readId) && !AnswersHostInitialize(cfg, e)
    requires id in s.pending && readId in s.pending[id].outstanding && readId !in s.pending
    ensures Caused(cfg, s, e, HandleReadReply(cfg, s, id, readId, e.line.value))
  {
    hide SendLocal, RecordRead, AllCaused, AnswersInitialize, AnswersHostInitialize, Carried;
    ServerIsNoHost(cfg, e);
    var recorded := RecordRead(cfg, s.pending[id], readId, e.line.value);
    assert EntryAt(cfg, s, e, id) == recorded;
    if recorded.None? {
      QuietCaused(cfg, s, e, Failed(s.out));
    } else {
      RecordedSent(cfg, s.pending[id], readId, e.line.value);
      var s1 := s.(pending := s.pending[id := recorded.value]);
      if recorded.value.outstanding == map[] {
        SendLocalCaused(cfg, s, e, s1, id);
      } else {
        SameCarried(cfg, s, e, s1);
        QuietCaused(cfg, s, e, Next(s1));
      }
    }
  }

  lemma RecordedSent(cfg: Config, p: Pending, readId: string, v: Json)
    requires readId in p.outstanding && RecordRead(cfg, p, readId, v).Some?
    ensures var q := RecordRead(cfg, p, readId, v).value;
            q.localSent == p.localSent && q.localRequest == p.localRequest && q.paths == p.paths
  {
    hide TextBytes, ReplyData;
  }

  lemma HostMessageCaused(cfg: Config, s: State, e: Event)
    requires e.HostLine? && e.line.Some?
    ensures Caused(cfg, s, e, HandleHostMessage(cfg, s, e.line.value, e.order))
  {
    hide HandleThreadReply, HandleReadReply, HostMessageAllowed, AllCaused, FindReader, Ids.HostInitializeId, Caused, Carried;
    ServerIsNoHost(cfg, e);
    var v := e.line.value;
    var id := StringField(v, "id");
    var r := HandleHostMessage(cfg, s, v, e.order);
    if id == Some(Ids.HostInitializeId(cfg.environmentId)) {
      if r.Next? {
        HostInitCarried(cfg, s, e);
      }
      QuietCaused(cfg, s, e, r);
    } else if id.Some? && id.value in s.pending {
      ThreadReplyCaused(cfg, s, e, id.value);
    } else {
      var reader := if id.Some? then FindReader(e.order, s.pending, id.value) else None;
      if reader.Some? {
        ReadReplyCaused(cfg, s, e, reader.value, id.value);
      } else {
        SameCarried(cfg, s, e, r.state);
        if HostMessageAllowed(cfg, v) {
          OneCaused(cfg, s, e, r, ClientFromHost(v));
        } else {
          QuietCaused(cfg, s, e, r);
        }
      }
    }
  }

  lemma HostInitCarried(cfg: Config, s: State, e: Event)
    requires AnswersHostInitialize(cfg, e)
    ensures Carried(cfg, s, e, s.(hostInit := e.line))
  {
    hide RelayDispatch.Arrival;
  }

  /** What SendExpired sends: requests for entries of s that wait and are among those expired. */
  lemma {:induction false} ExpiredFrames(s: State, expired: seq<string>)
    ensures var out := Trace(SendExpired(s, expired));
            && s.out <= out
            && forall i :: |s.out| <= i < |out| ==>
                 && out[i].LocalStart? && out[i].id in expired && RelayThreads.Unsent(s, out[i].id)
                 && LocalRequest(s.pending[out[i].id]) == Some(out[i].message)
    decreases |expired|
  {
    hide LocalRequest;
    if expired != [] && SendLocal(s, expired[0]).Next? {
      ExpiredFrames(SendLocal(s, expired[0]).state, expired[1..]);
    }
  }

  lemma ExpiryCaused(cfg: Config, s: State, e: Event)
    requires e.Expiry?
    ensures Caused(cfg, s, e, SendExpired(s, e.expired))
  {
    hide SendExpired, LocalRequest, Carried, AllCaused;
    ServerIsNoHost(cfg, e);
    var r := SendExpired(s, e.expired);
    SendExpiredFrame(s, e.expired);
    ExpiredFrames(s, e.expired);
    NothingCaused(cfg, s, e);
    CausedMore(cfg, s, e, s.out, Trace(r));
    if r.Next? {
      SameCarried(cfg, s, e, r.state);
    }
  }

  // ---- The client's messages ------------------------------------------------------------------------

  lemma ClientTextCaused(cfg: Config, s: State, e: Event)
    requires e.ClientText?
    ensures Caused(cfg, s, e, HandleClientText(cfg, s, e.text))
  {
    hide AllCaused, Rewrite, Forward, RequestRoute, Ids.HostInitializeId, Carried;
    var r := HandleClientText(cfg, s, e.text);
    if e.text.Some? && Rewrite(cfg, e.text.value).Some? {
      var m := Rewrite(cfg, e.text.value).value;
      if Method(m) == Some("initialize") {
        NothingCaused(cfg, s, e);
        var copy := HostInitialize(With(m, "id", Str(Ids.HostInitializeId(cfg.environmentId))));
        CausedNext(cfg, s, e, s.out, copy);
        CausedNext(cfg, s, e, s.out + [copy], ServerInitialize(m));
        SameCarried(cfg, s, e, r.state);
      } else {
        AcceptCaused(cfg, s, e, m);
      }
    } else {
      QuietCaused(cfg, s, e, r);
    }
  }

  lemma AcceptCaused(cfg: Config, s: State, e: Event, m: Json)
    requires e.ClientText? && e.text.Some? && Rewrite(cfg, e.text.value) == Some(m) && Method(m) != Some("initialize")
    ensures Caused(cfg, s, e, AcceptClientText(cfg, s, m))
  {
    hide AllCaused, Rewrite, Forward, RequestRoute, FromQueue, LocalAt, HostAt;
    var h := Held(m, RequestRoute(cfg, Method(m)));
    var r := AcceptClientText(cfg, s, m);
    var s1 := s.(listIds := if Method(m) == Some("thread/list") && Field(m, "id").Some?
                            then s.listIds + {Field(m, "id").value} else s.listIds);
    assert RelayDispatch.Arrival(cfg, e) == Some(h);
    NothingCaused(cfg, s, e);
    assert Carried(cfg, s, e, s) by { SameCarried(cfg, s, e, s); }
    if GateOpen(s1) {
      ForwardFrames(cfg, s1, h);
      ForwardFrame(cfg, s1, h);
      QueueCaused(cfg, s, e, s.out, Trace(r), [h]);
    } else {
      QuietCaused(cfg, s, e, r);
    }
  }

  lemma OneThenTail(cfg: Config, s: State, e: Event, frame: Sent)
    requires Cause(cfg, s, e, s.out, frame) && !e.HostLine? && !e.ServerText?
    ensures Caused(cfg, s, e, LoopTail(cfg, Send(s, frame)))
  {
    hide LoopTail, Cause, Carried, Caused;
    ServerIsNoHost(cfg, e);
    SameCarried(cfg, s, e, Send(s, frame));
    OneCaused(cfg, s, e, Next(Send(s, frame)), frame);
    TailCaused(cfg, s, e, Send(s, frame));
  }

  /** Every frame a turn sends has a cause in its event, and what is kept for later is the old or brought by it. */
  lemma TurnCaused(cfg: Config, s: State, e: Event)
    ensures Caused(cfg, s, e, Handle(cfg, s, e))
  {
    hide LoopTail, ThenTail, HandleHostMessage, HandleServerText, HandleClientText, RecordOwned, SendExpired,
         Caused, Carried;
    match e
    case ClientText(text) =>
      ClientTextCaused(cfg, s, e);
      ThenTailCaused(cfg, s, e, HandleClientText(cfg, s, text));
    case ServerText(_, _, _) => ServerTextCaused(cfg, s, e);
    case ClientOther(frame) => OneThenTail(cfg, s, e, ServerFrame(frame));
    case ServerOther(frame) => OtherThenTail(cfg, s, e);
    case HostLine(line, order) =>
      if line.None? {
        QuietCaused(cfg, s, e, Failed(s.out));
      } else {
        HostMessageCaused(cfg, s, e);
        ThenTailCaused(cfg, s, e, HandleHostMessage(cfg, s, line.value, order));
      }
    case Gone => QuietCaused(cfg, s, e, Closed(s.out));
    case Broken => QuietCaused(cfg, s, e, Failed(s.out));
    case Expiry(expired) =>
      ExpiryCaused(cfg, s, e);
      ThenTailCaused(cfg, s, e, SendExpired(s, expired));
    case ScopeElsewhere(response, saveWorks) =>
      ServerIsNoHost(cfg, e);
      RecordFrame(s, response, saveWorks);
      SameCarried(cfg, s, e, RecordOwned(s, response, saveWorks));
      QuietCaused(cfg, s, e, Next(RecordOwned(s, response, saveWorks)));
  }

  lemma OtherThenTail(cfg: Config, s: State, e: Event)
    requires e.ServerOther?
    ensures Caused(cfg, s, e, LoopTail(cfg, Send(s, ClientFrame(e.frame))))
  {
    hide LoopTail, Caused;
    OneThenTail(cfg, s, e, ClientFrame(e.frame));
  }

  // ---- Over all runs ------------------------------------------------------------------------------

  /** Event k of the run was processed, in the state that the events before it led to. */
  ghost predicate Processed(cfg: Config, s0: State, events: seq<Event>, k: nat) {
    && k < |events|
    && Run(cfg, s0, events[..k]).Next? && Enabled(Run(cfg, s0, events[..k]).state, events[k])
  }

  ghost predicate CausedBy(cfg: Config, s0: State, events: seq<Event>, k: nat, i: nat)
    requires i < |Trace(Run(cfg, s0, events))|
  {
    && Processed(cfg, s0, events, k)
    && var out, before := Trace(Run(cfg, s0, events)), Run(cfg, s0, events[..k]).state;
      && |before.out| <= i < |Trace(Run(cfg, s0, events[..k + 1]))| && before.out <= out
      && Cause(cfg, before, events[k], out[..i], out[i])
  }

  /** Over all runs, every frame on the wires has its cause in one of the events. */
  lemma {:induction false} FramesCaused(cfg: Config, s0: State, events: seq<Event>, i: nat)
    requires |s0.out| <= i < |Trace(Run(cfg, s0, events))|
    ensures s0.out <= Trace(Run(cfg, s0, events))
    ensures exists k: nat :: CausedBy(cfg, s0, events, k, i)
  {
    hide Handle, Cause, Enabled;
    if events != [] {
      var n := |events| - 1;
      var init := events[..n];
      var before, after := Run(cfg, s0, init), Run(cfg, s0, events);
      if before.Next? && Enabled(before.state, events[n]) {
        hide Run;
        var out := Trace(after);
        assert Caused(cfg, before.state, events[n], after) by { TurnCaused(cfg, before.state, events[n]); }
        if i < |before.state.out| {
          FramesCaused(cfg, s0, init, i);
          var k: nat :| CausedBy(cfg, s0, init, k, i);
          assert out[..i] == before.state.out[..i] && out[i] == before.state.out[i];
          LongerCaused(cfg, s0, events, n, k);
          assert CausedBy(cfg, s0, events, k, i);
        } else {
          RunExtends(cfg, s0, init);
          assert events[..n + 1] == events;
          assert CausedBy(cfg, s0, events, n, i);
        }
      } else {
        FramesCaused(cfg, s0, init, i);
        var k: nat :| CausedBy(cfg, s0, init, k, i);
        LongerCaused(cfg, s0, events, n, k);
        assert CausedBy(cfg, s0, events, k, i);
      }
    }
  }

  lemma LongerCaused(cfg: Config, s0: State, events: seq<Event>, n: nat, k: nat)
    requires n <= |events| && Processed(cfg, s0, events[..n], k)
    ensures Processed(cfg, s0, events, k) && events[..n][..k] == events[..k] && events[..n][k] == events[k]
    ensures k < n && events[..n][..k + 1] == events[..k + 1]
  {
    hide Run, Enabled;
    assert events[..n][..k] == events[..k];
    assert events[..n][..k + 1] == events[..k + 1];
  }

  lemma {:induction false} RunExtends(cfg: Config, s0: State, events: seq<Event>)
    ensures s0.out <= Trace(Run(cfg, s0, events))
  {
    hide Handle, Cause, Enabled;
    if events != [] {
      var init := events[..|events| - 1];
      RunExtends(cfg, s0, init);
      var before := Run(cfg, s0, init);
      if before.Next? {
        TurnCaused(cfg, before.state, events[|events| - 1]);
      }
    }
  }

  // ---- Where the answers that are merged come from --------------------------------------------------

  /** Event k is the App Server's answer v to the recorded initialize id. */
  ghost predicate LocalAnsweredAt(cfg: Config, s0: State, events: seq<Event>, k: nat, v: Json) {
    && Processed(cfg, s0, events, k)
    && events[k].ServerText? && events[k].text == Some(v)
    && AnswersInitialize(cfg, Run(cfg, s0, events[..k]).state, events[k])
  }

  /** Event k is the host's answer v to host-initialize. */
  ghost predicate HostAnsweredAt(cfg: Config, s0: State, events: seq<Event>, k: nat, v: Json) {
    && Processed(cfg, s0, events, k)
    && events[k].HostLine? && events[k].line == Some(v) && AnswersHostInitialize(cfg, events[k])
  }

  ghost predicate LocalFrom(cfg: Config, s0: State, events: seq<Event>, v: Json) {
    exists k: nat :: LocalAnsweredAt(cfg, s0, events, k, v)
  }

  ghost predicate HostFrom(cfg: Config, s0: State, events: seq<Event>, v: Json) {
    exists k: nat :: HostAnsweredAt(cfg, s0, events, k, v)
  }

  /** What is kept for merging was received. */
  ghost predicate Received(cfg: Config, s0: State, events: seq<Event>, s: State) {
    && (s.localInit.Some? ==> LocalFrom(cfg, s0, events, s.localInit.value))
    && (s.hostInit.Some? ==> HostFrom(cfg, s0, events, s.hostInit.value))
  }

  lemma FromLonger(cfg: Config, s0: State, events: seq<Event>, n: nat, v: Json)
    requires n <= |events|
    ensures LocalFrom(cfg, s0, events[..n], v) ==> LocalFrom(cfg, s0, events, v)
    ensures HostFrom(cfg, s0, events[..n], v) ==> HostFrom(cfg, s0, events, v)
  {
    hide Run, AnswersInitialize, AnswersHostInitialize, HasId, Enabled;
    if LocalFrom(cfg, s0, events[..n], v) {
      var k: nat :| LocalAnsweredAt(cfg, s0, events[..n], k, v);
      LongerCaused(cfg, s0, events, n, k);
      assert LocalAnsweredAt(cfg, s0, events, k, v);
    }
    if HostFrom(cfg, s0, events[..n], v) {
      var k: nat :| HostAnsweredAt(cfg, s0, events[..n], k, v);
      LongerCaused(cfg, s0, events, n, k);
      assert HostAnsweredAt(cfg, s0, events, k, v);
    }
  }

  lemma {:induction false} AnswersReceived(cfg: Config, scope: Option<Scope>, events: seq<Event>)
    ensures var r := Run(cfg, Initial(scope), events); r.Next? ==> Received(cfg, Initial(scope), events, r.state)
  {
    hide Handle, LocalFrom, HostFrom, Enabled;
    var s0 := Initial(scope);
    if events != [] {
      var n := |events| - 1;
      var init := events[..n];
      AnswersReceived(cfg, scope, init);
      var before, after := Run(cfg, s0, init), Run(cfg, s0, events);
      if after.Next? {
        ReceivedLonger(cfg, s0, events, n, before.state);
        if Enabled(before.state, events[n]) {
          ReceivedTurn(cfg, s0, events, before.state, after.state);
        }
      }
    }
  }

  lemma ReceivedLonger(cfg: Config, s0: State, events: seq<Event>, n: nat, s: State)
    requires n <= |events| && Received(cfg, s0, events[..n], s)
    ensures Received(cfg, s0, events, s)
  {
    hide LocalFrom, HostFrom;
    if s.localInit.Some? {
      FromLonger(cfg, s0, events, n, s.localInit.value);
    }
    if s.hostInit.Some? {
      FromLonger(cfg, s0, events, n, s.hostInit.value);
    }
  }

  lemma ReceivedTurn(cfg: Config, s0: State, events: seq<Event>, s: State, s': State)
    requires events != [] && Processed(cfg, s0, events, |events| - 1)
    requires Run(cfg, s0, events[..|events| - 1]) == Next(s) && Handle(cfg, s, events[|events| - 1]) == Next(s')
    requires Received(cfg, s0, events, s)
    ensures Received(cfg, s0, events, s')
  {
    hide Handle, Run, Enabled, AllCaused, HasId;
    var n := |events| - 1;
    TurnCaused(cfg, s, events[n]);
    if AnswersInitialize(cfg, s, events[n]) {
      assert LocalAnsweredAt(cfg, s0, events, n, events[n].text.value);
    }
    if AnswersHostInitialize(cfg, events[n]) {
      assert HostAnsweredAt(cfg, s0, events, n, events[n].line.value);
    }
  }

  /** Over all runs, the merged initialize response was made of the App Server's answer to the recorded
      initialize id and of an answer of the host to host-initialize, both received in this run. */
  lemma MergedFromAnswers(cfg: Config, scope: Option<Scope>, events: seq<Event>, i: nat)
    requires i < |Trace(Run(cfg, Initial(scope), events))|
    ensures var frame := Trace(Run(cfg, Initial(scope), events))[i];
            frame.ClientInitialize? ==>
              && LocalFrom(cfg, Initial(scope), events, frame.local) && HostFrom(cfg, Initial(scope), events, frame.host)
              && MergeInitialize(frame.local, frame.host, cfg.remoteHome) == Some(frame.message)
  {
    hide Run, Enabled, LocalFrom, HostFrom, MergeInitialize, AnswersAdd, AnswersStatus, IsInitializeResponse, HasId;
    var s0 := Initial(scope);
    var frame := Trace(Run(cfg, s0, events))[i];
    if frame.ClientInitialize? {
      FramesCaused(cfg, s0, events, i);
      var k: nat :| CausedBy(cfg, s0, events, k, i);
      var s := Run(cfg, s0, events[..k]).state;
      AnswersReceived(cfg, scope, events[..k]);
      FromLonger(cfg, s0, events, k, frame.local);
      FromLonger(cfg, s0, events, k, frame.host);
      if AnswersInitialize(cfg, s, events[k]) {
        assert LocalAnsweredAt(cfg, s0, events, k, frame.local);
        assert LocalFrom(cfg, s0, events, frame.local) by { LocalFromAt(cfg, s0, events, k, frame.local); }
      }
      if AnswersHostInitialize(cfg, events[k]) {
        assert HostFrom(cfg, s0, events, frame.host) by { HostFromAt(cfg, s0, events, k, frame.host); }
      }
    }
  }

  lemma LocalFromAt(cfg: Config, s0: State, events: seq<Event>, k: nat, v: Json)
    requires LocalAnsweredAt(cfg, s0, events, k, v)
    ensures LocalFrom(cfg, s0, events, v)
  {
  }

  lemma HostFromAt(cfg: Config, s0: State, events: seq<Event>, k: nat, v: Json)
    requires HostAnsweredAt(cfg, s0, events, k, v)
    ensures HostFrom(cfg, s0, events, v)
  {
  }

  // ---- The answers to thread starts ---------------------------------------------------------------

  lemma LastEvent(cfg: Config, s0: State, events: seq<Event>, k: nat)
    requires k < |events| && Processed(cfg, s0, events, k)
    ensures Processed(cfg, s0, events[..k + 1], k) && events[..k + 1][..k] == events[..k]
    ensures Run(cfg, s0, events[..k + 1]) == Handle(cfg, Run(cfg, s0, events[..k]).state, events[k])
  {
    hide Handle, Enabled;
    assert events[..k + 1][..k] == events[..k];
  }

  /** Event k is a successful reply to the shadow, and from it on there is no other, and no new shadow. */
  ghost predicate LastReplyAt(cfg: Config, s0: State, events: seq<Event>, k: nat, id: string) {
    && Processed(cfg, s0, events, k) && RelayReplies.Succeeds(events[k], id)
    && (forall j: nat :: k < j && Processed(cfg, s0, events, j) ==> !RelayReplies.Succeeds(events[j], id))
    && !RelayReplies.Renewed(Run(cfg, s0, events[..k]).state.out, Trace(Run(cfg, s0, events)), id)
  }

  lemma SameProcessed(cfg: Config, s0: State, events: seq<Event>, n: nat, j: nat)
    requires j < n <= |events|
    ensures Processed(cfg, s0, events[..n], j) <==> Processed(cfg, s0, events, j)
    ensures events[..n][..j] == events[..j]
  {
    hide Run, Enabled;
    assert events[..n][..j] == events[..j];
  }

  /** An event that is no reply to the shadow leaves the last reply in place, unless there is a new shadow. */
  lemma LastReplyStep(cfg: Config, s0: State, events: seq<Event>, n: nat, k: nat, id: string)
    requires n + 1 == |events| && k < n && (Processed(cfg, s0, events, n) ==> !RelayReplies.Succeeds(events[n], id))
    requires Run(cfg, s0, events[..n]).Next?
    ensures LastReplyAt(cfg, s0, events, k, id)
            <==> LastReplyAt(cfg, s0, events[..n], k, id)
                 && !RelayReplies.Renewed(Run(cfg, s0, events[..n]).state.out, Trace(Run(cfg, s0, events)), id)
  {
    hide Run, Processed, RelayReplies.Succeeds, RelayReplies.Renewed;
    forall j: nat | j < n ensures Processed(cfg, s0, events[..n], j) <==> Processed(cfg, s0, events, j) {
      SameProcessed(cfg, s0, events, n, j);
    }
    assert forall j: nat :: Processed(cfg, s0, events[..n], j) ==> j < n by { ProcessedInside(cfg, s0, events[..n]); }
    assert forall j: nat :: Processed(cfg, s0, events, j) ==> j <= n by { ProcessedInside(cfg, s0, events); }
    SameProcessed(cfg, s0, events, n, k);
    if Processed(cfg, s0, events, k) {
      assert Run(cfg, s0, events[..k]).Next? by { ProcessedRuns(cfg, s0, events, k); }
      OutGrows(cfg, s0, events[..n], k);
      OutGrows(cfg, s0, events, n);
      RelayReplies.RenewedEither(Run(cfg, s0, events[..k]).state.out, Run(cfg, s0, events[..n]).state.out, Trace(Run(cfg, s0, events)), id);
    }
  }

  lemma ProcessedInside(cfg: Config, s0: State, events: seq<Event>)
    ensures forall j: nat :: Processed(cfg, s0, events, j) ==> j < |events|
  {
    hide Run, Enabled;
  }

  lemma ProcessedRuns(cfg: Config, s0: State, events: seq<Event>, k: nat)
    requires Processed(cfg, s0, events, k)
    ensures k < |events| && Run(cfg, s0, events[..k]).Next?
  {
    hide Run, Enabled;
  }

  lemma OutGrows(cfg: Config, s0: State, events: seq<Event>, k: nat)
    requires k <= |events| && Run(cfg, s0, events[..k]).Next?
    ensures Run(cfg, s0, events[..k]).state.out <= Trace(Run(cfg, s0, events))
    decreases |events|
  {
    hide Handle, Enabled;
    if k == |events| {
      assert events[..k] == events;
    } else {
      var n := |events| - 1;
      assert events[..n][..k] == events[..k];
      OutGrows(cfg, s0, events[..n], k);
      var before := Run(cfg, s0, events[..n]);
      if before.Next? {
        TurnCaused(cfg, before.state, events[n]);
      }
    }
  }

  /** After the relay has stopped, or for an event that cannot happen, nothing changes. */
  lemma LastReplySkips(cfg: Config, s0: State, events: seq<Event>, n: nat, k: nat, id: string)
    requires n + 1 == |events| && !Processed(cfg, s0, events, n)
    ensures LastReplyAt(cfg, s0, events, k, id) <==> LastReplyAt(cfg, s0, events[..n], k, id)
    ensures k < n ==> events[..n][k] == events[k]
  {
    assert Run(cfg, s0, events) == Run(cfg, s0, events[..n]);
    hide Run, Processed, RelayReplies.Succeeds, RelayReplies.Renewed;
    forall j: nat | j < n ensures Processed(cfg, s0, events[..n], j) <==> Processed(cfg, s0, events, j) {
      SameProcessed(cfg, s0, events, n, j);
    }
    assert forall j: nat :: Processed(cfg, s0, events[..n], j) ==> j < n by { ProcessedInside(cfg, s0, events[..n]); }
    assert forall j: nat :: Processed(cfg, s0, events, j) ==> j <= n by { ProcessedInside(cfg, s0, events); }
    if k < n {
      SameProcessed(cfg, s0, events, n, k);
    }
  }

  lemma LastReplyHere(cfg: Config, s0: State, events: seq<Event>, n: nat, id: string)
    requires n + 1 == |events| && Processed(cfg, s0, events, n) && RelayReplies.Succeeds(events[n], id)
    requires Run(cfg, s0, events[..n]).Next?
    requires !RelayReplies.Renewed(Run(cfg, s0, events[..n]).state.out, Trace(Run(cfg, s0, events)), id)
    ensures forall k: nat :: LastReplyAt(cfg, s0, events, k, id) <==> k == n
  {
    hide Run, Processed, RelayReplies.Succeeds, RelayReplies.Renewed;
    ProcessedInside(cfg, s0, events);
  }

  lemma RenewedForgets(cfg: Config, s0: State, events: seq<Event>, n: nat, k: nat, id: string)
    requires n + 1 == |events| && Run(cfg, s0, events[..n]).Next?
    requires RelayReplies.Renewed(Run(cfg, s0, events[..n]).state.out, Trace(Run(cfg, s0, events)), id)
    ensures !LastReplyAt(cfg, s0, events, k, id)
  {
    hide Run, Processed, RelayReplies.Succeeds, RelayReplies.Renewed;
    if Processed(cfg, s0, events, k) {
      ProcessedRuns(cfg, s0, events, k);
      ProcessedInside(cfg, s0, events);
      assert events[..n][..k] == events[..k];
      OutGrows(cfg, s0, events[..n], k);
      OutGrows(cfg, s0, events, n);
      RelayReplies.RenewedEither(Run(cfg, s0, events[..k]).state.out, Run(cfg, s0, events[..n]).state.out, Trace(Run(cfg, s0, events)), id);
    }
  }

  /** The reply that counts is the last successful one by position, with no shadow of this id after it. */
  lemma {:induction false} HostReplyIsLast(cfg: Config, s0: State, events: seq<Event>, id: string)
    ensures RelayReplies.HostReply(cfg, s0, events, id).Some? <==> exists k: nat :: LastReplyAt(cfg, s0, events, k, id)
    ensures forall k: nat :: LastReplyAt(cfg, s0, events, k, id) ==>
              k < |events| && RelayReplies.HostReply(cfg, s0, events, id)
                              == if events[k].HostLine? then events[k].line else None
  {
    hide Run, Enabled, RelayReplies.Succeeds, RelayReplies.Renewed, LastReplyAt;
    if events != [] {
      var n := |events| - 1;
      HostReplyIsLast(cfg, s0, events[..n], id);
      if !Processed(cfg, s0, events, n) {
        forall k: nat ensures LastReplyAt(cfg, s0, events, k, id) <==> LastReplyAt(cfg, s0, events[..n], k, id) {
          LastReplySkips(cfg, s0, events, n, k, id);
        }
      } else if RelayReplies.Renewed(Run(cfg, s0, events[..n]).state.out, Trace(Run(cfg, s0, events)), id) {
        forall k: nat ensures !LastReplyAt(cfg, s0, events, k, id) {
          RenewedForgets(cfg, s0, events, n, k, id);
        }
      } else if RelayReplies.Succeeds(events[n], id) {
        LastReplyHere(cfg, s0, events, n, id);
        RelayReplies.SucceedsWith(events[n], id);
        assert LastReplyAt(cfg, s0, events, n, id);
      } else {
        forall k: nat ensures LastReplyAt(cfg, s0, events, k, id) <==> LastReplyAt(cfg, s0, events[..n], k, id) {
          LastReplyOnly(cfg, s0, events, n, k, id);
        }
      }
    } else {
      forall k: nat ensures !LastReplyAt(cfg, s0, events, k, id) {
        NoLastReply(cfg, s0, k, id);
      }
    }
  }

  lemma LastReplyOnly(cfg: Config, s0: State, events: seq<Event>, n: nat, k: nat, id: string)
    requires n + 1 == |events| && Processed(cfg, s0, events, n) && !RelayReplies.Succeeds(events[n], id)
    requires !RelayReplies.Renewed(Run(cfg, s0, events[..n]).state.out, Trace(Run(cfg, s0, events)), id)
    ensures LastReplyAt(cfg, s0, events, k, id) <==> LastReplyAt(cfg, s0, events[..n], k, id)
  {
    hide Run, Enabled, Processed, LastReplyAt, RelayReplies.Succeeds, RelayReplies.Renewed;
    if k < n {
      ProcessedRuns(cfg, s0, events, n);
      LastReplyStep(cfg, s0, events, n, k, id);
    } else {
      LastReplyInside(cfg, s0, events, k, id);
      LastReplyInside(cfg, s0, events[..n], k, id);
    }
  }

  lemma LastReplyInside(cfg: Config, s0: State, events: seq<Event>, k: nat, id: string)
    ensures LastReplyAt(cfg, s0, events, k, id) ==> k < |events| && RelayReplies.Succeeds(events[k], id)
  {
    hide Run, Enabled, RelayReplies.Succeeds, RelayReplies.Renewed;
  }

  lemma NoLastReply(cfg: Config, s0: State, k: nat, id: string)
    ensures !LastReplyAt(cfg, s0, [], k, id)
  {
    hide Run, Enabled;
  }

  /** The answer was the text of event k, and was merged with the host's last successful reply before it. */
  ghost predicate AnsweredAt(cfg: Config, s0: State, events: seq<Event>, k: nat, frame: Sent) {
    && Processed(cfg, s0, events, k)
    && frame.ClientThreadStart? && events[k].ServerText? && events[k].text == Some(frame.response)
    && Some(frame.message) == MergedStart(frame.response, RelayReplies.HostReply(cfg, s0, events[..k], frame.id))
  }

  /** Over all runs, the answer delivered to a thread/start is the App Server's text, merged with the host's last
      successful reply to that very shadow, and unmerged exactly when there was none. */
  lemma StartsMergedFromAnswers(cfg: Config, scope: Option<Scope>, events: seq<Event>, i: nat)
    requires i < |Trace(Run(cfg, Initial(scope), events))|
    ensures var frame := Trace(Run(cfg, Initial(scope), events))[i];
            frame.ClientThreadStart? ==> exists k: nat :: AnsweredAt(cfg, Initial(scope), events, k, frame)
  {
    hide Run, Enabled, MergedStart, Answers, RelayReplies.HostReply, RelayReplies.Sources, RelayReplies.Asked;
    var s0 := Initial(scope);
    var frame := Trace(Run(cfg, s0, events))[i];
    if frame.ClientThreadStart? {
      FramesCaused(cfg, s0, events, i);
      var k: nat :| CausedBy(cfg, s0, events, k, i);
      RelayReplies.RepliesRemembered(cfg, scope, events[..k]);
      assert AnsweredAt(cfg, s0, events, k, frame);
    }
  }

  // ---- The order of the answers ---------------------------------------------------------------------

  /** Every initialize answer of the App Server in this run is local, and every one of the host is host; and
      both have come. */
  ghost predicate AnsweredBy(cfg: Config, s0: State, events: seq<Event>, local: Json, host: Json) {
    && LocalFrom(cfg, s0, events, local) && HostFrom(cfg, s0, events, host)
    && (forall v :: LocalFrom(cfg, s0, events, v) ==> v == local)
    && (forall v :: HostFrom(cfg, s0, events, v) ==> v == host)
  }

  /** Once the App Server has answered initialize, environment/add is out. */
  lemma {:induction false} LocalAnswerLeaves(cfg: Config, scope: Option<Scope>, events: seq<Event>, v: Json)
    requires Run(cfg, Initial(scope), events).Next? && LocalFrom(cfg, Initial(scope), events, v)
    ensures Adds(Run(cfg, Initial(scope), events).state.out) != []
  {
    hide Handle, Enabled, AnswersInitialize, Select, AddRequest, PhaseAfter, NewStatuses;
    var s0 := Initial(scope);
    var n := |events| - 1;
    var k: nat :| LocalAnsweredAt(cfg, s0, events, k, v);
    var before := Run(cfg, s0, events[..n]).state;
    RegistrationTurn(cfg, before, events[n]);
    if k < n {
      ShorterProcessed(cfg, s0, events, n, k);
      hide Run;
      assert LocalAnsweredAt(cfg, s0, events[..n], k, v);
      LocalAnswerLeaves(cfg, scope, events[..n], v);
    }
  }

  /** Once the host has answered host-initialize, an answer of it is at hand. */
  lemma {:induction false} HostAnswerLeaves(cfg: Config, scope: Option<Scope>, events: seq<Event>, v: Json)
    requires Run(cfg, Initial(scope), events).Next? && HostFrom(cfg, Initial(scope), events, v)
    ensures Run(cfg, Initial(scope), events).state.hostInit.Some?
  {
    hide Handle, Enabled, AllCaused, HasId, LocalAt;
    var s0 := Initial(scope);
    var n := |events| - 1;
    var k: nat :| HostAnsweredAt(cfg, s0, events, k, v);
    var before := Run(cfg, s0, events[..n]).state;
    TurnCaused(cfg, before, events[n]);
    if k < n {
      ShorterProcessed(cfg, s0, events, n, k);
      hide Run;
      assert HostAnsweredAt(cfg, s0, events[..n], k, v);
      HostAnswerLeaves(cfg, scope, events[..n], v);
    }
  }

  lemma ShorterProcessed(cfg: Config, s0: State, events: seq<Event>, n: nat, k: nat)
    requires k < n <= |events| && Processed(cfg, s0, events, k)
    ensures Processed(cfg, s0, events[..n], k) && events[..n][..k] == events[..k] && events[..n][k] == events[k]
  {
    hide Run, Enabled;
    assert events[..n][..k] == events[..k];
  }

  lemma {:induction false} SelectFrom(out: seq<Sent>, kinds: set<Kind>, frame: Sent)
    requires frame in Select(out, kinds)
    ensures KindOf(frame) in kinds && exists i :: 0 <= i < |out| && out[i] == frame
  {
    if frame !in Select(out[..|out| - 1], kinds) {
      assert out[|out| - 1] == frame;
    } else {
      SelectFrom(out[..|out| - 1], kinds, frame);
      var i :| 0 <= i < |out| - 1 && out[..|out| - 1][i] == frame;
      assert out[i] == frame;
    }
  }

  /** Whatever else happens before, between and after, a run in which the App Server answered initialize with
      local and the host with host has sent the one merge of the two: the order of the answers is irrelevant. */
  lemma MergeIgnoresOrder(cfg: Config, scope: Option<Scope>, events: seq<Event>, local: Json, host: Json)
    requires Run(cfg, Initial(scope), events).Next? && AnsweredBy(cfg, Initial(scope), events, local, host)
    ensures MergeInitialize(local, host, cfg.remoteHome).Some?
    ensures RelayInitialize.Merged(Run(cfg, Initial(scope), events).state.out)
         == [ClientInitialize(local, host, MergeInitialize(local, host, cfg.remoteHome).value)]
  {
    hide Run, LocalFrom, HostFrom, MergeInitialize, Select, RelayInitialize.WireOrder, RelayInitialize.HeadTurn;
    var out := Run(cfg, Initial(scope), events).state.out;
    RelayInitialize.MergedOnceAndFirst(cfg, scope, events);
    LocalAnswerLeaves(cfg, scope, events, local);
    HostAnswerLeaves(cfg, scope, events, host);
    var frame := RelayInitialize.Merged(out)[0];
    SelectFrom(out, RelayInitialize.MERGED, frame);
    var i :| 0 <= i < |out| && out[i] == frame;
    MergedFromAnswers(cfg, scope, events, i);
  }

  // ---- The stored scope -------------------------------------------------------------------------------

  predicate Saves(e: Event) {
    (e.ServerText? && e.saveWorks) || (e.ScopeElsewhere? && e.saveWorks)
  }

  predicate SafeIds(scope: Option<Scope>) {
    scope.Some? ==> forall t :: t in scope.value.threadIds ==> ValidThreadId(t)
  }

  /** A turn leaves the scope alone, or records one thread. */
  predicate ScopeStep(s: State, e: Event, s': State) {
    if s'.scope == s.scope then s'.savedScope == s.savedScope
    else
      && s.scope.Some? && s'.scope.Some? && s.scope.value.threadIds < s'.scope.value.threadIds
      && s'.savedScope == if Saves(e) && SafeIds(s'.scope) then s'.scope else s.savedScope
  }

  lemma RecordStep(s: State, response: Json, saveWorks: bool, e: Event, s': State)
    requires Saves(e) == saveWorks
    requires s'.scope == RecordOwned(s, response, saveWorks).scope && s'.savedScope == RecordOwned(s, response, saveWorks).savedScope
    ensures ScopeStep(s, e, s')
  {
    hide StartedThread, ValidThreadId;
  }

  lemma SameStep(s: State, e: Event, s': State)
    requires s'.scope == s.scope && s'.savedScope == s.savedScope
    ensures ScopeStep(s, e, s')
  {
  }

  lemma StepThen(s: State, e: Event, mid: State, s': State)
    requires ScopeStep(s, e, mid) && s'.scope == mid.scope && s'.savedScope == mid.savedScope
    ensures ScopeStep(s, e, s')
  {
  }

  lemma ServerMessageScope(cfg: Config, s: State, e: Event)
    requires e.ServerText? && e.text.Some?
    ensures var r := HandleServerMessage(cfg, s, e.text.value, e.order, e.saveWorks); r.Next? ==> ScopeStep(s, e, r.state)
  {
    hide FilterThreadList, AddRequest, FindAnswered, IsInitializeResponse, MergeThread, RecordOwned, ScopeStep;
    var v := e.text.value;
    var r := HandleServerMessage(cfg, s, v, e.order, e.saveWorks);
    var answered := FindAnswered(e.order, s.pending, v);
    if r.Next? {
      if !IsInitializeResponse(s, v) && answered.Some? {
        var s1 := s.(pending := s.pending - {answered.value});
        RecordStep(s1, v, e.saveWorks, e, r.state);
        assert ScopeStep(s, e, r.state) by { FromPending(s, s1, e, r.state); }
      } else {
        SameStep(s, e, r.state);
      }
    }
  }

  lemma FromPending(s: State, s1: State, e: Event, s': State)
    requires s1.scope == s.scope && s1.savedScope == s.savedScope && ScopeStep(s1, e, s')
    ensures ScopeStep(s, e, s')
  {
  }

  lemma ServerTextScope(cfg: Config, s: State, e: Event)
    requires e.ServerText?
    ensures var r := HandleServerText(cfg, s, e.text, e.order, e.saveWorks); r.Next? ==> ScopeStep(s, e, r.state)
  {
    hide LoopTail, HandleServerMessage, HandleStatus, BeginStatusPoll, IsAddResponse, IsStatusResponse, ScopeStep;
    var r := HandleServerText(cfg, s, e.text, e.order, e.saveWorks);
    if r.Next? {
      var v := e.text.value;
      if IsAddResponse(cfg, v) {
        StatusPollFrame(cfg, s, v);
        SameStep(s, e, r.state);
      } else if IsStatusResponse(cfg, v) {
        StatusFrame(cfg, s, v);
        SameStep(s, e, r.state);
      } else {
        ServerMessageScope(cfg, s, e);
        var mid := HandleServerMessage(cfg, s, v, e.order, e.saveWorks).state;
        LoopTailFrame(cfg, mid);
        StepThen(s, e, mid, r.state);
      }
    }
  }

  lemma TurnScope(cfg: Config, s: State, e: Event)
    ensures var r := Handle(cfg, s, e); r.Next? ==> ScopeStep(s, e, r.state)
  {
    hide LoopTail, HandleHostMessage, HandleServerText, AcceptClientText, Rewrite, RecordOwned, SendExpired, ScopeStep;
    var r := Handle(cfg, s, e);
    if r.Next? {
      match e {
        case ClientText(text) =>
          var m := Rewrite(cfg, text.value).value;
          AcceptFrame(cfg, s, m);
          LoopTailFrame(cfg, AcceptClientText(cfg, s, m).state);
          SameStep(s, e, r.state);
        case ServerText(_, _, _) => ServerTextScope(cfg, s, e);
        case ClientOther(frame) =>
          LoopTailFrame(cfg, Send(s, ServerFrame(frame)));
          SameStep(s, e, r.state);
        case ServerOther(frame) =>
          LoopTailFrame(cfg, Send(s, ClientFrame(frame)));
          SameStep(s, e, r.state);
        case HostLine(line, order) =>
          HostMessageFrame(cfg, s, line.value, order);
          LoopTailFrame(cfg, HandleHostMessage(cfg, s, line.value, order).state);
          SameStep(s, e, r.state);
        case Expiry(expired) =>
          SendExpiredFrame(s, expired);
          LoopTailFrame(cfg, SendExpired(s, expired).state);
          SameStep(s, e, r.state);
        case ScopeElsewhere(response, saveWorks) => RecordStep(s, response, saveWorks, e, r.state);
        case Gone =>
        case Broken =>
      }
    }
  }

  /** The last event of the run that added a thread to the scope. */
  ghost function LastRecorded(cfg: Config, s0: State, events: seq<Event>): (k: Option<nat>)
    ensures k.Some? ==> k.value < |events|
  {
    if events == [] then None
    else
      var n := |events| - 1;
      var before, after := Run(cfg, s0, events[..n]), Run(cfg, s0, events);
      if before.Next? && after.Next? && after.state.scope != before.state.scope then Some(n)
      else LastRecorded(cfg, s0, events[..n])
  }

  /** Over all runs: while nothing was recorded the stored scope is the initial one; after that it equals memory
      exactly when the save for the last recorded thread went through and no id in the scope is unsafe. */
  lemma {:induction false} StoredEqualsMemoryExactly(cfg: Config, scope: Option<Scope>, events: seq<Event>)
    requires Run(cfg, Initial(scope), events).Next?
    ensures var s, last := Run(cfg, Initial(scope), events).state, LastRecorded(cfg, Initial(scope), events);
            if last.None? then s.scope == scope && s.savedScope == scope
            else s.savedScope == s.scope <==> Saves(events[last.value]) && SafeIds(s.scope)
  {
    hide Handle, Enabled, SafeIds, Saves, RelayDelivery.AllProper, RelayDelivery.StartedIds, RelayDelivery.Grown, RelayDelivery.ElsewhereIds;
    var s0 := Initial(scope);
    if events != [] {
      var n := |events| - 1;
      var before, after := Run(cfg, s0, events[..n]).state, Run(cfg, s0, events).state;
      StoredEqualsMemoryExactly(cfg, scope, events[..n]);
      RelayDelivery.DeliveredProperly(cfg, scope, events[..n]);
      TurnScope(cfg, before, events[n]);
    }
  }
}
