/** Whose request a thread/start becomes: shadow, local request and answer all belong to the message received. */
module RelayStarts {
  import opened Wrappers
  import opened Json
  import opened RelaySpec
  import opened RelayFrames
  import opened RelayThreads
  import RelayDispatch
  import RelayGather
  import Ids

  // ---- What every frame of a thread start goes back to ----------------------------------------

  /** A shadow with this id was sent for the client's message origin. */
  predicate ShadowOf(out: seq<Sent>, id: string, origin: Json) {
    exists j :: 0 <= j < |out| && out[j].Shadow? && out[j].id == id && out[j].origin == origin
  }

  predicate Requested(out: seq<Sent>, id: string) {
    exists j :: 0 <= j < |out| && out[j].LocalStart? && out[j].id == id
  }

  /** m is the request made from a well-formed entry of the client's message whose shadow was sent as id. */
  ghost predicate RequestFor(before: seq<Sent>, id: string, m: Json) {
    exists p :: EntryMid(id, p) && ShadowOf(before, id, p.localRequest) && LocalRequest(p) == Some(m)
  }

  /** response carries the client's id of the message whose request was sent as id. */
  ghost predicate AnswerFor(before: seq<Sent>, id: string, response: Json) {
    && Requested(before, id)
    && exists origin :: ShadowOf(before, id, origin) && Field(origin, "id").Some? && Field(response, "id") == Field(origin, "id")
  }

  ghost predicate Justified(before: seq<Sent>, frame: Sent) {
    match frame
    case LocalStart(id, m) => RequestFor(before, id, m)
    case ClientThreadStart(id, response, _) => AnswerFor(before, id, response)
    case _ => true
  }

  ghost predicate AllJustified(out: seq<Sent>) {
    forall i :: 0 <= i < |out| ==> Justified(out[..i], out[i])
  }

  predicate Backed(out: seq<Sent>, id: string, p: Pending) {
    && ShadowOf(out, id, p.localRequest)
    && Field(p.localRequest, "id") == Some(p.clientId)
    && (p.localSent ==> Requested(out, id))
  }

  ghost predicate StartInv(s: State) {
    AllJustified(s.out) && forall id :: id in s.pending ==> Backed(s.out, id, s.pending[id])
  }

  ghost predicate StartOutcome(r: Step) {
    AllJustified(Trace(r)) && (r.Next? ==> StartInv(r.state))
  }

  const STARTING: set<Kind> := {ToServerStart, ToClientStart}

  /** q is p further on, but not sent. */
  predicate Follows(p: Pending, q: Pending) {
    q.localRequest == p.localRequest && q.clientId == p.clientId && q.localSent == p.localSent
  }

  lemma BackedStays(before: seq<Sent>, after: seq<Sent>, id: string, p: Pending, q: Pending)
    requires before <= after && Backed(before, id, p) && Follows(p, q)
    ensures Backed(after, id, q)
  {
    var j :| 0 <= j < |before| && before[j].Shadow? && before[j].id == id && before[j].origin == p.localRequest;
    assert after[j] == before[j];
    if p.localSent {
      var k :| 0 <= k < |before| && before[k].LocalStart? && before[k].id == id;
      assert after[k] == before[k];
    }
  }

  lemma JustifiedQuiet(before: seq<Sent>, after: seq<Sent>, kinds: set<Kind>)
    requires AllJustified(before) && Emits(before, after, kinds) && kinds !! STARTING
    ensures AllJustified(after)
  {
    hide RequestFor, AnswerFor;
    forall i | 0 <= i < |after| ensures Justified(after[..i], after[i]) {
      if i < |before| {
        assert after[..i] == before[..i] && after[i] == before[i];
      } else {
        assert KindOf(after[i]) in kinds;
      }
    }
  }

  lemma JustifiedAppend(before: seq<Sent>, frame: Sent)
    requires AllJustified(before) && Justified(before, frame)
    ensures AllJustified(before + [frame])
  {
    hide Justified;
    var after := before + [frame];
    forall i | 0 <= i < |after| ensures Justified(after[..i], after[i]) {
      if i < |before| {
        assert after[..i] == before[..i] && after[i] == before[i];
      } else {
        assert after[..i] == before;
      }
    }
  }

  /** A step that sends no request and no answer, and starts no entry. */
  lemma QuietStarts(s: State, r: Step, kinds: set<Kind>)
    requires StartInv(s) && Emits(s.out, Trace(r), kinds) && kinds !! STARTING
    requires r.Next? ==> forall id :: id in r.state.pending ==> id in s.pending && Follows(s.pending[id], r.state.pending[id])
    ensures StartOutcome(r)
  {
    hide AllJustified, Backed, Follows;
    JustifiedQuiet(s.out, Trace(r), kinds);
    if r.Next? {
      forall id | id in r.state.pending ensures Backed(r.state.out, id, r.state.pending[id]) {
        BackedStays(s.out, r.state.out, id, s.pending[id], r.state.pending[id]);
      }
    }
  }

  // ---- The steps ------------------------------------------------------------------------------

  lemma ForwardStarts(cfg: Config, s: State, m: Held)
    requires StartInv(s)
    ensures StartOutcome(Forward(cfg, s, m))
  {
    hide AllJustified, Backed, ShadowRequest, Ids.MetadataId, NextSequence, Field;
    var r := Forward(cfg, s, m);
    ForwardFrame(cfg, s, m);
    JustifiedQuiet(s.out, Trace(r), FORWARDS);
    if r.Next? {
      forall id | id in r.state.pending ensures Backed(r.state.out, id, r.state.pending[id]) {
        if m.route.ThreadStart? && id == Ids.MetadataId(cfg.environmentId, NextSequence(s.sequence)) {
          NewBacked(s.out, id, m.message, r.state.out[|s.out|].message);
        } else {
          BackedStays(s.out, r.state.out, id, s.pending[id], s.pending[id]);
        }
      }
    }
  }

  lemma NewBacked(out: seq<Sent>, id: string, m: Json, shadow: Json)
    requires Field(m, "id").Some?
    ensures Backed(out + [Shadow(id, m, shadow)], id, Pending(Field(m, "id").value, m, None, map[], [], map[], false))
  {
    assert (out + [Shadow(id, m, shadow)])[|out|] == Shadow(id, m, shadow);
  }

  lemma {:induction false} DrainStarts(cfg: Config, s: State)
    requires StartInv(s)
    ensures StartOutcome(Drain(cfg, s))
    decreases |s.queue|
  {
    hide Forward, AllJustified, Backed;
    if s.queue != [] {
      ForwardStarts(cfg, Dequeued(cfg, s), s.queue[0]);
      var step := Forward(cfg, Dequeued(cfg, s), s.queue[0]);
      if step.Next? {
        DrainStarts(cfg, step.state);
      }
    }
  }

  lemma TailStarts(cfg: Config, s: State)
    requires StartInv(s)
    ensures StartOutcome(LoopTail(cfg, s))
  {
    hide SendInitialize, Drain, StartInv, StartOutcome, AllJustified, Follows;
    SendInitializeFrame(cfg, s);
    var step := SendInitialize(cfg, s);
    SameFollows(s.pending);
    QuietStarts(s, step, {ToClientInitialize});
    if step.Next? {
      OutcomeStarts(step);
      if IsReady(step.state) {
        DrainStarts(cfg, step.state);
      }
    }
  }

  lemma SameFollows(pending: map<string, Pending>)
    ensures forall id :: id in pending ==> Follows(pending[id], pending[id])
  {
  }

  lemma OutcomeStarts(r: Step)
    requires StartOutcome(r)
    ensures r.Next? ==> StartInv(r.state)
  {
  }

  lemma NextStarts(s: State)
    requires StartInv(s)
    ensures StartOutcome(Next(s))
  {
  }

  lemma ThenTailStarts(cfg: Config, r: Step)
    requires StartOutcome(r)
    ensures StartOutcome(ThenTail(cfg, r))
  {
    hide LoopTail, AllJustified;
    if r.Next? {
      TailStarts(cfg, r.state);
    }
  }

  lemma SendLocalStarts(s: State, id: string)
    requires StartInv(s) && id in s.pending && EntryMid(id, s.pending[id])
    ensures StartOutcome(SendLocal(s, id))
  {
    hide AllJustified, EntryMid, LocalRequest, ShadowOf;
    var r := SendLocal(s, id);
    if r.Next? && !s.pending[id].localSent {
      var frame := LocalStart(id, LocalRequest(s.pending[id]).value);
      assert Justified(s.out, frame);
      JustifiedAppend(s.out, frame);
      forall other | other in r.state.pending ensures Backed(r.state.out, other, r.state.pending[other]) {
        BackedStays(s.out, r.state.out, other, s.pending[other], s.pending[other]);
        assert r.state.out[|s.out|] == frame;
      }
    }
  }

  lemma {:induction false} SendExpiredStarts(cfg: Config, s: State, expired: seq<string>)
    requires StartInv(s) && ThreadInv(cfg, s) && forall id :: id in expired ==> id in s.pending
    ensures StartOutcome(SendExpired(s, expired))
    decreases |expired|
  {
    hide SendLocal, StartInv, StartOutcome, ThreadInv, ThreadMid, EntryMid;
    if expired == [] {
      NextStarts(s);
    } else {
      InvIsMid(cfg, s, expired[0]);
      MidEntry(cfg, s, expired[0]);
      SendLocalStarts(s, expired[0]);
      SendLocalThreads(cfg, s, expired[0]);
      var step := SendLocal(s, expired[0]);
      OutcomeStarts(step);
      OutcomeInv(cfg, step.state);
      SendExpiredStarts(cfg, step.state, expired[1..]);
    }
  }

  lemma MidEntry(cfg: Config, s: State, id: string)
    requires ThreadMid(cfg, s, id)
    ensures id in s.pending && EntryMid(id, s.pending[id])
  {
  }

  /** Entry id is replaced by one that is further on. */
  lemma UpdatedStarts(s: State, id: string, p: Pending)
    requires StartInv(s) && id in s.pending && Follows(s.pending[id], p)
    ensures StartInv(s.(pending := s.pending[id := p]))
  {
    hide AllJustified, Backed;
    forall other | other in s.pending ensures Backed(s.out, other, s.pending[id := p][other]) {
      BackedStays(s.out, s.out, other, s.pending[other], s.pending[id := p][other]);
    }
  }

  lemma IssueReadsStarts(s: State, id: string, paths: seq<string>, k: nat)
    requires StartInv(s) && id in s.pending && k <= |paths|
    ensures StartOutcome(Next(IssueReads(s, id, paths, k)))
  {
    hide IssueReads, StartInv, StartOutcome;
    IssueReadsFrame(s, id, paths, k);
    IssueReadsEntry(s, id, paths, k);
    QuietStarts(s, Next(IssueReads(s, id, paths, k)), {ToHostRead});
  }

  lemma ThreadReplyStarts(cfg: Config, s: State, id: string, v: Json)
    requires StartInv(s) && ThreadInv(cfg, s) && id in s.pending
    ensures StartOutcome(HandleThreadReply(s, id, v))
  {
    hide SendLocal, IssueReads, InstructionPaths, StartInv, StartOutcome, ThreadInv, ThreadMid, ReadsOf, WithinBudget, ObjectField;
    var entry := s.pending[id];
    assert EntryMid(id, entry) by { EntryOf(cfg, s, id); }
    if HasError(v) {
      SendLocalStarts(s, id);
    } else if entry.localSent {
      UpdatedStarts(s, id, entry.(hostResponse := Some(v)));
      NextStarts(s.(pending := s.pending[id := entry.(hostResponse := Some(v))]));
    } else {
      var paths := InstructionPaths(v);
      var p := entry.(hostResponse := Some(v), paths := paths);
      UpdatedStarts(s, id, p);
      var s1 := s.(pending := s.pending[id := p]);
      if paths == [] {
        SendLocalStarts(s1, id);
      } else {
        IssueReadsStarts(s1, id, paths, |paths|);
      }
    }
  }

  lemma ReadReplyStarts(cfg: Config, s: State, id: string, readId: string, v: Json)
    requires StartInv(s) && ThreadInv(cfg, s) && id in s.pending && readId in s.pending[id].outstanding
    ensures StartOutcome(HandleReadReply(cfg, s, id, readId, v))
  {
    hide SendLocal, StartInv, ThreadInv, EntryMid, EntryInv, TextBytes;
    EntryOf(cfg, s, id);
    RecordedMid(cfg, id, s.pending[id], readId, v);
    var recorded := RecordRead(cfg, s.pending[id], readId, v);
    if recorded.Some? {
      UpdatedStarts(s, id, recorded.value);
      var s1 := s.(pending := s.pending[id := recorded.value]);
      NextStarts(s1);
      if recorded.value.outstanding == map[] {
        SendLocalStarts(s1, id);
      }
    } else {
      FailedStarts(s);
    }
  }

  lemma FailedStarts(s: State)
    requires StartInv(s)
    ensures StartOutcome(Failed(s.out)) && StartOutcome(Closed(s.out))
  {
  }

  lemma HostMessageStarts(cfg: Config, s: State, v: Json, order: seq<string>)
    requires StartInv(s) && ThreadInv(cfg, s)
    ensures StartOutcome(HandleHostMessage(cfg, s, v, order))
  {
    hide HandleThreadReply, HandleReadReply, HostMessageAllowed, ThreadInv, StartInv, StartOutcome, Follows, FindReader;
    var id := StringField(v, "id");
    var r := HandleHostMessage(cfg, s, v, order);
    SameFollows(s.pending);
    if id == Some(Ids.HostInitializeId(cfg.environmentId)) {
      QuietStarts(s, r, {});
    } else if id.Some? && id.value in s.pending {
      ThreadReplyStarts(cfg, s, id.value, v);
    } else {
      var reader := if id.Some? then FindReader(order, s.pending, id.value) else None;
      if reader.Some? {
        ReadReplyStarts(cfg, s, reader.value, id.value, v);
      } else {
        QuietStarts(s, r, {ToClientFromHost});
      }
    }
  }

  lemma StartAnswerStarts(s: State, id: string, v: Json, saveWorks: bool)
    requires StartInv(s) && id in s.pending && Answers(s.pending[id], v)
    ensures StartOutcome(HandleStartAnswer(s, id, v, saveWorks))
  {
    hide AllJustified, MergeThread, RecordOwned, ShadowOf, Requested;
    var r := HandleStartAnswer(s, id, v, saveWorks);
    StartAnswerFrame(s, id, v, saveWorks);
    RecordFrame(s.(pending := s.pending - {id}), v, saveWorks);
    if r.Next? {
      var frame := r.state.out[|s.out|];
      assert r.state.out == s.out + [frame];
      assert Justified(s.out, frame);
      JustifiedAppend(s.out, frame);
      forall other | other in r.state.pending ensures Backed(r.state.out, other, r.state.pending[other]) {
        BackedStays(s.out, r.state.out, other, s.pending[other], s.pending[other]);
      }
    }
  }

  lemma ServerMessageStarts(cfg: Config, s: State, v: Json, order: seq<string>, saveWorks: bool)
    requires StartInv(s)
    ensures StartOutcome(HandleServerMessage(cfg, s, v, order, saveWorks))
  {
    hide HandleStartAnswer, FilterThreadList, AddRequest, StartInv, StartOutcome, Follows, FindAnswered;
    var answered := FindAnswered(order, s.pending, v);
    SameFollows(s.pending);
    if !IsInitializeResponse(s, v) && answered.Some? {
      StartAnswerStarts(s, answered.value, v, saveWorks);
    } else {
      QuietStarts(s, HandleServerMessage(cfg, s, v, order, saveWorks), {ToServerAdd, ToClientList, ToClientFromServer});
    }
  }

  lemma StatusStarts(cfg: Config, s: State, v: Json)
    requires StartInv(s)
    ensures StartOutcome(HandleStatus(cfg, s, v))
  {
    hide Drain, StatusReady, StatusRequest, StartInv, StartOutcome, Follows;
    SameFollows(s.pending);
    if StatusReady(v) == Some(true) {
      var s1 := s.(phase := Ready);
      QuietStarts(s, Next(s1), {});
      OutcomeStarts(Next(s1));
      if s.initSent {
        DrainStarts(cfg, s1);
      }
    } else {
      QuietStarts(s, HandleStatus(cfg, s, v), {ToServerStatus});
    }
  }

  lemma AcceptStarts(cfg: Config, s: State, m: Json)
    requires StartInv(s)
    ensures StartOutcome(AcceptClientText(cfg, s, m))
  {
    hide Forward, RequestRoute, StartInv, StartOutcome, Follows;
    SameFollows(s.pending);
    var verb := Method(m);
    var r := AcceptClientText(cfg, s, m);
    var s1 := s.(listIds := if verb == Some("thread/list") && Field(m, "id").Some?
                            then s.listIds + {Field(m, "id").value} else s.listIds);
    if verb != Some("initialize") && GateOpen(s1) {
      QuietStarts(s, Next(s1), {});
      OutcomeStarts(Next(s1));
      ForwardStarts(cfg, s1, Held(m, RequestRoute(cfg, verb)));
      assert r == Forward(cfg, s1, Held(m, RequestRoute(cfg, verb)));
    } else {
      QuietStarts(s, r, {ToServerInitialize, ToHostInitialize});
    }
  }

  lemma ClientTextStarts(cfg: Config, s: State, text: Option<Json>)
    requires StartInv(s)
    ensures StartOutcome(HandleClientText(cfg, s, text))
  {
    hide AcceptClientText, Rewrite, StartInv, StartOutcome;
    FailedStarts(s);
    if text.Some? && Rewrite(cfg, text.value).Some? {
      AcceptStarts(cfg, s, Rewrite(cfg, text.value).value);
    }
  }

  lemma ServerTextStarts(cfg: Config, s: State, text: Option<Json>, order: seq<string>, saveWorks: bool)
    requires StartInv(s)
    ensures StartOutcome(HandleServerText(cfg, s, text, order, saveWorks))
  {
    hide ThenTail, HandleServerMessage, HandleStatus, BeginStatusPoll, StartInv, StartOutcome, IsAddResponse, IsStatusResponse, Follows;
    SameFollows(s.pending);
    FailedStarts(s);
    if text.Some? {
      if IsAddResponse(cfg, text.value) {
        StatusPollFrame(cfg, s, text.value);
        QuietStarts(s, BeginStatusPoll(cfg, s, text.value), {ToServerStatus});
      } else if IsStatusResponse(cfg, text.value) {
        StatusStarts(cfg, s, text.value);
      } else {
        ServerMessageStarts(cfg, s, text.value, order, saveWorks);
        ThenTailStarts(cfg, HandleServerMessage(cfg, s, text.value, order, saveWorks));
      }
    }
  }

  lemma StartTurn(cfg: Config, s: State, e: Event)
    requires StartInv(s) && ThreadInv(cfg, s) && Enabled(s, e)
    ensures StartOutcome(Handle(cfg, s, e))
  {
    hide LoopTail, HandleHostMessage, HandleServerText, HandleClientText, RecordOwned, SendExpired,
         StartInv, StartOutcome, ThreadInv, Follows;
    SameFollows(s.pending);
    FailedStarts(s);
    match e
    case ClientText(text) =>
      ClientTextStarts(cfg, s, text);
      ThenTailStarts(cfg, HandleClientText(cfg, s, text));
    case ClientOther(frame) =>
      QuietStarts(s, Next(Send(s, ServerFrame(frame))), {ToServerFrame});
      ThenTailStarts(cfg, Next(Send(s, ServerFrame(frame))));
    case ServerText(text, order, saveWorks) => ServerTextStarts(cfg, s, text, order, saveWorks);
    case ServerOther(frame) =>
      QuietStarts(s, Next(Send(s, ClientFrame(frame))), {ToClientFrame});
      ThenTailStarts(cfg, Next(Send(s, ClientFrame(frame))));
    case HostLine(line, order) =>
      if line.Some? {
        HostMessageStarts(cfg, s, line.value, order);
        ThenTailStarts(cfg, HandleHostMessage(cfg, s, line.value, order));
      }
    case Gone =>
    case Broken =>
    case Expiry(expired) =>
      SendExpiredStarts(cfg, s, expired);
      ThenTailStarts(cfg, SendExpired(s, expired));
    case ScopeElsewhere(response, saveWorks) =>
      RecordFrame(s, response, saveWorks);
      QuietStarts(s, Next(RecordOwned(s, response, saveWorks)), {});
  }

  lemma {:induction false} StartsBacked(cfg: Config, scope: Option<Scope>, events: seq<Event>)
    ensures StartOutcome(Run(cfg, Initial(scope), events))
  {
    hide Handle, StartInv, AllJustified, ThreadInv, WireThreads;
    if events == [] {
      assert StartOutcome(Next(Initial(scope))) by { InitialStarts(scope); }
    } else {
      var init := events[..|events| - 1];
      StartsBacked(cfg, scope, init);
      ThreadStartsAccounted(cfg, scope, init);
      var before := Run(cfg, Initial(scope), init);
      if before.Next? && Enabled(before.state, events[|events| - 1]) {
        StartTurn(cfg, before.state, events[|events| - 1]);
      }
    }
  }

  lemma InitialStarts(scope: Option<Scope>)
    ensures StartOutcome(Next(Initial(scope)))
  {
  }

  // ---- In terms of the messages received --------------------------------------------------------

  /** The thread/start messages among ms. */
  function StartMessages(ms: seq<Held>): seq<Json> {
    if ms == [] then []
    else
      StartMessages(ms[..|ms| - 1]) + (if ms[|ms| - 1].route.ThreadStart? then [ms[|ms| - 1].message] else [])
  }

  lemma {:induction false} SelectTwice(out: seq<Sent>, kinds: set<Kind>, fewer: set<Kind>)
    requires fewer <= kinds
    ensures Select(Select(out, kinds), fewer) == Select(out, fewer)
  {
    if out != [] {
      var init, last := out[..|out| - 1], out[|out| - 1];
      SelectTwice(init, kinds, fewer);
      if KindOf(last) in kinds {
        SelectAppend(Select(init, kinds), last, fewer);
      } else {
        assert Select(init, kinds) + [] == Select(init, kinds);
      }
    }
  }

  lemma {:induction false} SelectHas(out: seq<Sent>, kinds: set<Kind>, j: nat)
    requires j < |out| && KindOf(out[j]) in kinds
    ensures out[j] in Select(out, kinds)
  {
    if j < |out| - 1 {
      SelectHas(out[..|out| - 1], kinds, j);
    }
  }

  lemma {:induction false} ImagesAtMost(cfg: Config, ms: seq<Held>)
    ensures |RelayDispatch.Images(cfg, ms)| <= |ms|
  {
    hide RelayDispatch.Image;
    if ms != [] {
      ImagesAtMost(cfg, ms[..|ms| - 1]);
    }
  }

  lemma NoShadows()
    ensures Shadows([]) == []
  {
  }

  lemma ImageOrigin(cfg: Config, ms: seq<Held>, m: Held)
    requires RelayDispatch.Image(cfg, ms, m).Some?
    ensures var image := RelayDispatch.Image(cfg, ms, m).value;
            if m.route.ThreadStart? then image.Shadow? && image.origin == m.message else KindOf(image) != ToHostShadow
  {
    hide ShadowRequest, Ids.MetadataId;
  }

  /** The shadows among the forwards of ms stand for its thread/start messages, in order. */
  lemma {:induction false} ShadowsOfImages(cfg: Config, ms: seq<Held>)
    requires |RelayDispatch.Images(cfg, ms)| == |ms|
    ensures var shadows, starts := Shadows(RelayDispatch.Images(cfg, ms)), StartMessages(ms);
            && |shadows| == |starts|
            && forall k :: 0 <= k < |starts| ==> shadows[k].Shadow? && shadows[k].origin == starts[k]
  {
    hide RelayDispatch.Image, Select;
    if ms == [] {
      assert Shadows([]) == [] by { NoShadows(); }
    } else {
      var init, last := ms[..|ms| - 1], ms[|ms| - 1];
      ImagesAtMost(cfg, init);
      ShadowsOfImages(cfg, init);
      var image := RelayDispatch.Image(cfg, init, last);
      assert image.Some?;
      ImageOrigin(cfg, init, last);
      SelectAppend(RelayDispatch.Images(cfg, init), image.value, SHADOWS);
    }
  }

  /** The message whose shadow has the id numbered k is the k-th thread/start that was forwarded. */
  lemma ShadowNumbered(cfg: Config, out: seq<Sent>, ms: seq<Held>, k: nat, origin: Json)
    requires RelayDispatch.Forwarded(cfg, out, ms) && WireThreads(cfg, out) && |StartMessages(ms)| <= U64_MAX
    requires ShadowOf(out, Ids.MetadataId(cfg.environmentId, k), origin)
    ensures 1 <= k <= |StartMessages(ms)| && origin == StartMessages(ms)[k - 1]
  {
    hide RelayDispatch.Images, Ids.MetadataId, StartMessages, StartsFor, Issued, Select;
    SelectTwice(out, FORWARDS, SHADOWS);
    ShadowsOfImages(cfg, ms);
    var j :| 0 <= j < |out| && out[j].Shadow? && out[j].id == Ids.MetadataId(cfg.environmentId, k) && out[j].origin == origin;
    SelectHas(out, SHADOWS, j);
    var t :| 0 <= t < |Shadows(out)| && Shadows(out)[t] == out[j];
    assert Shadows(out)[t].id == Ids.MetadataId(cfg.environmentId, t + 1);
    Ids.InternalIdsDistinct(cfg.environmentId, Ids.Metadata(k), Ids.Metadata(t + 1));
  }

  /** m is request, except that its developerInstructions may differ. */
  ghost predicate SameButInstructions(request: Json, m: Json) {
    && (forall name :: name != "params" ==> Field(m, name) == Field(request, name))
    && var given, sent := ObjectField(request, "params"), ObjectField(m, "params");
      && given.Some? && sent.Some?
      && forall name :: name != "developerInstructions" ==> Field(Obj(sent.value), name) == Field(Obj(given.value), name)
  }

  lemma RequestIsClients(id: string, p: Pending)
    requires EntryMid(id, p)
    ensures LocalRequest(p).Some? && SameButInstructions(p.localRequest, LocalRequest(p).value)
  {
    hide LocalRequest, ReadsOf, WithinBudget;
    RelayGather.RequestKeepsClientFields(id, p, "");
    var m := LocalRequest(p).value;
    var given, sent := ObjectField(p.localRequest, "params").value, ObjectField(m, "params").value;
    forall name | name != "params" ensures Field(m, name) == Field(p.localRequest, name) {
      RelayGather.RequestKeepsClientFields(id, p, name);
    }
    forall name | name != "developerInstructions" ensures Field(Obj(sent), name) == Field(Obj(given), name) {
      RelayGather.RequestKeepsClientFields(id, p, name);
    }
  }

  /** The k-th of the thread/start messages is the one an id, a request and an answer belong to. */
  ghost predicate BelongsTo(cfg: Config, frame: Sent, starts: seq<Json>) {
    match frame
    case LocalStart(id, m) =>
      exists k: nat :: && 1 <= k <= |starts| && id == Ids.MetadataId(cfg.environmentId, k)
                       && SameButInstructions(starts[k - 1], m)
    case ClientThreadStart(id, response, _) =>
      exists k: nat :: && 1 <= k <= |starts| && id == Ids.MetadataId(cfg.environmentId, k)
                       && Field(starts[k - 1], "id").Some? && Field(response, "id") == Field(starts[k - 1], "id")
    case _ => true
  }

  ghost predicate EntryBelongs(cfg: Config, id: string, p: Pending, starts: seq<Json>) {
    exists k: nat :: && 1 <= k <= |starts| && id == Ids.MetadataId(cfg.environmentId, k)
                     && p.localRequest == starts[k - 1] && Field(starts[k - 1], "id") == Some(p.clientId)
  }

  /** Every shadow on the wire has one of the ids 1, 2, 3, .... */
  lemma ShadowHasNumber(cfg: Config, out: seq<Sent>, id: string, origin: Json)
    requires WireThreads(cfg, out) && |Shadows(out)| <= U64_MAX && ShadowOf(out, id, origin)
    ensures exists k: nat :: id == Ids.MetadataId(cfg.environmentId, k)
  {
    hide Ids.MetadataId, StartsFor, Issued, Select;
    var j :| 0 <= j < |out| && out[j].Shadow? && out[j].id == id && out[j].origin == origin;
    SelectHas(out, SHADOWS, j);
    var t :| 0 <= t < |Shadows(out)| && Shadows(out)[t] == out[j];
    assert id == Ids.MetadataId(cfg.environmentId, t + 1);
  }

  lemma NumberOf(cfg: Config, out: seq<Sent>, ms: seq<Held>, id: string, origin: Json) returns (k: nat)
    requires RelayDispatch.Forwarded(cfg, out, ms) && WireThreads(cfg, out) && |StartMessages(ms)| <= U64_MAX
    requires ShadowOf(out, id, origin)
    ensures 1 <= k <= |StartMessages(ms)| && origin == StartMessages(ms)[k - 1] && id == Ids.MetadataId(cfg.environmentId, k)
  {
    hide RelayDispatch.Images, Ids.MetadataId, StartMessages, StartsFor, Issued, Select, ShadowOf, Numbered;
    SelectTwice(out, FORWARDS, SHADOWS);
    ShadowsOfImages(cfg, ms);
    ShadowHasNumber(cfg, out, id, origin);
    k :| id == Ids.MetadataId(cfg.environmentId, k);
    ShadowNumbered(cfg, out, ms, k, origin);
  }

  lemma ShadowOfLonger(before: seq<Sent>, after: seq<Sent>, id: string, origin: Json)
    requires before <= after && ShadowOf(before, id, origin)
    ensures ShadowOf(after, id, origin)
  {
    var j :| 0 <= j < |before| && before[j].Shadow? && before[j].id == id && before[j].origin == origin;
    assert after[j] == before[j];
  }

  lemma FrameBelongs(cfg: Config, out: seq<Sent>, ms: seq<Held>, i: nat)
    requires RelayDispatch.Forwarded(cfg, out, ms) && WireThreads(cfg, out) && |StartMessages(ms)| <= U64_MAX
    requires AllJustified(out) && i < |out|
    ensures BelongsTo(cfg, out[i], StartMessages(ms))
  {
    hide RelayDispatch.Forwarded, Ids.MetadataId, StartMessages, WireThreads, ShadowOf, Requested, LocalRequest, SameButInstructions, EntryMid;
    assert Justified(out[..i], out[i]);
    match out[i]
    case LocalStart(id, m) =>
      var p :| EntryMid(id, p) && ShadowOf(out[..i], id, p.localRequest) && LocalRequest(p) == Some(m);
      ShadowOfLonger(out[..i], out, id, p.localRequest);
      var k := NumberOf(cfg, out, ms, id, p.localRequest);
      RequestIsClients(id, p);
    case ClientThreadStart(id, response, _) =>
      var origin :| ShadowOf(out[..i], id, origin) && Field(origin, "id").Some? && Field(response, "id") == Field(origin, "id");
      ShadowOfLonger(out[..i], out, id, origin);
      var k := NumberOf(cfg, out, ms, id, origin);
    case _ =>
  }

  /** The first n of the received messages are those that were forwarded. */
  ghost predicate StartsMatch(cfg: Config, r: Step, received: seq<Held>, n: nat)
    requires n <= |received|
  {
    var starts := StartMessages(received[..n]);
    && RelayDispatch.Forwarded(cfg, Trace(r), received[..n])
    && (r.Next? ==> n + |r.state.queue| == |received|)
    && (|starts| <= U64_MAX ==>
          && (forall i :: 0 <= i < |Trace(r)| ==> BelongsTo(cfg, Trace(r)[i], starts))
          && (r.Next? ==> forall id :: id in r.state.pending ==> EntryBelongs(cfg, id, r.state.pending[id], starts)))
  }

  /** Over all runs, also those that fail: the k-th thread/start that was forwarded is what entry k holds and
      what its local request says, but for the instructions added to it; and an answer delivered for entry k
      carries the client's id of that message. */
  lemma StartsAreTheClients(cfg: Config, scope: Option<Scope>, events: seq<Event>)
    ensures var r, received := Run(cfg, Initial(scope), events), RelayDispatch.Received(cfg, Initial(scope), events);
            exists n: nat :: n <= |received| && StartsMatch(cfg, r, received, n)
  {
    hide Run, RelayDispatch.Received, RelayDispatch.Forwarded, RelayDispatch.QueueInv, WireThreads, ThreadInv,
         AllJustified, Backed, BelongsTo, EntryBelongs, StartMessages;
    var r, received := Run(cfg, Initial(scope), events), RelayDispatch.Received(cfg, Initial(scope), events);
    RelayDispatch.FirstInFirstOut(cfg, scope, events);
    ThreadStartsAccounted(cfg, scope, events);
    StartsBacked(cfg, scope, events);
    var n: nat;
    if r.Next? {
      n := |received| - |r.state.queue|;
    } else {
      n :| n <= |received| && RelayDispatch.Forwarded(cfg, r.sent, received[..n]);
    }
    var ms := received[..n];
    if |StartMessages(ms)| <= U64_MAX {
      forall i | 0 <= i < |Trace(r)| ensures BelongsTo(cfg, Trace(r)[i], StartMessages(ms)) {
        FrameBelongs(cfg, Trace(r), ms, i);
      }
      if r.Next? {
        forall id | id in r.state.pending ensures EntryBelongs(cfg, id, r.state.pending[id], StartMessages(ms)) {
          BackedBelongs(cfg, r.state.out, ms, id, r.state.pending[id]);
        }
      }
    }
    assert StartsMatch(cfg, r, received, n);
  }

  lemma BackedBelongs(cfg: Config, out: seq<Sent>, ms: seq<Held>, id: string, p: Pending)
    requires RelayDispatch.Forwarded(cfg, out, ms) && WireThreads(cfg, out) && |StartMessages(ms)| <= U64_MAX
    requires Backed(out, id, p)
    ensures EntryBelongs(cfg, id, p, StartMessages(ms))
  {
    hide RelayDispatch.Forwarded, Ids.MetadataId, StartMessages, WireThreads, ShadowOf, Requested;
    var k := NumberOf(cfg, out, ms, id, p.localRequest);
  }
}
