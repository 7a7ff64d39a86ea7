/** What reaches the desktop client: no answer to an internal request, and only owned threads in lists. */
module RelayDelivery {
  import opened Wrappers
  import opened Json
  import opened RelaySpec
  import opened RelayFrames
  import RelayInitialize
  import Ids

  const CLIENT: set<Kind> :=
    {ToClientInitialize, ToClientStart, ToClientList, ToClientFromServer, ToClientFromHost}

  // ---- Thread lists ------------------------------------------------------------------------

  /** The positions of the owned threads. */
  function Positions(threads: seq<Json>, ids: set<string>): seq<nat> {
    if threads == [] then []
    else
      Positions(threads[..|threads| - 1], ids)
        + (if OwnsThread(ids, threads[|threads| - 1]) then [|threads| - 1] else [])
  }

  /** Retain keeps every owned thread, no other, and the server's order. */
  lemma {:induction false} RetainedInOrder(threads: seq<Json>, ids: set<string>)
    ensures var at := Positions(threads, ids);
            && |at| == |Retain(threads, ids)|
            && (forall k :: 0 <= k < |at| ==> at[k] < |threads| && Retain(threads, ids)[k] == threads[at[k]]
                                              && OwnsThread(ids, threads[at[k]]))
            && (forall j, k :: 0 <= j < k < |at| ==> at[j] < at[k])
            && (forall i :: 0 <= i < |threads| && OwnsThread(ids, threads[i]) ==> i in at)
  {
    hide OwnsThread;
    if threads != [] {
      RetainedInOrder(threads[..|threads| - 1], ids);
      var before, at := Positions(threads[..|threads| - 1], ids), Positions(threads, ids);
      assert before <= at;
      forall i | 0 <= i < |threads| && OwnsThread(ids, threads[i]) ensures i in at {
        if i < |threads| - 1 {
          assert threads[..|threads| - 1][i] == threads[i];
          assert i in before;
        } else {
          assert at[|at| - 1] == i;
        }
      }
    }
  }

  /** With an enabled scope the two list members of the result are restricted to owned threads, and
      nothing else in the response changes; otherwise nothing does. */
  lemma FilterOnlyLists(response: Json, scope: Option<Scope>, name: string)
    ensures var r := FilterThreadList(response, scope);
            && (name != "result" ==> Field(r, name) == Field(response, name))
            && Field(r, "result").Some? == Field(response, "result").Some?
            && (Field(r, "result").Some? ==>
                  var before, after := Field(Field(response, "result").value, name), Field(Field(r, "result").value, name);
                  if scope.Some? && scope.value.enabled && (name == "data" || name == "threads") && before.Some? && before.value.Arr? then
                    after == Some(Arr(Retain(before.value.items, scope.value.threadIds)))
                  else after == before)
  {
    hide Retain;
  }

  /** A thread is owned exactly when its id member is a string among the ids. */
  lemma OwnsExactly(ids: set<string>, thread: Json)
    ensures OwnsThread(ids, thread) <==> exists id :: id in ids && thread.Obj? && "id" in thread.fields && thread.fields["id"] == Str(id)
  {
    if OwnsThread(ids, thread) {
      assert thread.fields["id"] == Str(StringField(thread, "id").value);
    }
  }

  /** The member name of object v is x. */
  predicate Member(v: Json, name: string, x: Json) {
    v.Obj? && name in v.fields && v.fields[name] == x
  }

  /** response names the thread it started: result.thread.id, in a response without an error. */
  ghost predicate NamesThread(response: Json, id: string) {
    && (forall x :: !Member(response, "error", x))
    && exists result, thread :: Member(response, "result", result) && Member(result, "thread", thread) && Member(thread, "id", Str(id))
  }

  /** The started thread is exactly the one that the response names, when its id is 1 to 256 bytes without control
      characters. */
  lemma StartedThreadExactly(response: Json, id: string)
    ensures StartedThread(response) == Some(id) <==>
              && NamesThread(response, id) && 1 <= |id| <= 256
              && forall i :: 0 <= i < |id| ==> ' ' <= id[i] && id[i] != 127 as char
  {
    if HasError(response) {
      assert Member(response, "error", response.fields["error"]);
    } else if StartedThread(response) == Some(id) {
      var result := Field(response, "result").value;
      var thread := Field(result, "thread").value;
      assert Member(response, "result", result) && Member(result, "thread", thread) && Member(thread, "id", Str(id));
      assert ValidThreadId(id);
    }
  }

  // ---- Which messages are proper for the client ------------------------------------------------

  /** v answers neither environment request. */
  predicate NoEnvironmentAnswer(cfg: Config, v: Json) {
    !IsAddResponse(cfg, v) && !IsStatusResponse(cfg, v)
  }

  /** The ids of the requests the bridge itself puts on the host's wire. */
  predicate HostId(id: Ids.InternalId) {
    id.HostInitialize? || id.Metadata? || id.Read?
  }

  ghost predicate Proper(cfg: Config, frame: Sent) {
    match frame
    case ClientInitialize(_, _, m) => NoEnvironmentAnswer(cfg, m)
    case ClientThreadStart(_, _, m) => NoEnvironmentAnswer(cfg, m)
    case ClientThreadList(response, scope, m) =>
      NoEnvironmentAnswer(cfg, m) && m == FilterThreadList(response, scope)
    case ClientFromServer(m) => NoEnvironmentAnswer(cfg, m)
    case ClientFromHost(m) => HostMessageAllowed(cfg, m)
    case _ => true
  }

  /** A message with an internal host id passes only if it is a host notification, never a response. */
  lemma AllowedIsNoAnswer(cfg: Config, m: Json, id: Ids.InternalId)
    requires HostId(id) && HasId(m, Ids.Render(cfg.environmentId, id))
    ensures HostMessageAllowed(cfg, m) <==> Method(m).Some? && Method(m).value in cfg.hostNotifications
  {
    hide Ids.Prefix, Ids.Decimal;
    var prefix := Ids.MetadataPrefix(cfg.environmentId);
    match id
    case HostInitialize =>
    case Metadata(n) =>
      assert (prefix + Ids.Decimal(n))[..|prefix|] == prefix;
    case Read(n, i) =>
      assert Ids.Render(cfg.environmentId, id) == prefix + (Ids.Decimal(n) + "/instruction/" + Ids.Decimal(i));
      assert (prefix + (Ids.Decimal(n) + "/instruction/" + Ids.Decimal(i)))[..|prefix|] == prefix;
  }

  /** What the filter of host messages lets pass: everything with an id that is not one of the bridge's own, and the
      allowed notifications. */
  lemma AllowedExactly(cfg: Config, m: Json)
    ensures HostMessageAllowed(cfg, m) <==>
              || (exists verb :: verb in cfg.hostNotifications && Member(m, "method", Str(verb)))
              || exists id :: Member(m, "id", id) && !OwnId(cfg, id)
  {
    hide Ids.HostInitializeId, Ids.MetadataPrefix, OwnId;
    if Method(m).Some? {
      assert Member(m, "method", Str(Method(m).value));
    }
    if Field(m, "id").Some? {
      assert Member(m, "id", Field(m, "id").value);
      OwnIdIs(cfg, Field(m, "id").value);
    }
  }

  lemma OwnIdIs(cfg: Config, id: Json)
    ensures OwnId(cfg, id) <==>
              id.Str? && (id.s == Ids.HostInitializeId(cfg.environmentId) || StartsWith(id.s, Ids.MetadataPrefix(cfg.environmentId)))
  {
  }

  /** id is that of host-initialize, or starts like those of shadows and reads. */
  predicate OwnId(cfg: Config, id: Json) {
    && id.Str?
    && (id.s == "cxs/" + cfg.environmentId + "/host-initialize" || "cxs/" + cfg.environmentId + "/thread-metadata/" <= id.s)
  }

  // ---- The scope -------------------------------------------------------------------------------

  /** The threads this connection has seen started. */
  function StartedIds(out: seq<Sent>): set<string> {
    if out == [] then {}
    else
      var last := out[|out| - 1];
      StartedIds(out[..|out| - 1])
        + (if last.ClientThreadStart? && StartedThread(last.response).Some? then {StartedThread(last.response).value} else {})
  }

  lemma {:induction false} StartedQuiet(before: seq<Sent>, after: seq<Sent>, kinds: set<Kind>)
    requires Emits(before, after, kinds) && ToClientStart !in kinds
    ensures StartedIds(after) == StartedIds(before)
    decreases |after|
  {
    hide StartedThread;
    if |after| > |before| {
      assert KindOf(after[|after| - 1]) in kinds;
      StartedQuiet(before, after[..|after| - 1], kinds);
    } else {
      assert after == before;
    }
  }

  /** The scope that starts as initial and has been told of the given threads. */
  function Grown(initial: Option<Scope>, ids: set<string>): Option<Scope> {
    if initial.Some? && initial.value.enabled then Some(initial.value.(threadIds := initial.value.threadIds + ids))
    else initial
  }

  /** smaller has the switch of larger, and no thread that larger lacks. */
  predicate Within(smaller: Option<Scope>, larger: Option<Scope>) {
    && smaller.Some? == larger.Some?
    && (smaller.Some? ==> smaller.value.enabled == larger.value.enabled && smaller.value.threadIds <= larger.value.threadIds)
  }

  /** extra are the threads other connections have recorded since this one began. */
  ghost predicate ScopeInv(initial: Option<Scope>, extra: set<string>, s: State) {
    && s.scope == Grown(initial, StartedIds(s.out) + extra)
    && Within(s.savedScope, s.scope)
    && forall i :: 0 <= i < |s.out| && s.out[i].ClientThreadList? ==> Within(s.out[i].scope, s.scope)
  }

  ghost predicate AllProper(cfg: Config, out: seq<Sent>) {
    forall i :: 0 <= i < |out| ==> Proper(cfg, out[i])
  }

  ghost predicate DeliveryInv(cfg: Config, initial: Option<Scope>, extra: set<string>, s: State) {
    && AllProper(cfg, s.out)
    && (s.localInit.Some? ==> NoEnvironmentAnswer(cfg, s.localInit.value))
    && ScopeInv(initial, extra, s)
  }

  ghost predicate Delivery(cfg: Config, initial: Option<Scope>, extra: set<string>, r: Step) {
    AllProper(cfg, Trace(r)) && (r.Next? ==> DeliveryInv(cfg, initial, extra, r.state))
  }

  /** A step that sends the client nothing the relay composed, and leaves the scope alone. */
  lemma QuietDelivery(cfg: Config, initial: Option<Scope>, extra: set<string>, s: State, r: Step, kinds: set<Kind>)
    requires DeliveryInv(cfg, initial, extra, s) && Emits(s.out, Trace(r), kinds) && kinds !! CLIENT
    requires r.Next? ==> r.state.scope == s.scope && r.state.savedScope == s.savedScope
                         && (r.state.localInit.Some? ==> r.state.localInit == s.localInit)
    ensures Delivery(cfg, initial, extra, r)
  {
    hide StartedIds, NoEnvironmentAnswer, HostMessageAllowed, FilterThreadList;
    StartedQuiet(s.out, Trace(r), kinds);
    forall i | 0 <= i < |Trace(r)| ensures Proper(cfg, Trace(r)[i]) {
      if i < |s.out| {
        assert Trace(r)[i] == s.out[i];
      } else {
        assert KindOf(Trace(r)[i]) in kinds;
      }
    }
    if r.Next? {
      forall i | 0 <= i < |r.state.out| && r.state.out[i].ClientThreadList? ensures Within(r.state.out[i].scope, r.state.scope) {
        assert KindOf(r.state.out[i]) == ToClientList;
        assert i < |s.out|;
        assert r.state.out[i] == s.out[i];
      }
    }
  }

  /** One proper frame to the client that is no thread start. */
  lemma OneDelivery(cfg: Config, initial: Option<Scope>, extra: set<string>, s: State, s': State, frame: Sent)
    requires DeliveryInv(cfg, initial, extra, s) && Proper(cfg, frame) && !frame.ClientThreadStart?
    requires s'.out == s.out + [frame] && s'.scope == s.scope && s'.savedScope == s.savedScope
    requires s'.localInit.Some? ==> s'.localInit == s.localInit
    requires frame.ClientThreadList? ==> frame.scope == s.scope
    ensures DeliveryInv(cfg, initial, extra, s')
  {
    hide NoEnvironmentAnswer, HostMessageAllowed, FilterThreadList, Proper, StartedThread;
    assert (s.out + [frame])[..|s.out|] == s.out;
    assert StartedIds(s'.out) == StartedIds(s.out);
    assert Within(s.scope, s.scope);
  }

  lemma SendInitializeDelivery(cfg: Config, initial: Option<Scope>, extra: set<string>, s: State)
    requires DeliveryInv(cfg, initial, extra, s)
    ensures Delivery(cfg, initial, extra, SendInitialize(cfg, s))
  {
    hide ScopeInv, CopyFields, TrimEndSlashes, Ids.AddId, Ids.StatusId, StartedIds;
    var r := SendInitialize(cfg, s);
    if !s.initSent && s.localInit.Some? && s.hostInit.Some? && r.Next? {
      var m := MergeInitialize(s.localInit.value, s.hostInit.value, cfg.remoteHome).value;
      assert Field(m, "id") == Field(s.localInit.value, "id");
      var frame := ClientInitialize(s.localInit.value, s.hostInit.value, m);
      assert Proper(cfg, frame);
      OneDelivery(cfg, initial, extra, s, r.state, frame);
    }
  }

  lemma TailDelivery(cfg: Config, initial: Option<Scope>, extra: set<string>, s: State)
    requires DeliveryInv(cfg, initial, extra, s)
    ensures Delivery(cfg, initial, extra, LoopTail(cfg, s))
  {
    hide SendInitialize, Drain, AllProper, ScopeInv, NoEnvironmentAnswer;
    SendInitializeDelivery(cfg, initial, extra, s);
    var step := SendInitialize(cfg, s);
    if step.Next? && IsReady(step.state) {
      DrainFrame(cfg, step.state);
      QuietDelivery(cfg, initial, extra, step.state, Drain(cfg, step.state), FORWARDS);
    }
  }

  lemma ThenTailDelivery(cfg: Config, initial: Option<Scope>, extra: set<string>, r: Step)
    requires Delivery(cfg, initial, extra, r)
    ensures Delivery(cfg, initial, extra, ThenTail(cfg, r))
  {
    hide LoopTail, AllProper, DeliveryInv;
    if r.Next? {
      TailDelivery(cfg, initial, extra, r.state);
    }
  }

  // ---- Recording threads -----------------------------------------------------------------------

  /** Recording a response grows the scope by the thread it started, and by nothing else. */
  lemma RecordGrows(initial: Option<Scope>, ids: set<string>, s: State, response: Json, saveWorks: bool)
    requires s.scope == Grown(initial, ids) && Within(s.savedScope, s.scope)
    ensures var r, id := RecordOwned(s, response, saveWorks), StartedThread(response);
            && r.scope == Grown(initial, ids + (if id.Some? then {id.value} else {}))
            && Within(s.scope, r.scope) && Within(r.savedScope, r.scope)
  {
    hide StartedThread, ValidThreadId;
    var id := StartedThread(response);
    var more := if id.Some? then {id.value} else {};
    if initial.Some? && initial.value.enabled {
      assert initial.value.threadIds + (ids + more) == (initial.value.threadIds + ids) + more;
      if id.None? || id.value in s.scope.value.threadIds {
        assert (initial.value.threadIds + ids) + more == initial.value.threadIds + ids;
      }
    }
  }

  lemma MergeThreadId(local: Json, host: Json)
    requires MergeThread(local, host).Some?
    ensures Field(MergeThread(local, host).value, "id") == Field(local, "id")
  {
    hide CopyFields;
  }

  /** theirs for the given names when they have it, else ours. */
  function Preferred(ours: Json, theirs: Json, names: seq<string>, name: string): Option<Json> {
    if name in names && Field(theirs, name).Some? then Field(theirs, name) else Field(ours, name)
  }

  /** The answer to thread/start keeps every member of the App Server's answer, except that the host's
      directory members of the result replace it, and within the thread its cwd and gitInfo. */
  lemma MergeThreadKeepsLocal(local: Json, host: Json, name: string)
    requires !HasError(local) && !HasError(host) && MergeThread(local, host).Some?
    ensures var m := MergeThread(local, host).value;
            && (name != "result" ==> Field(m, name) == Field(local, name))
            && Field(m, "result").Some?
            && var ours, theirs, after := Field(local, "result").value, Field(host, "result").value, Field(m, "result").value;
              && (name != "thread" ==> Field(after, name) == Preferred(ours, theirs, ["cwd", "runtimeWorkspaceRoots", "instructionSources"], name))
              && (if ThreadOf(ours).Some? && ThreadOf(theirs).Some? then
                    && ThreadOf(after).Some?
                    && Field(ThreadOf(after).value, name)
                       == Preferred(ThreadOf(ours).value, ThreadOf(theirs).value, ["cwd", "gitInfo"], name)
                  else Field(after, "thread") == Field(ours, "thread"))
  {
    hide CopyFields;
    var ours, theirs := Field(local, "result").value, Field(host, "result").value;
    RelayInitialize.CopiedField(theirs.fields, RESULT_FIELDS, ours.fields, name);
    RelayInitialize.CopiedField(theirs.fields, RESULT_FIELDS, ours.fields, "thread");
    if ThreadOf(ours).Some? && ThreadOf(theirs).Some? {
      RelayInitialize.CopiedField(ThreadOf(theirs).value.fields, THREAD_FIELDS, ThreadOf(ours).value.fields, name);
    }
  }

  /** An answer with an error, or to a shadow answered with one, is passed on as it is. */
  lemma ErrorsPassUnmerged(local: Json, host: Json)
    requires Field(local, "error").Some? || Field(host, "error").Some?
    ensures MergeThread(local, host) == Some(local)
  {
  }

  /** The thread object of a result. */
  function ThreadOf(result: Json): Option<Json> {
    var thread := Field(result, "thread");
    if thread.Some? && thread.value.Obj? then thread else None
  }

  lemma StartAnswerDelivery(cfg: Config, initial: Option<Scope>, extra: set<string>, s: State, id: string, v: Json, saveWorks: bool)
    requires DeliveryInv(cfg, initial, extra, s) && id in s.pending && NoEnvironmentAnswer(cfg, v)
    ensures Delivery(cfg, initial, extra, HandleStartAnswer(s, id, v, saveWorks))
  {
    hide MergeThread, StartedThread, RecordOwned, StartedIds, AllProper, Grown, NoEnvironmentAnswer;
    var r := HandleStartAnswer(s, id, v, saveWorks);
    var s1 := s.(pending := s.pending - {id});
    RecordGrows(initial, StartedIds(s.out) + extra, s1, v, saveWorks);
    RecordFrame(s1, v, saveWorks);
    if r.Next? {
      var frame := r.state.out[|s.out|];
      StartAnswerProper(cfg, s, id, v);
      ProperAppend(cfg, s.out, frame);
      StartedAppend(s.out, frame);
      var more := if StartedThread(v).Some? then {StartedThread(v).value} else {};
      assert StartedIds(s.out) + extra + more == StartedIds(r.state.out) + extra;
      ListsGrow(s.out, frame, s.scope, r.state.scope);
    }
  }

  lemma StartAnswerProper(cfg: Config, s: State, id: string, v: Json)
    requires id in s.pending && NoEnvironmentAnswer(cfg, v)
    ensures var p := s.pending[id];
            var m := if p.hostResponse.Some? then MergeThread(v, p.hostResponse.value) else Some(v);
            m.Some? ==> Proper(cfg, ClientThreadStart(id, v, m.value))
  {
    hide MergeThread, Ids.AddId, Ids.StatusId;
    var p := s.pending[id];
    if p.hostResponse.Some? && MergeThread(v, p.hostResponse.value).Some? {
      MergeThreadId(v, p.hostResponse.value);
    }
  }

  lemma ProperAppend(cfg: Config, out: seq<Sent>, frame: Sent)
    requires AllProper(cfg, out) && Proper(cfg, frame)
    ensures AllProper(cfg, out + [frame])
  {
    hide Proper;
  }

  lemma StartedAppend(out: seq<Sent>, frame: Sent)
    requires frame.ClientThreadStart?
    ensures var id := StartedThread(frame.response);
            StartedIds(out + [frame]) == StartedIds(out) + (if id.Some? then {id.value} else {})
  {
    hide StartedThread;
    assert (out + [frame])[..|out|] == out;
  }

  lemma ListsGrow(out: seq<Sent>, frame: Sent, scope: Option<Scope>, larger: Option<Scope>)
    requires forall i :: 0 <= i < |out| && out[i].ClientThreadList? ==> Within(out[i].scope, scope)
    requires Within(scope, larger) && !frame.ClientThreadList?
    ensures var after := out + [frame];
            forall i :: 0 <= i < |after| && after[i].ClientThreadList? ==> Within(after[i].scope, larger)
  {
    var after := out + [frame];
    forall i | 0 <= i < |after| && after[i].ClientThreadList? ensures Within(after[i].scope, larger) {
      assert after[i] == out[i];
    }
  }

  lemma ServerMessageDelivery(cfg: Config, initial: Option<Scope>, extra: set<string>, s: State, v: Json, order: seq<string>, saveWorks: bool)
    requires DeliveryInv(cfg, initial, extra, s) && NoEnvironmentAnswer(cfg, v)
    ensures Delivery(cfg, initial, extra, HandleServerMessage(cfg, s, v, order, saveWorks))
  {
    hide HandleStartAnswer, FilterThreadList, AddRequest, ScopeInv, AllProper, NoEnvironmentAnswer, FindAnswered;
    var r := HandleServerMessage(cfg, s, v, order, saveWorks);
    var answered, id := FindAnswered(order, s.pending, v), Field(v, "id");
    if IsInitializeResponse(s, v) {
      RegistrationDelivery(cfg, initial, extra, s, v);
    } else if answered.Some? {
      StartAnswerDelivery(cfg, initial, extra, s, answered.value, v, saveWorks);
    } else if id.Some? && id.value in s.listIds {
      FilterKeepsId(cfg, v, s.scope);
      var frame := ClientThreadList(v, s.scope, FilterThreadList(v, s.scope));
      assert Proper(cfg, frame);
      OneDelivery(cfg, initial, extra, s, r.state, frame);
      NextDelivery(cfg, initial, extra, r.state);
    } else {
      assert Proper(cfg, ClientFromServer(v));
      OneDelivery(cfg, initial, extra, s, r.state, ClientFromServer(v));
      NextDelivery(cfg, initial, extra, r.state);
    }
  }

  lemma RegistrationDelivery(cfg: Config, initial: Option<Scope>, extra: set<string>, s: State, v: Json)
    requires DeliveryInv(cfg, initial, extra, s) && NoEnvironmentAnswer(cfg, v)
    ensures Delivery(cfg, initial, extra, BeginRegistration(cfg, s, v))
  {
    hide ScopeInv, AllProper, NoEnvironmentAnswer, AddRequest;
    var s1 := s.(localInit := None);
    var sent := s.(phase := Registering, localInit := None, out := s.out + [EnvironmentAdd(AddRequest(cfg))]);
    assert Emits(s.out, sent.out, {ToServerAdd});
    QuietDelivery(cfg, initial, extra, s, Next(sent), {ToServerAdd});
    assert AllProper(cfg, s.out);
    assert ScopeInv(initial, extra, sent.(localInit := Some(v))) by { ScopeIgnoresInit(initial, extra, sent, v); }
  }

  lemma ScopeIgnoresInit(initial: Option<Scope>, extra: set<string>, s: State, v: Json)
    requires ScopeInv(initial, extra, s)
    ensures ScopeInv(initial, extra, s.(localInit := Some(v)))
  {
  }

  lemma NextDelivery(cfg: Config, initial: Option<Scope>, extra: set<string>, s: State)
    requires DeliveryInv(cfg, initial, extra, s)
    ensures Delivery(cfg, initial, extra, Next(s))
  {
  }

  lemma FilterKeepsId(cfg: Config, v: Json, scope: Option<Scope>)
    requires NoEnvironmentAnswer(cfg, v)
    ensures NoEnvironmentAnswer(cfg, FilterThreadList(v, scope))
  {
    hide FilterThreadList, Ids.AddId, Ids.StatusId;
    FilterOnlyLists(v, scope, "id");
  }

  lemma HostMessageDelivery(cfg: Config, initial: Option<Scope>, extra: set<string>, s: State, v: Json, order: seq<string>)
    requires DeliveryInv(cfg, initial, extra, s)
    ensures Delivery(cfg, initial, extra, HandleHostMessage(cfg, s, v, order))
  {
    hide HandleThreadReply, HandleReadReply, HostMessageAllowed, ScopeInv, AllProper, NoEnvironmentAnswer;
    var r := HandleHostMessage(cfg, s, v, order);
    var id := StringField(v, "id");
    if id == Some(Ids.HostInitializeId(cfg.environmentId)) {
      QuietDelivery(cfg, initial, extra, s, r, {});
    } else if id.Some? && id.value in s.pending {
      ThreadReplyFrame(s, id.value, v);
      QuietDelivery(cfg, initial, extra, s, r, {ToServerStart, ToHostRead});
    } else {
      var reader := if id.Some? then FindReader(order, s.pending, id.value) else None;
      if reader.Some? {
        ReadReplyFrame(cfg, s, reader.value, id.value, v);
        QuietDelivery(cfg, initial, extra, s, r, {ToServerStart});
      } else if HostMessageAllowed(cfg, v) {
        assert Proper(cfg, ClientFromHost(v));
        OneDelivery(cfg, initial, extra, s, r.state, ClientFromHost(v));
        NextDelivery(cfg, initial, extra, r.state);
      } else {
        NextDelivery(cfg, initial, extra, s);
      }
    }
  }

  /** The threads that an event records for another connection. */
  function Elsewhere(e: Event): set<string> {
    if e.ScopeElsewhere? && StartedThread(e.response).Some? then {StartedThread(e.response).value} else {}
  }

  lemma ElsewhereDelivery(cfg: Config, initial: Option<Scope>, extra: set<string>, s: State, response: Json, saveWorks: bool)
    requires DeliveryInv(cfg, initial, extra, s)
    ensures var more := if StartedThread(response).Some? then {StartedThread(response).value} else {};
            Delivery(cfg, initial, extra + more, Next(RecordOwned(s, response, saveWorks)))
  {
    hide StartedThread, RecordOwned, NoEnvironmentAnswer, HostMessageAllowed, FilterThreadList, StartedIds;
    var more := if StartedThread(response).Some? then {StartedThread(response).value} else {};
    RecordGrows(initial, StartedIds(s.out) + extra, s, response, saveWorks);
    RecordFrame(s, response, saveWorks);
    assert StartedIds(s.out) + extra + more == StartedIds(s.out) + (extra + more);
  }

  lemma DeliveryTurn(cfg: Config, initial: Option<Scope>, extra: set<string>, s: State, e: Event)
    requires DeliveryInv(cfg, initial, extra, s)
    ensures Delivery(cfg, initial, extra + Elsewhere(e), Handle(cfg, s, e))
  {
    hide LoopTail, HandleHostMessage, HandleServerMessage, HandleClientText, RecordOwned, SendExpired,
         HandleStatus, BeginStatusPoll, DeliveryInv, Delivery, StartedThread;
    assert !e.ScopeElsewhere? ==> extra + Elsewhere(e) == extra;
    match e
    case ClientText(text) =>
      ClientTextDelivery(cfg, initial, extra, s, text);
      ThenTailDelivery(cfg, initial, extra, HandleClientText(cfg, s, text));
    case ServerText(text, order, saveWorks) =>
      if text.None? {
        QuietDelivery(cfg, initial, extra, s, Failed(s.out), {});
      } else if IsAddResponse(cfg, text.value) {
        StatusPollFrame(cfg, s, text.value);
        QuietDelivery(cfg, initial, extra, s, BeginStatusPoll(cfg, s, text.value), {ToServerStatus});
      } else if IsStatusResponse(cfg, text.value) {
        StatusFrame(cfg, s, text.value);
        QuietDelivery(cfg, initial, extra, s, HandleStatus(cfg, s, text.value), FORWARDS + {ToServerStatus});
      } else {
        ServerMessageDelivery(cfg, initial, extra, s, text.value, order, saveWorks);
        ThenTailDelivery(cfg, initial, extra, HandleServerMessage(cfg, s, text.value, order, saveWorks));
      }
    case ClientOther(frame) =>
      QuietDelivery(cfg, initial, extra, s, Next(Send(s, ServerFrame(frame))), {ToServerFrame});
      ThenTailDelivery(cfg, initial, extra, Next(Send(s, ServerFrame(frame))));
    case ServerOther(frame) =>
      QuietDelivery(cfg, initial, extra, s, Next(Send(s, ClientFrame(frame))), {ToClientFrame});
      ThenTailDelivery(cfg, initial, extra, Next(Send(s, ClientFrame(frame))));
    case HostLine(line, order) =>
      if line.None? {
        QuietDelivery(cfg, initial, extra, s, Failed(s.out), {});
      } else {
        HostMessageDelivery(cfg, initial, extra, s, line.value, order);
        ThenTailDelivery(cfg, initial, extra, HandleHostMessage(cfg, s, line.value, order));
      }
    case Gone => QuietDelivery(cfg, initial, extra, s, Closed(s.out), {});
    case Broken => QuietDelivery(cfg, initial, extra, s, Failed(s.out), {});
    case Expiry(expired) =>
      SendExpiredFrame(s, expired);
      QuietDelivery(cfg, initial, extra, s, SendExpired(s, expired), {ToServerStart});
      ThenTailDelivery(cfg, initial, extra, SendExpired(s, expired));
    case ScopeElsewhere(response, saveWorks) =>
      ElsewhereDelivery(cfg, initial, extra, s, response, saveWorks);
  }

  lemma ClientTextDelivery(cfg: Config, initial: Option<Scope>, extra: set<string>, s: State, text: Option<Json>)
    requires DeliveryInv(cfg, initial, extra, s)
    ensures Delivery(cfg, initial, extra, HandleClientText(cfg, s, text))
  {
    hide AcceptClientText, Rewrite, DeliveryInv, Delivery;
    if text.Some? && Rewrite(cfg, text.value).Some? {
      AcceptFrame(cfg, s, Rewrite(cfg, text.value).value);
    }
    QuietDelivery(cfg, initial, extra, s, HandleClientText(cfg, s, text), FORWARDS + {ToServerInitialize, ToHostInitialize});
  }

  // ---- Over all runs -----------------------------------------------------------------------------

  ghost function ElsewhereIds(cfg: Config, s: State, events: seq<Event>): set<string> {
    if events == [] then {}
    else
      var before, e := Run(cfg, s, events[..|events| - 1]), events[|events| - 1];
      ElsewhereIds(cfg, s, events[..|events| - 1])
        + (if before.Next? && Enabled(before.state, e) then Elsewhere(e) else {})
  }

  /** Over all runs. On the wires: every message to the client is proper. In every reachable state:
      the scope is the initial one plus exactly the threads whose start was delivered or recorded elsewhere, the
      stored scope never runs ahead of it, and every thread list was filtered by a part of it. */
  lemma {:induction false} DeliveredProperly(cfg: Config, initial: Option<Scope>, events: seq<Event>)
    ensures Delivery(cfg, initial, ElsewhereIds(cfg, Initial(initial), events), Run(cfg, Initial(initial), events))
  {
    hide Handle, AllProper, DeliveryInv;
    var s0 := Initial(initial);
    if events == [] {
      InitialDelivery(cfg, initial);
    } else {
      var init, e := events[..|events| - 1], events[|events| - 1];
      DeliveredProperly(cfg, initial, init);
      var before := Run(cfg, s0, init);
      if before.Next? && Enabled(before.state, e) {
        DeliveryTurn(cfg, initial, ElsewhereIds(cfg, s0, init), before.state, e);
      } else {
        assert ElsewhereIds(cfg, s0, events) == ElsewhereIds(cfg, s0, init);
      }
    }
  }

  lemma InitialDelivery(cfg: Config, initial: Option<Scope>)
    ensures Delivery(cfg, initial, {}, Next(Initial(initial)))
  {
    if initial.Some? {
      assert initial.value.threadIds + ({} + {}) == initial.value.threadIds;
    }
  }

  /** No answer to an internal request is ever delivered, however late it comes. */
  lemma NoInternalAnswerDelivered(cfg: Config, initial: Option<Scope>, events: seq<Event>, i: nat, id: Ids.InternalId)
    requires i < |Trace(Run(cfg, Initial(initial), events))|
    ensures var frame := Trace(Run(cfg, Initial(initial), events))[i];
            && (frame.ClientFromHost? && HostId(id) && HasId(frame.message, Ids.Render(cfg.environmentId, id)) ==>
                  Method(frame.message).Some? && Method(frame.message).value in cfg.hostNotifications)
            && (KindOf(frame) in CLIENT && !frame.ClientFromHost? && !HostId(id) ==>
                  !HasId(frame.message, Ids.Render(cfg.environmentId, id)))
  {
    hide Run, HostMessageAllowed, FilterThreadList, Ids.MetadataId, Ids.ReadId, Ids.AddId, Ids.StatusId, Ids.HostInitializeId, DeliveryInv;
    DeliveredProperly(cfg, initial, events);
    var frame := Trace(Run(cfg, Initial(initial), events))[i];
    assert Proper(cfg, frame);
    if frame.ClientFromHost? && HostId(id) && HasId(frame.message, Ids.Render(cfg.environmentId, id)) {
      AllowedIsNoAnswer(cfg, frame.message, id);
    }
  }
}
