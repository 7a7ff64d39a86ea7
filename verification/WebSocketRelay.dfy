/** The event loop of relay_websocket over its mutable state, proved against RelaySpec. */
module WebSocketRelay {
  import opened Wrappers
  import opened Json
  import opened RelaySpec
  import opened RelayParts
  import Ids

  class Relay {
    const cfg: Config
    const registration: EnvironmentRegistration
    const scope: ScopeHandle
    var localInit: Option<Json>
    var hostInit: Option<Json>
    var initSent: bool
    var queue: seq<Held>
    var queuedBytes: nat
    var sequence: nat
    var pending: map<string, Pending>
    var listIds: set<Json>
    /** Everything put on the three wires so far. */
    var out: seq<Sent>

    constructor (cfg: Config, scope: ScopeHandle)
      ensures fresh(registration) && this.scope == scope && this.cfg == cfg && registration.cfg == cfg
      ensures View() == Initial(scope.memory).(savedScope := scope.stored)
    {
      this.cfg, this.scope := cfg, scope;
      var created := new EnvironmentRegistration(cfg);
      registration := created;
      localInit, hostInit, initSent := None, None, false;
      queue, queuedBytes, sequence := [], 0, 0;
      pending, listIds, out := map[], {}, [];
    }

    ghost predicate Valid() {
      registration.cfg == cfg
    }

    /** The state of RelaySpec that the fields represent. */
    function View(): State
      reads this, registration, scope
    {
      State(registration.initializeId, registration.phase, localInit, hostInit, initSent, queue, queuedBytes, sequence,
            pending, listIds, scope.memory, scope.stored, out)
    }

    /** The relay went on, or failed, as step says. */
    ghost predicate Follows(ok: bool, step: Step)
      reads this, registration, scope
    {
      if ok then step == Next(View()) else step == Failed(out)
    }

    method Send(frame: Sent)
      modifies this`out
      ensures out == old(out) + [frame]
    {
      out := out + [frame];
    }

    // ---- Forwarding ------------------------------------------------------------------------

    method ForwardClientMessage(m: Held) returns (ok: bool)
      requires Valid()
      modifies this`out, this`sequence, this`pending
      ensures Follows(ok, Forward(cfg, old(View()), m))
    {
      hide ShadowRequest, Ids.MetadataId;
      match m.route {
        case Local =>
          Send(ServerForward(m.message));
        case Host =>
          Send(HostForward(m.message));
        case ThreadStart =>
          var clientId := Field(m.message, "id");
          if clientId.None? {
            return false;
          }
          sequence := NextSequence(sequence);
          var id := Ids.MetadataId(cfg.environmentId, sequence);
          var shadow := ShadowRequest(m.message, id);
          if shadow.None? {
            return false;
          }
          Send(Shadow(id, m.message, shadow.value));
          pending := pending[id := Pending(clientId.value, m.message, None, map[], [], map[], false)];
      }
      return true;
    }

    method ForwardHeld() returns (ok: bool)
      requires Valid()
      modifies this`out, this`sequence, this`pending, this`queue, this`queuedBytes
      ensures Follows(ok, Drain(cfg, old(View())))
    {
      hide Forward;
      while queue != []
        invariant Drain(cfg, View()) == Drain(cfg, old(View()))
        decreases |queue|
      {
        var m := queue[0];
        ghost var before := View();
        queuedBytes := SatSub(queuedBytes, |cfg.encode(m.message)|);
        queue := queue[1..];
        assert View() == Dequeued(cfg, before);
        ok := ForwardClientMessage(m);
        if !ok {
          return false;
        }
      }
      return true;
    }

    // ---- The end of a turn -------------------------------------------------------------------

    method SendMergedInitialize() returns (ok: bool)
      modifies this`out, this`localInit, this`initSent
      ensures Follows(ok, SendInitialize(cfg, old(View())))
    {
      hide MergeInitialize;
      if !initSent && localInit.Some? && hostInit.Some? {
        var local := localInit.value;
        var merged := MergeInitializeResponse(local, hostInit.value, cfg.remoteHome);
        if merged.None? {
          return false;
        }
        localInit := None;
        Send(ClientInitialize(local, hostInit.value, merged.value));
        initSent := true;
      }
      return true;
    }

    method EndTurn() returns (ok: bool)
      requires Valid()
      modifies this
      ensures Follows(ok, LoopTail(cfg, old(View())))
    {
      hide Drain, SendInitialize;
      ok := SendMergedInitialize();
      if ok && registration.phase == Ready && initSent {
        ok := ForwardHeld();
      }
    }

    // ---- Client ------------------------------------------------------------------------------

    method OnClientText(text: Option<Json>) returns (ok: bool)
      requires Valid()
      modifies this, registration`initializeId
      ensures Follows(ok, ThenTail(cfg, HandleClientText(cfg, old(View()), text)))
    {
      hide LoopTail, AcceptClientText, Rewrite;
      if text.None? {
        return false;
      }
      ghost var id := registration.initializeId;
      var rewritten := registration.RewriteClientMessage(text.value);
      if rewritten.None? {
        return false;
      }
      RewriteKeepsHead(cfg, text.value);
      ok := OnClientMessage(id, rewritten.value);
      if ok {
        ok := EndTurn();
      }
    }

    /** The rest of the branch, when the rewriting has already noted the id of an initialize request. */
    method OnClientMessage(ghost id: Option<Json>, m: Json) returns (ok: bool)
      requires Valid()
      requires registration.initializeId == if Method(m) == Some("initialize") then Field(m, "id") else id
      modifies this`out, this`sequence, this`pending, this`queue, this`queuedBytes, this`listIds
      ensures Follows(ok, AcceptClientText(cfg, old(View()).(initializeId := id), m))
    {
      hide Forward, RequestRoute, Ids.HostInitializeId, SatAdd;
      var verb := Method(m);
      var route := RequestRoute(cfg, verb);
      if verb == Some("thread/list") && Field(m, "id").Some? {
        listIds := listIds + {Field(m, "id").value};
      }
      if verb == Some("initialize") {
        Send(HostInitialize(With(m, "id", Str(Ids.HostInitializeId(cfg.environmentId)))));
        Send(ServerInitialize(m));
      } else if registration.initializeId.Some? && !(registration.phase == Ready && initSent) {
        queuedBytes := SatAdd(queuedBytes, |cfg.encode(m)|);
        if queuedBytes > MAX_PENDING_CLIENT_BYTES {
          return false;
        }
        queue := queue + [Held(m, route)];
      } else {
        ok := ForwardClientMessage(Held(m, route));
        return ok;
      }
      return true;
    }

    // ---- App Server --------------------------------------------------------------------------

    method OnServerText(text: Option<Json>, order: seq<string>, saveWorks: bool) returns (ok: bool)
      requires Valid() && Lists(order, pending.Keys)
      modifies this, registration`phase, scope
      ensures Follows(ok, HandleServerText(cfg, old(View()), text, order, saveWorks))
    {
      hide LoopTail, HandleServerMessage, Drain, StatusReady, StatusRequest, Ids.AddId, Ids.StatusId;
      if text.None? {
        return false;
      }
      var v := text.value;
      if IsAddResponse(cfg, v) {
        var request := registration.BeginStatusPoll(v);
        if request.None? {
          return false;
        }
        Send(EnvironmentStatus(request.value));
        return true;
      }
      if IsStatusResponse(cfg, v) {
        ghost var before := View();
        var accepted, request := registration.HandleStatusResponse(v);
        if !accepted {
          return false;
        }
        if request.Some? {
          Send(EnvironmentStatus(request.value));
        } else if initSent {
          ok := ForwardHeld();
          return ok;
        }
        return true;
      }
      ok := OnServerMessage(v, order, saveWorks);
      if ok {
        ok := EndTurn();
      }
    }

    method OnServerMessage(v: Json, order: seq<string>, saveWorks: bool) returns (ok: bool)
      requires Valid() && Lists(order, pending.Keys)
      modifies this, registration`phase, scope
      ensures Follows(ok, HandleServerMessage(cfg, old(View()), v, order, saveWorks))
    {
      hide HandleStartAnswer, FilterThreadList, AddRequest, FindAnswered;
      if registration.phase == WaitingForInitialize && registration.initializeId.Some?
         && Field(v, "id") == registration.initializeId {
        var request := registration.BeginRegistration(v);
        if request.None? {
          return false;
        }
        localInit := Some(v);
        Send(EnvironmentAdd(request.value));
        return true;
      }
      var answered := FindAnswered(order, pending, v);
      if answered.Some? {
        ok := OnStartAnswer(answered.value, v, saveWorks);
        return ok;
      }
      var id := Field(v, "id");
      if id.Some? && id.value in listIds {
        listIds := listIds - {id.value};
        var filtered := scope.FilterThreadListResponse(v);
        Send(ClientThreadList(v, scope.memory, filtered));
      } else {
        Send(ClientFromServer(v));
      }
      return true;
    }

    method OnStartAnswer(id: string, v: Json, saveWorks: bool) returns (ok: bool)
      requires id in pending
      modifies this`pending, this`out, scope
      ensures Follows(ok, HandleStartAnswer(old(View()), id, v, saveWorks))
    {
      hide RecordOwned, MergeThread;
      ghost var before := View();
      var entry := pending[id];
      pending := pending - {id};
      scope.RecordOwnedThread(v, saveWorks);
      RecordOwnedLocal(before.(pending := pending), v, saveWorks);
      var merged := Some(v);
      if entry.hostResponse.Some? {
        merged := MergeThreadMetadata(v, entry.hostResponse.value);
      }
      if merged.None? {
        return false;
      }
      Send(ClientThreadStart(id, v, merged.value));
      return true;
    }

    // ---- Host --------------------------------------------------------------------------------

    method SendLocalThreadStart(id: string) returns (ok: bool)
      modifies this`pending, this`out
      ensures Follows(ok, SendLocal(old(View()), id))
    {
      hide LocalRequest;
      if id !in pending {
        return false;
      }
      if pending[id].localSent {
        return true;
      }
      var local := LocalRequest(pending[id]);
      if local.None? {
        return false;
      }
      Send(LocalStart(id, local.value));
      pending := pending[id := pending[id].(localSent := true)];
      return true;
    }

    method RequestInstructionReads(id: string, paths: seq<string>)
      requires id in pending
      modifies this`pending, this`out
      ensures View() == IssueReads(old(View()), id, paths, |paths|)
    {
      hide ReadRequest, Ids.ReadId;
      var index := 0;
      while index < |paths|
        invariant 0 <= index <= |paths|
        invariant id in pending
        invariant View() == IssueReads(old(View()), id, paths, index)
      {
        ghost var before := View();
        var readId := Ids.ReadId(id, index);
        var entry := pending[id];
        pending := pending[id := entry.(outstanding := entry.outstanding[readId := paths[index]])];
        Send(ReadFile(readId, ReadRequest(readId, paths[index])));
        assert View() == before.(pending := pending, out := before.out + [ReadFile(readId, ReadRequest(readId, paths[index]))]);
        index := index + 1;
      }
    }

    method OnThreadReply(id: string, v: Json) returns (ok: bool)
      requires id in pending
      modifies this`pending, this`out
      ensures Follows(ok, HandleThreadReply(old(View()), id, v))
    {
      hide SendLocal, IssueReads, InstructionPaths;
      if HasError(v) {
        ok := SendLocalThreadStart(id);
        return ok;
      }
      if pending[id].localSent {
        pending := pending[id := pending[id].(hostResponse := Some(v))];
        return true;
      }
      var paths := InstructionPaths(v);
      pending := pending[id := pending[id].(hostResponse := Some(v), paths := paths)];
      if paths == [] {
        ok := SendLocalThreadStart(id);
        return ok;
      }
      RequestInstructionReads(id, paths);
      return true;
    }

    method OnReadReply(id: string, readId: string, v: Json) returns (ok: bool)
      requires id in pending && readId in pending[id].outstanding
      modifies this`pending, this`out
      ensures Follows(ok, HandleReadReply(cfg, old(View()), id, readId, v))
    {
      hide SendLocal, RecordRead;
      var recorded := RecordInstructionRead(cfg, pending[id], readId, v);
      if recorded.None? {
        return false;
      }
      pending := pending[id := recorded.value];
      if recorded.value.outstanding == map[] {
        ok := SendLocalThreadStart(id);
        return ok;
      }
      return true;
    }

    method OnHostMessage(v: Json, order: seq<string>) returns (ok: bool)
      requires Lists(order, pending.Keys)
      modifies this`hostInit, this`pending, this`out
      ensures Follows(ok, HandleHostMessage(cfg, old(View()), v, order))
    {
      hide HandleThreadReply, HandleReadReply, HostMessageAllowed, Ids.HostInitializeId;
      var id := StringField(v, "id");
      if id == Some(Ids.HostInitializeId(cfg.environmentId)) {
        if HasError(v) {
          return false;
        }
        hostInit := Some(v);
        return true;
      }
      if id.Some? && id.value in pending {
        ok := OnThreadReply(id.value, v);
        return ok;
      }
      var reader := if id.Some? then FindReader(order, pending, id.value) else None;
      if reader.Some? {
        ok := OnReadReply(reader.value, id.value, v);
        return ok;
      }
      if HostMessageAllowed(cfg, v) {
        Send(ClientFromHost(v));
      }
      return true;
    }

    method OnHostLine(line: Option<Json>, order: seq<string>) returns (ok: bool)
      requires Valid() && Lists(order, pending.Keys)
      modifies this
      ensures Follows(ok, if line.None? then Failed(old(out)) else ThenTail(cfg, HandleHostMessage(cfg, old(View()), line.value, order)))
    {
      hide LoopTail, HandleHostMessage;
      if line.None? {
        return false;
      }
      ok := OnHostMessage(line.value, order);
      if ok {
        ok := EndTurn();
      }
    }

    // ---- Timeout -------------------------------------------------------------------------------

    method OnExpiry(expired: seq<string>) returns (ok: bool)
      requires Valid()
      modifies this
      ensures Follows(ok, ThenTail(cfg, SendExpired(old(View()), expired)))
    {
      hide LoopTail, SendLocal;
      var i := 0;
      while i < |expired|
        invariant 0 <= i <= |expired|
        invariant SendExpired(View(), expired[i..]) == SendExpired(old(View()), expired)
        invariant unchanged(registration) && unchanged(scope)
      {
        assert expired[i..][1..] == expired[i + 1..];
        ok := SendLocalThreadStart(expired[i]);
        if !ok {
          return false;
        }
        i := i + 1;
      }
      ok := EndTurn();
    }

    /** One turn of the loop. closed says that the relay ended in good order. */
    method Turn(e: Event) returns (ok: bool, closed: bool)
      requires Valid() && Enabled(View(), e)
      modifies this, registration, scope
      ensures if closed then !ok && Handle(cfg, old(View()), e) == Closed(out) else Follows(ok, Handle(cfg, old(View()), e))
      ensures Valid()
    {
      hide LoopTail, HandleClientText, HandleServerText, HandleHostMessage, SendExpired, RecordOwned;
      closed := false;
      match e {
        case ClientText(text) => ok := OnClientText(text);
        case ClientOther(frame) =>
          Send(ServerFrame(frame));
          ok := EndTurn();
        case ServerText(text, order, saveWorks) => ok := OnServerText(text, order, saveWorks);
        case ServerOther(frame) =>
          Send(ClientFrame(frame));
          ok := EndTurn();
        case HostLine(line, order) => ok := OnHostLine(line, order);
        case Gone => ok, closed := false, true;
        case Broken => ok := false;
        case Expiry(expired) => ok := OnExpiry(expired);
        case ScopeElsewhere(response, saveWorks) =>
          ghost var before := View();
          scope.RecordOwnedThread(response, saveWorks);
          RecordOwnedLocal(before, response, saveWorks);
          ok := true;
      }
    }

    /** The loop: events that cannot happen are skipped, and the first turn that ends the relay ends
        the loop. */
    method Serve(events: seq<Event>) returns (ok: bool, closed: bool)
      requires Valid()
      modifies this, registration, scope
      ensures if closed then Run(cfg, old(View()), events) == Closed(out) else Follows(ok, Run(cfg, old(View()), events))
    {
      hide Handle, Enabled;
      ok, closed := true, false;
      var i := 0;
      while i < |events|
        invariant 0 <= i <= |events| && Valid() && ok && !closed
        invariant Run(cfg, old(View()), events[..i]) == Next(View())
      {
        assert events[..i + 1][..i] == events[..i];
        if Enabled(View(), events[i]) {
          ok, closed := Turn(events[i]);
          if !ok {
            StoppedForGood(cfg, old(View()), events, i + 1);
            return ok, closed;
          }
        }
        i := i + 1;
      }
      assert events[..i] == events;
    }
  }

  /** A relay that has stopped stays stopped. */
  lemma {:induction false} StoppedForGood(cfg: Config, s: State, events: seq<Event>, k: nat)
    requires k <= |events| && !Run(cfg, s, events[..k]).Next?
    ensures Run(cfg, s, events) == Run(cfg, s, events[..k])
    decreases |events|
  {
    hide Handle;
    if k < |events| {
      assert events[..|events| - 1][..k] == events[..k];
      StoppedForGood(cfg, s, events[..|events| - 1], k);
    } else {
      assert events[..k] == events;
    }
  }

  lemma RewriteKeepsHead(cfg: Config, raw: Json)
    ensures var m := Rewrite(cfg, raw); m.Some? ==> Method(m.value) == Method(raw) && Field(m.value, "id") == Field(raw, "id")
  {
    hide Environments;
  }

  /** Recording looks at the scope alone. */
  lemma RecordOwnedLocal(s: State, response: Json, saveWorks: bool)
    ensures var r := RecordOwned(Initial(s.scope).(savedScope := s.savedScope), response, saveWorks);
            RecordOwned(s, response, saveWorks) == s.(scope := r.scope, savedScope := r.savedScope)
  {
    hide StartedThread, ValidThreadId;
  }
}
