/** The mutable parts both relays are built from, and the in-place edits they make to messages. */
module RelayParts {
  import opened Wrappers
  import opened Json
  import opened RelaySpec
  import opened RelayThreads
  import Ids

  /** The registration of one connection's execution environment. */
  class EnvironmentRegistration {
    const cfg: Config
    var initializeId: Option<Json>
    var phase: Phase

    constructor (cfg: Config)
      ensures this.cfg == cfg && initializeId == None && phase == WaitingForInitialize
    {
      this.cfg, initializeId, phase := cfg, None, WaitingForInitialize;
    }

    /** The environment/add request, unless initialize failed. */
    method BeginRegistration(v: Json) returns (request: Option<Json>)
      modifies this`phase
      ensures if HasError(v) then request == None && phase == old(phase)
              else request == Some(AddRequest(cfg)) && phase == Registering
    {
      if HasError(v) {
        return None;
      }
      phase := Registering;
      request := Some(AddRequest(cfg));
    }

    /** The first environment/status request, unless environment/add failed. */
    method BeginStatusPoll(v: Json) returns (request: Option<Json>)
      modifies this`phase
      ensures if HasError(v) then request == None && phase == old(phase)
              else request == Some(StatusRequest(cfg)) && phase == Polling(1)
    {
      if HasError(v) {
        return None;
      }
      phase := Polling(1);
      request := Some(StatusRequest(cfg));
    }

    /** ok is false when the response is an error, ill-formed, unsolicited, or one too many; otherwise
        a request means that polling goes on, and none that the environment is ready. */
    method HandleStatusResponse(v: Json) returns (ok: bool, request: Option<Json>)
      modifies this`phase
      ensures ok <==> StatusReady(v) == Some(true)
                      || (StatusReady(v) == Some(false) && old(phase).Polling? && old(phase).attempts < MAX_STATUS_ATTEMPTS)
      ensures ok && StatusReady(v) == Some(true) ==> request == None && phase == Ready
      ensures ok && StatusReady(v) == Some(false) ==>
                request == Some(StatusRequest(cfg)) && phase == Polling(old(phase).attempts + 1)
    {
      hide StatusRequest;
      var ready := StatusReady(v);
      if ready.None? {
        return false, None;
      }
      if ready.value {
        phase := Ready;
        return true, None;
      }
      if !phase.Polling? {
        return false, None;
      }
      phase := Polling(phase.attempts + 1);
      if phase.attempts > MAX_STATUS_ATTEMPTS {
        return false, None;
      }
      return true, Some(StatusRequest(cfg));
    }

    /** rewrite_client_message, which also notes the id of an initialize request. */
    method RewriteClientMessage(raw: Json) returns (message: Option<Json>)
      modifies this`initializeId
      ensures message == Rewrite(cfg, raw)
      ensures message.Some? ==>
                initializeId == if Method(raw) == Some("initialize") then Field(raw, "id") else old(initializeId)
    {
      hide Environments;
      var verb := Method(raw);
      if verb == Some("initialize") {
        initializeId := Field(raw, "id");
        if initializeId.None? {
          return None;
        }
        var params := ObjectField(raw, "params");
        if params.None? {
          return None;
        }
        var capabilities := ObjectField(Obj(params.value), "capabilities");
        if capabilities.None? {
          return None;
        }
        var edited := capabilities.value["experimentalApi" := Bool(true)];
        message := Some(With(raw, "params", Obj(params.value["capabilities" := Obj(edited)])));
      } else if verb == Some("thread/start") || verb == Some("turn/start") {
        var params := ObjectField(raw, "params");
        if params.None? {
          return None;
        }
        var edited := params.value;
        var cwd := StringField(Obj(edited), "cwd");
        if cwd.Some? {
          edited := edited["environments" := Environments(cfg, cwd.value)];
        } else if verb == Some("thread/start") {
          return None;
        } else {
          edited := edited - {"environments"};
        }
        message := Some(With(raw, "params", Obj(edited)));
      } else {
        message := Some(raw);
      }
    }
  }

  /** The thread scope one bridge shares between its connections, in memory and as stored. */
  class ScopeHandle {
    var memory: Option<Scope>
    var stored: Option<Scope>

    constructor (loaded: Option<Scope>)
      ensures memory == loaded && stored == loaded
    {
      memory, stored := loaded, loaded;
    }

    /** record_owned_thread, with SessionScope::record_thread and save_session_scope. */
    method RecordOwnedThread(response: Json, saveWorks: bool)
      modifies this
      ensures var r := RecordOwned(Initial(old(memory)).(savedScope := old(stored)), response, saveWorks);
              memory == r.scope && stored == r.savedScope
    {
      hide StartedThread;
      var id := StartedThread(response);
      if id.None? || memory.None? || !memory.value.enabled {
        return;
      }
      if id.value in memory.value.threadIds {
        return;
      }
      memory := Some(memory.value.(threadIds := memory.value.threadIds + {id.value}));
      if saveWorks && forall t :: t in memory.value.threadIds ==> ValidThreadId(t) {
        stored := memory;
      }
    }

    /** filter_thread_list_response. */
    method FilterThreadListResponse(response: Json) returns (filtered: Json)
      ensures filtered == FilterThreadList(response, memory)
    {
      hide Retain;
      var result := Field(response, "result");
      if memory.None? || !memory.value.enabled || result.None? || !result.value.Obj? {
        return response;
      }
      var fields := result.value.fields;
      var names := ["data", "threads"];
      var ids := memory.value.threadIds;
      var i := 0;
      while i < 2
        invariant 0 <= i <= 2
        invariant fields == if i == 0 then result.value.fields
                            else if i == 1 then RetainIn(result.value.fields, "data", ids)
                            else RetainIn(RetainIn(result.value.fields, "data", ids), "threads", ids)
      {
        if names[i] in fields && fields[names[i]].Arr? {
          var kept := RetainOwned(fields[names[i]].items, ids);
          fields := fields[names[i] := Arr(kept)];
        }
        i := i + 1;
      }
      filtered := With(response, "result", Obj(fields));
    }
  }

  method RetainOwned(threads: seq<Json>, ids: set<string>) returns (kept: seq<Json>)
    ensures kept == Retain(threads, ids)
  {
    kept := [];
    var i := 0;
    while i < |threads|
      invariant 0 <= i <= |threads|
      invariant kept == Retain(threads[..i], ids)
    {
      if OwnsThread(ids, threads[i]) {
        kept := kept + [threads[i]];
      }
      assert threads[..i + 1][..i] == threads[..i];
      i := i + 1;
    }
    assert threads[..i] == threads;
  }

  method CopyInto(from: map<string, Json>, names: seq<string>, into: map<string, Json>) returns (edited: map<string, Json>)
    ensures edited == CopyFields(from, names, into)
  {
    edited := into;
    var i := 0;
    while i < |names|
      invariant 0 <= i <= |names|
      invariant edited == CopyFields(from, names[..i], into)
    {
      if names[i] in from {
        edited := edited[names[i] := from[names[i]]];
      }
      assert names[..i + 1][..i] == names[..i];
      i := i + 1;
    }
    assert names[..i] == names;
  }

  method MergeInitializeResponse(local: Json, host: Json, remoteHome: Option<string>) returns (merged: Option<Json>)
    ensures merged == MergeInitialize(local, host, remoteHome)
  {
    hide CopyFields, TrimEndSlashes;
    var localResult, hostResult := Field(local, "result"), Field(host, "result");
    if HasError(host) || localResult.None? || !localResult.value.Obj? || hostResult.None? || !hostResult.value.Obj? {
      return None;
    }
    var fields := CopyInto(hostResult.value.fields, IDENTITY_FIELDS, localResult.value.fields);
    if remoteHome.Some? {
      fields := fields["codexHome" := Str(TrimEndSlashes(remoteHome.value) + "/.codex")];
    }
    merged := Some(With(local, "result", Obj(fields)));
  }

  method MergeThreadMetadata(local: Json, host: Json) returns (merged: Option<Json>)
    ensures merged == MergeThread(local, host)
  {
    hide CopyFields;
    if HasError(local) || HasError(host) {
      return Some(local);
    }
    var localResult, hostResult := Field(local, "result"), Field(host, "result");
    if localResult.None? || !localResult.value.Obj? || hostResult.None? || !hostResult.value.Obj? {
      return None;
    }
    var fields := CopyInto(hostResult.value.fields, RESULT_FIELDS, localResult.value.fields);
    var hostThread, localThread := Field(hostResult.value, "thread"), Field(Obj(fields), "thread");
    if hostThread.Some? && hostThread.value.Obj? && localThread.Some? && localThread.value.Obj? {
      var thread := CopyInto(hostThread.value.fields, THREAD_FIELDS, localThread.value.fields);
      fields := fields["thread" := Obj(thread)];
    }
    merged := Some(With(local, "result", Obj(fields)));
  }

  /** The sum over the stored texts. */
  method SumTextBytes(contents: map<string, string>) returns (total: nat)
    ensures total == TextBytes(contents)
  {
    hide TextBytes;
    total := 0;
    var rest := contents;
    while rest != map[]
      invariant total + TextBytes(rest) == TextBytes(contents)
      decreases |rest|
    {
      var path :| path in rest;
      TextBytesSplit(rest, path);
      total := total + |rest[path]|;
      rest := rest - {path};
    }
    NoTextBytes();
  }

  lemma NoTextBytes()
    ensures TextBytes(map[]) == 0
  {
  }

  /** record_instruction_read on one entry; None is its error. */
  method RecordInstructionRead(cfg: Config, p: Pending, readId: string, v: Json) returns (recorded: Option<Pending>)
    requires readId in p.outstanding
    ensures recorded == RecordRead(cfg, p, readId, v)
  {
    hide TextBytes;
    var path := p.outstanding[readId];
    var entry := p.(outstanding := p.outstanding - {readId});
    var data := ReplyData(v);
    if data.None? {
      return Some(entry);
    }
    var bytes := cfg.decodeBase64(data.value);
    if bytes.None? || |bytes.value| > MAX_INSTRUCTION_SOURCE_BYTES {
      return None;
    }
    var total := SumTextBytes(entry.contents);
    if SatAdd(total, |bytes.value|) > MAX_INSTRUCTION_TOTAL_BYTES || !cfg.validUtf8(bytes.value) {
      return None;
    }
    recorded := Some(entry.(contents := entry.contents[path := bytes.value]));
  }
}
