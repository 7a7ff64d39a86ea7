/** What one connection of the bridge does with each event: the WebSocket relay as functions on
    its state. WebSocketRelay.dfy proves the event loop against these functions. */
module RelaySpec {
  import opened Wrappers
  import opened Json
  import Ids

  const MAX_PENDING_CLIENT_BYTES: nat := 32 * 1024 * 1024
  const MAX_INSTRUCTION_SOURCES: nat := 32
  const MAX_INSTRUCTION_SOURCE_BYTES: nat := 256 * 1024
  const MAX_INSTRUCTION_TOTAL_BYTES: nat := 512 * 1024
  const MAX_STATUS_ATTEMPTS: nat := 200
  const U64_MAX: nat := 0xFFFF_FFFF_FFFF_FFFF
  const MAX_THREAD_ID_BYTES: nat := 256

  /** The profile, the routing table, and the codecs the relay is built with. */
  datatype Config = Config(
    environmentId: string,
    localExecPort: nat,
    remoteHome: Option<string>,
    hostRequests: set<string>,
    hostNotifications: set<string>,
    encode: Json -> string,
    decodeBase64: string -> Option<string>,
    validUtf8: string -> bool)

  datatype Route = Local | Host | ThreadStart

  datatype Held = Held(message: Json, route: Route)

  datatype Phase =
    | WaitingForInitialize
    | Registering
    | Polling(attempts: nat)
    | Ready

  datatype Pending = Pending(
    clientId: Json,
    localRequest: Json,
    hostResponse: Option<Json>,
    outstanding: map<string, string>,
    paths: seq<string>,
    contents: map<string, string>,
    localSent: bool)

  datatype Scope = Scope(enabled: bool, threadIds: set<string>)

  /** One frame put on a wire. The constructor says which wire, and why it was sent. origin is the client's
      message that a shadow stands for, and id the entry that a frame of a thread start belongs to. */
  datatype Sent =
    // To the local App Server.
    | ServerInitialize(message: Json)
    | ServerForward(message: Json)
    | LocalStart(id: string, message: Json)
    | EnvironmentAdd(message: Json)
    | EnvironmentStatus(message: Json)
    | ServerFrame(frame: int)
    // To the remote Host App Server.
    | HostInitialize(message: Json)
    | HostForward(message: Json)
    | Shadow(id: string, origin: Json, message: Json)
    | ReadFile(id: string, message: Json)
    // To the desktop client.
    | ClientInitialize(local: Json, host: Json, message: Json)
    | ClientThreadStart(id: string, response: Json, message: Json)
    | ClientThreadList(response: Json, scope: Option<Scope>, message: Json)
    | ClientFromServer(message: Json)
    | ClientFromHost(message: Json)
    | ClientFrame(frame: int)

  datatype State = State(
    initializeId: Option<Json>,
    phase: Phase,
    localInit: Option<Json>,
    hostInit: Option<Json>,
    initSent: bool,
    queue: seq<Held>,
    queuedBytes: nat,
    sequence: nat,
    pending: map<string, Pending>,
    listIds: set<Json>,
    scope: Option<Scope>,
    savedScope: Option<Scope>,
    out: seq<Sent>)

  /** The outcome of handling one event. A relay that stops keeps only what it has sent. */
  datatype Step =
    | Next(state: State)
    | Closed(sent: seq<Sent>)
    | Failed(sent: seq<Sent>)

  /** What the relay may be woken by. A text that is not JSON arrives as None. order is the order
      in which the hash map of pending thread starts happens to be iterated during the event.
      Gone is an orderly close by the client or the App Server; Broken is a wire error or the loss
      of the host. ScopeElsewhere is another connection of the same bridge recording a thread. */
  datatype Event =
    | ClientText(text: Option<Json>)
    | ClientOther(frame: int)
    | ServerText(text: Option<Json>, order: seq<string>, saveWorks: bool)
    | ServerOther(frame: int)
    | HostLine(line: Option<Json>, order: seq<string>)
    | Gone
    | Broken
    | Expiry(expired: seq<string>)
    | ScopeElsewhere(response: Json, saveWorks: bool)

  function Initial(scope: Option<Scope>): State {
    State(None, WaitingForInitialize, None, None, false, [], 0, 0, map[], {}, scope, scope, [])
  }

  function Trace(step: Step): seq<Sent> {
    match step case Next(s) => s.out case Closed(sent) => sent case Failed(sent) => sent
  }

  function Send(s: State, frame: Sent): State {
    s.(out := s.out + [frame])
  }

  function SatAdd(a: nat, b: nat): nat {
    if a + b > U64_MAX then U64_MAX else a + b
  }

  function SatSub(a: nat, b: nat): nat {
    if a < b then 0 else a - b
  }

  // ---- Client messages -------------------------------------------------------------------

  function RequestRoute(cfg: Config, verb: Option<string>): Route {
    if verb == Some("thread/start") then ThreadStart
    else if verb.Some? && verb.value in cfg.hostRequests then Host
    else Local
  }

  function Environments(cfg: Config, cwd: string): Json {
    Arr([Obj(map[
      "environmentId" := Str(cfg.environmentId),
      "cwd" := Str(cwd),
      "runtimeWorkspaceRoots" := Arr([Str(cwd)])])])
  }

  /** rewrite_client_message; None is its error. */
  function Rewrite(cfg: Config, raw: Json): Option<Json> {
    var verb := Method(raw);
    if verb == Some("initialize") then RewriteInitialize(raw)
    else if verb == Some("thread/start") then RewriteThreadStart(cfg, raw)
    else if verb == Some("turn/start") then RewriteTurnStart(cfg, raw)
    else Some(raw)
  }

  function RewriteInitialize(raw: Json): Option<Json> {
    var params := ObjectField(raw, "params");
    if Field(raw, "id").None? || params.None? then None
    else
      var capabilities := ObjectField(Obj(params.value), "capabilities");
      if capabilities.None? then None
      else
        var enabled := Obj(capabilities.value["experimentalApi" := Bool(true)]);
        Some(With(raw, "params", Obj(params.value["capabilities" := enabled])))
  }

  function RewriteThreadStart(cfg: Config, raw: Json): Option<Json> {
    var params := ObjectField(raw, "params");
    if params.None? then None
    else
      var cwd := StringField(Obj(params.value), "cwd");
      if cwd.None? then None
      else Some(With(raw, "params", Obj(params.value["environments" := Environments(cfg, cwd.value)])))
  }

  function RewriteTurnStart(cfg: Config, raw: Json): Option<Json> {
    var params := ObjectField(raw, "params");
    if params.None? then None
    else
      var cwd := StringField(Obj(params.value), "cwd");
      if cwd.Some? then
        Some(With(raw, "params", Obj(params.value["environments" := Environments(cfg, cwd.value)])))
      else
        Some(With(raw, "params", Obj(params.value - {"environments"})))
  }

  /** The shadow of a thread/start: same request under an internal id, ephemeral, no environments. */
  function ShadowRequest(local: Json, id: string): Option<Json> {
    if !local.Obj? then None
    else
      var shadow := With(local, "id", Str(id));
      var params := ObjectField(shadow, "params");
      if params.None? then None
      else Some(With(shadow, "params", Obj((params.value - {"environments"})["ephemeral" := Bool(true)])))
  }

  function NextSequence(n: nat): nat {
    SatAdd(n, 1)
  }

  /** forward_client_message. */
  function Forward(cfg: Config, s: State, m: Held): (r: Step)
    ensures r.Next? ==> r.state.queue == s.queue
  {
    match m.route
    case Local => Next(Send(s, ServerForward(m.message)))
    case Host => Next(Send(s, HostForward(m.message)))
    case ThreadStart =>
      var clientId := Field(m.message, "id");
      var n := NextSequence(s.sequence);
      var id := Ids.MetadataId(cfg.environmentId, n);
      var shadow := ShadowRequest(m.message, id);
      if clientId.None? || shadow.None? then Failed(s.out)
      else
        var entry := Pending(clientId.value, m.message, None, map[], [], map[], false);
        Next(Send(s, Shadow(id, m.message, shadow.value)).(sequence := n, pending := s.pending[id := entry]))
  }

  function Dequeued(cfg: Config, s: State): State
    requires s.queue != []
  {
    s.(queue := s.queue[1..], queuedBytes := SatSub(s.queuedBytes, |cfg.encode(s.queue[0].message)|))
  }

  /** Forwards everything held, oldest first. */
  function Drain(cfg: Config, s: State): Step
    decreases |s.queue|
  {
    if s.queue == [] then Next(s)
    else
      var step := Forward(cfg, Dequeued(cfg, s), s.queue[0]);
      if step.Next? then Drain(cfg, step.state) else step
  }

  predicate IsReady(s: State) {
    s.phase == Ready && s.initSent
  }

  /** Client messages are held while this is false. */
  predicate GateOpen(s: State) {
    s.initializeId.None? || IsReady(s)
  }

  // ---- The merged initialize response ----------------------------------------------------

  const IDENTITY_FIELDS := ["userAgent", "codexHome", "platformFamily", "platformOs"]

  function CopyFields(from: map<string, Json>, names: seq<string>, into: map<string, Json>): map<string, Json> {
    if names == [] then into
    else
      var rest := CopyFields(from, names[..|names| - 1], into);
      var name := names[|names| - 1];
      if name in from then rest[name := from[name]] else rest
  }

  function TrimEndSlashes(s: string): string {
    if s != [] && s[|s| - 1] == '/' then TrimEndSlashes(s[..|s| - 1]) else s
  }

  function MergeInitialize(local: Json, host: Json, remoteHome: Option<string>): Option<Json> {
    var localResult, hostResult := Field(local, "result"), Field(host, "result");
    if HasError(host) || localResult.None? || !localResult.value.Obj?
      || hostResult.None? || !hostResult.value.Obj? then None
    else
      var copied := CopyFields(hostResult.value.fields, IDENTITY_FIELDS, localResult.value.fields);
      var merged :=
        if remoteHome.Some? then copied["codexHome" := Str(TrimEndSlashes(remoteHome.value) + "/.codex")]
        else copied;
      Some(With(local, "result", Obj(merged)))
  }

  /** Sends the merged response once both servers have answered. */
  function SendInitialize(cfg: Config, s: State): Step {
    if !s.initSent && s.localInit.Some? && s.hostInit.Some? then
      var merged := MergeInitialize(s.localInit.value, s.hostInit.value, cfg.remoteHome);
      if merged.None? then Failed(s.out)
      else
        Next(Send(s, ClientInitialize(s.localInit.value, s.hostInit.value, merged.value))
               .(localInit := None, initSent := true))
    else Next(s)
  }

  /** The end of every loop turn that was not cut short by `continue`. */
  function LoopTail(cfg: Config, s: State): Step {
    var step := SendInitialize(cfg, s);
    if step.Next? && IsReady(step.state) then Drain(cfg, step.state) else step
  }

  function ThenTail(cfg: Config, step: Step): Step {
    if step.Next? then LoopTail(cfg, step.state) else step
  }

  // ---- Events from the client ------------------------------------------------------------

  function AcceptClientText(cfg: Config, s: State, m: Json): Step {
    var verb := Method(m);
    var isInitialize := verb == Some("initialize");
    var route := RequestRoute(cfg, verb);
    var id := Field(m, "id");
    var s1 := s.(
      initializeId := if isInitialize then id else s.initializeId,
      listIds := if verb == Some("thread/list") && id.Some? then s.listIds + {id.value} else s.listIds);
    if isInitialize then
      var copy := With(m, "id", Str(Ids.HostInitializeId(cfg.environmentId)));
      Next(Send(Send(s1, HostInitialize(copy)), ServerInitialize(m)))
    else if !GateOpen(s1) then
      var bytes := SatAdd(s1.queuedBytes, |cfg.encode(m)|);
      if bytes > MAX_PENDING_CLIENT_BYTES then Failed(s.out)
      else Next(s1.(queue := s1.queue + [Held(m, route)], queuedBytes := bytes))
    else Forward(cfg, s1, Held(m, route))
  }

  function HandleClientText(cfg: Config, s: State, text: Option<Json>): Step {
    if text.None? then Failed(s.out)
    else
      var m := Rewrite(cfg, text.value);
      if m.None? then Failed(s.out) else AcceptClientText(cfg, s, m.value)
  }

  // ---- Environment registration ----------------------------------------------------------

  predicate HasId(v: Json, id: string) {
    Field(v, "id") == Some(Str(id))
  }

  predicate IsAddResponse(cfg: Config, v: Json) {
    HasId(v, Ids.AddId(cfg.environmentId))
  }

  predicate IsStatusResponse(cfg: Config, v: Json) {
    HasId(v, Ids.StatusId(cfg.environmentId))
  }

  predicate IsInitializeResponse(s: State, v: Json) {
    s.phase == WaitingForInitialize && s.initializeId.Some? && Field(v, "id") == s.initializeId
  }

  function AddRequest(cfg: Config): Json {
    Obj(map[
      "id" := Str(Ids.AddId(cfg.environmentId)),
      "method" := Str("environment/add"),
      "params" := Obj(map[
        "environmentId" := Str(cfg.environmentId),
        "execServerUrl" := Str("ws://127.0.0.1:" + Ids.Decimal(cfg.localExecPort)),
        "connectTimeoutMs" := Num(10000)])])
  }

  function StatusRequest(cfg: Config): Json {
    Obj(map[
      "id" := Str(Ids.StatusId(cfg.environmentId)),
      "method" := Str("environment/status"),
      "params" := Obj(map["environmentId" := Str(cfg.environmentId)])])
  }

  /** environment_status_ready; None is its error. */
  function StatusReady(v: Json): Option<bool> {
    if HasError(v) then None
    else
      var result := Field(v, "result");
      if result.None? then None
      else
        var status := StringField(result.value, "status");
        if status.None? then None else Some(status.value == "ready")
  }

  function BeginStatusPoll(cfg: Config, s: State, v: Json): Step {
    if HasError(v) then Failed(s.out)
    else Next(Send(s.(phase := Polling(1)), EnvironmentStatus(StatusRequest(cfg))))
  }

  function HandleStatus(cfg: Config, s: State, v: Json): Step {
    var ready := StatusReady(v);
    if ready.None? then Failed(s.out)
    else if ready.value then
      var s1 := s.(phase := Ready);
      if s.initSent then Drain(cfg, s1) else Next(s1)
    else if !s.phase.Polling? || s.phase.attempts + 1 > MAX_STATUS_ATTEMPTS then Failed(s.out)
    else Next(Send(s.(phase := Polling(s.phase.attempts + 1)), EnvironmentStatus(StatusRequest(cfg))))
  }

  function BeginRegistration(cfg: Config, s: State, v: Json): Step {
    if HasError(v) then Failed(s.out)
    else Next(Send(s.(phase := Registering, localInit := Some(v)), EnvironmentAdd(AddRequest(cfg))))
  }

  // ---- Session scope ---------------------------------------------------------------------

  predicate IsControl(c: char) {
    c < ' ' || c == 127 as char
  }

  predicate ValidThreadId(id: string) {
    0 < |id| <= MAX_THREAD_ID_BYTES && forall i :: 0 <= i < |id| ==> !IsControl(id[i])
  }

  /** The thread id of a successful thread/start response, when it may be recorded. */
  function StartedThread(response: Json): Option<string> {
    if HasError(response) then None
    else
      var result := Field(response, "result");
      var thread := if result.Some? then Field(result.value, "thread") else None;
      var id := if thread.Some? then StringField(thread.value, "id") else None;
      if id.Some? && ValidThreadId(id.value) then id else None
  }

  /** record_owned_thread. Saving can fail, and refuses a scope that holds an unsafe id. */
  function RecordOwned(s: State, response: Json, saveWorks: bool): State {
    var id := StartedThread(response);
    if id.None? || s.scope.None? || !s.scope.value.enabled || id.value in s.scope.value.threadIds then s
    else
      var grown := s.scope.value.(threadIds := s.scope.value.threadIds + {id.value});
      var saves := saveWorks && forall t :: t in grown.threadIds ==> ValidThreadId(t);
      s.(scope := Some(grown), savedScope := if saves then Some(grown) else s.savedScope)
  }

  predicate OwnsThread(ids: set<string>, thread: Json) {
    var id := StringField(thread, "id");
    id.Some? && id.value in ids
  }

  /** The threads whose id is owned, in the server's order. */
  function Retain(threads: seq<Json>, ids: set<string>): seq<Json> {
    if threads == [] then []
    else
      var last := threads[|threads| - 1];
      Retain(threads[..|threads| - 1], ids) + (if OwnsThread(ids, last) then [last] else [])
  }

  function RetainIn(result: map<string, Json>, field: string, ids: set<string>): map<string, Json> {
    if field in result && result[field].Arr? then result[field := Arr(Retain(result[field].items, ids))]
    else result
  }

  function FilterThreadList(response: Json, scope: Option<Scope>): Json {
    var result := Field(response, "result");
    if scope.None? || !scope.value.enabled || result.None? || !result.value.Obj? then response
    else
      var ids := scope.value.threadIds;
      With(response, "result", Obj(RetainIn(RetainIn(result.value.fields, "data", ids), "threads", ids)))
  }

  // ---- Thread start: shadow reply, instruction reads, local request ------------------------

  function Strings(items: seq<Json>): seq<string> {
    if items == [] then []
    else (if items[0].Str? then [items[0].s] else []) + Strings(items[1..])
  }

  function Take<T>(xs: seq<T>, n: nat): seq<T> {
    if |xs| <= n then xs else xs[..n]
  }

  function InstructionPaths(v: Json): (r: seq<string>)
    ensures |r| <= MAX_INSTRUCTION_SOURCES
  {
    var result := Field(v, "result");
    var sources := if result.Some? then Field(result.value, "instructionSources") else None;
    if sources.Some? && sources.value.Arr? then Take(Strings(sources.value.items), MAX_INSTRUCTION_SOURCES)
    else []
  }

  function Section(path: string, text: string): string {
    "Instructions from " + path + ":\n" + text
  }

  /** One section for each listed path whose text has arrived, in the host's order. */
  function Sections(paths: seq<string>, contents: map<string, string>): seq<string> {
    if paths == [] then []
    else
      var path := paths[|paths| - 1];
      Sections(paths[..|paths| - 1], contents)
        + (if path in contents then [Section(path, contents[path])] else [])
  }

  function Join(parts: seq<string>): string {
    if parts == [] then []
    else if |parts| == 1 then parts[0]
    else Join(parts[..|parts| - 1]) + "\n\n" + parts[|parts| - 1]
  }

  function Instructions(existing: string, sections: seq<string>): string {
    if existing == [] then Join(sections) else existing + "\n\n" + Join(sections)
  }

  /** The request sent to the local App Server; None is the error of object_field. */
  function LocalRequest(p: Pending): Option<Json> {
    var sections := Sections(p.paths, p.contents);
    if sections == [] then Some(p.localRequest)
    else
      var params := ObjectField(p.localRequest, "params");
      if params.None? then None
      else
        var given := StringField(Obj(params.value), "developerInstructions");
        var existing := if given.Some? then given.value else "";
        var combined := Str(Instructions(existing, sections));
        Some(With(p.localRequest, "params", Obj(params.value["developerInstructions" := combined])))
  }

  /** send_local_thread_start. */
  function SendLocal(s: State, id: string): Step {
    if id !in s.pending then Failed(s.out)
    else if s.pending[id].localSent then Next(s)
    else
      var local := LocalRequest(s.pending[id]);
      if local.None? then Failed(s.out)
      else
        Next(Send(s, LocalStart(id, local.value))
               .(pending := s.pending[id := s.pending[id].(localSent := true)]))
  }

  function ReadRequest(readId: string, path: string): Json {
    Obj(map["id" := Str(readId), "method" := Str("fs/readFile"), "params" := Obj(map["path" := Str(path)])])
  }

  /** Requests the first k instruction sources of entry id from the host. */
  function IssueReads(s: State, id: string, paths: seq<string>, k: nat): (r: State)
    requires id in s.pending && k <= |paths|
    ensures id in r.pending
  {
    if k == 0 then s
    else
      var before := IssueReads(s, id, paths, k - 1);
      var readId := Ids.ReadId(id, k - 1);
      var entry := before.pending[id];
      Send(before.(pending := before.pending[id := entry.(outstanding := entry.outstanding[readId := paths[k - 1]])]),
           ReadFile(readId, ReadRequest(readId, paths[k - 1])))
  }

  function HandleThreadReply(s: State, id: string, v: Json): Step
    requires id in s.pending
  {
    var entry := s.pending[id];
    if HasError(v) then SendLocal(s, id)
    else if entry.localSent then Next(s.(pending := s.pending[id := entry.(hostResponse := Some(v))]))
    else
      var paths := InstructionPaths(v);
      var s1 := s.(pending := s.pending[id := entry.(hostResponse := Some(v), paths := paths)]);
      if paths == [] then SendLocal(s1, id) else Next(IssueReads(s1, id, paths, |paths|))
  }

  /** Total bytes of the stored instruction texts. */
  ghost function TextBytes(contents: map<string, string>): nat {
    if contents == map[] then 0
    else
      var path :| path in contents;
      |contents[path]| + TextBytes(contents - {path})
  }

  function ReplyData(v: Json): Option<string> {
    var result := Field(v, "result");
    if result.Some? then StringField(result.value, "dataBase64") else None
  }

  /** record_instruction_read; None is its error. */
  ghost function RecordRead(cfg: Config, p: Pending, readId: string, v: Json): Option<Pending>
    requires readId in p.outstanding
  {
    var path := p.outstanding[readId];
    var answered := p.(outstanding := p.outstanding - {readId});
    var data := ReplyData(v);
    if data.None? then Some(answered)
    else
      var bytes := cfg.decodeBase64(data.value);
      if bytes.None? || |bytes.value| > MAX_INSTRUCTION_SOURCE_BYTES
        || SatAdd(TextBytes(p.contents), |bytes.value|) > MAX_INSTRUCTION_TOTAL_BYTES
        || !cfg.validUtf8(bytes.value) then None
      else Some(answered.(contents := p.contents[path := bytes.value]))
  }

  ghost function HandleReadReply(cfg: Config, s: State, id: string, readId: string, v: Json): Step
    requires id in s.pending && readId in s.pending[id].outstanding
  {
    var recorded := RecordRead(cfg, s.pending[id], readId, v);
    if recorded.None? then Failed(s.out)
    else
      var s1 := s.(pending := s.pending[id := recorded.value]);
      if recorded.value.outstanding == map[] then SendLocal(s1, id) else Next(s1)
  }

  const RESULT_FIELDS := ["cwd", "runtimeWorkspaceRoots", "instructionSources"]
  const THREAD_FIELDS := ["cwd", "gitInfo"]

  /** merge_thread_metadata; None is its error. */
  function MergeThread(local: Json, host: Json): Option<Json> {
    if HasError(local) || HasError(host) then Some(local)
    else
      var localResult, hostResult := Field(local, "result"), Field(host, "result");
      if localResult.None? || !localResult.value.Obj? || hostResult.None? || !hostResult.value.Obj? then None
      else
        var merged := CopyFields(hostResult.value.fields, RESULT_FIELDS, localResult.value.fields);
        var hostThread, localThread := Field(hostResult.value, "thread"), Field(Obj(merged), "thread");
        var threaded :=
          if hostThread.Some? && hostThread.value.Obj? && localThread.Some? && localThread.value.Obj? then
            merged["thread" := Obj(CopyFields(hostThread.value.fields, THREAD_FIELDS, localThread.value.fields))]
          else merged;
        Some(With(local, "result", Obj(threaded)))
  }

  predicate Answers(p: Pending, v: Json) {
    p.localSent && Field(v, "id") == Some(p.clientId)
  }

  /** The first entry in iteration order whose local request this message answers. */
  function FindAnswered(order: seq<string>, pending: map<string, Pending>, v: Json): (r: Option<string>)
    ensures r.Some? ==> r.value in pending && Answers(pending[r.value], v)
    ensures r.None? ==> forall id :: id in order && id in pending ==> !Answers(pending[id], v)
  {
    if order == [] then None
    else if order[0] in pending && Answers(pending[order[0]], v) then Some(order[0])
    else FindAnswered(order[1..], pending, v)
  }

  function FindReader(order: seq<string>, pending: map<string, Pending>, readId: string): (r: Option<string>)
    ensures r.Some? ==> r.value in pending && readId in pending[r.value].outstanding
    ensures r.None? ==> forall id :: id in order && id in pending ==> readId !in pending[id].outstanding
  {
    if order == [] then None
    else if order[0] in pending && readId in pending[order[0]].outstanding then Some(order[0])
    else FindReader(order[1..], pending, readId)
  }

  /** The App Server's answer to the local request of entry id. */
  function HandleStartAnswer(s: State, id: string, v: Json, saveWorks: bool): Step
    requires id in s.pending
  {
    var entry := s.pending[id];
    var s1 := RecordOwned(s.(pending := s.pending - {id}), v, saveWorks);
    var merged := if entry.hostResponse.Some? then MergeThread(v, entry.hostResponse.value) else Some(v);
    if merged.None? then Failed(s.out) else Next(Send(s1, ClientThreadStart(id, v, merged.value)))
  }

  function HandleListAnswer(s: State, v: Json): Step
    requires Field(v, "id").Some?
  {
    Next(Send(s.(listIds := s.listIds - {Field(v, "id").value}),
              ClientThreadList(v, s.scope, FilterThreadList(v, s.scope))))
  }

  // ---- Events from the two servers ---------------------------------------------------------

  /** A server text that is neither an environment/add nor an environment/status response. */
  function HandleServerMessage(cfg: Config, s: State, v: Json, order: seq<string>, saveWorks: bool): Step {
    var answered := FindAnswered(order, s.pending, v);
    var id := Field(v, "id");
    if IsInitializeResponse(s, v) then BeginRegistration(cfg, s, v)
    else if answered.Some? then HandleStartAnswer(s, answered.value, v, saveWorks)
    else if id.Some? && id.value in s.listIds then HandleListAnswer(s, v)
    else Next(Send(s, ClientFromServer(v)))
  }

  function HandleServerText(cfg: Config, s: State, text: Option<Json>, order: seq<string>, saveWorks: bool): Step {
    if text.None? then Failed(s.out)
    else if IsAddResponse(cfg, text.value) then BeginStatusPoll(cfg, s, text.value)
    else if IsStatusResponse(cfg, text.value) then HandleStatus(cfg, s, text.value)
    else ThenTail(cfg, HandleServerMessage(cfg, s, text.value, order, saveWorks))
  }

  predicate StartsWith(s: string, prefix: string) {
    |prefix| <= |s| && s[..|prefix|] == prefix
  }

  predicate HostMessageAllowed(cfg: Config, v: Json) {
    var id := Field(v, "id");
    var verb := Method(v);
    || (id.Some? && !(id.value.Str?
                      && (id.value.s == Ids.HostInitializeId(cfg.environmentId)
                          || StartsWith(id.value.s, Ids.MetadataPrefix(cfg.environmentId)))))
    || (verb.Some? && verb.value in cfg.hostNotifications)
  }

  ghost function HandleHostMessage(cfg: Config, s: State, v: Json, order: seq<string>): Step {
    var id := StringField(v, "id");
    if id == Some(Ids.HostInitializeId(cfg.environmentId)) then
      if HasError(v) then Failed(s.out) else Next(s.(hostInit := Some(v)))
    else if id.Some? && id.value in s.pending then HandleThreadReply(s, id.value, v)
    else
      var reader := if id.Some? then FindReader(order, s.pending, id.value) else None;
      if reader.Some? then HandleReadReply(cfg, s, reader.value, id.value, v)
      else if HostMessageAllowed(cfg, v) then Next(Send(s, ClientFromHost(v)))
      else Next(s)
  }

  /** The metadata timeout fires for the listed entries, one after the other. */
  function SendExpired(s: State, expired: seq<string>): Step
    decreases |expired|
  {
    if expired == [] then Next(s)
    else
      var step := SendLocal(s, expired[0]);
      if step.Next? then SendExpired(step.state, expired[1..]) else step
  }

  /** Events that can happen in s: hash maps iterate over exactly their keys, and only unsent
      entries can expire. */
  predicate Enabled(s: State, e: Event) {
    match e
    case ServerText(_, order, _) => Lists(order, s.pending.Keys)
    case HostLine(_, order) => Lists(order, s.pending.Keys)
    case Expiry(expired) =>
      && (exists id :: id in s.pending && !s.pending[id].localSent)
      && (forall id :: id in expired ==> id in s.pending && !s.pending[id].localSent)
    case _ => true
  }

  predicate Lists(order: seq<string>, keys: set<string>) {
    (forall id :: id in order ==> id in keys) && (forall id :: id in keys ==> id in order)
  }

  ghost function Handle(cfg: Config, s: State, e: Event): Step {
    match e
    case ClientText(text) => ThenTail(cfg, HandleClientText(cfg, s, text))
    case ClientOther(frame) => LoopTail(cfg, Send(s, ServerFrame(frame)))
    case ServerText(text, order, saveWorks) => HandleServerText(cfg, s, text, order, saveWorks)
    case ServerOther(frame) => LoopTail(cfg, Send(s, ClientFrame(frame)))
    case HostLine(line, order) =>
      if line.None? then Failed(s.out) else ThenTail(cfg, HandleHostMessage(cfg, s, line.value, order))
    case Gone => Closed(s.out)
    case Broken => Failed(s.out)
    case Expiry(expired) => ThenTail(cfg, SendExpired(s, expired))
    case ScopeElsewhere(response, saveWorks) => Next(RecordOwned(s, response, saveWorks))
  }

  /** All runs: events that cannot happen are skipped, and nothing happens after the relay stops. */
  ghost function Run(cfg: Config, s: State, events: seq<Event>): Step {
    if events == [] then Next(s)
    else
      var before := Run(cfg, s, events[..|events| - 1]);
      var e := events[|events| - 1];
      if before.Next? && Enabled(before.state, e) then Handle(cfg, before.state, e) else before
  }
}
