/** The event loop of relay_jsonl over its mutable state, proved against JsonlSpec. */
module JsonlRelay {
  import opened Wrappers
  import opened Json
  import opened RelaySpec
  import opened RelayParts
  import opened JsonlSpec
  import WebSocketRelay
  import Ids

  class Relay {
    const cfg: Config
    const registration: EnvironmentRegistration
    const scope: ScopeHandle
    var held: seq<Json>
    var heldBytes: nat
    var startIds: set<Json>
    var listIds: set<Json>
    var out: seq<Line>

    constructor (cfg: Config, scope: ScopeHandle)
      ensures fresh(registration) && this.scope == scope && this.cfg == cfg && registration.cfg == cfg
      ensures View() == LineInitial(scope.memory).(savedScope := scope.stored)
    {
      this.cfg, this.scope := cfg, scope;
      var created := new EnvironmentRegistration(cfg);
      registration := created;
      held, heldBytes, startIds, listIds, out := [], 0, {}, {}, [];
    }

    ghost predicate Valid() {
      registration.cfg == cfg
    }

    ghost function View(): LineState
      reads this, registration, scope
    {
      LineState(registration.initializeId, registration.phase, held, heldBytes, startIds, listIds,
                scope.memory, scope.stored, out)
    }

    ghost predicate Follows(ok: bool, step: LineStep)
      reads this, registration, scope
    {
      if ok then step == LineNext(View()) else step == LineFailed(out)
    }

    method WriteLine(line: Line)
      modifies this`out
      ensures out == old(out) + [line]
    {
      out := out + [line];
    }

    method OnClientLine(line: Option<Json>) returns (ok: bool)
      requires Valid()
      modifies this, registration`initializeId
      ensures Follows(ok, HandleClientLine(cfg, old(View()), line))
    {
      hide Rewrite;
      if line.None? {
        return false;
      }
      var rewritten := registration.RewriteClientMessage(line.value);
      if rewritten.None? {
        return false;
      }
      var m := rewritten.value;
      WebSocketRelay.RewriteKeepsHead(cfg, line.value);
      var verb := Method(m);
      var isInitialize := verb == Some("initialize");
      if verb == Some("thread/start") {
        startIds := Remember(startIds, m);
      } else if verb == Some("thread/list") {
        listIds := Remember(listIds, m);
      }
      if registration.initializeId.Some? && registration.phase != Ready && !isInitialize {
        heldBytes := SatAdd(heldBytes, |cfg.encode(m)|);
        if heldBytes > MAX_PENDING_CLIENT_BYTES {
          return false;
        }
        held := held + [m];
      } else {
        WriteLine(if isInitialize then Initialize(m) else Request(m));
      }
      return true;
    }

    method ForwardHeld()
      modifies this`held, this`heldBytes, this`out
      ensures View() == DrainLines(cfg, old(View()))
    {
      while held != []
        invariant DrainLines(cfg, View()) == DrainLines(cfg, old(View()))
        decreases |held|
      {
        heldBytes := SatSub(heldBytes, |cfg.encode(held[0])|);
        WriteLine(Request(held[0]));
        held := held[1..];
      }
    }

    method OnServerLine(line: Option<Json>, saveWorks: bool) returns (ok: bool)
      requires Valid()
      modifies this, registration`phase, scope
      ensures Follows(ok, HandleServerLine(cfg, old(View()), line, saveWorks))
    {
      hide DrainLines, StatusReady, StatusRequest, AnswerLine, Ids.AddId, Ids.StatusId;
      if line.None? {
        return false;
      }
      var v := line.value;
      if IsAddResponse(cfg, v) {
        var request := registration.BeginStatusPoll(v);
        if request.None? {
          return false;
        }
        WriteLine(Internal(request.value));
        return true;
      }
      if IsStatusResponse(cfg, v) {
        var accepted, request := registration.HandleStatusResponse(v);
        if !accepted {
          return false;
        }
        if request.Some? {
          WriteLine(Internal(request.value));
        } else {
          ForwardHeld();
        }
        return true;
      }
      ok := OnAnswer(v, saveWorks);
    }

    method OnAnswer(v: Json, saveWorks: bool) returns (ok: bool)
      requires Valid()
      modifies this, registration`phase, scope
      ensures Follows(ok, AnswerLine(cfg, old(View()), v, saveWorks))
    {
      hide RecordOwned, FilterThreadList, AddRequest;
      var isInitializeResponse :=
        registration.phase == WaitingForInitialize && registration.initializeId.Some?
        && Field(v, "id") == registration.initializeId;
      var answer, message := Answer(v), v;
      if Remembered(startIds, v) {
        startIds := Forget(startIds, v);
        scope.RecordOwnedThread(v, saveWorks);
      }
      if Remembered(listIds, v) {
        listIds := Forget(listIds, v);
        message := scope.FilterThreadListResponse(v);
        answer := ListAnswer(v, scope.memory, message);
      }
      assert Forget(old(listIds), v) == listIds;
      WriteLine(answer);
      if isInitializeResponse {
        var request := registration.BeginRegistration(message);
        if request.None? {
          return false;
        }
        WriteLine(Internal(request.value));
      }
      return true;
    }

    /** One turn of the loop. closed says that the relay ended in good order. */
    method Turn(e: LineEvent) returns (ok: bool, closed: bool)
      requires Valid()
      modifies this, registration, scope
      ensures Valid()
      ensures if closed then !ok && HandleLine(cfg, old(View()), e) == LineClosed(out)
              else Follows(ok, HandleLine(cfg, old(View()), e))
    {
      hide HandleClientLine, HandleServerLine;
      closed := false;
      match e {
        case FromClient(line) => ok := OnClientLine(line);
        case FromServer(line, saveWorks) => ok := OnServerLine(line, saveWorks);
        case LineGone => ok, closed := false, true;
        case LineBroken => ok := false;
        case LineElsewhere(response, saveWorks) =>
          scope.RecordOwnedThread(response, saveWorks);
          ok := true;
      }
    }

    /** The loop: the first turn that ends the relay ends it. */
    method Serve(events: seq<LineEvent>) returns (ok: bool, closed: bool)
      requires Valid()
      modifies this, registration, scope
      ensures if closed then LineRun(cfg, old(View()), events) == LineClosed(out)
              else Follows(ok, LineRun(cfg, old(View()), events))
    {
      hide HandleLine;
      ok, closed := true, false;
      var i := 0;
      while i < |events|
        invariant 0 <= i <= |events| && Valid() && ok && !closed
        invariant LineRun(cfg, old(View()), events[..i]) == LineNext(View())
      {
        assert events[..i + 1][..i] == events[..i];
        ok, closed := Turn(events[i]);
        if !ok {
          LineStoppedForGood(cfg, old(View()), events, i + 1);
          return ok, closed;
        }
        i := i + 1;
      }
      assert events[..i] == events;
    }
  }

  /** A line relay that has stopped stays stopped. */
  lemma {:induction false} LineStoppedForGood(cfg: Config, s: LineState, events: seq<LineEvent>, k: nat)
    requires k <= |events| && !LineRun(cfg, s, events[..k]).LineNext?
    ensures LineRun(cfg, s, events) == LineRun(cfg, s, events[..k])
    decreases |events|
  {
    hide HandleLine;
    if k < |events| {
      assert events[..|events| - 1][..k] == events[..k];
      LineStoppedForGood(cfg, s, events[..|events| - 1], k);
    } else {
      assert events[..k] == events;
    }
  }
}
