/** What the three wires say about every thread start, and that the relay's table says just that. */
module RelayLedger {
  import opened Wrappers
  import opened Json
  import opened RelaySpec
  import opened RelayFrames
  import RelayThreads
  import Ids

  /** A thread start whose shadow went to the host and whose answer has not gone to the client: the client's
      message, and whether the request went to the App Server. */
  datatype Open = Open(origin: Json, sent: bool)

  function Note(open: map<string, Open>, frame: Sent): map<string, Open> {
    match frame
    case Shadow(id, origin, _) => open[id := Open(origin, false)]
    case LocalStart(id, _) => if id in open then open[id := open[id].(sent := true)] else open
    case ClientThreadStart(id, _, _) => open - {id}
    case _ => open
  }

  /** The open thread starts, read off the wires. */
  function Ledger(out: seq<Sent>): map<string, Open> {
    if out == [] then map[] else Note(Ledger(out[..|out| - 1]), out[|out| - 1])
  }

  /** The open thread starts, read off the relay's table. */
  function Table(pending: map<string, Pending>): map<string, Open> {
    map id | id in pending :: Open(pending[id].localRequest, pending[id].localSent)
  }

  ghost predicate Named(cfg: Config, id: string, p: Pending) {
    && Field(p.localRequest, "id") == Some(p.clientId)
    && exists k: nat :: id == Ids.MetadataId(cfg.environmentId, k)
  }

  ghost predicate Tallied(cfg: Config, s: State) {
    && Ledger(s.out) == Table(s.pending)
    && forall id :: id in s.pending ==> Named(cfg, id, s.pending[id])
  }

  ghost predicate TallyKept(cfg: Config, r: Step) {
    r.Next? ==> Tallied(cfg, r.state)
  }

  const NOTED: set<Kind> := {ToHostShadow, ToServerStart, ToClientStart}

  lemma LedgerNext(out: seq<Sent>, frame: Sent)
    ensures Ledger(out + [frame]) == Note(Ledger(out), frame)
  {
    assert (out + [frame])[..|out|] == out;
  }

  lemma {:induction false} LedgerQuiet(before: seq<Sent>, after: seq<Sent>, kinds: set<Kind>)
    requires Emits(before, after, kinds) && kinds !! NOTED
    ensures Ledger(after) == Ledger(before)
    decreases |after|
  {
    if |after| > |before| {
      assert KindOf(after[|after| - 1]) in kinds;
      LedgerQuiet(before, after[..|after| - 1], kinds);
    } else {
      assert after == before;
    }
  }

  /** q is p further on, with the same message and not sent since. */
  predicate SameRow(p: Pending, q: Pending) {
    q.localRequest == p.localRequest && q.clientId == p.clientId && q.localSent == p.localSent
  }

  predicate SameRows(pending: map<string, Pending>, after: map<string, Pending>) {
    after.Keys == pending.Keys && forall id :: id in pending ==> SameRow(pending[id], after[id])
  }

  /** A step that puts none of the noted frames on a wire and keeps the rows. */
  lemma QuietTally(cfg: Config, s: State, r: Step, kinds: set<Kind>)
    requires Tallied(cfg, s) && Emits(s.out, Trace(r), kinds) && kinds !! NOTED
    requires r.Next? ==> SameRows(s.pending, r.state.pending)
    ensures TallyKept(cfg, r)
  {
    hide Ledger, Ids.MetadataId;
    LedgerQuiet(s.out, Trace(r), kinds);
    if r.Next? {
      assert Table(r.state.pending) == Table(s.pending);
    }
  }

  lemma RowsStay(pending: map<string, Pending>)
    ensures SameRows(pending, pending)
  {
  }

  lemma TableWith(pending: map<string, Pending>, id: string, p: Pending)
    ensures Table(pending[id := p]) == Table(pending)[id := Open(p.localRequest, p.localSent)]
    ensures Table(pending - {id}) == Table(pending) - {id}
  {
  }

  // ---- The steps -------------------------------------------------------------------------------

  lemma ForwardTally(cfg: Config, s: State, m: Held)
    requires Tallied(cfg, s)
    ensures TallyKept(cfg, Forward(cfg, s, m))
  {
    hide Ledger, Table, ShadowRequest, Ids.MetadataId, NextSequence;
    var r := Forward(cfg, s, m);
    if r.Next? {
      var frame := r.state.out[|s.out|];
      assert r.state.out == s.out + [frame];
      LedgerNext(s.out, frame);
      if m.route.ThreadStart? {
        var id := Ids.MetadataId(cfg.environmentId, NextSequence(s.sequence));
        var entry := Pending(Field(m.message, "id").value, m.message, None, map[], [], map[], false);
        TableWith(s.pending, id, entry);
        assert Named(cfg, id, entry);
        hide Named;
        assert r.state.pending == s.pending[id := entry];
      }
    }
  }

  lemma {:induction false} DrainTally(cfg: Config, s: State)
    requires Tallied(cfg, s)
    ensures TallyKept(cfg, Drain(cfg, s))
    decreases |s.queue|
  {
    hide Forward, Ledger, Table, Named;
    if s.queue != [] {
      ForwardTally(cfg, Dequeued(cfg, s), s.queue[0]);
      var step := Forward(cfg, Dequeued(cfg, s), s.queue[0]);
      if step.Next? {
        DrainTally(cfg, step.state);
      }
    }
  }

  lemma TailTally(cfg: Config, s: State)
    requires Tallied(cfg, s)
    ensures TallyKept(cfg, LoopTail(cfg, s))
  {
    hide SendInitialize, Drain, Tallied;
    SendInitializeFrame(cfg, s);
    var step := SendInitialize(cfg, s);
    RowsStay(s.pending);
    QuietTally(cfg, s, step, {ToClientInitialize});
    if step.Next? && IsReady(step.state) {
      DrainTally(cfg, step.state);
    }
  }

  lemma ThenTailTally(cfg: Config, r: Step)
    requires TallyKept(cfg, r)
    ensures TallyKept(cfg, ThenTail(cfg, r))
  {
    hide LoopTail, Tallied;
    if r.Next? {
      TailTally(cfg, r.state);
    }
  }

  lemma SendLocalTally(cfg: Config, s: State, id: string)
    requires Tallied(cfg, s)
    ensures TallyKept(cfg, SendLocal(s, id))
    ensures var r := SendLocal(s, id); r.Next? ==> r.state.pending.Keys == s.pending.Keys
  {
    hide LocalRequest, Ledger, Ids.MetadataId;
    var r := SendLocal(s, id);
    if r.Next? && !s.pending[id].localSent {
      LedgerNext(s.out, LocalStart(id, LocalRequest(s.pending[id]).value));
      assert Table(r.state.pending) == Table(s.pending)[id := Table(s.pending)[id].(sent := true)];
    }
  }

  lemma {:induction false} SendExpiredTally(cfg: Config, s: State, expired: seq<string>)
    requires Tallied(cfg, s)
    ensures TallyKept(cfg, SendExpired(s, expired))
    decreases |expired|
  {
    hide SendLocal, Tallied;
    if expired != [] {
      SendLocalTally(cfg, s, expired[0]);
      if SendLocal(s, expired[0]).Next? {
        SendExpiredTally(cfg, SendLocal(s, expired[0]).state, expired[1..]);
      }
    }
  }

  lemma UpdatedTally(cfg: Config, s: State, id: string, p: Pending)
    requires Tallied(cfg, s) && id in s.pending && SameRow(s.pending[id], p)
    ensures Tallied(cfg, s.(pending := s.pending[id := p]))
  {
    hide Tallied, SameRow;
    var r := Next(s.(pending := s.pending[id := p]));
    assert forall other :: other in s.pending ==> SameRow(s.pending[other], s.pending[other]) by { RowsStay(s.pending); }
    assert s.pending[id := p].Keys == s.pending.Keys;
    QuietTally(cfg, s, r, {});
  }

  lemma ThreadReplyTally(cfg: Config, s: State, id: string, v: Json)
    requires Tallied(cfg, s) && id in s.pending
    ensures TallyKept(cfg, HandleThreadReply(s, id, v))
  {
    hide SendLocal, IssueReads, InstructionPaths, Tallied;
    var entry := s.pending[id];
    SendLocalTally(cfg, s, id);
    if !HasError(v) && entry.localSent {
      UpdatedTally(cfg, s, id, entry.(hostResponse := Some(v)));
    } else if !HasError(v) {
      var paths := InstructionPaths(v);
      var s1 := s.(pending := s.pending[id := entry.(hostResponse := Some(v), paths := paths)]);
      UpdatedTally(cfg, s, id, s1.pending[id]);
      SendLocalTally(cfg, s1, id);
      RelayThreads.IssueReadsEntry(s1, id, paths, |paths|);
      IssueReadsFrame(s1, id, paths, |paths|);
      RowsStay(s1.pending);
      QuietTally(cfg, s1, Next(IssueReads(s1, id, paths, |paths|)), {ToHostRead});
    }
  }

  lemma ReadReplyTally(cfg: Config, s: State, id: string, readId: string, v: Json)
    requires Tallied(cfg, s) && id in s.pending && readId in s.pending[id].outstanding
    ensures TallyKept(cfg, HandleReadReply(cfg, s, id, readId, v))
  {
    hide SendLocal, Tallied, TextBytes, ReplyData;
    var recorded := RecordRead(cfg, s.pending[id], readId, v);
    if recorded.Some? {
      UpdatedTally(cfg, s, id, recorded.value);
      SendLocalTally(cfg, s.(pending := s.pending[id := recorded.value]), id);
    }
  }

  lemma HostMessageTally(cfg: Config, s: State, v: Json, order: seq<string>)
    requires Tallied(cfg, s)
    ensures TallyKept(cfg, HandleHostMessage(cfg, s, v, order))
  {
    hide HandleThreadReply, HandleReadReply, HostMessageAllowed, FindReader, Tallied;
    var id := StringField(v, "id");
    var r := HandleHostMessage(cfg, s, v, order);
    RowsStay(s.pending);
    if id == Some(Ids.HostInitializeId(cfg.environmentId)) {
      QuietTally(cfg, s, r, {});
    } else if id.Some? && id.value in s.pending {
      ThreadReplyTally(cfg, s, id.value, v);
    } else {
      var reader := if id.Some? then FindReader(order, s.pending, id.value) else None;
      if reader.Some? {
        ReadReplyTally(cfg, s, reader.value, id.value, v);
      } else {
        QuietTally(cfg, s, r, {ToClientFromHost});
      }
    }
  }

  lemma StartAnswerTally(cfg: Config, s: State, id: string, v: Json, saveWorks: bool)
    requires Tallied(cfg, s) && id in s.pending
    ensures TallyKept(cfg, HandleStartAnswer(s, id, v, saveWorks))
  {
    hide MergeThread, RecordOwned, Ledger, Table, Named;
    var r := HandleStartAnswer(s, id, v, saveWorks);
    RecordFrame(s.(pending := s.pending - {id}), v, saveWorks);
    TableWith(s.pending, id, s.pending[id]);
    if r.Next? {
      LedgerNext(s.out, r.state.out[|s.out|]);
    }
  }

  lemma ServerMessageTally(cfg: Config, s: State, v: Json, order: seq<string>, saveWorks: bool)
    requires Tallied(cfg, s)
    ensures TallyKept(cfg, HandleServerMessage(cfg, s, v, order, saveWorks))
  {
    hide HandleStartAnswer, FilterThreadList, AddRequest, Tallied, FindAnswered;
    var answered := FindAnswered(order, s.pending, v);
    RowsStay(s.pending);
    if !IsInitializeResponse(s, v) && answered.Some? {
      StartAnswerTally(cfg, s, answered.value, v, saveWorks);
    } else {
      QuietTally(cfg, s, HandleServerMessage(cfg, s, v, order, saveWorks), {ToServerAdd, ToClientList, ToClientFromServer});
    }
  }

  lemma StatusTally(cfg: Config, s: State, v: Json)
    requires Tallied(cfg, s)
    ensures TallyKept(cfg, HandleStatus(cfg, s, v))
  {
    hide Drain, StatusReady, StatusRequest, Tallied;
    RowsStay(s.pending);
    if StatusReady(v) == Some(true) {
      QuietTally(cfg, s, Next(s.(phase := Ready)), {});
      DrainTally(cfg, s.(phase := Ready));
    } else {
      QuietTally(cfg, s, HandleStatus(cfg, s, v), {ToServerStatus});
    }
  }

  lemma AcceptTally(cfg: Config, s: State, m: Json)
    requires Tallied(cfg, s)
    ensures TallyKept(cfg, AcceptClientText(cfg, s, m))
  {
    hide Forward, RequestRoute, Tallied;
    RowsStay(s.pending);
    var verb := Method(m);
    var s1 := s.(listIds := if verb == Some("thread/list") && Field(m, "id").Some?
                            then s.listIds + {Field(m, "id").value} else s.listIds);
    if verb != Some("initialize") && GateOpen(s1) {
      QuietTally(cfg, s, Next(s1), {});
      ForwardTally(cfg, s1, Held(m, RequestRoute(cfg, verb)));
    } else {
      QuietTally(cfg, s, AcceptClientText(cfg, s, m), {ToServerInitialize, ToHostInitialize});
    }
  }

  lemma ServerTextTally(cfg: Config, s: State, text: Option<Json>, order: seq<string>, saveWorks: bool)
    requires Tallied(cfg, s)
    ensures TallyKept(cfg, HandleServerText(cfg, s, text, order, saveWorks))
  {
    hide ThenTail, HandleServerMessage, HandleStatus, BeginStatusPoll, Tallied, IsAddResponse, IsStatusResponse;
    RowsStay(s.pending);
    if text.Some? {
      if IsAddResponse(cfg, text.value) {
        StatusPollFrame(cfg, s, text.value);
        QuietTally(cfg, s, BeginStatusPoll(cfg, s, text.value), {ToServerStatus});
      } else if IsStatusResponse(cfg, text.value) {
        StatusTally(cfg, s, text.value);
      } else {
        ServerMessageTally(cfg, s, text.value, order, saveWorks);
        ThenTailTally(cfg, HandleServerMessage(cfg, s, text.value, order, saveWorks));
      }
    }
  }

  lemma TallyTurn(cfg: Config, s: State, e: Event)
    requires Tallied(cfg, s)
    ensures TallyKept(cfg, Handle(cfg, s, e))
  {
    hide LoopTail, HandleHostMessage, HandleServerText, AcceptClientText, Rewrite, RecordOwned, SendExpired, Tallied;
    RowsStay(s.pending);
    match e
    case ClientText(text) =>
      if HandleClientText(cfg, s, text).Next? {
        AcceptTally(cfg, s, Rewrite(cfg, text.value).value);
      }
      ThenTailTally(cfg, HandleClientText(cfg, s, text));
    case ClientOther(frame) =>
      QuietTally(cfg, s, Next(Send(s, ServerFrame(frame))), {ToServerFrame});
      TailTally(cfg, Send(s, ServerFrame(frame)));
    case ServerText(text, order, saveWorks) => ServerTextTally(cfg, s, text, order, saveWorks);
    case ServerOther(frame) =>
      QuietTally(cfg, s, Next(Send(s, ClientFrame(frame))), {ToClientFrame});
      TailTally(cfg, Send(s, ClientFrame(frame)));
    case HostLine(line, order) =>
      if line.Some? {
        HostMessageTally(cfg, s, line.value, order);
        ThenTailTally(cfg, HandleHostMessage(cfg, s, line.value, order));
      }
    case Gone =>
    case Broken =>
    case Expiry(expired) =>
      SendExpiredTally(cfg, s, expired);
      ThenTailTally(cfg, SendExpired(s, expired));
    case ScopeElsewhere(response, saveWorks) =>
      RecordFrame(s, response, saveWorks);
      QuietTally(cfg, s, Next(RecordOwned(s, response, saveWorks)), {});
  }

  /** Over all runs: the relay's table of thread starts holds exactly those whose shadow is on the host's wire and whose
      answer is not yet on the client's, with the client's message and its id, and marks as sent exactly those whose
      request is on the App Server's wire. */
  lemma {:induction false} TableIsTheWires(cfg: Config, scope: Option<Scope>, events: seq<Event>)
    ensures TallyKept(cfg, Run(cfg, Initial(scope), events))
  {
    hide Handle, Enabled;
    if events != [] {
      TableIsTheWires(cfg, scope, events[..|events| - 1]);
      var before := Run(cfg, Initial(scope), events[..|events| - 1]);
      if before.Next? && Enabled(before.state, events[|events| - 1]) {
        TallyTurn(cfg, before.state, events[|events| - 1]);
      }
    }
  }
}
