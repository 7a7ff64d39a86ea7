/** Answers to thread/list: from the request on, the App Server's first message with its id is a filtered list. */
module RelayLists {
  import opened Wrappers
  import opened Json
  import opened RelaySpec
  import opened RelayFrames

  predicate Unfiltered(frame: Sent, id: Json) {
    frame.ClientFromServer? && Field(frame.message, "id") == Some(id)
  }

  predicate ListAnswer(frame: Sent, id: Json) {
    frame.ClientThreadList? && Field(frame.response, "id") == Some(id)
  }

  predicate Answered(out: seq<Sent>, from: nat, id: Json) {
    exists j :: from <= j < |out| && ListAnswer(out[j], id)
  }

  /** From position from on, nothing with this id was passed on unfiltered before a filtered answer. */
  ghost predicate FilteredFirst(out: seq<Sent>, from: nat, id: Json) {
    forall i :: from <= i < |out| && Unfiltered(out[i], id) ==> Answered(out[..i], from, id)
  }

  ghost predicate ListInv(s: State, from: nat, id: Json) {
    from <= |s.out| && FilteredFirst(s.out, from, id) && (id in s.listIds || Answered(s.out, from, id))
  }

  ghost predicate KeepsFiltering(r: Step, from: nat, id: Json) {
    from <= |Trace(r)| && FilteredFirst(Trace(r), from, id) && (r.Next? ==> ListInv(r.state, from, id))
  }

  lemma AnsweredStays(before: seq<Sent>, after: seq<Sent>, from: nat, id: Json)
    requires before <= after && Answered(before, from, id)
    ensures Answered(after, from, id)
  {
    var j :| from <= j < |before| && ListAnswer(before[j], id);
    assert after[j] == before[j];
  }

  /** A step that passes on no message of the App Server and forgets no list request. */
  lemma QuietLists(s: State, r: Step, from: nat, id: Json, kinds: set<Kind>)
    requires ListInv(s, from, id) && Emits(s.out, Trace(r), kinds) && ToClientFromServer !in kinds
    requires r.Next? ==> s.listIds <= r.state.listIds
    ensures KeepsFiltering(r, from, id)
  {
    hide Answered;
    var out := Trace(r);
    forall i | from <= i < |out| && Unfiltered(out[i], id) ensures Answered(out[..i], from, id) {
      assert KindOf(out[i]) == ToClientFromServer;
      assert i < |s.out| && out[i] == s.out[i];
      assert out[..i] == s.out[..i];
    }
    if Answered(s.out, from, id) {
      AnsweredStays(s.out, out, from, id);
    }
  }

  /** One message of the App Server, passed on or filtered as the set of list ids says. */
  lemma ServerMessageLists(cfg: Config, s: State, v: Json, order: seq<string>, saveWorks: bool, from: nat, id: Json)
    requires ListInv(s, from, id)
    ensures KeepsFiltering(HandleServerMessage(cfg, s, v, order, saveWorks), from, id)
  {
    hide HandleStartAnswer, FilterThreadList, AddRequest, FindAnswered, IsInitializeResponse, FilteredFirst, Answered;
    var r := HandleServerMessage(cfg, s, v, order, saveWorks);
    var answered := FindAnswered(order, s.pending, v);
    if IsInitializeResponse(s, v) {
      QuietLists(s, r, from, id, {ToServerAdd});
    } else if answered.Some? {
      StartAnswerFrame(s, answered.value, v, saveWorks);
      QuietLists(s, r, from, id, {ToClientStart});
    } else if Field(v, "id").Some? && Field(v, "id").value in s.listIds {
      ListAnswerLists(s, v, from, id);
    } else {
      PassedOnLists(s, v, from, id);
    }
  }

  lemma ListAnswerLists(s: State, v: Json, from: nat, id: Json)
    requires ListInv(s, from, id) && Field(v, "id").Some?
    ensures KeepsFiltering(HandleListAnswer(s, v), from, id)
  {
    hide FilterThreadList, FilteredFirst;
    var r := HandleListAnswer(s, v);
    var frame := ClientThreadList(v, s.scope, FilterThreadList(v, s.scope));
    QuietLists(s, Next(Send(s, frame)), from, id, {ToClientList});
    assert r.state.out[|s.out|] == frame;
    if Field(v, "id") == Some(id) {
      assert ListAnswer(r.state.out[|s.out|], id);
    }
  }

  lemma PassedOnLists(s: State, v: Json, from: nat, id: Json)
    requires ListInv(s, from, id) && (Field(v, "id").Some? ==> Field(v, "id").value !in s.listIds)
    ensures KeepsFiltering(Next(Send(s, ClientFromServer(v))), from, id)
  {
    hide Answered;
    var out := s.out + [ClientFromServer(v)];
    assert out[..|s.out|] == s.out;
    if Answered(s.out, from, id) {
      AnsweredStays(s.out, out, from, id);
    }
    forall i | from <= i < |out| && Unfiltered(out[i], id) ensures Answered(out[..i], from, id) {
      if i < |s.out| {
        assert out[i] == s.out[i] && out[..i] == s.out[..i];
      }
    }
  }

  lemma ThenTailLists(cfg: Config, r: Step, from: nat, id: Json)
    requires KeepsFiltering(r, from, id)
    ensures KeepsFiltering(ThenTail(cfg, r), from, id)
  {
    hide LoopTail, FilteredFirst, Answered;
    if r.Next? {
      LoopTailFrame(cfg, r.state);
      QuietLists(r.state, LoopTail(cfg, r.state), from, id, TAIL);
    }
  }

  lemma ListTurn(cfg: Config, s: State, e: Event, from: nat, id: Json)
    requires ListInv(s, from, id)
    ensures KeepsFiltering(Handle(cfg, s, e), from, id)
  {
    hide LoopTail, ThenTail, HandleHostMessage, HandleServerMessage, AcceptClientText, Rewrite, RecordOwned, SendExpired,
         HandleStatus, BeginStatusPoll, ListInv, KeepsFiltering;
    match e
    case ClientText(text) =>
      ClientTextLists(cfg, s, text, from, id);
      ThenTailLists(cfg, HandleClientText(cfg, s, text), from, id);
    case ClientOther(frame) =>
      QuietLists(s, Next(Send(s, ServerFrame(frame))), from, id, {ToServerFrame});
      ThenTailLists(cfg, Next(Send(s, ServerFrame(frame))), from, id);
      assert ThenTail(cfg, Next(Send(s, ServerFrame(frame)))) == LoopTail(cfg, Send(s, ServerFrame(frame))) by {
        ThenTailNext(cfg, Send(s, ServerFrame(frame)));
      }
    case ServerOther(frame) =>
      QuietLists(s, Next(Send(s, ClientFrame(frame))), from, id, {ToClientFrame});
      ThenTailLists(cfg, Next(Send(s, ClientFrame(frame))), from, id);
      assert ThenTail(cfg, Next(Send(s, ClientFrame(frame)))) == LoopTail(cfg, Send(s, ClientFrame(frame))) by {
        ThenTailNext(cfg, Send(s, ClientFrame(frame)));
      }
    case ServerText(text, order, saveWorks) =>
      ServerTextLists(cfg, s, text, order, saveWorks, from, id);
    case HostLine(line, order) =>
      if line.None? {
        QuietLists(s, Failed(s.out), from, id, {});
      } else {
        HostMessageFrame(cfg, s, line.value, order);
        QuietLists(s, HandleHostMessage(cfg, s, line.value, order), from, id, {ToServerStart, ToHostRead, ToClientFromHost});
        ThenTailLists(cfg, HandleHostMessage(cfg, s, line.value, order), from, id);
      }
    case Gone => QuietLists(s, Closed(s.out), from, id, {});
    case Broken => QuietLists(s, Failed(s.out), from, id, {});
    case Expiry(expired) =>
      SendExpiredFrame(s, expired);
      QuietLists(s, SendExpired(s, expired), from, id, {ToServerStart});
      ThenTailLists(cfg, SendExpired(s, expired), from, id);
    case ScopeElsewhere(response, saveWorks) =>
      RecordFrame(s, response, saveWorks);
      QuietLists(s, Next(RecordOwned(s, response, saveWorks)), from, id, {});
  }

  lemma ThenTailNext(cfg: Config, s: State)
    ensures ThenTail(cfg, Next(s)) == LoopTail(cfg, s)
  {
    hide LoopTail;
  }

  lemma ServerTextLists(cfg: Config, s: State, text: Option<Json>, order: seq<string>, saveWorks: bool, from: nat, id: Json)
    requires ListInv(s, from, id)
    ensures KeepsFiltering(HandleServerText(cfg, s, text, order, saveWorks), from, id)
  {
    hide ThenTail, HandleServerMessage, HandleStatus, BeginStatusPoll, ListInv, KeepsFiltering, IsAddResponse, IsStatusResponse;
    if text.None? {
      QuietLists(s, Failed(s.out), from, id, {});
    } else if IsAddResponse(cfg, text.value) {
      StatusPollFrame(cfg, s, text.value);
      QuietLists(s, BeginStatusPoll(cfg, s, text.value), from, id, {ToServerStatus});
    } else if IsStatusResponse(cfg, text.value) {
      StatusFrame(cfg, s, text.value);
      QuietLists(s, HandleStatus(cfg, s, text.value), from, id, FORWARDS + {ToServerStatus});
    } else {
      ServerMessageLists(cfg, s, text.value, order, saveWorks, from, id);
      ThenTailLists(cfg, HandleServerMessage(cfg, s, text.value, order, saveWorks), from, id);
    }
  }

  lemma AcceptKeepsListIds(cfg: Config, s: State, m: Json)
    requires AcceptClientText(cfg, s, m).Next?
    ensures var r := AcceptClientText(cfg, s, m).state;
            && s.listIds <= r.listIds
            && (Method(m) == Some("thread/list") && Field(m, "id").Some? ==> Field(m, "id").value in r.listIds)
  {
    hide Forward, RequestRoute;
    var verb := Method(m);
    var id := Field(m, "id");
    var s1 := s.(initializeId := if verb == Some("initialize") then id else s.initializeId,
                 listIds := if verb == Some("thread/list") && id.Some? then s.listIds + {id.value} else s.listIds);
    ForwardFrame(cfg, s1, Held(m, RequestRoute(cfg, verb)));
  }

  lemma ClientTextLists(cfg: Config, s: State, text: Option<Json>, from: nat, id: Json)
    requires ListInv(s, from, id)
    ensures KeepsFiltering(HandleClientText(cfg, s, text), from, id)
  {
    hide AcceptClientText, Rewrite, ListInv, KeepsFiltering;
    if text.Some? && Rewrite(cfg, text.value).Some? {
      var m := Rewrite(cfg, text.value).value;
      AcceptFrame(cfg, s, m);
      if AcceptClientText(cfg, s, m).Next? {
        AcceptKeepsListIds(cfg, s, m);
      }
    }
    QuietLists(s, HandleClientText(cfg, s, text), from, id, FORWARDS + {ToServerInitialize, ToHostInitialize});
  }

  /** The turn that takes a thread/list request in remembers its id. */
  lemma RequestRemembered(cfg: Config, s: State, m: Json)
    requires Method(m) == Some("thread/list") && Field(m, "id").Some? && Handle(cfg, s, ClientText(Some(m))).Next?
    ensures Field(m, "id").value in Handle(cfg, s, ClientText(Some(m))).state.listIds
  {
    hide AcceptClientText, LoopTail;
    assert Rewrite(cfg, m) == Some(m);
    var step := AcceptClientText(cfg, s, m);
    AcceptKeepsListIds(cfg, s, m);
    LoopTailFrame(cfg, step.state);
  }

  /** The number of frames sent by the time event k has been handled. */
  ghost function SentBy(cfg: Config, scope: Option<Scope>, events: seq<Event>, k: nat): nat
    requires k < |events|
  {
    |Trace(Run(cfg, Initial(scope), events[..k + 1]))|
  }

  /** Over all runs: once a thread/list request has been taken in, the App Server's messages with its id reach
      the client filtered first, and no other message with this id comes before; until then the id is kept. */
  lemma {:induction false} ListAnswersFilteredFirst(cfg: Config, scope: Option<Scope>, events: seq<Event>, k: nat, m: Json)
    requires k < |events| && events[k] == ClientText(Some(m))
    requires Method(m) == Some("thread/list") && Field(m, "id").Some?
    requires Run(cfg, Initial(scope), events[..k]).Next? && Run(cfg, Initial(scope), events[..k + 1]).Next?
    ensures KeepsFiltering(Run(cfg, Initial(scope), events), SentBy(cfg, scope, events, k), Field(m, "id").value)
    decreases |events|
  {
    hide Handle, ListInv, KeepsFiltering;
    var n := |events| - 1;
    var id := Field(m, "id").value;
    if k == n {
      var before := Run(cfg, Initial(scope), events[..k]).state;
      assert events[..k + 1] == events;
      RequestRemembered(cfg, before, m);
      JustRemembered(Run(cfg, Initial(scope), events).state, id);
    } else {
      var init := events[..n];
      assert init[..k] == events[..k] && init[..k + 1] == events[..k + 1];
      ListAnswersFilteredFirst(cfg, scope, init, k, m);
      var before := Run(cfg, Initial(scope), init);
      if before.Next? && Enabled(before.state, events[n]) {
        RunLists(before, SentBy(cfg, scope, events, k), id);
        ListTurn(cfg, before.state, events[n], SentBy(cfg, scope, events, k), id);
      }
    }
  }

  lemma JustRemembered(s: State, id: Json)
    requires id in s.listIds
    ensures KeepsFiltering(Next(s), |s.out|, id)
  {
  }

  lemma RunLists(r: Step, from: nat, id: Json)
    requires r.Next? && KeepsFiltering(r, from, id)
    ensures ListInv(r.state, from, id)
  {
  }
}
