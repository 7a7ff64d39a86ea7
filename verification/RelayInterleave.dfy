/** Gathering instruction sources in the middle of everything else: other events between the read replies make no
    difference to the request that is sent. */
module RelayInterleave {
  import opened Wrappers
  import opened Json
  import opened RelaySpec
  import opened RelayFrames
  import opened RelayThreads
  import opened RelayProgress
  import opened RelayGather
  import RelayDispatch

  /** e answers a read of entry id, which waits in s. */
  predicate TakesRead(s: State, e: Event, id: string) {
    Enabled(s, e) && Unsent(s, id) && AnswersRead(e, s.pending[id])
  }

  /** The reads of entry id answered from event k on while it waited, in order. */
  ghost function ReadsTaken(cfg: Config, s0: State, events: seq<Event>, k: nat, id: string): seq<string>
    requires k <= |events|
    decreases |events|
  {
    if |events| == k then []
    else
      var n := |events| - 1;
      var before := Run(cfg, s0, events[..n]);
      ReadsTaken(cfg, s0, events[..n], k, id)
        + (if before.Next? && TakesRead(before.state, events[n], id) then [StringField(events[n].line.value, "id").value] else [])
  }

  /** What they were answered with. */
  ghost function RepliesTaken(cfg: Config, s0: State, events: seq<Event>, k: nat, id: string): map<string, Json>
    requires k <= |events|
    decreases |events|
  {
    if |events| == k then map[]
    else
      var n := |events| - 1;
      var before := Run(cfg, s0, events[..n]);
      var earlier := RepliesTaken(cfg, s0, events[..n], k, id);
      if before.Next? && TakesRead(before.state, events[n], id) then
        earlier[StringField(events[n].line.value, "id").value := events[n].line.value]
      else earlier
  }

  /** From event k on, the host does not answer the shadow of entry id again, and it does not expire. */
  ghost predicate Undisturbed(cfg: Config, s0: State, events: seq<Event>, k: nat, id: string)
    requires k <= |events|
    decreases |events|
  {
    |events| > k ==>
      var n := |events| - 1;
      && Undisturbed(cfg, s0, events[..n], k, id)
      && !AnswersShadow(events[n], id) && !(events[n].Expiry? && id in events[n].expired)
  }

  predicate SentAs(out: seq<Sent>, id: string, m: Json) {
    exists j :: 0 <= j < |out| && out[j] == LocalStart(id, m)
  }

  /** Entry id began as p and has had the replies of answered: it is what gathering them makes of p, or its request was
      sent for just that. */
  ghost predicate GatheredSoFar(cfg: Config, s: State, id: string, p: Pending, answered: seq<string>, replies: map<string, Json>) {
    && Answering(p, answered, replies)
    && var g := Gather(cfg, p, answered, replies);
      && g.Some?
      && if Unsent(s, id) then s.pending[id] == g.value
         else g.value.outstanding == map[] && LocalRequest(g.value).Some? && SentAs(s.out, id, LocalRequest(g.value).value)
  }

  lemma SentAsLonger(before: seq<Sent>, after: seq<Sent>, id: string, m: Json)
    requires before <= after && SentAs(before, id, m)
    ensures SentAs(after, id, m)
  {
    var j :| 0 <= j < |before| && before[j] == LocalStart(id, m);
    assert after[j] == before[j];
  }

  /** A reply to an awaited read, wherever it comes. */
  lemma ReadTaken(cfg: Config, s: State, e: Event, id: string, p: Pending, answered: seq<string>, replies: map<string, Json>)
    requires ThreadInv(cfg, s) && RelayDispatch.QueueInv(cfg, s) && |Shadows(s.out)| <= U64_MAX
    requires TakesRead(s, e, id) && GatheredSoFar(cfg, s, id, p, answered, replies) && Handle(cfg, s, e).Next?
    ensures var readId := StringField(e.line.value, "id").value;
            GatheredSoFar(cfg, Handle(cfg, s, e).state, id, p, answered + [readId], replies[readId := e.line.value])
  {
    hide Handle, ThreadInv, RelayDispatch.QueueInv, Shadows, RecordRead, Gather, LocalRequest, EntryMid, EntryInv;
    var readId, v := StringField(e.line.value, "id").value, e.line.value;
    ReplyHandled(cfg, s, id, readId, v, e.order);
    EntryOf(cfg, s, id);
    RecordedMid(cfg, id, s.pending[id], readId, v);
    NextAnswered(cfg, p, answered, replies, readId, v);
    GatherLast(cfg, p, answered, readId, replies[readId := v]);
    var recorded := RecordRead(cfg, s.pending[id], readId, v).value;
    if recorded.outstanding == map[] {
      SendLocalSent(cfg, s.(pending := s.pending[id := recorded]), id);
    }
  }

  lemma NextAnswered(cfg: Config, p: Pending, answered: seq<string>, replies: map<string, Json>, readId: string, v: Json)
    requires Answering(p, answered, replies) && Gather(cfg, p, answered, replies).Some?
    requires readId in Gather(cfg, p, answered, replies).value.outstanding
    ensures Answering(p, answered + [readId], replies[readId := v]) && Answering(p, answered, replies[readId := v])
    ensures Gather(cfg, p, answered, replies[readId := v]) == Gather(cfg, p, answered, replies)
  {
    hide Gather;
    assert readId in p.outstanding && readId !in answered by {
      assert readId in p.outstanding - Elems(answered);
    }
    assert forall r :: r in answered + [readId] <==> r in answered || r == readId;
    SameReplies(cfg, p, answered, replies, replies[readId := v]);
  }

  lemma SendLocalSent(cfg: Config, s: State, id: string)
    requires id in s.pending && EntryMid(id, s.pending[id]) && !s.pending[id].localSent
    ensures LocalRequest(s.pending[id]).Some?
    ensures var r := SendLocal(s, id);
            r.Next? && !Unsent(r.state, id) && SentAs(r.state.out, id, LocalRequest(s.pending[id]).value)
  {
    hide ReadsOf, WithinBudget, Sections, Instructions;
    var m := LocalRequest(s.pending[id]).value;
    assert (s.out + [LocalStart(id, m)])[|s.out|] == LocalStart(id, m);
  }

  /** Any other event. */
  lemma NotTaken(cfg: Config, s: State, e: Event, id: string, p: Pending, answered: seq<string>, replies: map<string, Json>)
    requires ThreadInv(cfg, s) && Enabled(s, e) && |Shadows(s.out)| <= U64_MAX
    requires GatheredSoFar(cfg, s, id, p, answered, replies) && !TakesRead(s, e, id)
    requires !AnswersShadow(e, id) && !(e.Expiry? && id in e.expired)
    requires Handle(cfg, s, e).Next? && |Shadows(Handle(cfg, s, e).state.out)| <= U64_MAX
    requires !Unsent(s, id) ==> !Unsent(Handle(cfg, s, e).state, id)
    ensures GatheredSoFar(cfg, Handle(cfg, s, e).state, id, p, answered, replies)
  {
    hide Handle, ThreadInv, Shadows, Gather, LocalRequest, Answering, Enabled;
    HandleGrows(cfg, s, e);
    if Unsent(s, id) {
      ProgressTurn(cfg, s, e, id);
    } else {
      var g := Gather(cfg, p, answered, replies).value;
      SentAsLonger(s.out, Handle(cfg, s, e).state.out, id, LocalRequest(g).value);
    }
  }

  /** The situation at event k: the host has answered the shadow of entry id, and its reads are awaited. */
  ghost predicate Waiting(cfg: Config, scope: Option<Scope>, events: seq<Event>, k: nat, id: string) {
    && k <= |events| && Run(cfg, Initial(scope), events[..k]).Next?
    && Unsent(Run(cfg, Initial(scope), events[..k]).state, id)
  }

  /** Over all runs: whatever events come from k on, of whatever kind and for whatever entries, entry id is what its
      own read replies make of it, or its request was sent for that. */
  lemma {:induction false} EntryGathered(cfg: Config, scope: Option<Scope>, events: seq<Event>, k: nat, id: string)
    requires Waiting(cfg, scope, events, k, id) && Undisturbed(cfg, Initial(scope), events, k, id)
    requires Run(cfg, Initial(scope), events).Next? && |Shadows(Run(cfg, Initial(scope), events).state.out)| <= U64_MAX
    ensures var s0 := Initial(scope);
            GatheredSoFar(cfg, Run(cfg, s0, events).state, id, Run(cfg, s0, events[..k]).state.pending[id],
                          ReadsTaken(cfg, s0, events, k, id), RepliesTaken(cfg, s0, events, k, id))
    decreases |events|
  {
    hide Handle, ThreadInv, WireThreads, Shadows, RelayDispatch.QueueInv, RelayDispatch.Received, RelayDispatch.Forwarded,
         GatheredSoFar, Enabled, AnswersRead;
    var s0 := Initial(scope);
    var p := Run(cfg, s0, events[..k]).state.pending[id];
    if |events| == k {
      assert events[..k] == events;
      NothingTaken(cfg, Run(cfg, s0, events).state, id, p);
    } else {
      var n := |events| - 1;
      var init := events[..n];
      assert init[..k] == events[..k];
      var before, after := Run(cfg, s0, init), Run(cfg, s0, events);
      ReachedInv(cfg, scope, init);
      GrowsTurn(cfg, before.state, events[n], after.state);
      EntryGathered(cfg, scope, init, k, id);
      assert ReadsTaken(cfg, s0, init, k, id) + [] == ReadsTaken(cfg, s0, init, k, id);
      if Enabled(before.state, events[n]) {
        if TakesRead(before.state, events[n], id) {
          ReadTaken(cfg, before.state, events[n], id, p, ReadsTaken(cfg, s0, init, k, id), RepliesTaken(cfg, s0, init, k, id));
        } else {
          StaysSent(cfg, scope, events, k, id);
          NotTaken(cfg, before.state, events[n], id, p, ReadsTaken(cfg, s0, init, k, id), RepliesTaken(cfg, s0, init, k, id));
        }
      }
    }
  }

  lemma NothingTaken(cfg: Config, s: State, id: string, p: Pending)
    requires Unsent(s, id) && p == s.pending[id]
    ensures GatheredSoFar(cfg, s, id, p, [], map[])
  {
  }

  lemma ReachedInv(cfg: Config, scope: Option<Scope>, events: seq<Event>)
    requires Run(cfg, Initial(scope), events).Next?
    ensures ThreadInv(cfg, Run(cfg, Initial(scope), events).state)
    ensures RelayDispatch.QueueInv(cfg, Run(cfg, Initial(scope), events).state)
  {
    hide Run, ThreadInv, WireThreads, RelayDispatch.QueueInv, RelayDispatch.Received, RelayDispatch.Forwarded;
    ThreadStartsAccounted(cfg, scope, events);
    RelayDispatch.FirstInFirstOut(cfg, scope, events);
  }

  lemma GrowsTurn(cfg: Config, s: State, e: Event, s': State)
    requires ThreadInv(cfg, s) && (if Enabled(s, e) then Handle(cfg, s, e) == Next(s') else s' == s)
    ensures s.out <= s'.out && |Shadows(s.out)| <= |Shadows(s'.out)|
  {
    hide Handle, ThreadInv, Shadows, Enabled;
    if Enabled(s, e) {
      HandleGrows(cfg, s, e);
    }
    ShadowsGrow(s.out, s'.out);
  }

  lemma {:induction false} RunGrowsFrom(cfg: Config, scope: Option<Scope>, events: seq<Event>, k: nat)
    requires k <= |events| && Run(cfg, Initial(scope), events).Next?
    ensures Run(cfg, Initial(scope), events[..k]).Next?
    ensures Run(cfg, Initial(scope), events[..k]).state.out <= Run(cfg, Initial(scope), events).state.out
    decreases |events|
  {
    hide Handle, ThreadInv, Enabled, RelayDispatch.QueueInv;
    if k < |events| {
      var n := |events| - 1;
      ReachedInv(cfg, scope, events[..n]);
      GrowsTurn(cfg, Run(cfg, Initial(scope), events[..n]).state, events[n], Run(cfg, Initial(scope), events).state);
      RunGrowsFrom(cfg, scope, events[..n], k);
      assert events[..n][..k] == events[..k];
    } else {
      assert events[..k] == events;
    }
  }

  /** An entry that waited and has been sent does not wait again. */
  lemma StaysSent(cfg: Config, scope: Option<Scope>, events: seq<Event>, k: nat, id: string)
    requires Waiting(cfg, scope, events, k, id) && k < |events|
    requires Run(cfg, Initial(scope), events).Next? && |Shadows(Run(cfg, Initial(scope), events).state.out)| <= U64_MAX
    ensures var before := Run(cfg, Initial(scope), events[..|events| - 1]);
            before.Next? && (!Unsent(before.state, id) ==> !Unsent(Run(cfg, Initial(scope), events).state, id))
  {
    hide Run, ThreadInv, Shadows, Unsent, RelayDispatch.QueueInv;
    var n := |events| - 1;
    RunGrowsFrom(cfg, scope, events, n);
    RunGrowsFrom(cfg, scope, events[..n], k);
    assert events[..n][..k] == events[..k];
    ReachedInv(cfg, scope, events);
    ReachedInv(cfg, scope, events[..n]);
    ReachedInv(cfg, scope, events[..k]);
    var first, before, after := Run(cfg, Initial(scope), events[..k]).state, Run(cfg, Initial(scope), events[..n]).state,
                                Run(cfg, Initial(scope), events).state;
    if !Unsent(before, id) {
      SettledStays(cfg, before, after, first, id);
    }
  }

  /** Two runs with a common beginning, in which entry id came to wait for reads of distinct paths, and with whatever
      events after it: if both have sent its request and the host gave the same replies to its reads, in whatever
      order and whatever happened between them, the requests are the same. */
  lemma InterleavingIrrelevant(cfg: Config, scope: Option<Scope>, events: seq<Event>, other: seq<Event>, k: nat, id: string)
    requires Waiting(cfg, scope, events, k, id) && Waiting(cfg, scope, other, k, id) && events[..k] == other[..k]
    requires Undisturbed(cfg, Initial(scope), events, k, id) && Undisturbed(cfg, Initial(scope), other, k, id)
    requires Run(cfg, Initial(scope), events).Next? && |Shadows(Run(cfg, Initial(scope), events).state.out)| <= U64_MAX
    requires Run(cfg, Initial(scope), other).Next? && |Shadows(Run(cfg, Initial(scope), other).state.out)| <= U64_MAX
    requires !Unsent(Run(cfg, Initial(scope), events).state, id) && !Unsent(Run(cfg, Initial(scope), other).state, id)
    requires DistinctPaths(Run(cfg, Initial(scope), events[..k]).state.pending[id])
    requires RepliesTaken(cfg, Initial(scope), events, k, id) == RepliesTaken(cfg, Initial(scope), other, k, id)
    ensures exists m :: && SentAs(Run(cfg, Initial(scope), events).state.out, id, m)
                        && SentAs(Run(cfg, Initial(scope), other).state.out, id, m)
  {
    hide Run, ThreadInv, Shadows, RelayDispatch.QueueInv, Gather, LocalRequest, DistinctPaths, TextBytes, SentAs, Undisturbed,
         ReadsTaken, RepliesTaken, EntryMid;
    var s0 := Initial(scope);
    var p := Run(cfg, s0, events[..k]).state.pending[id];
    EntryGathered(cfg, scope, events, k, id);
    EntryGathered(cfg, scope, other, k, id);
    ReachedInv(cfg, scope, events[..k]);
    EntryOf(cfg, Run(cfg, s0, events[..k]).state, id);
    MidBudget(id, p);
    var order, later := ReadsTaken(cfg, s0, events, k, id), ReadsTaken(cfg, s0, other, k, id);
    var replies := RepliesTaken(cfg, s0, events, k, id);
    AllTaken(cfg, p, order, replies);
    AllTaken(cfg, p, later, replies);
    GatherConfluent(cfg, p, order, later, replies);
  }

  lemma MidBudget(id: string, p: Pending)
    requires EntryMid(id, p)
    ensures TextBytes(p.contents) <= MAX_INSTRUCTION_TOTAL_BYTES
  {
    hide TextBytes;
  }

  lemma AllTaken(cfg: Config, p: Pending, answered: seq<string>, replies: map<string, Json>)
    requires Answering(p, answered, replies) && Gather(cfg, p, answered, replies).Some?
    requires Gather(cfg, p, answered, replies).value.outstanding == map[]
    ensures forall r :: r in answered <==> r in p.outstanding
  {
    hide Gather;
    forall r | r in p.outstanding ensures r in answered {
      assert r !in p.outstanding - Elems(answered);
    }
  }
}
