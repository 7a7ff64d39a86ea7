/** Gathering instruction sources is confluent: the order of the host's read replies is irrelevant. */
module RelayGather {
  import opened Wrappers
  import opened Json
  import opened RelaySpec
  import opened RelayFrames
  import opened RelayThreads
  import opened RelayProgress
  import RelayDispatch
  import Ids

  /** The text a read reply delivers, if it delivers one. */
  function TextOf(cfg: Config, v: Json): Option<string> {
    if ReplyData(v).None? then None else cfg.decodeBase64(ReplyData(v).value)
  }

  /** A reply record_instruction_read accepts as far as the reply alone decides. */
  predicate Readable(cfg: Config, v: Json) {
    ReplyData(v).Some? ==>
      var bytes := cfg.decodeBase64(ReplyData(v).value);
      bytes.Some? && |bytes.value| <= MAX_INSTRUCTION_SOURCE_BYTES && cfg.validUtf8(bytes.value)
  }

  /** order lists reads that p waits for, each once, and replies answers all of them. */
  predicate Answering(p: Pending, order: seq<string>, replies: map<string, Json>) {
    && (forall r :: r in order ==> r in p.outstanding && r in replies)
    && (forall i, j :: 0 <= i < j < |order| ==> order[i] != order[j])
  }

  /** No awaited path has a text yet, or only the empty one. */
  predicate FreshPaths(p: Pending) {
    forall r :: r in p.outstanding && p.outstanding[r] in p.contents ==> p.contents[p.outstanding[r]] == []
  }

  /** The host listed no path twice, and no awaited path has a text yet. */
  predicate DistinctPaths(p: Pending) {
    && (forall r, q :: r in p.outstanding && q in p.outstanding && r != q ==> p.outstanding[r] != p.outstanding[q])
    && FreshPaths(p)
  }

  function Elems(xs: seq<string>): (r: set<string>)
    ensures forall x :: x in r <==> x in xs
  {
    set x | x in xs
  }

  lemma ElemsLast(xs: seq<string>)
    requires xs != []
    ensures Elems(xs) == Elems(xs[..|xs| - 1]) + {xs[|xs| - 1]}
  {
  }

  /** record_instruction_read for the replies in this order; None when one of them is refused. */
  ghost function Gather(cfg: Config, p: Pending, order: seq<string>, replies: map<string, Json>): (r: Option<Pending>)
    requires Answering(p, order, replies)
    ensures r.Some? ==> r.value.outstanding == p.outstanding - Elems(order)
    decreases |order|
  {
    if order == [] then Some(p)
    else
      var last := order[|order| - 1];
      var before := Gather(cfg, p, order[..|order| - 1], replies);
      ElemsLast(order);
      if before.None? then None else RecordRead(cfg, before.value, last, replies[last])
  }

  /** The stored texts once the replies of order are in. */
  function Stored(cfg: Config, p: Pending, order: seq<string>, replies: map<string, Json>): map<string, string>
    requires Answering(p, order, replies)
  {
    if order == [] then p.contents
    else
      var last := order[|order| - 1];
      var before := Stored(cfg, p, order[..|order| - 1], replies);
      var text := TextOf(cfg, replies[last]);
      if text.Some? then before[p.outstanding[last] := text.value] else before
  }

  ghost predicate Delivers(cfg: Config, p: Pending, order: seq<string>, replies: map<string, Json>, path: string)
    requires Answering(p, order, replies)
  {
    exists r :: r in order && TextOf(cfg, replies[r]).Some? && p.outstanding[r] == path
  }

  /** Replies to reads of one path deliver one text. */
  ghost predicate Consistent(cfg: Config, p: Pending, order: seq<string>, replies: map<string, Json>)
    requires Answering(p, order, replies)
  {
    forall r, q ::
      (r in order && q in order && p.outstanding[r] == p.outstanding[q]
       && TextOf(cfg, replies[r]).Some? && TextOf(cfg, replies[q]).Some?)
      ==> TextOf(cfg, replies[r]) == TextOf(cfg, replies[q])
  }

  /** Then the stored texts are the old ones and each delivered one under its path. */
  lemma {:induction false} StoredAt(cfg: Config, p: Pending, order: seq<string>, replies: map<string, Json>)
    requires Answering(p, order, replies) && Consistent(cfg, p, order, replies)
    ensures var m := Stored(cfg, p, order, replies);
            && (forall path :: path in m <==> path in p.contents || Delivers(cfg, p, order, replies, path))
            && (forall path :: path in p.contents && !Delivers(cfg, p, order, replies, path) ==> m[path] == p.contents[path])
            && (forall r :: r in order && TextOf(cfg, replies[r]).Some? ==> m[p.outstanding[r]] == TextOf(cfg, replies[r]).value)
    decreases |order|
  {
    if order != [] {
      var init, last := order[..|order| - 1], order[|order| - 1];
      hide TextOf;
      assert forall r :: r in order <==> r in init || r == last;
      StoredAt(cfg, p, init, replies);
      forall path ensures Delivers(cfg, p, order, replies, path)
        <==> Delivers(cfg, p, init, replies, path) || (TextOf(cfg, replies[last]).Some? && p.outstanding[last] == path)
      {
      }
    }
  }

  lemma DistinctIsConsistent(cfg: Config, p: Pending, order: seq<string>, replies: map<string, Json>)
    requires Answering(p, order, replies) && DistinctPaths(p)
    ensures Consistent(cfg, p, order, replies)
  {
    hide TextOf;
  }

  ghost predicate AllReadable(cfg: Config, order: seq<string>, replies: map<string, Json>)
    requires forall r :: r in order ==> r in replies
  {
    forall r :: r in order ==> Readable(cfg, replies[r])
  }

  /** What gathering comes to, without reference to the order: it succeeds exactly when every reply is
      acceptable and all texts together fit the budget, and then stores every text under its path. */
  ghost predicate Gathered(cfg: Config, p: Pending, order: seq<string>, replies: map<string, Json>, r: Option<Pending>)
    requires Answering(p, order, replies)
  {
    var contents := Stored(cfg, p, order, replies);
    if AllReadable(cfg, order, replies) && TextBytes(contents) <= MAX_INSTRUCTION_TOTAL_BYTES then
      r == Some(p.(outstanding := p.outstanding - Elems(order), contents := contents))
    else r.None?
  }

  lemma LastPathIsNew(cfg: Config, p: Pending, order: seq<string>, replies: map<string, Json>)
    requires order != [] && Answering(p, order, replies) && DistinctPaths(p)
    ensures var m, path := Stored(cfg, p, order[..|order| - 1], replies), p.outstanding[order[|order| - 1]];
            path in m ==> m[path] == []
  {
    hide Stored, TextOf;
    DistinctIsConsistent(cfg, p, order[..|order| - 1], replies);
    StoredAt(cfg, p, order[..|order| - 1], replies);
    assert order[|order| - 1] !in order[..|order| - 1];
  }

  lemma {:induction false} GatherClosedForm(cfg: Config, p: Pending, order: seq<string>, replies: map<string, Json>)
    requires Answering(p, order, replies) && DistinctPaths(p) && TextBytes(p.contents) <= MAX_INSTRUCTION_TOTAL_BYTES
    ensures Gathered(cfg, p, order, replies, Gather(cfg, p, order, replies))
    decreases |order|
  {
    hide TextBytes, Readable, TextOf, RecordRead, DistinctPaths;
    if order == [] {
      assert p.outstanding - Elems(order) == p.outstanding;
    } else {
      var last, init := order[|order| - 1], order[..|order| - 1];
      GatherClosedForm(cfg, p, init, replies);
      LastPathIsNew(cfg, p, order, replies);
      assert forall r :: r in order <==> r in init || r == last;
      var text := TextOf(cfg, replies[last]);
      var before := Stored(cfg, p, init, replies);
      if text.Some? {
        TextBytesUpdate(before, p.outstanding[last], text.value);
      }
      var gathered := Gather(cfg, p, init, replies);
      ElemsLast(order);
      assert p.outstanding - Elems(init) - {last} == p.outstanding - Elems(order);
      if gathered.Some? {
        RecordLast(cfg, p, gathered.value, last, replies[last], before);
      }
    }
  }

  lemma RecordLast(cfg: Config, p: Pending, q: Pending, last: string, v: Json, before: map<string, string>)
    requires last in p.outstanding && last in q.outstanding && q.outstanding[last] == p.outstanding[last]
    requires q == p.(outstanding := q.outstanding, contents := before)
    requires TextBytes(before) <= MAX_INSTRUCTION_TOTAL_BYTES
    ensures var r, text := RecordRead(cfg, q, last, v), TextOf(cfg, v);
            if Readable(cfg, v) && TextBytes(before) + (if text.Some? then |text.value| else 0) <= MAX_INSTRUCTION_TOTAL_BYTES then
              r == Some(p.(outstanding := q.outstanding - {last},
                           contents := if text.Some? then before[p.outstanding[last] := text.value] else before))
            else r.None?
  {
    hide TextBytes;
  }

  lemma StoredConfluent(cfg: Config, p: Pending, order: seq<string>, other: seq<string>, replies: map<string, Json>)
    requires Answering(p, order, replies) && Answering(p, other, replies) && Consistent(cfg, p, order, replies)
    requires (forall r :: r in order <==> r in other)
    ensures Stored(cfg, p, order, replies) == Stored(cfg, p, other, replies)
  {
    hide Stored, TextOf;
    StoredAt(cfg, p, order, replies);
    StoredAt(cfg, p, other, replies);
    assert forall path :: Delivers(cfg, p, order, replies, path) <==> Delivers(cfg, p, other, replies, path);
  }

  /** Any two orders of the same replies gather the same entry, or both are refused. */
  lemma GatherConfluent(cfg: Config, p: Pending, order: seq<string>, other: seq<string>, replies: map<string, Json>)
    requires Answering(p, order, replies) && Answering(p, other, replies)
    requires (forall r :: r in order <==> r in other)
    requires DistinctPaths(p) && TextBytes(p.contents) <= MAX_INSTRUCTION_TOTAL_BYTES
    ensures Gather(cfg, p, order, replies) == Gather(cfg, p, other, replies)
  {
    hide Gather, TextBytes, Stored, Readable;
    GatherClosedForm(cfg, p, order, replies);
    GatherClosedForm(cfg, p, other, replies);
    DistinctIsConsistent(cfg, p, order, replies);
    StoredConfluent(cfg, p, order, other, replies);
    assert Elems(order) == Elems(other);
  }

  // ---- In the relay --------------------------------------------------------------------------

  function ReplyEvents(order: seq<string>, replies: map<string, Json>, hash: seq<string>): seq<Event>
    requires forall r :: r in order ==> r in replies
  {
    seq(|order|, i requires 0 <= i < |order| => HostLine(Some(replies[order[i]]), hash))
  }

  /** At the head of the loop the loop tail has nothing left to do. */
  lemma TailIdle(cfg: Config, s: State)
    requires RelayDispatch.QueueInv(cfg, s)
    ensures LoopTail(cfg, s) == Next(s)
  {
  }

  /** Entry id of s, replaced by p. */
  function WithEntry(s: State, id: string, p: Pending): State {
    s.(pending := s.pending[id := p])
  }

  /** The situation in which the relay waits for the reads of entry id and nothing else happens. */
  ghost predicate Awaiting(cfg: Config, s: State, id: string, order: seq<string>, replies: map<string, Json>, hash: seq<string>) {
    && ThreadInv(cfg, s) && RelayDispatch.QueueInv(cfg, s) && |Shadows(s.out)| <= U64_MAX
    && Unsent(s, id) && Lists(hash, s.pending.Keys)
    && Answering(s.pending[id], order, replies)
    && forall r :: r in order ==> HasId(replies[r], r)
  }

  lemma ReplyHandled(cfg: Config, s: State, id: string, readId: string, v: Json, hash: seq<string>)
    requires ThreadInv(cfg, s) && RelayDispatch.QueueInv(cfg, s) && |Shadows(s.out)| <= U64_MAX
    requires id in s.pending && Lists(hash, s.pending.Keys)
    requires readId in s.pending[id].outstanding && HasId(v, readId)
    ensures Handle(cfg, s, HostLine(Some(v), hash)) == HandleReadReply(cfg, s, id, readId, v)
  {
    hide HandleReadReply, ThreadInv, Shadows, LoopTail, RelayDispatch.QueueInv;
    ReadIdIsNoShadow(cfg, s, readId, id);
    var reader := FindReader(hash, s.pending, readId);
    assert reader.Some?;
    ReaderUnique(cfg, s, readId, id, reader.value);
    ReadReplyFrame(cfg, s, id, readId, v);
    var r := HandleReadReply(cfg, s, id, readId, v);
    if r.Next? {
      assert RelayDispatch.QueueInv(cfg, r.state) by { QueueFrame(cfg, s, r.state); }
      TailIdle(cfg, r.state);
    }
  }

  lemma QueueFrame(cfg: Config, s: State, s': State)
    requires RelayDispatch.QueueInv(cfg, s) && s' == s.(pending := s'.pending, out := s'.out)
    ensures RelayDispatch.QueueInv(cfg, s')
  {
  }

  /** The state when the replies of order, which leave some read outstanding, have been processed. */
  ghost predicate Between(cfg: Config, s: State, id: string, gathered: Option<Pending>, r: Step)
    requires id in s.pending
  {
    if gathered.Some? then r == Next(WithEntry(s, id, gathered.value)) else r == Failed(s.out)
  }

  lemma GatheredMid(cfg: Config, s: State, id: string, order: seq<string>, replies: map<string, Json>)
    requires ThreadInv(cfg, s) && Unsent(s, id) && Answering(s.pending[id], order, replies)
    ensures var g := Gather(cfg, s.pending[id], order, replies);
            g.Some? ==>
              && EntryMid(id, g.value)
              && g.value.localSent == s.pending[id].localSent && g.value.hostResponse == s.pending[id].hostResponse
    decreases |order|
  {
    hide RecordRead, EntryMid;
    EntryOf(cfg, s, id);
    if order != [] {
      var init, last := order[..|order| - 1], order[|order| - 1];
      GatheredMid(cfg, s, id, init, replies);
      var g := Gather(cfg, s.pending[id], init, replies);
      if g.Some? {
        assert last in g.value.outstanding;
        assert EntryInv(id, g.value) by { MidWaits(id, g.value, last); }
        RecordedMid(cfg, id, g.value, last, replies[last]);
      }
    }
  }

  lemma MidWaits(id: string, p: Pending, readId: string)
    requires EntryMid(id, p) && readId in p.outstanding
    ensures EntryInv(id, p)
  {
  }

  lemma GatherLast(cfg: Config, p: Pending, init: seq<string>, last: string, replies: map<string, Json>)
    requires Answering(p, init + [last], replies)
    ensures Answering(p, init, replies)
    ensures var before, g := Gather(cfg, p, init, replies), Gather(cfg, p, init + [last], replies);
            && (before.None? ==> g.None?)
            && (before.Some? ==> last in before.value.outstanding && g == RecordRead(cfg, before.value, last, replies[last]))
  {
    hide RecordRead;
    var order := init + [last];
    assert order[..|order| - 1] == init && order[|order| - 1] == last;
    assert forall i :: 0 <= i < |init| ==> order[i] == init[i];
    assert order[|init|] in order;
  }

  lemma {:induction false} SameReplies(cfg: Config, p: Pending, answered: seq<string>, replies: map<string, Json>, more: map<string, Json>)
    requires Answering(p, answered, replies) && forall r :: r in answered ==> r in more && more[r] == replies[r]
    ensures Answering(p, answered, more) && Gather(cfg, p, answered, more) == Gather(cfg, p, answered, replies)
    decreases |answered|
  {
    hide RecordRead;
    if answered != [] {
      SameReplies(cfg, p, answered[..|answered| - 1], replies, more);
    }
  }

  lemma AllAnswered(cfg: Config, p: Pending, order: seq<string>, replies: map<string, Json>)
    requires Answering(p, order, replies) && forall r :: r in p.outstanding ==> r in order
    ensures var g := Gather(cfg, p, order, replies); g.Some? ==> g.value.outstanding == map[]
  {
    hide Gather;
  }

  lemma RunLast(cfg: Config, s: State, events: seq<Event>, e: Event)
    ensures var before := Run(cfg, s, events);
            Run(cfg, s, events + [e]) == if before.Next? && Enabled(before.state, e) then Handle(cfg, before.state, e) else before
  {
    hide Handle, Enabled;
    assert (events + [e])[..|events|] == events;
  }

  lemma {:induction false} RepliesRun(cfg: Config, s: State, id: string, order: seq<string>, replies: map<string, Json>, hash: seq<string>)
    requires Awaiting(cfg, s, id, order, replies, hash)
    requires exists r :: r in s.pending[id].outstanding && r !in order
    ensures Between(cfg, s, id, Gather(cfg, s.pending[id], order, replies), Run(cfg, s, ReplyEvents(order, replies, hash)))
    decreases |order|
  {
    hide Handle, Enabled, RecordRead, ThreadInv, Shadows, RelayDispatch.QueueInv;
    if order == [] {
      assert WithEntry(s, id, s.pending[id]) == s by { assert s.pending[id := s.pending[id]] == s.pending; }
    } else {
      hide Run, Gather, WithEntry;
      var init, last := order[..|order| - 1], order[|order| - 1];
      assert init + [last] == order;
      var e := HostLine(Some(replies[last]), hash);
      assert ReplyEvents(order, replies, hash) == ReplyEvents(init, replies, hash) + [e];
      RunLast(cfg, s, ReplyEvents(init, replies, hash), e);
      GatherLast(cfg, s.pending[id], init, last, replies);
      RepliesRun(cfg, s, id, init, replies, hash);
      if Gather(cfg, s.pending[id], init, replies).Some? {
        OneMoreReply(cfg, s, id, init, last, replies, hash);
        StillWaiting(cfg, s.pending[id], order, replies);
      }
    }
  }

  lemma StillWaiting(cfg: Config, p: Pending, order: seq<string>, replies: map<string, Json>)
    requires Answering(p, order, replies) && exists r :: r in p.outstanding && r !in order
    ensures var g := Gather(cfg, p, order, replies); g.Some? ==> g.value.outstanding != map[]
  {
    hide Gather;
    var left :| left in p.outstanding && left !in order;
    var g := Gather(cfg, p, order, replies);
    assert g.Some? ==> left in g.value.outstanding;
  }

  /** Handling one more reply after those of init. */
  lemma OneMoreReply(cfg: Config, s: State, id: string, init: seq<string>, last: string, replies: map<string, Json>, hash: seq<string>)
    requires Awaiting(cfg, s, id, init + [last], replies, hash) && Answering(s.pending[id], init, replies)
    requires Gather(cfg, s.pending[id], init, replies).Some?
    ensures var g := Gather(cfg, s.pending[id], init, replies).value;
            var s1, e := WithEntry(s, id, g), HostLine(Some(replies[last]), hash);
            && Enabled(s1, e) && last in g.outstanding
            && var recorded := RecordRead(cfg, g, last, replies[last]);
               Handle(cfg, s1, e) == if recorded.None? then Failed(s.out)
                                     else if recorded.value.outstanding == map[] then SendLocal(WithEntry(s, id, recorded.value), id)
                                     else Next(WithEntry(s, id, recorded.value))
  {
    hide Handle, RecordRead, ThreadInv, Shadows, RelayDispatch.QueueInv, SendLocal, EntryMid;
    var g := Gather(cfg, s.pending[id], init, replies).value;
    var s1 := WithEntry(s, id, g);
    assert last in init + [last] && last !in init by {
      assert (init + [last])[|init|] == last;
      assert forall i :: 0 <= i < |init| ==> (init + [last])[i] == init[i];
    }
    GatheredMid(cfg, s, id, init, replies);
    UpdatedMid(cfg, s, id, g);
    MidIsInv(cfg, s1, id);
    assert RelayDispatch.QueueInv(cfg, s1) by { QueueFrame(cfg, s, s1); }
    assert s1.pending.Keys == s.pending.Keys;
    ReplyHandled(cfg, s1, id, last, replies[last], hash);
    var recorded := RecordRead(cfg, g, last, replies[last]);
    if recorded.Some? {
      assert s1.pending[id := recorded.value] == s.pending[id := recorded.value];
    }
  }

  /** All reads answered, in any order: the relay fails, or it has sent the request for what Gather
      collects. */
  lemma AllRepliesRun(cfg: Config, s: State, id: string, order: seq<string>, replies: map<string, Json>, hash: seq<string>)
    requires Awaiting(cfg, s, id, order, replies, hash) && order != []
    requires forall r :: r in s.pending[id].outstanding ==> r in order
    ensures var g := Gather(cfg, s.pending[id], order, replies);
            Run(cfg, s, ReplyEvents(order, replies, hash))
            == if g.None? then Failed(s.out) else SendLocal(WithEntry(s, id, g.value), id)
  {
    hide Run, Handle, Enabled, RecordRead, ThreadInv, Shadows, RelayDispatch.QueueInv, SendLocal, Gather, WithEntry;
    var init, last := order[..|order| - 1], order[|order| - 1];
    assert init + [last] == order;
    var p := s.pending[id];
    assert ReplyEvents(order, replies, hash) == ReplyEvents(init, replies, hash) + [HostLine(Some(replies[last]), hash)];
    RunLast(cfg, s, ReplyEvents(init, replies, hash), HostLine(Some(replies[last]), hash));
    GatherLast(cfg, p, init, last, replies);
    AllAnswered(cfg, p, order, replies);
    assert last in p.outstanding && last !in init by { assert order[|init|] == last; }
    RepliesRun(cfg, s, id, init, replies, hash);
    if Gather(cfg, p, init, replies).Some? {
      OneMoreReply(cfg, s, id, init, last, replies, hash);
    }
  }

  lemma FirstElement(xs: seq<string>)
    ensures xs != [] ==> xs[0] in xs
  {
  }

  /** The order in which the host answers the reads of one thread/start makes no difference to
      anything: the relay either fails or ends in the same state, having sent the same request. */
  lemma RepliesConfluent(cfg: Config, s: State, id: string, order: seq<string>, other: seq<string>,
                         replies: map<string, Json>, hash: seq<string>)
    requires Awaiting(cfg, s, id, order, replies, hash) && Awaiting(cfg, s, id, other, replies, hash)
    requires forall r :: r in s.pending[id].outstanding ==> r in order && r in other
    requires DistinctPaths(s.pending[id])
    ensures Run(cfg, s, ReplyEvents(order, replies, hash)) == Run(cfg, s, ReplyEvents(other, replies, hash))
  {
    hide Gather, ThreadInv, Shadows, RelayDispatch.QueueInv, SendLocal, Run;
    assert EntryInv(id, s.pending[id]) by { EntryOf(cfg, s, id); }
    assert TextBytes(s.pending[id].contents) <= MAX_INSTRUCTION_TOTAL_BYTES;
    GatherConfluent(cfg, s.pending[id], order, other, replies);
    if order == [] {
      FirstElement(other);
    } else {
      assert other != [] by { assert order[0] in other; }
      AllRepliesRun(cfg, s, id, order, replies, hash);
      AllRepliesRun(cfg, s, id, other, replies, hash);
    }
  }

  lemma NoTexts()
    ensures TextBytes(map[]) == 0
  {
  }

  // ---- The reads of a fresh reply ---------------------------------------------------------------

  lemma {:induction false} IssuedReads(s: State, id: string, paths: seq<string>, k: nat)
    requires id in s.pending && k <= |paths| && s.pending[id].outstanding == map[]
    ensures forall r :: r in IssueReads(s, id, paths, k).pending[id].outstanding ==>
              exists i: nat :: i < k && r == Ids.ReadId(id, i) && IssueReads(s, id, paths, k).pending[id].outstanding[r] == paths[i]
    ensures IssueReads(s, id, paths, k).pending[id].contents == s.pending[id].contents
  {
    hide Ids.ReadId, ReadRequest;
    if k > 0 {
      IssuedReads(s, id, paths, k - 1);
      var before, after := IssueReads(s, id, paths, k - 1).pending[id].outstanding, IssueReads(s, id, paths, k).pending[id].outstanding;
      forall r | r in after ensures exists i: nat :: i < k && r == Ids.ReadId(id, i) && after[r] == paths[i] {
        if r != Ids.ReadId(id, k - 1) {
          assert r in before;
          var i: nat :| i < k - 1 && r == Ids.ReadId(id, i) && before[r] == paths[i];
        }
      }
    }
  }

  /** When the host lists no source twice, the reads it causes have distinct paths. */
  lemma FreshReadsDistinct(s: State, id: string, paths: seq<string>)
    requires id in s.pending && s.pending[id].outstanding == map[] && s.pending[id].contents == map[]
    requires forall i, j :: 0 <= i < j < |paths| ==> paths[i] != paths[j]
    ensures DistinctPaths(IssueReads(s, id, paths, |paths|).pending[id])
  {
    hide Ids.ReadId, IssueReads;
    IssuedReads(s, id, paths, |paths|);
    var p := IssueReads(s, id, paths, |paths|).pending[id];
    forall r, q | r in p.outstanding && q in p.outstanding && r != q ensures p.outstanding[r] != p.outstanding[q] {
      var i: nat :| i < |paths| && r == Ids.ReadId(id, i) && p.outstanding[r] == paths[i];
      var j: nat :| j < |paths| && q == Ids.ReadId(id, j) && p.outstanding[q] == paths[j];
      assert i != j;
      assert if i < j then paths[i] != paths[j] else paths[j] != paths[i];
    }
  }

  // ---- The injected text -------------------------------------------------------------------------

  /** Bytes of instruction text that the request for p carries. */
  function InjectedBytes(paths: seq<string>, contents: map<string, string>): nat {
    if paths == [] then 0
    else
      var path := paths[|paths| - 1];
      InjectedBytes(paths[..|paths| - 1], contents) + (if path in contents then |contents[path]| else 0)
  }

  lemma {:induction false} InjectedAtMost(paths: seq<string>, contents: map<string, string>)
    requires forall i, j :: 0 <= i < j < |paths| ==> paths[i] != paths[j]
    ensures InjectedBytes(paths, contents) <= TextBytes(contents)
    decreases |paths|
  {
    if paths != [] {
      var init, path := paths[..|paths| - 1], paths[|paths| - 1];
      if path in contents {
        TextBytesSplit(contents, path);
        InjectedAtMost(init, contents - {path});
        InjectedSame(init, contents, path);
      } else {
        InjectedAtMost(init, contents);
      }
    }
  }

  lemma {:induction false} InjectedSame(paths: seq<string>, contents: map<string, string>, path: string)
    requires path !in paths
    ensures InjectedBytes(paths, contents - {path}) == InjectedBytes(paths, contents)
  {
    if paths != [] {
      InjectedSame(paths[..|paths| - 1], contents, path);
    }
  }

  /** For distinct source paths the injected text obeys the aggregate limit. */
  lemma InjectedWithinLimit(id: string, p: Pending)
    requires EntryInv(id, p)
    requires forall i, j :: 0 <= i < j < |p.paths| ==> p.paths[i] != p.paths[j]
    ensures InjectedBytes(p.paths, p.contents) <= MAX_INSTRUCTION_TOTAL_BYTES
  {
    InjectedAtMost(p.paths, p.contents);
  }

  /** With every text in hand there is one section per source, in the host's order. */
  lemma {:induction false} SectionsInHostOrder(paths: seq<string>, contents: map<string, string>)
    requires forall path :: path in paths ==> path in contents
    ensures |Sections(paths, contents)| == |paths|
    ensures forall i :: 0 <= i < |paths| ==> Sections(paths, contents)[i] == Section(paths[i], contents[paths[i]])
  {
    if paths != [] {
      SectionsInHostOrder(paths[..|paths| - 1], contents);
    }
  }

  /** The local request is the client's, but for developerInstructions, whose own text stays in front. */
  lemma RequestKeepsClientFields(id: string, p: Pending, name: string)
    requires EntryMid(id, p)
    ensures var r := LocalRequest(p);
            && r.Some?
            && (name != "params" ==> Field(r.value, name) == Field(p.localRequest, name))
            && var given, sent := Obj(ObjectField(p.localRequest, "params").value), ObjectField(r.value, "params");
               && sent.Some?
               && (name != "developerInstructions" ==> Field(Obj(sent.value), name) == Field(given, name))
               && (StringField(given, "developerInstructions").Some? ==>
                     && StringField(Obj(sent.value), "developerInstructions").Some?
                     && StartsWith(StringField(Obj(sent.value), "developerInstructions").value,
                                   StringField(given, "developerInstructions").value))
  {
    hide Sections, Join, ReadsOf, WithinBudget;
  }

  // ---- Where the sections stand --------------------------------------------------------------------

  /** Where part i begins when parts are joined: after those before it, each with a blank line. */
  function Offset(parts: seq<string>, i: nat): nat
    requires i <= |parts|
  {
    if i == 0 then 0 else Offset(parts, i - 1) + |parts[i - 1]| + 2
  }

  lemma {:induction false} OffsetPrefix(parts: seq<string>, n: nat, i: nat)
    requires i <= n <= |parts|
    ensures Offset(parts[..n], i) == Offset(parts, i)
  {
    if i > 0 {
      OffsetPrefix(parts, n, i - 1);
    }
  }

  lemma {:induction false} JoinLength(parts: seq<string>)
    requires parts != []
    ensures |Join(parts)| + 2 == Offset(parts, |parts|)
  {
    var n := |parts|;
    if n == 1 {
      assert Offset(parts, 0) == 0;
    } else {
      JoinLength(parts[..n - 1]);
      OffsetPrefix(parts, n - 1, n - 1);
    }
  }

  predicate StandsAt(text: string, at: nat, part: string) {
    at + |part| <= |text| && text[at..at + |part|] == part
  }

  lemma StandsLater(before: string, text: string, after: string, at: nat, part: string)
    requires StandsAt(text, at, part)
    ensures StandsAt(before + text + after, |before| + at, part)
  {
    var whole := before + text + after;
    assert whole[|before| + at..|before| + at + |part|] == text[at..at + |part|];
  }

  lemma {:induction false} JoinedInOrder(parts: seq<string>, i: nat)
    requires i < |parts|
    ensures StandsAt(Join(parts), Offset(parts, i), parts[i])
    decreases |parts|
  {
    hide StandsAt;
    var n := |parts|;
    if n == 1 {
      WholeStands(parts[0]);
    } else {
      var init, last := parts[..n - 1], parts[n - 1];
      if i < n - 1 {
        JoinedInOrder(init, i);
        OffsetPrefix(parts, n - 1, i);
        StandsLater("", Join(init), "\n\n" + last, Offset(parts, i), parts[i]);
        assert "" + Join(init) + ("\n\n" + last) == Join(parts);
      } else {
        JoinLength(init);
        OffsetPrefix(parts, n - 1, n - 1);
        WholeStands(last);
        StandsLater(Join(init) + "\n\n", last, "", 0, last);
        assert Join(init) + "\n\n" + last + "" == Join(parts);
      }
    }
  }

  lemma WholeStands(part: string)
    ensures StandsAt(part, 0, part)
  {
  }

  /** The local request carries every section, in order, after the client's own text and a blank line. */
  lemma RequestCarriesSections(id: string, p: Pending, i: nat)
    requires EntryMid(id, p) && i < |Sections(p.paths, p.contents)|
    ensures LocalRequest(p).Some? && ObjectField(LocalRequest(p).value, "params").Some?
    ensures var sections := Sections(p.paths, p.contents);
            var given := StringField(Obj(ObjectField(p.localRequest, "params").value), "developerInstructions");
            var text := StringField(Obj(ObjectField(LocalRequest(p).value, "params").value), "developerInstructions");
            var start := if given.Some? && given.value != "" then |given.value| + 2 else 0;
            text.Some? && StandsAt(text.value, start + Offset(sections, i), sections[i])
  {
    hide Sections, Join, ReadsOf, WithinBudget, StandsAt, Offset;
    var sections := Sections(p.paths, p.contents);
    JoinedInOrder(sections, i);
    var given := StringField(Obj(ObjectField(p.localRequest, "params").value), "developerInstructions");
    var joined := Join(sections);
    if given.Some? && given.value != "" {
      StandsLater(given.value + "\n\n", joined, "", Offset(sections, i), sections[i]);
      assert given.value + "\n\n" + joined + "" == Instructions(given.value, sections);
    }
  }

  // ---- The text, read from the front -----------------------------------------------------------------

  /** The texts of the sources in hand, from the first on: a line that names the file, the text, and a blank line between
      two of them. */
  function Injected(paths: seq<string>, contents: map<string, string>): string {
    if paths == [] then ""
    else if paths[0] !in contents then Injected(paths[1..], contents)
    else
      var text := "Instructions from " + paths[0] + ":\n" + contents[paths[0]];
      if exists path :: path in paths[1..] && path in contents then text + "\n\n" + Injected(paths[1..], contents) else text
  }

  lemma {:induction false} JoinFront(first: string, rest: seq<string>)
    ensures Join([first] + rest) == if rest == [] then first else first + "\n\n" + Join(rest)
  {
    var parts := [first] + rest;
    if rest != [] {
      var n := |rest| - 1;
      assert parts[..|parts| - 1] == [first] + rest[..n];
      JoinFront(first, rest[..n]);
      if n > 0 {
        assert first + "\n\n" + Join(rest[..n]) + "\n\n" + rest[n] == first + "\n\n" + (Join(rest[..n]) + "\n\n" + rest[n]);
      }
    }
  }

  lemma {:induction false} SectionsFront(path: string, rest: seq<string>, contents: map<string, string>)
    ensures Sections([path] + rest, contents) == (if path in contents then [Section(path, contents[path])] else []) + Sections(rest, contents)
  {
    hide Section;
    var paths := [path] + rest;
    if rest != [] {
      var n := |rest| - 1;
      assert paths[..|paths| - 1] == [path] + rest[..n];
      SectionsFront(path, rest[..n], contents);
    } else {
      assert paths[..0] == [];
    }
  }

  lemma {:induction false} NoSections(paths: seq<string>, contents: map<string, string>)
    ensures Sections(paths, contents) == [] <==> !exists path :: path in paths && path in contents
  {
    hide Section;
    if paths != [] {
      var n := |paths| - 1;
      NoSections(paths[..n], contents);
      assert forall path :: path in paths <==> path in paths[..n] || path == paths[n];
    }
  }

  lemma {:induction false} InjectedIs(paths: seq<string>, contents: map<string, string>)
    ensures Join(Sections(paths, contents)) == Injected(paths, contents)
  {
    hide Join, Sections;
    if paths == [] {
      assert Join(Sections([], contents)) == [] by { NothingJoined(contents); }
    } else {
      var rest := paths[1..];
      assert paths == [paths[0]] + rest;
      SectionsFront(paths[0], rest, contents);
      InjectedIs(rest, contents);
      NoSections(rest, contents);
      if paths[0] in contents {
        JoinFront(Section(paths[0], contents[paths[0]]), Sections(rest, contents));
        assert "Instructions from " + paths[0] + ":\n" + contents[paths[0]] == Section(paths[0], contents[paths[0]]);
      } else {
        assert [] + Sections(rest, contents) == Sections(rest, contents);
      }
    }
  }

  lemma NothingJoined(contents: map<string, string>)
    ensures Join(Sections([], contents)) == []
  {
  }

  /** Without a text in hand the local request is the client's message; otherwise its developerInstructions are the
      client's, with a blank line after them if there are any, and the texts. */
  lemma RequestTextExactly(id: string, p: Pending)
    requires EntryMid(id, p)
    ensures LocalRequest(p).Some? && ObjectField(p.localRequest, "params").Some?
    ensures var given := StringField(Obj(ObjectField(p.localRequest, "params").value), "developerInstructions");
            var injected := Injected(p.paths, p.contents);
            if !exists path :: path in p.paths && path in p.contents then LocalRequest(p).value == p.localRequest
            else
              && ObjectField(LocalRequest(p).value, "params").Some?
              && StringField(Obj(ObjectField(LocalRequest(p).value, "params").value), "developerInstructions")
                 == Some(if given.Some? && given.value != "" then given.value + "\n\n" + injected else injected)
  {
    hide Sections, Join, ReadsOf, WithinBudget, Injected;
    NoSections(p.paths, p.contents);
    InjectedIs(p.paths, p.contents);
  }

  // ---- Exactly when the injected text can pass the limit ---------------------------------------------

  predicate Repeats(paths: seq<string>) {
    exists i, j :: 0 <= i < j < |paths| && paths[i] == paths[j]
  }

  /** Contents within the budget of which paths makes a request past it. */
  ghost predicate Oversizes(paths: seq<string>, contents: map<string, string>) {
    WithinBudget(contents) && InjectedBytes(paths, contents) > MAX_INSTRUCTION_TOTAL_BYTES
  }

  lemma {:induction false} InjectedPerSource(paths: seq<string>, contents: map<string, string>)
    requires WithinBudget(contents)
    ensures InjectedBytes(paths, contents) <= MAX_INSTRUCTION_SOURCE_BYTES * |paths|
  {
    hide TextBytes;
    if paths != [] {
      InjectedPerSource(paths[..|paths| - 1], contents);
    }
  }

  lemma {:induction false} InjectedPrefix(paths: seq<string>, contents: map<string, string>, n: nat)
    requires n <= |paths|
    ensures InjectedBytes(paths[..n], contents) <= InjectedBytes(paths, contents)
  {
    if n < |paths| {
      InjectedPrefix(paths[..|paths| - 1], contents, n);
      assert paths[..|paths| - 1][..n] == paths[..n];
    } else {
      assert paths[..n] == paths;
    }
  }

  /** One more source at position i. */
  lemma InjectedFrom(paths: seq<string>, contents: map<string, string>, before: nat, i: nat)
    requires before <= i < |paths| && paths[i] in contents
    ensures InjectedBytes(paths[..before], contents) + |contents[paths[i]]| <= InjectedBytes(paths[..i + 1], contents)
  {
    InjectedPrefix(paths[..i], contents, before);
    assert paths[..i][..before] == paths[..before];
    assert paths[..i + 1][..i] == paths[..i];
  }

  lemma InjectedThrice(paths: seq<string>, contents: map<string, string>, i: nat, j: nat, k: nat)
    requires i < j < k < |paths| && paths[i] in contents && paths[j] in contents && paths[k] in contents
    ensures |contents[paths[i]]| + |contents[paths[j]]| + |contents[paths[k]]| <= InjectedBytes(paths, contents)
  {
    InjectedFrom(paths, contents, 0, i);
    InjectedFrom(paths, contents, i + 1, j);
    InjectedFrom(paths, contents, j + 1, k);
    InjectedPrefix(paths, contents, k + 1);
  }

  /** Two texts of the largest size, or one, at the paths of i, j and k, of which two are the same. */
  function LargeContents(paths: seq<string>, i: nat, k: nat, text: string): map<string, string>
    requires i < |paths| && k < |paths|
  {
    map[paths[i] := text][paths[k] := text]
  }

  lemma LargeWithinBudget(paths: seq<string>, i: nat, k: nat, text: string)
    requires i < |paths| && k < |paths| && |text| <= MAX_INSTRUCTION_SOURCE_BYTES
    ensures WithinBudget(LargeContents(paths, i, k, text))
  {
    hide TextBytes;
    TextBytesUpdate(map[], paths[i], text);
    TextBytesUpdate(map[][paths[i] := text], paths[k], text);
    NoTexts();
    assert map[][paths[i] := text] == map[paths[i] := text];
  }

  lemma LargeOversizes(paths: seq<string>, i: nat, j: nat, k: nat, text: string)
    requires i < j < |paths| && paths[i] == paths[j] && k < |paths| && k != i && k != j
    requires |text| == MAX_INSTRUCTION_SOURCE_BYTES
    ensures Oversizes(paths, LargeContents(paths, i, k, text))
  {
    hide TextBytes, InjectedBytes;
    var contents := LargeContents(paths, i, k, text);
    LargeWithinBudget(paths, i, k, text);
    if k < i {
      InjectedThrice(paths, contents, k, i, j);
    } else if k < j {
      InjectedThrice(paths, contents, i, k, j);
    } else {
      InjectedThrice(paths, contents, i, j, k);
    }
  }

  /** The sources a host lists can carry more than the limit, whatever texts within the budget they have, exactly
      when there are at least three of them and one is listed twice. */
  lemma OversizedExactly(paths: seq<string>)
    ensures (exists contents :: Oversizes(paths, contents)) <==> |paths| >= 3 && Repeats(paths)
  {
    if exists contents :: Oversizes(paths, contents) {
      var contents :| Oversizes(paths, contents);
      InjectedPerSource(paths, contents);
      if !Repeats(paths) {
        InjectedAtMost(paths, contents);
      }
    }
    if |paths| >= 3 && Repeats(paths) {
      var i, j :| 0 <= i < j < |paths| && paths[i] == paths[j];
      var k := ThirdOf(i, j);
      LargeOversizes(paths, i, j, k, seq(MAX_INSTRUCTION_SOURCE_BYTES, _ => 'a'));
    }
  }

  /** One of the first three positions is neither i nor j. */
  function ThirdOf(i: nat, j: nat): (k: nat)
    ensures k < 3 && k != i && k != j
  {
    if i != 0 && j != 0 then 0 else if i != 1 && j != 1 then 1 else 2
  }

  /** The text carried is in the request: its developerInstructions are at least as long. */
  lemma InjectedIsCarried(p: Pending, text: string)
    requires Sections(p.paths, p.contents) != [] && LocalRequest(p).Some?
    requires StringField(Obj(ObjectField(LocalRequest(p).value, "params").value), "developerInstructions") == Some(text)
    ensures InjectedBytes(p.paths, p.contents) <= |text|
  {
    hide Sections, Join, InjectedBytes;
    SectionsLength(p.paths, p.contents);
    JoinLonger(Sections(p.paths, p.contents));
  }

  function TotalLength(parts: seq<string>): nat {
    if parts == [] then 0 else TotalLength(parts[..|parts| - 1]) + |parts[|parts| - 1]|
  }

  lemma {:induction false} JoinLonger(parts: seq<string>)
    ensures TotalLength(parts) <= |Join(parts)|
  {
    if |parts| == 1 {
      assert TotalLength(parts[..0]) == 0;
    } else if parts != [] {
      JoinLonger(parts[..|parts| - 1]);
    }
  }

  lemma {:induction false} SectionsLength(paths: seq<string>, contents: map<string, string>)
    ensures InjectedBytes(paths, contents) <= TotalLength(Sections(paths, contents))
  {
    if paths != [] {
      var init, path := paths[..|paths| - 1], paths[|paths| - 1];
      SectionsLength(init, contents);
      if path in contents {
        var section := Section(path, contents[path]);
        assert (Sections(init, contents) + [section])[..|Sections(init, contents)|] == Sections(init, contents);
      } else {
        assert Sections(init, contents) + [] == Sections(init, contents);
      }
    }
  }

  // ---- Exactly when the order of the replies matters ---------------------------------------------------

  /** order answers every awaited read once, each with a reply that carries its id. */
  predicate Complete(p: Pending, order: seq<string>, replies: map<string, Json>) {
    && Answering(p, order, replies)
    && (forall r :: r in order ==> HasId(replies[r], r))
    && forall r :: r in p.outstanding ==> r in order
  }

  ghost predicate OrderIrrelevant(cfg: Config, p: Pending) {
    forall order, other, replies :: Complete(p, order, replies) && Complete(p, other, replies) ==>
      Gather(cfg, p, order, replies) == Gather(cfg, p, other, replies)
  }

  /** Some encoded data carries an acceptable text of n bytes. */
  ghost predicate Carries(cfg: Config, data: string, n: nat) {
    var text := cfg.decodeBase64(data);
    text.Some? && |text.value| == n && cfg.validUtf8(text.value)
  }

  predicate SharesPath(p: Pending, r: string, q: string) {
    r in p.outstanding && q in p.outstanding && r != q && p.outstanding[r] == p.outstanding[q]
  }

  /** A reply to read id without any text, and one with it. */
  function NoData(id: string): Json {
    Obj(map["id" := Str(id)])
  }

  function IdReply(id: string, data: string): Json {
    Obj(map["id" := Str(id), "result" := Obj(map["dataBase64" := Str(data)])])
  }

  /** Replies that leave an entry's texts alone. */
  lemma {:induction false} GatherNothing(cfg: Config, p: Pending, order: seq<string>, replies: map<string, Json>)
    requires Answering(p, order, replies) && forall r :: r in order ==> ReplyData(replies[r]).None?
    ensures Gather(cfg, p, order, replies) == Some(p.(outstanding := p.outstanding - Elems(order)))
    decreases |order|
  {
    hide TextBytes;
    if order == [] {
      assert p.outstanding - Elems(order) == p.outstanding;
    } else {
      var init, last := order[..|order| - 1], order[|order| - 1];
      GatherNothing(cfg, p, init, replies);
      ElemsLast(order);
      assert p.outstanding - Elems(init) - {last} == p.outstanding - Elems(order);
    }
  }

  /** Any finite set can be listed, each element once. */
  lemma {:induction false} Listing(s: set<string>) returns (xs: seq<string>)
    ensures Elems(xs) == s && forall i, j :: 0 <= i < j < |xs| ==> xs[i] != xs[j]
    decreases |s|
  {
    if s == {} {
      xs := [];
    } else {
      var x :| x in s;
      var rest := Listing(s - {x});
      xs := rest + [x];
      assert x !in Elems(rest);
      assert forall y :: y in xs <==> y in rest || y == x;
    }
  }

  function TwoTexts(others: set<string>, r: string, a: string, q: string, b: string): map<string, Json> {
    (map o | o in others :: NoData(o))[r := IdReply(r, a)][q := IdReply(q, b)]
  }

  /** Two texts for one path arrive last: the later one is kept. */
  lemma LaterKept(cfg: Config, p: Pending, rest: seq<string>, r: string, q: string, replies: map<string, Json>, a: string, b: string)
    requires SharesPath(p, r, q) && Answering(p, rest + [r, q], replies)
    requires forall o :: o in rest ==> ReplyData(replies[o]).None?
    requires Readable(cfg, replies[r]) && Readable(cfg, replies[q])
    requires TextOf(cfg, replies[r]) == Some(a) && TextOf(cfg, replies[q]) == Some(b)
    requires TextBytes(p.contents) + |a| + |b| <= MAX_INSTRUCTION_TOTAL_BYTES
    ensures var g := Gather(cfg, p, rest + [r, q], replies);
            g.Some? && p.outstanding[r] in g.value.contents && g.value.contents[p.outstanding[r]] == b
  {
    hide TextBytes, Readable, TextOf, RecordRead;
    var path := p.outstanding[r];
    assert rest + [r] + [q] == rest + [r, q];
    GatherLast(cfg, p, rest + [r], q, replies);
    GatherLast(cfg, p, rest, r, replies);
    GatherNothing(cfg, p, rest, replies);
    var none := Gather(cfg, p, rest, replies).value;
    TextBytesUpdate(p.contents, path, a);
    RecordLast(cfg, none, none, r, replies[r], p.contents);
    var one := RecordRead(cfg, none, r, replies[r]).value;
    RecordLast(cfg, none, one, q, replies[q], one.contents);
  }

  lemma OrderCompletes(p: Pending, rest: seq<string>, r: string, q: string, replies: map<string, Json>)
    requires r in p.outstanding && q in p.outstanding && r != q
    requires Elems(rest) == p.outstanding.Keys - {r, q} && forall i, j :: 0 <= i < j < |rest| ==> rest[i] != rest[j]
    requires forall o :: o in p.outstanding ==> o in replies && HasId(replies[o], o)
    ensures Complete(p, rest + [r, q], replies)
  {
    hide HasId;
    var order := rest + [r, q];
    assert order[|rest|] == r && order[|rest| + 1] == q;
    assert forall o :: o in order <==> o in rest || o == r || o == q;
    assert forall i :: 0 <= i < |rest| ==> order[i] in rest;
  }

  lemma IdReplyIs(cfg: Config, id: string, data: string, n: nat)
    requires Carries(cfg, data, n) && n <= MAX_INSTRUCTION_SOURCE_BYTES
    ensures Readable(cfg, IdReply(id, data)) && TextOf(cfg, IdReply(id, data)) == cfg.decodeBase64(data)
    ensures HasId(IdReply(id, data), id)
  {
  }

  lemma NoDataIs(id: string)
    ensures ReplyData(NoData(id)).None? && HasId(NoData(id), id)
  {
  }

  lemma SharedPathDepends(cfg: Config, p: Pending, r: string, q: string, long: string, short: string)
    requires SharesPath(p, r, q) && TextBytes(p.contents) < MAX_INSTRUCTION_TOTAL_BYTES
    requires Carries(cfg, long, 1) && Carries(cfg, short, 0)
    ensures !OrderIrrelevant(cfg, p)
  {
    hide TextBytes, Gather, Readable, TextOf, ReplyData, Complete, IdReply, NoData, HasId;
    var rest := Listing(p.outstanding.Keys - {r, q});
    var replies := TwoTexts(p.outstanding.Keys - {r, q}, r, long, q, short);
    IdReplyIs(cfg, r, long, 1);
    IdReplyIs(cfg, q, short, 0);
    forall o | o in p.outstanding ensures o in replies && HasId(replies[o], o) {
      NoDataIs(o);
    }
    OrderCompletes(p, rest, r, q, replies);
    OrderCompletes(p, rest, q, r, replies);
    assert Answering(p, rest + [r, q], replies) && Answering(p, rest + [q, r], replies) by { CompleteAnswers(p, rest, r, q, replies); }
    forall o | o in rest ensures ReplyData(replies[o]).None? {
      assert o in Elems(rest);
      NoDataIs(o);
    }
    LaterKept(cfg, p, rest, r, q, replies, cfg.decodeBase64(long).value, cfg.decodeBase64(short).value);
    LaterKept(cfg, p, rest, q, r, replies, cfg.decodeBase64(short).value, cfg.decodeBase64(long).value);
    hide Answering;
    assert Gather(cfg, p, rest + [r, q], replies) != Gather(cfg, p, rest + [q, r], replies);
  }

  lemma CompleteAnswers(p: Pending, rest: seq<string>, r: string, q: string, replies: map<string, Json>)
    requires Complete(p, rest + [r, q], replies) && Complete(p, rest + [q, r], replies)
    ensures Answering(p, rest + [r, q], replies) && Answering(p, rest + [q, r], replies)
  {
  }

  /** For an entry with no text yet for an awaited path, and room for one more byte: all orders of all replies
      agree exactly when no two awaited reads share a path. */
  lemma OrderIrrelevantWhenFresh(cfg: Config, p: Pending, long: string, short: string)
    requires FreshPaths(p) && TextBytes(p.contents) < MAX_INSTRUCTION_TOTAL_BYTES
    requires Carries(cfg, long, 1) && Carries(cfg, short, 0)
    ensures OrderIrrelevant(cfg, p) <==> !exists r, q :: SharesPath(p, r, q)
  {
    hide TextBytes, Gather;
    if exists r, q :: SharesPath(p, r, q) {
      var r, q :| SharesPath(p, r, q);
      SharedPathDepends(cfg, p, r, q, long, short);
    } else {
      assert DistinctPaths(p) by {
        forall r, q | r in p.outstanding && q in p.outstanding && r != q ensures p.outstanding[r] != p.outstanding[q] {
          assert !SharesPath(p, r, q);
        }
      }
      forall order, other, replies | Complete(p, order, replies) && Complete(p, other, replies)
        ensures Gather(cfg, p, order, replies) == Gather(cfg, p, other, replies)
      {
        GatherConfluent(cfg, p, order, other, replies);
      }
    }
  }

  lemma GatherTwo(cfg: Config, p: Pending, r: string, q: string, replies: map<string, Json>)
    requires Answering(p, [r, q], replies)
    ensures r in p.outstanding
    ensures var first, both := RecordRead(cfg, p, r, replies[r]), Gather(cfg, p, [r, q], replies);
            && (first.None? ==> both.None?)
            && (first.Some? ==> q in first.value.outstanding && both == RecordRead(cfg, first.value, q, replies[q]))
  {
    hide Gather, RecordRead;
    assert [] + [r] == [r] && [r] + [q] == [r, q];
    GatherLast(cfg, p, [r], q, replies);
    GatherLast(cfg, p, [], r, replies);
    GatherNothing(cfg, p, [], replies);
    NothingAnswered(p);
  }

  lemma TwoComplete(p: Pending, r: string, q: string, replies: map<string, Json>)
    requires r != q && p.outstanding.Keys == {r, q} && r in replies && q in replies && HasId(replies[r], r) && HasId(replies[q], q)
    ensures Complete(p, [r, q], replies)
  {
    hide HasId;
    assert [r, q][0] == r && [r, q][1] == q;
  }

  lemma NothingAnswered(p: Pending)
    ensures p.(outstanding := p.outstanding - Elems([])) == p
  {
    assert p.outstanding - Elems([]) == p.outstanding;
  }
}
