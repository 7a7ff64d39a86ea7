/** The life of a thread/start: one shadow to the host, one request to the App Server, within budget. */
module RelayThreads {
  import opened Wrappers
  import opened Json
  import opened RelaySpec
  import opened RelayFrames
  import Ids

  const SHADOWS: set<Kind> := {ToHostShadow}
  const STARTS: set<Kind> := {ToServerStart}

  function Shadows(out: seq<Sent>): seq<Sent> {
    Select(out, SHADOWS)
  }

  /** How many requests for entry id were put on the App Server's wire. */
  function StartsFor(out: seq<Sent>, id: string): nat {
    if out == [] then 0
    else
      var last := out[|out| - 1];
      StartsFor(out[..|out| - 1], id) + (if last.LocalStart? && last.id == id then 1 else 0)
  }

  ghost predicate Issued(cfg: Config, n: nat, id: string) {
    exists k: nat :: 1 <= k <= n && id == Ids.MetadataId(cfg.environmentId, k)
  }

  predicate Unsent(s: State, id: string) {
    id in s.pending && !s.pending[id].localSent
  }

  /** The shadows on the host wire carry the ids 1, 2, 3, ... in order. */
  ghost predicate Numbered(cfg: Config, out: seq<Sent>) {
    forall k :: 0 <= k < |Shadows(out)| ==>
      Shadows(out)[k].Shadow? && Shadows(out)[k].id == Ids.MetadataId(cfg.environmentId, k + 1)
  }

  /** Each shadow belongs to an entry that still waits, or to one whose request was sent once. */
  ghost predicate Accounted(cfg: Config, s: State) {
    var n := |Shadows(s.out)|;
    && s.sequence == (if n > U64_MAX then U64_MAX else n)
    && (n <= U64_MAX ==>
          && Numbered(cfg, s.out)
          && (forall id :: id in s.pending ==> Issued(cfg, n, id))
          && (forall id :: StartsFor(s.out, id) == if Issued(cfg, n, id) && !Unsent(s, id) then 1 else 0))
  }

  /** What the wires show, whatever the outcome: no shadow id twice, no request twice or unprompted. */
  ghost predicate WireThreads(cfg: Config, out: seq<Sent>) {
    var n := |Shadows(out)|;
    n <= U64_MAX ==>
      && Numbered(cfg, out)
      && (forall id :: StartsFor(out, id) <= if Issued(cfg, n, id) then 1 else 0)
  }

  // ---- Entries ---------------------------------------------------------------------------

  ghost predicate ReadsOf(id: string, outstanding: map<string, string>) {
    forall r :: r in outstanding ==> exists i: nat :: i < MAX_INSTRUCTION_SOURCES && r == Ids.ReadId(id, i)
  }

  ghost predicate WithinBudget(contents: map<string, string>) {
    && (forall path :: path in contents ==> |contents[path]| <= MAX_INSTRUCTION_SOURCE_BYTES)
    && TextBytes(contents) <= MAX_INSTRUCTION_TOTAL_BYTES
  }

  /** What every entry satisfies, even in the middle of a turn. */
  ghost predicate EntryMid(id: string, p: Pending) {
    && ObjectField(p.localRequest, "params").Some?
    && ReadsOf(id, p.outstanding)
    && |p.paths| <= MAX_INSTRUCTION_SOURCES
    && WithinBudget(p.contents)
    && (p.hostResponse.None? ==> p.outstanding == map[] && p.paths == [] && p.contents == map[])
  }

  /** An unsent entry has no host reply yet, or still waits for an instruction source. */
  ghost predicate EntryInv(id: string, p: Pending) {
    EntryMid(id, p) && (!p.localSent && p.hostResponse.Some? ==> p.outstanding != map[])
  }

  ghost predicate ThreadInv(cfg: Config, s: State) {
    && Accounted(cfg, s)
    && forall id :: id in s.pending ==> EntryInv(id, s.pending[id])
  }

  ghost predicate ThreadOutcome(cfg: Config, r: Step) {
    WireThreads(cfg, Trace(r)) && (r.Next? ==> ThreadInv(cfg, r.state))
  }

  // ---- Counting --------------------------------------------------------------------------

  lemma {:induction false} StartsQuiet(before: seq<Sent>, after: seq<Sent>, kinds: set<Kind>, id: string)
    requires Emits(before, after, kinds) && kinds !! STARTS
    ensures StartsFor(after, id) == StartsFor(before, id)
    decreases |after|
  {
    if |after| > |before| {
      assert KindOf(after[|after| - 1]) in kinds;
      StartsQuiet(before, after[..|after| - 1], kinds, id);
    } else {
      assert after == before;
    }
  }

  lemma StartsAppend(out: seq<Sent>, frame: Sent, id: string)
    ensures StartsFor(out + [frame], id) == StartsFor(out, id) + (if frame.LocalStart? && frame.id == id then 1 else 0)
  {
    assert (out + [frame])[..|out|] == out;
  }

  lemma AccountedWire(cfg: Config, s: State)
    requires Accounted(cfg, s)
    ensures WireThreads(cfg, s.out)
  {
  }

  /** A step that neither starts nor removes an entry and puts no shadow or request on a wire. */
  lemma QuietAccounted(cfg: Config, s: State, r: Step, kinds: set<Kind>)
    requires Accounted(cfg, s) && Emits(s.out, Trace(r), kinds) && kinds !! (SHADOWS + STARTS)
    requires r.Next? ==> r.state.sequence == s.sequence && r.state.pending.Keys == s.pending.Keys
                         && forall id :: id in s.pending ==> r.state.pending[id].localSent == s.pending[id].localSent
    ensures WireThreads(cfg, Trace(r)) && (r.Next? ==> Accounted(cfg, r.state))
  {
    hide Select;
    EmitsSelect(s.out, Trace(r), kinds, SHADOWS);
    forall id ensures StartsFor(Trace(r), id) == StartsFor(s.out, id) {
      StartsQuiet(s.out, Trace(r), kinds, id);
    }
  }

  lemma QuietThreads(cfg: Config, s: State, r: Step, kinds: set<Kind>)
    requires ThreadInv(cfg, s) && Emits(s.out, Trace(r), kinds) && kinds !! (SHADOWS + STARTS)
    requires r.Next? ==> r.state.sequence == s.sequence && r.state.pending == s.pending
    ensures ThreadOutcome(cfg, r)
  {
    hide WireThreads, Accounted, EntryInv;
    QuietAccounted(cfg, s, r, kinds);
  }

  // ---- A new entry -----------------------------------------------------------------------

  lemma FreshId(cfg: Config, n: nat)
    ensures !Issued(cfg, n, Ids.MetadataId(cfg.environmentId, n + 1))
  {
    forall k: nat | 1 <= k <= n ensures Ids.MetadataId(cfg.environmentId, n + 1) != Ids.MetadataId(cfg.environmentId, k) {
      if Ids.MetadataId(cfg.environmentId, n + 1) == Ids.MetadataId(cfg.environmentId, k) {
        Ids.InternalIdsDistinct(cfg.environmentId, Ids.Metadata(n + 1), Ids.Metadata(k));
      }
    }
  }

  lemma NewAccounted(cfg: Config, s: State, id: string, entry: Pending, origin: Json, shadow: Json)
    requires Accounted(cfg, s) && !entry.localSent
    requires id == Ids.MetadataId(cfg.environmentId, NextSequence(s.sequence))
    ensures Accounted(cfg, Send(s, Shadow(id, origin, shadow)).(sequence := NextSequence(s.sequence), pending := s.pending[id := entry]))
  {
    hide Select, Ids.MetadataId, Numbered, Issued, StartsFor;
    var s' := Send(s, Shadow(id, origin, shadow)).(sequence := NextSequence(s.sequence), pending := s.pending[id := entry]);
    SelectAppend(s.out, Shadow(id, origin, shadow), SHADOWS);
    var n := |Shadows(s.out)|;
    if n + 1 <= U64_MAX {
      FreshId(cfg, n);
      NumberedAppend(cfg, s.out, id, origin, shadow);
      forall other ensures Issued(cfg, n + 1, other) <==> Issued(cfg, n, other) || other == id {
        IssuedNext(cfg, n, other);
      }
      forall other ensures StartsFor(s'.out, other) == StartsFor(s.out, other) {
        StartsAppend(s.out, Shadow(id, origin, shadow), other);
      }
    }
  }

  lemma NumberedAppend(cfg: Config, out: seq<Sent>, id: string, origin: Json, shadow: Json)
    requires Numbered(cfg, out) && id == Ids.MetadataId(cfg.environmentId, |Shadows(out)| + 1)
    ensures Numbered(cfg, out + [Shadow(id, origin, shadow)])
  {
    hide Select, Ids.MetadataId;
    SelectAppend(out, Shadow(id, origin, shadow), SHADOWS);
  }

  lemma IssuedNext(cfg: Config, n: nat, id: string)
    ensures Issued(cfg, n + 1, id) <==> Issued(cfg, n, id) || id == Ids.MetadataId(cfg.environmentId, n + 1)
  {
    hide Ids.MetadataId;
    if Issued(cfg, n + 1, id) && !Issued(cfg, n, id) {
      var k: nat :| 1 <= k <= n + 1 && id == Ids.MetadataId(cfg.environmentId, k);
      assert k == n + 1;
    }
    assert id == Ids.MetadataId(cfg.environmentId, n + 1) ==> Issued(cfg, n + 1, id);
  }

  lemma NewEntry(id: string, clientId: Json, local: Json)
    requires ShadowRequest(local, id).Some?
    ensures EntryInv(id, Pending(clientId, local, None, map[], [], map[], false))
  {
  }

  lemma ForwardThreads(cfg: Config, s: State, m: Held)
    requires ThreadInv(cfg, s)
    ensures ThreadOutcome(cfg, Forward(cfg, s, m))
  {
    hide Accounted, WireThreads, EntryInv, ShadowRequest, Ids.MetadataId;
    var r := Forward(cfg, s, m);
    if m.route.ThreadStart? && r.Next? {
      var id := Ids.MetadataId(cfg.environmentId, NextSequence(s.sequence));
      var shadow := ShadowRequest(m.message, id).value;
      var entry := Pending(Field(m.message, "id").value, m.message, None, map[], [], map[], false);
      NewEntry(id, entry.clientId, m.message);
      NewAccounted(cfg, s, id, entry, m.message, shadow);
      AccountedWire(cfg, r.state);
    } else {
      ForwardPlain(cfg, s, m);
    }
  }

  lemma ForwardPlain(cfg: Config, s: State, m: Held)
    requires ThreadInv(cfg, s)
    requires !m.route.ThreadStart? || !Forward(cfg, s, m).Next?
    ensures ThreadOutcome(cfg, Forward(cfg, s, m))
  {
    hide ThreadInv, ThreadOutcome, ShadowRequest;
    QuietThreads(cfg, s, Forward(cfg, s, m), {ToServerForward, ToHostForward});
  }

  lemma {:induction false} DrainThreads(cfg: Config, s: State)
    requires ThreadInv(cfg, s)
    ensures ThreadOutcome(cfg, Drain(cfg, s))
    decreases |s.queue|
  {
    hide Forward, ThreadInv, WireThreads;
    assert WireThreads(cfg, s.out) by { InvWire(cfg, s); }
    if s.queue != [] {
      var s1 := Dequeued(cfg, s);
      assert ThreadInv(cfg, s1) by { DequeuedThreads(cfg, s); }
      ForwardThreads(cfg, s1, s.queue[0]);
      var step := Forward(cfg, s1, s.queue[0]);
      if step.Next? {
        DrainThreads(cfg, step.state);
      }
    }
  }

  lemma InvWire(cfg: Config, s: State)
    requires ThreadInv(cfg, s)
    ensures WireThreads(cfg, s.out)
  {
  }

  lemma DequeuedThreads(cfg: Config, s: State)
    requires ThreadInv(cfg, s) && s.queue != []
    ensures ThreadInv(cfg, Dequeued(cfg, s))
  {
    hide EntryInv, Numbered, Issued, StartsFor, Select;
  }

  lemma TailThreads(cfg: Config, s: State)
    requires ThreadInv(cfg, s)
    ensures ThreadOutcome(cfg, LoopTail(cfg, s))
  {
    hide SendInitialize, Drain, ThreadInv, WireThreads;
    SendInitializeFrame(cfg, s);
    var step := SendInitialize(cfg, s);
    QuietThreads(cfg, s, step, {ToClientInitialize});
    if step.Next? && IsReady(step.state) {
      DrainThreads(cfg, step.state);
    }
  }

  lemma ThenTailThreads(cfg: Config, r: Step)
    requires ThreadOutcome(cfg, r)
    ensures ThreadOutcome(cfg, ThenTail(cfg, r))
  {
    hide LoopTail, WireThreads, ThreadInv;
    if r.Next? {
      TailThreads(cfg, r.state);
    }
  }

  // ---- Sending the local request -----------------------------------------------------------

  /** All entries are in order except that id may already lack outstanding reads. */
  ghost predicate ThreadMid(cfg: Config, s: State, id: string) {
    && Accounted(cfg, s)
    && id in s.pending && EntryMid(id, s.pending[id])
    && forall other :: other in s.pending && other != id ==> EntryInv(other, s.pending[other])
  }

  lemma SentAccounted(cfg: Config, s: State, id: string, local: Json)
    requires Accounted(cfg, s) && Unsent(s, id)
    ensures Accounted(cfg, Send(s, LocalStart(id, local)).(pending := s.pending[id := s.pending[id].(localSent := true)]))
  {
    hide Select;
    var s' := Send(s, LocalStart(id, local)).(pending := s.pending[id := s.pending[id].(localSent := true)]);
    SelectAppend(s.out, LocalStart(id, local), SHADOWS);
    forall other ensures StartsFor(s'.out, other) == StartsFor(s.out, other) + (if other == id then 1 else 0) {
      StartsAppend(s.out, LocalStart(id, local), other);
    }
  }

  /** Sending the local request never fails, and settles the entry. */
  lemma SendLocalThreads(cfg: Config, s: State, id: string)
    requires ThreadMid(cfg, s, id)
    ensures var r := SendLocal(s, id);
            && r.Next? && ThreadOutcome(cfg, r)
            && r.state.pending == s.pending[id := s.pending[id].(localSent := true)]
  {
    hide Accounted, WireThreads, ReadsOf, WithinBudget, Sections, Instructions;
    if s.pending[id].localSent {
      assert s.pending[id].(localSent := true) == s.pending[id];
      AccountedWire(cfg, s);
    } else {
      SentAccounted(cfg, s, id, LocalRequest(s.pending[id]).value);
      AccountedWire(cfg, SendLocal(s, id).state);
    }
  }

  lemma InvIsMid(cfg: Config, s: State, id: string)
    requires ThreadInv(cfg, s) && id in s.pending
    ensures ThreadMid(cfg, s, id)
  {
    hide Accounted, ReadsOf, WithinBudget;
  }

  lemma {:induction false} SendExpiredThreads(cfg: Config, s: State, expired: seq<string>)
    requires ThreadInv(cfg, s) && forall id :: id in expired ==> id in s.pending
    ensures var r := SendExpired(s, expired);
            && r.Next? && ThreadOutcome(cfg, r)
            && r.state.pending.Keys == s.pending.Keys
            && forall id :: id in s.pending ==>
                 r.state.pending[id] == if id in expired then s.pending[id].(localSent := true) else s.pending[id]
    decreases |expired|
  {
    hide SendLocal, ThreadInv, WireThreads, ThreadMid;
    if expired == [] {
      InvWire(cfg, s);
    } else {
      InvIsMid(cfg, s, expired[0]);
      SendLocalThreads(cfg, s, expired[0]);
      SendExpiredThreads(cfg, SendLocal(s, expired[0]).state, expired[1..]);
    }
  }

  // ---- The host's reply --------------------------------------------------------------------

  /** Entry id changes, but not whether it was sent. */
  lemma UpdatedMid(cfg: Config, s: State, id: string, p: Pending)
    requires ThreadInv(cfg, s) && id in s.pending && EntryMid(id, p) && p.localSent == s.pending[id].localSent
    ensures ThreadMid(cfg, s.(pending := s.pending[id := p]), id)
  {
    hide Accounted, EntryInv, EntryMid;
    var s' := s.(pending := s.pending[id := p]);
    assert s'.pending.Keys == s.pending.Keys;
    assert Emits(s.out, s'.out, {});
    QuietAccounted(cfg, s, Next(s'), {});
  }

  lemma OneReadThreads(cfg: Config, s: State, id: string, k: nat, path: string)
    requires ThreadMid(cfg, s, id) && k < MAX_INSTRUCTION_SOURCES && s.pending[id].hostResponse.Some?
    ensures var readId, p := Ids.ReadId(id, k), s.pending[id];
            ThreadMid(cfg, Send(s.(pending := s.pending[id := p.(outstanding := p.outstanding[readId := path])]),
                                ReadFile(readId, ReadRequest(readId, path))), id)
  {
    hide Accounted, EntryInv, WithinBudget, ReadRequest, ObjectField, Ids.ReadId;
    var readId, p := Ids.ReadId(id, k), s.pending[id];
    var s1 := Send(s.(pending := s.pending[id := p.(outstanding := p.outstanding[readId := path])]),
                   ReadFile(readId, ReadRequest(readId, path)));
    assert s1.pending.Keys == s.pending.Keys;
    assert Emits(s.out, s1.out, {ToHostRead});
    QuietAccounted(cfg, s, Next(s1), {ToHostRead});
  }

  /** Only the outstanding reads of the entry change, and each request adds one. */
  lemma {:induction false} IssueReadsEntry(s: State, id: string, paths: seq<string>, k: nat)
    requires id in s.pending && k <= |paths|
    ensures var r := IssueReads(s, id, paths, k);
            && (k > 0 ==> r.pending[id].outstanding != map[])
            && r.pending == s.pending[id := s.pending[id].(outstanding := r.pending[id].outstanding)]
  {
    hide ReadRequest, Ids.ReadId;
    if k > 0 {
      IssueReadsEntry(s, id, paths, k - 1);
      assert Ids.ReadId(id, k - 1) in IssueReads(s, id, paths, k).pending[id].outstanding;
    } else {
      assert s.pending == s.pending[id := s.pending[id]];
    }
  }

  lemma IssuedOne(s: State, id: string, paths: seq<string>, k: nat)
    requires id in s.pending && 0 < k <= |paths|
    ensures var before, readId := IssueReads(s, id, paths, k - 1), Ids.ReadId(id, k - 1);
            && id in before.pending
            && var p := before.pending[id];
              IssueReads(s, id, paths, k)
              == Send(before.(pending := before.pending[id := p.(outstanding := p.outstanding[readId := paths[k - 1]])]),
                      ReadFile(readId, ReadRequest(readId, paths[k - 1])))
  {
    hide ReadRequest, Ids.ReadId;
  }

  lemma IssuedNone(s: State, id: string, paths: seq<string>)
    requires id in s.pending
    ensures IssueReads(s, id, paths, 0) == s
  {
  }

  lemma {:induction false} IssueReadsMid(cfg: Config, s: State, id: string, paths: seq<string>, k: nat)
    requires ThreadMid(cfg, s, id) && k <= |paths| <= MAX_INSTRUCTION_SOURCES && id in s.pending && s.pending[id].hostResponse.Some?
    ensures ThreadMid(cfg, IssueReads(s, id, paths, k), id)
  {
    hide ThreadMid, ReadRequest, Ids.ReadId, IssueReads, Send;
    if k == 0 {
      IssuedNone(s, id, paths);
    } else {
      IssueReadsMid(cfg, s, id, paths, k - 1);
      IssueReadsEntry(s, id, paths, k - 1);
      IssuedOne(s, id, paths, k);
      OneReadThreads(cfg, IssueReads(s, id, paths, k - 1), id, k - 1, paths[k - 1]);
    }
  }

  lemma IssueReadsThreads(cfg: Config, s: State, id: string, paths: seq<string>, k: nat)
    requires ThreadMid(cfg, s, id) && k <= |paths| <= MAX_INSTRUCTION_SOURCES && s.pending[id].hostResponse.Some?
    ensures var r := IssueReads(s, id, paths, k);
            && ThreadMid(cfg, r, id)
            && (k > 0 ==> r.pending[id].outstanding != map[])
            && r.pending == s.pending[id := s.pending[id].(outstanding := r.pending[id].outstanding)]
  {
    hide ThreadMid, IssueReads;
    assert id in s.pending by { MidHasEntry(cfg, s, id); }
    IssueReadsMid(cfg, s, id, paths, k);
    IssueReadsEntry(s, id, paths, k);
  }

  lemma MidHasEntry(cfg: Config, s: State, id: string)
    requires ThreadMid(cfg, s, id)
    ensures id in s.pending
  {
  }

  lemma MidIsInv(cfg: Config, s: State, id: string)
    requires ThreadMid(cfg, s, id)
    requires s.pending[id].localSent || s.pending[id].hostResponse.None? || s.pending[id].outstanding != map[]
    ensures ThreadInv(cfg, s)
  {
    hide Accounted, ReadsOf, WithinBudget, ObjectField;
  }

  lemma ThreadReplyThreads(cfg: Config, s: State, id: string, v: Json)
    requires ThreadInv(cfg, s) && id in s.pending
    ensures ThreadOutcome(cfg, HandleThreadReply(s, id, v))
  {
    hide SendLocal, IssueReads, InstructionPaths, ThreadInv, WireThreads, ReadsOf, WithinBudget, ObjectField;
    var entry := s.pending[id];
    assert EntryMid(id, entry) by { EntryOf(cfg, s, id); }
    var r := HandleThreadReply(s, id, v);
    if HasError(v) {
      InvIsMid(cfg, s, id);
      SendLocalThreads(cfg, s, id);
    } else if entry.localSent {
      UpdatedMid(cfg, s, id, entry.(hostResponse := Some(v)));
      MidIsInv(cfg, r.state, id);
      InvWire(cfg, r.state);
    } else {
      var paths := InstructionPaths(v);
      var p := entry.(hostResponse := Some(v), paths := paths);
      var s1 := s.(pending := s.pending[id := p]);
      UpdatedMid(cfg, s, id, p);
      if paths == [] {
        SendLocalThreads(cfg, s1, id);
      } else {
        IssueReadsThreads(cfg, s1, id, paths, |paths|);
        MidIsInv(cfg, r.state, id);
        InvWire(cfg, r.state);
      }
    }
  }

  lemma EntryOf(cfg: Config, s: State, id: string)
    requires ThreadInv(cfg, s) && id in s.pending
    ensures EntryInv(id, s.pending[id])
  {
  }

  // ---- Instruction reads -------------------------------------------------------------------

  lemma {:induction false} TextBytesSplit(contents: map<string, string>, path: string)
    requires path in contents
    ensures TextBytes(contents) == |contents[path]| + TextBytes(contents - {path})
    decreases |contents|
  {
    var first :| first in contents && TextBytes(contents) == |contents[first]| + TextBytes(contents - {first});
    if first != path {
      TextBytesSplit(contents - {first}, path);
      TextBytesSplit(contents - {path}, first);
      assert contents - {first} - {path} == contents - {path} - {first};
    }
  }

  lemma TextBytesUpdate(contents: map<string, string>, path: string, text: string)
    ensures TextBytes(contents[path := text]) <= TextBytes(contents) + |text|
    ensures TextBytes(contents[path := text]) + (if path in contents then |contents[path]| else 0) == TextBytes(contents) + |text|
  {
    TextBytesSplit(contents[path := text], path);
    if path in contents {
      TextBytesSplit(contents, path);
      assert contents[path := text] - {path} == contents - {path};
    } else {
      assert contents[path := text] - {path} == contents;
    }
  }

  lemma RecordedMid(cfg: Config, id: string, p: Pending, readId: string, v: Json)
    requires EntryInv(id, p) && readId in p.outstanding
    ensures var r := RecordRead(cfg, p, readId, v);
            r.Some? ==>
              && EntryMid(id, r.value)
              && r.value.localSent == p.localSent && r.value.hostResponse == p.hostResponse
              && r.value.outstanding == p.outstanding - {readId}
  {
    hide TextBytes, ObjectField, Ids.ReadId;
    if ReplyData(v).Some? && cfg.decodeBase64(ReplyData(v).value).Some? {
      TextBytesUpdate(p.contents, p.outstanding[readId], cfg.decodeBase64(ReplyData(v).value).value);
    }
  }

  lemma ReadReplyThreads(cfg: Config, s: State, id: string, readId: string, v: Json)
    requires ThreadInv(cfg, s) && id in s.pending && readId in s.pending[id].outstanding
    ensures ThreadOutcome(cfg, HandleReadReply(cfg, s, id, readId, v))
  {
    hide SendLocal, RecordRead, ThreadInv, WireThreads, EntryInv, EntryMid;
    var entry := s.pending[id];
    EntryOf(cfg, s, id);
    InvWire(cfg, s);
    RecordedMid(cfg, id, entry, readId, v);
    var recorded := RecordRead(cfg, entry, readId, v);
    if recorded.Some? {
      var s1 := s.(pending := s.pending[id := recorded.value]);
      UpdatedMid(cfg, s, id, recorded.value);
      if recorded.value.outstanding == map[] {
        SendLocalThreads(cfg, s1, id);
      } else {
        MidIsInv(cfg, s1, id);
        InvWire(cfg, s1);
      }
    }
  }

  lemma HostMessageThreads(cfg: Config, s: State, v: Json, order: seq<string>)
    requires ThreadInv(cfg, s)
    ensures ThreadOutcome(cfg, HandleHostMessage(cfg, s, v, order))
  {
    hide HandleThreadReply, HandleReadReply, HostMessageAllowed, ThreadInv, ThreadOutcome;
    var id := StringField(v, "id");
    var r := HandleHostMessage(cfg, s, v, order);
    if id == Some(Ids.HostInitializeId(cfg.environmentId)) {
      QuietThreads(cfg, s, r, {});
    } else if id.Some? && id.value in s.pending {
      ThreadReplyThreads(cfg, s, id.value, v);
    } else {
      var reader := if id.Some? then FindReader(order, s.pending, id.value) else None;
      if reader.Some? {
        ReadReplyThreads(cfg, s, reader.value, id.value, v);
      } else {
        QuietThreads(cfg, s, r, {ToClientFromHost});
      }
    }
  }

  // ---- The App Server's answer ---------------------------------------------------------------

  lemma RemovedAccounted(cfg: Config, s: State, id: string)
    requires Accounted(cfg, s) && id in s.pending && s.pending[id].localSent
    ensures Accounted(cfg, s.(pending := s.pending - {id}))
  {
    hide StartsFor, Select, Issued;
    var s' := s.(pending := s.pending - {id});
    forall other ensures Unsent(s', other) == Unsent(s, other) {
    }
  }

  lemma StartAnswerThreads(cfg: Config, s: State, id: string, v: Json, saveWorks: bool)
    requires ThreadInv(cfg, s) && id in s.pending && s.pending[id].localSent
    ensures ThreadOutcome(cfg, HandleStartAnswer(s, id, v, saveWorks))
  {
    hide HandleStartAnswer, Accounted, EntryInv, WireThreads;
    var s1 := s.(pending := s.pending - {id});
    RemovedAccounted(cfg, s, id);
    StartAnswerFrame(s, id, v, saveWorks);
    var r := HandleStartAnswer(s, id, v, saveWorks);
    QuietThreads(cfg, s1, r, {ToClientStart});
  }

  lemma ServerMessageThreads(cfg: Config, s: State, v: Json, order: seq<string>, saveWorks: bool)
    requires ThreadInv(cfg, s)
    ensures ThreadOutcome(cfg, HandleServerMessage(cfg, s, v, order, saveWorks))
  {
    hide HandleStartAnswer, FilterThreadList, AddRequest, ThreadInv, ThreadOutcome, FindAnswered;
    var answered := FindAnswered(order, s.pending, v);
    if !IsInitializeResponse(s, v) && answered.Some? {
      StartAnswerThreads(cfg, s, answered.value, v, saveWorks);
    } else {
      QuietThreads(cfg, s, HandleServerMessage(cfg, s, v, order, saveWorks), {ToServerAdd, ToClientList, ToClientFromServer});
    }
  }

  lemma StatusThreads(cfg: Config, s: State, v: Json)
    requires ThreadInv(cfg, s)
    ensures ThreadOutcome(cfg, HandleStatus(cfg, s, v))
  {
    hide Drain, StatusReady, StatusRequest, ThreadInv, ThreadOutcome;
    if StatusReady(v) == Some(true) {
      var s1 := s.(phase := Ready);
      QuietThreads(cfg, s, Next(s1), {});
      assert ThreadInv(cfg, s1) by { OutcomeInv(cfg, s1); }
      if s.initSent {
        DrainThreads(cfg, s1);
      }
    } else {
      QuietThreads(cfg, s, HandleStatus(cfg, s, v), {ToServerStatus});
    }
  }

  lemma OutcomeInv(cfg: Config, s: State)
    requires ThreadOutcome(cfg, Next(s))
    ensures ThreadInv(cfg, s)
  {
  }

  lemma ClientTextThreads(cfg: Config, s: State, text: Option<Json>)
    requires ThreadInv(cfg, s)
    ensures ThreadOutcome(cfg, HandleClientText(cfg, s, text))
  {
    hide AcceptClientText, Rewrite, ThreadInv, ThreadOutcome;
    if text.Some? && Rewrite(cfg, text.value).Some? {
      AcceptThreads(cfg, s, Rewrite(cfg, text.value).value);
    } else {
      QuietThreads(cfg, s, Failed(s.out), {});
    }
  }

  lemma AcceptThreads(cfg: Config, s: State, m: Json)
    requires ThreadInv(cfg, s)
    ensures ThreadOutcome(cfg, AcceptClientText(cfg, s, m))
  {
    hide Forward, RequestRoute, ThreadInv, ThreadOutcome;
    var verb := Method(m);
    var r := AcceptClientText(cfg, s, m);
    var s1 := s.(listIds := if verb == Some("thread/list") && Field(m, "id").Some?
                            then s.listIds + {Field(m, "id").value} else s.listIds);
    if verb != Some("initialize") && GateOpen(s1) {
      QuietThreads(cfg, s, Next(s1), {});
      OutcomeInv(cfg, s1);
      ForwardThreads(cfg, s1, Held(m, RequestRoute(cfg, verb)));
      assert r == Forward(cfg, s1, Held(m, RequestRoute(cfg, verb)));
    } else {
      QuietThreads(cfg, s, r, {ToServerInitialize, ToHostInitialize});
    }
  }

  lemma ThreadTurn(cfg: Config, s: State, e: Event)
    requires ThreadInv(cfg, s) && Enabled(s, e)
    ensures ThreadOutcome(cfg, Handle(cfg, s, e))
  {
    hide LoopTail, HandleHostMessage, HandleServerMessage, HandleClientText, RecordOwned, SendExpired,
         HandleStatus, BeginStatusPoll, ThreadInv, ThreadOutcome;
    match e
    case ClientText(text) =>
      ClientTextThreads(cfg, s, text);
      ThenTailThreads(cfg, HandleClientText(cfg, s, text));
    case ServerText(text, order, saveWorks) =>
      if text.None? {
        QuietThreads(cfg, s, Failed(s.out), {});
      } else if IsAddResponse(cfg, text.value) {
        StatusPollFrame(cfg, s, text.value);
        QuietThreads(cfg, s, BeginStatusPoll(cfg, s, text.value), {ToServerStatus});
      } else if IsStatusResponse(cfg, text.value) {
        StatusThreads(cfg, s, text.value);
      } else {
        ServerMessageThreads(cfg, s, text.value, order, saveWorks);
        ThenTailThreads(cfg, HandleServerMessage(cfg, s, text.value, order, saveWorks));
      }
    case ClientOther(frame) =>
      QuietThreads(cfg, s, Next(Send(s, ServerFrame(frame))), {ToServerFrame});
      ThenTailThreads(cfg, Next(Send(s, ServerFrame(frame))));
    case ServerOther(frame) =>
      QuietThreads(cfg, s, Next(Send(s, ClientFrame(frame))), {ToClientFrame});
      ThenTailThreads(cfg, Next(Send(s, ClientFrame(frame))));
    case HostLine(line, order) =>
      if line.None? {
        QuietThreads(cfg, s, Failed(s.out), {});
      } else {
        HostMessageThreads(cfg, s, line.value, order);
        ThenTailThreads(cfg, HandleHostMessage(cfg, s, line.value, order));
      }
    case Gone => QuietThreads(cfg, s, Closed(s.out), {});
    case Broken => QuietThreads(cfg, s, Failed(s.out), {});
    case Expiry(expired) =>
      SendExpiredThreads(cfg, s, expired);
      ThenTailThreads(cfg, SendExpired(s, expired));
    case ScopeElsewhere(response, saveWorks) =>
      RecordFrame(s, response, saveWorks);
      QuietThreads(cfg, s, Next(RecordOwned(s, response, saveWorks)), {});
  }

  /** Over all runs. On the wires: shadow ids are 1, 2, 3, ..., and no request is sent twice. In
      every reachable state: a request has been sent for exactly those shadows that no longer wait,
      and every entry that waits has something left to wait for and keeps within its budget. */
  lemma {:induction false} ThreadStartsAccounted(cfg: Config, scope: Option<Scope>, events: seq<Event>)
    ensures ThreadOutcome(cfg, Run(cfg, Initial(scope), events))
  {
    hide Handle, WireThreads, ThreadInv;
    if events == [] {
      assert ThreadInv(cfg, Initial(scope)) && WireThreads(cfg, []) by { InitialThreads(cfg, scope); }
    } else {
      ThreadStartsAccounted(cfg, scope, events[..|events| - 1]);
      var before := Run(cfg, Initial(scope), events[..|events| - 1]);
      if before.Next? && Enabled(before.state, events[|events| - 1]) {
        ThreadTurn(cfg, before.state, events[|events| - 1]);
      }
    }
  }

  lemma InitialThreads(cfg: Config, scope: Option<Scope>)
    ensures ThreadInv(cfg, Initial(scope)) && WireThreads(cfg, [])
  {
  }
}
