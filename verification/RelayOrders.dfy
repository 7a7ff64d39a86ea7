/** For which entries the order of the host's read replies is irrelevant: the exact condition. */
module RelayOrders {
  import opened Wrappers
  import opened Json
  import opened RelaySpec
  import opened RelayThreads
  import opened RelayGather

  /** Bytes stored for the path of an awaited read, which a reply to it would replace. */
  function Kept(p: Pending, r: string): nat
    requires r in p.outstanding
  {
    if p.outstanding[r] in p.contents then |p.contents[p.outstanding[r]]| else 0
  }

  ghost predicate Shares(p: Pending) {
    exists r, q :: SharesPath(p, r, q)
  }

  /** Two reads of different paths, with stored texts of one size in at most half of the budget. */
  ghost predicate TwoAlike(p: Pending) {
    && |p.outstanding.Keys| == 2 && !Shares(p)
    && (forall r, q :: r in p.outstanding && q in p.outstanding ==> Kept(p, r) == Kept(p, q))
  }

  /** At most one read is awaited; or no awaited path has a text, and either all paths differ or there is no room for
      another byte; or two are awaited that are alike. */
  ghost predicate Indifferent(p: Pending) {
    || |p.outstanding.Keys| <= 1
    || (FreshPaths(p) && (!Shares(p) || TextBytes(p.contents) == MAX_INSTRUCTION_TOTAL_BYTES))
    || (TwoAlike(p) && TextBytes(p.contents) <= MAX_INSTRUCTION_SOURCE_BYTES)
  }

  ghost predicate Carriable(cfg: Config, n: nat) {
    exists data :: Carries(cfg, data, n)
  }

  /** The host can send a text of any acceptable size. */
  ghost predicate AnySize(cfg: Config) {
    forall n: nat :: n <= MAX_INSTRUCTION_SOURCE_BYTES ==> Carriable(cfg, n)
  }

  // ---- Where the order matters --------------------------------------------------------------------------

  /** Gathering from the first reply on. */
  lemma {:induction false} GatherFirst(cfg: Config, p: Pending, r: string, order: seq<string>, replies: map<string, Json>)
    requires Answering(p, [r] + order, replies)
    ensures r in p.outstanding
    ensures var first, all := RecordRead(cfg, p, r, replies[r]), Gather(cfg, p, [r] + order, replies);
            && (first.None? ==> all.None?)
            && (first.Some? ==> Answering(first.value, order, replies) && all == Gather(cfg, first.value, order, replies))
    decreases |order|
  {
    hide RecordRead;
    if order == [] {
      assert [r] + order == [] + [r];
      GatherLast(cfg, p, [], r, replies);
      NoReplies(cfg, p, replies);
    } else {
      var init, last := order[..|order| - 1], order[|order| - 1];
      assert [r] + order == [r] + init + [last] && init + [last] == order;
      GatherLast(cfg, p, [r] + init, last, replies);
      GatherFirst(cfg, p, r, init, replies);
      FirstLeaves(cfg, p, r, order, replies);
      if RecordRead(cfg, p, r, replies[r]).Some? {
        GatherLast(cfg, RecordRead(cfg, p, r, replies[r]).value, init, last, replies);
      }
    }
  }

  lemma NoReplies(cfg: Config, p: Pending, replies: map<string, Json>)
    ensures Gather(cfg, p, [], replies) == Some(p)
  {
  }

  lemma FirstLeaves(cfg: Config, p: Pending, r: string, order: seq<string>, replies: map<string, Json>)
    requires Answering(p, [r] + order, replies)
    ensures RecordRead(cfg, p, r, replies[r]).Some? ==> Answering(RecordRead(cfg, p, r, replies[r]).value, order, replies)
  {
    hide TextBytes;
    var whole := [r] + order;
    assert whole[0] == r && forall i :: 0 <= i < |order| ==> whole[i + 1] == order[i];
    forall i | 0 <= i < |order| ensures order[i] in whole && order[i] != r {
      assert whole[i + 1] == order[i];
    }
  }

  /** If the order matters after some first reply, it matters. */
  lemma FirstReply(cfg: Config, p: Pending, r: string, v: Json)
    requires r in p.outstanding && HasId(v, r) && RecordRead(cfg, p, r, v).Some?
    requires !OrderIrrelevant(cfg, RecordRead(cfg, p, r, v).value)
    ensures !OrderIrrelevant(cfg, p)
  {
    hide RecordRead, Gather, HasId;
    var q := RecordRead(cfg, p, r, v).value;
    var order, other, replies :| Complete(q, order, replies) && Complete(q, other, replies)
                                 && Gather(cfg, q, order, replies) != Gather(cfg, q, other, replies);
    var more := replies[r := v];
    FirstCompletes(cfg, p, r, v, order, replies);
    FirstCompletes(cfg, p, r, v, other, replies);
    assert Gather(cfg, p, [r] + order, more) != Gather(cfg, p, [r] + other, more);
  }

  lemma FirstCompletes(cfg: Config, p: Pending, r: string, v: Json, order: seq<string>, replies: map<string, Json>)
    requires r in p.outstanding && HasId(v, r) && RecordRead(cfg, p, r, v).Some?
    requires Complete(RecordRead(cfg, p, r, v).value, order, replies)
    ensures Complete(p, [r] + order, replies[r := v])
    ensures Gather(cfg, p, [r] + order, replies[r := v]) == Gather(cfg, RecordRead(cfg, p, r, v).value, order, replies)
  {
    hide RecordRead, HasId, Gather;
    assert RecordRead(cfg, p, r, v).value.outstanding == p.outstanding - {r} by { RecordReadTakes(cfg, p, r, v); }
    PutFirst(p, RecordRead(cfg, p, r, v).value, r, v, order, replies);
    GatherFirst(cfg, p, r, order, replies[r := v]);
    SameReplies(cfg, RecordRead(cfg, p, r, v).value, order, replies, replies[r := v]);
  }

  lemma RecordReadTakes(cfg: Config, p: Pending, r: string, v: Json)
    requires r in p.outstanding && RecordRead(cfg, p, r, v).Some?
    ensures RecordRead(cfg, p, r, v).value.outstanding == p.outstanding - {r}
  {
    hide TextBytes;
  }

  lemma PutFirst(p: Pending, q: Pending, r: string, v: Json, order: seq<string>, replies: map<string, Json>)
    requires r in p.outstanding && HasId(v, r) && q.outstanding == p.outstanding - {r} && Complete(q, order, replies)
    ensures Complete(p, [r] + order, replies[r := v])
  {
    hide HasId;
    var whole := [r] + order;
    assert whole[0] == r && forall i :: 0 <= i < |order| ==> whole[i + 1] == order[i];
    assert forall o :: o in whole <==> o == r || o in order;
  }

  lemma EmptyReply(cfg: Config, p: Pending, r: string)
    requires r in p.outstanding && !OrderIrrelevant(cfg, p.(outstanding := p.outstanding - {r}))
    ensures !OrderIrrelevant(cfg, p)
  {
    hide OrderIrrelevant, HasId, TextBytes;
    NoDataIs(r);
    FirstReply(cfg, p, r, NoData(r));
  }

  /** If the order of some of the awaited replies matters, it matters: the others may come first and carry nothing. */
  lemma {:induction false} Others(cfg: Config, p: Pending, drop: set<string>)
    requires drop <= p.outstanding.Keys && !OrderIrrelevant(cfg, p.(outstanding := p.outstanding - drop))
    ensures !OrderIrrelevant(cfg, p)
    decreases |drop|
  {
    hide OrderIrrelevant;
    if drop == {} {
      assert p.outstanding - drop == p.outstanding;
    } else {
      var r :| r in drop;
      assert p.outstanding - {r} - (drop - {r}) == p.outstanding - drop;
      Others(cfg, p.(outstanding := p.outstanding - {r}), drop - {r});
      EmptyReply(cfg, p, r);
    }
  }

  function Pair(r: string, a: string, q: string, b: string): map<string, Json> {
    map[r := IdReply(r, a), q := IdReply(q, b)]
  }

  /** What a reply with a text of n bytes does. */
  lemma TextRecorded(cfg: Config, p: Pending, r: string, data: string, n: nat)
    requires r in p.outstanding && Carries(cfg, data, n) && n <= MAX_INSTRUCTION_SOURCE_BYTES
    ensures var q := RecordRead(cfg, p, r, IdReply(r, data));
            if TextBytes(p.contents) + n > MAX_INSTRUCTION_TOTAL_BYTES then q.None?
            else
              && q.Some?
              && q.value == p.(outstanding := p.outstanding - {r},
                               contents := p.contents[p.outstanding[r] := cfg.decodeBase64(data).value])
              && TextBytes(q.value.contents) + Kept(p, r) == TextBytes(p.contents) + n
  {
    hide TextBytes;
    TextBytesUpdate(p.contents, p.outstanding[r], cfg.decodeBase64(data).value);
  }

  lemma TwoOrders(cfg: Config, p: Pending, r: string, q: string, a: string, b: string)
    requires r != q && p.outstanding.Keys == {r, q}
    ensures Complete(p, [r, q], Pair(r, a, q, b)) && Complete(p, [q, r], Pair(r, a, q, b))
  {
    hide HasId;
    assert HasId(IdReply(r, a), r) && HasId(IdReply(q, b), q) by { IdReplyNames(r, a); IdReplyNames(q, b); }
    TwoComplete(p, r, q, Pair(r, a, q, b));
    TwoComplete(p, q, r, Pair(r, a, q, b));
  }

  lemma IdReplyNames(r: string, a: string)
    ensures HasId(IdReply(r, a), r)
  {
  }

  /** A text of m bytes for r and one of n bytes for q are accepted in that order and refused in the other. */
  lemma SizesDepend(cfg: Config, p: Pending, r: string, q: string, m: nat, n: nat)
    requires r != q && p.outstanding.Keys == {r, q} && AnySize(cfg)
    requires m <= MAX_INSTRUCTION_SOURCE_BYTES && n <= MAX_INSTRUCTION_SOURCE_BYTES
    requires TextBytes(p.contents) + m <= MAX_INSTRUCTION_TOTAL_BYTES
    requires TextBytes(p.contents) + m + n <= MAX_INSTRUCTION_TOTAL_BYTES + Kept(p, r)
    requires || TextBytes(p.contents) + n > MAX_INSTRUCTION_TOTAL_BYTES
             || TextBytes(p.contents) + n + m > MAX_INSTRUCTION_TOTAL_BYTES + Kept(p, q)
    ensures !OrderIrrelevant(cfg, p)
  {
    hide TextBytes, RecordRead, Gather, Carries, HasId, IdReply;
    assert Carriable(cfg, m) && Carriable(cfg, n);
    var a :| Carries(cfg, a, m);
    var b :| Carries(cfg, b, n);
    var replies := Pair(r, a, q, b);
    TwoOrders(cfg, p, r, q, a, b);
    GatherTwo(cfg, p, r, q, replies);
    GatherTwo(cfg, p, q, r, replies);
    TextRecorded(cfg, p, r, a, m);
    TextRecorded(cfg, p, q, b, n);
    var first, second := RecordRead(cfg, p, r, replies[r]), RecordRead(cfg, p, q, replies[q]);
    TextRecorded(cfg, first.value, q, b, n);
    if second.Some? {
      TextRecorded(cfg, second.value, r, a, m);
    }
    assert Gather(cfg, p, [r, q], replies).Some? && Gather(cfg, p, [q, r], replies).None?;
  }

  /** More than half of the budget is used, partly by a text that an awaited reply will replace. */
  lemma FullDepends(cfg: Config, p: Pending, r: string, q: string)
    requires r != q && r in p.outstanding && q in p.outstanding && AnySize(cfg)
    requires MAX_INSTRUCTION_SOURCE_BYTES < TextBytes(p.contents) <= MAX_INSTRUCTION_TOTAL_BYTES && Kept(p, r) > 0
    ensures !OrderIrrelevant(cfg, p)
  {
    hide TextBytes, OrderIrrelevant;
    var two := p.(outstanding := p.outstanding - (p.outstanding.Keys - {r, q}));
    assert two.outstanding.Keys == {r, q};
    SizesDepend(cfg, two, r, q, 0, MAX_INSTRUCTION_TOTAL_BYTES - TextBytes(p.contents) + 1);
    Others(cfg, p, p.outstanding.Keys - {r, q});
  }

  /** The reply to r makes room for more than the reply to q. */
  lemma UnequalDepends(cfg: Config, p: Pending, r: string, q: string)
    requires r != q && p.outstanding.Keys == {r, q} && AnySize(cfg)
    requires WithinBudget(p.contents) && Kept(p, r) > Kept(p, q)
    ensures !OrderIrrelevant(cfg, p)
  {
    hide TextBytes;
    var sum := MAX_INSTRUCTION_TOTAL_BYTES - TextBytes(p.contents) + Kept(p, r);
    TextBytesSplit(p.contents, p.outstanding[r]);
    var n := if sum < MAX_INSTRUCTION_SOURCE_BYTES then sum else MAX_INSTRUCTION_SOURCE_BYTES;
    SizesDepend(cfg, p, r, q, sum - n, n);
  }

  /** With a third read: its text may first fill half of the budget. */
  lemma ThreeDepend(cfg: Config, p: Pending, r: string, q: string, u: string)
    requires r != q && r != u && q != u && r in p.outstanding && q in p.outstanding && u in p.outstanding
    requires AnySize(cfg) && TextBytes(p.contents) <= MAX_INSTRUCTION_SOURCE_BYTES
    requires p.outstanding[u] != p.outstanding[r] && Kept(p, r) > 0
    ensures !OrderIrrelevant(cfg, p)
  {
    hide TextBytes, OrderIrrelevant, RecordRead, Carries, HasId, IdReply;
    assert Carriable(cfg, MAX_INSTRUCTION_SOURCE_BYTES);
    var data :| Carries(cfg, data, MAX_INSTRUCTION_SOURCE_BYTES);
    TextRecorded(cfg, p, u, data, MAX_INSTRUCTION_SOURCE_BYTES);
    IdReplyNames(u, data);
    var filled := RecordRead(cfg, p, u, IdReply(u, data)).value;
    BothKept(p, r, u);
    FullDepends(cfg, filled, r, q);
    FirstReply(cfg, p, u, IdReply(u, data));
  }

  lemma BothKept(p: Pending, r: string, u: string)
    requires r in p.outstanding && u in p.outstanding && p.outstanding[u] != p.outstanding[r]
    ensures TextBytes(p.contents) >= Kept(p, r) + Kept(p, u)
  {
    hide TextBytes;
    var a, b := p.outstanding[r], p.outstanding[u];
    if a in p.contents {
      TextBytesSplit(p.contents, a);
      if b in p.contents {
        TextBytesSplit(p.contents - {a}, b);
      }
    } else if b in p.contents {
      TextBytesSplit(p.contents, b);
    }
  }

  // ---- Where it does not --------------------------------------------------------------------------------

  ghost predicate AllEmpty(cfg: Config, order: seq<string>, replies: map<string, Json>)
    requires forall r :: r in order ==> r in replies
  {
    forall r :: r in order ==> Readable(cfg, replies[r]) && (TextOf(cfg, replies[r]).Some? ==> TextOf(cfg, replies[r]).value == [])
  }

  /** With the budget used up by other texts, only empty texts are accepted. */
  lemma {:induction false} FullForm(cfg: Config, p: Pending, order: seq<string>, replies: map<string, Json>)
    requires Answering(p, order, replies) && FreshPaths(p) && TextBytes(p.contents) == MAX_INSTRUCTION_TOTAL_BYTES
    ensures var contents, g := Stored(cfg, p, order, replies), Gather(cfg, p, order, replies);
            if AllEmpty(cfg, order, replies) then
              && g == Some(p.(outstanding := p.outstanding - Elems(order), contents := contents))
              && TextBytes(contents) == MAX_INSTRUCTION_TOTAL_BYTES
            else g.None?
    decreases |order|
  {
    hide TextBytes, Readable, TextOf, RecordRead;
    if order == [] {
      NothingAnswered(p);
    } else {
      var init, last := order[..|order| - 1], order[|order| - 1];
      FullForm(cfg, p, init, replies);
      assert forall r :: r in order <==> r in init || r == last;
      if AllEmpty(cfg, init, replies) {
        var before := Stored(cfg, p, init, replies);
        StoredStaysEmpty(cfg, p, init, replies, last);
        ElemsLast(order);
        assert p.outstanding - Elems(init) - {last} == p.outstanding - Elems(order);
        RecordLast(cfg, p, Gather(cfg, p, init, replies).value, last, replies[last], before);
        var text := TextOf(cfg, replies[last]);
        if text.Some? {
          TextBytesUpdate(before, p.outstanding[last], text.value);
        }
      }
    }
  }

  lemma EmptyIsConsistent(cfg: Config, p: Pending, order: seq<string>, replies: map<string, Json>)
    requires Answering(p, order, replies) && AllEmpty(cfg, order, replies)
    ensures Consistent(cfg, p, order, replies)
  {
    hide TextOf, Readable;
  }

  lemma StoredStaysEmpty(cfg: Config, p: Pending, order: seq<string>, replies: map<string, Json>, last: string)
    requires Answering(p, order, replies) && FreshPaths(p) && AllEmpty(cfg, order, replies) && last in p.outstanding
    ensures var m, path := Stored(cfg, p, order, replies), p.outstanding[last];
            path in m ==> m[path] == []
  {
    hide TextOf, Readable, Stored;
    EmptyIsConsistent(cfg, p, order, replies);
    StoredAt(cfg, p, order, replies);
  }

  lemma FullConfluent(cfg: Config, p: Pending, order: seq<string>, other: seq<string>, replies: map<string, Json>)
    requires Complete(p, order, replies) && Complete(p, other, replies)
    requires FreshPaths(p) && TextBytes(p.contents) == MAX_INSTRUCTION_TOTAL_BYTES
    ensures Gather(cfg, p, order, replies) == Gather(cfg, p, other, replies)
  {
    hide TextBytes, Gather, Stored, HasId, Readable, TextOf, FreshPaths;
    FullForm(cfg, p, order, replies);
    FullForm(cfg, p, other, replies);
    assert forall r :: r in order <==> r in other;
    assert Elems(order) == Elems(other);
    if AllEmpty(cfg, order, replies) {
      EmptyIsConsistent(cfg, p, order, replies);
      StoredConfluent(cfg, p, order, other, replies);
    }
  }

  lemma {:induction false} ListedOnce(order: seq<string>)
    requires forall i, j :: 0 <= i < j < |order| ==> order[i] != order[j]
    ensures |Elems(order)| == |order|
    decreases |order|
  {
    if order != [] {
      var init, last := order[..|order| - 1], order[|order| - 1];
      ListedOnce(init);
      ElemsLast(order);
      assert last !in Elems(init);
    }
  }

  lemma OrderLength(p: Pending, order: seq<string>, replies: map<string, Json>)
    requires Complete(p, order, replies)
    ensures |order| == |p.outstanding.Keys| && forall i :: 0 <= i < |order| ==> order[i] in p.outstanding
  {
    hide HasId;
    ListedOnce(order);
    assert Elems(order) == p.outstanding.Keys;
  }

  /** A complete order of two reads is one of two. */
  lemma TwoListed(p: Pending, order: seq<string>, replies: map<string, Json>, r: string, q: string)
    requires Complete(p, order, replies) && r != q && p.outstanding.Keys == {r, q}
    ensures order == [r, q] || order == [q, r]
  {
    hide HasId;
    OrderLength(p, order, replies);
    assert order[0] != order[1];
  }

  /** What one reply does while at most half of the budget is used: it is refused only for itself. */
  lemma HalfRecorded(cfg: Config, p: Pending, r: string, v: Json)
    requires r in p.outstanding && TextBytes(p.contents) <= MAX_INSTRUCTION_SOURCE_BYTES
    ensures var q := RecordRead(cfg, p, r, v);
            if !Readable(cfg, v) then q.None?
            else
              && q == Some(p.(outstanding := p.outstanding - {r}, contents := Received(cfg, p, r, v)))
              && (TextOf(cfg, v).None? ==> TextBytes(q.value.contents) == TextBytes(p.contents))
              && (TextOf(cfg, v).Some? ==>
                    |TextOf(cfg, v).value| <= MAX_INSTRUCTION_SOURCE_BYTES
                    && TextBytes(q.value.contents) + Kept(p, r) == TextBytes(p.contents) + |TextOf(cfg, v).value|)
  {
    hide TextBytes;
    if TextOf(cfg, v).Some? {
      TextBytesUpdate(p.contents, p.outstanding[r], TextOf(cfg, v).value);
    }
  }

  function Received(cfg: Config, p: Pending, r: string, v: Json): map<string, string>
    requires r in p.outstanding
  {
    if TextOf(cfg, v).Some? then p.contents[p.outstanding[r] := TextOf(cfg, v).value] else p.contents
  }

  lemma AlikeConfluent(cfg: Config, p: Pending, r: string, q: string, replies: map<string, Json>)
    requires r != q && p.outstanding.Keys == {r, q} && p.outstanding[r] != p.outstanding[q] && Kept(p, r) == Kept(p, q)
    requires TextBytes(p.contents) <= MAX_INSTRUCTION_SOURCE_BYTES
    requires Answering(p, [r, q], replies) && Answering(p, [q, r], replies)
    ensures Gather(cfg, p, [r, q], replies) == Gather(cfg, p, [q, r], replies)
  {
    hide TextBytes, RecordRead, Gather, TextOf, Readable;
    assert r in [r, q] && q in [r, q];
    var v, w := replies[r], replies[q];
    GatherTwo(cfg, p, r, q, replies);
    GatherTwo(cfg, p, q, r, replies);
    HalfRecorded(cfg, p, r, v);
    HalfRecorded(cfg, p, q, w);
    BothKept(p, r, q);
    var first, second := RecordRead(cfg, p, r, v), RecordRead(cfg, p, q, w);
    if first.Some? {
      RecordLast(cfg, p, first.value, q, w, first.value.contents);
    }
    if second.Some? {
      RecordLast(cfg, p, second.value, r, v, second.value.contents);
    }
    assert p.outstanding - {r} - {q} == p.outstanding - {q} - {r};
    if TextOf(cfg, v).Some? && TextOf(cfg, w).Some? {
      var a, b := p.outstanding[r], p.outstanding[q];
      var x, y := TextOf(cfg, v).value, TextOf(cfg, w).value;
      assert p.contents[a := x][b := y] == p.contents[b := y][a := x];
    }
  }

  // ---- The exact condition ------------------------------------------------------------------------------

  lemma IndifferentAgrees(cfg: Config, p: Pending, order: seq<string>, other: seq<string>, replies: map<string, Json>)
    requires Indifferent(p) && WithinBudget(p.contents) && Complete(p, order, replies) && Complete(p, other, replies)
    ensures Gather(cfg, p, order, replies) == Gather(cfg, p, other, replies)
  {
    hide TextBytes, Gather, HasId, FreshPaths;
    if |p.outstanding.Keys| <= 1 {
      OnlyOrder(p, order, other, replies);
    } else if FreshPaths(p) && TextBytes(p.contents) == MAX_INSTRUCTION_TOTAL_BYTES {
      FullConfluent(cfg, p, order, other, replies);
    } else if FreshPaths(p) && !Shares(p) {
      AllDiffer(p);
      assert forall r :: r in order <==> r in other;
      GatherConfluent(cfg, p, order, other, replies);
    } else {
      var r, q := TwoOf(p.outstanding.Keys);
      AllDiffer(p);
      TwoListed(p, order, replies, r, q);
      TwoListed(p, other, replies, r, q);
      if order != other {
        AlikeConfluent(cfg, p, r, q, replies);
      }
    }
  }

  lemma AllDiffer(p: Pending)
    requires !Shares(p)
    ensures forall r, q :: r in p.outstanding && q in p.outstanding && r != q ==> p.outstanding[r] != p.outstanding[q]
  {
    forall r, q | r in p.outstanding && q in p.outstanding && r != q ensures p.outstanding[r] != p.outstanding[q] {
      assert !SharesPath(p, r, q);
    }
  }

  lemma TwoOf(s: set<string>) returns (r: string, q: string)
    requires |s| == 2
    ensures r != q && s == {r, q}
  {
    r :| r in s;
    assert |s - {r}| == 1;
    q :| q in s - {r};
    assert |s - {r} - {q}| == 0;
  }

  lemma OnlyOrder(p: Pending, order: seq<string>, other: seq<string>, replies: map<string, Json>)
    requires |p.outstanding.Keys| <= 1 && Complete(p, order, replies) && Complete(p, other, replies)
    ensures order == other
  {
    hide Complete;
    OrderLength(p, order, replies);
    OrderLength(p, other, replies);
    if |order| == 1 {
      assert |p.outstanding.Keys - {order[0]}| == 0;
      assert other[0] !in p.outstanding.Keys - {order[0]};
    }
  }

  /** Some read other than those of keep is awaited. */
  lemma Another(p: Pending, keep: set<string>) returns (q: string)
    requires keep <= p.outstanding.Keys && |keep| < |p.outstanding.Keys|
    ensures q in p.outstanding && q !in keep
  {
    assert p.outstanding.Keys == keep + (p.outstanding.Keys - keep);
    q :| q in p.outstanding.Keys - keep;
  }

  lemma KeptDepends(cfg: Config, p: Pending, r: string)
    requires !Indifferent(p) && WithinBudget(p.contents) && AnySize(cfg)
    requires r in p.outstanding && Kept(p, r) > 0 && (Shares(p) ==> TextBytes(p.contents) == MAX_INSTRUCTION_TOTAL_BYTES)
    ensures !OrderIrrelevant(cfg, p)
  {
    hide TextBytes, OrderIrrelevant, AnySize, FreshPaths;
    var q := Another(p, {r});
    if TextBytes(p.contents) > MAX_INSTRUCTION_SOURCE_BYTES {
      FullDepends(cfg, p, r, q);
    } else {
      AllDiffer(p);
      if |p.outstanding.Keys| == 2 {
        assert p.outstanding.Keys == {r, q} by { var a, b := TwoOf(p.outstanding.Keys); }
        if Kept(p, r) > Kept(p, q) {
          UnequalDepends(cfg, p, r, q);
        } else {
          UnequalDepends(cfg, p, q, r);
        }
      } else {
        var u := Another(p, {r, q});
        ThreeDepend(cfg, p, r, q, u);
      }
    }
  }

  lemma DifferentDepends(cfg: Config, p: Pending)
    requires !Indifferent(p) && WithinBudget(p.contents) && AnySize(cfg)
    ensures !OrderIrrelevant(cfg, p)
  {
    hide TextBytes, OrderIrrelevant, Carries;
    if Shares(p) && TextBytes(p.contents) < MAX_INSTRUCTION_TOTAL_BYTES {
      var r, q :| SharesPath(p, r, q);
      assert Carriable(cfg, 1) && Carriable(cfg, 0);
      var long :| Carries(cfg, long, 1);
      var short :| Carries(cfg, short, 0);
      SharedPathDepends(cfg, p, r, q, long, short);
    } else {
      var r :| r in p.outstanding && p.outstanding[r] in p.contents && p.contents[p.outstanding[r]] != [];
      KeptDepends(cfg, p, r);
    }
  }

  /** For every entry whose texts are within the budget: all orders of all replies agree exactly when the entry is
      indifferent. */
  lemma OrderIrrelevantExactly(cfg: Config, p: Pending)
    requires WithinBudget(p.contents) && AnySize(cfg)
    ensures OrderIrrelevant(cfg, p) <==> Indifferent(p)
  {
    hide Indifferent, Gather;
    if Indifferent(p) {
      forall order, other, replies | Complete(p, order, replies) && Complete(p, other, replies)
        ensures Gather(cfg, p, order, replies) == Gather(cfg, p, other, replies)
      {
        IndifferentAgrees(cfg, p, order, other, replies);
      }
    } else {
      DifferentDepends(cfg, p);
    }
  }
}
