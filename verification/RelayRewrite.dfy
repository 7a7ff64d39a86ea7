/** What rewriting changes in client messages and shadows, and what it leaves alone. */
module RelayRewrite {
  import opened Wrappers
  import opened Json
  import opened RelaySpec

  /** The member of a request's parameters called name; missing or null parameters have none. */
  function Param(request: Json, name: string): Option<Json> {
    if Field(request, "params").Some? then Field(Field(request, "params").value, name) else None
  }

  /** The member called name is an object, null, or absent. */
  predicate MayHold(v: Json, name: string) {
    v.Obj? && (name in v.fields ==> v.fields[name].Obj? || v.fields[name].Null?)
  }

  predicate HasParams(request: Json) {
    MayHold(request, "params")
  }

  function WorkingDirectory(request: Json): Option<string> {
    AsString(Param(request, "cwd"))
  }

  /** An initialize request needs an id and, when present, objects for params and capabilities; a thread/start
      needs a cwd; a turn/start needs params; everything else is accepted. */
  predicate Accepted(raw: Json) {
    match Method(raw)
    case Some("initialize") =>
      && Field(raw, "id").Some? && HasParams(raw)
      && (Param(raw, "capabilities").Some? ==> Param(raw, "capabilities").value.Obj? || Param(raw, "capabilities").value.Null?)
    case Some("thread/start") => WorkingDirectory(raw).Some?
    case Some("turn/start") => HasParams(raw)
    case _ => true
  }

  /** after are the capabilities before with the experimental API enabled. */
  ghost predicate Enables(before: Option<Json>, after: Option<Json>) {
    && after.Some? && after.value.Obj?
    && forall name :: Field(after.value, name)
                      == if name == "experimentalApi" then Some(Bool(true))
                         else if before.Some? then Field(before.value, name) else None
  }

  /** One environment, the remote one, at cwd, which is its only workspace root. */
  function RemoteAt(cfg: Config, cwd: string): Json {
    Arr([Obj(map["environmentId" := Str(cfg.environmentId), "cwd" := Str(cwd), "runtimeWorkspaceRoots" := Arr([Str(cwd)])])])
  }

  /** The parameter called name of m, against those of raw: initialize enables the experimental API; a thread or turn runs
      in the remote environment at its own cwd, and a turn without a cwd names none; all others keep their values. */
  ghost predicate ParamRewritten(cfg: Config, raw: Json, m: Json, name: string) {
    if Method(raw) == Some("initialize") && name == "capabilities" then Enables(Param(raw, name), Param(m, name))
    else if Method(raw) != Some("initialize") && name == "environments" then
      var cwd := WorkingDirectory(raw);
      Param(m, name) == if cwd.Some? then Some(RemoteAt(cfg, cwd.value)) else None
    else Param(m, name) == Param(raw, name)
  }

  /** m is raw as the relay sends it on: only the parameters of the three methods change. */
  ghost predicate Rewritten(cfg: Config, raw: Json, m: Json) {
    if Method(raw) !in [Some("initialize"), Some("thread/start"), Some("turn/start")] then m == raw
    else
      && m.Obj? && (forall name :: name != "params" ==> Field(m, name) == Field(raw, name))
      && Field(m, "params").Some? && Field(m, "params").value.Obj?
      && forall name :: ParamRewritten(cfg, raw, m, name)
  }

  lemma RewriteAccepts(cfg: Config, raw: Json)
    ensures Rewrite(cfg, raw).Some? <==> Accepted(raw)
  {
    hide Environments;
  }

  lemma EnvironmentsAre(cfg: Config)
    ensures forall cwd :: Environments(cfg, cwd) == RemoteAt(cfg, cwd)
  {
  }

  lemma InitializeRewrites(cfg: Config, raw: Json)
    requires Method(raw) == Some("initialize") && Accepted(raw)
    ensures Rewrite(cfg, raw).Some? && Rewritten(cfg, raw, Rewrite(cfg, raw).value)
  {
    hide Environments;
  }

  lemma ThreadStartRewrites(cfg: Config, raw: Json)
    requires Method(raw) == Some("thread/start") && Accepted(raw)
    ensures Rewrite(cfg, raw).Some? && Rewritten(cfg, raw, Rewrite(cfg, raw).value)
  {
    EnvironmentsAre(cfg);
    hide Environments, RemoteAt;
  }

  lemma TurnStartRewrites(cfg: Config, raw: Json)
    requires Method(raw) == Some("turn/start") && Accepted(raw)
    ensures Rewrite(cfg, raw).Some? && Rewritten(cfg, raw, Rewrite(cfg, raw).value)
  {
    EnvironmentsAre(cfg);
    hide Environments, RemoteAt;
  }

  lemma RewriteRewrites(cfg: Config, raw: Json)
    requires Accepted(raw)
    ensures Rewrite(cfg, raw).Some? && Rewritten(cfg, raw, Rewrite(cfg, raw).value)
  {
    hide Accepted, RewriteInitialize, RewriteThreadStart, RewriteTurnStart, ParamRewritten;
    if Method(raw) == Some("initialize") {
      InitializeRewrites(cfg, raw);
    } else if Method(raw) == Some("thread/start") {
      ThreadStartRewrites(cfg, raw);
    } else if Method(raw) == Some("turn/start") {
      TurnStartRewrites(cfg, raw);
    }
  }

  lemma SameMembers(m: Json, n: Json)
    requires m.Obj? && n.Obj? && forall name :: Field(m, name) == Field(n, name)
    ensures m == n
  {
    forall name ensures name in m.fields <==> name in n.fields {
      assert Field(m, name) == Field(n, name);
    }
    forall name | name in m.fields ensures m.fields[name] == n.fields[name] {
      assert Field(m, name) == Field(n, name);
    }
    assert m.fields == n.fields;
  }

  lemma RewrittenParams(cfg: Config, raw: Json, m: Json, n: Json)
    requires Rewritten(cfg, raw, m) && Rewritten(cfg, raw, n) && Method(raw) in [Some("initialize"), Some("thread/start"), Some("turn/start")]
    ensures Field(m, "params") == Field(n, "params")
  {
    hide Environments, RemoteAt, Method, WorkingDirectory;
    var ours, theirs := Field(m, "params").value, Field(n, "params").value;
    forall name ensures Field(ours, name) == Field(theirs, name) {
      assert ParamRewritten(cfg, raw, m, name) && ParamRewritten(cfg, raw, n, name);
      assert Param(m, name) == Field(ours, name) && Param(n, name) == Field(theirs, name);
      if Method(raw) == Some("initialize") && name == "capabilities" {
        var a, b := Field(ours, name).value, Field(theirs, name).value;
        forall inner ensures Field(a, inner) == Field(b, inner) {
        }
        SameMembers(a, b);
      }
    }
    SameMembers(ours, theirs);
  }

  /** At most one message is raw rewritten. */
  lemma RewrittenOnce(cfg: Config, raw: Json, m: Json, n: Json)
    requires Rewritten(cfg, raw, m) && Rewritten(cfg, raw, n)
    ensures m == n
  {
    hide ParamRewritten;
    if Method(raw) in [Some("initialize"), Some("thread/start"), Some("turn/start")] {
      RewrittenParams(cfg, raw, m, n);
      forall name ensures Field(m, name) == Field(n, name) {
        if name != "params" {
          assert Field(m, name) == Field(raw, name) && Field(n, name) == Field(raw, name);
        }
      }
      SameMembers(m, n);
    }
  }

  /** A message is sent on as m exactly when it is acceptable and m is that message rewritten, member by member. */
  lemma RewriteIs(cfg: Config, raw: Json, m: Json)
    ensures Rewrite(cfg, raw) == Some(m) <==> Accepted(raw) && Rewritten(cfg, raw, m)
  {
    hide Rewrite, Rewritten, Accepted;
    RewriteAccepts(cfg, raw);
    if Accepted(raw) {
      RewriteRewrites(cfg, raw);
      if Rewritten(cfg, raw, m) {
        RewrittenOnce(cfg, raw, m, Rewrite(cfg, raw).value);
      }
    }
  }

  /** Rewriting a rewritten message changes nothing more. */
  lemma RewriteIdempotent(cfg: Config, raw: Json)
    requires Rewrite(cfg, raw).Some?
    ensures Rewrite(cfg, Rewrite(cfg, raw).value) == Rewrite(cfg, raw)
  {
    hide Environments;
    var m := Rewrite(cfg, raw).value;
    if m != raw {
      var params := ObjectField(m, "params").value;
      assert m.fields["params" := Obj(params)] == m.fields;
      if Method(raw) == Some("initialize") {
        var capabilities := ObjectField(Obj(params), "capabilities").value;
        assert capabilities["experimentalApi" := Bool(true)] == capabilities;
        assert params["capabilities" := Obj(capabilities)] == params;
      } else if "environments" in params {
        assert params["environments" := params["environments"]] == params;
      } else {
        assert params - {"environments"} == params;
      }
    }
  }

  /** The shadow is the request under another id, made ephemeral, without environments and otherwise equal. */
  lemma ShadowKeepsMembers(local: Json, id: string, name: string)
    requires ShadowRequest(local, id).Some?
    ensures var shadow := ShadowRequest(local, id).value;
            && Field(shadow, "id") == Some(Str(id))
            && Param(shadow, "ephemeral") == Some(Bool(true))
            && Param(shadow, "environments") == None
            && (name != "id" && name != "params" ==> Field(shadow, name) == Field(local, name))
            && (name != "ephemeral" && name != "environments" ==> Param(shadow, name) == Param(local, name))
  {
  }

  // ---- The instruction sources of a host reply ---------------------------------------------------

  /** The positions of the strings among items. */
  function StringPositions(items: seq<Json>): seq<nat> {
    if items == [] then []
    else
      StringPositions(items[..|items| - 1]) + (if items[|items| - 1].Str? then [|items| - 1] else [])
  }

  lemma {:induction false} StringsAppend(items: seq<Json>, last: Json)
    ensures Strings(items + [last]) == Strings(items) + (if last.Str? then [last.s] else [])
  {
    if items != [] {
      assert (items + [last])[1..] == items[1..] + [last];
      StringsAppend(items[1..], last);
    }
  }

  lemma {:induction false} StringsInOrder(items: seq<Json>)
    ensures var at := StringPositions(items);
            && |at| == |Strings(items)|
            && (forall k :: 0 <= k < |at| ==> at[k] < |items| && items[at[k]] == Str(Strings(items)[k]))
            && (forall j, k :: 0 <= j < k < |at| ==> at[j] < at[k])
            && (forall i :: 0 <= i < |items| && items[i].Str? ==> i in at)
  {
    hide Strings;
    if items == [] {
      assert Strings(items) == [] by { NoStrings(); }
    } else {
      var init, last := items[..|items| - 1], items[|items| - 1];
      StringsInOrder(init);
      assert init + [last] == items;
      StringsAppend(init, last);
      var before, at := StringPositions(init), StringPositions(items);
      forall i | 0 <= i < |items| && items[i].Str? ensures i in at {
        if i < |init| {
          assert init[i] == items[i];
          assert i in before;
        } else {
          assert at[|at| - 1] == i;
        }
      }
    }
  }

  lemma NoStrings()
    ensures Strings([]) == []
  {
  }

  /** The sources to read are the strings the host listed, in its order, up to the limit. */
  lemma SourcesAreListedStrings(v: Json, result: Json, items: seq<Json>)
    requires Field(v, "result") == Some(result) && Field(result, "instructionSources") == Some(Arr(items))
    ensures var paths, at := InstructionPaths(v), StringPositions(items);
            && |paths| == (if |at| <= 32 then |at| else 32)
            && forall k :: 0 <= k < |paths| ==> at[k] < |items| && items[at[k]] == Str(paths[k])
  {
    hide Strings, StringPositions;
    StringsInOrder(items);
  }

  /** Only such a list lists sources. */
  lemma NoListNoSources(v: Json)
    ensures InstructionPaths(v) != [] ==>
              exists result, items :: Field(v, "result") == Some(result) && Field(result, "instructionSources") == Some(Arr(items))
  {
    if InstructionPaths(v) != [] {
      var result := Field(v, "result").value;
      assert Field(result, "instructionSources") == Some(Arr(Field(result, "instructionSources").value.items));
    }
  }
}
