/** What the stored profile records: the release, target and home it names, and the status and result of each command. */
module LifecycleRecord {
  import opened Wrappers
  import opened Lifecycle

  // ---- The release that the profile names ---------------------------------------------------------------

  /** An installed profile names the current release of the account, and the target, source and executor path of its
      active files. */
  predicate Describes(s: State) {
    s.stored.status != Prepared ==>
      && s.remote.current.Some? && s.stored.release == s.remote.current
      && s.remote.active.Some?
      && var install := s.remote.active.value.install;
        s.stored.target == Some(install.target) && s.stored.source == install.source && s.stored.path == install.path
  }

  lemma RecoveryDescribes(naming: Naming, before: Profile, now: State, recovered: bool)
    requires Sound(naming, now) && Describes(now)
    ensures Describes(Recovery(now, before, recovered).state)
  {
    if before.status != Prepared && RollbackScript(now.remote).Some? {
      RollbackScriptIs(now.remote);
    }
  }

  lemma InstallDescribes(naming: Naming, s: State, a: Artifacts, fate: Fate)
    requires Injective(naming) && Sound(naming, s) && Describes(s)
    ensures Describes(InstallCommand(s, naming(Staged(s.stored.name, a)), a, fate).state)
  {
    hide Recovery, InstallScript, Injective, Named;
    var staged := Staged(s.stored.name, a);
    var remote := InstallScript(s.remote, s.stored.name, naming(staged), staged);
    if remote.Some? {
      InstallScriptIs(naming, s.remote, s.stored.name, staged);
      var now := State(Recorded(s.stored, naming(staged), a), remote.value);
      RecoveryDescribes(naming, s.stored, now, fate.recovered);
    }
  }

  lemma RollbackDescribes(naming: Naming, s: State, fate: Fate)
    requires Sound(naming, s) && Describes(s)
    ensures Describes(RollbackCommand(s, fate).state)
  {
    hide RollbackScript, Named;
    var remote := RollbackScript(s.remote);
    if remote.Some? {
      RollbackScriptIs(s.remote);
      if RollbackScript(remote.value).Some? {
        RollbackScriptIs(remote.value);
      }
    }
  }

  /** Over all sequences of commands with all outcomes: an installed profile names the current release of the account and
      the target, source and executor path of its active files, if it did so at the start. */
  lemma {:induction false} RunDescribes(naming: Naming, s: State, commands: seq<Command>)
    requires Injective(naming) && Lifecycle.Sound(naming, s) && Describes(s)
    ensures Describes(Run(naming, s, commands))
  {
    hide InstallCommand, RollbackCommand, Sound, Describes, Injective;
    if commands != [] {
      var n := |commands| - 1;
      RunDescribes(naming, s, commands[..n]);
      RunKeeps(naming, s, commands[..n]);
      match commands[n] {
        case Install(a, fate) => InstallDescribes(naming, Run(naming, s, commands[..n]), a, fate);
        case Rollback(fate) => RollbackDescribes(naming, Run(naming, s, commands[..n]), fate);
      }
    }
  }

  /** After any commands with any outcomes, the verification of an installed profile that names a source and an executor
      path accepts exactly the metadata of the active release, with the name of this profile and up to the target. */
  lemma VerifiesOnlyActive(naming: Naming, s: State, commands: seq<Command>, m: Metadata)
    requires Injective(naming) && Lifecycle.Sound(naming, s) && Describes(s)
    requires var p := Run(naming, s, commands).stored; p.status != Prepared && p.source.Some? && p.path.Some?
    ensures var after := Run(naming, s, commands);
            && after.remote.active.Some?
            && (Verifies(after.stored, m)
                <==> var install := after.remote.active.value.install;
                     m == install.(target := m.target, profile := s.stored.name))
  {
    hide Run, Injective, Named;
    RunDescribes(naming, s, commands);
    RunKeeps(naming, s, commands);
    var after := Run(naming, s, commands);
    var install := after.remote.active.value.install;
    if Verifies(after.stored, m) {
      MatchingAre(after.stored, m, install);
    }
  }

  lemma MatchingAre(p: Profile, m: Metadata, install: Metadata)
    requires Verifies(p, m) && Matches(p, install) && p.source.Some? && p.path.Some?
    ensures m.(target := install.target, profile := install.profile) == install && m.profile == p.name
  {
  }

  /** What install.json and shim.json of a new release say: the profile it was made for, what was transferred, and where
      the executor will be. */
  lemma StagedIs(profile: string, a: Artifacts)
    ensures var r := Staged(profile, a);
            && r.config == a.config
            && r.install.profile == profile && r.install.version == a.version && r.install.target == a.target
            && r.install.package == Some(a.package) && r.install.shim == a.shim
            && r.install.source == Some("official-release")
            && r.install.path == Some(a.home + "/.local/lib/codex-shuttle" + "/current/bin/codex")
  {
    assert "/.local/lib/codex-shuttle" + "/current/bin/codex" == "/.local/lib/codex-shuttle/current/bin/codex";
    assert a.home + "/.local/lib/codex-shuttle" + "/current/bin/codex" == a.home + ("/.local/lib/codex-shuttle" + "/current/bin/codex");
  }

  /** The remote scripts, by what they need and do. Installing needs an account without an owner or of this profile, and
      keeps a directory of that name if there is one; rolling back needs a previous release that is there; uninstalling
      needs this profile to be the owner, and takes nothing away but the active files and the ownership. */
  lemma ScriptsExactly(r: Remote, profile: string, name: string, staged: Release)
    ensures InstallScript(r, profile, name, staged).Some? <==> r.owner.None? || r.owner.value == profile
    ensures InstallScript(r, profile, name, staged).Some? ==>
              var after := InstallScript(r, profile, name, staged).value;
              && after.owner == Some(profile) && after.current == Some(name)
              && (forall other :: other in after.releases <==> other in r.releases || other == name)
              && (forall other :: other in r.releases ==> after.releases[other] == r.releases[other])
              && (name !in r.releases ==> after.releases[name] == staged)
              && after.active == Some(after.releases[name])
              && after.previous == (if r.current.None? || r.current.value == name then r.previous else r.current)
    ensures RollbackScript(r).Some? <==> r.current.Some? && r.previous.Some? && r.previous.value in r.releases
    ensures UninstallScript(r, profile).Some? <==> r.owner.Some? && r.owner.value == profile
    ensures UninstallScript(r, profile).Some? ==>
              UninstallScript(r, profile).value == Remote(r.current, r.previous, r.releases, None, None)
  {
  }

  // ---- Results --------------------------------------------------------------------------------------------

  /** The install reaches the remote account and may activate its release there. */
  predicate InstallTakes(s: State, fate: Fate) {
    fate.checked && fate.ran && (s.remote.owner.None? || s.remote.owner.value == s.stored.name)
  }

  /** There is a release to return to after installing the one called name over an installed profile. */
  predicate Returnable(s: State, name: string) {
    (s.remote.current.Some? && s.remote.current.value != name) || s.remote.previous.Some?
  }

  /** The result of an install, by what happened: refused when it did not reach the account; otherwise by the first of
      rewriting, verifying and recovering that fails. */
  lemma InstallResult(naming: Naming, s: State, a: Artifacts, fate: Fate)
    requires Injective(naming) && Lifecycle.Sound(naming, s)
    ensures var name := naming(Staged(s.stored.name, a));
            InstallCommand(s, name, a, fate).result
            == if !InstallTakes(s, fate) then Refused
               else if !fate.rewrote then Unverified
               else if fate.verified then Done
               else if fate.recovered && (s.stored.status == Prepared || Returnable(s, name)) then Compensated
               else Stuck
  {
    hide Injective;
    var staged := Staged(s.stored.name, a);
    if InstallScript(s.remote, s.stored.name, naming(staged), staged).Some? {
      InstallScriptIs(naming, s.remote, s.stored.name, staged);
    }
  }

  /** The same for a rollback, which needs a previous release. */
  lemma RollbackResult(s: State, fate: Fate)
    requires Linked(s.remote)
    ensures RollbackCommand(s, fate).result
            == if !(fate.checked && fate.ran && s.remote.previous.Some?) then Refused
               else if !fate.rewrote then Unverified
               else if fate.verified then Done
               else if fate.recovered then Compensated
               else Stuck
  {
  }

  /** What the profile says afterwards. Done is Ready; a command that could not be verified leaves Installed; a refused
      one changes nothing; and an undone one restores the profile, except that undoing an install over an installed
      profile is itself an unverified rollback. */
  lemma StatusTells(naming: Naming, s: State, command: Command)
    ensures var o := Execute(naming, s, command);
            match o.result
            case Done => o.state.stored.status == Ready
            case Unverified => o.state.stored.status == Installed
            case Stuck => o.state.stored.status == Installed
            case Refused => o.state == s
            case Compensated =>
              if command.Install? && s.stored.status != Prepared then o.state.stored.status == Installed
              else o.state.stored == s.stored
  {
  }

  /** Whether the commands leave the profile ready: the last of them that told, that is, that was not refused and was
      not a rollback that was undone, was done. */
  function LeavesReady(naming: Naming, s: State, commands: seq<Command>): bool {
    if commands == [] then s.stored.status == Ready
    else
      var n := |commands| - 1;
      var result := Execute(naming, Run(naming, s, commands[..n]), commands[n]).result;
      if result == Done then true
      else if result == Refused || (result == Compensated && commands[n].Rollback?) then LeavesReady(naming, s, commands[..n])
      else false
  }

  /** Over all sequences of commands: the profile is ready exactly when the last command that told was done. */
  lemma {:induction false} ReadyExactly(naming: Naming, s: State, commands: seq<Command>)
    ensures Run(naming, s, commands).stored.status == Ready <==> LeavesReady(naming, s, commands)
  {
    hide Execute;
    if commands != [] {
      var n := |commands| - 1;
      ReadyExactly(naming, s, commands[..n]);
      StatusTells(naming, Run(naming, s, commands[..n]), commands[n]);
    }
  }

  /** The home directory of the profile is that of the last install that took effect and was not undone to a prepared
      profile; a rollback keeps it. The name never changes. */
  lemma HomeTells(naming: Naming, s: State, command: Command)
    ensures var o := Execute(naming, s, command);
            && o.state.stored.name == s.stored.name
            && (command.Rollback? ==> o.state.stored.home == s.stored.home)
            && (command.Install? ==>
                  o.state.stored.home
                  == if o.result == Refused || (o.result == Compensated && s.stored.status == Prepared) then s.stored.home
                     else Some(command.artifacts.home))
  {
  }
}
