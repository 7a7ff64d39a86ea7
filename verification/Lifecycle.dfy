/** Installing and rolling back: the stored profile, the remote releases, and what recovery undoes. */
module Lifecycle {
  import opened Wrappers

  datatype Status = Prepared | Installed | Ready | Broken

  /** The parts of a profile that installing and rolling back change. */
  datatype Profile = Profile(name: string, status: Status, version: string, target: Option<string>, home: Option<string>,
                             release: Option<string>, package: Option<string>, shim: Option<string>,
                             source: Option<string>, path: Option<string>)

  /** install.json. The name of the release it stands in is not repeated here. */
  datatype Metadata = Metadata(profile: string, version: string, target: string, package: Option<string>, shim: string,
                               source: Option<string>, path: Option<string>)

  /** A release directory: install.json and shim.json. */
  datatype Release = Release(install: Metadata, config: string)

  /** The remote account: where the links current and previous lead, the release directories, the active
      configuration files and the owner file. */
  datatype Remote = Remote(current: Option<string>, previous: Option<string>, releases: map<string, Release>,
                           active: Option<Release>, owner: Option<string>)

  datatype State = State(stored: Profile, remote: Remote)

  /** What the desktop found and transferred for an install. */
  datatype Artifacts = Artifacts(home: string, version: string, target: string, package: string, shim: string, config: string)

  /** How a command fares where the model cannot see: the checks and transfers before the remote script pass,
      the script runs to its end, the SSH configuration is rewritten, the result is verified, and the remote
      recovery script runs to its end. */
  datatype Fate = Fate(checked: bool, ran: bool, rewrote: bool, verified: bool, recovered: bool)

  datatype Result = Refused | Unverified | Done | Compensated | Stuck

  datatype Outcome = Outcome(state: State, result: Result)

  // ---- Remote scripts: atomic, None when they fail -------------------------------------------------

  function ExecServer(home: string): string {
    home + "/.local/lib/codex-shuttle/current/bin/codex"
  }

  function Staged(profile: string, a: Artifacts): Release {
    Release(Metadata(profile, a.version, a.target, Some(a.package), a.shim, Some("official-release"), Some(ExecServer(a.home))),
            a.config)
  }

  /** render_install_script: a release directory of that name is kept if there is one. */
  function InstallScript(r: Remote, profile: string, name: string, staged: Release): Option<Remote> {
    if r.owner.Some? && r.owner != Some(profile) then None
    else
      var releases := if name in r.releases then r.releases else r.releases[name := staged];
      var previous := if r.current.Some? && r.current != Some(name) then r.current else r.previous;
      Some(Remote(Some(name), previous, releases, Some(releases[name]), Some(profile)))
  }

  /** The rollback script: the links change places and the files of the release now current become active. */
  function RollbackScript(r: Remote): Option<Remote> {
    if r.previous.None? || r.current.None? || r.previous.value !in r.releases then None
    else Some(r.(current := r.previous, previous := r.current, active := Some(r.releases[r.previous.value])))
  }

  /** uninstall without purging. */
  function UninstallScript(r: Remote, profile: string): Option<Remote> {
    if r.owner != Some(profile) then None else Some(r.(active := None, owner := None))
  }

  // ---- Commands --------------------------------------------------------------------------------------

  /** The profile after the installer returned its record. */
  function Recorded(p: Profile, name: string, a: Artifacts): Profile {
    Profile(p.name, Installed, a.version, Some(a.target), Some(a.home), Some(name), Some(a.package), Some(a.shim),
            Some("official-release"), Some(ExecServer(a.home)))
  }

  /** The profile after a rollback printed the metadata of the release it activated. */
  function Followed(p: Profile, name: string, m: Metadata): Profile {
    p.(status := Installed, version := m.version, target := Some(m.target), release := Some(name),
       package := m.package, shim := Some(m.shim), source := m.source, path := m.path)
  }

  /** recover_failed_install. */
  function Recovery(now: State, before: Profile, recovered: bool): Outcome {
    if before.status == Prepared then
      var undone := if recovered then UninstallScript(now.remote, now.stored.name) else None;
      if undone.None? then Outcome(now, Stuck) else Outcome(State(before, undone.value), Compensated)
    else
      var undone := if recovered then RollbackScript(now.remote) else None;
      if undone.None? then Outcome(now, Stuck)
      else
        Outcome(State(Followed(now.stored, undone.value.current.value, undone.value.active.value.install), undone.value),
                Compensated)
  }

  /** install, with the name of the release the artifacts make. */
  function InstallCommand(s: State, name: string, a: Artifacts, fate: Fate): Outcome {
    var remote := if fate.checked && fate.ran then InstallScript(s.remote, s.stored.name, name, Staged(s.stored.name, a)) else None;
    if remote.None? then Outcome(s, Refused)
    else
      var now := State(Recorded(s.stored, name, a), remote.value);
      if !fate.rewrote then Outcome(now, Unverified)
      else if !fate.verified then Recovery(now, s.stored, fate.recovered)
      else Outcome(now.(stored := now.stored.(status := Ready)), Done)
  }

  /** rollback. */
  function RollbackCommand(s: State, fate: Fate): Outcome {
    var remote := if fate.checked && fate.ran then RollbackScript(s.remote) else None;
    if remote.None? then Outcome(s, Refused)
    else
      var now := State(Followed(s.stored, remote.value.current.value, remote.value.active.value.install), remote.value);
      if !fate.rewrote then Outcome(now, Unverified)
      else if !fate.verified then
        var undone := if fate.recovered then RollbackScript(now.remote) else None;
        if undone.None? then Outcome(now, Stuck) else Outcome(State(s.stored, undone.value), Compensated)
      else Outcome(now.(stored := now.stored.(status := Ready)), Done)
  }

  datatype Command = Install(artifacts: Artifacts, fate: Fate) | Rollback(fate: Fate)

  /** The rule that names releases, by version and digests. */
  type Naming = Release -> string

  function Execute(naming: Naming, s: State, command: Command): Outcome {
    match command
    case Install(a, fate) => InstallCommand(s, naming(Staged(s.stored.name, a)), a, fate)
    case Rollback(fate) => RollbackCommand(s, fate)
  }

  function Run(naming: Naming, s: State, commands: seq<Command>): State {
    if commands == [] then s
    else Execute(naming, Run(naming, s, commands[..|commands| - 1]), commands[|commands| - 1]).state
  }

  // ---- Agreement ---------------------------------------------------------------------------------------

  /** verify_remote_metadata. */
  predicate Verifies(p: Profile, m: Metadata) {
    m.profile == p.name && Matches(p, m)
  }

  /** All of verify_remote_metadata except the profile name. */
  predicate Matches(p: Profile, m: Metadata) {
    && m.version == p.version
    && p.package == m.package
    && p.shim == Some(m.shim)
    && (p.source.Some? ==> m.source == p.source)
    && (p.path.Some? ==> m.path == p.path)
  }

  /** Different releases have different names: the digests in the name are collision free. */
  ghost predicate Injective(naming: Naming) {
    forall a, b :: naming(a) == naming(b) ==> a == b
  }

  /** Every release directory holds what its name says. */
  ghost predicate Named(naming: Naming, r: Remote) {
    forall name :: name in r.releases ==> naming(r.releases[name]) == name
  }

  /** The links lead to releases, and to different ones. */
  predicate Linked(r: Remote) {
    && (r.current.Some? ==> r.current.value in r.releases)
    && (r.previous.Some? ==> r.current.Some? && r.previous.value in r.releases && r.previous != r.current)
  }

  /** An installed profile matches the active files, which are those of the current release. */
  predicate Agrees(s: State) {
    s.stored.status != Prepared ==>
      && s.remote.current.Some? && s.remote.current.value in s.remote.releases
      && s.remote.active == Some(s.remote.releases[s.remote.current.value])
      && Matches(s.stored, s.remote.active.value.install)
  }

  ghost predicate Sound(naming: Naming, s: State) {
    Named(naming, s.remote) && Linked(s.remote) && Agrees(s)
  }

  /** No release was made for another profile. */
  predicate Own(s: State) {
    forall name :: name in s.remote.releases ==> s.remote.releases[name].install.profile == s.stored.name
  }

  lemma InstallScriptIs(naming: Naming, r: Remote, profile: string, staged: Release)
    requires Injective(naming) && Named(naming, r) && Linked(r)
    requires InstallScript(r, profile, naming(staged), staged).Some?
    ensures var after := InstallScript(r, profile, naming(staged), staged).value;
            && Named(naming, after) && Linked(after)
            && after.current == Some(naming(staged)) && after.active == Some(staged)
            && naming(staged) in after.releases && after.releases[naming(staged)] == staged
            && (forall name :: name in after.releases ==> name in r.releases || after.releases[name] == staged)
            && (forall name :: name in r.releases ==> name in after.releases && after.releases[name] == r.releases[name])
  {
  }

  lemma RollbackScriptIs(r: Remote)
    requires Linked(r) && RollbackScript(r).Some?
    ensures var after := RollbackScript(r).value;
            && Linked(after) && after.releases == r.releases
            && after.current == r.previous && after.previous == r.current
            && after.current.Some? && after.current.value in after.releases
            && after.active == Some(after.releases[after.current.value])
  {
  }

  lemma RecoveryKeeps(naming: Naming, before: Profile, now: State, recovered: bool)
    requires Sound(naming, now) && before.name == now.stored.name
    ensures var o := Recovery(now, before, recovered);
            && Sound(naming, o.state) && o.state.stored.name == now.stored.name
            && o.state.remote.releases == now.remote.releases
  {
    if before.status != Prepared && RollbackScript(now.remote).Some? {
      RollbackScriptIs(now.remote);
    }
  }

  lemma InstallKeeps(naming: Naming, s: State, a: Artifacts, fate: Fate)
    requires Injective(naming) && Sound(naming, s)
    ensures var o := InstallCommand(s, naming(Staged(s.stored.name, a)), a, fate);
            && Sound(naming, o.state) && o.state.stored.name == s.stored.name
            && (Own(s) ==> Own(o.state))
  {
    hide Recovery, InstallScript, Injective, Named;
    var staged := Staged(s.stored.name, a);
    var remote := InstallScript(s.remote, s.stored.name, naming(staged), staged);
    if remote.Some? {
      InstallScriptIs(naming, s.remote, s.stored.name, staged);
      var now := State(Recorded(s.stored, naming(staged), a), remote.value);
      RecoveryKeeps(naming, s.stored, now, fate.recovered);
    }
  }

  lemma RollbackKeeps(naming: Naming, s: State, fate: Fate)
    requires Sound(naming, s)
    ensures var o := RollbackCommand(s, fate);
            && Sound(naming, o.state) && o.state.stored.name == s.stored.name
            && (Own(s) ==> Own(o.state))
  {
    hide RollbackScript;
    var remote := RollbackScript(s.remote);
    if remote.Some? {
      RollbackScriptIs(s.remote);
      if RollbackScript(remote.value).Some? {
        RollbackScriptIs(remote.value);
      }
    }
  }

  lemma {:induction false} RunKeeps(naming: Naming, s: State, commands: seq<Command>)
    requires Injective(naming) && Sound(naming, s)
    ensures var after := Run(naming, s, commands);
            && Sound(naming, after) && after.stored.name == s.stored.name
            && (Own(s) ==> Own(after))
  {
    hide InstallCommand, RollbackCommand, Sound, Own, Injective;
    if commands != [] {
      var n := |commands| - 1;
      RunKeeps(naming, s, commands[..n]);
      var so := Run(naming, s, commands[..n]);
      match commands[n] {
        case Install(a, fate) => InstallKeeps(naming, so, a, fate);
        case Rollback(fate) => RollbackKeeps(naming, so, fate);
      }
    }
  }

  /** When the account holds no release of another profile, verification always succeeds. */
  lemma RunVerifies(naming: Naming, s: State, commands: seq<Command>)
    requires Injective(naming) && Sound(naming, s) && Own(s)
    ensures var after := Run(naming, s, commands);
            after.stored.status != Prepared ==>
              after.remote.active.Some? && Verifies(after.stored, after.remote.active.value.install)
  {
    hide Run, Named;
    RunKeeps(naming, s, commands);
  }

  /** A rollback that takes effect and is not undone leaves metadata that verify exactly when the release behind the
      link previous was made for this profile. */
  lemma RollbackVerifiesExactly(s: State, fate: Fate)
    requires Linked(s.remote)
    requires RollbackCommand(s, fate).result != Refused && RollbackCommand(s, fate).result != Compensated
    ensures s.remote.previous.Some? && s.remote.previous.value in s.remote.releases
    ensures var after := RollbackCommand(s, fate).state;
            && after.stored.status != Prepared && after.remote.active.Some?
            && (Verifies(after.stored, after.remote.active.value.install)
                <==> s.remote.releases[s.remote.previous.value].install.profile == s.stored.name)
  {
  }

  // ---- Which accounts are safe for every sequence of commands ------------------------------------------

  /** The link leads to a release that was made for another profile. */
  predicate Foreign(s: State, link: Option<string>) {
    link.Some? && link.value in s.remote.releases && s.remote.releases[link.value].install.profile != s.stored.name
  }

  /** Neither link leads to a foreign release; or only current does, and this profile can do nothing about it: it is
      not installed, there is nothing to roll back to, and the account is owned by another profile. */
  predicate Safe(s: State) {
    && !Foreign(s, s.remote.previous)
    && (Foreign(s, s.remote.current) ==>
          && s.stored.status == Prepared && s.remote.previous.None?
          && s.remote.owner.Some? && s.remote.owner != Some(s.stored.name))
  }

  /** An installed profile has active files, and they verify. */
  predicate Good(s: State) {
    s.stored.status != Prepared ==> s.remote.active.Some? && Verifies(s.stored, s.remote.active.value.install)
  }

  ghost predicate AlwaysGood(naming: Naming, s: State) {
    forall commands :: Good(Run(naming, s, commands))
  }

  lemma SafeIsGood(s: State)
    requires Agrees(s) && Safe(s)
    ensures Good(s)
  {
  }

  lemma RecoverySafe(before: Profile, now: State, recovered: bool)
    requires Linked(now.remote) && before.name == now.stored.name
    requires !Foreign(now, now.remote.current) && !Foreign(now, now.remote.previous)
    ensures Safe(Recovery(now, before, recovered).state)
  {
  }

  lemma InstallSafe(naming: Naming, s: State, a: Artifacts, fate: Fate)
    requires Injective(naming) && Sound(naming, s) && Safe(s)
    ensures Safe(InstallCommand(s, naming(Staged(s.stored.name, a)), a, fate).state)
  {
    hide Recovery, InstallScript, Injective, Named;
    var staged := Staged(s.stored.name, a);
    var remote := InstallScript(s.remote, s.stored.name, naming(staged), staged);
    if remote.Some? {
      InstallScriptIs(naming, s.remote, s.stored.name, staged);
      InstalledLinks(s.remote, s.stored.name, naming(staged), staged);
      RecoverySafe(s.stored, State(Recorded(s.stored, naming(staged), a), remote.value), fate.recovered);
    }
  }

  lemma InstalledLinks(r: Remote, profile: string, name: string, staged: Release)
    requires InstallScript(r, profile, name, staged).Some?
    ensures var after := InstallScript(r, profile, name, staged).value;
            && (after.previous == r.previous || (after.previous == r.current && r.current.Some?))
            && (r.owner.None? || r.owner == Some(profile))
  {
  }

  lemma RollbackSafe(s: State, fate: Fate)
    requires Linked(s.remote) && Safe(s)
    ensures Safe(RollbackCommand(s, fate).state)
  {
  }

  lemma {:induction false} RunSafe(naming: Naming, s: State, commands: seq<Command>)
    requires Injective(naming) && Sound(naming, s) && Safe(s)
    ensures Safe(Run(naming, s, commands))
  {
    hide InstallCommand, RollbackCommand, Safe, Injective, Named, Agrees;
    if commands != [] {
      var n := |commands| - 1;
      RunSafe(naming, s, commands[..n]);
      RunKeeps(naming, s, commands[..n]);
      var so := Run(naming, s, commands[..n]);
      match commands[n] {
        case Install(a, fate) => InstallSafe(naming, so, a, fate);
        case Rollback(fate) => RollbackSafe(so, fate);
      }
    }
  }

  const WELL: Fate := Fate(true, true, true, true, true)

  lemma OneCommand(naming: Naming, s: State, c: Command)
    ensures Run(naming, s, [c]) == Execute(naming, s, c).state
  {
    hide Execute;
    assert [c][..0] == [];
  }

  lemma TwoCommands(naming: Naming, s: State, c: Command, d: Command)
    ensures Run(naming, s, [c, d]) == Execute(naming, Execute(naming, s, c).state, d).state
  {
    hide Execute;
    assert [c, d][..1] == [c];
    OneCommand(naming, s, c);
  }

  /** From an account that is not safe, at most two commands lead to metadata that do not verify. */
  lemma UnsafeFails(naming: Naming, s: State, a: Artifacts)
    requires Injective(naming) && Sound(naming, s) && !Safe(s)
    ensures exists commands :: !Good(Run(naming, s, commands))
  {
    hide Injective, Run;
    if Foreign(s, s.remote.previous) {
      OneCommand(naming, s, Rollback(WELL));
      assert !Good(Run(naming, s, [Rollback(WELL)]));
    } else if s.stored.status != Prepared {
      assert Run(naming, s, []) == s by { NoCommands(naming, s); }
      assert !Good(Run(naming, s, []));
    } else if s.remote.previous.Some? {
      TwoCommands(naming, s, Rollback(WELL), Rollback(WELL));
      assert !Good(Run(naming, s, [Rollback(WELL), Rollback(WELL)]));
    } else {
      var staged := Staged(s.stored.name, a);
      InstallScriptIs(naming, s.remote, s.stored.name, staged);
      TwoCommands(naming, s, Install(a, WELL), Rollback(WELL));
      assert s.remote.current != Some(naming(staged));
      assert !Good(Run(naming, s, [Install(a, WELL), Rollback(WELL)]));
    }
  }

  lemma NoCommands(naming: Naming, s: State)
    ensures Run(naming, s, []) == s
  {
  }

  /** Over all sequences of commands with all outcomes, an installed profile verifies exactly when the account was
      safe at the start: a condition on the releases behind current and previous and on the owner. */
  lemma AlwaysVerifiesExactly(naming: Naming, s: State)
    requires Injective(naming) && Sound(naming, s)
    ensures AlwaysGood(naming, s) <==> Safe(s)
  {
    hide Run, Injective, Safe, Good, Named, Agrees;
    if Safe(s) {
      forall commands ensures Good(Run(naming, s, commands)) {
        RunSafe(naming, s, commands);
        RunKeeps(naming, s, commands);
        SafeIsGood(Run(naming, s, commands));
      }
    } else {
      UnsafeFails(naming, s, Artifacts("", "", "", "", "", ""));
    }
  }

  // ---- What recovery undoes --------------------------------------------------------------------------

  /** A rollback that is not verified and is rolled back itself leaves the stored profile, the links and the
      releases as they were; and the active files too exactly when they were those of the current release. */
  lemma RollbackUndoneExactly(s: State, fate: Fate)
    requires RollbackCommand(s, fate).result == Compensated
    ensures var after := RollbackCommand(s, fate).state;
            && s.remote.current.Some? && s.remote.current.value in s.remote.releases
            && after == s.(remote := s.remote.(active := Some(s.remote.releases[s.remote.current.value])))
            && (after == s <==> s.remote.active == Some(s.remote.releases[s.remote.current.value]))
  {
  }

  /** So recovery is an exact inverse for every installed profile. */
  lemma RollbackUndoneWhenInstalled(naming: Naming, s: State, fate: Fate)
    requires Sound(naming, s) && s.stored.status != Prepared && RollbackCommand(s, fate).result == Compensated
    ensures RollbackCommand(s, fate).state == s
  {
    hide RollbackCommand, Named;
    RollbackUndoneExactly(s, fate);
  }

  /** Two first installs that were undone, then a rollback that is undone: the files of the current release are
      active, where none were. */
  lemma UndoneRollbackActivates(naming: Naming, s: State, a: Artifacts, b: Artifacts)
    requires Injective(naming) && Sound(naming, s)
    requires s.stored.status == Prepared && s.remote.owner.None? && Staged(s.stored.name, a) != Staged(s.stored.name, b)
    ensures var failing := Fate(true, true, true, false, true);
            var before := Run(naming, s, [Install(a, failing), Install(b, failing)]);
            var after := RollbackCommand(before, failing);
            && Sound(naming, before) && before.remote.active.None?
            && after.result == Compensated && after.state != before
            && after.state.remote.active == Some(Staged(s.stored.name, b))
  {
    hide Injective, Run, Named;
    var failing := Fate(true, true, true, false, true);
    var first, second := Staged(s.stored.name, a), Staged(s.stored.name, b);
    assert naming(first) != naming(second) by { Distinguishes(naming, first, second); }
    InstallScriptIs(naming, s.remote, s.stored.name, first);
    var once := Execute(naming, s, Install(a, failing)).state;
    InstallKeeps(naming, s, a, failing);
    InstallScriptIs(naming, once.remote, s.stored.name, second);
    InstallKeeps(naming, once, b, failing);
    TwoCommands(naming, s, Install(a, failing), Install(b, failing));
  }

  lemma Distinguishes(naming: Naming, a: Release, b: Release)
    requires Injective(naming) && a != b
    ensures naming(a) != naming(b)
  {
  }

  /** An install over an installed profile that is not verified and is rolled back ends at the release that
      was current before, with its files active and the profile describing it, exactly when it installed a
      release other than the current one. Reinstalling the current release ends at the previous one. */
  lemma FailedInstallReturnsExactly(naming: Naming, s: State, a: Artifacts, fate: Fate)
    requires Injective(naming) && Sound(naming, s) && s.stored.status != Prepared
    requires InstallCommand(s, naming(Staged(s.stored.name, a)), a, fate).result == Compensated
    ensures var name := naming(Staged(s.stored.name, a));
            var after := InstallCommand(s, name, a, fate).state;
            && (after.remote.current == s.remote.current <==> s.remote.current != Some(name))
            && (s.remote.current != Some(name) ==>
                  && after.remote.active == s.remote.active
                  && after.remote.previous == Some(name)
                  && Matches(after.stored, s.remote.active.value.install)
                  && after.stored.version == s.stored.version
                  && after.stored.package == s.stored.package && after.stored.shim == s.stored.shim)
            && (s.remote.current == Some(name) ==>
                  after.remote.current == s.remote.previous && after.remote.previous == s.remote.current)
  {
    hide Injective;
    var staged := Staged(s.stored.name, a);
    InstallScriptIs(naming, s.remote, s.stored.name, staged);
    RollbackScriptIs(InstallScript(s.remote, s.stored.name, naming(staged), staged).value);
  }

  /** A first install that is not verified and is undone restores the prepared profile and takes the active
      files away, but the release stays current on the remote. */
  lemma FailedFirstInstallLeavesRelease(naming: Naming, s: State, a: Artifacts, fate: Fate)
    requires Injective(naming) && Sound(naming, s) && s.stored.status == Prepared
    requires InstallCommand(s, naming(Staged(s.stored.name, a)), a, fate).result == Compensated
    ensures var name := naming(Staged(s.stored.name, a));
            var after := InstallCommand(s, name, a, fate).state;
            && after.stored == s.stored
            && after.remote.active.None? && after.remote.owner.None?
            && after.remote.current == Some(name)
            && name in after.remote.releases && after.remote.releases[name] == Staged(s.stored.name, a)
  {
    hide Injective;
    InstallScriptIs(naming, s.remote, s.stored.name, Staged(s.stored.name, a));
  }

  // ---- The code that assigns the profile step by step ----------------------------------------------------

  /** The stored profile and the remote account, as the commands see them. */
  class Machines {
    var stored: Profile
    var remote: Remote

    constructor (s: State)
      ensures Value() == s
    {
      stored, remote := s.stored, s.remote;
    }

    function Value(): State
      reads this
    {
      State(stored, remote)
    }

    /** cxs_install::rollback: the metadata it returns, or nothing when it fails. */
    method RemoteRollback(runs: bool) returns (metadata: Option<Metadata>)
      modifies `remote
      ensures var after := if runs then RollbackScript(old(remote)) else None;
              && metadata.Some? == after.Some?
              && (after.None? ==> remote == old(remote))
              && (after.Some? ==> remote == after.value && metadata.value == remote.active.value.install)
    {
      if !runs || remote.previous.None? || remote.current.None? || remote.previous.value !in remote.releases {
        return None;
      }
      var oldCurrent, newCurrent := remote.current, remote.previous;
      remote := remote.(current := newCurrent);
      remote := remote.(previous := oldCurrent);
      remote := remote.(active := Some(remote.releases[newCurrent.value]));
      return Some(remote.active.value.install);
    }

    /** cxs_install::uninstall without purging. */
    method RemoteUninstall(profile: string, runs: bool) returns (ok: bool)
      modifies `remote
      ensures var after := if runs then UninstallScript(old(remote), profile) else None;
              ok == after.Some? && remote == (if ok then after.value else old(remote))
    {
      if !runs || remote.owner != Some(profile) {
        return false;
      }
      remote := remote.(active := None);
      remote := remote.(owner := None);
      return true;
    }

    /** The activation in render_install_script. */
    method RemoteInstall(profile: string, name: string, staged: Release, runs: bool) returns (ok: bool)
      modifies `remote
      ensures var after := if runs then InstallScript(old(remote), profile, name, staged) else None;
              ok == after.Some? && remote == (if ok then after.value else old(remote))
    {
      if !runs || (remote.owner.Some? && remote.owner != Some(profile)) {
        return false;
      }
      if name !in remote.releases {
        remote := remote.(releases := remote.releases[name := staged]);
      }
      if remote.current.Some? && remote.current != Some(name) {
        remote := remote.(previous := remote.current);
      }
      remote := remote.(current := Some(name));
      remote := remote.(active := Some(remote.releases[name]));
      remote := remote.(owner := Some(profile));
      return true;
    }

    /** recover_failed_install, with the profile the caller is working on. */
    method RecoverFailedInstall(working: Profile, previous: Profile, recovered: bool) returns (ok: bool)
      requires working == stored
      modifies this
      ensures Outcome(Value(), if ok then Compensated else Stuck)
           == Recovery(old(Value()), previous, recovered)
    {
      if previous.status == Prepared {
        var undone := RemoteUninstall(working.name, recovered);
        if !undone {
          return false;
        }
        stored := previous;
        return true;
      }
      var metadata := RemoteRollback(recovered);
      if metadata.None? {
        return false;
      }
      var profile := working;
      profile := profile.(version := metadata.value.version);
      profile := profile.(target := Some(metadata.value.target));
      profile := profile.(release := remote.current);
      profile := profile.(package := metadata.value.package);
      profile := profile.(shim := Some(metadata.value.shim));
      profile := profile.(source := metadata.value.source);
      profile := profile.(path := metadata.value.path);
      profile := profile.(status := Installed);
      stored := profile;
      return true;
    }

    /** install. */
    method Install(name: string, a: Artifacts, fate: Fate) returns (result: Result)
      modifies this
      ensures Outcome(Value(), result) == InstallCommand(old(Value()), name, a, fate)
    {
      var profile := stored;
      var previousProfile := profile;
      var installed := RemoteInstall(profile.name, name, Staged(profile.name, a), fate.checked && fate.ran);
      if !installed {
        return Refused;
      }
      profile := profile.(version := a.version);
      profile := profile.(status := Installed);
      profile := profile.(target := Some(a.target));
      profile := profile.(home := Some(a.home));
      profile := profile.(release := Some(name));
      profile := profile.(package := Some(a.package));
      profile := profile.(shim := Some(a.shim));
      profile := profile.(source := Some("official-release"));
      profile := profile.(path := Some(ExecServer(a.home)));
      stored := profile;
      if !fate.rewrote {
        return Unverified;
      }
      if !fate.verified {
        var ok := RecoverFailedInstall(profile, previousProfile, fate.recovered);
        return if ok then Compensated else Stuck;
      }
      profile := profile.(status := Ready);
      stored := profile;
      return Done;
    }

    /** rollback. */
    method Rollback(fate: Fate) returns (result: Result)
      modifies this
      ensures Outcome(Value(), result) == RollbackCommand(old(Value()), fate)
    {
      var profile := stored;
      var previousProfile := profile;
      var metadata := RemoteRollback(fate.checked && fate.ran);
      if metadata.None? {
        return Refused;
      }
      profile := profile.(version := metadata.value.version);
      profile := profile.(target := Some(metadata.value.target));
      profile := profile.(release := remote.current);
      profile := profile.(package := metadata.value.package);
      profile := profile.(shim := Some(metadata.value.shim));
      profile := profile.(source := metadata.value.source);
      profile := profile.(path := metadata.value.path);
      profile := profile.(status := Installed);
      stored := profile;
      if !fate.rewrote {
        return Unverified;
      }
      if !fate.verified {
        var undone := RemoteRollback(fate.recovered);
        if undone.None? {
          return Stuck;
        }
        stored := previousProfile;
        return Compensated;
      }
      profile := profile.(status := Ready);
      stored := profile;
      return Done;
    }
  }
}
