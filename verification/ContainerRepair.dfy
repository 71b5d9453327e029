/** Repairing and reconfiguring containers (src/runtime/docker/configuration.rs,
    src/runtime/docker/lifecycle/recreation.rs).

    What Docker reports about a container it created is taken to be the body
    it was created from. */
module ContainerRepair {
  import opened Sequences
  import opened Wrappers
  import opened Text

  const XDG_RUNTIME_DIR_KEY := "XDG_RUNTIME_DIR"
  const MANAGED_XDG_RUNTIME_DIR := "/tmp/agapornis-runtime"
  const MANAGED_XDG_RUNTIME_TMPFS_OPTIONS := "rw,nosuid,nodev,noexec,size=16m,mode=0700,uid=999,gid=999"
  const SERVER_ID_LABEL := "agapornis.server_id"
  const STOP_COMMAND_LABEL := "agapornis.stop_command"
  const STARTUP_DONE_LABEL := "agapornis.startup_done"

  type Environment = seq<string>
  type Command = seq<string>

  datatype RestartPolicy = Manual | OtherPolicy
  datatype Host = Host(tmpfs: Option<map<string, string>>, restart: Option<RestartPolicy>)
  datatype Config = Config(env: Option<Environment>, cmd: Option<Command>, labels: Option<map<string, string>>)
  datatype Container = Container(config: Config, host: Host)

  function OrEmpty(values: Option<Environment>): Environment {
    if values.Some? then values.value else []
  }

  // ---- environments ---------------------------------------------------------------

  function KeyOf(entry: string): Option<string> {
    match SplitOnce(entry, c => c == '=')
    case Some(pair) => Some(pair.0)
    case None => None
  }

  function Keys(values: Environment): set<string> {
    set entry | entry in values && KeyOf(entry).Some? :: KeyOf(entry).value
  }

  function Without(values: Environment, keys: set<string>): Environment {
    if values == [] then [] else
      var key := KeyOf(values[0]);
      (if key.Some? && key.value in keys then [] else [values[0]]) + Without(values[1..], keys)
  }

  /** The entries for one key, in order. */
  function For(values: Environment, key: string): Environment {
    if values == [] then [] else
      (if KeyOf(values[0]) == Some(key) then [values[0]] else []) + For(values[1..], key)
  }

  /** The entries without an `=`, in order. */
  function Bare(values: Environment): Environment {
    if values == [] then [] else
      (if KeyOf(values[0]) == None then [values[0]] else []) + Bare(values[1..])
  }

  function RuntimeEnvironmentValue(values: Environment): Option<string> {
    if values == [] then None else
      var last := |values| - 1;
      match SplitOnce(values[last], c => c == '=')
      case Some(pair) => if pair.0 == XDG_RUNTIME_DIR_KEY then Some(pair.1) else RuntimeEnvironmentValue(values[..last])
      case None => RuntimeEnvironmentValue(values[..last])
  }

  function ConfiguredRuntimeDir(values: Environment): string {
    match RuntimeEnvironmentValue(values)
    case Some(value) => if Trim(value) != "" then Trim(value) else MANAGED_XDG_RUNTIME_DIR
    case None => MANAGED_XDG_RUNTIME_DIR
  }

  function RuntimeEntry(dir: string): string {
    XDG_RUNTIME_DIR_KEY + ['='] + dir
  }

  function RuntimeEnvironment(values: Environment): Environment {
    Without(values, {XDG_RUNTIME_DIR_KEY}) + [RuntimeEntry(ConfiguredRuntimeDir(values))]
  }

  function MergedEnvironment(current: Option<Environment>, desired: Environment): Environment {
    Without(OrEmpty(current), Keys(desired)) + desired
  }

  // ---- commands ---------------------------------------------------------------------

  function RuntimeServerCommand(launcher: string, startup: string): Option<Command> {
    if Trim(startup) == "" then None
    else Some(["/bin/sh", "-lc", launcher, "agapornis-runtime", "exec " + startup])
  }

  function LegacyRuntimeCommand(command: Command): Option<string> {
    if |command| == 3 && command[0] == "/bin/sh" && command[1] == "-lc"
       && StartsWith(command[2], "exec ") && Trim(command[2][5..]) != ""
    then Some(command[2][5..]) else None
  }

  predicate RuntimeLauncherRepairNeeded(cmd: Option<Command>) {
    cmd.Some? && LegacyRuntimeCommand(cmd.value).Some?
  }

  function RepairedCommand(launcher: string, cmd: Option<Command>): Option<Command> {
    if RuntimeLauncherRepairNeeded(cmd) then RuntimeServerCommand(launcher, LegacyRuntimeCommand(cmd.value).value) else cmd
  }

  // ---- the runtime directory ------------------------------------------------------------

  function EnsuredTmpfs(tmpfs: Option<map<string, string>>, environment: Environment): Option<map<string, string>> {
    if RuntimeEnvironmentValue(environment) != Some(MANAGED_XDG_RUNTIME_DIR) then tmpfs
    else Some((if tmpfs.Some? then tmpfs.value else map[])[MANAGED_XDG_RUNTIME_DIR := MANAGED_XDG_RUNTIME_TMPFS_OPTIONS])
  }

  predicate TmpfsMounted(tmpfs: Option<map<string, string>>) {
    && tmpfs.Some?
    && MANAGED_XDG_RUNTIME_DIR in tmpfs.value
    && tmpfs.value[MANAGED_XDG_RUNTIME_DIR] == MANAGED_XDG_RUNTIME_TMPFS_OPTIONS
  }

  predicate RuntimeTmpfsReady(host: Option<Host>, environment: Environment) {
    RuntimeEnvironmentValue(environment) == Some(MANAGED_XDG_RUNTIME_DIR) ==> host.Some? && TmpfsMounted(host.value.tmpfs)
  }

  predicate RuntimeConfigurationReady(container: Container) {
    match RuntimeEnvironmentValue(OrEmpty(container.config.env))
    case Some(value) =>
      if value == MANAGED_XDG_RUNTIME_DIR then TmpfsMounted(container.host.tmpfs) else Trim(value) != ""
    case None => false
  }

  // ---- recreation ---------------------------------------------------------------------------

  function Created(launcher: string, container: Container): Container {
    var environment := RuntimeEnvironment(OrEmpty(container.config.env));
    Container(
      container.config.(cmd := RepairedCommand(launcher, container.config.cmd), env := Some(environment)),
      Host(EnsuredTmpfs(container.host.tmpfs, environment), Some(Manual)))
  }

  /** The container that is about to be replaced; its methods work on it in
      place, as the original does on the inspected configuration. */
  class Draft {
    var config: Config
    var host: Host

    constructor (container: Container)
      ensures config == container.config && host == container.host
    {
      config, host := container.config, container.host;
    }

    method RepairLegacyRuntimeCommand(launcher: string) returns (repaired: bool)
      modifies this`config
      ensures repaired == RuntimeLauncherRepairNeeded(old(config.cmd))
      ensures config == old(config).(cmd := RepairedCommand(launcher, old(config.cmd)))
    {
      if config.cmd.None? { return false; }
      var startup := LegacyRuntimeCommand(config.cmd.value);
      if startup.None? { return false; }
      config := config.(cmd := RuntimeServerCommand(launcher, startup.value));
      return true;
    }

    method EnsureRuntimeTmpfs(environment: Environment)
      modifies this`host
      ensures host == old(host).(tmpfs := EnsuredTmpfs(old(host.tmpfs), environment))
    {
      if RuntimeEnvironmentValue(environment) != Some(MANAGED_XDG_RUNTIME_DIR) { return; }
      if host.tmpfs.None? {
        host := host.(tmpfs := Some(map[]));
      }
      host := host.(tmpfs := Some(host.tmpfs.value[MANAGED_XDG_RUNTIME_DIR := MANAGED_XDG_RUNTIME_TMPFS_OPTIONS]));
    }

    method CreateBody(launcher: string)
      modifies this
      ensures Container(config, host) == Created(launcher, Container(old(config), old(host)))
    {
      var _ := RepairLegacyRuntimeCommand(launcher);
      var environment := RuntimeEnvironment(OrEmpty(config.env));
      config := config.(env := Some(environment));
      EnsureRuntimeTmpfs(environment);
      host := host.(restart := Some(Manual));
    }
  }

  // ---- comparing environments ------------------------------------------------------------------

  predicate Leq(a: string, b: string) {
    a == "" || (b != "" && (a[0] < b[0] || (a[0] == b[0] && Leq(a[1..], b[1..]))))
  }

  function Insert(entry: string, sorted: Environment): Environment {
    if sorted == [] || Leq(entry, sorted[0]) then [entry] + sorted else [sorted[0]] + Insert(entry, sorted[1..])
  }

  /** `normalized_environment` */
  function Normalized(values: Environment): Environment {
    if values == [] then [] else Insert(values[0], Normalized(values[1..]))
  }

  predicate Sorted(values: Environment) {
    forall i, j :: 0 <= i < j < |values| ==> Leq(values[i], values[j])
  }

  lemma LeqTotal(a: string, b: string)
    ensures Leq(a, a) && (Leq(a, b) || Leq(b, a)) && (Leq(a, b) && Leq(b, a) ==> a == b)
  {}

  lemma {:induction false} LeqTransitive(a: string, b: string, c: string)
    requires Leq(a, b) && Leq(b, c)
    ensures Leq(a, c)
    decreases |a|
  {
    if a != "" && a[0] == b[0] && b[0] == c[0] { LeqTransitive(a[1..], b[1..], c[1..]); }
  }

  lemma {:induction false} InsertKeepsOrder(entry: string, sorted: Environment)
    requires Sorted(sorted)
    ensures Sorted(Insert(entry, sorted))
    ensures multiset(Insert(entry, sorted)) == multiset(sorted) + multiset{entry}
    decreases |sorted|
  {
    if sorted == [] {
    } else if Leq(entry, sorted[0]) {
      forall i | 0 < i < |sorted| ensures Leq(entry, sorted[i]) { LeqTransitive(entry, sorted[0], sorted[i]); }
    } else {
      LeqTotal(entry, sorted[0]);
      InsertKeepsOrder(entry, sorted[1..]);
      assert sorted == [sorted[0]] + sorted[1..];
      var rest := Insert(entry, sorted[1..]);
      forall i | 0 <= i < |rest| ensures Leq(sorted[0], rest[i]) {
        assert rest[i] in multiset(rest);
        assert rest[i] == entry || rest[i] in sorted[1..];
      }
    }
  }

  lemma {:induction false} NormalizedIsSorted(values: Environment)
    ensures Sorted(Normalized(values)) && multiset(Normalized(values)) == multiset(values)
    decreases |values|
  {
    if values != [] {
      NormalizedIsSorted(values[1..]);
      InsertKeepsOrder(values[0], Normalized(values[1..]));
      assert values == [values[0]] + values[1..];
    }
  }

  lemma SortedHead(a: Environment, b: Environment)
    requires Sorted(a) && Sorted(b) && multiset(a) == multiset(b) && a != []
    ensures b != [] && a[0] == b[0]
  {
    assert |multiset(a)| == |a| && |multiset(b)| == |b|;
    assert a[0] in multiset(b) && b[0] in multiset(a);
    LeqTotal(a[0], b[0]);
  }

  lemma {:induction false} SortedIsUnique(a: Environment, b: Environment)
    requires Sorted(a) && Sorted(b) && multiset(a) == multiset(b)
    ensures a == b
    decreases |a|
  {
    if a == [] {
      assert |multiset(b)| == |b|;
    } else {
      SortedHead(a, b);
      assert a == [a[0]] + a[1..] && b == [b[0]] + b[1..];
      assert multiset(a[1..]) == multiset(a) - multiset{a[0]} == multiset(b[1..]);
      SortedIsUnique(a[1..], b[1..]);
    }
  }

  /** Comparing normalized environments ignores order and nothing else. */
  lemma NormalizedComparesEntries(a: Environment, b: Environment)
    ensures Normalized(a) == Normalized(b) <==> multiset(a) == multiset(b)
  {
    NormalizedIsSorted(a);
    NormalizedIsSorted(b);
    if multiset(a) == multiset(b) { SortedIsUnique(Normalized(a), Normalized(b)); }
  }

  // ---- updating a configuration -------------------------------------------------------------------

  datatype Request = Request(launcher: string, id: string, env: Environment, startup: string, stop: string,
                             startupDone: string, configFiles: string)

  /** The calls of an update that can fail, in order. */
  datatype Call = ValidateStartup | Inspect | WriteMetadata | Stop | BuildBody | Rename | Create | RenameBack | Start

  datatype Error = NoConfiguration | NoLabels | NotOwned | NoHostConfiguration | Refused(call: Call)

  /** The networks of a container, with the aliases of its server in each. */
  type Networks = Option<map<string, seq<string>>>

  /** The same networks, in each of which the container has its server's id as its only alias. */
  predicate Joins(networks: Networks, before: Networks, id: string) {
    && (networks.Some? <==> before.Some?)
    && (before.Some? ==> networks.value.Keys == before.value.Keys
                         && forall network :: network in before.value ==> networks.value[network] == [id])
  }

  function ReusableNetworks(networks: Networks, id: string): Networks {
    if networks.None? then None else Some(map network | network in networks.value :: [id])
  }

  function Merged(config: Config, request: Request): Environment {
    MergedEnvironment(config.env, RuntimeEnvironment(request.env))
  }

  function Label(labels: map<string, string>, name: string): string {
    if name in labels then labels[name] else ""
  }

  predicate Owned(config: Config, id: string) {
    && config.labels.Some? && "agapornis.server_id" in config.labels.value
    && config.labels.value["agapornis.server_id"] == id
  }

  predicate Changed(config: Config, host: Option<Host>, request: Request)
    requires config.labels.Some?
  {
    || Normalized(OrEmpty(config.env)) != Normalized(Merged(config, request))
    || config.cmd != RuntimeServerCommand(request.launcher, request.startup)
    || !RuntimeTmpfsReady(host, Merged(config, request))
    || Label(config.labels.value, STOP_COMMAND_LABEL) != request.stop
    || Label(config.labels.value, STARTUP_DONE_LABEL) != request.startupDone
  }

  function Reconfigured(config: Config, host: Host, request: Request): Container
    requires config.labels.Some?
  {
    Created(request.launcher, Container(
      Config(
        Some(Merged(config, request)),
        RuntimeServerCommand(request.launcher, request.startup),
        Some(config.labels.value[STOP_COMMAND_LABEL := request.stop][STARTUP_DONE_LABEL := request.startupDone])),
      host))
  }

  /** The command that runs a startup line under the launcher, and none for a blank one. */
  predicate Starts(cmd: Option<Command>, launcher: string, startup: string) {
    if Trim(startup) == "" then cmd.None?
    else cmd == Some(["/bin/sh", "-lc", launcher, "agapornis-runtime", "exec " + startup])
  }

  /** The runtime directory is a memory file system of the server's user. */
  predicate Mounted(tmpfs: Option<map<string, string>>) {
    && tmpfs.Some? && "/tmp/agapornis-runtime" in tmpfs.value
    && tmpfs.value["/tmp/agapornis-runtime"] == "rw,nosuid,nodev,noexec,size=16m,mode=0700,uid=999,gid=999"
  }

  /** A container that is as `request` wants it, made from one with environment `before`. */
  ghost predicate Fulfils(config: Config, host: Option<Host>, before: Option<Environment>, request: Request) {
    var merged := MergedEnvironment(before, RuntimeEnvironment(request.env));
    && multiset(OrEmpty(config.env)) == multiset(merged)
    && Starts(config.cmd, request.launcher, request.startup)
    && config.labels.Some?
    && Label(config.labels.value, "agapornis.stop_command") == request.stop
    && Label(config.labels.value, "agapornis.startup_done") == request.startupDone
    && (RuntimeEnvironmentValue(merged) == Some("/tmp/agapornis-runtime") ==> host.Some? && Mounted(host.value.tmpfs))
  }

  /** Every other label stays. */
  predicate KeepsLabels(before: Option<map<string, string>>, after: Option<map<string, string>>) {
    && before.Some? && after.Some?
    && after.value.Keys == before.value.Keys + {"agapornis.stop_command", "agapornis.startup_done"}
    && forall name :: name in before.value && name != "agapornis.stop_command" && name != "agapornis.startup_done" ==>
      after.value[name] == before.value[name]
  }

  lemma ReconfiguredFulfils(config: Config, host: Host, request: Request)
    requires config.labels.Some?
    ensures var made := Reconfigured(config, host, request); Fulfils(made.config, Some(made.host), config.env, request)
  {
    ReconfiguredMeaning(config, host, request);
    hide Reconfigured, RuntimeEnvironment, MergedEnvironment, RuntimeEnvironmentValue, Label, Trim;
  }

  lemma UnchangedFulfils(config: Config, host: Option<Host>, request: Request)
    requires config.labels.Some? && !Changed(config, host, request)
    ensures Fulfils(config, host, config.env, request)
  {
    NormalizedComparesEntries(OrEmpty(config.env), Merged(config, request));
    hide Normalized, RuntimeEnvironment, MergedEnvironment, RuntimeEnvironmentValue, Label, Trim;
  }

  /** The update gets as far as looking for changes. */
  predicate Accepted(config: Option<Config>, request: Request, failing: set<Call>) {
    ValidateStartup !in failing && Inspect !in failing && config.Some? && Owned(config.value, request.id)
  }

  /** ... and as far as stopping the server: its metadata is written, and there is something to change. */
  predicate Proceeds(config: Option<Config>, host: Option<Host>, request: Request, failing: set<Call>) {
    && Accepted(config, request, failing) && WriteMetadata !in failing
    && Changed(config.value, host, request) && host.Some?
  }

  /** ... and as far as moving the container aside and creating another. */
  predicate Replaces(config: Option<Config>, host: Option<Host>, running: bool, request: Request, failing: set<Call>) {
    && Proceeds(config, host, request, failing) && (running ==> Stop !in failing)
    && failing !! {BuildBody, Rename, Create}
  }

  /** Neither the new container nor the old one ends up with the server's name. */
  predicate LosesName(config: Option<Config>, host: Option<Host>, running: bool, request: Request, failing: set<Call>) {
    && Proceeds(config, host, request, failing) && (running ==> Stop !in failing)
    && failing !! {BuildBody, Rename} && {Create, RenameBack} <= failing
  }

  /** The container Docker holds under a server's name, as long as it does, and
      the server's metadata file. */
  class Server {
    var config: Option<Config>
    var host: Option<Host>
    var networks: Networks
    var running: bool
    var named: bool
    var metadata: Option<string>

    constructor (config: Option<Config>, host: Option<Host>, networks: Networks, running: bool, metadata: Option<string>)
      ensures this.config == config && this.host == host && this.networks == networks
      ensures this.running == running && named && this.metadata == metadata
    {
      this.config, this.host, this.networks := config, host, networks;
      this.running, named, this.metadata := running, true, metadata;
    }

    /** `update_configuration`; a call may fail, and one that could not be made
        counts as failed. */
    method UpdateConfiguration(request: Request, failing: set<Call>) returns (result: Result<bool, Error>)
      requires !named ==> Inspect in failing
      modifies this
      ensures result.Success? <==>
        && Accepted(old(config), request, failing) && WriteMetadata !in failing
        && (Changed(old(config).value, old(host), request) ==>
              Replaces(old(config), old(host), old(running), request, failing) && (old(running) ==> Start !in failing))
      ensures result.Success? ==> result.value == Changed(old(config).value, old(host), request) && running == old(running)
      ensures result.Success? ==> config.Some? && Fulfils(config.value, host, old(config).value.env, request)
      ensures result.Failure? && result.error.Refused? ==> result.error.call in failing
      ensures Replaces(old(config), old(host), old(running), request, failing) ==>
        && config.Some? && host.Some?
        && Container(config.value, host.value) == Reconfigured(old(config).value, old(host).value, request)
        && KeepsLabels(old(config).value.labels, config.value.labels) && host.value.restart == Some(Manual)
        && Joins(networks, old(networks), request.id)
      ensures !Replaces(old(config), old(host), old(running), request, failing) ==>
        config == old(config) && host == old(host) && networks == old(networks)
      ensures named <==> old(named) && !LosesName(old(config), old(host), old(running), request, failing)
      ensures Accepted(old(config), request, failing) && WriteMetadata !in failing ==> metadata == Some(request.configFiles)
      ensures !Accepted(old(config), request, failing) ==> metadata == old(metadata)
      ensures !Proceeds(old(config), old(host), request, failing) ==> running == old(running)
      ensures Proceeds(old(config), old(host), request, failing) && result.Failure? && old(running) && Stop !in failing ==> !running
    {
      hide Normalized, RuntimeTmpfsReady, RuntimeServerCommand, RepairedCommand, MergedEnvironment, RuntimeEnvironment,
           EnsuredTmpfs, Label, Fulfils;
      if ValidateStartup in failing { return Failure(Refused(ValidateStartup)); }
      if Inspect in failing { return Failure(Refused(Inspect)); }
      if config.None? { return Failure(NoConfiguration); }
      var current := config.value;
      if current.labels.None? { return Failure(NoLabels); }
      var labels := current.labels.value;
      if SERVER_ID_LABEL !in labels || labels[SERVER_ID_LABEL] != request.id { return Failure(NotOwned); }
      var desiredCommand := RuntimeServerCommand(request.launcher, request.startup);
      var merged := MergedEnvironment(current.env, RuntimeEnvironment(request.env));
      var changed :=
        || Normalized(OrEmpty(current.env)) != Normalized(merged)
        || current.cmd != desiredCommand
        || !RuntimeTmpfsReady(host, merged)
        || Label(labels, STOP_COMMAND_LABEL) != request.stop
        || Label(labels, STARTUP_DONE_LABEL) != request.startupDone;
      if WriteMetadata in failing {
        metadata := *;
        return Failure(Refused(WriteMetadata));
      }
      metadata := Some(request.configFiles);
      if !changed {
        UnchangedFulfils(current, host, request);
        return Success(false);
      }
      var wasRunning := running;
      labels := labels[STOP_COMMAND_LABEL := request.stop];
      labels := labels[STARTUP_DONE_LABEL := request.startupDone];
      if host.None? { return Failure(NoHostConfiguration); }
      var env := if merged != [] then Some(merged) else None;
      if wasRunning {
        if Stop in failing {
          running := *;
          return Failure(Refused(Stop));
        }
        running := false;
      }
      if BuildBody in failing { return Failure(Refused(BuildBody)); }
      var draft := new Draft(Container(Config(env, desiredCommand, Some(labels)), host.value));
      draft.CreateBody(request.launcher);
      ReconfiguredFulfils(current, host.value, request);
      var refusal := ReplaceStaleContainer(draft.config, draft.host, ReusableNetworks(networks, request.id), failing);
      if refusal.Some? { return Failure(Refused(refusal.value)); }
      if wasRunning {
        if Start in failing { return Failure(Refused(Start)); }
        running := true;
      }
      return Success(true);
    }

    /** `replace_stale_container`: the old container keeps its name, or gets it
        back, unless that fails too; that it could not be removed is ignored. */
    method ReplaceStaleContainer(config: Config, host: Host, networks: Networks, failing: set<Call>) returns (refusal: Option<Call>)
      requires named
      modifies this`config, this`host, this`networks, this`named
      ensures refusal == if Rename in failing then Some(Rename) else if Create in failing then Some(Create) else None
      ensures refusal.None? ==> this.config == Some(config) && this.host == Some(host) && this.networks == networks
      ensures refusal.Some? ==>
        this.config == old(this.config) && this.host == old(this.host) && this.networks == old(this.networks)
      ensures named <==> !(Rename !in failing && {Create, RenameBack} <= failing)
    {
      if Rename in failing { return Some(Rename); }
      named := false;
      if Create in failing {
        if RenameBack !in failing { named := true; }
        return Some(Create);
      }
      this.config, this.host, this.networks, named := Some(config), Some(host), networks, true;
      return None;
    }
  }

  // ---- laws of environments --------------------------------------------------------------------------

  lemma {:induction false} WithoutAppend(a: Environment, b: Environment, keys: set<string>)
    ensures Without(a + b, keys) == Without(a, keys) + Without(b, keys)
    decreases |a|
  {
    hide KeyOf;
    if a == [] {
      assert a + b == b;
    } else {
      assert (a + b)[1..] == a[1..] + b;
      WithoutAppend(a[1..], b, keys);
      var key := KeyOf(a[0]);
      Regroup(if key.Some? && key.value in keys then [] else [a[0]], Without(a[1..], keys), Without(b, keys));
    }
  }

  lemma {:induction false} WithoutMore(values: Environment, more: set<string>, keys: set<string>)
    requires keys <= more
    ensures Without(Without(values, more), keys) == Without(values, more)
    decreases |values|
  {
    if values != [] {
      WithoutMore(values[1..], more, keys);
      var head := if KeyOf(values[0]).Some? && KeyOf(values[0]).value in more then [] else [values[0]];
      WithoutAppend(head, Without(values[1..], more), keys);
      assert Without([], keys) == [];
      if head != [] { assert head[1..] == []; }
    }
  }

  lemma {:induction false} WithoutOwnKeys(values: Environment, keys: set<string>)
    requires Keys(values) <= keys
    ensures Without(values, keys) == Bare(values)
    decreases |values|
  {
    if values != [] {
      assert Keys(values[1..]) <= Keys(values);
      assert values[0] in values;
      WithoutOwnKeys(values[1..], keys);
    }
  }

  lemma {:induction false} BareAppend(a: Environment, b: Environment)
    ensures Bare(a + b) == Bare(a) + Bare(b)
    decreases |a|
  {
    hide KeyOf;
    if a == [] {
      assert a + b == b;
    } else {
      assert (a + b)[1..] == a[1..] + b;
      BareAppend(a[1..], b);
      Regroup(if KeyOf(a[0]) == None then [a[0]] else [], Bare(a[1..]), Bare(b));
    }
  }

  lemma {:induction false} BareWithout(values: Environment, keys: set<string>)
    ensures Bare(Without(values, keys)) == Bare(values)
    decreases |values|
  {
    if values != [] {
      BareWithout(values[1..], keys);
      var head := if KeyOf(values[0]).Some? && KeyOf(values[0]).value in keys then [] else [values[0]];
      BareAppend(head, Without(values[1..], keys));
      assert Bare([]) == [];
      if head != [] { assert head[1..] == []; }
    }
  }

  lemma {:induction false} ForAppend(a: Environment, b: Environment, key: string)
    ensures For(a + b, key) == For(a, key) + For(b, key)
    decreases |a|
  {
    hide KeyOf;
    if a == [] {
      assert a + b == b;
    } else {
      assert (a + b)[1..] == a[1..] + b;
      ForAppend(a[1..], b, key);
      Regroup(if KeyOf(a[0]) == Some(key) then [a[0]] else [], For(a[1..], key), For(b, key));
    }
  }

  lemma {:induction false} ForWithout(values: Environment, keys: set<string>, key: string)
    ensures For(Without(values, keys), key) == if key in keys then [] else For(values, key)
    decreases |values|
  {
    if values != [] {
      ForWithout(values[1..], keys, key);
      var head := if KeyOf(values[0]).Some? && KeyOf(values[0]).value in keys then [] else [values[0]];
      ForAppend(head, Without(values[1..], keys), key);
      assert For([], key) == [];
      if head != [] { assert head[1..] == []; }
    }
  }

  lemma {:induction false} ForNothing(values: Environment, key: string)
    ensures For(values, key) == [] <==> key !in Keys(values)
    decreases |values|
  {
    if values != [] {
      ForNothing(values[1..], key);
      assert forall entry :: entry in values <==> entry == values[0] || entry in values[1..];
    }
  }

  lemma {:induction false} BareMembers(values: Environment)
    ensures Bare(values) != [] <==> exists entry :: entry in values && KeyOf(entry) == None
    decreases |values|
  {
    if values != [] {
      BareMembers(values[1..]);
      assert forall entry :: entry in values <==> entry == values[0] || entry in values[1..];
    }
  }

  lemma RuntimeEntryKey(dir: string)
    ensures KeyOf(RuntimeEntry(dir)) == Some(XDG_RUNTIME_DIR_KEY)
    ensures SplitOnce(RuntimeEntry(dir), c => c == '=') == Some((XDG_RUNTIME_DIR_KEY, dir))
  {
    SplitOnceAt(XDG_RUNTIME_DIR_KEY, '=', dir, c => c == '=');
  }

  lemma LastRuntimeValue(values: Environment, dir: string)
    ensures RuntimeEnvironmentValue(values + [RuntimeEntry(dir)]) == Some(dir)
  {
    RuntimeEntryKey(dir);
  }

  lemma ConfiguredIsSettled(values: Environment)
    ensures Trimmed(ConfiguredRuntimeDir(values)) && ConfiguredRuntimeDir(values) != ""
    ensures Trim(ConfiguredRuntimeDir(values)) == ConfiguredRuntimeDir(values)
  {
    var value := RuntimeEnvironmentValue(values);
    if value.Some? { TrimIsTrimmed(value.value); }
    assert Trimmed(MANAGED_XDG_RUNTIME_DIR);
    TrimIsTrimmed(MANAGED_XDG_RUNTIME_DIR);
  }

  // ---- one step reaches the fixpoint ----------------------------------------------------------------------

  /** The managed entry is the last one and the only one for its key; every
      other key keeps its entries, and doing it again changes nothing. */
  lemma RuntimeEnvironmentMeaning(values: Environment, key: string)
    ensures var environment := RuntimeEnvironment(values);
      && For(environment, key) == (if key == XDG_RUNTIME_DIR_KEY then [RuntimeEntry(ConfiguredRuntimeDir(values))] else For(values, key))
      && Bare(environment) == Bare(values)
      && RuntimeEnvironmentValue(environment) == Some(ConfiguredRuntimeDir(values))
      && RuntimeEnvironment(environment) == environment
  {
    hide Without, RuntimeEnvironmentValue, KeyOf, ConfiguredRuntimeDir, RuntimeEntry;
    WithoutMore(values, {XDG_RUNTIME_DIR_KEY}, {XDG_RUNTIME_DIR_KEY});
    var rest, entry := Without(values, {XDG_RUNTIME_DIR_KEY}), RuntimeEntry(ConfiguredRuntimeDir(values));
    RuntimeEntryKey(ConfiguredRuntimeDir(values));
    ForAppend(rest, [entry], key);
    ForWithout(values, {XDG_RUNTIME_DIR_KEY}, key);
    BareAppend(rest, [entry]);
    BareWithout(values, {XDG_RUNTIME_DIR_KEY});
    LastRuntimeValue(rest, ConfiguredRuntimeDir(values));
    SettledEnvironment(rest, values);
  }

  lemma SettledEnvironment(rest: Environment, values: Environment)
    requires Without(rest, {XDG_RUNTIME_DIR_KEY}) == rest
    ensures RuntimeEnvironment(rest + [RuntimeEntry(ConfiguredRuntimeDir(values))]) == rest + [RuntimeEntry(ConfiguredRuntimeDir(values))]
  {
    var entry := RuntimeEntry(ConfiguredRuntimeDir(values));
    LastRuntimeValue(rest, ConfiguredRuntimeDir(values));
    ConfiguredIsSettled(values);
    WithoutAppend(rest, [entry], {XDG_RUNTIME_DIR_KEY});
    WithoutRuntimeEntry(ConfiguredRuntimeDir(values));
    hide Without, RuntimeEnvironmentValue, RuntimeEntry, Trim, Trimmed;
    AppendNothing(rest);
  }

  lemma WithoutRuntimeEntry(dir: string)
    ensures Without([RuntimeEntry(dir)], {XDG_RUNTIME_DIR_KEY}) == []
  {
    RuntimeEntryKey(dir);
    hide KeyOf, RuntimeEntry;
    assert [RuntimeEntry(dir)][1..] == [];
  }

  /** A repair replaces only a command of the old form, by one that runs the
      same startup line, and never twice. */
  lemma RepairKeepsStartup(launcher: string, cmd: Option<Command>)
    ensures !RuntimeLauncherRepairNeeded(RepairedCommand(launcher, cmd))
    ensures RuntimeLauncherRepairNeeded(cmd) <==>
      exists startup :: Trim(startup) != "" && cmd == Some(["/bin/sh", "-lc", "exec " + startup])
    ensures RuntimeLauncherRepairNeeded(cmd) ==>
      && RepairedCommand(launcher, cmd).Some?
      && RepairedCommand(launcher, cmd).value == ["/bin/sh", "-lc", launcher, "agapornis-runtime", cmd.value[2]]
    ensures !RuntimeLauncherRepairNeeded(cmd) ==> RepairedCommand(launcher, cmd) == cmd
  {
    if RuntimeLauncherRepairNeeded(cmd) {
      var line := cmd.value[2];
      assert line == "exec " + line[5..];
      assert cmd.value == ["/bin/sh", "-lc", "exec " + line[5..]];
    }
    if startup :| Trim(startup) != "" && cmd == Some(["/bin/sh", "-lc", "exec " + startup]) {
      assert ("exec " + startup)[5..] == startup;
    }
  }

  lemma EnsuredTwice(tmpfs: Option<map<string, string>>, environment: Environment)
    ensures EnsuredTmpfs(EnsuredTmpfs(tmpfs, environment), environment) == EnsuredTmpfs(tmpfs, environment)
    ensures RuntimeEnvironmentValue(environment) == Some(MANAGED_XDG_RUNTIME_DIR) ==> TmpfsMounted(EnsuredTmpfs(tmpfs, environment))
  {
    if RuntimeEnvironmentValue(environment) == Some(MANAGED_XDG_RUNTIME_DIR) {
      var m := EnsuredTmpfs(tmpfs, environment).value;
      assert m[MANAGED_XDG_RUNTIME_DIR := MANAGED_XDG_RUNTIME_TMPFS_OPTIONS] == m;
    }
  }

  /** Nothing but the managed directory is mounted in addition. */
  ghost predicate KeepsMounts(before: Option<map<string, string>>, after: Option<map<string, string>>) {
    && (before.Some? ==> after.Some?)
    && forall path :: path != "/tmp/agapornis-runtime" ==>
      (after.Some? && path in after.value <==> before.Some? && path in before.value)
      && (before.Some? && path in before.value ==> after.value[path] == before.value[path])
  }

  /** What follows `XDG_RUNTIME_DIR=`. */
  function Behind(entry: string): string {
    if |entry| < 16 then "" else entry[16..]
  }

  /** The directory that is configured: the last one named, if it is not blank, else the managed one. */
  lemma {:induction false} ConfiguredDirIs(values: Environment)
    ensures var own := For(values, "XDG_RUNTIME_DIR");
      ConfiguredRuntimeDir(values) ==
        if own == [] || Trim(Behind(own[|own| - 1])) == "" then "/tmp/agapornis-runtime" else Trim(Behind(own[|own| - 1]))
  {
    hide Trim, KeyOf;
    LastOfKey(values);
  }

  lemma {:induction false} LastOfKey(values: Environment)
    ensures var own := For(values, XDG_RUNTIME_DIR_KEY);
      && (forall i :: 0 <= i < |own| ==> |own[i]| >= 16)
      && RuntimeEnvironmentValue(values) == if own == [] then None else Some(own[|own| - 1][16..])
    decreases |values|
  {
    if values != [] {
      var init, last := values[..|values| - 1], values[|values| - 1];
      LastOfKey(init);
      assert values == init + [last];
      ForAppend(init, [last], XDG_RUNTIME_DIR_KEY);
      assert [last][1..] == [];
      if KeyOf(last) == Some(XDG_RUNTIME_DIR_KEY) { ValueOfKey(last); }
    }
  }

  lemma {:induction false} ValueOfKey(entry: string)
    requires KeyOf(entry) == Some(XDG_RUNTIME_DIR_KEY)
    ensures |entry| >= 16
    ensures SplitOnce(entry, c => c == '=') == Some((XDG_RUNTIME_DIR_KEY, entry[16..]))
  {
    assert |XDG_RUNTIME_DIR_KEY| == 15;
  }

  /** A container needs no recreation for its runtime directory exactly if its
      environment names one, and either the managed one, mounted, or any other. */
  lemma ReadyIff(container: Container)
    ensures var own := For(OrEmpty(container.config.env), "XDG_RUNTIME_DIR");
      RuntimeConfigurationReady(container) <==>
        && own != []
        && (if Behind(own[|own| - 1]) == "/tmp/agapornis-runtime" then Mounted(container.host.tmpfs)
            else Trim(Behind(own[|own| - 1])) != "")
  {
    hide Trim, For;
    LastOfKey(OrEmpty(container.config.env));
  }

  /** The key of an entry is what stands before its first `=`. */
  lemma {:induction false} KeyIs(entry: string, key: string)
    ensures KeyOf(entry) == None <==> '=' !in entry
    ensures KeyOf(entry) == Some(key) <==> '=' !in key && key + ['='] <= entry
  {
    var i := Position(entry, c => c == '=');
    if i < |entry| { assert entry == entry[..i] + ['='] + entry[i + 1..]; }
    if '=' !in key && key + ['='] <= entry {
      var rest := entry[|key| + 1..];
      assert entry == key + ['='] + rest;
      SplitOnceAt(key, '=', rest, c => c == '=');
    }
  }

  /** Whatever container it is made from, the body has a usable runtime
      directory and needs no further repair. */
  lemma CreatedIsReady(launcher: string, container: Container)
    ensures RuntimeConfigurationReady(Created(launcher, container))
    ensures !RuntimeLauncherRepairNeeded(Created(launcher, container).config.cmd)
    ensures Created(launcher, Created(launcher, container)) == Created(launcher, container)
    ensures Created(launcher, container).host.restart == Some(Manual)
    ensures Created(launcher, container).config.labels == container.config.labels
    ensures KeepsMounts(container.host.tmpfs, Created(launcher, container).host.tmpfs)
  {
    var values := OrEmpty(container.config.env);
    hide RuntimeEnvironment, RepairedCommand, RuntimeLauncherRepairNeeded, RuntimeEnvironmentValue, ConfiguredRuntimeDir;
    RuntimeEnvironmentMeaning(values, "");
    ConfiguredIsSettled(values);
    RepairKeepsStartup(launcher, container.config.cmd);
    RepairKeepsStartup(launcher, RepairedCommand(launcher, container.config.cmd));
    EnsuredTwice(container.host.tmpfs, RuntimeEnvironment(values));
  }

  /** For each key the merged environment has the requested entries if there
      are any, else the ones that were there; entries without `=` add up. */
  lemma MergedMeaning(current: Option<Environment>, desired: Environment, key: string)
    ensures var merged := MergedEnvironment(current, desired);
      && For(merged, key) == (if For(desired, key) != [] then For(desired, key) else For(OrEmpty(current), key))
      && Bare(merged) == Bare(OrEmpty(current)) + Bare(desired)
  {
    var rest := Without(OrEmpty(current), Keys(desired));
    ForAppend(rest, desired, key);
    ForWithout(OrEmpty(current), Keys(desired), key);
    ForNothing(desired, key);
    BareAppend(rest, desired);
    BareWithout(OrEmpty(current), Keys(desired));
  }

  /** What is created has exactly the merged environment and the requested command. */
  lemma ReconfiguredMeaning(config: Config, host: Host, request: Request)
    requires config.labels.Some?
    ensures var made := Reconfigured(config, host, request);
      && made.config.env == Some(Merged(config, request))
      && made.config.cmd == RuntimeServerCommand(request.launcher, request.startup)
      && RuntimeTmpfsReady(Some(made.host), Merged(config, request))
      && made.config.labels.Some?
      && Label(made.config.labels.value, STOP_COMMAND_LABEL) == request.stop
      && Label(made.config.labels.value, STARTUP_DONE_LABEL) == request.startupDone
      && KeepsLabels(config.labels, made.config.labels) && made.host.restart == Some(Manual)
  {
    hide Without, RuntimeEnvironmentValue, ConfiguredRuntimeDir, RuntimeEntry, KeyOf, EnsuredTmpfs, RuntimeServerCommand, TmpfsMounted;
    MergedIsSettled(config, request);
    EnsuredTwice(host.tmpfs, Merged(config, request));
    CommandNeedsNoRepair(request.launcher, request.startup);
  }

  lemma CommandNeedsNoRepair(launcher: string, startup: string)
    ensures RepairedCommand(launcher, RuntimeServerCommand(launcher, startup)) == RuntimeServerCommand(launcher, startup)
  {
  }

  lemma MergedIsSettled(config: Config, request: Request)
    ensures RuntimeEnvironment(Merged(config, request)) == Merged(config, request)
  {
    hide Without, RuntimeEnvironmentValue, ConfiguredRuntimeDir, RuntimeEntry, KeyOf;
    var desired := RuntimeEnvironment(request.env);
    var rest, others := Without(OrEmpty(config.env), Keys(desired)), Without(request.env, {XDG_RUNTIME_DIR_KEY});
    var entry := RuntimeEntry(ConfiguredRuntimeDir(request.env));
    RuntimeEntryKey(ConfiguredRuntimeDir(request.env));
    assert entry in desired && KeyOf(entry).value in Keys(desired);
    WithoutMore(OrEmpty(config.env), Keys(desired), {XDG_RUNTIME_DIR_KEY});
    WithoutMore(request.env, {XDG_RUNTIME_DIR_KEY}, {XDG_RUNTIME_DIR_KEY});
    WithoutAppend(rest, others, {XDG_RUNTIME_DIR_KEY});
    SettledEnvironment(rest + others, request.env);
    assert Merged(config, request) == rest + others + [entry];
  }

  /** Merging the same request again adds its entries without `=` once more. */
  lemma MergingAgain(config: Config, again: Config, request: Request)
    requires again.env == Some(Merged(config, request))
    ensures multiset(Merged(again, request)) == multiset(Merged(config, request)) + multiset(Bare(request.env))
    ensures Bare(request.env) == [] ==> Merged(again, request) == Merged(config, request)
  {
    hide RuntimeEnvironment, Without, Bare;
    var desired := RuntimeEnvironment(request.env);
    var keys := Keys(desired);
    var rest := Without(OrEmpty(config.env), keys);
    WithoutAppend(rest, desired, keys);
    WithoutMore(OrEmpty(config.env), keys, keys);
    WithoutOwnKeys(desired, keys);
    RuntimeEnvironmentMeaning(request.env, "");
    InsertedTwice(rest, Bare(request.env), desired);
  }

  lemma InsertedTwice(a: Environment, b: Environment, c: Environment)
    ensures multiset(a + b + c) == multiset(a + c) + multiset(b)
    ensures b == [] ==> a + b + c == a + c
  {
  }

  /** After an update the same request finds nothing to change, exactly if each
      of its entries has an `=`. */
  lemma UpdateReachesFixpoint(config: Config, host: Host, request: Request)
    requires config.labels.Some?
    ensures var made := Reconfigured(config, host, request);
      Changed(made.config, Some(made.host), request) <==> exists entry :: entry in request.env && KeyOf(entry) == None
  {
    hide RuntimeServerCommand, RuntimeTmpfsReady, Normalized, Merged, Reconfigured, Label, Bare, KeyOf;
    var made := Reconfigured(config, host, request);
    ReconfiguredMeaning(config, host, request);
    MergingAgain(config, made.config, request);
    BareMembers(request.env);
    NormalizedComparesEntries(OrEmpty(made.config.env), Merged(made.config, request));
    if Bare(request.env) == [] {
      assert Merged(made.config, request) == OrEmpty(made.config.env);
    } else {
      assert Bare(request.env)[0] in multiset(Bare(request.env));
      assert multiset(Merged(made.config, request)) != multiset(OrEmpty(made.config.env));
    }
  }

  /** An entry without `=` is never recognised as present: every update with
      one replaces the container and adds the entry once more. */
  lemma BareEntriesNeverSettle(config: Config, host: Option<Host>, request: Request)
    requires config.labels.Some? && Bare(request.env) != []
    ensures Changed(config, host, request)
    ensures Bare(Merged(config, request)) == Bare(OrEmpty(config.env)) + Bare(request.env)
  {
    hide Normalized, Without, Bare, RuntimeEnvironment, Label, RuntimeTmpfsReady, RuntimeServerCommand;
    var current, merged := OrEmpty(config.env), Merged(config, request);
    MergedMeaning(config.env, RuntimeEnvironment(request.env), "");
    RuntimeEnvironmentMeaning(request.env, "");
    NormalizedComparesEntries(current, merged);
    if multiset(current) == multiset(merged) {
      SameBareCount(current, merged);
      assert false;
    }
  }

  lemma SameBareCount(a: Environment, b: Environment)
    requires multiset(a) == multiset(b)
    ensures |Bare(a)| == |Bare(b)|
  {
    hide Bare, KeyOf;
    BareCount(a);
    BareCount(b);
    assert multiset(Bare(a)) == multiset(Bare(b));
    assert |multiset(Bare(a))| == |Bare(a)| && |multiset(Bare(b))| == |Bare(b)|;
  }

  lemma {:induction false} BareCount(values: Environment)
    ensures forall entry :: multiset(Bare(values))[entry] == if KeyOf(entry) == None then multiset(values)[entry] else 0
    decreases |values|
  {
    if values != [] {
      BareCount(values[1..]);
      assert values == [values[0]] + values[1..];
    }
  }
}