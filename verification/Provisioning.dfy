/**
 The provisioning run of `InitManager` as a state machine over boots.

 A boot runs the three plugin stages, records the status of every MAIN plugin in
 the registry under a key made from the instance id, and stops a stage at the
 first reboot request.  Whatever the operating system, the metadata service and
 the plugins do during a boot is the `Env` of that boot.
 */
module Provisioning {
  import opened Basics

  /* ---------- Registry keys ---------- */

  const CONFIG_KEY := "SOFTWARE\\Cloudbase Solutions\\Cloudbase-Init\\"
  const PLUGINS_SECTION := "Plugins"

  function PluginsSection(id: string): string {
    if id == "" then PLUGINS_SECTION else id + "/" + PLUGINS_SECTION
  }

  function Backslashed(s: string): (r: string)
    ensures |r| == |s|
    ensures forall i :: 0 <= i < |s| ==> r[i] == if s[i] == '/' then '\\' else s[i]
  {
    seq(|s|, i requires 0 <= i < |s| => if s[i] == '/' then '\\' else s[i])
  }

  function KeyName(section: string): string {
    if section == "" then CONFIG_KEY else CONFIG_KEY + Backslashed(section) + "\\"
  }

  function InstanceKey(id: string): string {
    KeyName(PluginsSection(id))
  }

  lemma {:induction false} BackslashedConcat(s: string, t: string)
    ensures Backslashed(s + t) == Backslashed(s) + Backslashed(t)
  {
  }

  /** What comes between the configuration key and the name of the plugins section. */
  function InstancePath(id: string): string {
    if id == "" then "" else Backslashed(id) + "\\"
  }

  lemma {:induction false} InstanceKeyShape(id: string)
    ensures InstanceKey(id) == CONFIG_KEY + (InstancePath(id) + Backslashed(PLUGINS_SECTION)) + "\\"
  {
    if id != "" {
      BackslashedConcat(id + "/", PLUGINS_SECTION);
      BackslashedConcat(id, "/");
      assert Backslashed("/") == "\\";
    } else {
      assert InstancePath(id) + Backslashed(PLUGINS_SECTION) == Backslashed(PLUGINS_SECTION);
    }
  }

  /** Two instances share their plugin statuses exactly when their ids differ at most in the
      direction of slashes. */
  lemma {:induction false} InstanceKeysCollide(a: string, b: string)
    ensures InstanceKey(a) == InstanceKey(b) <==> Backslashed(a) == Backslashed(b)
  {
    InstanceKeyShape(a);
    InstanceKeyShape(b);
    assert Backslashed(a) == Backslashed(b) ==> |a| == |b| && InstancePath(a) == InstancePath(b);
    if InstanceKey(a) == InstanceKey(b) {
      var n, tail := |CONFIG_KEY|, |PLUGINS_SECTION| + 1;
      var ka, kb := InstanceKey(a), InstanceKey(b);
      assert InstancePath(a) == ka[n..|ka| - tail];
      assert InstancePath(b) == kb[n..|kb| - tail];
      assert InstancePath(a) == InstancePath(b);
      assert |a| == |b|;
      if a != "" {
        assert Backslashed(a) == InstancePath(a)[..|a|];
        assert Backslashed(b) == InstancePath(b)[..|a|];
      }
    }
  }

  /* ---------- Plugins, environments and events ---------- */

  const DONE := 1
  const NEXT_BOOT := 2

  datatype Entry = Entry(key: string, name: string)
  type Registry = map<Entry, int>

  function Recorded(registry: Registry, entry: Entry): Option<int> {
    if entry in registry then Some(registry[entry]) else None
  }

  datatype Stage = PreNetworking | PreMetadataDiscovery | Main

  /** A plugin of a stage; `supported` is the answer of the platform and version test. */
  datatype Plugin = Plugin(name: string, supported: bool)

  /** What a call of `execute` does; `Exits` stands for an exception outside `Exception`. */
  datatype Result = Returned(status: int, reboot: bool) | Raised | Exits

  /** How one plugin and the registry behave around it during one boot. */
  datatype Behaviour = Behaviour(checkRaises: bool, readFails: bool, result: Result, writeFails: bool)

  datatype Event =
    | StageBegan(stage: Stage)
    | Ran(stage: Stage, name: string, at: Option<Entry>, readFailed: bool, result: Result, stored: bool)
    | Started
    | Cleanup
    | Failed
    | Completed
    | Reboot
    | Terminated

  datatype Config = Config(
    allowReboot: bool, reportStarted: bool, reportCompleted: bool, stopOnExit: bool,
    preNetworking: seq<Plugin>, preDiscovery: seq<Plugin>, main: seq<Plugin>)

  datatype Discovery = Found | NotFound | DiscoveryRaises

  datatype Env = Env(
    cfg: Config, preNetworking: seq<Behaviour>, preDiscovery: seq<Behaviour>,
    discovery: Discovery, startedRaises: bool, idRaises: bool, id: Option<string>,
    main: seq<Behaviour>, cleanupRaises: bool)
  {
    ghost predicate Valid() {
      && |preNetworking| == |cfg.preNetworking|
      && |preDiscovery| == |cfg.preDiscovery|
      && |main| == |cfg.main|
    }
  }

  /* ---------- One plugin, one stage, one boot ---------- */

  /** The state of a stage after some of its plugins. */
  datatype Progress = Progress(registry: Registry, events: seq<Event>, success: bool, reboot: bool, aborted: bool)

  /** Where the statuses of an instance are recorded, if there is one. */
  function KeyOf(id: Option<string>): Option<string> {
    if id.None? then None else Some(InstanceKey(id.value))
  }

  function EntryOf(key: Option<string>, p: Plugin): Option<Entry> {
    if key.None? then None else Some(Entry(key.value, p.name))
  }

  /** `_exec_plugin`, with the fields of `s` before it. */
  function ExecPlugin(s: Progress, stage: Stage, key: Option<string>, p: Plugin, b: Behaviour): Progress {
    var at := EntryOf(key, p);
    var readFailed := at.Some? && b.readFails;
    if at.Some? && !b.readFails && Recorded(s.registry, at.value) == Some(DONE) then
      s.(reboot := false)
    else
      var stores := at.Some? && b.result.Returned? && !b.writeFails;
      Progress(
        if stores then s.registry[at.value := b.result.status] else s.registry,
        s.events + [Ran(stage, p.name, at, readFailed, b.result, stores)],
        s.success && b.result.Returned? && (at.Some? ==> stores),
        b.result.Returned? && b.result.reboot,
        b.result.Exits?)
  }

  /** The flags of a stage only collect those of its plugins. */
  lemma {:induction false} ExecAfter(s: Progress, stage: Stage, key: Option<string>, p: Plugin, b: Behaviour)
    requires !s.aborted
    ensures
      var r := ExecPlugin(Progress(s.registry, s.events, true, false, false), stage, key, p, b);
      ExecPlugin(s, stage, key, p, b) == r.(success := s.success && r.success)
  {
  }

  /** `_handle_plugins_stage` from its `i`-th plugin on. */
  function RunPlugins(s: Progress, stage: Stage, key: Option<string>, allow: bool,
                      ps: seq<Plugin>, bs: seq<Behaviour>, i: nat): Progress
    requires i <= |ps| == |bs|
    decreases |ps| - i
  {
    if i == |ps| then s
    else if bs[i].checkRaises then s.(aborted := true)
    else if !ps[i].supported then RunPlugins(s, stage, key, allow, ps, bs, i + 1)
    else
      var s' := ExecPlugin(s, stage, key, ps[i], bs[i]);
      if s'.aborted || (s'.reboot && allow) then s'
      else RunPlugins(s', stage, key, allow, ps, bs, i + 1)
  }

  function RunStage(registry: Registry, events: seq<Event>, stage: Stage, key: Option<string>, allow: bool,
                    ps: seq<Plugin>, bs: seq<Behaviour>): Progress
    requires |ps| == |bs|
  {
    RunPlugins(Progress(registry, events + [StageBegan(stage)], true, false, false), stage, key, allow, ps, bs, 0)
  }

  /** How a boot ends: `finished` when `configure_host` returned, `rebooting` when it asked for a reboot. */
  datatype BootEnd = BootEnd(registry: Registry, events: seq<Event>, finished: bool, rebooting: bool)

  /** An event that happens under a condition. */
  function Maybe(b: bool, e: Event): seq<Event> {
    if b then [e] else []
  }

  /** The last acts of a boot. */
  function Closing(cfg: Config, service: bool, success: bool, rebooting: bool): seq<Event> {
    if rebooting then [Reboot]
    else Maybe(service && cfg.reportCompleted && success, Completed) + Maybe(cfg.stopOnExit, Terminated)
  }

  /** `configure_host` after the stages. */
  function Finish(cfg: Config, s: Progress, service: bool): BootEnd {
    var rebooting := s.reboot && cfg.allowReboot;
    BootEnd(s.registry, s.events + Closing(cfg, service, s.success, rebooting), true, rebooting)
  }

  /** The report of a failed MAIN stage. */
  function AfterMain(cfg: Config, s: Progress): Progress {
    s.(events := s.events + Maybe(cfg.reportCompleted && !s.success, Failed))
  }

  function Crash(s: Progress): BootEnd {
    BootEnd(s.registry, s.events, false, false)
  }

  /** `configure_host` once a metadata service was found. */
  function Provision(env: Env, s: Progress): BootEnd
    requires env.Valid()
  {
    var s1 := if env.cfg.reportStarted then s.(events := s.events + [Started]) else s;
    if (env.cfg.reportStarted && env.startedRaises) || env.idRaises then Crash(s1)
    else
      var s2 := RunStage(s1.registry, s1.events, Main, KeyOf(env.id), env.cfg.allowReboot, env.cfg.main, env.main);
      var s3 := s2.(events := s2.events + [Cleanup]);
      if s2.aborted || env.cleanupRaises then Crash(s3)
      else
        Finish(env.cfg, AfterMain(env.cfg, s3), true)
  }

  /** `configure_host`. */
  function Boot(registry: Registry, env: Env): BootEnd
    requires env.Valid()
  {
    var allow := env.cfg.allowReboot;
    var s1 := RunStage(registry, [], PreNetworking, None, allow, env.cfg.preNetworking, env.preNetworking);
    if s1.aborted then Crash(s1)
    else if s1.reboot && allow then Finish(env.cfg, s1, false)
    else
      var s2 := RunStage(s1.registry, s1.events, PreMetadataDiscovery, None, allow, env.cfg.preDiscovery, env.preDiscovery);
      if s2.aborted then Crash(s2)
      else if s2.reboot && allow then Finish(env.cfg, s2, false)
      else
        match env.discovery
        case DiscoveryRaises => Crash(s2)
        case NotFound => Finish(env.cfg, s2, false)
        case Found => Provision(env, s2)
  }

  /* ---------- The manager itself ---------- */

  class InitManager {
    var registry: Registry
    var trace: seq<Event>

    constructor (registry: Registry)
      ensures this.registry == registry && trace == []
    {
      this.registry, trace := registry, [];
    }

    function Now(success: bool, reboot: bool, aborted: bool): Progress
      reads this
    {
      Progress(registry, trace, success, reboot, aborted)
    }

    method ExecOne(stage: Stage, id: Option<string>, p: Plugin, b: Behaviour)
      returns (success: bool, reboot: bool, aborted: bool)
      modifies this
      ensures Now(success, reboot, aborted) == ExecPlugin(old(Now(true, false, false)), stage, KeyOf(id), p, b)
    {
      success, reboot, aborted := true, false, false;
      var status := None;
      if id.Some? {
        var at := Entry(InstanceKey(id.value), p.name);
        if !b.readFails && at in registry {
          status := Some(registry[at]);
        }
      }
      if status != Some(DONE) {
        var stored := false;
        match b.result {
          case Returned(value, wantsReboot) =>
            reboot := wantsReboot;
            if id.Some? {
              if b.writeFails {
                success := false;
              } else {
                registry := registry[Entry(InstanceKey(id.value), p.name) := value];
                stored := true;
              }
            }
          case Raised => success := false;
          case Exits => success, aborted := false, true;
        }
        trace := trace + [Ran(stage, p.name, EntryOf(KeyOf(id), p), id.Some? && b.readFails, b.result, stored)];
      }
    }

    method HandlePluginsStage(stage: Stage, id: Option<string>, allow: bool, ps: seq<Plugin>, bs: seq<Behaviour>)
      returns (stageSuccess: bool, rebootRequired: bool, aborted: bool)
      requires |ps| == |bs|
      modifies this
      ensures Now(stageSuccess, rebootRequired, aborted)
           == RunStage(old(registry), old(trace), stage, KeyOf(id), allow, ps, bs)
    {
      stageSuccess, rebootRequired, aborted := true, false, false;
      trace := trace + [StageBegan(stage)];
      ghost var key := KeyOf(id);
      ghost var goal := RunStage(old(registry), old(trace), stage, key, allow, ps, bs);
      var i := 0;
      while i < |ps|
        invariant i <= |ps| && !aborted
        invariant goal == RunPlugins(Now(stageSuccess, rebootRequired, aborted), stage, key, allow, ps, bs, i)
      {
        if bs[i].checkRaises {
          aborted := true;
          return;
        }
        if ps[i].supported {
          ghost var before := Now(stageSuccess, rebootRequired, false);
          var success;
          success, rebootRequired, aborted := ExecOne(stage, id, ps[i], bs[i]);
          ExecAfter(before, stage, key, ps[i], bs[i]);
          if !success {
            stageSuccess := false;
          }
          assert Now(stageSuccess, rebootRequired, aborted) == ExecPlugin(before, stage, key, ps[i], bs[i]);
          if aborted || (rebootRequired && allow) {
            return;
          }
        }
        i := i + 1;
      }
    }

    /** The end of `configure_host`: a reboot, or the report and the service stop. */
    method Conclude(cfg: Config, service: bool, stageSuccess: bool, rebootRequired: bool)
      returns (finished: bool, rebooting: bool)
      modifies this
      ensures End(finished, rebooting) == Finish(cfg, old(Now(stageSuccess, rebootRequired, false)), service)
    {
      finished, rebooting := true, rebootRequired && cfg.allowReboot;
      if rebooting {
        trace := trace + [Reboot];
      } else {
        var before := trace;
        if service && cfg.reportCompleted && stageSuccess {
          trace := trace + [Completed];
        }
        if cfg.stopOnExit {
          trace := trace + [Terminated];
        }
        assert trace == before + Closing(cfg, service, stageSuccess, false);
      }
    }

    function End(finished: bool, rebooting: bool): BootEnd
      reads this
    {
      BootEnd(registry, trace, finished, rebooting)
    }

    /** `configure_host` once a metadata service was found. */
    method ServeInstance(env: Env, ghost s: Progress) returns (finished: bool, rebooting: bool)
      requires env.Valid() && s.registry == registry && s.events == trace
      modifies this
      ensures End(finished, rebooting) == Provision(env, s)
    {
      var cfg := env.cfg;
      finished, rebooting := false, false;
      if cfg.reportStarted {
        trace := trace + [Started];
      }
      if (cfg.reportStarted && env.startedRaises) || env.idRaises {
        return;
      }
      var stageSuccess, rebootRequired, aborted :=
        HandlePluginsStage(Main, env.id, cfg.allowReboot, cfg.main, env.main);
      trace := trace + [Cleanup];
      ghost var cleaned := Now(stageSuccess, rebootRequired, aborted);
      if aborted || env.cleanupRaises {
        return;
      }
      if cfg.reportCompleted && !stageSuccess {
        trace := trace + [Failed];
      }
      assert Now(stageSuccess, rebootRequired, aborted) == AfterMain(cfg, cleaned);
      finished, rebooting := Conclude(cfg, true, stageSuccess, rebootRequired);
    }

    /** A boot: a new process, so an empty trace, over the registry the last boot left. */
    method ConfigureHost(env: Env) returns (finished: bool, rebooting: bool)
      requires env.Valid() && trace == []
      modifies this
      ensures End(finished, rebooting) == Boot(old(registry), env)
    {
      var cfg := env.cfg;
      finished, rebooting := false, false;
      var stageSuccess, rebootRequired, aborted :=
        HandlePluginsStage(PreNetworking, None, cfg.allowReboot, cfg.preNetworking, env.preNetworking);
      if aborted {
        return;
      }
      if !(rebootRequired && cfg.allowReboot) {
        stageSuccess, rebootRequired, aborted :=
          HandlePluginsStage(PreMetadataDiscovery, None, cfg.allowReboot, cfg.preDiscovery, env.preDiscovery);
        if aborted {
          return;
        }
        if !(rebootRequired && cfg.allowReboot) {
          if env.discovery == DiscoveryRaises {
            return;
          }
          if env.discovery == Found {
            finished, rebooting := ServeInstance(env, Now(stageSuccess, rebootRequired, false));
            return;
          }
        }
      }
      finished, rebooting := Conclude(cfg, false, stageSuccess, rebootRequired);
    }
  }
}
