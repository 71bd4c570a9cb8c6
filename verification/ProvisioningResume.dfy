/** Provisioning that resumes after reboots refines one uninterrupted run. */
module ProvisioningResume {
  import opened Basics
  import opened Provisioning

  /** The MAIN plugins from the `i`-th on that are still to run, in order. */
  function Pending(ps: seq<Plugin>, i: nat, registry: Registry, key: string): seq<string>
    requires i <= |ps|
    decreases |ps| - i
  {
    if i == |ps| then []
    else
      var rest := Pending(ps, i + 1, registry, key);
      if ps[i].supported && Recorded(registry, Entry(key, ps[i].name)) != Some(DONE) then [ps[i].name] + rest else rest
  }

  /** The MAIN plugins that ran, in order. */
  function MainRuns(events: seq<Event>): seq<string> {
    if events == [] then []
    else
      var e := events[|events| - 1];
      var before := MainRuns(events[..|events| - 1]);
      if e.Ran? && e.stage == Main then before + [e.name] else before
  }

  predicate Distinct(ps: seq<Plugin>) {
    forall i, j :: 0 <= i < j < |ps| ==> ps[i].name != ps[j].name
  }

  /** A boot of instance `id` in which MAIN plugins finish and nothing else interferes. */
  ghost predicate Smooth(env: Env, cfg: Config, id: string) {
    && env.Valid() && env.cfg == cfg && env.id == Some(id)
    && env.discovery == Found && !env.startedRaises && !env.idRaises && !env.cleanupRaises
    && Calm(env.preNetworking) && Calm(env.preDiscovery) && Finishing(env.main)
  }

  predicate Calm(bs: seq<Behaviour>) {
    forall i :: 0 <= i < |bs| ==>
      && !bs[i].checkRaises && !bs[i].result.Exits?
      && (bs[i].result.Returned? ==> !bs[i].result.reboot)
  }

  predicate Finishing(bs: seq<Behaviour>) {
    forall i :: 0 <= i < |bs| ==>
      && !bs[i].checkRaises && !bs[i].readFails && !bs[i].writeFails
      && bs[i].result.Returned? && bs[i].result.status == DONE
  }

  lemma {:induction false} MainRunsAppend(events: seq<Event>, e: Event)
    ensures MainRuns(events + [e]) == if e.Ran? && e.stage == Main then MainRuns(events) + [e.name] else MainRuns(events)
  {
    assert (events + [e])[..|events|] == events;
  }

  lemma {:induction false} MainRunsConcat(a: seq<Event>, b: seq<Event>)
    ensures MainRuns(a + b) == MainRuns(a) + MainRuns(b)
  {
    if b == [] {
      assert a + b == a;
    } else {
      var init, last := b[..|b| - 1], b[|b| - 1];
      MainRunsConcat(a, init);
      assert b == init + [last];
      Associates(a, init, [last]);
      MainRunsAppend(a + init, last);
    }
  }

  lemma {:induction false} PendingFrame(ps: seq<Plugin>, i: nat, registry: Registry, entry: Entry, status: int)
    requires i <= |ps| && forall j :: i <= j < |ps| ==> ps[j].name != entry.name
    ensures Pending(ps, i, registry[entry := status], entry.key) == Pending(ps, i, registry, entry.key)
    decreases |ps| - i
  {
    if i < |ps| {
      PendingFrame(ps, i + 1, registry, entry, status);
    }
  }

  /** The plugins that ran between two points of a stage are the first of those pending before,
      and the others are pending after. */
  ghost predicate Advances(ps: seq<Plugin>, i: nat, key: string, s: Progress, r: Progress, allow: bool)
    requires i <= |ps|
  {
    && !r.aborted
    && MainRuns(r.events) + Pending(ps, i, r.registry, key) == MainRuns(s.events) + Pending(ps, i, s.registry, key)
    && (if r.reboot && allow then |Pending(ps, i, r.registry, key)| < |Pending(ps, i, s.registry, key)|
        else Pending(ps, i, r.registry, key) == [])
  }

  lemma {:induction false} SmoothKeepsDone(
    s: Progress, key: string, allow: bool, ps: seq<Plugin>, bs: seq<Behaviour>, i: nat, name: string)
    requires i <= |ps| == |bs| && Finishing(bs) && Recorded(s.registry, Entry(key, name)) == Some(DONE)
    ensures Recorded(RunPlugins(s, Main, Some(key), allow, ps, bs, i).registry, Entry(key, name)) == Some(DONE)
    decreases |ps| - i
  {
    if i < |ps| {
      var s' := if ps[i].supported then ExecPlugin(s, Main, Some(key), ps[i], bs[i]) else s;
      if !(ps[i].supported && (s'.aborted || (s'.reboot && allow))) {
        SmoothKeepsDone(s', key, allow, ps, bs, i + 1, name);
      }
    }
  }

  lemma {:induction false} SmoothStep(s: Progress, key: string, ps: seq<Plugin>, bs: seq<Behaviour>, i: nat)
    requires i < |ps| == |bs| && Distinct(ps) && Finishing(bs) && ps[i].supported && !s.aborted
    requires Recorded(s.registry, Entry(key, ps[i].name)) != Some(DONE)
    ensures
      var r := ExecPlugin(s, Main, Some(key), ps[i], bs[i]);
      && !r.aborted && Recorded(r.registry, Entry(key, ps[i].name)) == Some(DONE)
      && MainRuns(r.events) == MainRuns(s.events) + [ps[i].name]
      && Pending(ps, i, s.registry, key) == [ps[i].name] + Pending(ps, i + 1, r.registry, key)
  {
    var entry := Entry(key, ps[i].name);
    PendingFrame(ps, i + 1, s.registry, entry, DONE);
    MainRunsAppend(s.events, Ran(Main, ps[i].name, Some(entry), false, bs[i].result, true));
  }

  /** A plugin ran first, and what is left after it advanced. */
  lemma {:induction false} AdvancesAfter(
    ps: seq<Plugin>, i: nat, key: string, s: Progress, s': Progress, r: Progress, allow: bool)
    requires i < |ps| && ps[i].supported
    requires Recorded(r.registry, Entry(key, ps[i].name)) == Some(DONE)
    requires MainRuns(s'.events) == MainRuns(s.events) + [ps[i].name]
    requires Pending(ps, i, s.registry, key) == [ps[i].name] + Pending(ps, i + 1, s'.registry, key)
    requires (s' == r && r.reboot && allow && !r.aborted) || Advances(ps, i + 1, key, s', r, allow)
    ensures Advances(ps, i, key, s, r, allow)
  {
    var before, after := Pending(ps, i + 1, s'.registry, key), Pending(ps, i + 1, r.registry, key);
    assert MainRuns(s.events) + ([ps[i].name] + before) == MainRuns(s'.events) + before;
  }

  lemma {:induction false} SmoothMain(s: Progress, key: string, allow: bool, ps: seq<Plugin>, bs: seq<Behaviour>, i: nat)
    requires i <= |ps| == |bs| && Distinct(ps) && Finishing(bs) && !s.aborted && (allow ==> !s.reboot)
    ensures Advances(ps, i, key, s, RunPlugins(s, Main, Some(key), allow, ps, bs, i), allow)
    decreases |ps| - i
  {
    if i == |ps| {
    } else if !ps[i].supported {
      SmoothMain(s, key, allow, ps, bs, i + 1);
    } else {
      var s' := ExecPlugin(s, Main, Some(key), ps[i], bs[i]);
      if Recorded(s.registry, Entry(key, ps[i].name)) == Some(DONE) {
        SmoothMain(s', key, allow, ps, bs, i + 1);
        SmoothKeepsDone(s', key, allow, ps, bs, i + 1, ps[i].name);
      } else {
        SmoothStep(s, key, ps, bs, i);
        if !(s'.reboot && allow) {
          SmoothMain(s', key, allow, ps, bs, i + 1);
          SmoothKeepsDone(s', key, allow, ps, bs, i + 1, ps[i].name);
        }
        AdvancesAfter(ps, i, key, s, s', RunPlugins(s, Main, Some(key), allow, ps, bs, i), allow);
      }
    }
  }

  lemma {:induction false} CalmStage(
    s: Progress, stage: Stage, ps: seq<Plugin>, bs: seq<Behaviour>, allow: bool, i: nat)
    requires i <= |ps| == |bs| && stage != Main && Calm(bs) && !s.aborted && !s.reboot
    ensures
      var r := RunPlugins(s, stage, None, allow, ps, bs, i);
      && !r.aborted && !r.reboot && r.registry == s.registry && MainRuns(r.events) == MainRuns(s.events)
    decreases |ps| - i
  {
    if i == |ps| {
    } else if !ps[i].supported {
      CalmStage(s, stage, ps, bs, allow, i + 1);
    } else {
      var s' := ExecPlugin(s, stage, None, ps[i], bs[i]);
      MainRunsAppend(s.events, s'.events[|s.events|]);
      CalmStage(s', stage, ps, bs, allow, i + 1);
    }
  }

  lemma {:induction false} CalmRunStage(
    registry: Registry, events: seq<Event>, stage: Stage, allow: bool, ps: seq<Plugin>, bs: seq<Behaviour>)
    requires |ps| == |bs| && stage != Main && Calm(bs)
    ensures
      var r := RunStage(registry, events, stage, None, allow, ps, bs);
      && !r.aborted && !r.reboot && r.registry == registry && MainRuns(r.events) == MainRuns(events)
  {
    MainRunsAppend(events, StageBegan(stage));
    CalmStage(Progress(registry, events + [StageBegan(stage)], true, false, false), stage, ps, bs, allow, 0);
  }

  lemma {:induction false} MarksRunNothing(events: seq<Event>, marks: seq<Event>)
    requires forall e :: e in marks ==> !e.Ran?
    ensures MainRuns(events + marks) == MainRuns(events)
  {
    MainRunsConcat(events, marks);
    MarksHaveNoRuns(marks);
  }

  lemma {:induction false} MarksHaveNoRuns(marks: seq<Event>)
    requires forall e :: e in marks ==> !e.Ran?
    ensures MainRuns(marks) == []
  {
    if marks != [] {
      MarksHaveNoRuns(marks[..|marks| - 1]);
    }
  }

  lemma {:induction false} SmoothEnd(cfg: Config, s: Progress)
    ensures
      var s1 := AfterMain(cfg, s.(events := s.events + [Cleanup]));
      MainRuns(Finish(cfg, s1, true).events) == MainRuns(s.events)
  {
    MarksRunNothing(s.events, [Cleanup]);
    MarksRunNothing(s.events + [Cleanup], Maybe(cfg.reportCompleted && !s.success, Failed));
    var s1 := AfterMain(cfg, s.(events := s.events + [Cleanup]));
    MarksRunNothing(s1.events, Closing(cfg, true, s.success, s.reboot && cfg.allowReboot));
  }

  /** A boot that reaches the MAIN stage, up to its first plugin. */
  lemma {:induction false} BeforeMain(registry: Registry, env: Env, cfg: Config) returns (s: Progress)
    requires env.Valid() && env.cfg == cfg && Calm(env.preNetworking) && Calm(env.preDiscovery)
    requires env.discovery == Found && !env.startedRaises && !env.idRaises && !env.cleanupRaises
    ensures s.registry == registry && !s.aborted && !s.reboot && MainRuns(s.events) == []
    ensures
      var r := RunPlugins(s, Main, KeyOf(env.id), cfg.allowReboot, cfg.main, env.main, 0);
      !r.aborted ==>
        && Boot(registry, env).finished && Boot(registry, env).registry == r.registry
        && Boot(registry, env).rebooting == (r.reboot && cfg.allowReboot)
        && MainRuns(Boot(registry, env).events) == MainRuns(r.events)
  {
    CalmRunStage(registry, [], PreNetworking, cfg.allowReboot, cfg.preNetworking, env.preNetworking);
    var s1 := RunStage(registry, [], PreNetworking, None, cfg.allowReboot, cfg.preNetworking, env.preNetworking);
    CalmRunStage(s1.registry, s1.events, PreMetadataDiscovery, cfg.allowReboot, cfg.preDiscovery, env.preDiscovery);
    var s2 := RunStage(
      s1.registry, s1.events, PreMetadataDiscovery, None, cfg.allowReboot, cfg.preDiscovery, env.preDiscovery);
    s := BeforeProvision(s2, env, cfg);
    assert Boot(registry, env) == Provision(env, s2);
  }

  lemma {:induction false} BeforeProvision(s2: Progress, env: Env, cfg: Config) returns (s: Progress)
    requires env.Valid() && env.cfg == cfg && MainRuns(s2.events) == []
    requires !env.startedRaises && !env.idRaises && !env.cleanupRaises
    ensures s.registry == s2.registry && !s.aborted && !s.reboot && MainRuns(s.events) == []
    ensures
      var r := RunPlugins(s, Main, KeyOf(env.id), cfg.allowReboot, cfg.main, env.main, 0);
      !r.aborted ==>
        && Provision(env, s2).finished && Provision(env, s2).registry == r.registry
        && Provision(env, s2).rebooting == (r.reboot && cfg.allowReboot)
        && MainRuns(Provision(env, s2).events) == MainRuns(r.events)
  {
    MarksRunNothing(s2.events, [Started]);
    var events := if cfg.reportStarted then s2.events + [Started] else s2.events;
    MarksRunNothing(events, [StageBegan(Main)]);
    s := Progress(s2.registry, events + [StageBegan(Main)], true, false, false);
    SmoothEnd(cfg, RunPlugins(s, Main, KeyOf(env.id), cfg.allowReboot, cfg.main, env.main, 0));
  }

  /** A smooth boot runs the first of the pending plugins and leaves the others pending; it asks
      for a reboot only after it ran one, and otherwise leaves nothing pending. */
  lemma {:induction false} SmoothBoot(registry: Registry, env: Env, cfg: Config, id: string)
    requires Smooth(env, cfg, id) && Distinct(cfg.main)
    ensures
      var key := InstanceKey(id);
      var r := Boot(registry, env);
      && r.finished
      && MainRuns(r.events) + Pending(cfg.main, 0, r.registry, key) == Pending(cfg.main, 0, registry, key)
      && (if r.rebooting then |Pending(cfg.main, 0, r.registry, key)| < |Pending(cfg.main, 0, registry, key)|
          else Pending(cfg.main, 0, r.registry, key) == [])
      && (r.rebooting ==> cfg.allowReboot)
  {
    var s := BeforeMain(registry, env, cfg);
    SmoothMain(s, InstanceKey(id), cfg.allowReboot, cfg.main, env.main, 0);
  }

  /** The boots of an instance: another one follows as long as the last asked for a reboot. */
  datatype Deployment = Deployment(registry: Registry, events: seq<Event>, boots: nat, settled: bool)

  function Deploy(registry: Registry, envs: seq<Env>): Deployment
    requires forall env :: env in envs ==> env.Valid()
    decreases |envs|
  {
    if envs == [] then Deployment(registry, [], 0, false)
    else
      var r := Boot(registry, envs[0]);
      if !r.rebooting then Deployment(r.registry, r.events, 1, true)
      else
        var d := Deploy(r.registry, envs[1..]);
        Deployment(d.registry, r.events + d.events, d.boots + 1, d.settled)
  }

  /** N pending plugins settle within N + 1 boots, and over those boots run in order, each once. */
  lemma {:induction false} DeploySettles(registry: Registry, envs: seq<Env>, cfg: Config, id: string)
    requires forall env :: env in envs ==> env.Valid() && Smooth(env, cfg, id)
    requires Distinct(cfg.main) && |envs| > |Pending(cfg.main, 0, registry, InstanceKey(id))|
    ensures
      var pending := Pending(cfg.main, 0, registry, InstanceKey(id));
      var d := Deploy(registry, envs);
      && d.settled && 1 <= d.boots <= |pending| + 1
      && MainRuns(d.events) == pending
      && Pending(cfg.main, 0, d.registry, InstanceKey(id)) == []
    decreases |envs|
  {
    var key := InstanceKey(id);
    SmoothBoot(registry, envs[0], cfg, id);
    var r := Boot(registry, envs[0]);
    if r.rebooting {
      DeploySettles(r.registry, envs[1..], cfg, id);
      MainRunsConcat(r.events, Deploy(r.registry, envs[1..]).events);
    }
  }

  function Uninterrupted(env: Env): Env {
    env.(cfg := env.cfg.(allowReboot := false))
  }

  /** Provisioning across reboots runs what any single run without reboots would. */
  lemma {:induction false} ResumeRefinesOneRun(registry: Registry, envs: seq<Env>, env: Env, cfg: Config, id: string)
    requires Smooth(Uninterrupted(env), cfg.(allowReboot := false), id)
    requires forall e :: e in envs ==> e.Valid() && Smooth(e, cfg, id)
    requires Distinct(cfg.main) && |envs| > |Pending(cfg.main, 0, registry, InstanceKey(id))|
    ensures MainRuns(Deploy(registry, envs).events) == MainRuns(Boot(registry, Uninterrupted(env)).events)
  {
    DeploySettles(registry, envs, cfg, id);
    SmoothBoot(registry, Uninterrupted(env), cfg.(allowReboot := false), id);
  }

  /** On a new instance that is the whole supported MAIN list. */
  lemma {:induction false} NewInstancePending(ps: seq<Plugin>, i: nat, registry: Registry, key: string)
    requires i <= |ps| && forall j :: i <= j < |ps| ==> Recorded(registry, Entry(key, ps[j].name)) != Some(DONE)
    ensures Pending(ps, i, registry, key) == SupportedNames(ps[i..])
    decreases |ps| - i
  {
    if i < |ps| {
      NewInstancePending(ps, i + 1, registry, key);
      assert ps[i..][1..] == ps[i + 1..];
    }
  }

  function SupportedNames(ps: seq<Plugin>): seq<string> {
    if ps == [] then [] else if ps[0].supported then [ps[0].name] + SupportedNames(ps[1..]) else SupportedNames(ps[1..])
  }

  /** A new instance: over its boots exactly the supported MAIN plugins run, in order, each once. */
  lemma {:induction false} NewInstanceDeploys(registry: Registry, envs: seq<Env>, cfg: Config, id: string)
    requires forall env :: env in envs ==> env.Valid() && Smooth(env, cfg, id)
    requires Distinct(cfg.main) && |envs| > |SupportedNames(cfg.main)|
    requires forall j :: 0 <= j < |cfg.main| ==> Recorded(registry, Entry(InstanceKey(id), cfg.main[j].name)) != Some(DONE)
    ensures
      var d := Deploy(registry, envs);
      && d.settled && 1 <= d.boots <= |SupportedNames(cfg.main)| + 1
      && MainRuns(d.events) == SupportedNames(cfg.main)
  {
    NewInstancePending(cfg.main, 0, registry, InstanceKey(id));
    assert cfg.main[0..] == cfg.main;
    DeploySettles(registry, envs, cfg, id);
  }

  /* ---------- Exactly when a deployment settles ---------- */

  /** A boot of instance `id` in which the MAIN plugins behave as in `bs`: they may ask for another
      execution or raise, but the process goes on and the registry works. */
  ghost predicate Steady(env: Env, cfg: Config, id: string, bs: seq<Behaviour>) {
    && env.Valid() && env.cfg == cfg && env.id == Some(id) && env.main == bs
    && env.discovery == Found && !env.startedRaises && !env.idRaises && !env.cleanupRaises
    && Calm(env.preNetworking) && Calm(env.preDiscovery) && Working(bs)
  }

  predicate Working(bs: seq<Behaviour>) {
    forall i :: 0 <= i < |bs| ==>
      !bs[i].checkRaises && !bs[i].readFails && !bs[i].writeFails && !bs[i].result.Exits?
  }

  /** A plugin that is still to run, and asks for a reboot. */
  predicate WillAsk(p: Plugin, b: Behaviour, registry: Registry, key: string) {
    && p.supported && Recorded(registry, Entry(key, p.name)) != Some(DONE)
    && b.result.Returned? && b.result.reboot
  }

  /** It also asks to run again after the reboot. */
  predicate Insists(p: Plugin, b: Behaviour, registry: Registry, key: string) {
    WillAsk(p, b, registry, key) && b.result.status != DONE
  }

  /** Whether some plugin from the i-th on insists. */
  predicate AnyInsists(ps: seq<Plugin>, bs: seq<Behaviour>, i: nat, registry: Registry, key: string)
    requires i <= |ps| == |bs|
    decreases |ps| - i
  {
    i < |ps| && (Insists(ps[i], bs[i], registry, key) || AnyInsists(ps, bs, i + 1, registry, key))
  }

  lemma {:induction false} AnyInsistsMeaning(
    ps: seq<Plugin>, bs: seq<Behaviour>, i: nat, registry: Registry, key: string)
    requires i <= |ps| == |bs|
    ensures AnyInsists(ps, bs, i, registry, key)
       <==> exists j :: i <= j < |ps| && Insists(ps[j], bs[j], registry, key)
    decreases |ps| - i
  {
    if i < |ps| {
      AnyInsistsMeaning(ps, bs, i + 1, registry, key);
    }
  }

  /** How many plugins from the i-th on will ask for a reboot and be done. */
  function Rebooters(ps: seq<Plugin>, bs: seq<Behaviour>, i: nat, registry: Registry, key: string): nat
    requires i <= |ps| == |bs|
    decreases |ps| - i
  {
    if i == |ps| then 0
    else
      Rebooters(ps, bs, i + 1, registry, key)
      + if WillAsk(ps[i], bs[i], registry, key) && bs[i].result.status == DONE then 1 else 0
  }

  lemma {:induction false} RebootersArePending(
    ps: seq<Plugin>, bs: seq<Behaviour>, i: nat, registry: Registry, key: string)
    requires i <= |ps| == |bs|
    ensures Rebooters(ps, bs, i, registry, key) <= |Pending(ps, i, registry, key)|
    decreases |ps| - i
  {
    if i < |ps| {
      RebootersArePending(ps, bs, i + 1, registry, key);
    }
  }

  lemma {:induction false} CountsFrame(
    ps: seq<Plugin>, bs: seq<Behaviour>, i: nat, before: Registry, after: Registry, key: string)
    requires i <= |ps| == |bs|
    requires forall j :: i <= j < |ps| ==> Recorded(before, Entry(key, ps[j].name)) == Recorded(after, Entry(key, ps[j].name))
    ensures AnyInsists(ps, bs, i, before, key) == AnyInsists(ps, bs, i, after, key)
    ensures Rebooters(ps, bs, i, before, key) == Rebooters(ps, bs, i, after, key)
    decreases |ps| - i
  {
    if i < |ps| {
      CountsFrame(ps, bs, i + 1, before, after, key);
    }
  }

  /** Plugins record their own statuses only. */
  lemma {:induction false} RunPluginsFrame(
    s: Progress, key: string, allow: bool, ps: seq<Plugin>, bs: seq<Behaviour>, i: nat, name: string)
    requires i <= |ps| == |bs| && forall j :: i <= j < |ps| ==> ps[j].name != name
    ensures
      var entry := Entry(key, name);
      Recorded(RunPlugins(s, Main, Some(key), allow, ps, bs, i).registry, entry) == Recorded(s.registry, entry)
    decreases |ps| - i
  {
    if i == |ps| || bs[i].checkRaises {
    } else if !ps[i].supported {
      RunPluginsFrame(s, key, allow, ps, bs, i + 1, name);
    } else {
      var s' := ExecPlugin(s, Main, Some(key), ps[i], bs[i]);
      if !(s'.aborted || (s'.reboot && allow)) {
        RunPluginsFrame(s', key, allow, ps, bs, i + 1, name);
      }
    }
  }

  /** What a MAIN stage does to the two counts: it stops at a plugin that insists, or at one that
      is done after its reboot, or there was neither. */
  ghost predicate Settles(ps: seq<Plugin>, bs: seq<Behaviour>, i: nat, key: string, before: Registry, r: Progress)
    requires i <= |ps| == |bs|
  {
    && !r.aborted
    && AnyInsists(ps, bs, i, r.registry, key) == AnyInsists(ps, bs, i, before, key)
    && if r.reboot then
         AnyInsists(ps, bs, i, before, key)
         || Rebooters(ps, bs, i, r.registry, key) + 1 == Rebooters(ps, bs, i, before, key)
       else !AnyInsists(ps, bs, i, before, key) && Rebooters(ps, bs, i, before, key) == 0
  }

  lemma {:induction false} SteadyStage(s: Progress, key: string, ps: seq<Plugin>, bs: seq<Behaviour>, i: nat)
    requires i <= |ps| == |bs| && Distinct(ps) && Working(bs) && !s.aborted && !s.reboot
    ensures Settles(ps, bs, i, key, s.registry, RunPlugins(s, Main, Some(key), true, ps, bs, i))
    decreases |ps| - i
  {
    if i == |ps| {
    } else if !ps[i].supported {
      SteadyStage(s, key, ps, bs, i + 1);
    } else {
      var s' := ExecPlugin(s, Main, Some(key), ps[i], bs[i]);
      CountsFrame(ps, bs, i + 1, s.registry, s'.registry, key);
      if !s'.reboot {
        SteadyStage(s', key, ps, bs, i + 1);
        RunPluginsFrame(s', key, true, ps, bs, i + 1, ps[i].name);
      }
    }
  }

  lemma {:induction false} SteadyBoot(registry: Registry, env: Env, cfg: Config, id: string, bs: seq<Behaviour>)
    requires Steady(env, cfg, id, bs) && Distinct(cfg.main) && cfg.allowReboot
    ensures
      var key := InstanceKey(id);
      var r := Boot(registry, env);
      && AnyInsists(cfg.main, bs, 0, r.registry, key) == AnyInsists(cfg.main, bs, 0, registry, key)
      && if r.rebooting then
           AnyInsists(cfg.main, bs, 0, registry, key)
           || Rebooters(cfg.main, bs, 0, r.registry, key) + 1 == Rebooters(cfg.main, bs, 0, registry, key)
         else !AnyInsists(cfg.main, bs, 0, registry, key) && Rebooters(cfg.main, bs, 0, registry, key) == 0
  {
    var s := BeforeMain(registry, env, cfg);
    SteadyStage(s, InstanceKey(id), cfg.main, bs, 0);
  }

  lemma {:induction false} SteadyDeploy(registry: Registry, envs: seq<Env>, cfg: Config, id: string, bs: seq<Behaviour>)
    requires forall env :: env in envs ==> env.Valid() && Steady(env, cfg, id, bs)
    requires Distinct(cfg.main) && |bs| == |cfg.main| && cfg.allowReboot
    requires AnyInsists(cfg.main, bs, 0, registry, InstanceKey(id))
          || |envs| > Rebooters(cfg.main, bs, 0, registry, InstanceKey(id))
    ensures
      var d := Deploy(registry, envs);
      && (d.settled <==> !AnyInsists(cfg.main, bs, 0, registry, InstanceKey(id)))
      && (d.settled ==> d.boots == Rebooters(cfg.main, bs, 0, registry, InstanceKey(id)) + 1)
    decreases |envs|
  {
    if envs != [] {
      SteadyBoot(registry, envs[0], cfg, id, bs);
      var r := Boot(registry, envs[0]);
      if r.rebooting {
        SteadyDeploy(r.registry, envs[1..], cfg, id, bs);
      }
    }
  }

  /** Boots that agree on what each MAIN plugin does: the deployment settles exactly when reboots
      are off or no supported plugin that is not yet DONE asks both for a reboot and to run again;
      and then after one boot more than there are plugins that ask for a reboot and are done. */
  lemma {:induction false} SettlesIff(registry: Registry, envs: seq<Env>, cfg: Config, id: string, bs: seq<Behaviour>)
    requires forall env :: env in envs ==> env.Valid() && Steady(env, cfg, id, bs)
    requires Distinct(cfg.main) && |bs| == |cfg.main|
    requires |envs| > |Pending(cfg.main, 0, registry, InstanceKey(id))|
    ensures
      var d, key := Deploy(registry, envs), InstanceKey(id);
      && (d.settled <==>
            !(cfg.allowReboot && exists j :: 0 <= j < |bs| && Insists(cfg.main[j], bs[j], registry, key)))
      && (d.settled ==>
            d.boots == 1 + if cfg.allowReboot then Rebooters(cfg.main, bs, 0, registry, key) else 0)
  {
    if cfg.allowReboot {
      AnyInsistsMeaning(cfg.main, bs, 0, registry, InstanceKey(id));
      RebootersArePending(cfg.main, bs, 0, registry, InstanceKey(id));
      SteadyDeploy(registry, envs, cfg, id, bs);
    } else {
      assert envs[0] in envs && Steady(envs[0], cfg, id, bs);
      NoRebootWhereForbidden(registry, envs[0]);
    }
  }

  lemma {:induction false} NoRebootWhereForbidden(registry: Registry, env: Env)
    requires env.Valid() && !env.cfg.allowReboot
    ensures !Boot(registry, env).rebooting
  {
  }

  /* ---------- What a plugin that insists does to the others ---------- */

  /** The k-th plugin of a stage asks for a reboot and to run again; the others may do what they
      like, if only those before it do not end the process. */
  predicate InsistsAt(ps: seq<Plugin>, bs: seq<Behaviour>, k: nat) {
    && k < |ps| == |bs| && ps[k].supported
    && bs[k].result.Returned? && bs[k].result.reboot && bs[k].result.status != DONE
    && forall j :: 0 <= j <= k ==> !bs[j].checkRaises && !bs[j].result.Exits?
  }

  /** A boot of the instance with such a MAIN plugin. */
  ghost predicate Insistent(env: Env, cfg: Config, id: string, k: nat) {
    && env.Valid() && env.cfg == cfg && env.id == Some(id) && cfg.allowReboot
    && env.discovery == Found && !env.startedRaises && !env.idRaises && !env.cleanupRaises
    && Calm(env.preNetworking) && Calm(env.preDiscovery) && InsistsAt(cfg.main, env.main, k)
  }

  function NamesUpTo(ps: seq<Plugin>, k: nat): set<string>
    requires k < |ps|
  {
    set j | 0 <= j <= k :: ps[j].name
  }

  predicate Among(names: seq<string>, allowed: set<string>) {
    names == [] || (names[|names| - 1] in allowed && Among(names[..|names| - 1], allowed))
  }

  lemma {:induction false} AmongMeaning(names: seq<string>, allowed: set<string>)
    ensures Among(names, allowed) <==> forall n :: n in names ==> n in allowed
  {
    if names != [] {
      AmongMeaning(names[..|names| - 1], allowed);
      assert names == names[..|names| - 1] + [names[|names| - 1]];
    }
  }

  lemma {:induction false} AmongConcat(before: seq<string>, a: seq<string>, b: seq<string>, allowed: set<string>)
    requires Among(a, allowed) && Among(b, allowed)
    ensures Among(a + b, allowed)
    ensures before + a + b == before + (a + b)
  {
    AmongMeaning(a, allowed);
    AmongMeaning(b, allowed);
    AmongMeaning(a + b, allowed);
  }

  /** One stage: it stops at the k-th plugin or before, which is not DONE afterwards either. */
  lemma {:induction false} StarvedStage(s: Progress, key: string, ps: seq<Plugin>, bs: seq<Behaviour>, k: nat, i: nat)
    returns (names: seq<string>)
    requires InsistsAt(ps, bs, k) && i <= k && !s.aborted && Distinct(ps)
    requires Recorded(s.registry, Entry(key, ps[k].name)) != Some(DONE)
    ensures
      var r := RunPlugins(s, Main, Some(key), true, ps, bs, i);
      && !r.aborted && r.reboot
      && Recorded(r.registry, Entry(key, ps[k].name)) != Some(DONE)
      && MainRuns(r.events) == MainRuns(s.events) + names
    ensures 1 <= |names| <= k + 1 - i && Among(names, NamesUpTo(ps, k))
    decreases k - i
  {
    if !ps[i].supported {
      names := StarvedStage(s, key, ps, bs, k, i + 1);
    } else {
      var s', ran := StarvedStep(s, key, ps, bs, k, i);
      if s'.reboot {
        names := ran;
      } else {
        var rest := StarvedStage(s', key, ps, bs, k, i + 1);
        names := ran + rest;
        AmongConcat(MainRuns(s.events), ran, rest, NamesUpTo(ps, k));
      }
    }
  }

  lemma {:induction false} StarvedStep(s: Progress, key: string, ps: seq<Plugin>, bs: seq<Behaviour>, k: nat, i: nat)
    returns (s': Progress, ran: seq<string>)
    requires InsistsAt(ps, bs, k) && i <= k && !s.aborted && Distinct(ps) && ps[i].supported
    requires Recorded(s.registry, Entry(key, ps[k].name)) != Some(DONE)
    ensures s' == ExecPlugin(s, Main, Some(key), ps[i], bs[i]) && !s'.aborted
    ensures Recorded(s'.registry, Entry(key, ps[k].name)) != Some(DONE)
    ensures MainRuns(s'.events) == MainRuns(s.events) + ran
    ensures |ran| <= 1 && (s'.reboot ==> |ran| == 1) && Among(ran, NamesUpTo(ps, k))
    ensures i == k ==> s'.reboot
  {
    s', ran := ExecPlugin(s, Main, Some(key), ps[i], bs[i]), [];
    if s'.events != s.events {
      MainRunsAppend(s.events, s'.events[|s.events|]);
      ran := [ps[i].name];
    }
    if i < k {
      assert ps[i].name != ps[k].name;
    }
  }

  /** m for each of n boots. */
  function Times(n: nat, m: nat): nat {
    if n == 0 then 0 else Times(n - 1, m) + m
  }

  lemma {:induction false} TimesIsProduct(n: nat, m: nat)
    ensures Times(n, m) == n * m
  {
    if n > 0 {
      TimesIsProduct(n - 1, m);
      assert (n - 1) * m + m == n * m;
    }
  }

  /** The trace of n boots with one to m runs in each, of these plugins only. */
  ghost predicate RunsOf(events: seq<Event>, n: nat, m: nat, allowed: set<string>) {
    var runs := MainRuns(events);
    n <= |runs| <= Times(n, m) && Among(runs, allowed)
  }

  lemma {:induction false} OneBootMore(boot: seq<Event>, rest: seq<Event>, n: nat, m: nat, allowed: set<string>)
    requires n > 0 && RunsOf(boot, 1, m, allowed) && RunsOf(rest, n - 1, m, allowed)
    ensures RunsOf(boot + rest, n, m, allowed)
  {
    MainRunsConcat(boot, rest);
    AmongConcat([], MainRuns(boot), MainRuns(rest), allowed);
    assert Times(1, m) == Times(0, m) + m == m;
  }

  lemma {:induction false} InsistentBoot(registry: Registry, env: Env, cfg: Config, id: string, k: nat)
    requires Insistent(env, cfg, id, k) && Distinct(cfg.main)
    requires Recorded(registry, Entry(InstanceKey(id), cfg.main[k].name)) != Some(DONE)
    ensures
      var r := Boot(registry, env);
      && r.rebooting && Recorded(r.registry, Entry(InstanceKey(id), cfg.main[k].name)) != Some(DONE)
      && RunsOf(r.events, 1, k + 1, NamesUpTo(cfg.main, k))
  {
    var s := BeforeMain(registry, env, cfg);
    var names := StarvedStage(s, InstanceKey(id), cfg.main, env.main, k, 0);
    assert MainRuns(s.events) + names == names;
    assert Times(1, k + 1) == Times(0, k + 1) + (k + 1);
  }

  lemma {:induction false} Starves(events: seq<Event>, n: nat, ps: seq<Plugin>, k: nat)
    requires k < |ps| && Distinct(ps) && RunsOf(events, n, k + 1, NamesUpTo(ps, k))
    ensures n <= |MainRuns(events)| <= n * (k + 1)
    ensures forall j :: k < j < |ps| ==> ps[j].name !in MainRuns(events)
  {
    TimesIsProduct(n, k + 1);
    AmongMeaning(MainRuns(events), NamesUpTo(ps, k));
    assert forall j :: k < j < |ps| ==> ps[j].name !in NamesUpTo(ps, k);
  }

  /** From whatever registry without DONE for the entry, the boot asks for a reboot, leaves the
      entry so, and runs one to m of these plugins. */
  ghost predicate Stuck(env: Env, entry: Entry, m: nat, allowed: set<string>)
    requires env.Valid()
  {
    forall registry :: Recorded(registry, entry) != Some(DONE) ==>
      var r := Boot(registry, env);
      r.rebooting && Recorded(r.registry, entry) != Some(DONE) && RunsOf(r.events, 1, m, allowed)
  }

  lemma {:induction false} InsistentIsStuck(env: Env, cfg: Config, id: string, k: nat)
    requires Insistent(env, cfg, id, k) && Distinct(cfg.main)
    ensures Stuck(env, Entry(InstanceKey(id), cfg.main[k].name), k + 1, NamesUpTo(cfg.main, k))
  {
    var entry := Entry(InstanceKey(id), cfg.main[k].name);
    forall registry: Registry | Recorded(registry, entry) != Some(DONE)
      ensures
        var r := Boot(registry, env);
        && r.rebooting && Recorded(r.registry, entry) != Some(DONE)
        && RunsOf(r.events, 1, k + 1, NamesUpTo(cfg.main, k))
    {
      InsistentBoot(registry, env, cfg, id, k);
    }
  }

  lemma {:induction false} StuckDeploy(
    registry: Registry, envs: seq<Env>, n: nat, entry: Entry, m: nat, allowed: set<string>)
    requires forall env :: env in envs ==> env.Valid() && Stuck(env, entry, m, allowed)
    requires Recorded(registry, entry) != Some(DONE) && n == |envs|
    ensures
      var d := Deploy(registry, envs);
      !d.settled && d.boots == n && RunsOf(d.events, n, m, allowed)
    decreases n
  {
    if n > 0 {
      var r := Boot(registry, envs[0]);
      assert Stuck(envs[0], entry, m, allowed);
      StuckDeploy(r.registry, envs[1..], n - 1, entry, m, allowed);
      OneBootMore(r.events, Deploy(r.registry, envs[1..]).events, n, m, allowed);
    }
  }

  /** A plugin that insists keeps the instance rebooting for ever, and no plugin behind it ever
      runs, whatever the others do at any boot. */
  lemma {:induction false} EndlessReboots(registry: Registry, envs: seq<Env>, cfg: Config, id: string, k: nat)
    requires forall env :: env in envs ==> env.Valid() && Insistent(env, cfg, id, k)
    requires k < |cfg.main| && Distinct(cfg.main)
    requires Recorded(registry, Entry(InstanceKey(id), cfg.main[k].name)) != Some(DONE)
    ensures
      var d := Deploy(registry, envs);
      && !d.settled && d.boots == |envs|
      && |envs| <= |MainRuns(d.events)| <= |envs| * (k + 1)
      && (forall j :: k < j < |cfg.main| ==> cfg.main[j].name !in MainRuns(d.events))
  {
    var entry := Entry(InstanceKey(id), cfg.main[k].name);
    forall env | env in envs
      ensures Stuck(env, entry, k + 1, NamesUpTo(cfg.main, k))
    {
      InsistentIsStuck(env, cfg, id, k);
    }
    StuckDeploy(registry, envs, |envs|, entry, k + 1, NamesUpTo(cfg.main, k));
    Starves(Deploy(registry, envs).events, |envs|, cfg.main, k);
  }
}
