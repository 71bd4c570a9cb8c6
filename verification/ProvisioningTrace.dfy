/** Which plugins a boot runs, in which stage and order, and what it records of them. */
module ProvisioningTrace {
  import opened Basics
  import opened Provisioning
  import opened ProvisioningStatus

  /** The plugin runs of a trace. */
  function RunsIn(events: seq<Event>): seq<Event> {
    if events == [] then []
    else
      var e := events[|events| - 1];
      RunsIn(events[..|events| - 1]) + if e.Ran? then [e] else []
  }

  lemma {:induction false} RunsInAppend(events: seq<Event>, e: Event)
    ensures RunsIn(events + [e]) == RunsIn(events) + if e.Ran? then [e] else []
  {
    assert (events + [e])[..|events|] == events;
  }

  lemma {:induction false} RunsInMarks(events: seq<Event>, marks: seq<Event>)
    requires forall e :: e in marks ==> !e.Ran?
    ensures RunsIn(events + marks) == RunsIn(events)
  {
    if marks == [] {
      assert events + marks == events;
    } else {
      var init, last := marks[..|marks| - 1], marks[|marks| - 1];
      RunsInMarks(events, init);
      assert marks == init + [last];
      Associates(events, init, [last]);
      RunsInAppend(events + init, last);
    }
  }

  /** What a plugin does once it is reached: it runs unless it is not supported, or is read to be
      recorded DONE. */
  function RunOf(registry: Registry, stage: Stage, key: Option<string>, p: Plugin, b: Behaviour): seq<Event> {
    var at := EntryOf(key, p);
    if b.checkRaises || !p.supported || Skips(registry, key, p, b) then []
    else [Ran(stage, p.name, at, at.Some? && b.readFails, b.result, at.Some? && b.result.Returned? && !b.writeFails)]
  }

  function RunAt(registry: Registry, stage: Stage, c: Course, i: nat): seq<Event>
    requires c.Valid() && i < |c.ps|
  {
    RunOf(RegistryAt(registry, c, i), stage, c.key, c.ps[i], c.bs[i])
  }

  /** The runs of a stage from its i-th plugin on: those of all plugins, up to one that stops it. */
  function StageRuns(registry: Registry, stage: Stage, c: Course, i: nat): seq<Event>
    requires c.Valid() && i <= |c.ps|
    decreases |c.ps| - i
  {
    if i == |c.ps| then []
    else if StopsAt(registry, c, i) then RunAt(registry, stage, c, i)
    else RunAt(registry, stage, c, i) + StageRuns(registry, stage, c, i + 1)
  }

  /** What such a stage records. */
  function StageRecords(registry: Registry, c: Course, i: nat): Registry
    requires c.Valid() && i <= |c.ps|
    decreases |c.ps| - i
  {
    if i == |c.ps| then RegistryAt(registry, c, i)
    else if StopsAt(registry, c, i) then RegistryAt(registry, c, i + 1)
    else StageRecords(registry, c, i + 1)
  }

  /** A plugin when it is reached. */
  function StepOf(s: Progress, stage: Stage, key: Option<string>, p: Plugin, b: Behaviour): Progress {
    if b.checkRaises then s.(aborted := true)
    else if !p.supported then s
    else ExecPlugin(s, stage, key, p, b)
  }

  function Step(s: Progress, stage: Stage, c: Course, i: nat): Progress
    requires c.Valid() && i < |c.ps|
  {
    StepOf(s, stage, c.key, c.ps[i], c.bs[i])
  }

  lemma {:induction false} StepRun(s: Progress, stage: Stage, key: Option<string>, p: Plugin, b: Behaviour)
    ensures RunsIn(StepOf(s, stage, key, p, b).events) == RunsIn(s.events) + RunOf(s.registry, stage, key, p, b)
  {
    var s' := StepOf(s, stage, key, p, b);
    if s'.events != s.events {
      RunsInAppend(s.events, s'.events[|s.events|]);
    } else {
      assert RunsIn(s.events) + [] == RunsIn(s.events);
    }
  }

  lemma {:induction false} StepRecord(s: Progress, stage: Stage, key: Option<string>, p: Plugin, b: Behaviour)
    ensures StepOf(s, stage, key, p, b).registry == Recording(s.registry, key, p, b)
  {
  }

  lemma {:induction false} StepCourse(registry: Registry, s: Progress, stage: Stage, c: Course, i: nat)
    requires c.Valid() && i < |c.ps| && s.registry == RegistryAt(registry, c, i) && !s.aborted
    ensures
      var s' := Step(s, stage, c, i);
      if StopsAt(registry, c, i) then RunCourse(s, stage, c, i) == s'
      else RunCourse(s, stage, c, i) == RunCourse(s', stage, c, i + 1) && !s'.aborted
  {
    if StopsAt(registry, c, i) {
      StoppingPlugin(registry, s, stage, c, i);
    } else {
      var s' := PassedPlugin(registry, s, stage, c, i, Entry("", ""));
    }
  }

  lemma {:induction false} StageRunsAre(registry: Registry, s: Progress, stage: Stage, c: Course, i: nat)
    requires c.Valid() && i <= |c.ps| && s.registry == RegistryAt(registry, c, i) && !s.aborted
    ensures RunsIn(RunCourse(s, stage, c, i).events) == RunsIn(s.events) + StageRuns(registry, stage, c, i)
    ensures RunCourse(s, stage, c, i).registry == StageRecords(registry, c, i)
    decreases |c.ps| - i
  {
    if i < |c.ps| {
      StepRun(s, stage, c.key, c.ps[i], c.bs[i]);
      StepRecord(s, stage, c.key, c.ps[i], c.bs[i]);
      StepCourse(registry, s, stage, c, i);
      if !StopsAt(registry, c, i) {
        StageRunsAre(registry, Step(s, stage, c, i), stage, c, i + 1);
        Associates(RunsIn(s.events), RunAt(registry, stage, c, i), StageRuns(registry, stage, c, i + 1));
      }
    }
  }

  /* ---------- A whole boot ---------- */

  function EarlyCourse(env: Env, stage: Stage): Course {
    if stage == PreNetworking then Course(None, env.cfg.allowReboot, env.cfg.preNetworking, env.preNetworking)
    else Course(None, env.cfg.allowReboot, env.cfg.preDiscovery, env.preDiscovery)
  }

  /** The second stage comes when no plugin stopped the first. */
  predicate PassesFirst(env: Env)
    requires env.Valid()
  {
    Reached(map[], EarlyCourse(env, PreNetworking), |env.preNetworking|)
  }

  /** The plugins a boot runs: those of the first stage; if none of them stopped it, those of the
      second; and those of the MAIN stage, with their statuses, if the boot comes to that. */
  function BootRuns(registry: Registry, env: Env): seq<Event>
    requires env.Valid()
  {
    StageRuns(map[], PreNetworking, EarlyCourse(env, PreNetworking), 0)
    + (if PassesFirst(env) then StageRuns(map[], PreMetadataDiscovery, EarlyCourse(env, PreMetadataDiscovery), 0) else [])
    + (if StartsMain(env) then StageRuns(registry, Main, MainOf(env), 0) else [])
  }

  lemma {:induction false} EarlyRuns(registry: Registry, events: seq<Event>, stage: Stage, c: Course) returns (r: Progress)
    requires c.Valid() && c.key == None
    ensures r == RunStage(registry, events, stage, None, c.allow, c.ps, c.bs) && r.registry == registry
    ensures RunsIn(r.events) == RunsIn(events) + StageRuns(map[], stage, c, 0)
    ensures !r.aborted && !(r.reboot && c.allow) <==> Reached(map[], c, |c.ps|)
  {
    var s := Progress(registry, events + [StageBegan(stage)], true, false, false);
    r := RunCourse(s, stage, c, 0);
    RunsInMarks(events, [StageBegan(stage)]);
    EarlyStage(s, stage, c, 0, Entry("", ""));
    StageRunsAre(registry, s, stage, c, 0);
    SameEarlyRuns(registry, stage, c, 0);
  }

  /** Without an instance id the registry does not matter. */
  lemma {:induction false} SameEarlyRuns(registry: Registry, stage: Stage, c: Course, i: nat)
    requires c.Valid() && c.key == None && i <= |c.ps|
    ensures StageRuns(registry, stage, c, i) == StageRuns(map[], stage, c, i)
    decreases |c.ps| - i
  {
    if i < |c.ps| {
      SameEarlyRuns(registry, stage, c, i + 1);
    }
  }

  lemma {:induction false} FinishRuns(cfg: Config, s: Progress, service: bool)
    ensures RunsIn(Finish(cfg, s, service).events) == RunsIn(s.events)
  {
    RunsInMarks(s.events, Closing(cfg, service, s.success, s.reboot && cfg.allowReboot));
  }

  lemma {:induction false} ServedRuns(cfg: Config, s: Progress)
    ensures RunsIn(Finish(cfg, AfterMain(cfg, s.(events := s.events + [Cleanup])), true).events) == RunsIn(s.events)
    ensures RunsIn(s.events + [Cleanup]) == RunsIn(s.events)
  {
    RunsInMarks(s.events, [Cleanup]);
    RunsInMarks(s.events + [Cleanup], Maybe(cfg.reportCompleted && !s.success, Failed));
    FinishRuns(cfg, AfterMain(cfg, s.(events := s.events + [Cleanup])), true);
  }

  lemma {:induction false} MainRuns(s: Progress, c: Course) returns (r: Progress)
    requires c.Valid() && !s.aborted
    ensures r == RunStage(s.registry, s.events, Main, c.key, c.allow, c.ps, c.bs)
    ensures RunsIn(r.events) == RunsIn(s.events) + StageRuns(s.registry, Main, c, 0)
    ensures r.registry == StageRecords(s.registry, c, 0)
  {
    var s1 := Progress(s.registry, s.events + [StageBegan(Main)], true, false, false);
    RunsInMarks(s.events, [StageBegan(Main)]);
    StageRunsAre(s.registry, s1, Main, c, 0);
    r := RunCourse(s1, Main, c, 0);
  }

  lemma {:induction false} ProvisionRuns(env: Env, s: Progress)
    requires env.Valid() && !s.aborted
    ensures
      var starts := !(env.cfg.reportStarted && env.startedRaises) && !env.idRaises;
      var r := Provision(env, s);
      && RunsIn(r.events) == RunsIn(s.events) + (if starts then StageRuns(s.registry, Main, MainOf(env), 0) else [])
      && r.registry == if starts then StageRecords(s.registry, MainOf(env), 0) else s.registry
  {
    var cfg := env.cfg;
    RunsInMarks(s.events, [Started]);
    var s1 := if cfg.reportStarted then s.(events := s.events + [Started]) else s;
    if (cfg.reportStarted && env.startedRaises) || env.idRaises {
      assert RunsIn(s.events) + [] == RunsIn(s.events);
    } else {
      var r := MainRuns(s1, MainOf(env));
      ServedRuns(cfg, r);
    }
  }

  lemma {:induction false} Nothing(a: seq<Event>, b: seq<Event>)
    ensures [] + a == a && a + [] == a && a + [] + [] == a && a + b + [] == a + b
  {
  }

  /** Every boot runs exactly these plugins, in this order, and leaves exactly these records. */
  lemma {:induction false} BootRunsAre(registry: Registry, env: Env)
    requires env.Valid()
    ensures RunsIn(Boot(registry, env).events) == BootRuns(registry, env)
    ensures Boot(registry, env).registry ==
      if StartsMain(env) then StageRecords(registry, MainOf(env), 0) else registry
  {
    var c1, c2 := EarlyCourse(env, PreNetworking), EarlyCourse(env, PreMetadataDiscovery);
    var s1 := EarlyRuns(registry, [], PreNetworking, c1);
    FinishRuns(env.cfg, s1, false);
    Nothing(StageRuns(map[], PreNetworking, c1, 0), StageRuns(map[], PreMetadataDiscovery, c2, 0));
    if PassesFirst(env) {
      var s2 := EarlyRuns(registry, s1.events, PreMetadataDiscovery, c2);
      FinishRuns(env.cfg, s2, false);
      if Reached(map[], c2, |c2.ps|) && env.discovery == Found {
        ProvisionRuns(env, s2);
        assert Boot(registry, env) == Provision(env, s2);
      }
    }
  }
}
