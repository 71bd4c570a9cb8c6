/** A plugin recorded DONE over many boots, and the isolation of instances. */
module ProvisioningStatus {
  import opened Basics
  import opened Provisioning
  import Resume = ProvisioningResume

  /* ---------- Many boots ---------- */

  datatype History = History(registry: Registry, events: seq<Event>)

  function Boots(registry: Registry, envs: seq<Env>): History
    requires forall env :: env in envs ==> env.Valid()
    decreases |envs|
  {
    if envs == [] then History(registry, [])
    else
      var r := Boot(registry, envs[0]);
      var h := Boots(r.registry, envs[1..]);
      History(h.registry, r.events + h.events)
  }

  /** How often the plugin behind a registry entry ran for the instance of that entry. */
  function Runs(events: seq<Event>, entry: Entry): nat {
    if events == [] then 0
    else
      var e := events[|events| - 1];
      Runs(events[..|events| - 1], entry) + if e.Ran? && e.at == Some(entry) then 1 else 0
  }

  lemma {:induction false} RunsAppend(events: seq<Event>, e: Event, entry: Entry)
    ensures Runs(events + [e], entry) == Runs(events, entry) + if e.Ran? && e.at == Some(entry) then 1 else 0
  {
    assert (events + [e])[..|events|] == events;
  }

  lemma {:induction false} RunsConcat(a: seq<Event>, b: seq<Event>, entry: Entry)
    ensures Runs(a + b, entry) == Runs(a, entry) + Runs(b, entry)
  {
    if b == [] {
      assert a + b == a;
    } else {
      var n := |b| - 1;
      RunsConcat(a, b[..n], entry);
      assert b == b[..n] + [b[n]];
      Associates(a, b[..n], [b[n]]);
      RunsAppend(a + b[..n], b[n], entry);
    }
  }

  lemma {:induction false} MarksRunNothing(events: seq<Event>, marks: seq<Event>, entry: Entry)
    requires forall e :: e in marks ==> !e.Ran?
    ensures Runs(events + marks, entry) == Runs(events, entry)
  {
    RunsConcat(events, marks, entry);
    NoRuns(marks, entry);
  }

  lemma {:induction false} NoRuns(marks: seq<Event>, entry: Entry)
    requires forall e :: e in marks ==> !e.Ran?
    ensures Runs(marks, entry) == 0
  {
    if marks != [] {
      NoRuns(marks[..|marks| - 1], entry);
    }
  }

  /* ---------- Which plugins a boot reaches ---------- */

  /** The plugins of a stage and how they behave in one boot. */
  datatype Course = Course(key: Option<string>, allow: bool, ps: seq<Plugin>, bs: seq<Behaviour>)
  {
    predicate Valid() {
      |ps| == |bs|
    }
  }

  /** The plugin is passed over because it is recorded DONE. */
  predicate Skips(registry: Registry, key: Option<string>, p: Plugin, b: Behaviour) {
    EntryOf(key, p).Some? && !b.readFails && Recorded(registry, EntryOf(key, p).value) == Some(DONE)
  }

  /** The registry after a plugin: its status is recorded if it ran, returned, and could be stored. */
  function Recording(registry: Registry, key: Option<string>, p: Plugin, b: Behaviour): Registry {
    if !b.checkRaises && p.supported && EntryOf(key, p).Some? && !Skips(registry, key, p, b)
       && b.result.Returned? && !b.writeFails
    then registry[EntryOf(key, p).value := b.result.status] else registry
  }

  /** The registry after the first i plugins of a stage that gets so far. */
  function RegistryAt(registry: Registry, c: Course, i: nat): Registry
    requires c.Valid() && i <= |c.ps|
  {
    if i == 0 then registry else Recording(RegistryAt(registry, c, i - 1), c.key, c.ps[i - 1], c.bs[i - 1])
  }

  /** Whether the stage ends with its i-th plugin: the process does, or a reboot is due. */
  predicate StopsAt(registry: Registry, c: Course, i: nat)
    requires c.Valid() && i < |c.ps|
  {
    var p, b := c.ps[i], c.bs[i];
    || b.checkRaises
    || (p.supported && !Skips(RegistryAt(registry, c, i), c.key, p, b)
        && (b.result.Exits? || (c.allow && b.result.Returned? && b.result.reboot)))
  }

  predicate Reached(registry: Registry, c: Course, i: nat)
    requires c.Valid() && i <= |c.ps|
  {
    forall j :: 0 <= j < i ==> !StopsAt(registry, c, j)
  }

  /** The i-th plugin is the one behind the entry, and the read of its status fails. */
  predicate BlindAt(c: Course, i: nat, entry: Entry)
    requires c.Valid() && i < |c.ps|
  {
    c.ps[i].supported && !c.bs[i].checkRaises && c.bs[i].readFails && EntryOf(c.key, c.ps[i]) == Some(entry)
  }

  function MainOf(env: Env): Course {
    Course(KeyOf(env.id), env.cfg.allowReboot, env.cfg.main, env.main)
  }

  /** Whether a boot comes to its MAIN stage. */
  predicate StartsMain(env: Env)
    requires |env.preNetworking| == |env.cfg.preNetworking| && |env.preDiscovery| == |env.cfg.preDiscovery|
  {
    var allow := env.cfg.allowReboot;
    && Reached(map[], Course(None, allow, env.cfg.preNetworking, env.preNetworking), |env.preNetworking|)
    && Reached(map[], Course(None, allow, env.cfg.preDiscovery, env.preDiscovery), |env.preDiscovery|)
    && env.discovery == Found && !(env.cfg.reportStarted && env.startedRaises) && !env.idRaises
  }

  /** Whether the boot reaches the plugin behind the entry and cannot read its status. */
  ghost predicate RunsBlindly(registry: Registry, env: Env, entry: Entry)
    requires env.Valid()
  {
    StartsMain(env) && exists i :: 0 <= i < |env.main| && Reached(registry, MainOf(env), i) && BlindAt(MainOf(env), i, entry)
  }

  /* ---------- One stage ---------- */

  function RunCourse(s: Progress, stage: Stage, c: Course, i: nat): Progress
    requires c.Valid() && i <= |c.ps|
  {
    RunPlugins(s, stage, c.key, c.allow, c.ps, c.bs, i)
  }

  lemma {:induction false} StepRuns(
    s: Progress, stage: Stage, key: Option<string>, p: Plugin, b: Behaviour, entry: Entry)
    ensures
      var r := ExecPlugin(s, stage, key, p, b);
      Runs(r.events, entry) == Runs(s.events, entry)
        + if EntryOf(key, p) == Some(entry) && !Skips(s.registry, key, p, b) then 1 else 0
  {
    var r := ExecPlugin(s, stage, key, p, b);
    if r.events != s.events {
      RunsAppend(s.events, r.events[|s.events|], entry);
    }
  }

  lemma {:induction false} RunsGrow(s: Progress, stage: Stage, c: Course, i: nat, entry: Entry)
    requires c.Valid() && i <= |c.ps|
    ensures Runs(RunCourse(s, stage, c, i).events, entry) >= Runs(s.events, entry)
    decreases |c.ps| - i
  {
    if i == |c.ps| || c.bs[i].checkRaises {
    } else if !c.ps[i].supported {
      RunsGrow(s, stage, c, i + 1, entry);
    } else {
      StepRuns(s, stage, c.key, c.ps[i], c.bs[i], entry);
      var s' := ExecPlugin(s, stage, c.key, c.ps[i], c.bs[i]);
      if !(s'.aborted || (s'.reboot && c.allow)) {
        RunsGrow(s', stage, c, i + 1, entry);
      }
    }
  }

  /** One plugin of a stage that goes on after it. */
  lemma {:induction false} PassedPlugin(registry: Registry, s: Progress, stage: Stage, c: Course, i: nat, entry: Entry)
    returns (s': Progress)
    requires c.Valid() && i < |c.ps| && s.registry == RegistryAt(registry, c, i)
    requires !StopsAt(registry, c, i) && !s.aborted
    ensures !s'.aborted && s' == if c.ps[i].supported then ExecPlugin(s, stage, c.key, c.ps[i], c.bs[i]) else s
    ensures RunCourse(s, stage, c, i) == RunCourse(s', stage, c, i + 1)
    ensures s'.registry == RegistryAt(registry, c, i + 1)
    ensures Runs(s'.events, entry) >= Runs(s.events, entry)
  {
    StepRuns(s, stage, c.key, c.ps[i], c.bs[i], entry);
    s' := if c.ps[i].supported then ExecPlugin(s, stage, c.key, c.ps[i], c.bs[i]) else s;
  }

  /** A plugin that is reached blindly runs, whatever is recorded for it. */
  lemma {:induction false} BlindStage(
    registry: Registry, s: Progress, stage: Stage, c: Course, i: nat, j: nat, entry: Entry)
    requires c.Valid() && i <= j < |c.ps| && s.registry == RegistryAt(registry, c, i) && !s.aborted
    requires Reached(registry, c, j) && BlindAt(c, j, entry)
    ensures Runs(RunCourse(s, stage, c, i).events, entry) > Runs(s.events, entry)
    decreases j - i
  {
    if i == j {
      BlindPlugin(s, stage, c, i, entry);
    } else {
      assert !StopsAt(registry, c, i);
      var s' := PassedPlugin(registry, s, stage, c, i, entry);
      BlindStage(registry, s', stage, c, i + 1, j, entry);
    }
  }

  lemma {:induction false} BlindPlugin(s: Progress, stage: Stage, c: Course, i: nat, entry: Entry)
    requires c.Valid() && i < |c.ps| && BlindAt(c, i, entry)
    ensures Runs(RunCourse(s, stage, c, i).events, entry) > Runs(s.events, entry)
  {
    StepRuns(s, stage, c.key, c.ps[i], c.bs[i], entry);
    var s' := ExecPlugin(s, stage, c.key, c.ps[i], c.bs[i]);
    if !(s'.aborted || (s'.reboot && c.allow)) {
      RunsGrow(s', stage, c, i + 1, entry);
    }
  }

  /** One plugin that ends the stage. */
  lemma {:induction false} StoppingPlugin(registry: Registry, s: Progress, stage: Stage, c: Course, i: nat)
    requires c.Valid() && i < |c.ps| && s.registry == RegistryAt(registry, c, i)
    requires StopsAt(registry, c, i) && !s.aborted
    ensures c.bs[i].checkRaises ==> RunCourse(s, stage, c, i) == s.(aborted := true)
    ensures !c.bs[i].checkRaises ==>
      c.ps[i].supported && RunCourse(s, stage, c, i) == ExecPlugin(s, stage, c.key, c.ps[i], c.bs[i])
  {
  }

  /** A plugin recorded DONE, if it is read to be, does not run and stays DONE; others leave it alone. */
  lemma {:induction false} SightedPlugin(
    s: Progress, stage: Stage, key: Option<string>, p: Plugin, b: Behaviour, entry: Entry)
    requires Recorded(s.registry, entry) == Some(DONE) && !(b.readFails && EntryOf(key, p) == Some(entry))
    ensures
      var r := ExecPlugin(s, stage, key, p, b);
      Runs(r.events, entry) == Runs(s.events, entry) && Recorded(r.registry, entry) == Some(DONE)
  {
    StepRuns(s, stage, key, p, b, entry);
  }

  /** From the i-th plugin on none is reached blindly. */
  predicate Sighted(registry: Registry, c: Course, i: nat, entry: Entry)
    requires c.Valid() && i <= |c.ps|
  {
    forall j :: i <= j < |c.ps| && Reached(registry, c, j) ==> !BlindAt(c, j, entry)
  }

  lemma {:induction false} SightedNext(registry: Registry, c: Course, i: nat, entry: Entry)
    requires c.Valid() && i < |c.ps| && Sighted(registry, c, i, entry) && Reached(registry, c, i)
    ensures !BlindAt(c, i, entry) && Sighted(registry, c, i + 1, entry)
    ensures !StopsAt(registry, c, i) ==> Reached(registry, c, i + 1)
  {
  }

  /** Where none is, a plugin recorded DONE does not run and stays DONE. */
  lemma {:induction false} SightedStage(
    registry: Registry, s: Progress, stage: Stage, c: Course, i: nat, entry: Entry)
    requires c.Valid() && i <= |c.ps| && s.registry == RegistryAt(registry, c, i) && Reached(registry, c, i)
    requires Recorded(s.registry, entry) == Some(DONE) && !s.aborted
    requires Sighted(registry, c, i, entry)
    ensures
      var r := RunCourse(s, stage, c, i);
      Runs(r.events, entry) == Runs(s.events, entry) && Recorded(r.registry, entry) == Some(DONE)
    decreases |c.ps| - i
  {
    if i < |c.ps| {
      SightedNext(registry, c, i, entry);
      if c.ps[i].supported && !c.bs[i].checkRaises {
        SightedPlugin(s, stage, c.key, c.ps[i], c.bs[i], entry);
      }
      if StopsAt(registry, c, i) {
        StoppingPlugin(registry, s, stage, c, i);
      } else {
        var s' := PassedPlugin(registry, s, stage, c, i, entry);
        SightedStage(registry, s', stage, c, i + 1, entry);
      }
    }
  }

  /** A stage without an instance id records nothing, and is passed exactly when no plugin stops it. */
  lemma {:induction false} EarlyStage(s: Progress, stage: Stage, c: Course, i: nat, entry: Entry)
    requires c.Valid() && c.key == None && i <= |c.ps| && !s.aborted && !(s.reboot && c.allow)
    ensures
      var r := RunCourse(s, stage, c, i);
      && r.registry == s.registry && Runs(r.events, entry) == Runs(s.events, entry)
      && (!r.aborted && !(r.reboot && c.allow) <==> forall j :: i <= j < |c.ps| ==> !StopsAt(map[], c, j))
    decreases |c.ps| - i
  {
    if i < |c.ps| {
      StepRuns(s, stage, None, c.ps[i], c.bs[i], entry);
      if !StopsAt(map[], c, i) {
        var s' := if c.ps[i].supported then ExecPlugin(s, stage, None, c.ps[i], c.bs[i]) else s;
        EarlyStage(s', stage, c, i + 1, entry);
      }
    }
  }

  lemma {:induction false} EarlyRunStage(registry: Registry, events: seq<Event>, stage: Stage, c: Course, entry: Entry)
    returns (r: Progress)
    requires c.Valid() && c.key == None && Runs(events, entry) == 0
    ensures r == RunStage(registry, events, stage, c.key, c.allow, c.ps, c.bs)
    ensures r.registry == registry && Runs(r.events, entry) == 0
    ensures !r.aborted && !(r.reboot && c.allow) <==> Reached(map[], c, |c.ps|)
  {
    r := RunStage(registry, events, stage, c.key, c.allow, c.ps, c.bs);
    MarksRunNothing(events, [StageBegan(stage)], entry);
    EarlyStage(Progress(registry, events + [StageBegan(stage)], true, false, false), stage, c, 0, entry);
  }

  /* ---------- One boot ---------- */

  lemma {:induction false} FinishRunsNothing(cfg: Config, s: Progress, service: bool, entry: Entry)
    ensures Runs(Finish(cfg, s, service).events, entry) == Runs(s.events, entry)
    ensures Finish(cfg, s, service).registry == s.registry
  {
    MarksRunNothing(s.events, Closing(cfg, service, s.success, s.reboot && cfg.allowReboot), entry);
  }

  /** For the entry a boot is its MAIN stage, if it comes to that, and otherwise nothing. */
  lemma {:induction false} BootIsMain(registry: Registry, env: Env, entry: Entry) returns (s: Progress)
    requires env.Valid()
    ensures s.registry == registry && Runs(s.events, entry) == 0 && (StartsMain(env) ==> !s.aborted)
    ensures
      var r, main := Boot(registry, env), if StartsMain(env) then RunCourse(s, Main, MainOf(env), 0) else s;
      r.registry == main.registry && Runs(r.events, entry) == Runs(main.events, entry)
  {
    var cfg, allow := env.cfg, env.cfg.allowReboot;
    var c1 := Course(None, allow, cfg.preNetworking, env.preNetworking);
    var s1 := EarlyRunStage(registry, [], PreNetworking, c1, entry);
    s := s1;
    FinishRunsNothing(cfg, s1, false, entry);
    if !s1.aborted && !(s1.reboot && allow) {
      var c2 := Course(None, allow, cfg.preDiscovery, env.preDiscovery);
      var s2 := EarlyRunStage(s1.registry, s1.events, PreMetadataDiscovery, c2, entry);
      s := s2;
      FinishRunsNothing(cfg, s2, false, entry);
      if !s2.aborted && !(s2.reboot && allow) && env.discovery == Found {
        s := ProvisionIsMain(env, s2, entry);
        assert Boot(registry, env) == Provision(env, s2);
      }
    }
  }

  lemma {:induction false} ProvisionIsMain(env: Env, s2: Progress, entry: Entry) returns (s: Progress)
    requires env.Valid() && Runs(s2.events, entry) == 0 && !s2.aborted
    ensures s.registry == s2.registry && Runs(s.events, entry) == 0 && !s.aborted
    ensures
      var starts := !(env.cfg.reportStarted && env.startedRaises) && !env.idRaises;
      var r, main := Provision(env, s2), if starts then RunCourse(s, Main, MainOf(env), 0) else s;
      r.registry == main.registry && Runs(r.events, entry) == Runs(main.events, entry)
  {
    var cfg := env.cfg;
    MarksRunNothing(s2.events, [Started], entry);
    s := if cfg.reportStarted then s2.(events := s2.events + [Started]) else s2;
    if !((cfg.reportStarted && env.startedRaises) || env.idRaises) {
      MarksRunNothing(s.events, [StageBegan(Main)], entry);
      s := Progress(s.registry, s.events + [StageBegan(Main)], true, false, false);
      var r := RunCourse(s, Main, MainOf(env), 0);
      MarksRunNothing(r.events, [Cleanup], entry);
      var r' := r.(events := r.events + [Cleanup]);
      MarksRunNothing(r'.events, Maybe(cfg.reportCompleted && !r.success, Failed), entry);
      FinishRunsNothing(cfg, AfterMain(cfg, r'), true, entry);
    }
  }

  /** A blind plugin runs, DONE or not; and a plugin recorded DONE runs in no other way. */
  lemma {:induction false} BootRunsIff(registry: Registry, env: Env, entry: Entry)
    requires env.Valid()
    ensures
      var r := Boot(registry, env);
      && (RunsBlindly(registry, env, entry) ==> Runs(r.events, entry) > 0)
      && (Recorded(registry, entry) == Some(DONE) && !RunsBlindly(registry, env, entry) ==>
            Runs(r.events, entry) == 0 && Recorded(r.registry, entry) == Some(DONE))
  {
    var s := BootIsMain(registry, env, entry);
    if StartsMain(env) {
      var c := MainOf(env);
      if i :| 0 <= i < |env.main| && Reached(registry, c, i) && BlindAt(c, i, entry) {
        BlindStage(registry, s, Main, c, 0, i, entry);
      } else if Recorded(registry, entry) == Some(DONE) {
        SightedStage(registry, s, Main, c, 0, entry);
      }
    }
  }

  /* ---------- DONE over many boots ---------- */

  /** The registry that the k-th boot finds. */
  function RegistryOf(registry: Registry, envs: seq<Env>, k: nat): Registry
    requires k <= |envs| && forall env :: env in envs ==> env.Valid()
  {
    if k == 0 then registry else Boot(RegistryOf(registry, envs, k - 1), envs[k - 1]).registry
  }

  lemma {:induction false} RegistryOfRest(registry: Registry, envs: seq<Env>, k: nat)
    requires 0 < k <= |envs| && forall env :: env in envs ==> env.Valid()
    ensures RegistryOf(registry, envs, k) == RegistryOf(Boot(registry, envs[0]).registry, envs[1..], k - 1)
  {
    if k > 1 {
      RegistryOfRest(registry, envs, k - 1);
    }
  }

  /** Whether some boot runs the plugin blindly. */
  ghost predicate SomeBlind(registry: Registry, envs: seq<Env>, entry: Entry)
    requires forall env :: env in envs ==> env.Valid()
  {
    exists k :: 0 <= k < |envs| && RunsBlindly(RegistryOf(registry, envs, k), envs[k], entry)
  }

  lemma {:induction false} SomeBlindFirst(registry: Registry, envs: seq<Env>, entry: Entry)
    requires envs != [] && forall env :: env in envs ==> env.Valid()
    ensures SomeBlind(registry, envs, entry) <==>
      RunsBlindly(registry, envs[0], entry) || SomeBlind(Boot(registry, envs[0]).registry, envs[1..], entry)
  {
    var next := Boot(registry, envs[0]).registry;
    forall k | 0 < k < |envs|
      ensures RegistryOf(registry, envs, k) == RegistryOf(next, envs[1..], k - 1) && envs[k] == envs[1..][k - 1]
    {
      RegistryOfRest(registry, envs, k);
    }
    if RunsBlindly(registry, envs[0], entry) {
      assert RunsBlindly(RegistryOf(registry, envs, 0), envs[0], entry);
    }
    if k :| 0 <= k < |envs| - 1 && RunsBlindly(RegistryOf(next, envs[1..], k), envs[1..][k], entry) {
      assert RunsBlindly(RegistryOf(registry, envs, k + 1), envs[k + 1], entry);
    }
  }

  /** A blind run at any boot is a run. */
  lemma {:induction false} BlindBootsRun(registry: Registry, envs: seq<Env>, entry: Entry)
    requires (forall env :: env in envs ==> env.Valid()) && SomeBlind(registry, envs, entry)
    ensures Runs(Boots(registry, envs).events, entry) > 0
    decreases |envs|
  {
    var r := Boot(registry, envs[0]);
    SomeBlindFirst(registry, envs, entry);
    BootRunsIff(registry, envs[0], entry);
    RunsConcat(r.events, Boots(r.registry, envs[1..]).events, entry);
    if !RunsBlindly(registry, envs[0], entry) {
      BlindBootsRun(r.registry, envs[1..], entry);
    }
  }

  /** DONE is final over any boots of any instances, whatever the plugins do, exactly as long as
      no boot reaches the plugin with a read of its status that fails. */
  lemma {:induction false} DoneIsFinal(registry: Registry, envs: seq<Env>, entry: Entry)
    requires forall env :: env in envs ==> env.Valid()
    requires Recorded(registry, entry) == Some(DONE)
    ensures
      var h := Boots(registry, envs);
      && (Runs(h.events, entry) == 0 <==> !SomeBlind(registry, envs, entry))
      && (!SomeBlind(registry, envs, entry) ==> Recorded(h.registry, entry) == Some(DONE))
    decreases |envs|
  {
    if SomeBlind(registry, envs, entry) {
      BlindBootsRun(registry, envs, entry);
    } else if envs != [] {
      var r := Boot(registry, envs[0]);
      SomeBlindFirst(registry, envs, entry);
      BootRunsIff(registry, envs[0], entry);
      RunsConcat(r.events, Boots(r.registry, envs[1..]).events, entry);
      DoneIsFinal(r.registry, envs[1..], entry);
    }
  }

  /** No read of the status fails. */
  ghost predicate ReadsStatus(env: Env, entry: Entry)
    requires env.Valid()
  {
    forall i :: 0 <= i < |env.main| && EntryOf(KeyOf(env.id), env.cfg.main[i]) == Some(entry) ==> !env.main[i].readFails
  }

  /** In particular DONE is final when no read of that status fails. */
  lemma {:induction false} DoneIsFinalWhenRead(registry: Registry, envs: seq<Env>, entry: Entry)
    requires forall env :: env in envs ==> env.Valid() && ReadsStatus(env, entry)
    requires Recorded(registry, entry) == Some(DONE)
    ensures
      var h := Boots(registry, envs);
      Runs(h.events, entry) == 0 && Recorded(h.registry, entry) == Some(DONE)
  {
    DoneIsFinal(registry, envs, entry);
    forall k | 0 <= k < |envs|
      ensures !RunsBlindly(RegistryOf(registry, envs, k), envs[k], entry)
    {
      assert ReadsStatus(envs[k], entry);
    }
  }

  /* ---------- When DONE is lost ---------- */

  /** Whether the boot reaches the plugin blindly and records another status for it. */
  ghost predicate LosesStatus(registry: Registry, env: Env, entry: Entry)
    requires env.Valid()
  {
    StartsMain(env) && exists i :: 0 <= i < |env.main| && LosesAt(registry, MainOf(env), i, entry)
  }

  ghost predicate LosesAt(registry: Registry, c: Course, i: nat, entry: Entry)
    requires c.Valid() && i < |c.ps|
  {
    && Reached(registry, c, i) && BlindAt(c, i, entry)
    && c.bs[i].result.Returned? && c.bs[i].result.status != DONE && !c.bs[i].writeFails
  }

  lemma {:induction false} LosingPlugin(registry: Registry, s: Progress, c: Course, i: nat, entry: Entry)
    returns (s': Progress)
    requires c.Valid() && i < |c.ps| && s.registry == RegistryAt(registry, c, i) && Reached(registry, c, i)
    requires Recorded(s.registry, entry) == Some(DONE)
    ensures s' == if c.ps[i].supported && !c.bs[i].checkRaises then ExecPlugin(s, Main, c.key, c.ps[i], c.bs[i]) else s
    ensures Recorded(s'.registry, entry) != Some(DONE) <==> LosesAt(registry, c, i, entry)
  {
    s' := if c.ps[i].supported && !c.bs[i].checkRaises then ExecPlugin(s, Main, c.key, c.ps[i], c.bs[i]) else s;
  }

  /** The status changes in no other way. */
  lemma {:induction false} LosingStage(registry: Registry, s: Progress, c: Course, i: nat, entry: Entry)
    requires c.Valid() && i <= |c.ps| && s.registry == RegistryAt(registry, c, i) && Reached(registry, c, i)
    requires Recorded(s.registry, entry) == Some(DONE) && !s.aborted && Resume.Distinct(c.ps)
    ensures Recorded(RunCourse(s, Main, c, i).registry, entry) != Some(DONE)
       <==> exists j :: i <= j < |c.ps| && LosesAt(registry, c, j, entry)
    decreases |c.ps| - i
  {
    if i < |c.ps| {
      var s' := LosingPlugin(registry, s, c, i, entry);
      if StopsAt(registry, c, i) {
        StoppingPlugin(registry, s, Main, c, i);
        assert forall j :: i < j < |c.ps| ==> !LosesAt(registry, c, j, entry);
      } else {
        var s'' := PassedPlugin(registry, s, Main, c, i, entry);
        if LosesAt(registry, c, i, entry) {
          Resume.RunPluginsFrame(s', c.key.value, c.allow, c.ps, c.bs, i + 1, entry.name);
        } else {
          LosingStage(registry, s', c, i + 1, entry);
        }
      }
    }
  }

  lemma {:induction false} BootLosesIff(registry: Registry, env: Env, entry: Entry)
    requires env.Valid() && Resume.Distinct(env.cfg.main) && Recorded(registry, entry) == Some(DONE)
    ensures Recorded(Boot(registry, env).registry, entry) != Some(DONE) <==> LosesStatus(registry, env, entry)
  {
    var s := BootIsMain(registry, env, entry);
    if StartsMain(env) {
      LosingStage(registry, s, MainOf(env), 0, entry);
    }
  }

  /** The entry is DONE when the k-th boot begins. */
  predicate DoneAt(registry: Registry, envs: seq<Env>, k: nat, entry: Entry)
    requires k <= |envs| && forall env :: env in envs ==> env.Valid()
  {
    Recorded(RegistryOf(registry, envs, k), entry) == Some(DONE)
  }

  ghost predicate LosesIn(registry: Registry, envs: seq<Env>, k: nat, entry: Entry)
    requires k < |envs| && forall env :: env in envs ==> env.Valid()
  {
    LosesStatus(RegistryOf(registry, envs, k), envs[k], entry)
  }

  /** Plugins with distinct names: the entry is DONE after each of the first n boots exactly when
      none of them reaches its plugin blindly and records another status. */
  lemma {:induction false} DoneIsLostIff(registry: Registry, envs: seq<Env>, n: nat, entry: Entry)
    requires forall env :: env in envs ==> env.Valid() && Resume.Distinct(env.cfg.main)
    requires Recorded(registry, entry) == Some(DONE) && n <= |envs|
    ensures (forall k :: 0 <= k <= n ==> DoneAt(registry, envs, k, entry))
       <==> (forall k :: 0 <= k < n ==> !LosesIn(registry, envs, k, entry))
  {
    if forall k :: 0 <= k <= n ==> DoneAt(registry, envs, k, entry) {
      forall k | 0 <= k < n
        ensures !LosesIn(registry, envs, k, entry)
      {
        DoneLostIn(registry, envs, k, entry);
      }
    }
    if forall k :: 0 <= k < n ==> !LosesIn(registry, envs, k, entry) {
      forall k | 0 <= k <= n
        ensures DoneAt(registry, envs, k, entry)
      {
        DoneIsKept(registry, envs, k, entry);
      }
    }
  }

  lemma {:induction false} DoneIsKept(registry: Registry, envs: seq<Env>, n: nat, entry: Entry)
    requires forall env :: env in envs ==> env.Valid() && Resume.Distinct(env.cfg.main)
    requires Recorded(registry, entry) == Some(DONE) && n <= |envs|
    requires forall k :: 0 <= k < n ==> !LosesIn(registry, envs, k, entry)
    ensures DoneAt(registry, envs, n, entry)
  {
    if n > 0 {
      DoneIsKept(registry, envs, n - 1, entry);
      DoneLostIn(registry, envs, n - 1, entry);
    }
  }

  lemma {:induction false} DoneLostIn(registry: Registry, envs: seq<Env>, k: nat, entry: Entry)
    requires forall env :: env in envs ==> env.Valid() && Resume.Distinct(env.cfg.main)
    requires k < |envs| && DoneAt(registry, envs, k, entry)
    ensures DoneAt(registry, envs, k + 1, entry) <==> !LosesIn(registry, envs, k, entry)
  {
    assert envs[k] in envs;
    BootLosesIff(RegistryOf(registry, envs, k), envs[k], entry);
  }

  /** One boot with a failing read, and a plugin that returns another status than DONE. */
  lemma {:induction false} DoneIsLost(registry: Registry, env: Env, id: string, entry: Entry)
    requires entry == Entry(InstanceKey(id), "plugin") && Recorded(registry, entry) == Some(DONE)
    requires env == Env(
      Config(true, false, false, false, [], [], [Plugin("plugin", true)]), [], [], Found, false, false, Some(id),
      [Behaviour(false, true, Returned(NEXT_BOOT, false), false)], false)
    ensures Runs(Boot(registry, env).events, entry) > 0
    ensures Recorded(Boot(registry, env).registry, entry) != Some(DONE)
  {
    var c := MainOf(env);
    assert Reached(registry, c, 0) && BlindAt(c, 0, entry);
    BootRunsIff(registry, env, entry);
    assert LosesAt(registry, c, 0, entry);
    BootLosesIff(registry, env, entry);
  }

  /* ---------- Isolation of instances ---------- */

  lemma {:induction false} RunPluginsIsolated(
    s: Progress, stage: Stage, key: Option<string>, allow: bool, ps: seq<Plugin>, bs: seq<Behaviour>, i: nat, entry: Entry)
    requires i <= |ps| == |bs| && (key.Some? ==> key.value != entry.key)
    ensures Recorded(RunPlugins(s, stage, key, allow, ps, bs, i).registry, entry) == Recorded(s.registry, entry)
    decreases |ps| - i
  {
    if i == |ps| || bs[i].checkRaises {
    } else if !ps[i].supported {
      RunPluginsIsolated(s, stage, key, allow, ps, bs, i + 1, entry);
    } else {
      var s' := ExecPlugin(s, stage, key, ps[i], bs[i]);
      if !(s'.aborted || (s'.reboot && allow)) {
        RunPluginsIsolated(s', stage, key, allow, ps, bs, i + 1, entry);
      }
    }
  }

  lemma {:induction false} RunStageIsolated(
    registry: Registry, events: seq<Event>, stage: Stage, key: Option<string>, allow: bool,
    ps: seq<Plugin>, bs: seq<Behaviour>, entry: Entry)
    requires |ps| == |bs| && (key.Some? ==> key.value != entry.key)
    ensures Recorded(RunStage(registry, events, stage, key, allow, ps, bs).registry, entry) == Recorded(registry, entry)
  {
    RunPluginsIsolated(Progress(registry, events + [StageBegan(stage)], true, false, false), stage, key, allow, ps, bs, 0, entry);
  }

  lemma {:induction false} BootIsolated(registry: Registry, env: Env, entry: Entry)
    requires env.Valid() && (env.id.Some? ==> InstanceKey(env.id.value) != entry.key)
    ensures Recorded(Boot(registry, env).registry, entry) == Recorded(registry, entry)
  {
    var cfg, allow := env.cfg, env.cfg.allowReboot;
    RunStageIsolated(registry, [], PreNetworking, None, allow, cfg.preNetworking, env.preNetworking, entry);
    var s1 := RunStage(registry, [], PreNetworking, None, allow, cfg.preNetworking, env.preNetworking);
    if !(s1.aborted || (s1.reboot && allow)) {
      RunStageIsolated(s1.registry, s1.events, PreMetadataDiscovery, None, allow, cfg.preDiscovery, env.preDiscovery, entry);
      var s2 := RunStage(s1.registry, s1.events, PreMetadataDiscovery, None, allow, cfg.preDiscovery, env.preDiscovery);
      var events := if cfg.reportStarted then s2.events + [Started] else s2.events;
      RunStageIsolated(s2.registry, events, Main, KeyOf(env.id), allow, cfg.main, env.main, entry);
    }
  }

  /** Boots of other instances leave what an instance recorded alone. */
  lemma {:induction false} InstancesAreIsolated(registry: Registry, envs: seq<Env>, entry: Entry)
    requires forall env :: env in envs ==>
      env.Valid() && (env.id.Some? ==> InstanceKey(env.id.value) != entry.key)
    ensures Recorded(Boots(registry, envs).registry, entry) == Recorded(registry, entry)
    decreases |envs|
  {
    if envs != [] {
      BootIsolated(registry, envs[0], entry);
      InstancesAreIsolated(Boot(registry, envs[0]).registry, envs[1..], entry);
    }
  }
}
