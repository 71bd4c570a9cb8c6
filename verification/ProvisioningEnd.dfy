/** How one boot ends: the reboot decision, the reports to the metadata service and the clean-up. */
module ProvisioningEnd {
  import opened Basics
  import opened Provisioning

  predicate Asks(e: Event) {
    e.Ran? && e.result.Returned? && e.result.reboot
  }

  /** A MAIN plugin that raised, or whose status could not be stored. */
  predicate Fails(e: Event) {
    e.Ran? && e.stage == Main && !(e.result.Returned? && (e.at.Some? ==> e.stored))
  }

  predicate IsMark(e: Event) {
    !e.Ran? && (e.StageBegan? ==> e.stage == Main)
  }

  /** What matters of a trace at the end of a run: whether a plugin asked for a reboot or a MAIN
      plugin failed, whether nothing ran after asking, and the trace without plugin runs and the
      starts of the early stages. */
  datatype Digest = Digest(asked: bool, failed: bool, ordered: bool, marks: seq<Event>)

  function Push(d: Digest, e: Event): Digest {
    Digest(d.asked || Asks(e), d.failed || Fails(e), d.ordered && !(d.asked && e.Ran?),
           d.marks + if IsMark(e) then [e] else [])
  }

  function DigestOf(events: seq<Event>): Digest {
    if events == [] then Digest(false, false, true, [])
    else Push(DigestOf(events[..|events| - 1]), events[|events| - 1])
  }

  lemma {:induction false} DigestAppend(events: seq<Event>, e: Event)
    ensures DigestOf(events + [e]) == Push(DigestOf(events), e)
  {
    assert (events + [e])[..|events|] == events;
  }

  lemma {:induction false} DigestMembers(events: seq<Event>)
    ensures DigestOf(events).asked <==> exists e :: e in events && Asks(e)
    ensures DigestOf(events).failed <==> exists e :: e in events && Fails(e)
    ensures forall e :: e in DigestOf(events).marks <==> e in events && IsMark(e)
  {
    if events != [] {
      var init, last := events[..|events| - 1], events[|events| - 1];
      DigestMembers(init);
      assert forall e :: e in events <==> e in init || e == last;
    }
  }

  lemma {:induction false} DigestOrder(events: seq<Event>)
    ensures DigestOf(events).asked <==> exists i :: 0 <= i < |events| && Asks(events[i])
    ensures DigestOf(events).ordered <==>
              forall i, j :: 0 <= i < j < |events| && Asks(events[i]) ==> !events[j].Ran?
  {
    if events != [] {
      var n := |events| - 1;
      DigestOrder(events[..n]);
      assert DigestOf(events[..n]).asked <==> exists i :: 0 <= i < n && Asks(events[i]);
    }
  }

  /** What every point of a stage keeps. */
  ghost predicate StageInv(s: Progress, stage: Stage, allow: bool) {
    var d := DigestOf(s.events);
    && (if stage == Main then s.success <==> !d.failed else !d.failed)
    && (allow ==> d.ordered && (s.reboot <==> d.asked))
  }

  lemma {:induction false} ExecPluginKeepsInv(
    s: Progress, stage: Stage, key: Option<string>, allow: bool, p: Plugin, b: Behaviour)
    requires StageInv(s, stage, allow) && (allow ==> !s.reboot)
    ensures
      var r := ExecPlugin(s, stage, key, p, b);
      StageInv(r, stage, allow) && DigestOf(r.events).marks == DigestOf(s.events).marks
  {
    var r := ExecPlugin(s, stage, key, p, b);
    if r.events != s.events {
      DigestAppend(s.events, r.events[|s.events|]);
    }
  }

  lemma {:induction false} RunPluginsKeepsInv(
    s: Progress, stage: Stage, key: Option<string>, allow: bool, ps: seq<Plugin>, bs: seq<Behaviour>, i: nat)
    requires i <= |ps| == |bs| && StageInv(s, stage, allow) && (allow ==> !s.reboot)
    ensures
      var r := RunPlugins(s, stage, key, allow, ps, bs, i);
      StageInv(r, stage, allow) && DigestOf(r.events).marks == DigestOf(s.events).marks
    decreases |ps| - i
  {
    if i == |ps| || bs[i].checkRaises {
    } else if !ps[i].supported {
      RunPluginsKeepsInv(s, stage, key, allow, ps, bs, i + 1);
    } else {
      ExecPluginKeepsInv(s, stage, key, allow, ps[i], bs[i]);
      var s' := ExecPlugin(s, stage, key, ps[i], bs[i]);
      if !(s'.aborted || (s'.reboot && allow)) {
        RunPluginsKeepsInv(s', stage, key, allow, ps, bs, i + 1);
      }
    }
  }

  lemma {:induction false} RunStageDigest(
    registry: Registry, events: seq<Event>, stage: Stage, key: Option<string>, allow: bool,
    ps: seq<Plugin>, bs: seq<Behaviour>)
    requires |ps| == |bs|
    requires var d := DigestOf(events); !d.failed && (allow ==> !d.asked && d.ordered)
    ensures
      var r := RunStage(registry, events, stage, key, allow, ps, bs);
      && StageInv(r, stage, allow)
      && DigestOf(r.events).marks == DigestOf(events).marks + if stage == Main then [StageBegan(Main)] else []
  {
    DigestAppend(events, StageBegan(stage));
    RunPluginsKeepsInv(Progress(registry, events + [StageBegan(stage)], true, false, false), stage, key, allow, ps, bs, 0);
  }

  function Opening(cfg: Config): seq<Event> {
    Maybe(cfg.reportStarted, Started)
  }

  /** What `configure_host` promises of the reports, the clean-up and the reboot.  A run that
      reaches its end asks for a reboot exactly when one is allowed and a plugin wanted it;
      success is reported exactly when no MAIN plugin failed and no reboot is due; failure exactly
      when one failed; a MAIN stage that began is followed by one clean-up, also when the run crashes. */
  ghost predicate EndsWell(cfg: Config, r: BootEnd) {
    EndsAs(cfg, DigestOf(r.events), r.finished, r.rebooting, StageBegan(Main) in DigestOf(r.events).marks)
  }

  ghost predicate EndsAs(cfg: Config, d: Digest, finished: bool, rebooting: bool, served: bool) {
    && (cfg.allowReboot ==> d.ordered)
    && (rebooting <==> finished && cfg.allowReboot && d.asked)
    && if served && finished then
         d.marks == Served(cfg) + Maybe(cfg.reportCompleted && d.failed, Failed) + Closing(cfg, true, !d.failed, rebooting)
       else if served then d.marks == Served(cfg)
       else if finished then d.marks == Closing(cfg, false, true, rebooting)
       else d.marks == [] || d.marks == Opening(cfg)
  }

  /** The start of every trace in which the MAIN stage began. */
  function Served(cfg: Config): seq<Event> {
    Opening(cfg) + [StageBegan(Main), Cleanup]
  }

  lemma {:induction false} EndsAsServed(cfg: Config, r: BootEnd, served: bool)
    requires EndsAs(cfg, DigestOf(r.events), r.finished, r.rebooting, served)
    ensures EndsWell(cfg, r)
  {
    var d := DigestOf(r.events);
    if served {
      assert d.marks[|Opening(cfg)|] == StageBegan(Main);
    }
  }

  lemma {:induction false} DigestMaybe(events: seq<Event>, b: bool, e: Event)
    requires IsMark(e)
    ensures DigestOf(events + Maybe(b, e)) == var d := DigestOf(events); d.(marks := d.marks + Maybe(b, e))
  {
    if b {
      DigestAppend(events, e);
    } else {
      assert events + [] == events;
      assert DigestOf(events).marks + [] == DigestOf(events).marks;
    }
  }

  lemma {:induction false} DigestClosing(cfg: Config, events: seq<Event>, service: bool, success: bool, rebooting: bool)
    ensures DigestOf(events + Closing(cfg, service, success, rebooting))
         == var d := DigestOf(events); d.(marks := d.marks + Closing(cfg, service, success, rebooting))
  {
    if rebooting {
      DigestAppend(events, Reboot);
    } else {
      var reports := service && cfg.reportCompleted && success;
      var a, b, m := Maybe(reports, Completed), Maybe(cfg.stopOnExit, Terminated), DigestOf(events).marks;
      DigestMaybe(events, reports, Completed);
      DigestMaybe(events + a, cfg.stopOnExit, Terminated);
      assert events + (a + b) == (events + a) + b;
      assert m + (a + b) == (m + a) + b;
    }
  }

  /** The shape of a trace once `cleanup` was called. */
  ghost predicate CleanedUp(cfg: Config, d: Digest, success: bool, reboot: bool) {
    && (success <==> !d.failed)
    && (cfg.allowReboot ==> d.ordered && (reboot <==> d.asked))
    && d.marks == Served(cfg)
  }

  lemma {:induction false} MainCleanedUp(cfg: Config, s: Progress)
    requires StageInv(s, Main, cfg.allowReboot)
    requires DigestOf(s.events).marks == Opening(cfg) + [StageBegan(Main)]
    ensures CleanedUp(cfg, DigestOf(s.events + [Cleanup]), s.success, s.reboot)
  {
    DigestAppend(s.events, Cleanup);
    assert Served(cfg) == Opening(cfg) + [StageBegan(Main)] + [Cleanup];
  }

  lemma {:induction false} CleanedUpEnds(cfg: Config, s: Progress)
    requires CleanedUp(cfg, DigestOf(s.events), s.success, s.reboot)
    ensures EndsWell(cfg, Finish(cfg, AfterMain(cfg, s), true))
    ensures EndsWell(cfg, Crash(s))
  {
    EndsAsServed(cfg, Crash(s), true);
    DigestMaybe(s.events, cfg.reportCompleted && !s.success, Failed);
    DigestClosing(cfg, AfterMain(cfg, s).events, true, s.success, s.reboot && cfg.allowReboot);
    EndsAsServed(cfg, Finish(cfg, AfterMain(cfg, s), true), true);
  }

  lemma {:induction false} ProvisionEndsWell(env: Env, s: Progress)
    requires env.Valid() && StageInv(s, PreMetadataDiscovery, env.cfg.allowReboot)
    requires DigestOf(s.events).marks == [] && (env.cfg.allowReboot ==> !s.reboot)
    ensures EndsWell(env.cfg, Provision(env, s))
  {
    var cfg := env.cfg;
    DigestAppend(s.events, Started);
    var s1 := if cfg.reportStarted then s.(events := s.events + [Started]) else s;
    assert DigestOf(s1.events).marks == Opening(cfg);
    if (cfg.reportStarted && env.startedRaises) || env.idRaises {
      EndsAsServed(cfg, Crash(s1), false);
    } else {
      RunStageDigest(s1.registry, s1.events, Main, KeyOf(env.id), cfg.allowReboot, cfg.main, env.main);
      var s2 := RunStage(s1.registry, s1.events, Main, KeyOf(env.id), cfg.allowReboot, cfg.main, env.main);
      MainCleanedUp(cfg, s2);
      CleanedUpEnds(cfg, s2.(events := s2.events + [Cleanup]));
    }
  }

  lemma {:induction false} EndOfRun(registry: Registry, env: Env)
    requires env.Valid()
    ensures EndsWell(env.cfg, Boot(registry, env))
  {
    var allow := env.cfg.allowReboot;
    RunStageDigest(registry, [], PreNetworking, None, allow, env.cfg.preNetworking, env.preNetworking);
    var s1 := RunStage(registry, [], PreNetworking, None, allow, env.cfg.preNetworking, env.preNetworking);
    if s1.aborted || (s1.reboot && allow) {
      EarlyEnds(env.cfg, s1, PreNetworking);
    } else {
      RunStageDigest(s1.registry, s1.events, PreMetadataDiscovery, None, allow, env.cfg.preDiscovery, env.preDiscovery);
      var s2 := RunStage(s1.registry, s1.events, PreMetadataDiscovery, None, allow, env.cfg.preDiscovery, env.preDiscovery);
      if s2.aborted || (s2.reboot && allow) || env.discovery != Found {
        EarlyEnds(env.cfg, s2, PreMetadataDiscovery);
      } else {
        ProvisionEndsWell(env, s2);
      }
    }
  }

  lemma {:induction false} EarlyEnds(cfg: Config, s: Progress, stage: Stage)
    requires stage != Main && StageInv(s, stage, cfg.allowReboot) && DigestOf(s.events).marks == []
    ensures EndsWell(cfg, Crash(s)) && EndsWell(cfg, Finish(cfg, s, false))
  {
    DigestClosing(cfg, s.events, false, s.success, s.reboot && cfg.allowReboot);
    EndsAsServed(cfg, Crash(s), false);
    EndsAsServed(cfg, Finish(cfg, s, false), false);
  }

  /** The same, read off the trace itself. */
  lemma {:induction false} EndOfRunEvents(registry: Registry, env: Env)
    requires env.Valid()
    ensures
      var r := Boot(registry, env);
      && (Reboot in r.events <==> r.finished && env.cfg.allowReboot && exists e :: e in r.events && Asks(e))
      && (Reboot in r.events ==>
            forall i, j :: 0 <= i < j < |r.events| && Asks(r.events[i]) ==> !r.events[j].Ran?)
      && (Completed in r.events <==>
            && r.finished && StageBegan(Main) in r.events && env.cfg.reportCompleted
            && Reboot !in r.events && !(exists e :: e in r.events && Fails(e)))
      && (Failed in r.events <==>
            && r.finished && StageBegan(Main) in r.events && env.cfg.reportCompleted
            && exists e :: e in r.events && Fails(e))
      && (Cleanup in r.events <==> StageBegan(Main) in r.events)
  {
    EndOfRun(registry, env);
    var r := Boot(registry, env);
    DigestMembers(r.events);
    DigestOrder(r.events);
    var m := DigestOf(r.events).marks;
    MarksRead(env.cfg, DigestOf(r.events), r.finished, r.rebooting, StageBegan(Main) in m);
    assert forall e :: IsMark(e) ==> (e in m <==> e in r.events);
  }

  lemma {:induction false} MarksRead(cfg: Config, d: Digest, finished: bool, rebooting: bool, served: bool)
    requires EndsAs(cfg, d, finished, rebooting, served)
    ensures Reboot in d.marks <==> rebooting
    ensures Completed in d.marks <==> finished && served && cfg.reportCompleted && !d.failed && !rebooting
    ensures Failed in d.marks <==> finished && served && cfg.reportCompleted && d.failed
    ensures Cleanup in d.marks <==> served
  {
    if finished {
      if rebooting {
        assert d.marks[|d.marks| - 1] == Reboot;
      } else {
        assert Completed in Closing(cfg, served, !d.failed, rebooting) <==> served && cfg.reportCompleted && !d.failed;
      }
    }
  }
}
