/**
 Creation of a network team with rollback, under nested retries.

 Every call to the management interface is atomic: it takes effect or raises and changes
 nothing.  A retried call that meets f faults in a row before the interface would let it
 through comes through exactly when it is possible at all and the retries outlast the faults.
 */
module Teams {
  import opened Basics
  import Retry

  /* ---------- Settings ---------- */

  const MODE_STATIC := 0
  const MODE_SWITCH_INDEPENDENT := 1
  const MODE_LACP := 2

  const ALGORITHM_TRANSPORT_PORTS := 0
  const ALGORITHM_IP_ADDRESSES := 2
  const ALGORITHM_MAC_ADDRESSES := 3
  const ALGORITHM_DYNAMIC := 5

  const TEAM_MODE_MAP: map<string, int> := map[
    "802.3ad" := MODE_LACP, "balance-rr" := MODE_STATIC, "active-backup" := MODE_SWITCH_INDEPENDENT,
    "balance-xor" := MODE_STATIC, "balance-tlb" := MODE_SWITCH_INDEPENDENT, "balance-alb" := MODE_SWITCH_INDEPENDENT]

  const LB_ALGO_MAP: map<string, int> := map[
    "layer2" := ALGORITHM_MAC_ADDRESSES, "layer2+3" := ALGORITHM_IP_ADDRESSES,
    "layer3+4" := ALGORITHM_TRANSPORT_PORTS, "encap2+3" := ALGORITHM_IP_ADDRESSES,
    "encap3+4" := ALGORITHM_TRANSPORT_PORTS]

  const LACP_RATE_MAP: map<string, int> := map["fast" := 1, "slow" := 0]

  /** The LacpTimer property as it ends up on the team; the slow rate is 0, which counts as unset. */
  datatype Timer = Unset | Rate(rate: int) | Text(text: string)

  datatype Settings = Settings(mode: int, algorithm: int, timer: Timer, nicName: string)

  datatype Request = Request(
    name: string, mode: string, algorithm: Option<string>, members: seq<string>,
    nicName: Option<string>, vlan: Option<int>, lacpTimer: Option<string>)

  function TimerOf(lacpTimer: Option<string>, mode: int): Option<Timer> {
    if lacpTimer.None? then Some(Unset)
    else if mode == MODE_LACP then
      if lacpTimer.value !in LACP_RATE_MAP then None
      else if LACP_RATE_MAP[lacpTimer.value] == 0 then Some(Unset)
      else Some(Rate(LACP_RATE_MAP[lacpTimer.value]))
    else Some(if lacpTimer.value == "" then Unset else Text(lacpTimer.value))
  }

  function SettingsOf(req: Request): Option<Settings> {
    if req.mode !in TEAM_MODE_MAP then None
    else if req.algorithm.Some? && req.algorithm.value !in LB_ALGO_MAP then None
    else
      var mode := TEAM_MODE_MAP[req.mode];
      match TimerOf(req.lacpTimer, mode)
      case None => None
      case Some(timer) =>
        Some(Settings(mode, if req.algorithm.Some? then LB_ALGO_MAP[req.algorithm.value] else ALGORITHM_DYNAMIC, timer,
                      if req.nicName.Some? && req.nicName.value != "" then req.nicName.value else req.name))
  }

  /** Which requests can be met at all, and with which settings: mode 2 is LACP, 1 is independent of
      the switch and 0 static; without an algorithm it is the dynamic one, 5; the timer of an LACP
      team is set by the fast rate only; and the NIC takes the name of the team if it has none. */
  lemma {:induction false} SettingsMeaning(req: Request)
    ensures SettingsOf(req).Some? <==>
      && req.mode in {"802.3ad", "balance-rr", "active-backup", "balance-xor", "balance-tlb", "balance-alb"}
      && (req.algorithm.Some? ==>
            req.algorithm.value in {"layer2", "layer2+3", "layer3+4", "encap2+3", "encap3+4"})
      && (req.mode == "802.3ad" && req.lacpTimer.Some? ==> req.lacpTimer.value in {"slow", "fast"})
    ensures SettingsOf(req).Some? ==>
      var s := SettingsOf(req).value;
      && s.mode == (if req.mode == "802.3ad" then 2 else if req.mode in {"balance-rr", "balance-xor"} then 0 else 1)
      && s.algorithm == (
           if req.algorithm.None? then 5
           else if req.algorithm.value == "layer2" then 3
           else if req.algorithm.value in {"layer2+3", "encap2+3"} then 2 else 0)
      && s.timer == (
           if req.lacpTimer.None? || req.lacpTimer.value == "" then Unset
           else if req.mode != "802.3ad" then Text(req.lacpTimer.value)
           else if req.lacpTimer.value == "fast" then Rate(1) else Unset)
      && s.nicName == (if req.nicName.None? || req.nicName.value == "" then req.name else req.nicName.value)
  {
  }

  /* ---------- Teams and weather ---------- */

  datatype Team = Team(settings: Settings, members: seq<string>, vlan: Option<int>)

  /** What one attempt of `create_team` meets: the adapter with the MAC address, if the lookup
      finds one; the faults before each call; and whether the team's NIC can be queried. */
  datatype Weather = Weather(
    primary: Option<string>, create: nat, adds: seq<nat>, vlan: nat, nicFound: bool, wait: nat, delete: nat)

  const CALL_RETRIES := 3
  const WAIT_RETRIES := 10
  const CREATE_RETRIES := 5

  predicate Passes(possible: bool, faults: nat, retries: nat) {
    possible && faults <= retries
  }

  function Calls(possible: bool, faults: nat, retries: nat): nat {
    if possible then Min(faults, retries) + 1 else retries + 1
  }

  /** A retried call, as the decorator makes it. */
  method RetriedCall(possible: bool, faults: nat, retries: nat) returns (ok: bool, calls: nat)
    ensures ok == Passes(possible, faults, retries)
    ensures calls == Calls(possible, faults, retries)
  {
    calls := 0;
    while true
      invariant calls <= retries && (possible ==> calls <= faults)
      decreases retries - calls
    {
      calls := calls + 1;
      if possible && calls > faults {
        return true, calls;
      }
      if retries - (calls - 1) == 0 {
        return false, calls;
      }
    }
  }

  /** The calls a retried function with these faults makes. */
  function Script(possible: bool, faults: nat, retries: nat): seq<Retry.Call> {
    var failures := seq(if possible then faults else retries + 1, _ => Retry.Call(Retry.RaisesExpected, 0.0));
    failures + [Retry.Call(Retry.Returns, 0.0)]
  }

  /** It is the decorator's run on that script. */
  lemma {:induction false} RetriedCallRefines(possible: bool, faults: nat, retries: nat)
    ensures
      var r := Retry.RunOf(Retry.Config(Some(retries), 0.0, 1.0, 1.0), Script(possible, faults, retries));
      && (r.end == Retry.Returned <==> Passes(possible, faults, retries))
      && r.calls == Calls(possible, faults, retries)
  {
    var script := Script(possible, faults, retries);
    var failures := |script| - 1;
    assert script[..failures] == seq(failures, _ => Retry.Call(Retry.RaisesExpected, 0.0));
    Retry.RecoversIff(Retry.Config(Some(retries), 0.0, 1.0, 1.0), script, failures, 0, 0.0);
  }

  /* ---------- One attempt, specified ---------- */

  datatype Attempt = Attempt(teams: map<string, Team>, ok: bool, creations: nat, undeleted: bool)

  /** The member loop from the i-th member on, and whether it was completed. */
  function AddMembers(team: Team, members: seq<string>, primary: string, adds: seq<nat>, i: nat): (Team, bool)
    requires i <= |members| == |adds|
    decreases |members| - i
  {
    if i == |members| then (team, true)
    else if members[i] == primary then AddMembers(team, members, primary, adds, i + 1)
    else if !Passes(members[i] !in team.members, adds[i], CALL_RETRIES) then (team, false)
    else AddMembers(team.(members := team.members + [members[i]]), members, primary, adds, i + 1)
  }

  /** Everything between the creation of the team and the end of `create_team`. */
  function Complete(team: Team, req: Request, primary: string, w: Weather): (Team, bool)
    requires |w.adds| == |req.members|
  {
    var r := AddMembers(team, req.members, primary, w.adds, 0);
    if !r.1 then r
    else if req.vlan.Some? && !Passes(true, w.vlan, CALL_RETRIES) then (r.0, false)
    else
      var t := if req.vlan.Some? then r.0.(vlan := req.vlan) else r.0;
      (t, w.nicFound && Passes(true, w.wait, WAIT_RETRIES))
  }

  /** One call of the undecorated `create_team`. */
  function AttemptTeam(teams: map<string, Team>, req: Request, w: Weather): Attempt
    requires |w.adds| == |req.members|
  {
    if w.primary.None? || w.primary.value !in req.members || SettingsOf(req).None? then Attempt(teams, false, 0, false)
    else
      var primary, possible := w.primary.value, req.name !in teams;
      var creations := Calls(possible, w.create, CALL_RETRIES);
      if !Passes(possible, w.create, CALL_RETRIES) then Attempt(teams, false, creations, false)
      else
        var r := Complete(Team(SettingsOf(req).value, [primary], None), req, primary, w);
        if r.1 then Attempt(teams[req.name := r.0], true, creations, false)
        else if Passes(true, w.delete, CALL_RETRIES) then Attempt(teams, false, creations, false)
        else Attempt(teams[req.name := r.0], false, creations, true)
  }

  datatype Creation = Creation(teams: map<string, Team>, ok: bool, attempts: nat, creations: nat, undeleted: bool)

  /** The decorated `create_team` from its i-th attempt on. */
  function CreateFrom(teams: map<string, Team>, req: Request, ws: seq<Weather>, i: nat): Creation
    requires i < |ws| && forall w :: w in ws ==> |w.adds| == |req.members|
    decreases |ws| - i
  {
    var a := AttemptTeam(teams, req, ws[i]);
    if a.ok || i + 1 == |ws| then Creation(a.teams, a.ok, 1, a.creations, a.undeleted)
    else
      var rest := CreateFrom(a.teams, req, ws, i + 1);
      Creation(rest.teams, rest.ok, rest.attempts + 1, a.creations + rest.creations, a.undeleted || rest.undeleted)
  }

  /* ---------- The manager ---------- */

  class NetLbfoTeamManager {
    var teams: map<string, Team>

    constructor (teams: map<string, Team>)
      ensures this.teams == teams
    {
      this.teams := teams;
    }

    method DeleteTeam(name: string, w: Weather) returns (ok: bool)
      modifies this
      ensures ok == Passes(name in old(teams), w.delete, CALL_RETRIES)
      ensures teams == if ok then old(teams) - {name} else old(teams)
    {
      var calls;
      ok, calls := RetriedCall(name in teams, w.delete, CALL_RETRIES);
      if ok {
        teams := teams - {name};
      }
    }

    /** The body of the try block in `create_team`. */
    method CompleteTeam(req: Request, primary: string, w: Weather) returns (ok: bool)
      requires |w.adds| == |req.members| && req.name in teams
      modifies this
      ensures
        var r := Complete(old(teams[req.name]), req, primary, w);
        teams == old(teams)[req.name := r.0] && ok == r.1
    {
      var name, calls := req.name, 0;
      var i := 0;
      while i < |req.members|
        invariant i <= |req.members| && name in teams
        invariant teams == old(teams)[name := teams[name]]
        invariant AddMembers(teams[name], req.members, primary, w.adds, i)
               == AddMembers(old(teams[name]), req.members, primary, w.adds, 0)
      {
        var member, team := req.members[i], teams[name];
        if member != primary {
          ok, calls := RetriedCall(member !in team.members, w.adds[i], CALL_RETRIES);
          if !ok {
            return false;
          }
          teams := teams[name := team.(members := team.members + [member])];
        }
        i := i + 1;
      }
      if req.vlan.Some? {
        ok, calls := RetriedCall(true, w.vlan, CALL_RETRIES);
        if !ok {
          return false;
        }
        teams := teams[name := teams[name].(vlan := req.vlan)];
      }
      if !w.nicFound {
        return false;
      }
      ok, calls := RetriedCall(true, w.wait, WAIT_RETRIES);
    }

    method TryCreateTeam(req: Request, w: Weather) returns (ok: bool, creations: nat, undeleted: bool)
      requires |w.adds| == |req.members|
      modifies this
      ensures Attempt(teams, ok, creations, undeleted) == AttemptTeam(old(teams), req, w)
    {
      ok, creations, undeleted := false, 0, false;
      if w.primary.None? || w.primary.value !in req.members {
        return;
      }
      var settings := SettingsOf(req);
      if settings.None? {
        return;
      }
      ok, creations := RetriedCall(req.name !in teams, w.create, CALL_RETRIES);
      if !ok {
        return;
      }
      ghost var before := teams;
      teams := teams[req.name := Team(settings.value, [w.primary.value], None)];
      ok := CompleteTeam(req, w.primary.value, w);
      if !ok {
        var deleted := DeleteTeam(req.name, w);
        undeleted := !deleted;
        assert deleted ==> teams == before;
      }
    }

    /** `create_team`, decorated with five retries; ws is the weather of its six attempts. */
    method CreateTeam(req: Request, ws: seq<Weather>)
      returns (ok: bool, attempts: nat, creations: nat, undeleted: bool)
      requires |ws| == CREATE_RETRIES + 1 && forall w :: w in ws ==> |w.adds| == |req.members|
      modifies this
      ensures Creation(teams, ok, attempts, creations, undeleted) == CreateFrom(old(teams), req, ws, 0)
    {
      ok, attempts, creations, undeleted := false, 0, 0, false;
      while true
        invariant attempts <= CREATE_RETRIES && !ok
        invariant
          var rest := CreateFrom(teams, req, ws, attempts);
          CreateFrom(old(teams), req, ws, 0) ==
            Creation(rest.teams, rest.ok, rest.attempts + attempts, rest.creations + creations, rest.undeleted || undeleted)
        decreases CREATE_RETRIES - attempts
      {
        var made, leftOver;
        ok, made, leftOver := TryCreateTeam(req, ws[attempts]);
        attempts, creations, undeleted := attempts + 1, creations + made, undeleted || leftOver;
        if ok || CREATE_RETRIES - (attempts - 1) == 0 {
          return;
        }
      }
    }
  }

  /* ---------- All or nothing ---------- */

  lemma {:induction false} AddedMembers(team: Team, members: seq<string>, primary: string, adds: seq<nat>, i: nat)
    requires i <= |members| == |adds|
    requires AddMembers(team, members, primary, adds, i).1
    ensures AddMembers(team, members, primary, adds, i).0
         == team.(members := team.members + Others(members[i..], primary))
    decreases |members| - i
  {
    if i == |members| {
      assert team.members + [] == team.members;
    } else {
      assert members[i..][1..] == members[i + 1..];
      if members[i] == primary {
        AddedMembers(team, members, primary, adds, i + 1);
      } else {
        var t := team.(members := team.members + [members[i]]);
        AddedMembers(t, members, primary, adds, i + 1);
      }
    }
  }

  /** The members but the primary one, in order. */
  function Others(members: seq<string>, primary: string): seq<string> {
    if members == [] then []
    else if members[0] == primary then Others(members[1..], primary)
    else [members[0]] + Others(members[1..], primary)
  }

  /** The team a request asks for. */
  ghost predicate AsRequested(team: Team, req: Request, primary: string) {
    && SettingsOf(req) == Some(team.settings) && primary in req.members
    && team.members == [primary] + Others(req.members, primary)
    && team.vlan == req.vlan
  }

  lemma {:induction false} AttemptSucceeds(teams: map<string, Team>, req: Request, w: Weather)
    requires |w.adds| == |req.members| && AttemptTeam(teams, req, w).ok
    ensures
      var r := AttemptTeam(teams, req, w).teams;
      req.name !in teams && req.name in r && r == teams[req.name := r[req.name]]
      && AsRequested(r[req.name], req, w.primary.value)
  {
    var team := Team(SettingsOf(req).value, [w.primary.value], None);
    AddedMembers(team, req.members, w.primary.value, w.adds, 0);
    assert req.members[0..] == req.members;
  }

  /* ---------- How an attempt ends, by its inputs ---------- */

  /** The request is one the manager can meet, and the team gets created. */
  predicate Starts(req: Request, w: Weather) {
    Valid(req, w) && w.create <= 3
  }

  predicate Valid(req: Request, w: Weather) {
    w.primary.Some? && w.primary.value in req.members && SettingsOf(req).Some?
  }

  /** The i-th member can be added: it is not on the team yet, and the retries outlast the faults. */
  predicate Joins(req: Request, w: Weather, i: nat)
    requires i < |req.members| == |w.adds|
  {
    Some(req.members[i]) == w.primary || (req.members[i] !in req.members[..i] && w.adds[i] <= 3)
  }

  /** Everything after the creation succeeds. */
  predicate Completes(req: Request, w: Weather)
    requires |w.adds| == |req.members|
  {
    && (forall i :: 0 <= i < |req.members| ==> Joins(req, w, i))
    && (req.vlan.Some? ==> w.vlan <= 3)
    && w.nicFound && w.wait <= 10
  }

  predicate Succeeds(req: Request, w: Weather)
    requires |w.adds| == |req.members|
  {
    Starts(req, w) && Completes(req, w)
  }

  /** The team is created and not completed, and the delete that should undo it gives up. */
  predicate LeavesTeam(req: Request, w: Weather)
    requires |w.adds| == |req.members|
  {
    Starts(req, w) && !Completes(req, w) && w.delete > 3
  }

  lemma {:induction false} AddMembersIff(team: Team, req: Request, w: Weather, i: nat)
    requires i <= |req.members| == |w.adds| && w.primary.Some?
    requires forall m :: m in team.members <==> m == w.primary.value || m in req.members[..i]
    ensures AddMembers(team, req.members, w.primary.value, w.adds, i).1
       <==> forall k :: i <= k < |req.members| ==> Joins(req, w, k)
    decreases |req.members| - i
  {
    if i < |req.members| {
      var m, primary := req.members[i], w.primary.value;
      assert req.members[..i + 1] == req.members[..i] + [m];
      if m == primary {
        AddMembersIff(team, req, w, i + 1);
      } else if Joins(req, w, i) {
        AddMembersIff(team.(members := team.members + [m]), req, w, i + 1);
      }
    }
  }

  /** An attempt while no team of that name exists. */
  lemma {:induction false} AttemptIff(teams: map<string, Team>, req: Request, w: Weather)
    requires |w.adds| == |req.members| && req.name !in teams
    ensures
      var a := AttemptTeam(teams, req, w);
      && (a.ok <==> Succeeds(req, w))
      && (a.undeleted <==> LeavesTeam(req, w))
      && (a.undeleted ==> !a.ok)
      && a.creations == (if Valid(req, w) then (if w.create < 4 then w.create + 1 else 4) else 0)
      && (req.name in a.teams <==> a.ok || a.undeleted)
      && a.teams - {req.name} == teams
      && (a.ok || a.undeleted || a.teams == teams)
  {
    if Starts(req, w) {
      AddMembersIff(Team(SettingsOf(req).value, [w.primary.value], None), req, w, 0);
    }
  }

  /** Every attempt from i to k, the k-th excluded, fails and leaves nothing behind. */
  predicate FailCleanly(req: Request, ws: seq<Weather>, i: nat, k: nat)
    requires i <= k <= |ws| && forall w :: w in ws ==> |w.adds| == |req.members|
  {
    forall j :: i <= j < k ==> !Succeeds(req, ws[j]) && !LeavesTeam(req, ws[j])
  }

  /** Some attempt succeeds before any leaves a team behind. */
  predicate SomeSucceeds(req: Request, ws: seq<Weather>, i: nat)
    requires i <= |ws| && forall w :: w in ws ==> |w.adds| == |req.members|
  {
    exists k :: i <= k < |ws| && Succeeds(req, ws[k]) && FailCleanly(req, ws, i, k)
  }

  /** Some attempt leaves a team behind before any succeeds. */
  predicate SomeLeavesTeam(req: Request, ws: seq<Weather>, i: nat)
    requires i <= |ws| && forall w :: w in ws ==> |w.adds| == |req.members|
  {
    exists k :: i <= k < |ws| && LeavesTeam(req, ws[k]) && FailCleanly(req, ws, i, k)
  }

  lemma {:induction false} LaterAttempts(req: Request, ws: seq<Weather>, i: nat)
    requires i < |ws| && forall w :: w in ws ==> |w.adds| == |req.members|
    ensures SomeSucceeds(req, ws, i) <==>
      Succeeds(req, ws[i]) || (!LeavesTeam(req, ws[i]) && SomeSucceeds(req, ws, i + 1))
    ensures SomeLeavesTeam(req, ws, i) <==>
      LeavesTeam(req, ws[i]) || (!Succeeds(req, ws[i]) && SomeLeavesTeam(req, ws, i + 1))
  {
    assert FailCleanly(req, ws, i, i);
    var fails := !Succeeds(req, ws[i]) && !LeavesTeam(req, ws[i]);
    forall k | i < k < |ws|
      ensures FailCleanly(req, ws, i, k) <==> fails && FailCleanly(req, ws, i + 1, k)
    {
    }
  }

  /** Creation returns normally exactly when some attempt succeeds before any leaves a team behind,
      and the team of that name is then the one asked for.  It raises otherwise, and the team is
      there all the same exactly when some attempt left it.  Every other team is as it was. */
  lemma {:induction false} AllOrNothing(teams: map<string, Team>, req: Request, ws: seq<Weather>, i: nat)
    requires i < |ws| && forall w :: w in ws ==> |w.adds| == |req.members|
    requires req.name !in teams
    ensures
      var c := CreateFrom(teams, req, ws, i);
      && c.teams - {req.name} == teams
      && (c.ok <==> SomeSucceeds(req, ws, i))
      && (c.ok ==> req.name in c.teams && exists primary :: AsRequested(c.teams[req.name], req, primary))
      && (!c.ok ==> (req.name in c.teams <==> SomeLeavesTeam(req, ws, i)))
    decreases |ws| - i
  {
    var a := AttemptTeam(teams, req, ws[i]);
    LaterAttempts(req, ws, i);
    AttemptIff(teams, req, ws[i]);
    if a.ok {
      AttemptSucceeds(teams, req, ws[i]);
      assert AsRequested(a.teams[req.name], req, ws[i].primary.value);
    } else if i + 1 < |ws| {
      if a.undeleted {
        NoSecondTeam(a.teams, req, ws, i + 1);
      } else {
        AllOrNothing(teams, req, ws, i + 1);
      }
    }
  }

  /** Attempts are made until one succeeds, and otherwise all. */
  lemma {:induction false} AttemptsMade(teams: map<string, Team>, req: Request, ws: seq<Weather>, i: nat)
    requires i < |ws| && forall w :: w in ws ==> |w.adds| == |req.members|
    requires req.name !in teams
    ensures
      var c := CreateFrom(teams, req, ws, i);
      && 1 <= c.attempts <= |ws| - i
      && (if c.ok then Succeeds(req, ws[i + c.attempts - 1]) && FailCleanly(req, ws, i, i + c.attempts - 1)
          else c.attempts == |ws| - i)
    decreases |ws| - i
  {
    var a := AttemptTeam(teams, req, ws[i]);
    AttemptIff(teams, req, ws[i]);
    if !a.ok && i + 1 < |ws| {
      if a.undeleted {
        AllAttempts(a.teams, req, ws, i + 1);
      } else {
        AttemptsMade(teams, req, ws, i + 1);
      }
    }
  }

  lemma {:induction false} AllAttempts(teams: map<string, Team>, req: Request, ws: seq<Weather>, i: nat)
    requires i < |ws| && forall w :: w in ws ==> |w.adds| == |req.members|
    requires req.name in teams
    ensures !CreateFrom(teams, req, ws, i).ok && CreateFrom(teams, req, ws, i).attempts == |ws| - i
    decreases |ws| - i
  {
    if i + 1 < |ws| {
      AllAttempts(teams, req, ws, i + 1);
    }
  }

  /** When the retries outlast the faults of every delete, a failed creation changes nothing. */
  lemma {:induction false} NothingOnError(teams: map<string, Team>, req: Request, ws: seq<Weather>)
    requires ws != [] && forall w :: w in ws ==> |w.adds| == |req.members| && w.delete <= CALL_RETRIES
    requires req.name !in teams && !CreateFrom(teams, req, ws, 0).ok
    ensures CreateFrom(teams, req, ws, 0).teams == teams
  {
    AllOrNothing(teams, req, ws, 0);
    var r := CreateFrom(teams, req, ws, 0).teams;
    assert r - {req.name} == r;
  }

  /** A NIC that never appears and a delete that gives up: the first attempt leaves its team. */
  lemma {:induction false} TeamLeftBehind(teams: map<string, Team>, req: Request, ws: seq<Weather>)
    requires "team" !in teams && |ws| == CREATE_RETRIES + 1
    requires req == Request("team", "802.3ad", None, ["nic"], None, None, None)
    requires forall w :: w in ws ==> w == Weather(Some("nic"), 0, [0], 0, false, 0, CALL_RETRIES + 1)
    ensures !CreateFrom(teams, req, ws, 0).ok && "team" in CreateFrom(teams, req, ws, 0).teams
  {
    assert ws[0] in ws && TimerOf(None, MODE_LACP) == Some(Unset);
    assert req.members[0] == "nic";
    assert LeavesTeam(req, ws[0]);
    LaterAttempts(req, ws, 0);
    AllOrNothing(teams, req, ws, 0);
  }

  /** While a team of that name exists nothing changes and every attempt fails. */
  lemma {:induction false} NoSecondTeam(teams: map<string, Team>, req: Request, ws: seq<Weather>, i: nat)
    requires i < |ws| && forall w :: w in ws ==> |w.adds| == |req.members|
    requires req.name in teams
    ensures
      var c := CreateFrom(teams, req, ws, i);
      c.teams == teams && !c.ok && !c.undeleted
    decreases |ws| - i
  {
    if i + 1 < |ws| {
      NoSecondTeam(teams, req, ws, i + 1);
    }
  }

  /** Six attempts and twenty-four creations at most. */
  lemma {:induction false} CreationsAreBounded(teams: map<string, Team>, req: Request, ws: seq<Weather>, i: nat)
    requires i < |ws| == CREATE_RETRIES + 1 && forall w :: w in ws ==> |w.adds| == |req.members|
    ensures
      var c := CreateFrom(teams, req, ws, i);
      1 <= c.attempts <= 6 - i && c.creations <= 4 * c.attempts
    decreases |ws| - i
  {
    if i + 1 < |ws| {
      CreationsAreBounded(AttemptTeam(teams, req, ws[i]).teams, req, ws, i + 1);
    }
  }

  /** With distinct members the team holds each of them exactly once. */
  lemma {:induction false} EveryMemberOnce(members: seq<string>, primary: string)
    requires primary in members && forall i, j :: 0 <= i < j < |members| ==> members[i] != members[j]
    ensures multiset([primary] + Others(members, primary)) == multiset(members)
  {
    OthersCount(members, primary);
    DistinctCount(members, primary);
    forall m: string
      ensures multiset([primary] + Others(members, primary))[m] == multiset(members)[m]
    {
    }
  }

  lemma {:induction false} OthersCount(members: seq<string>, primary: string)
    ensures multiset(Others(members, primary)) == multiset(members)[primary := 0]
  {
    if members != [] {
      OthersCount(members[1..], primary);
      assert members == [members[0]] + members[1..];
    }
  }

  lemma {:induction false} DistinctCount(members: seq<string>, m: string)
    requires m in members && forall i, j :: 0 <= i < j < |members| ==> members[i] != members[j]
    ensures multiset(members)[m] == 1
  {
    assert members == [members[0]] + members[1..];
    if members[0] != m {
      DistinctCount(members[1..], m);
    } else {
      assert m !in members[1..];
    }
  }
}
