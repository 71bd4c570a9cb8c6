/**
 The password handshake with the CloudStack password server, repeated at every boot.

 The plugin asks the server whether a password is pending, fetches it, acknowledges it and
 sets it for the user.  The server keeps its state between boots.
 */
module CloudStackPassword {
  import opened Basics
  import opened Text

  const BAD_REQUEST := "bad_request"
  const SAVED_PASSWORD := "saved_password"
  const NEXT_BOOT := 2

  /* ---------- The server ---------- */

  /** No password for the instance, one that was acknowledged, or one that is pending. */
  datatype Server = Nothing | Saved | Holds(password: string)

  /** The answer to a `send_my_password` request. */
  function Answer(s: Server): string {
    match s
    case Nothing => ""
    case Saved => SAVED_PASSWORD
    case Holds(p) => p
  }

  /** What happens to one request: it is answered; it is refused, or fails in the way the client
      expects; the server does not recognize it; or the connection breaks, before or after the
      server saw the request. */
  datatype Delivery = Answered | Refused | Unrecognized | Breaks(seen: bool)

  /** The password an answer carries, if it is neither empty nor one of the reserved words. */
  function Usable(answer: string): Option<string> {
    var content := Strip(answer);
    if content == "" || content == BAD_REQUEST || content == SAVED_PASSWORD then None else Some(content)
  }

  /** Which answers carry a password: what is left without white space at the ends, unless that is
      nothing or one of the two words of the protocol. */
  lemma {:induction false} UsableMeaning(answer: string) returns (a: nat, b: nat)
    ensures a <= b <= |answer| && AllSpace(answer[..a]) && AllSpace(answer[b..])
    ensures a < b ==> !IsSpace(answer[a]) && !IsSpace(answer[b - 1])
    ensures
      var content := answer[a..b];
      Usable(answer) == if content in {"", "bad_request", "saved_password"} then None else Some(content)
  {
    a, b := StripMeaning(answer);
  }

  /* ---------- One boot, specified ---------- */

  datatype Event =
    | Fetched(password: string)
    | Acknowledged
    | Applied(password: string, injected: bool)

  /** The state of the handshake: the server, what happened, the requests sent, and whether an
      exception ended the plugin. */
  datatype State = State(server: Server, trace: seq<Event>, requests: nat, raised: bool)

  /** The loop of `_get_password` from its i-th request on. */
  function GetPassword(s: State, ds: seq<Delivery>, i: nat): (State, Option<string>)
    requires i <= |ds|
    decreases |ds| - i
  {
    if i == |ds| then (s, None)
    else
      var s' := s.(requests := s.requests + 1);
      match ds[i]
      case Breaks(_) => (s'.(raised := true), None)
      case Unrecognized => (s', None)
      case Refused => GetPassword(s', ds, i + 1)
      case Answered =>
        if Strip(Answer(s.server)) == "" then GetPassword(s', ds, i + 1)
        else
          match Usable(Answer(s.server))
          case None => (s', None)
          case Some(p) => (s'.(trace := s.trace + [Fetched(p)]), Some(p))
  }

  /** The loop of `_delete_password` from its i-th request on. */
  function DeletePassword(s: State, ds: seq<Delivery>, i: nat): State
    requires i <= |ds|
    decreases |ds| - i
  {
    if i == |ds| then s
    else
      var s' := s.(requests := s.requests + 1);
      match ds[i]
      case Breaks(seen) => State(if seen then Saved else s.server, s.trace + (if seen then [Acknowledged] else []), s'.requests, true)
      case Refused => DeletePassword(s', ds, i + 1)
      case Unrecognized => DeletePassword(s', ds, i + 1)
      case Answered => State(Saved, s.trace + [Acknowledged], s'.requests, false)
  }

  /** The circumstances of a boot: the deliveries of the three loops, the user, whether setting its
      password succeeds, and the passwords at hand when none is injected. */
  datatype Boot = Boot(
    issued: Option<string>, changed: seq<Delivery>, fetch: seq<Delivery>, delete: seq<Delivery>,
    userExists: bool, sets: bool, inject: bool, shared: Option<string>, generated: string)

  function GetAdminPassword(s: State, b: Boot): (State, Option<string>) {
    var r := GetPassword(s, b.fetch, 0);
    if r.0.raised || r.1.None? then r else (DeletePassword(r.0, b.delete, 0), r.1)
  }

  /** The password to set, and whether it was injected. */
  function ChoosePassword(fetched: Option<string>, b: Boot): (string, bool) {
    if fetched.Some? then (fetched.value, true)
    else if b.shared.Some? && b.shared.value != "" then (b.shared.value, false)
    else (b.generated, false)
  }

  function ExecutePlugin(s: State, b: Boot): State {
    if !b.userExists then s
    else
      var c := GetPassword(s, b.changed, 0);
      if c.0.raised || c.1.None? then c.0
      else
        var r := if b.inject then GetAdminPassword(c.0, b) else (c.0, None);
        if r.0.raised then r.0
        else
          var (password, injected) := ChoosePassword(r.1, b);
          if b.sets then r.0.(trace := r.0.trace + [Applied(password, injected)])
          else r.0.(raised := true)
  }

  /* ---------- The plugin ---------- */

  class SetUserPasswordPlugin {
    var server: Server
    var trace: seq<Event>
    var requests: nat

    constructor (server: Server)
      ensures Now(false) == State(server, [], 0, false)
    {
      this.server, trace, requests := server, [], 0;
    }

    function Now(raised: bool): State
      reads this
    {
      State(server, trace, requests, raised)
    }

    method FetchPassword(ds: seq<Delivery>) returns (password: Option<string>, raised: bool)
      modifies this
      ensures (Now(raised), password) == GetPassword(old(Now(false)), ds, 0)
    {
      password, raised := None, false;
      var i := 0;
      while i < |ds|
        invariant i <= |ds|
        invariant GetPassword(Now(false), ds, i) == GetPassword(old(Now(false)), ds, 0)
      {
        requests := requests + 1;
        match ds[i] {
          case Breaks(_) => return None, true;
          case Refused =>
          case Unrecognized => return None, false;
          case Answered =>
            var content := Strip(Answer(server));
            if content != "" {
              if content == BAD_REQUEST || content == SAVED_PASSWORD {
                return None, false;
              }
              trace := trace + [Fetched(content)];
              return Some(content), false;
            }
        }
        i := i + 1;
      }
    }

    method AcknowledgePassword(ds: seq<Delivery>) returns (raised: bool)
      modifies this
      ensures Now(raised) == DeletePassword(old(Now(false)), ds, 0)
    {
      var i := 0;
      while i < |ds|
        invariant i <= |ds|
        invariant DeletePassword(Now(false), ds, i) == DeletePassword(old(Now(false)), ds, 0)
      {
        requests := requests + 1;
        if ds[i] == Answered || ds[i] == Breaks(true) {
          server, trace := Saved, trace + [Acknowledged];
        }
        if ds[i].Answered? {
          return false;
        }
        if ds[i].Breaks? {
          return true;
        }
        i := i + 1;
      }
      return false;
    }

    method Execute(b: Boot) returns (status: int, raised: bool)
      modifies this
      ensures Now(raised) == ExecutePlugin(old(Now(false)), b)
      ensures status == NEXT_BOOT
    {
      status, raised := NEXT_BOOT, false;
      if b.userExists {
        var changed;
        changed, raised := FetchPassword(b.changed);
        if raised || changed.None? {
          return;
        }
        var password := None;
        if b.inject {
          password, raised := FetchPassword(b.fetch);
          if raised {
            return;
          }
          if password.Some? {
            raised := AcknowledgePassword(b.delete);
            if raised {
              return;
            }
          }
        }
        var (chosen, injected) := ChoosePassword(password, b);
        if !b.sets {
          raised := true;
          return;
        }
        trace := trace + [Applied(chosen, injected)];
      }
    }
  }

  /* ---------- Every boot, however the requests fare ---------- */

  lemma {:induction false} GetPasswordFacts(s: State, ds: seq<Delivery>, i: nat)
    requires i <= |ds|
    ensures
      var r := GetPassword(s, ds, i);
      && r.0.server == s.server && r.0.requests <= s.requests + |ds| - i
      && (r.1.Some? ==> Usable(Answer(s.server)) == r.1 && r.0.trace == s.trace + [Fetched(r.1.value)])
      && (r.1.None? ==> r.0.trace == s.trace)
      && (r.1.Some? ==> r.0.raised == s.raised)
    decreases |ds| - i
  {
    if i < |ds| && ds[i] in {Answered, Refused} {
      GetPasswordFacts(s.(requests := s.requests + 1), ds, i + 1);
    }
  }

  lemma {:induction false} DeletePasswordFacts(s: State, ds: seq<Delivery>, i: nat)
    requires i <= |ds|
    ensures
      var r := DeletePassword(s, ds, i);
      && r.requests <= s.requests + |ds| - i
      && ((r.trace == s.trace + [Acknowledged] && r.server == Saved) || (r.trace == s.trace && r.server == s.server))
    decreases |ds| - i
  {
    if i < |ds| && ds[i] in {Unrecognized, Refused} {
      DeletePasswordFacts(s.(requests := s.requests + 1), ds, i + 1);
    }
  }

  /** Each of the three loops makes up to `retry_count` requests: three times as many in a boot. */
  lemma {:induction false} RequestsAreBounded(s: State, b: Boot, retryCount: nat)
    requires |b.changed| == |b.fetch| == |b.delete| == retryCount
    ensures ExecutePlugin(s, b).requests <= s.requests + 3 * retryCount
  {
    GetPasswordFacts(s, b.changed, 0);
    var c := GetPassword(s, b.changed, 0);
    GetPasswordFacts(c.0, b.fetch, 0);
    DeletePasswordFacts(GetPassword(c.0, b.fetch, 0).0, b.delete, 0);
  }

  /** What a boot adds to the trace.  A password is acknowledged only right after it was fetched
      twice; one that was injected is the one fetched; and nothing is applied unless one is pending. */
  predicate Shape(server: Server, events: seq<Event>) {
    match Usable(Answer(server))
    case None => events == []
    case Some(p) =>
      || events == []
      || events == [Fetched(p)]
      || (|events| == 2 && events[0] == Fetched(p) && events[1].Applied? && !events[1].injected)
      || (|events| >= 2 && events[..2] == [Fetched(p), Fetched(p)] && AfterFetch(p, events[2..]))
  }

  predicate AfterFetch(p: string, events: seq<Event>) {
    || events == [] || events == [Acknowledged]
    || events == [Applied(p, true)] || events == [Acknowledged, Applied(p, true)]
  }

  predicate FetchedOnce(p: string, events: seq<Event>) {
    events == [Fetched(p)] || events == [Fetched(p), Acknowledged]
  }

  lemma {:induction false} AdminPasswordShape(s: State, b: Boot) returns (added: seq<Event>)
    requires !s.raised
    ensures
      var (r, password) := GetAdminPassword(s, b);
      && r.trace == s.trace + added
      && r.server == (if Acknowledged in added then Saved else s.server)
      && match password
         case None => added == []
         case Some(p) => password == Usable(Answer(s.server)) && FetchedOnce(p, added)
  {
    GetPasswordFacts(s, b.fetch, 0);
    var r := GetPassword(s, b.fetch, 0);
    added := [];
    if r.1.Some? {
      added := [Fetched(r.1.value)];
      if !r.0.raised {
        DeletePasswordFacts(r.0, b.delete, 0);
        if DeletePassword(r.0, b.delete, 0).trace != r.0.trace {
          added := added + [Acknowledged];
        }
      }
    }
  }

  lemma {:induction false} ShapeOfBoot(
    p: string, server: Server, password: Option<string>, added: seq<Event>, applied: seq<Event>)
    requires Usable(Answer(server)) == Some(p) && (password.Some? ==> password == Some(p))
    requires if password.None? then added == [] else FetchedOnce(p, added)
    requires applied == [] || exists q :: applied == [Applied(q, password.Some?)] && (password.Some? ==> q == p)
    ensures Shape(server, [Fetched(p)] + added + applied)
  {
    if applied == [] {
      assert [Fetched(p)] + added + applied == [Fetched(p)] + added;
    }
    if password.Some? {
      var events := [Fetched(p)] + added + applied;
      assert events[..2] == [Fetched(p), Fetched(p)];
      if added == [Fetched(p)] {
        assert events[2..] == applied;
      } else {
        assert events[2..] == [Acknowledged] + applied;
      }
    }
  }

  /** What a boot adds once a password was found pending. */
  lemma {:induction false} PendingShape(c: State, b: Boot, p: string) returns (events: seq<Event>)
    requires !c.raised && Usable(Answer(c.server)) == Some(p) && b.userExists
    ensures
      var (s, password) := if b.inject then GetAdminPassword(c, b) else (c, None);
      var (q, injected) := ChoosePassword(password, b);
      && c.trace + events == s.trace + (if !s.raised && b.sets then [Applied(q, injected)] else [])
      && Shape(c.server, [Fetched(p)] + events)
      && s.server == if Acknowledged in events then Saved else c.server
  {
    var added, password, r := [], None, c;
    if b.inject {
      added := AdminPasswordShape(c, b);
      password, r := GetAdminPassword(c, b).1, GetAdminPassword(c, b).0;
    }
    var applied := [];
    if !r.raised && b.sets {
      var (q, injected) := ChoosePassword(password, b);
      applied := [Applied(q, injected)];
      assert applied == [Applied(q, password.Some?)];
    }
    ShapeOfBoot(p, c.server, password, added, applied);
    events := added + applied;
    Associates([Fetched(p)], added, applied);
    Associates(c.trace, added, applied);
  }

  lemma {:induction false} BootShape(s: State, b: Boot) returns (events: seq<Event>)
    requires !s.raised
    ensures
      var r := ExecutePlugin(s, b);
      && r.trace == s.trace + events && Shape(s.server, events)
      && r.server == if Acknowledged in events then Saved else s.server
  {
    events := [];
    GetPasswordFacts(s, b.changed, 0);
    var c := GetPassword(s, b.changed, 0);
    if b.userExists && c.1.Some? {
      var added := PendingShape(c.0, b, c.1.value);
      events := [Fetched(c.1.value)] + added;
      Associates(s.trace, [Fetched(c.1.value)], added);
    }
  }

  /* ---------- A server that answers ---------- */

  ghost predicate Answers(b: Boot) {
    && b.changed != [] && b.fetch != [] && b.delete != []
    && (forall d :: d in b.changed || d in b.fetch || d in b.delete ==> d == Answered)
  }

  lemma {:induction false} AnsweredGet(s: State, ds: seq<Delivery>, i: nat)
    requires i <= |ds| && (forall d :: d in ds ==> d == Answered)
    ensures
      var r := GetPassword(s, ds, i);
      && r.0.raised == s.raised && r.0.server == s.server
      && (i < |ds| ==> r.1 == Usable(Answer(s.server)))
      && (r.1.None? ==> r.0.trace == s.trace)
    decreases |ds| - i
  {
    if i < |ds| {
      assert ds[i] in ds;
      AnsweredGet(s.(requests := s.requests + 1), ds, i + 1);
    }
  }

  /** The password a boot finds pending and can hand to the user. */
  function Due(server: Server, b: Boot): Option<string> {
    if b.userExists then Usable(Answer(server)) else None
  }

  /** With a server that answers: without a pending password nothing changes.  With one, it is
      acknowledged exactly when injection is on, and applied exactly when the user's password can
      then be set; when it cannot, the password is acknowledged all the same and so is lost. */
  lemma {:induction false} AnsweringBoot(s: State, b: Boot)
    requires Answers(b) && !s.raised
    ensures
      var r := ExecutePlugin(s, b);
      match Due(s.server, b)
      case None => r.server == s.server && r.trace == s.trace && !r.raised
      case Some(p) =>
        && r.server == (if b.inject then Saved else s.server)
        && r.raised == !b.sets
        && r.trace == s.trace + [Fetched(p)] + (if b.inject then [Fetched(p), Acknowledged] else [])
             + if b.sets then (var (q, injected) := ChoosePassword(if b.inject then Some(p) else None, b); [Applied(q, injected)]) else []
  {
    AnsweredGet(s, b.changed, 0);
    GetPasswordFacts(s, b.changed, 0);
    var c := GetPassword(s, b.changed, 0).0;
    AnsweredGet(c, b.fetch, 0);
    GetPasswordFacts(c, b.fetch, 0);
    assert b.delete[0] in b.delete;
  }

  /* ---------- Many boots ---------- */

  /** A password issued before the boot replaces what the server had. */
  function Issue(server: Server, b: Boot): Server {
    if b.issued.Some? then Holds(b.issued.value) else server
  }

  /** The boots one after the other; an exception ends only the plugin of its own boot. */
  function Boots(s: State, bs: seq<Boot>): State
    decreases |bs|
  {
    if bs == [] then s
    else Boots(ExecutePlugin(s.(server := Issue(s.server, bs[0]), raised := false), bs[0]).(raised := false), bs[1..])
  }

  function AppliedPasswords(trace: seq<Event>): seq<string> {
    if trace == [] then []
    else
      var before, last := AppliedPasswords(trace[..|trace| - 1]), trace[|trace| - 1];
      if last.Applied? then before + [last.password] else before
  }

  lemma {:induction false} AppliedAppend(trace: seq<Event>, e: Event)
    ensures AppliedPasswords(trace + [e]) == AppliedPasswords(trace) + if e.Applied? then [e.password] else []
  {
    assert (trace + [e])[..|trace|] == trace;
  }

  /* ---------- Any deliveries ---------- */

  /** What comes of asking for a pending password: the first delivery that is not refused decides. */
  datatype Fetching = Gets | GetsNothing | Fails

  function FetchingOf(ds: seq<Delivery>, i: nat): Fetching
    requires i <= |ds|
    decreases |ds| - i
  {
    if i == |ds| then GetsNothing
    else
      match ds[i]
      case Answered => Gets
      case Unrecognized => GetsNothing
      case Breaks(_) => Fails
      case Refused => FetchingOf(ds, i + 1)
  }

  /** What comes of acknowledging it: the first delivery that is neither refused nor unrecognized
      decides, which is None where there is no such delivery. */
  function AcknowledgingOf(ds: seq<Delivery>, i: nat): Option<Delivery>
    requires i <= |ds|
    decreases |ds| - i
  {
    if i == |ds| then None
    else if ds[i] in {Refused, Unrecognized} then AcknowledgingOf(ds, i + 1)
    else Some(ds[i])
  }

  /** Whether a boot comes to the acknowledgement of a pending password. */
  predicate Fetches(b: Boot) {
    b.userExists && b.inject && FetchingOf(b.changed, 0) == Gets && FetchingOf(b.fetch, 0) == Gets
  }

  /** Whether the server learns of it. */
  predicate Acknowledges(b: Boot) {
    Fetches(b) && AcknowledgingOf(b.delete, 0) in {Some(Answered), Some(Breaks(true))}
  }

  /** The passwords a boot sets while p is pending: none or one, and another than p when injection
      is off or only the second request for the password finds nothing. */
  function Hands(p: string, b: Boot): seq<string> {
    if !b.userExists || !b.sets || FetchingOf(b.changed, 0) != Gets then []
    else if !b.inject || FetchingOf(b.fetch, 0) == GetsNothing then
      [if b.shared.Some? && b.shared.value != "" then b.shared.value else b.generated]
    else if FetchingOf(b.fetch, 0) == Fails then []
    else if AcknowledgingOf(b.delete, 0) in {Some(Breaks(true)), Some(Breaks(false))} then []
    else [p]
  }

  /** The same whatever the server has; and what it has afterwards. */
  function HandsAt(server: Server, b: Boot): seq<string> {
    match Usable(Answer(server))
    case None => []
    case Some(p) => Hands(p, b)
  }

  function ServerAfter(server: Server, b: Boot): Server {
    if Usable(Answer(server)).Some? && Acknowledges(b) then Saved else server
  }

  /** Over many boots: a password stays pending until the server learns of its acknowledgement. */
  function HandedOver(server: Server, bs: seq<Boot>): seq<string>
    decreases |bs|
  {
    if bs == [] then []
    else
      var now := Issue(server, bs[0]);
      HandsAt(now, bs[0]) + HandedOver(ServerAfter(now, bs[0]), bs[1..])
  }

  lemma {:induction false} PendingGet(s: State, ds: seq<Delivery>, i: nat)
    requires i <= |ds| && Usable(Answer(s.server)).Some? && !s.raised
    ensures
      var r, f := GetPassword(s, ds, i), FetchingOf(ds, i);
      && (r.1 == if f == Gets then Usable(Answer(s.server)) else None)
      && (r.0.raised <==> f == Fails)
    decreases |ds| - i
  {
    if i < |ds| && ds[i] == Refused {
      PendingGet(s.(requests := s.requests + 1), ds, i + 1);
    }
  }

  lemma {:induction false} PendingDelete(s: State, ds: seq<Delivery>, i: nat)
    requires i <= |ds| && !s.raised
    ensures
      var r, d := DeletePassword(s, ds, i), AcknowledgingOf(ds, i);
      && r.server == (if d in {Some(Answered), Some(Breaks(true))} then Saved else s.server)
      && r.trace == s.trace + (if d in {Some(Answered), Some(Breaks(true))} then [Acknowledged] else [])
      && (r.raised <==> d in {Some(Breaks(true)), Some(Breaks(false))})
    decreases |ds| - i
  {
    if i < |ds| && ds[i] in {Refused, Unrecognized} {
      PendingDelete(s.(requests := s.requests + 1), ds, i + 1);
    }
  }

  lemma {:induction false} PendingAdminPassword(s: State, b: Boot)
    requires Usable(Answer(s.server)).Some? && !s.raised
    ensures
      var (r, password), f := GetAdminPassword(s, b), FetchingOf(b.fetch, 0);
      var d := if f == Gets then AcknowledgingOf(b.delete, 0) else None;
      && (password == if f == Gets then Usable(Answer(s.server)) else None)
      && r.server == (if d in {Some(Answered), Some(Breaks(true))} then Saved else s.server)
      && (r.raised <==> f == Fails || d in {Some(Breaks(true)), Some(Breaks(false))})
      && AppliedPasswords(r.trace) == AppliedPasswords(s.trace)
  {
    PendingGet(s, b.fetch, 0);
    GetPasswordFacts(s, b.fetch, 0);
    var r := GetPassword(s, b.fetch, 0);
    if r.1.Some? {
      AppliedAppend(s.trace, Fetched(r.1.value));
      PendingDelete(r.0, b.delete, 0);
      AppliedAppend(r.0.trace, Acknowledged);
      assert r.0.trace + [] == r.0.trace;
    }
  }

  /** How many requests the loop for a password makes: up to the first that is neither refused nor
      answered with nothing, if there is one. */
  lemma {:induction false} RequestsToGet(s: State, ds: seq<Delivery>, i: nat) returns (n: nat)
    requires i <= |ds|
    ensures i <= n <= |ds| && GetPassword(s, ds, i).0.requests == s.requests + (if n < |ds| then n + 1 else n) - i
    ensures forall j :: i <= j < n ==> ds[j] == Refused || (ds[j] == Answered && Strip(Answer(s.server)) == "")
    ensures n < |ds| ==> ds[n] != Refused && !(ds[n] == Answered && Strip(Answer(s.server)) == "")
    decreases |ds| - i
  {
    n := i;
    if i < |ds| && (ds[i] == Refused || (ds[i] == Answered && Strip(Answer(s.server)) == "")) {
      n := RequestsToGet(s.(requests := s.requests + 1), ds, i + 1);
    }
  }

  /** And the acknowledgement: up to the first that is neither refused nor not recognized. */
  lemma {:induction false} RequestsToDelete(s: State, ds: seq<Delivery>, i: nat) returns (n: nat)
    requires i <= |ds|
    ensures i <= n <= |ds| && DeletePassword(s, ds, i).requests == s.requests + (if n < |ds| then n + 1 else n) - i
    ensures forall j :: i <= j < n ==> ds[j] == Refused || ds[j] == Unrecognized
    ensures n < |ds| ==> ds[n] != Refused && ds[n] != Unrecognized
    decreases |ds| - i
  {
    n := i;
    if i < |ds| && (ds[i] == Refused || ds[i] == Unrecognized) {
      n := RequestsToDelete(s.(requests := s.requests + 1), ds, i + 1);
    }
  }

  /** A boot with a pending password, however its requests fare. */
  lemma {:induction false} PendingBoot(s: State, b: Boot)
    requires Usable(Answer(s.server)).Some? && !s.raised
    ensures
      var p, r := Usable(Answer(s.server)).value, ExecutePlugin(s, b);
      && r.server == (if Acknowledges(b) then Saved else s.server)
      && AppliedPasswords(r.trace) == AppliedPasswords(s.trace) + Hands(p, b)
  {
    PendingGet(s, b.changed, 0);
    GetPasswordFacts(s, b.changed, 0);
    var c := GetPassword(s, b.changed, 0);
    if b.userExists && c.1.Some? {
      AppliedAppend(s.trace, Fetched(c.1.value));
      PendingAdminPassword(c.0, b);
      var r := if b.inject then GetAdminPassword(c.0, b) else (c.0, None);
      if !r.0.raised {
        var (password, injected) := ChoosePassword(r.1, b);
        AppliedAppend(r.0.trace, Applied(password, injected));
      }
    }
  }

  /** A boot without one. */
  lemma {:induction false} IdleBoot(s: State, b: Boot)
    requires Usable(Answer(s.server)).None?
    ensures ExecutePlugin(s, b).server == s.server && ExecutePlugin(s, b).trace == s.trace
  {
    GetPasswordFacts(s, b.changed, 0);
  }

  lemma {:induction false} OneBoot(s: State, b: Boot) returns (t: State)
    ensures t == ExecutePlugin(s.(server := Issue(s.server, b), raised := false), b).(raised := false)
    ensures t.server == ServerAfter(Issue(s.server, b), b)
    ensures AppliedPasswords(t.trace) == AppliedPasswords(s.trace) + HandsAt(Issue(s.server, b), b)
  {
    var s1 := s.(server := Issue(s.server, b), raised := false);
    if Usable(Answer(s1.server)).Some? {
      PendingBoot(s1, b);
    } else {
      IdleBoot(s1, b);
    }
    t := ExecutePlugin(s1, b).(raised := false);
  }

  /** Over any boots, however the requests fare, exactly these passwords are set, in this order. */
  lemma {:induction false} BootsHandOver(s: State, bs: seq<Boot>)
    ensures AppliedPasswords(Boots(s, bs).trace) == AppliedPasswords(s.trace) + HandedOver(s.server, bs)
    decreases |bs|
  {
    if bs != [] {
      var t := OneBoot(s, bs[0]);
      BootsHandOver(t, bs[1..]);
      Associates(AppliedPasswords(s.trace), HandsAt(Issue(s.server, bs[0]), bs[0]), HandedOver(t.server, bs[1..]));
    }
  }

  function AllHands(p: string, bs: seq<Boot>): seq<string> {
    if bs == [] then [] else Hands(p, bs[0]) + AllHands(p, bs[1..])
  }

  /** Boots before another password is issued, of which the k-th is the first to acknowledge the
      pending one, or none does and k is their number: the password is handed over at every boot
      up to the k-th that can, and at none after it. */
  lemma {:induction false} PendingUntilAcknowledged(server: Server, bs: seq<Boot>, k: nat)
    requires Usable(Answer(server)).Some? && forall b :: b in bs ==> b.issued.None?
    requires k <= |bs| && (k < |bs| ==> Acknowledges(bs[k])) && forall j :: 0 <= j < k ==> !Acknowledges(bs[j])
    ensures HandedOver(server, bs) == AllHands(Usable(Answer(server)).value, if k < |bs| then bs[..k + 1] else bs)
    decreases |bs|
  {
    if bs != [] {
      assert bs[0] in bs;
      var p := Usable(Answer(server)).value;
      if k == 0 {
        NothingPending(bs[1..]);
        assert bs[..1][1..] == [] && Hands(p, bs[0]) + [] == Hands(p, bs[0]);
      } else {
        PendingUntilAcknowledged(server, bs[1..], k - 1);
        if k < |bs| {
          assert bs[..k + 1][1..] == bs[1..][..k];
        }
      }
    }
  }

  lemma {:induction false} NothingPending(bs: seq<Boot>)
    requires forall b :: b in bs ==> b.issued.None?
    ensures HandedOver(Saved, bs) == []
    decreases |bs|
  {
    if bs != [] {
      assert bs[0] in bs;
      assert Strip(SAVED_PASSWORD) == SAVED_PASSWORD;
      NothingPending(bs[1..]);
    }
  }

  /** An acknowledgement that is refused once: the password is set at both boots. */
  lemma {:induction false} SetTwice(password: string, b: Boot)
    requires Usable(password).Some? && b.issued.None? && b.userExists && b.sets && b.inject
    requires b.changed == [Answered] && b.fetch == [Answered] && b.delete == [Refused]
    ensures HandedOver(Holds(password), [b, b]) == [Usable(password).value, Usable(password).value]
  {
    var p := Usable(password).value;
    assert FetchingOf(b.changed, 0) == Gets;
    assert AcknowledgingOf(b.delete, 0) == AcknowledgingOf(b.delete, 1) == None;
    PendingUntilAcknowledged(Holds(password), [b, b], 2);
    assert Hands(p, b) == [p] && [b, b][1..] == [b] && [b][1..] == [];
    assert AllHands(p, [b]) == [p] + AllHands(p, []) == [p];
    assert AllHands(p, [b, b]) == [p] + AllHands(p, [b]);
  }

  /* ---------- Many boots with a server that answers ---------- */

  /** What the user should get: at every boot of an existing user the pending password, once. */
  function Delivered(server: Server, bs: seq<Boot>): seq<string>
    decreases |bs|
  {
    if bs == [] then []
    else
      var now := Issue(server, bs[0]);
      match Due(now, bs[0])
      case None => Delivered(now, bs[1..])
      case Some(p) => (if bs[0].sets then [p] else []) + Delivered(Saved, bs[1..])
  }

  lemma {:induction false} AnsweredBoot(server: Server, b: Boot)
    requires Answers(b) && b.inject
    ensures ServerAfter(server, b) == if Due(server, b).Some? then Saved else server
    ensures HandsAt(server, b) == if Due(server, b).Some? && b.sets then [Due(server, b).value] else []
  {
    assert b.changed[0] in b.changed && b.fetch[0] in b.fetch && b.delete[0] in b.delete;
    assert FetchingOf(b.changed, 0) == Gets == FetchingOf(b.fetch, 0);
    assert AcknowledgingOf(b.delete, 0) == Some(Answered);
  }

  lemma {:induction false} AnsweredHands(server: Server, bs: seq<Boot>)
    requires forall b :: b in bs ==> Answers(b) && b.inject
    ensures HandedOver(server, bs) == Delivered(server, bs)
    decreases |bs|
  {
    if bs != [] {
      var now := Issue(server, bs[0]);
      AnsweredBoot(now, bs[0]);
      AnsweredHands(ServerAfter(now, bs[0]), bs[1..]);
      assert [] + Delivered(now, bs[1..]) == Delivered(now, bs[1..]);
    }
  }

  /** Over any boots with injection and an answering server, the user gets exactly the passwords
      that were pending at a boot at which the user existed and could be changed, each once, in order. */
  lemma {:induction false} BootsDeliver(s: State, bs: seq<Boot>)
    requires forall b :: b in bs ==> Answers(b) && b.inject
    ensures AppliedPasswords(Boots(s, bs).trace) == AppliedPasswords(s.trace) + Delivered(s.server, bs)
  {
    BootsHandOver(s, bs);
    AnsweredHands(s.server, bs);
  }

  /** With an existing user that can always be changed these are all the issued passwords but
      those that are blank or reserved words. */
  lemma {:induction false} AllIssuedDelivered(server: Server, bs: seq<Boot>)
    requires (forall b :: b in bs ==> b.userExists && b.sets) && Usable(Answer(server)) == None
    ensures Delivered(server, bs) == IssuedPasswords(bs)
    decreases |bs|
  {
    if bs != [] {
      var now := Issue(server, bs[0]);
      AllIssuedDelivered(if Usable(Answer(now)).Some? then Saved else now, bs[1..]);
    }
  }

  function IssuedPasswords(bs: seq<Boot>): seq<string> {
    if bs == [] then []
    else
      var rest := IssuedPasswords(bs[1..]);
      if bs[0].issued.Some? && Usable(bs[0].issued.value).Some? then [Usable(bs[0].issued.value).value] + rest else rest
  }
}
