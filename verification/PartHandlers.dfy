/**
 Multipart user data: built-in plugins and handlers that parts of the document itself register,
 which are told of the begin, of every part of theirs and of the end.
 */
module PartHandlers {
  import opened Basics

  const DONE := 1
  const NEXT_BOOT := 2

  const PART_HANDLER := "text/part-handler"

  /** A function, by identity. */
  type Func = nat

  /** A part-handler module: the types it lists, all handled by its one `handle_part`. */
  datatype HandlerModule = HandlerModule(types: seq<string>, func: Func)

  /** A part, and how the built-in plugin behaves that may be called for it: whether it raises, the
      module it loads from a part-handler part (None without the two names such a module must
      define), and its result, None when that is not a number.  An exception of a handler, of a
      plugin or of a `__begin__` call is logged and dropped, and nothing of the part comes after
      the call; so only the call itself shows in the trace. */
  datatype Part = Part(contentType: string, pluginRaises: bool, ret: Option<int>, handlers: Option<HandlerModule>)

  datatype Event =
    | Begin(func: Func)
    | Handled(func: Func, contentType: string)
    | Processed(contentType: string)
    | End(func: Func)

  datatype Dispatch = Dispatch(handlers: map<string, Func>, trace: seq<Event>)

  /** `get_plugin_return_value`: bit 0 asks for a reboot and bit 1 for another execution, in the
      range from 1001 to 1003. */
  function PluginReturnValue(ret: Option<int>): (r: (int, bool))
    ensures r.1 <==> ret == Some(1001) || ret == Some(1003)
    ensures r.0 == NEXT_BOOT <==> ret == Some(1002) || ret == Some(1003)
    ensures r.0 == DONE || r.0 == NEXT_BOOT
  {
    if ret.Some? && 1001 <= ret.value <= 1003 then
      (if ret.value / 2 % 2 == 1 then NEXT_BOOT else DONE, ret.value % 2 == 1)
    else (DONE, false)
  }

  /** Registration of the module's types that no plugin manages, from the i-th on. */
  function Register(handlers: map<string, Func>, plugins: set<string>, m: HandlerModule, i: nat): map<string, Func>
    requires i <= |m.types|
    decreases |m.types| - i
  {
    if i == |m.types| then handlers
    else
      Register(if m.types[i] in plugins then handlers else handlers[m.types[i] := m.func], plugins, m, i + 1)
  }

  predicate Registers(plugins: set<string>, m: HandlerModule) {
    exists t :: t in m.types && t !in plugins
  }

  function AddHandlers(d: Dispatch, plugins: set<string>, m: HandlerModule): Dispatch {
    Dispatch(Register(d.handlers, plugins, m, 0),
             d.trace + if Registers(plugins, m) then [Begin(m.func)] else [])
  }

  function ProcessPart(d: Dispatch, plugins: set<string>, p: Part): Dispatch {
    if p.contentType in d.handlers then
      d.(trace := d.trace + [Handled(d.handlers[p.contentType], p.contentType)])
    else if p.contentType !in plugins then d
    else
      var d' := d.(trace := d.trace + [Processed(p.contentType)]);
      if p.contentType == PART_HANDLER && !p.pluginRaises && p.handlers.Some? then
        AddHandlers(d', plugins, p.handlers.value)
      else d'
  }

  /** The status and the reboot request of a part. */
  function PartResult(d: Dispatch, plugins: set<string>, p: Part): (int, bool) {
    PluginReturnValue(
      if p.contentType in d.handlers || p.contentType !in plugins || p.contentType == PART_HANDLER || p.pluginRaises
      then None else p.ret)
  }

  datatype Walk = Walk(dispatch: Dispatch, status: int, reboot: bool)

  /** The loop over the parts, from the i-th on. */
  function WalkParts(w: Walk, plugins: set<string>, parts: seq<Part>, i: nat): Walk
    requires i <= |parts|
    decreases |parts| - i
  {
    if i == |parts| then w
    else
      var r := PartResult(w.dispatch, plugins, parts[i]);
      var w' := Walk(ProcessPart(w.dispatch, plugins, parts[i]), r.0, r.1);
      if r.1 then w' else WalkParts(w', plugins, parts, i + 1)
  }

  const START := Walk(Dispatch(map[], []), DONE, false)

  /** One `__end__` call for each function, in some order. */
  ghost predicate EndsOf(ends: seq<Event>, funcs: set<Func>) {
    if ends == [] then funcs == {}
    else
      var last := ends[|ends| - 1];
      last.End? && last.func in funcs && EndsOf(ends[..|ends| - 1], funcs - {last.func})
  }

  lemma {:induction false} EndOneMore(ends: seq<Event>, funcs: set<Func>, f: Func)
    requires EndsOf(ends, funcs) && f !in funcs
    ensures EndsOf(ends + [End(f)], funcs + {f})
  {
    assert (ends + [End(f)])[..|ends|] == ends;
    assert funcs + {f} - {f} == funcs;
  }

  /** Every function gets exactly one call, and nothing else is called. */
  lemma {:induction false} EndsOfMeaning(ends: seq<Event>, funcs: set<Func>, e: Event)
    requires EndsOf(ends, funcs)
    ensures multiset(ends)[e] == if e.End? && e.func in funcs then 1 else 0
  {
    if ends != [] {
      var init, last := ends[..|ends| - 1], ends[|ends| - 1];
      assert ends == init + [last];
      EndsOfMeaning(init, funcs - {last.func}, e);
    }
  }

  class UserDataPlugin {
    const plugins: set<string>
    var handlers: map<string, Func>
    var trace: seq<Event>

    constructor (plugins: set<string>)
      ensures this.plugins == plugins && Now() == START.dispatch
    {
      this.plugins, handlers, trace := plugins, map[], [];
    }

    function Now(): Dispatch
      reads this
    {
      Dispatch(handlers, trace)
    }

    method AddPartHandlers(m: HandlerModule)
      modifies this
      ensures Now() == AddHandlers(old(Now()), plugins, m)
    {
      var handlerFuncs: set<Func> := {};
      var i := 0;
      while i < |m.types|
        invariant i <= |m.types| && trace == old(trace)
        invariant Register(handlers, plugins, m, i) == Register(old(handlers), plugins, m, 0)
        invariant handlerFuncs == if exists j :: 0 <= j < i && m.types[j] !in plugins then {m.func} else {}
      {
        if m.types[i] !in plugins {
          handlers := handlers[m.types[i] := m.func];
          handlerFuncs := handlerFuncs + {m.func};
        }
        i := i + 1;
      }
      if handlerFuncs != {} {
        trace := trace + [Begin(m.func)];
      }
    }

    /** `_process_part`. */
    method ProcessOnePart(p: Part) returns (status: int, reboot: bool)
      modifies this
      ensures Now() == ProcessPart(old(Now()), plugins, p)
      ensures (status, reboot) == PartResult(old(Now()), plugins, p)
    {
      var ret: Option<int> := None;
      if p.contentType in handlers {
        trace := trace + [Handled(handlers[p.contentType], p.contentType)];
      } else if p.contentType in plugins {
        trace := trace + [Processed(p.contentType)];
        if !p.pluginRaises {
          if p.contentType == PART_HANDLER {
            if p.handlers.Some? {
              AddPartHandlers(p.handlers.value);
            }
          } else {
            ret := p.ret;
          }
        }
      }
      var r := PluginReturnValue(ret);
      return r.0, r.1;
    }

    /** The `__end__` calls; those of the functions in `raising` raise, which ends the loop. */
    method EndAll(raising: set<Func>) returns (raised: bool, ghost ends: seq<Event>, ghost ended: set<Func>)
      modifies `trace
      ensures trace == old(trace) + ends && EndsOf(ends, ended)
      ensures raised <==> handlers.Values * raising != {}
      ensures ended <= handlers.Values && (!raised ==> ended == handlers.Values)
    {
      raised, ends, ended := false, [], {};
      var rest := handlers.Values;
      while rest != {}
        invariant ended + rest == handlers.Values && ended !! rest && ended !! raising
        invariant trace == old(trace) + ends && EndsOf(ends, ended)
        decreases |rest|
      {
        var f :| f in rest;
        EndOneMore(ends, ended, f);
        trace, ends := trace + [End(f)], ends + [End(f)];
        rest, ended := rest - {f}, ended + {f};
        if f in raising {
          raised := true;
          return;
        }
      }
    }

    /** `_process_user_data` on a multipart document. */
    method ProcessUserData(parts: seq<Part>, raising: set<Func>)
      returns (status: int, reboot: bool, raised: bool, ghost ends: seq<Event>, ghost ended: set<Func>)
      requires Now() == START.dispatch
      modifies this
      ensures
        var w := WalkParts(START, plugins, parts, 0);
        && Walk(Dispatch(handlers, w.dispatch.trace), status, reboot) == w
        && trace == w.dispatch.trace + ends
        && EndsOf(ends, ended)
        && (reboot ==> ends == [] && !raised)
        && (!reboot ==> ended <= handlers.Values && (raised <==> handlers.Values * raising != {}))
        && (!reboot && !raised ==> ended == handlers.Values)
    {
      status, reboot, raised, ends, ended := DONE, false, false, [], {};
      var i := 0;
      while i < |parts|
        invariant i <= |parts| && !reboot
        invariant WalkParts(Walk(Now(), status, reboot), plugins, parts, i) == WalkParts(START, plugins, parts, 0)
      {
        status, reboot := ProcessOnePart(parts[i]);
        if reboot {
          return;
        }
        i := i + 1;
      }
      raised, ends, ended := EndAll(raising);
    }
  }

  /* ---------- The protocol, on every trace ---------- */

  /** The functions that were told of the begin. */
  function Begun(trace: seq<Event>): set<Func> {
    if trace == [] then {}
    else
      var last := trace[|trace| - 1];
      Begun(trace[..|trace| - 1]) + if last.Begin? then {last.func} else {}
  }

  /** Every call of a handler comes after its begin, and no end has been told. */
  predicate Ordered(trace: seq<Event>) {
    trace == [] ||
    var init, last := trace[..|trace| - 1], trace[|trace| - 1];
    Ordered(init) && !last.End? && (last.Handled? ==> last.func in Begun(init))
  }

  lemma {:induction false} AppendEvent(trace: seq<Event>, e: Event)
    ensures Begun(trace + [e]) == Begun(trace) + if e.Begin? then {e.func} else {}
    ensures Ordered(trace + [e]) <==> Ordered(trace) && !e.End? && (e.Handled? ==> e.func in Begun(trace))
  {
    assert (trace + [e])[..|trace|] == trace;
  }

  /** What holds between parts: registered types and plugin types are disjoint, and every
      registered function was told of the begin. */
  ghost predicate Inv(d: Dispatch, plugins: set<string>) {
    && d.handlers.Keys !! plugins
    && (forall t :: t in d.handlers ==> d.handlers[t] in Begun(d.trace))
    && Ordered(d.trace)
  }

  lemma {:induction false} RegisterFacts(handlers: map<string, Func>, plugins: set<string>, m: HandlerModule, i: nat)
    requires i <= |m.types| && handlers.Keys !! plugins
    ensures
      var r := Register(handlers, plugins, m, i);
      && r.Keys == handlers.Keys + (set j | i <= j < |m.types| && m.types[j] !in plugins :: m.types[j])
      && (forall t :: t in r ==> r[t] == m.func || (t in handlers && r[t] == handlers[t]))
      && (r != handlers ==> Registers(plugins, m))
      && r.Keys !! plugins
    decreases |m.types| - i
  {
    if i < |m.types| {
      var next := if m.types[i] in plugins then handlers else handlers[m.types[i] := m.func];
      RegisterFacts(next, plugins, m, i + 1);
    }
  }

  lemma {:induction false} AddHandlersKeepsInv(d: Dispatch, plugins: set<string>, m: HandlerModule)
    requires Inv(d, plugins)
    ensures Inv(AddHandlers(d, plugins, m), plugins)
  {
    RegisterFacts(d.handlers, plugins, m, 0);
    AppendEvent(d.trace, Begin(m.func));
    var r := AddHandlers(d, plugins, m);
    if !Registers(plugins, m) {
      assert r.trace == d.trace;
    }
  }

  lemma {:induction false} ProcessPartKeepsInv(d: Dispatch, plugins: set<string>, p: Part)
    requires Inv(d, plugins)
    ensures Inv(ProcessPart(d, plugins, p), plugins)
  {
    if p.contentType in d.handlers {
      AppendEvent(d.trace, Handled(d.handlers[p.contentType], p.contentType));
    } else if p.contentType in plugins {
      AppendEvent(d.trace, Processed(p.contentType));
      if p.contentType == PART_HANDLER && !p.pluginRaises && p.handlers.Some? {
        AddHandlersKeepsInv(d.(trace := d.trace + [Processed(p.contentType)]), plugins, p.handlers.value);
      }
    }
  }

  /** Over every document: types stay disjoint, begins come first, and nothing ends early. */
  lemma {:induction false} WalkKeepsInv(w: Walk, plugins: set<string>, parts: seq<Part>, i: nat)
    requires i <= |parts| && Inv(w.dispatch, plugins)
    ensures Inv(WalkParts(w, plugins, parts, i).dispatch, plugins)
    decreases |parts| - i
  {
    if i < |parts| {
      ProcessPartKeepsInv(w.dispatch, plugins, parts[i]);
      var r := PartResult(w.dispatch, plugins, parts[i]);
      if !r.1 {
        WalkKeepsInv(Walk(ProcessPart(w.dispatch, plugins, parts[i]), r.0, r.1), plugins, parts, i + 1);
      }
    }
  }

  lemma {:induction false} OrderedMeaning(trace: seq<Event>, i: nat)
    requires Ordered(trace) && i < |trace|
    ensures !trace[i].End?
    ensures trace[i].Handled? ==> exists j :: 0 <= j < i && trace[j] == Begin(trace[i].func)
  {
    var n := |trace| - 1;
    if i < n {
      OrderedMeaning(trace[..n], i);
    } else if trace[i].Handled? {
      var j := BegunAt(trace[..n], trace[i].func);
      assert trace[j] == Begin(trace[i].func);
    }
  }

  lemma {:induction false} BegunAt(trace: seq<Event>, f: Func) returns (j: nat)
    requires f in Begun(trace)
    ensures j < |trace| && trace[j] == Begin(f)
  {
    var n := |trace| - 1;
    if trace[n] == Begin(f) {
      j := n;
    } else {
      j := BegunAt(trace[..n], f);
    }
  }

  /** A reboot request stops the walk: whatever parts follow the one that asked, nothing more happens. */
  lemma {:induction false} RebootStops(w: Walk, plugins: set<string>, parts: seq<Part>, i: nat, rest: seq<Part>)
    returns (k: nat)
    requires i <= |parts| && !w.reboot && WalkParts(w, plugins, parts, i).reboot
    ensures i <= k < |parts| && parts[k].ret in {Some(1001), Some(1003)}
    ensures WalkParts(w, plugins, parts[..k + 1] + rest, i) == WalkParts(w, plugins, parts, i)
    decreases |parts| - i
  {
    var r := PartResult(w.dispatch, plugins, parts[i]);
    if r.1 {
      k := i;
    } else {
      k := RebootStops(Walk(ProcessPart(w.dispatch, plugins, parts[i]), r.0, r.1), plugins, parts, i + 1, rest);
    }
    assert (parts[..k + 1] + rest)[i] == parts[i];
  }

  /* ---------- The protocol, by the document alone ---------- */

  /** Whether the part asks for a reboot: no handler can stand in for a plugin. */
  predicate AsksReboot(plugins: set<string>, p: Part) {
    && p.contentType in plugins && p.contentType != PART_HANDLER && !p.pluginRaises
    && p.ret in {Some(1001), Some(1003)}
  }

  /** Whether the part asks for another execution at the next boot. */
  predicate AsksAgain(plugins: set<string>, p: Part) {
    && p.contentType in plugins && p.contentType != PART_HANDLER && !p.pluginRaises
    && p.ret in {Some(1002), Some(1003)}
  }

  /** Whether the part brings a handler for the type. */
  predicate Brings(plugins: set<string>, p: Part, t: string) {
    && p.contentType == PART_HANDLER && PART_HANDLER in plugins && !p.pluginRaises && p.handlers.Some?
    && t in p.handlers.value.types && t !in plugins
  }

  /** The k-th part is the last to bring a handler for the type. */
  predicate BringsLast(plugins: set<string>, parts: seq<Part>, k: nat, t: string)
    requires k < |parts|
  {
    Brings(plugins, parts[k], t) && forall j :: k < j < |parts| ==> !Brings(plugins, parts[j], t)
  }

  /** Registration, type by type. */
  lemma {:induction false} RegisterAt(
    handlers: map<string, Func>, plugins: set<string>, m: HandlerModule, i: nat, t: string)
    requires i <= |m.types|
    ensures
      var r := Register(handlers, plugins, m, i);
      if t in m.types[i..] && t !in plugins then t in r && r[t] == m.func
      else (t in r <==> t in handlers) && (t in r ==> r[t] == handlers[t])
    decreases |m.types| - i
  {
    if i < |m.types| {
      var next := if m.types[i] in plugins then handlers else handlers[m.types[i] := m.func];
      RegisterAt(next, plugins, m, i + 1, t);
      assert m.types[i..] == [m.types[i]] + m.types[i + 1..];
    }
  }

  lemma {:induction false} PartAt(d: Dispatch, plugins: set<string>, p: Part, t: string)
    requires d.handlers.Keys !! plugins
    ensures
      var r := ProcessPart(d, plugins, p).handlers;
      if Brings(plugins, p, t) then t in r && r[t] == p.handlers.value.func
      else (t in r <==> t in d.handlers) && (t in r ==> r[t] == d.handlers[t])
    ensures ProcessPart(d, plugins, p).handlers.Keys !! plugins
    ensures PartResult(d, plugins, p).1 <==> AsksReboot(plugins, p)
    ensures PartResult(d, plugins, p).0 == NEXT_BOOT <==> AsksAgain(plugins, p)
  {
    if p.handlers.Some? {
      var m := p.handlers.value;
      assert m.types[0..] == m.types;
      RegisterAt(d.handlers, plugins, m, 0, t);
      RegisterFacts(d.handlers, plugins, m, 0);
    }
  }

  /** The walk stops early exactly when some part asks for a reboot. */
  lemma {:induction false} WalkRebootsIff(w: Walk, plugins: set<string>, parts: seq<Part>, i: nat)
    requires i <= |parts| && w.dispatch.handlers.Keys !! plugins && !w.reboot
    ensures WalkParts(w, plugins, parts, i).reboot <==> exists k :: i <= k < |parts| && AsksReboot(plugins, parts[k])
    decreases |parts| - i
  {
    if i < |parts| {
      PartAt(w.dispatch, plugins, parts[i], "");
      var r := PartResult(w.dispatch, plugins, parts[i]);
      if !r.1 {
        WalkRebootsIff(Walk(ProcessPart(w.dispatch, plugins, parts[i]), r.0, r.1), plugins, parts, i + 1);
      }
    }
  }

  /** The k-th part is the last that is processed. */
  predicate LastProcessed(plugins: set<string>, parts: seq<Part>, k: nat)
    requires k < |parts|
  {
    && (AsksReboot(plugins, parts[k]) || k == |parts| - 1)
    && forall j :: 0 <= j < k ==> !AsksReboot(plugins, parts[j])
  }

  lemma {:induction false} WalkStatus(w: Walk, plugins: set<string>, parts: seq<Part>, i: nat) returns (k: nat)
    requires i < |parts| && w.dispatch.handlers.Keys !! plugins
    requires forall j :: 0 <= j < i ==> !AsksReboot(plugins, parts[j])
    ensures i <= k < |parts| && LastProcessed(plugins, parts, k)
    ensures WalkParts(w, plugins, parts, i).status == NEXT_BOOT <==> AsksAgain(plugins, parts[k])
    decreases |parts| - i
  {
    PartAt(w.dispatch, plugins, parts[i], "");
    var r := PartResult(w.dispatch, plugins, parts[i]);
    var w' := Walk(ProcessPart(w.dispatch, plugins, parts[i]), r.0, r.1);
    k := i;
    if !r.1 && i + 1 < |parts| {
      k := WalkStatus(w', plugins, parts, i + 1);
    } else {
      assert i + 1 == |parts| ==> WalkParts(w', plugins, parts, i + 1) == w';
    }
  }

  lemma {:induction false} OneLast(plugins: set<string>, parts: seq<Part>, k: nat, l: nat)
    requires k < |parts| && LastProcessed(plugins, parts, k)
    requires l < |parts| && LastProcessed(plugins, parts, l)
    ensures k == l
  {
  }

  /** The status of a document is that of the last part that is processed; what an earlier part
      asks for is forgotten. */
  lemma {:induction false} StatusIff(plugins: set<string>, parts: seq<Part>)
    ensures WalkParts(START, plugins, parts, 0).status == NEXT_BOOT
       <==> exists k :: 0 <= k < |parts| && LastProcessed(plugins, parts, k) && AsksAgain(plugins, parts[k])
  {
    if parts != [] {
      var last := WalkStatus(START, plugins, parts, 0);
      forall k | 0 <= k < |parts| && LastProcessed(plugins, parts, k)
        ensures k == last
      {
        OneLast(plugins, parts, k, last);
      }
    }
  }

  /** A script that asks to run again, and another one after it that does not: DONE. */
  lemma {:induction false} RequestForgotten(plugins: set<string>, script: string, again: Part, other: Part)
    requires script in plugins && script != PART_HANDLER
    requires again == Part(script, false, Some(1002), None) && other == Part(script, false, Some(0), None)
    ensures WalkParts(START, plugins, [again, other], 0).status != NEXT_BOOT
    ensures WalkParts(START, plugins, [again], 0).status == NEXT_BOOT
  {
    StatusIff(plugins, [again, other]);
    StatusIff(plugins, [again]);
    assert [again][0] == again && LastProcessed(plugins, [again], 0);
    assert [again, other][1] == other && !LastProcessed(plugins, [again, other], 0);
  }

  /** After a walk to the end, a type belongs to the function of the last part that brings it. */
  lemma {:induction false} WalkAt(w: Walk, plugins: set<string>, parts: seq<Part>, i: nat, t: string)
    requires i <= |parts| && w.dispatch.handlers.Keys !! plugins && !w.reboot
    requires !WalkParts(w, plugins, parts, i).reboot
    ensures
      var before, r := w.dispatch.handlers, WalkParts(w, plugins, parts, i).dispatch.handlers;
      && (forall k :: i <= k < |parts| && BringsLast(plugins, parts, k, t) ==>
            t in r && r[t] == parts[k].handlers.value.func)
      && ((forall k :: i <= k < |parts| ==> !Brings(plugins, parts[k], t)) ==>
            (t in r <==> t in before) && (t in r ==> r[t] == before[t]))
    decreases |parts| - i
  {
    if i < |parts| {
      PartAt(w.dispatch, plugins, parts[i], t);
      var r := PartResult(w.dispatch, plugins, parts[i]);
      WalkAt(Walk(ProcessPart(w.dispatch, plugins, parts[i]), r.0, r.1), plugins, parts, i + 1, t);
    }
  }

  lemma {:induction false} LastBringer(plugins: set<string>, parts: seq<Part>, k: nat, t: string) returns (last: nat)
    requires k < |parts| && Brings(plugins, parts[k], t)
    ensures k <= last < |parts| && BringsLast(plugins, parts, last, t)
    decreases |parts| - k
  {
    if j :| k < j < |parts| && Brings(plugins, parts[j], t) {
      last := LastBringer(plugins, parts, j, t);
    } else {
      last := k;
    }
  }

  /* ---------- The trace, part by part ---------- */

  /** The last of the first k parts that brings a handler for the type, or -1. */
  function LastBringing(plugins: set<string>, parts: seq<Part>, k: nat, t: string): (j: int)
    requires k <= |parts|
    ensures -1 <= j < k && (j >= 0 ==> Brings(plugins, parts[j], t))
    ensures forall l :: j < l < k ==> !Brings(plugins, parts[l], t)
  {
    if k == 0 then -1
    else if Brings(plugins, parts[k - 1], t) then k - 1
    else LastBringing(plugins, parts, k - 1, t)
  }

  /** What the k-th part makes happen: a call of the function whose part was the last before it to
      bring a handler for its type; failing that, of the built-in plugin for the type; and the
      begin of a function that a part-handler part brings for some type of its own. */
  function EventsOf(plugins: set<string>, parts: seq<Part>, k: nat): seq<Event>
    requires k < |parts|
  {
    var p, j := parts[k], LastBringing(plugins, parts, k, parts[k].contentType);
    if j >= 0 then [Handled(parts[j].handlers.value.func, p.contentType)]
    else if p.contentType !in plugins then []
    else if exists t :: t in TypesOf(p) && Brings(plugins, p, t) then
      [Processed(p.contentType), Begin(p.handlers.value.func)]
    else [Processed(p.contentType)]
  }

  function TypesOf(p: Part): seq<string> {
    if p.handlers.Some? then p.handlers.value.types else []
  }

  /** What the first k parts make happen, in order. */
  function TraceOf(plugins: set<string>, parts: seq<Part>, k: nat): seq<Event>
    requires k <= |parts|
  {
    if k == 0 then [] else TraceOf(plugins, parts, k - 1) + EventsOf(plugins, parts, k - 1)
  }

  /** The dispatch after the first k parts, of which none asked for a reboot. */
  ghost predicate After(d: Dispatch, plugins: set<string>, parts: seq<Part>, k: nat)
    requires k <= |parts|
  {
    && d.trace == TraceOf(plugins, parts, k) && d.handlers.Keys !! plugins
    && forall t :: RegisteredAs(d.handlers, plugins, parts, k, t)
  }

  ghost predicate RegisteredAs(handlers: map<string, Func>, plugins: set<string>, parts: seq<Part>, k: nat, t: string)
    requires k <= |parts|
  {
    var j := LastBringing(plugins, parts, k, t);
    if j < 0 then t !in handlers else t in handlers && handlers[t] == parts[j].handlers.value.func
  }

  lemma {:induction false} OnePartAfter(d: Dispatch, plugins: set<string>, parts: seq<Part>, k: nat)
    requires k < |parts| && After(d, plugins, parts, k)
    ensures After(ProcessPart(d, plugins, parts[k]), plugins, parts, k + 1)
  {
    var p := parts[k];
    PartAt(d, plugins, p, "");
    OnePartTrace(d, plugins, parts, k);
    var handlers, next := ProcessPart(d, plugins, p).handlers, k + 1;
    forall t
      ensures RegisteredAs(handlers, plugins, parts, next, t)
    {
      assert RegisteredAs(d.handlers, plugins, parts, k, t);
      PartAt(d, plugins, p, t);
    }
  }

  lemma {:induction false} OnePartTrace(d: Dispatch, plugins: set<string>, parts: seq<Part>, k: nat)
    requires k < |parts| && After(d, plugins, parts, k)
    ensures ProcessPart(d, plugins, parts[k]).trace == d.trace + EventsOf(plugins, parts, k)
  {
    var p := parts[k];
    assert RegisteredAs(d.handlers, plugins, parts, k, p.contentType);
    if p.contentType == PART_HANDLER && p.contentType in plugins && !p.pluginRaises && p.handlers.Some? {
      var m := p.handlers.value;
      assert forall t :: Brings(plugins, p, t) <==> t in m.types && t !in plugins;
      if Registers(plugins, m) {
        var t :| t in m.types && t !in plugins;
        assert t in TypesOf(p) && Brings(plugins, p, t);
        assert d.trace + [Processed(p.contentType)] + [Begin(m.func)]
            == d.trace + [Processed(p.contentType), Begin(m.func)];
      }
    } else {
      assert forall t :: !Brings(plugins, p, t);
    }
  }

  /** The whole walk: the events of every part up to the last that is processed, and no others. */
  lemma {:induction false} WalkTrace(w: Walk, plugins: set<string>, parts: seq<Part>, i: nat, last: nat)
    requires i <= last < |parts| && LastProcessed(plugins, parts, last) && After(w.dispatch, plugins, parts, i)
    ensures WalkParts(w, plugins, parts, i).dispatch.trace == TraceOf(plugins, parts, last + 1)
    decreases |parts| - i
  {
    PartAt(w.dispatch, plugins, parts[i], "");
    OnePartAfter(w.dispatch, plugins, parts, i);
    var r := PartResult(w.dispatch, plugins, parts[i]);
    var w' := Walk(ProcessPart(w.dispatch, plugins, parts[i]), r.0, r.1);
    if i < last {
      WalkTrace(w', plugins, parts, i + 1, last);
    } else if !r.1 {
      assert WalkParts(w', plugins, parts, i + 1) == w';
    }
  }

  lemma {:induction false} DocumentTrace(plugins: set<string>, parts: seq<Part>, last: nat)
    requires last < |parts| && LastProcessed(plugins, parts, last)
    ensures WalkParts(START, plugins, parts, 0).dispatch.trace == TraceOf(plugins, parts, last + 1)
  {
    forall t
      ensures RegisteredAs(START.dispatch.handlers, plugins, parts, 0, t)
    {
    }
    WalkTrace(START, plugins, parts, 0, last);
  }

  /** Whether some type of the k-th part belongs to its function to the end. */
  ghost predicate KeepsType(plugins: set<string>, parts: seq<Part>, k: nat)
    requires k < |parts|
  {
    exists t :: BringsLast(plugins, parts, k, t)
  }

  /** Whether a part of the function keeps one of its types to the end. */
  ghost predicate Outlasts(plugins: set<string>, parts: seq<Part>, f: Func) {
    exists k :: 0 <= k < |parts| && KeepsType(plugins, parts, k) && parts[k].handlers.value.func == f
  }

  /** The functions registered at the end. */
  lemma {:induction false} RegisteredIff(plugins: set<string>, parts: seq<Part>, f: Func)
    requires !WalkParts(START, plugins, parts, 0).reboot
    ensures f in WalkParts(START, plugins, parts, 0).dispatch.handlers.Values <==> Outlasts(plugins, parts, f)
  {
    var r := WalkParts(START, plugins, parts, 0).dispatch.handlers;
    if t :| t in r && r[t] == f {
      WalkAt(START, plugins, parts, 0, t);
      var k :| 0 <= k < |parts| && Brings(plugins, parts[k], t);
      var last := LastBringer(plugins, parts, k, t);
      assert KeepsType(plugins, parts, last);
    }
    if k :| 0 <= k < |parts| && KeepsType(plugins, parts, k) && parts[k].handlers.value.func == f {
      var t :| BringsLast(plugins, parts, k, t);
      WalkAt(START, plugins, parts, 0, t);
    }
  }

  /** The whole trace of a document of which no part asks for a reboot, and no `__end__` call
      raises: a function gets its one end exactly when a part that brings it is the last to bring
      some type; and the end comes after all parts, and after its begin. */
  lemma {:induction false} Protocol(plugins: set<string>, parts: seq<Part>, ends: seq<Event>, f: Func)
    requires forall k :: 0 <= k < |parts| ==> !AsksReboot(plugins, parts[k])
    requires EndsOf(ends, WalkParts(START, plugins, parts, 0).dispatch.handlers.Values)
    ensures
      var w := WalkParts(START, plugins, parts, 0);
      && !w.reboot && w.dispatch.handlers.Keys !! plugins
      && End(f) !in w.dispatch.trace
      && multiset(w.dispatch.trace + ends)[End(f)] == (if Outlasts(plugins, parts, f) then 1 else 0)
      && (End(f) in ends ==> Begin(f) in w.dispatch.trace)
  {
    var d := WalkParts(START, plugins, parts, 0).dispatch;
    WalkRebootsIff(START, plugins, parts, 0);
    RegisteredIff(plugins, parts, f);
    WalkKeepsInv(START, plugins, parts, 0);
    EndsOfMeaning(ends, d.handlers.Values, End(f));
    forall i | 0 <= i < |d.trace|
      ensures !d.trace[i].End?
    {
      OrderedMeaning(d.trace, i);
    }
    if End(f) in ends {
      assert f in d.handlers.Values;
      var j := BegunAt(d.trace, f);
    }
  }

  /** A part that brings some type tells its function of the begin. */
  lemma {:induction false} BringerBegins(w: Walk, plugins: set<string>, parts: seq<Part>, i: nat, k: nat, t: string)
    requires i <= k < |parts| && w.dispatch.handlers.Keys !! plugins && !w.reboot
    requires !WalkParts(w, plugins, parts, i).reboot && Brings(plugins, parts[k], t)
    ensures Begin(parts[k].handlers.value.func) in WalkParts(w, plugins, parts, i).dispatch.trace
    decreases k - i
  {
    var r := PartResult(w.dispatch, plugins, parts[i]);
    var w' := Walk(ProcessPart(w.dispatch, plugins, parts[i]), r.0, r.1);
    PartAt(w.dispatch, plugins, parts[i], t);
    if i < k {
      BringerBegins(w', plugins, parts, i + 1, k, t);
    } else {
      assert Registers(plugins, parts[k].handlers.value);
      assert w'.dispatch.trace[|w'.dispatch.trace| - 1] == Begin(parts[k].handlers.value.func);
      WalkExtends(w', plugins, parts, i + 1, Begin(parts[k].handlers.value.func));
    }
  }

  lemma {:induction false} WalkExtends(w: Walk, plugins: set<string>, parts: seq<Part>, i: nat, e: Event)
    requires i <= |parts| && e in w.dispatch.trace
    ensures e in WalkParts(w, plugins, parts, i).dispatch.trace
    decreases |parts| - i
  {
    if i < |parts| {
      var r := PartResult(w.dispatch, plugins, parts[i]);
      if !r.1 {
        WalkExtends(Walk(ProcessPart(w.dispatch, plugins, parts[i]), r.0, r.1), plugins, parts, i + 1, e);
      }
    }
  }

  /** A module that brings the type x for the function. */
  function Bringing(f: Func): Part {
    Part(PART_HANDLER, false, None, Some(HandlerModule(["text/x"], f)))
  }

  /** Two modules for one type: the first one's function is told of the begin, and in no completed
      trace of the end. */
  lemma {:induction false} ReplacedHandlerNeverEnds(ends: seq<Event>)
    requires EndsOf(ends, WalkParts(START, {PART_HANDLER}, [Bringing(1), Bringing(2)], 0).dispatch.handlers.Values)
    ensures
      var d := WalkParts(START, {PART_HANDLER}, [Bringing(1), Bringing(2)], 0).dispatch;
      Begin(1) in d.trace && End(1) !in d.trace + ends && multiset(ends)[End(2)] == 1
  {
    var plugins, parts := {PART_HANDLER}, [Bringing(1), Bringing(2)];
    BothBring(plugins, parts);
    Protocol(plugins, parts, ends, 1);
    Protocol(plugins, parts, ends, 2);
    BringerBegins(START, plugins, parts, 0, 0, "text/x");
    var d := WalkParts(START, plugins, parts, 0).dispatch;
    assert multiset(d.trace + ends)[End(1)] == 0;
    assert End(2) !in d.trace;
  }

  lemma {:induction false} BothBring(plugins: set<string>, parts: seq<Part>)
    requires plugins == {PART_HANDLER} && parts == [Bringing(1), Bringing(2)]
    ensures Brings(plugins, parts[0], "text/x")
    ensures !Outlasts(plugins, parts, 1) && Outlasts(plugins, parts, 2)
    ensures forall k :: 0 <= k < |parts| ==> !AsksReboot(plugins, parts[k])
  {
    assert HandlerModule(["text/x"], 1).types[0] == "text/x" && HandlerModule(["text/x"], 2).types[0] == "text/x";
    assert BringsLast(plugins, parts, 1, "text/x");
    assert KeepsType(plugins, parts, 1);
    forall t
      ensures !BringsLast(plugins, parts, 0, t)
    {
      assert Brings(plugins, parts[0], t) ==> Brings(plugins, parts[1], t);
    }
  }
}
