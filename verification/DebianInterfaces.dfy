/** The parser of Debian network configuration: blocks of lines, and one NIC for each block. */
module DebianInterfaces {
  import opened Basics
  import opened Text

  /* ---------- Lines and blocks, specified ---------- */

  /** Stripped lines that are neither blank nor comments. */
  function Kept(data: seq<string>): seq<string> {
    if data == [] then []
    else
      var line, rest := Strip(data[0]), Kept(data[1..]);
      if line == "" || line[0] == '#' then rest else [line] + rest
  }

  /** The kept lines from the i-th on. */
  function KeptFrom(data: seq<string>, i: nat): seq<string>
    requires i <= |data|
    decreases |data| - i
  {
    if i == |data| then []
    else
      var line, rest := Strip(data[i]), KeptFrom(data, i + 1);
      if line == "" || line[0] == '#' then rest else [line] + rest
  }

  lemma {:induction false} KeptFromRest(data: seq<string>, i: nat)
    requires i <= |data|
    ensures KeptFrom(data, i) == Kept(data[i..])
    decreases |data| - i
  {
    if i < |data| {
      KeptFromRest(data, i + 1);
      assert data[i..][0] == data[i] && data[i..][1..] == data[i + 1..];
    }
  }

  predicate IsIface(line: string) {
    Contains(line, "iface")
  }

  /** The blocks of the remaining lines when the current block already has some. */
  function BlocksFrom(current: seq<string>, rest: seq<string>): seq<seq<string>>
    decreases |rest|
  {
    if rest == [] then Flush(current)
    else if IsIface(rest[0]) then Flush(current) + BlocksFrom([rest[0]], rest[1..])
    else BlocksFrom(current + [rest[0]], rest[1..])
  }

  function Flush(block: seq<string>): seq<seq<string>> {
    if block == [] then [] else [block]
  }

  function Blocks(data: seq<string>): seq<seq<string>> {
    BlocksFrom([], Kept(data))
  }

  function Concat(blocks: seq<seq<string>>): seq<string> {
    if blocks == [] then [] else blocks[0] + Concat(blocks[1..])
  }

  /* ---------- NICs, specified ---------- */

  datatype Field =
    | Name | Mac | Address | Address6 | Netmask | Netmask6 | Broadcast | Gateway | Gateway6 | DnsNameservers

  /** The fields a line matches and the texts it matches there; and the value a text stands for. */
  datatype Matcher = Matcher(fields: string -> seq<(Field, string)>, value: (Field, string) -> seq<string>)

  type Nic = map<Field, seq<string>>

  /** The field's value under `iface[field]`; the text None removes it. */
  function SetField(nic: Nic, m: Matcher, field: Field, text: string): Nic {
    if text == "None" then nic - {field} else nic[field := m.value(field, text)]
  }

  function SetFields(nic: Nic, m: Matcher, found: seq<(Field, string)>): Nic
    decreases |found|
  {
    if found == [] then nic
    else SetFields(SetField(nic, m, found[0].0, found[0].1), m, found[1..])
  }

  /** Everything the lines of a block match, in order. */
  function Found(m: Matcher, block: seq<string>): seq<(Field, string)> {
    if block == [] then [] else m.fields(block[0]) + Found(m, block[1..])
  }

  /** The fields of V6_PROXY. */
  function Proxy(field: Field): Option<Field> {
    match field
    case Address => Some(Address6)
    case Netmask => Some(Netmask6)
    case Gateway => Some(Gateway6)
    case Name => Some(Name)
    case Mac => Some(Mac)
    case _ => None
  }

  /** What lines of a second half mean: matches of the version 6 fields; others are dropped. */
  function Proxied(found: seq<(Field, string)>): seq<(Field, string)> {
    if found == [] then []
    else
      var field, rest := Proxy(found[0].0), Proxied(found[1..]);
      if field.None? then rest else [(field.value, found[0].1)] + rest
  }

  /** What lines of a half mean. */
  function Routed(useProxy: bool, found: seq<(Field, string)>): seq<(Field, string)> {
    if useProxy then Proxied(found) else found
  }

  /** The NIC after one match of a half. */
  function TakeMatch(nic: Nic, m: Matcher, useProxy: bool, found: (Field, string)): Nic {
    var field := if useProxy then Proxy(found.0) else Some(found.0);
    if field.Some? then SetField(nic, m, field.value, found.1) else nic
  }

  /** One match after the other. */
  lemma {:induction false} RoutedNext(
    nic: Nic, m: Matcher, useProxy: bool, found: seq<(Field, string)>, k: nat, tail: seq<(Field, string)>)
    requires k < |found|
    ensures SetFields(nic, m, Routed(useProxy, found[k..] + tail)) ==
            SetFields(TakeMatch(nic, m, useProxy, found[k]), m, Routed(useProxy, found[k + 1..] + tail))
  {
    var all := found[k..] + tail;
    assert all[0] == found[k] && all[1..] == found[k + 1..] + tail;
    var field, rest := Proxy(all[0].0), Proxied(all[1..]);
    if useProxy && field.Some? {
      assert ([(field.value, all[0].1)] + rest)[1..] == rest;
    }
  }

  /** The NIC after the matches of a line from the k-th on. */
  function TakeMatches(nic: Nic, m: Matcher, useProxy: bool, found: seq<(Field, string)>, k: nat): Nic
    requires k <= |found|
    decreases |found| - k
  {
    if k == |found| then nic else TakeMatches(TakeMatch(nic, m, useProxy, found[k]), m, useProxy, found, k + 1)
  }

  /** The NIC after the lines of a half from the i-th on. */
  function TakeLines(nic: Nic, m: Matcher, useProxy: bool, lines: seq<string>, i: nat): Nic
    requires i <= |lines|
    decreases |lines| - i
  {
    if i == |lines| then nic
    else TakeLines(TakeMatches(nic, m, useProxy, m.fields(lines[i]), 0), m, useProxy, lines, i + 1)
  }

  lemma {:induction false} TakeMatchesSet(
    nic: Nic, m: Matcher, useProxy: bool, found: seq<(Field, string)>, k: nat, tail: seq<(Field, string)>)
    requires k <= |found|
    ensures SetFields(nic, m, Routed(useProxy, found[k..] + tail)) ==
            SetFields(TakeMatches(nic, m, useProxy, found, k), m, Routed(useProxy, tail))
    decreases |found| - k
  {
    if k == |found| {
      assert found[k..] + tail == tail;
    } else {
      RoutedNext(nic, m, useProxy, found, k, tail);
      TakeMatchesSet(TakeMatch(nic, m, useProxy, found[k]), m, useProxy, found, k + 1, tail);
    }
  }

  /** Line by line is match by match. */
  lemma {:induction false} TakeLinesSet(nic: Nic, m: Matcher, useProxy: bool, lines: seq<string>, i: nat)
    requires i <= |lines|
    ensures TakeLines(nic, m, useProxy, lines, i) == SetFields(nic, m, Routed(useProxy, Found(m, lines[i..])))
    decreases |lines| - i
  {
    if i < |lines| {
      var found := m.fields(lines[i]);
      TakeMatchesSet(nic, m, useProxy, found, 0, Found(m, lines[i + 1..]));
      TakeLinesSet(TakeMatches(nic, m, useProxy, found, 0), m, useProxy, lines, i + 1);
      assert lines[i..][0] == lines[i] && lines[i..][1..] == lines[i + 1..] && found[0..] == found;
    }
  }

  function NicOf(m: Matcher, block: seq<string>): Nic {
    SetFields(map[], m, Found(m, block))
  }

  /** One NIC for each block that says anything. */
  function Nics(m: Matcher, blocks: seq<seq<string>>): seq<Nic> {
    if blocks == [] then []
    else
      var nic, rest := NicOf(m, blocks[0]), Nics(m, blocks[1..]);
      if nic == map[] then rest else [nic] + rest
  }

  /* ---------- The parser ---------- */

  /** A Python list of lines, changed in place. */
  class LineList {
    var items: seq<string>

    constructor ()
      ensures items == []
    {
      items := [];
    }
  }

  class Parser {
    const m: Matcher
    var nics: seq<Nic>
    /** The pairs of halves that were yielded, as they were then. */
    ghost var yielded: seq<(seq<string>, seq<string>)>

    constructor (m: Matcher)
      ensures this.m == m && nics == [] && yielded == []
    {
      this.m, nics, yielded := m, [], [];
    }

    method ReadLines(nic: Nic, lines: seq<string>, useProxy: bool) returns (r: Nic)
      ensures r == SetFields(nic, m, Routed(useProxy, Found(m, lines)))
    {
      r := nic;
      ghost var goal := TakeLines(nic, m, useProxy, lines, 0);
      var i := 0;
      while i < |lines|
        invariant i <= |lines| && TakeLines(r, m, useProxy, lines, i) == goal
      {
        var found := m.fields(lines[i]);
        ghost var after := TakeMatches(r, m, useProxy, found, 0);
        var k := 0;
        while k < |found|
          invariant k <= |found| && TakeMatches(r, m, useProxy, found, k) == after
        {
          var field := Some(found[k].0);
          if useProxy {
            field := Proxy(found[k].0);
          }
          if field.Some? {
            r := SetField(r, m, field.value, found[k].1);
          }
          k := k + 1;
        }
        i := i + 1;
      }
      TakeLinesSet(nic, m, useProxy, lines, 0);
      assert lines[0..] == lines;
    }

    /** The body of the loop in `parse`, on a yielded pair of lists. */
    method AddNic(lines: LineList, lines6: LineList)
      modifies this
      ensures yielded == old(yielded) + [(lines.items, lines6.items)]
      ensures
        var nic := SetFields(NicOf(m, lines.items), m, Routed(true, Found(m, lines6.items)));
        nics == old(nics) + if nic == map[] then [] else [nic]
    {
      yielded := yielded + [(lines.items, lines6.items)];
      var nic := ReadLines(map[], lines.items, false);
      nic := ReadLines(nic, lines6.items, true);
      if nic != map[] {
        nics := nics + [nic];
      }
    }

    /** The end of a block: it is yielded unless it is empty. */
    method Yield(lines: LineList, lines6: LineList)
      requires lines6.items == []
      modifies this
      ensures yielded == old(yielded) + Pairs(Flush(lines.items))
      ensures nics == old(nics) + Nics(m, Flush(lines.items))
    {
      if lines.items != [] {
        AddNic(lines, lines6);
      }
    }

    /** The generator's loop body on a kept line: the two lists are handed over and cleared in place. */
    method TakeLine(line: string, lines: LineList, lines6: LineList)
      requires lines != lines6 && lines6.items == []
      modifies this, lines, lines6
      ensures lines6.items == []
      ensures lines.items == if IsIface(line) then [line] else old(lines.items) + [line]
      ensures
        var ended := if IsIface(line) then Flush(old(lines.items)) else [];
        yielded == old(yielded) + Pairs(ended) && nics == old(nics) + Nics(m, ended)
    {
      var current := lines;
      if Contains(line, "iface") {
        if Contains(line, "inet6") {
          current := lines6;
        }
        Yield(lines, lines6);
        lines.items, lines6.items := [], [];
        current := lines;
      }
      current.items := current.items + [line];
    }

    /** `parse`, which consumes the generator of blocks. */
    method Parse(data: seq<string>)
      requires nics == [] && yielded == []
      modifies this
      ensures yielded == Pairs(Blocks(data))
      ensures nics == Nics(m, Blocks(data))
    {
      var lines := new LineList();
      var lines6 := new LineList();
      ghost var goal := Reading(m, [], [], [], data, 0);
      var i := 0;
      while i < |data|
        invariant i <= |data|
        invariant lines != lines6 && fresh(lines) && fresh(lines6) && lines6.items == []
        invariant Reading(m, yielded, nics, lines.items, data, i) == goal
      {
        var line := Strip(data[i]);
        if line != "" && line[0] != '#' {
          TakeLine(line, lines, lines6);
        }
        i := i + 1;
      }
      Yield(lines, lines6);
      ReadingIsBlocks(m, data);
    }
  }

  /** What is yielded, and the NICs, once the lines from the i-th on are read. */
  ghost function Reading(
    m: Matcher, yielded: seq<(seq<string>, seq<string>)>, nics: seq<Nic>, current: seq<string>, data: seq<string>, i: nat)
    : (seq<(seq<string>, seq<string>)>, seq<Nic>)
    requires i <= |data|
    decreases |data| - i
  {
    if i == |data| then (yielded + Pairs(Flush(current)), nics + Nics(m, Flush(current)))
    else
      var line := Strip(data[i]);
      if line == "" || line[0] == '#' then Reading(m, yielded, nics, current, data, i + 1)
      else
        var ended := if IsIface(line) then Flush(current) else [];
        var next := if IsIface(line) then [line] else current + [line];
        Reading(m, yielded + Pairs(ended), nics + Nics(m, ended), next, data, i + 1)
  }

  lemma {:induction false} ReadingYieldsBlocks(
    m: Matcher, yielded: seq<(seq<string>, seq<string>)>, nics: seq<Nic>, current: seq<string>, data: seq<string>, i: nat)
    requires i <= |data|
    ensures
      var blocks := BlocksFrom(current, KeptFrom(data, i));
      Reading(m, yielded, nics, current, data, i) == (yielded + Pairs(blocks), nics + Nics(m, blocks))
    decreases |data| - i
  {
    if i < |data| {
      var line, rest := Strip(data[i]), KeptFrom(data, i + 1);
      if line == "" || line[0] == '#' {
        ReadingYieldsBlocks(m, yielded, nics, current, data, i + 1);
      } else {
        var ended := if IsIface(line) then Flush(current) else [];
        var next := if IsIface(line) then [line] else current + [line];
        ReadingYieldsBlocks(m, yielded + Pairs(ended), nics + Nics(m, ended), next, data, i + 1);
        Step(m, current, line, rest);
        Associates(yielded, Pairs(ended), Pairs(BlocksFrom(next, rest)));
        Associates(nics, Nics(m, ended), Nics(m, BlocksFrom(next, rest)));
      }
    }
  }

  lemma {:induction false} ReadingIsBlocks(m: Matcher, data: seq<string>)
    ensures Reading(m, [], [], [], data, 0) == (Pairs(Blocks(data)), Nics(m, Blocks(data)))
  {
    ReadingYieldsBlocks(m, [], [], [], data, 0);
    KeptFromRest(data, 0);
    assert data[0..] == data;
    assert [] + Pairs(Blocks(data)) == Pairs(Blocks(data)) && [] + Nics(m, Blocks(data)) == Nics(m, Blocks(data));
  }

  /** Yielded pairs with nothing in their second halves. */
  function Pairs(blocks: seq<seq<string>>): seq<(seq<string>, seq<string>)> {
    seq(|blocks|, i requires 0 <= i < |blocks| => (blocks[i], []))
  }

  lemma {:induction false} Step(m: Matcher, current: seq<string>, line: string, rest: seq<string>)
    ensures
      var ended := if IsIface(line) then Flush(current) else [];
      var after := BlocksFrom(if IsIface(line) then [line] else current + [line], rest);
      && Pairs(BlocksFrom(current, [line] + rest)) == Pairs(ended) + Pairs(after)
      && Nics(m, BlocksFrom(current, [line] + rest)) == Nics(m, ended) + Nics(m, after)
  {
    var ended := if IsIface(line) then Flush(current) else [];
    var after := BlocksFrom(if IsIface(line) then [line] else current + [line], rest);
    assert ([line] + rest)[1..] == rest;
    assert BlocksFrom(current, [line] + rest) == ended + after;
    PairsAppended(ended, after);
    NicsAppended(m, ended, after);
  }

  lemma {:induction false} PairsAppended(a: seq<seq<string>>, b: seq<seq<string>>)
    ensures Pairs(a + b) == Pairs(a) + Pairs(b)
  {
  }

  lemma {:induction false} NicsAppended(m: Matcher, a: seq<seq<string>>, b: seq<seq<string>>)
    ensures Nics(m, a + b) == Nics(m, a) + Nics(m, b)
  {
    if a == [] {
      assert a + b == b;
    } else {
      NicsAppended(m, a[1..], b);
      assert (a + b)[0] == a[0] && (a + b)[1..] == a[1..] + b;
      Associates([NicOf(m, a[0])], Nics(m, a[1..]), Nics(m, b));
    }
  }

  /* ---------- Blocks conserve the lines ---------- */

  /** The line has the letters of an interface in it. */
  predicate NamesInterface(line: string) {
    exists i :: 0 <= i <= |line| - 5 && IfaceAt(line, i)
  }

  predicate IfaceAt(line: string, i: nat)
    requires i + 5 <= |line|
  {
    line[i] == 'i' && line[i + 1] == 'f' && line[i + 2] == 'a' && line[i + 3] == 'c' && line[i + 4] == 'e'
  }

  lemma {:induction false} NamesInterfaceIff(line: string)
    ensures NamesInterface(line) <==> IsIface(line)
  {
    forall i | 0 <= i <= |line| - 5
      ensures IfaceAt(line, i) <==> OccursAt(line, "iface", i)
    {
      var part := line[i..i + 5];
      assert part == "iface" <==>
        part[0] == 'i' && part[1] == 'f' && part[2] == 'a' && part[3] == 'c' && part[4] == 'e';
    }
  }

  /** A line that opens an interface can only be the first of a block. */
  predicate OpensOnlyAtStart(block: seq<string>) {
    block != [] && forall i :: 0 < i < |block| ==> !NamesInterface(block[i])
  }

  lemma {:induction false} BlocksConserve(current: seq<string>, rest: seq<string>)
    requires current == [] || OpensOnlyAtStart(current)
    ensures Concat(BlocksFrom(current, rest)) == current + rest
    ensures forall b :: b in BlocksFrom(current, rest) ==> OpensOnlyAtStart(b)
    decreases |rest|
  {
    if rest != [] {
      NamesInterfaceIff(rest[0]);
    }
    if rest == [] {
    } else if IsIface(rest[0]) {
      BlocksConserve([rest[0]], rest[1..]);
      FlushFirst(current, BlocksFrom([rest[0]], rest[1..]));
      assert current + rest == current + ([rest[0]] + rest[1..]);
    } else {
      BlocksConserve(current + [rest[0]], rest[1..]);
      assert current + rest == (current + [rest[0]]) + rest[1..];
    }
  }

  lemma {:induction false} FlushFirst(current: seq<string>, blocks: seq<seq<string>>)
    ensures Concat(Flush(current) + blocks) == current + Concat(blocks)
  {
    if current == [] {
      assert [] + blocks == blocks;
    } else {
      assert ([current] + blocks)[1..] == blocks;
    }
  }

  /** Every block but the first opens an interface. */
  lemma {:induction false} LaterBlocksOpen(current: seq<string>, rest: seq<string>, i: nat)
    requires 0 < i < |BlocksFrom(current, rest)|
    ensures BlocksFrom(current, rest)[i] != [] && NamesInterface(BlocksFrom(current, rest)[i][0])
    decreases |rest|
  {
    if rest != [] {
      NamesInterfaceIff(rest[0]);
      if !IsIface(rest[0]) {
        LaterBlocksOpen(current + [rest[0]], rest[1..], i);
      } else {
        var tail := BlocksFrom([rest[0]], rest[1..]);
        FirstBlock([rest[0]], rest[1..]);
        var j := i - |Flush(current)|;
        assert BlocksFrom(current, rest)[i] == tail[j];
        if j > 0 {
          LaterBlocksOpen([rest[0]], rest[1..], j);
        }
      }
    }
  }

  lemma {:induction false} FirstBlock(current: seq<string>, rest: seq<string>)
    requires current != []
    ensures BlocksFrom(current, rest) != [] && current <= BlocksFrom(current, rest)[0]
    decreases |rest|
  {
    if rest != [] && !IsIface(rest[0]) {
      FirstBlock(current + [rest[0]], rest[1..]);
    }
  }

  /** The yielded first halves are exactly the kept lines, in order. */
  lemma {:induction false} ParseConservesLines(data: seq<string>)
    ensures Concat(Blocks(data)) == Kept(data)
    ensures forall b :: b in Blocks(data) ==> OpensOnlyAtStart(b)
  {
    BlocksConserve([], Kept(data));
    assert [] + Kept(data) == Kept(data);
  }

  /* ---------- Every field from its own block ---------- */

  /** The last match of a field decides it. */
  lemma {:induction false} LastMatchDecides(
    nic: Nic, m: Matcher, found: seq<(Field, string)>, field: Field) returns (k: int)
    ensures -1 <= k < |found| && (k >= 0 ==> found[k].0 == field)
    ensures forall j :: k < j < |found| ==> found[j].0 != field
    ensures
      var r := SetFields(nic, m, found);
      if k < 0 then (field in r <==> field in nic) && (field in r ==> r[field] == nic[field])
      else if found[k].1 == "None" then field !in r
      else field in r && r[field] == m.value(field, found[k].1)
    decreases |found|
  {
    k := -1;
    if found != [] {
      var j := LastMatchDecides(SetField(nic, m, found[0].0, found[0].1), m, found[1..], field);
      if j >= 0 {
        k := j + 1;
      } else if found[0].0 == field {
        k := 0;
      }
      assert forall i :: 0 < i < |found| ==> found[i] == found[1..][i - 1];
    }
  }

  /* ---------- Which lines are kept ---------- */

  /** The line says something: it is neither blank nor a comment. */
  predicate SaysSomething(line: string) {
    exists i :: 0 <= i < |line| && FirstIs(line, i) && line[i] != '#'
  }

  /** The i-th character is the first that is no white space. */
  predicate FirstIs(line: string, i: nat) {
    i < |line| && !IsSpace(line[i]) && AllSpace(line[..i])
  }

  lemma {:induction false} SaysSomethingIff(line: string)
    ensures SaysSomething(line) <==> Strip(line) != "" && Strip(line)[0] != '#'
  {
    var a, b := StripMeaning(line);
    if a < b {
      assert FirstIs(line, a);
      assert forall i :: FirstIs(line, i) ==> !(i < a) && !(a < i);
    } else {
      assert AllSpace(line);
    }
  }

  /** How many of the first i lines say something. */
  function KeptBefore(data: seq<string>, i: nat): nat
    requires i <= |data|
  {
    if i == 0 then 0 else KeptBefore(data, i - 1) + if SaysSomething(data[i - 1]) then 1 else 0
  }

  lemma {:induction false} KeptBeforeRest(data: seq<string>, i: nat)
    requires 0 < i <= |data|
    ensures KeptBefore(data, i) == (if SaysSomething(data[0]) then 1 else 0) + KeptBefore(data[1..], i - 1)
  {
    if i > 1 {
      KeptBeforeRest(data, i - 1);
    }
  }

  lemma {:induction false} KeptCount(data: seq<string>)
    ensures |Kept(data)| == KeptBefore(data, |data|)
  {
    if data != [] {
      SaysSomethingIff(data[0]);
      KeptCount(data[1..]);
      KeptBeforeRest(data, |data|);
    }
  }

  /** Every line that says something is kept, stripped and in its place, and no other is. */
  lemma {:induction false} KeptMeaning(data: seq<string>, i: nat)
    requires i < |data| && SaysSomething(data[i])
    ensures |Kept(data)| == KeptBefore(data, |data|) > KeptBefore(data, i)
    ensures Kept(data)[KeptBefore(data, i)] == Strip(data[i])
  {
    KeptCount(data);
    SaysSomethingIff(data[0]);
    KeptBeforeRest(data, |data|);
    if i > 0 {
      KeptMeaning(data[1..], i - 1);
      KeptBeforeRest(data, i);
    }
  }

  /* ---------- Which blocks make a NIC ---------- */

  /** The k-th match of the i-th line is the last of the block for the field. */
  predicate LastMatch(m: Matcher, block: seq<string>, field: Field, i: nat, k: nat) {
    && i < |block| && k < |m.fields(block[i])| && m.fields(block[i])[k].0 == field
    && (forall l :: k < l < |m.fields(block[i])| ==> m.fields(block[i])[l].0 != field)
    && (forall j :: i < j < |block| ==> NoMatch(m, block[j], field))
  }

  predicate NoMatch(m: Matcher, line: string, field: Field) {
    forall l :: 0 <= l < |m.fields(line)| ==> m.fields(line)[l].0 != field
  }

  /** Every field of the NIC of a block has the value of the last match in the lines of the block,
      or none where there is no match or the text there is None. */
  lemma {:induction false} FieldOfNic(m: Matcher, block: seq<string>, field: Field) returns (i: nat, k: nat)
    ensures
      if i == |block| then (forall j :: 0 <= j < |block| ==> NoMatch(m, block[j], field)) && field !in NicOf(m, block)
      else
        LastMatch(m, block, field, i, k)
        && var text := m.fields(block[i])[k].1;
           if text == "None" then field !in NicOf(m, block)
           else field in NicOf(m, block) && NicOf(m, block)[field] == m.value(field, text)
  {
    var last := LastMatchDecides(map[], m, Found(m, block), field);
    i, k := MatchAt(m, block, field, last);
  }

  lemma {:induction false} LastMatchRest(m: Matcher, block: seq<string>, field: Field, i: nat, k: nat)
    requires block != [] && LastMatch(m, block[1..], field, i, k)
    ensures LastMatch(m, block, field, i + 1, k) && m.fields(block[i + 1]) == m.fields(block[1..][i])
  {
    assert block[i + 1] == block[1..][i];
    assert forall j :: 0 < j < |block| ==> block[j] == block[1..][j - 1];
  }

  /** The matches of a block are those of its first line and then the others. */
  lemma {:induction false} FoundParts(m: Matcher, block: seq<string>, j: nat)
    requires block != [] && j < |Found(m, block)|
    ensures
      var n := |m.fields(block[0])|;
      |Found(m, block)| == n + |Found(m, block[1..])|
      && Found(m, block)[j] == if j < n then m.fields(block[0])[j] else Found(m, block[1..])[j - n]
  {
  }

  predicate NoneFound(m: Matcher, block: seq<string>, field: Field, from: int) {
    forall j :: 0 <= j < |Found(m, block)| && j >= from ==> Found(m, block)[j].0 != field
  }

  lemma {:induction false} NoneFoundParts(m: Matcher, block: seq<string>, field: Field, from: int)
    requires block != []
    ensures
      var n := |m.fields(block[0])|;
      NoneFound(m, block, field, from) <==>
        (forall j :: 0 <= j < n && j >= from ==> m.fields(block[0])[j].0 != field)
        && NoneFound(m, block[1..], field, from - n)
  {
    var n, rest := |m.fields(block[0])|, Found(m, block[1..]);
    forall j | 0 <= j < |Found(m, block)|
      ensures Found(m, block)[j] == if j < n then m.fields(block[0])[j] else rest[j - n]
    {
      FoundParts(m, block, j);
    }
    assert forall j :: 0 <= j < |rest| ==> rest[j] == Found(m, block)[n + j];
  }

  lemma {:induction false} NoneFoundLines(m: Matcher, block: seq<string>, field: Field)
    ensures NoneFound(m, block, field, 0) <==> forall j :: 0 <= j < |block| ==> NoMatch(m, block[j], field)
  {
    if block != [] {
      NoneFoundLines(m, block[1..], field);
      NoneFoundParts(m, block, field, 0);
      NoneFoundFrom(m, block[1..], field, -|m.fields(block[0])|);
      assert forall j :: 0 < j < |block| ==> block[j] == block[1..][j - 1];
    }
  }

  lemma {:induction false} NoneFoundFrom(m: Matcher, block: seq<string>, field: Field, from: int)
    requires from <= 0
    ensures NoneFound(m, block, field, from) <==> NoneFound(m, block, field, 0)
  {
  }

  /** The line and the place in it of the last match. */
  lemma {:induction false} MatchAt(m: Matcher, block: seq<string>, field: Field, last: int) returns (i: nat, k: nat)
    requires -1 <= last < |Found(m, block)| && (last >= 0 ==> Found(m, block)[last].0 == field)
    requires NoneFound(m, block, field, last + 1)
    ensures last < 0 ==> i == |block| && forall j :: 0 <= j < |block| ==> NoMatch(m, block[j], field)
    ensures last >= 0 ==> LastMatch(m, block, field, i, k) && m.fields(block[i])[k] == Found(m, block)[last]
  {
    i, k := |block|, 0;
    if last < 0 {
      NoneFoundLines(m, block, field);
    } else {
      var n := |m.fields(block[0])|;
      FoundParts(m, block, last);
      NoneFoundParts(m, block, field, last + 1);
      if last >= n {
        var i', k' := MatchAt(m, block[1..], field, last - n);
        LastMatchRest(m, block, field, i', k');
        i, k := i' + 1, k';
      } else {
        NoneFoundFrom(m, block[1..], field, last + 1 - n);
        NoneFoundLines(m, block[1..], field);
        assert forall j :: 0 < j < |block| ==> block[j] == block[1..][j - 1];
        i, k := 0, last;
      }
    }
  }

  /** How many of the first i blocks say anything of a NIC. */
  function NicsBefore(m: Matcher, blocks: seq<seq<string>>, i: nat): nat
    requires i <= |blocks|
  {
    if i == 0 then 0 else NicsBefore(m, blocks, i - 1) + if |NicOf(m, blocks[i - 1])| > 0 then 1 else 0
  }

  lemma {:induction false} NicsBeforeRest(m: Matcher, blocks: seq<seq<string>>, i: nat)
    requires 0 < i <= |blocks|
    ensures NicsBefore(m, blocks, i) ==
      (if |NicOf(m, blocks[0])| > 0 then 1 else 0) + NicsBefore(m, blocks[1..], i - 1)
  {
    if i > 1 {
      NicsBeforeRest(m, blocks, i - 1);
    }
  }

  lemma {:induction false} NicsCount(m: Matcher, blocks: seq<seq<string>>)
    ensures |Nics(m, blocks)| == NicsBefore(m, blocks, |blocks|)
  {
    if blocks != [] {
      NicsCount(m, blocks[1..]);
      NicsBeforeRest(m, blocks, |blocks|);
    }
  }

  /** Every block with some field makes a NIC, in its place, and no other does. */
  lemma {:induction false} NicOfBlock(m: Matcher, blocks: seq<seq<string>>, i: nat)
    requires i < |blocks| && NicOf(m, blocks[i]) != map[]
    ensures |Nics(m, blocks)| == NicsBefore(m, blocks, |blocks|) > NicsBefore(m, blocks, i)
    ensures Nics(m, blocks)[NicsBefore(m, blocks, i)] == NicOf(m, blocks[i])
  {
    NicsCount(m, blocks);
    NicsBeforeRest(m, blocks, |blocks|);
    assert |NicOf(m, blocks[i])| > 0;
    if i > 0 {
      NicOfBlock(m, blocks[1..], i - 1);
      NicsBeforeRest(m, blocks, i);
    }
  }
}
