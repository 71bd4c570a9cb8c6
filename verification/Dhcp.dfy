/**
 The DHCP client's request and its parser of replies: section 2 of RFC 2131 for the fixed
 fields and section 2 of RFC 2132 for the options.
 */
module Dhcp {
  import opened Basics

  type Bytes = seq<byte>

  const COOKIE: Bytes := [0x63, 0x82, 0x53, 0x63]
  const OPTION_END: byte := 0xff
  const OPTION_PAD: byte := 0x00

  /* ---------- Options ---------- */

  datatype Opt = Opt(code: byte, value: Bytes)

  /** An option as it is sent: code, length, value. */
  function Encode(o: Opt): Bytes
    requires |o.value| < 256
  {
    [o.code, |o.value|] + o.value
  }

  predicate Sendable(opts: seq<Opt>) {
    forall i :: 0 <= i < |opts| ==> opts[i].code != OPTION_END && |opts[i].value| < 256
  }

  function EncodeAll(opts: seq<Opt>): Bytes
    requires Sendable(opts)
  {
    if opts == [] then [] else Encode(opts[0]) + EncodeAll(opts[1..])
  }

  /** Later values replace earlier ones of the same code. */
  function LastWins(opts: seq<Opt>, options: map<byte, Bytes>): map<byte, Bytes> {
    if opts == [] then options else LastWins(opts[1..], options[opts[0].code := opts[0].value])
  }

  /* ---------- The parser ---------- */

  datatype Reply = Error | Rejected | Accepted(options: map<byte, Bytes>)

  /** Python's `data[a:b]`. */
  function Part(data: Bytes, a: nat, b: nat): Bytes
    requires a <= b
  {
    data[Min(a, |data|)..Min(b, |data|)]
  }

  /** `struct.unpack('!L', ...)`. */
  function Long(data: Bytes): nat
    requires |data| == 4
  {
    0x100_0000 * (data[0] as int) + 0x1_0000 * (data[1] as int) + 0x100 * (data[2] as int) + data[3] as int
  }

  /** The length of the option at the front, as far as the data goes. */
  function OptionLength(rest: Bytes): nat
    requires |rest| >= 2
  {
    Min(2 + rest[1] as int, |rest|)
  }

  /** The option loop on the bytes that remain. */
  function ParseOptions(rest: Bytes, options: map<byte, Bytes>): Reply {
    if rest == [] || rest[0] == OPTION_END then Accepted(options)
    else if |rest| == 1 then Error
    else ParseOptions(rest[OptionLength(rest)..], options[rest[0] := rest[2..OptionLength(rest)]])
  }

  function ParseReply(data: Bytes, id: nat): Reply {
    if data == [] then Error
    else if data[0] != 2 then Rejected
    else if |data| < 8 then Error
    else if Long(data[4..8]) != id then Rejected
    else if Part(data, 236, 240) != COOKIE then Rejected
    else ParseOptions(data[240..], map[])
  }

  lemma {:induction false} OptionStep(data: Bytes, i: nat, options: map<byte, Bytes>)
    requires i + 1 < |data| && data[i] != OPTION_END
    ensures
      var next := i + 2 + data[i + 1] as int;
      ParseOptions(Part(data, i, |data| + i), options)
        == ParseOptions(Part(data, next, |data| + next), options[data[i] := Part(data, i + 2, next)])
  {
    assert Part(data, i, |data| + i) == data[i..];
    var rest, next := data[i..], i + 2 + data[i + 1] as int;
    assert rest[0] == data[i] && rest[1] == data[i + 1];
    var n := OptionLength(rest);
    assert rest[2..n] == Part(data, i + 2, next);
    assert rest[n..] == Part(data, next, |data| + next);
  }

  /** The same loop on the index. */
  function ParseFrom(data: Bytes, i: nat, options: map<byte, Bytes>): Reply
    decreases |data| - i
  {
    if i >= |data| || data[i] == OPTION_END then Accepted(options)
    else if i + 1 == |data| then Error
    else
      var next := i + 2 + data[i + 1] as int;
      ParseFrom(data, next, options[data[i] := Part(data, i + 2, next)])
  }

  lemma {:induction false} ParseFromEnds(data: Bytes, i: nat, options: map<byte, Bytes>)
    requires i >= |data| || data[i] == OPTION_END || i + 1 == |data|
    ensures ParseFrom(data, i, options) == ParseOptions(Part(data, i, |data| + i), options)
  {
    if i >= |data| {
      assert Part(data, i, |data| + i) == [];
    } else {
      assert Part(data, i, |data| + i) == data[i..] && data[i..][0] == data[i];
    }
  }

  lemma {:induction false} ParseFromNext(data: Bytes, i: nat, options: map<byte, Bytes>) returns (next: nat, more: map<byte, Bytes>)
    requires i + 1 < |data| && data[i] != OPTION_END
    ensures next > i && ParseFrom(data, i, options) == ParseFrom(data, next, more)
    ensures ParseOptions(Part(data, i, |data| + i), options) == ParseOptions(Part(data, next, |data| + next), more)
  {
    next := i + 2 + data[i + 1] as int;
    more := options[data[i] := Part(data, i + 2, next)];
    OptionStep(data, i, options);
  }

  lemma {:induction false} ParseFromRest(data: Bytes, i: nat, options: map<byte, Bytes>)
    ensures ParseFrom(data, i, options) == ParseOptions(Part(data, i, |data| + i), options)
    decreases |data| - i
  {
    if i >= |data| || data[i] == OPTION_END || i + 1 == |data| {
      ParseFromEnds(data, i, options);
    } else {
      var next, more := ParseFromNext(data, i, options);
      ParseFromRest(data, next, more);
    }
  }

  lemma {:induction false} ParseFromHeader(data: Bytes)
    requires |data| >= 240
    ensures ParseFrom(data, 240, map[]) == ParseOptions(data[240..], map[])
  {
    ParseFromRest(data, 240, map[]);
    assert Part(data, 240, |data| + 240) == data[240..];
  }

  method ParseDhcpReply(data: Bytes, id: nat) returns (r: Reply)
    ensures r == ParseReply(data, id)
  {
    if data == [] {
      return Error;
    }
    if data[0] != 2 {
      return Rejected;
    }
    if |data| < 8 {
      return Error;
    }
    if Long(data[4..8]) != id {
      return Rejected;
    }
    if Part(data, 236, 240) != COOKIE {
      return Rejected;
    }
    ParseFromHeader(data);
    r := ReadOptions(data);
  }

  /** The loop over the options. */
  method ReadOptions(data: Bytes) returns (r: Reply)
    ensures r == ParseFrom(data, 240, map[])
  {
    var options: map<byte, Bytes> := map[];
    var i := 240;
    ghost var goal := ParseFrom(data, i, options);
    while i < |data| && data[i] != OPTION_END
      invariant ParseFrom(data, i, options) == goal
      decreases |data| - i
    {
      if i + 1 == |data| {
        return Error;
      }
      var code, length := data[i], data[i + 1] as int;
      i := i + 2;
      options := options[code := Part(data, i, i + length)];
      i := i + length;
    }
    return Accepted(options);
  }

  /* ---------- Replies round-trip ---------- */

  lemma {:induction false} OptionFirst(o: Opt, rest: Bytes, options: map<byte, Bytes>)
    requires o.code != OPTION_END && |o.value| < 256
    ensures ParseOptions(Encode(o) + rest, options) == ParseOptions(rest, options[o.code := o.value])
  {
    var data := Encode(o) + rest;
    assert OptionLength(data) == 2 + |o.value|;
    assert data[2..2 + |o.value|] == o.value && data[2 + |o.value|..] == rest;
  }

  /** Options before an End option parse to the last-wins map. */
  lemma {:induction false} OptionsRoundTrip(opts: seq<Opt>, rest: Bytes, options: map<byte, Bytes>)
    requires Sendable(opts)
    ensures ParseOptions(EncodeAll(opts) + ([OPTION_END] + rest), options) == Accepted(LastWins(opts, options))
  {
    var end := [OPTION_END] + rest;
    if opts == [] {
      assert EncodeAll(opts) + end == end;
    } else {
      var o := opts[0];
      assert EncodeAll(opts) + end == Encode(o) + (EncodeAll(opts[1..]) + end);
      OptionFirst(o, EncodeAll(opts[1..]) + end, options);
      OptionsRoundTrip(opts[1..], rest, options[o.code := o.value]);
    }
  }

  /** A reply of the client's transaction: 240 bytes of fixed fields, and then the options. */
  predicate ReplyHeader(header: Bytes, id: nat) {
    |header| == 240 && header[0] == 2 && Long(header[4..8]) == id && header[236..240] == COOKIE
  }

  lemma {:induction false} HeaderAccepted(header: Bytes, id: nat, body: Bytes)
    requires ReplyHeader(header, id)
    ensures ParseReply(header + body, id) == ParseOptions(body, map[])
  {
    var data := header + body;
    assert data[4..8] == header[4..8] && data[236..240] == header[236..240];
    assert data[240..] == body;
  }

  lemma {:induction false} ReplyRoundTrip(header: Bytes, id: nat, opts: seq<Opt>, rest: Bytes)
    requires ReplyHeader(header, id) && Sendable(opts)
    ensures ParseReply(header + (EncodeAll(opts) + ([OPTION_END] + rest)), id) == Accepted(LastWins(opts, map[]))
  {
    HeaderAccepted(header, id, EncodeAll(opts) + ([OPTION_END] + rest));
    OptionsRoundTrip(opts, rest, map[]);
  }

  /** The last value of every code is what the map holds, and there is nothing else in it. */
  lemma {:induction false} LastWinsMeaning(opts: seq<Opt>, options: map<byte, Bytes>, code: byte) returns (k: int)
    ensures -1 <= k < |opts| && (k >= 0 ==> opts[k].code == code)
    ensures forall j :: k < j < |opts| ==> opts[j].code != code
    ensures
      var m := LastWins(opts, options);
      if k >= 0 then code in m && m[code] == opts[k].value
      else (code in m <==> code in options) && (code in m ==> m[code] == options[code])
  {
    k := -1;
    if opts != [] {
      var j := LastWinsMeaning(opts[1..], options[opts[0].code := opts[0].value], code);
      if j >= 0 {
        k := j + 1;
      } else if opts[0].code == code {
        k := 0;
      }
      assert forall i :: 0 < i < |opts| ==> opts[i] == opts[1..][i - 1];
    }
  }

  /* ---------- Every accepted reply ---------- */

  /** How an option area reads: whole options, and a tail that is empty, starts with an End option,
      is an option cut short by the end of the data, or is a lone code. */
  datatype Reading = Reading(opts: seq<Opt>, tail: Bytes)

  predicate CutShort(tail: Bytes) {
    |tail| >= 2 && tail[0] != OPTION_END && |tail| < 2 + tail[1] as int
  }

  function Read(data: Bytes): Reading {
    if data == [] || data[0] == OPTION_END || |data| == 1 || CutShort(data) then Reading([], data)
    else
      var n := OptionLength(data);
      var r := Read(data[n..]);
      Reading([Opt(data[0], data[2..n])] + r.opts, r.tail)
  }

  lemma {:induction false} EncodeCons(o: Opt, opts: seq<Opt>)
    requires Sendable(opts) && o.code != OPTION_END && |o.value| < 256
    ensures Sendable([o] + opts) && EncodeAll([o] + opts) == Encode(o) + EncodeAll(opts)
  {
    assert ([o] + opts)[1..] == opts;
  }

  /** A reading loses nothing. */
  lemma {:induction false} ReadIsExact(data: Bytes)
    ensures
      var r := Read(data);
      && Sendable(r.opts) && EncodeAll(r.opts) + r.tail == data
      && (r.tail == [] || r.tail[0] == OPTION_END || |r.tail| == 1 || CutShort(r.tail))
  {
    if data == [] || data[0] == OPTION_END || |data| == 1 || CutShort(data) {
      assert [] + data == data;
    } else {
      var n := OptionLength(data);
      ReadIsExact(data[n..]);
      PrependOption(data, n, Read(data[n..]));
    }
  }

  lemma {:induction false} PrependOption(data: Bytes, n: nat, r: Reading)
    requires 2 <= n <= |data| && data[1] as int == n - 2 && data[0] != OPTION_END
    requires Sendable(r.opts) && EncodeAll(r.opts) + r.tail == data[n..]
    ensures var opts := [Opt(data[0], data[2..n])] + r.opts; Sendable(opts) && EncodeAll(opts) + r.tail == data
  {
    var o := Opt(data[0], data[2..n]);
    EncodeCons(o, r.opts);
    assert Encode(o) + data[n..] == data;
    assert (Encode(o) + EncodeAll(r.opts)) + r.tail == Encode(o) + (EncodeAll(r.opts) + r.tail);
  }

  /** What the parser makes of a reading. */
  function Says(r: Reading, options: map<byte, Bytes>): Reply {
    if |r.tail| == 1 && r.tail[0] != OPTION_END then Error
    else if CutShort(r.tail) then Accepted(LastWins(r.opts, options)[r.tail[0] := r.tail[2..]])
    else Accepted(LastWins(r.opts, options))
  }

  /** So every accepted reply is the encoding of what was parsed, but for a last option that the
      end of the data may cut short; and the option loop fails exactly on a lone code. */
  lemma {:induction false} ParsedAsRead(data: Bytes, options: map<byte, Bytes>)
    ensures ParseOptions(data, options) == Says(Read(data), options)
  {
    if data == [] || data[0] == OPTION_END || |data| == 1 {
    } else if CutShort(data) {
      assert OptionLength(data) == |data| && data[|data|..] == [] && data[2..|data|] == data[2..];
      assert ParseOptions([], options[data[0] := data[2..]]) == Accepted(options[data[0] := data[2..]]);
      assert LastWins([], options) == options;
    } else {
      var n := OptionLength(data);
      ParsedAsRead(data[n..], options[data[0] := data[2..n]]);
      assert ([Opt(data[0], data[2..n])] + Read(data[n..]).opts)[1..] == Read(data[n..]).opts;
    }
  }

  /* ---------- Which replies are rejected ---------- */

  /** Four bytes as a number, the most significant first. */
  predicate BigEndian(bytes: Bytes, n: int) {
    |bytes| == 4 && n == ((bytes[0] as int * 256 + bytes[1] as int) * 256 + bytes[2] as int) * 256 + bytes[3] as int
  }

  /** A message for this client: the id at byte 4 and the cookie at byte 236. */
  predicate ForClient(data: Bytes, id: nat) {
    |data| >= 240 && BigEndian(data[4..8], id) && data[236..240] == [0x63, 0x82, 0x53, 0x63]
  }

  /** What becomes of any data at all: nothing and a reply of less than eight bytes are errors;
      everything else that is not a reply for this client is rejected; and of a reply for it the
      options count, as they read. */
  lemma {:induction false} ReplyIff(data: Bytes, id: nat)
    ensures
      var r := ParseReply(data, id);
      if data == [] then r == Error
      else if data[0] != 2 then r == Rejected
      else if |data| < 8 then r == Error
      else if !ForClient(data, id) then r == Rejected
      else r == Says(Read(data[240..]), map[]) && !r.Rejected?
  {
    if |data| >= 240 {
      ParsedAsRead(data[240..], map[]);
    }
  }

  /* ---------- Pad options ---------- */

  /** RFC 2132 also knows a Pad option, a single zero byte. */
  datatype Item = Pad | Option(opt: Opt)

  predicate Standard(items: seq<Item>) {
    forall i :: 0 <= i < |items| && items[i].Option? ==>
      items[i].opt.code != OPTION_END && items[i].opt.code != OPTION_PAD && |items[i].opt.value| < 256
  }

  function EncodeItems(items: seq<Item>): Bytes
    requires Standard(items)
  {
    if items == [] then []
    else (if items[0].Pad? then [OPTION_PAD] else Encode(items[0].opt)) + EncodeItems(items[1..])
  }

  /** What the standard makes of the items. */
  function Meaning(items: seq<Item>, options: map<byte, Bytes>): map<byte, Bytes> {
    if items == [] then options
    else Meaning(items[1..], if items[0].Pad? then options else options[items[0].opt.code := items[0].opt.value])
  }

  lemma {:induction false} ParserKeepsKeys(data: Bytes, options: map<byte, Bytes>, code: byte)
    requires code in options
    ensures ParseOptions(data, options).Accepted? ==> code in ParseOptions(data, options).options
  {
    if data != [] && data[0] != OPTION_END && |data| > 1 {
      var n := OptionLength(data);
      ParserKeepsKeys(data[n..], options[data[0] := data[2..n]], code);
    }
  }

  lemma {:induction false} MeaningHasNoPad(items: seq<Item>, options: map<byte, Bytes>)
    requires Standard(items) && OPTION_PAD !in options
    ensures OPTION_PAD !in Meaning(items, options)
  {
    if items != [] {
      MeaningHasNoPad(items[1..], if items[0].Pad? then options else options[items[0].opt.code := items[0].opt.value]);
    }
  }

  lemma {:induction false} PadIsMisread(rest: Bytes, options: map<byte, Bytes>)
    requires rest != []
    ensures var r := ParseOptions([OPTION_PAD] + rest, options); r.Accepted? ==> OPTION_PAD in r.options
  {
    var data := [OPTION_PAD] + rest;
    var n := OptionLength(data);
    ParserKeepsKeys(data[n..], options[OPTION_PAD := data[2..n]], OPTION_PAD);
  }

  /** The parser takes a Pad for an option with a length, so it reads a standard option list as
      the standard does exactly when the list has no Pad. */
  lemma {:induction false} PadsAreMisread(items: seq<Item>, rest: Bytes, options: map<byte, Bytes>)
    requires Standard(items) && OPTION_PAD !in options
    ensures ParseOptions(EncodeItems(items) + ([OPTION_END] + rest), options) == Accepted(Meaning(items, options))
        <==> Pad !in items
  {
    var end := [OPTION_END] + rest;
    if items == [] {
      assert EncodeItems(items) + end == end;
    } else {
      var tail := EncodeItems(items[1..]) + end;
      ItemFirst(items, end);
      assert Pad in items <==> items[0].Pad? || Pad in items[1..];
      if items[0].Pad? {
        MeaningHasNoPad(items, options);
        PadIsMisread(tail, options);
      } else {
        var o := items[0].opt;
        OptionFirst(o, tail, options);
        PadsAreMisread(items[1..], rest, options[o.code := o.value]);
      }
    }
  }

  lemma {:induction false} ItemFirst(items: seq<Item>, end: Bytes)
    requires Standard(items) && items != []
    ensures EncodeItems(items) + end ==
      (if items[0].Pad? then [OPTION_PAD] else Encode(items[0].opt)) + (EncodeItems(items[1..]) + end)
  {
  }

  /* ---------- The request ---------- */

  /** `struct.pack('!L', ...)`. */
  function PackLong(n: nat): Bytes
    requires n < 0x1_0000_0000
  {
    [n / 0x100_0000, n / 0x1_0000 % 0x100, n / 0x100 % 0x100, n % 0x100]
  }

  function Zeros(n: nat): Bytes {
    seq(n, _ => 0)
  }

  predicate Ascii(s: string) {
    forall i :: 0 <= i < |s| ==> s[i] as int < 128
  }

  function Encoded(s: string): Bytes
    requires Ascii(s)
  {
    seq(|s|, i requires 0 <= i < |s| => s[i] as int)
  }

  predicate AllBytes(ns: seq<int>) {
    forall i :: 0 <= i < |ns| ==> 0 <= ns[i] < 256
  }

  function AsBytes(ns: seq<int>): Bytes
    requires AllBytes(ns)
  {
    seq(|ns|, i requires 0 <= i < |ns| => ns[i] as byte)
  }

  /** The fixed fields up to the cookie. */
  function FixedFields(id: nat, mac: Bytes): Bytes
    requires id < 0x1_0000_0000
  {
    [1, 1, 6, 0] + PackLong(id) + Zeros(20) + mac + Zeros(10) + Zeros(64) + Zeros(128)
  }

  /** The options of a request: message type, vendor class if any, client id, parameter list. */
  function RequestOptions(mac: Bytes, vendor: string, requested: seq<int>): seq<Opt>
    requires Ascii(vendor) && AllBytes(requested)
  {
    [Opt(53, [1])] + (if vendor == "" then [] else [Opt(60, Encoded(vendor))])
    + [Opt(61, [1] + mac), Opt(55, AsBytes(requested))]
  }

  /** Whether every value fits the field it is packed into. */
  predicate Packable(vendor: string, requested: seq<int>) {
    Ascii(vendor) && |vendor| < 256 && AllBytes(requested) && |requested| < 256
  }

  lemma {:induction false} EncodeOne(o: Opt)
    requires o.code != OPTION_END && |o.value| < 256
    ensures EncodeAll([o]) == Encode(o)
  {
    assert Encode(o) + [] == Encode(o);
  }

  /** The option area of a request.  The length of the client id is 7, whatever the MAC. */
  function OptionArea(mac: Bytes, vendor: string, requested: seq<int>): Bytes
    requires Packable(vendor, requested)
  {
    [53, 1, 1] + ((if vendor == "" then [] else [60, |vendor|] + Encoded(vendor))
    + (([61, 7, 1] + mac) + ([55, |requested|] + AsBytes(requested))))
  }

  /** With a MAC of six bytes it is the encoding of the options. */
  lemma {:induction false} RequestEncoding(mac: Bytes, vendor: string, requested: seq<int>)
    requires |mac| == 6 && Packable(vendor, requested)
    ensures
      var opts := RequestOptions(mac, vendor, requested);
      Sendable(opts) && EncodeAll(opts) == OptionArea(mac, vendor, requested)
  {
    var list, client := Opt(55, AsBytes(requested)), Opt(61, [1] + mac);
    EncodeOne(list);
    EncodeCons(client, [list]);
    var tail := [client] + [list];
    var middle := if vendor == "" then tail else [Opt(60, Encoded(vendor))] + tail;
    if vendor != "" {
      EncodeCons(Opt(60, Encoded(vendor)), tail);
    } else {
      assert [] + EncodeAll(tail) == EncodeAll(tail);
    }
    EncodeCons(Opt(53, [1]), middle);
    assert RequestOptions(mac, vendor, requested) == [Opt(53, [1])] + middle;
    assert Encode(client) == [61, 7, 1] + mac && Encode(Opt(53, [1])) == [53, 1, 1];
  }

  method PackOptions(mac: Bytes, requested: seq<int>, vendor: string) returns (r: Outcome<Bytes>)
    ensures r == if Packable(vendor, requested) then Ok(OptionArea(mac, vendor, requested)) else Raised
  {
    var data: Bytes := [0x35, 0x01, 0x01];
    var vendorClass: Bytes := [];
    if vendor != "" {
      if !Ascii(vendor) || |vendor| >= 256 {
        return Raised;
      }
      vendorClass := [0x3c, |vendor|] + Encoded(vendor);
    }
    var client := [0x3d, 0x07, 0x01] + mac;
    if |requested| >= 256 {
      return Raised;
    }
    var list := PackBytes(requested);
    if list == Raised {
      return Raised;
    }
    return Ok(data + (vendorClass + (client + ([0x37, |requested|] + list.value))));
  }

  method PackBytes(ns: seq<int>) returns (r: Outcome<Bytes>)
    ensures r == if AllBytes(ns) then Ok(AsBytes(ns)) else Raised
  {
    var data: Bytes := [];
    var i := 0;
    while i < |ns|
      invariant i <= |ns| && AllBytes(ns[..i]) && data == AsBytes(ns[..i])
    {
      if !(0 <= ns[i] < 256) {
        return Raised;
      }
      data := data + [ns[i]];
      i := i + 1;
    }
    assert ns[..|ns|] == ns;
    return Ok(data);
  }

  /** `mac` is None for a text that is not hexadecimal. */
  method GetDhcpRequestData(id: int, mac: Option<Bytes>, requested: seq<int>, vendor: string)
    returns (r: Outcome<Bytes>)
    ensures r.Ok? <==> mac.Some? && 0 <= id < 0x1_0000_0000 && Packable(vendor, requested)
    ensures r.Ok? ==> r.value == Request(id, mac.value, vendor, requested)
  {
    if mac.None? || !(0 <= id < 0x1_0000_0000) {
      return Raised;
    }
    var data: Bytes := [1] + [1] + [6] + [0];
    data := data + PackLong(id) + Zeros(2) + Zeros(2) + Zeros(4) + Zeros(4) + Zeros(4) + Zeros(4);
    data := data + mac.value + Zeros(10) + Zeros(64) + Zeros(128);
    assert data == FixedFields(id, mac.value);
    var options := PackOptions(mac.value, requested, vendor);
    if options == Raised {
      return Raised;
    }
    return Ok(data + COOKIE + (options.value + [OPTION_END]));
  }

  function Request(id: nat, mac: Bytes, vendor: string, requested: seq<int>): Bytes
    requires id < 0x1_0000_0000 && Packable(vendor, requested)
  {
    FixedFields(id, mac) + COOKIE + (OptionArea(mac, vendor, requested) + [OPTION_END])
  }

  lemma {:induction false} FixedFieldsShape(id: nat, mac: Bytes)
    requires id < 0x1_0000_0000
    ensures
      var head := [1, 1, 6, 0] + PackLong(id) + Zeros(20);
      |head| == 28 && FixedFields(id, mac) == head + mac + Zeros(202)
  {
    assert Zeros(202) == Zeros(10) + Zeros(64) + Zeros(128);
  }

  predicate AllZero(bytes: Bytes) {
    forall i :: 0 <= i < |bytes| ==> bytes[i] == 0
  }

  /** Byte by byte: Ethernet, a hardware address of six bytes, no hops; the id; no seconds, flags or
      addresses; the MAC; no server name or boot file; the cookie; and an End option last. */
  lemma {:induction false} RequestLayout(id: nat, mac: Bytes, vendor: string, requested: seq<int>)
    requires id < 0x1_0000_0000 && Packable(vendor, requested)
    ensures
      var data, n := Request(id, mac, vendor, requested), |mac|;
      && |data| == 234 + n + (3 + (if vendor == "" then 0 else 2 + |vendor|) + (3 + n) + (2 + |requested|) + 1)
      && data[..4] == [1, 1, 6, 0] && BigEndian(data[4..8], id) && AllZero(data[8..28])
      && data[28..28 + n] == mac && AllZero(data[28 + n..230 + n])
      && data[230 + n..234 + n] == [0x63, 0x82, 0x53, 0x63] && data[234 + n..237 + n] == [53, 1, 1]
      && data[|data| - 1] == 255
  {
    LongRoundTrip(id);
    FixedFieldsShape(id, mac);
    var end := OptionArea(mac, vendor, requested) + [OPTION_END];
    Layout([1, 1, 6, 0], PackLong(id), Zeros(20), mac, Zeros(202), COOKIE, end);
    assert end[..3] == [53, 1, 1];
  }

  lemma {:induction false} Layout(kind: Bytes, id: Bytes, zeros: Bytes, mac: Bytes, more: Bytes, cookie: Bytes, end: Bytes)
    requires |kind| == 4 && |id| == 4 && |zeros| == 20 && |more| == 202 && |cookie| == 4 && |end| >= 3
    ensures
      var data, n := kind + id + zeros + mac + more + cookie + end, |mac|;
      && |data| == 234 + n + |end|
      && data[..4] == kind && data[4..8] == id && data[8..28] == zeros && data[28..28 + n] == mac
      && data[28 + n..230 + n] == more && data[230 + n..234 + n] == cookie && data[234 + n..237 + n] == end[..3]
      && data[|data| - 1] == end[|end| - 1]
  {
  }

  lemma {:induction false} ShiftedCookie(end: Bytes, k: nat)
    requires 0 < k <= 6 <= |end| && end[0] == 53 && end[1] == 1 && end[2] == 1
    ensures (COOKIE + end)[k..k + 4] != COOKIE
  {
    var data := COOKIE + end;
    assert data[k..k + 4][0] == data[k] && data[k..k + 4][1] == data[k + 1];
    assert data[4] == 53 && data[5] == 1 && data[6] == 1;
  }

  /** The cookie is where a reply has it exactly when the MAC has six bytes, or is so long that it
      comes to lie there and brings one itself. */
  lemma {:induction false} CookieInPlaceIff(id: nat, mac: Bytes, vendor: string, requested: seq<int>)
    requires id < 0x1_0000_0000 && Packable(vendor, requested)
    ensures Part(Request(id, mac, vendor, requested), 236, 240) == COOKIE
       <==> |mac| == 6 || (|mac| >= 212 && mac[208..212] == COOKIE)
  {
    var end := OptionArea(mac, vendor, requested) + [OPTION_END];
    FixedFieldsShape(id, mac);
    CookieInPlace([1, 1, 6, 0] + PackLong(id) + Zeros(20), mac, end);
  }

  lemma {:induction false} CookieInPlace(head: Bytes, mac: Bytes, end: Bytes)
    requires |head| == 28 && |end| >= 6 && end[0] == 53 && end[1] == 1 && end[2] == 1
    ensures Part(head + mac + Zeros(202) + COOKIE + end, 236, 240) == COOKIE
       <==> |mac| == 6 || (|mac| >= 212 && mac[208..212] == COOKIE)
  {
    var fixed := head + mac + Zeros(202);
    var data := fixed + COOKIE + end;
    assert data == fixed + (COOKIE + end);
    if |mac| == 6 {
      assert data[236..240] == COOKIE;
    } else if |mac| >= 212 {
      assert data[236..240] == mac[208..212];
    } else if |mac| > 208 {
      assert data[236..240][3] == data[239] == fixed[239] == 0;
    } else if |mac| > 6 {
      assert data[236..240][0] == data[236] == fixed[236] == 0;
    } else {
      assert data[236..240] == (COOKIE + end)[6 - |mac|..10 - |mac|];
      ShiftedCookie(end, 6 - |mac|);
    }
  }

  lemma {:induction false} LongRoundTrip(n: nat)
    requires n < 0x1_0000_0000
    ensures Long(PackLong(n)) == n
  {
    var a, b, c := n / 0x100_0000, n / 0x1_0000, n / 0x100;
    assert b == 0x100 * a + b % 0x100 && c == 0x100 * b + c % 0x100;
  }

  /** Turned into a reply by its first byte, a request parses to exactly the options it carries. */
  lemma {:induction false} RequestRoundTrip(id: nat, mac: Bytes, vendor: string, requested: seq<int>)
    requires id < 0x1_0000_0000 && |mac| == 6 && Packable(vendor, requested)
    ensures
      var data := Request(id, mac, vendor, requested);
      && |data| > 240 && data[236..240] == COOKIE
      && ParseReply(data[0 := 2], id) == Accepted(
           map[53 := [1]] + (if vendor == "" then map[] else map[60 := Encoded(vendor)])
           + map[61 := [1] + mac, 55 := AsBytes(requested)])
  {
    RequestEncoding(mac, vendor, requested);
    RequestHeader(id, mac);
    var opts, header := RequestOptions(mac, vendor, requested), FixedFields(id, mac) + COOKIE;
    ReplyRoundTrip(header[0 := 2], id, opts, []);
    RequestOptionsMap(mac, vendor, requested);
    FirstByte(header, EncodeAll(opts) + ([OPTION_END] + []));
    assert [OPTION_END] + [] == [OPTION_END];
  }

  lemma {:induction false} FirstByte(header: Bytes, rest: Bytes)
    requires |header| == 240 && header[236..240] == COOKIE
    ensures (header + rest)[0 := 2] == header[0 := 2] + rest && (header + rest)[236..240] == COOKIE
  {
  }

  lemma {:induction false} RequestHeader(id: nat, mac: Bytes)
    requires id < 0x1_0000_0000 && |mac| == 6
    ensures
      var header := FixedFields(id, mac) + COOKIE;
      ReplyHeader(header[0 := 2], id) && header[236..240] == COOKIE
  {
    LongRoundTrip(id);
    var header := FixedFields(id, mac) + COOKIE;
    assert header[0 := 2][4..8] == PackLong(id) && header[0 := 2][236..240] == COOKIE;
  }

  lemma {:induction false} RequestOptionsMap(mac: Bytes, vendor: string, requested: seq<int>)
    requires Ascii(vendor) && AllBytes(requested)
    ensures LastWins(RequestOptions(mac, vendor, requested), map[]) ==
           map[53 := [1]] + (if vendor == "" then map[] else map[60 := Encoded(vendor)])
           + map[61 := [1] + mac, 55 := AsBytes(requested)]
  {
    var list, client := Opt(55, AsBytes(requested)), Opt(61, [1] + mac);
    var tail := [client] + [list];
    var m0: map<byte, Bytes> := map[53 := [1]];
    var m1 := if vendor == "" then m0 else m0[60 := Encoded(vendor)];
    if vendor == "" {
      assert RequestOptions(mac, vendor, requested) == [Opt(53, [1])] + tail;
      LastWinsCons(Opt(53, [1]), tail, map[]);
    } else {
      var middle := [Opt(60, Encoded(vendor))] + tail;
      assert RequestOptions(mac, vendor, requested) == [Opt(53, [1])] + middle;
      LastWinsCons(Opt(53, [1]), middle, map[]);
      LastWinsCons(Opt(60, Encoded(vendor)), tail, m0);
    }
    LastWinsPair(client, list, m1);
    assert m1 == m0 + if vendor == "" then map[] else map[60 := Encoded(vendor)];
  }

  lemma {:induction false} LastWinsPair(a: Opt, b: Opt, options: map<byte, Bytes>)
    requires a.code != b.code
    ensures LastWins([a] + [b], options) == options + map[a.code := a.value, b.code := b.value]
  {
    LastWinsCons(a, [b], options);
    assert [b] + [] == [b];
    LastWinsCons(b, [], options[a.code := a.value]);
  }

  lemma {:induction false} LastWinsCons(o: Opt, opts: seq<Opt>, options: map<byte, Bytes>)
    ensures LastWins([o] + opts, options) == LastWins(opts, options[o.code := o.value])
  {
    assert ([o] + opts)[1..] == opts;
  }
}
