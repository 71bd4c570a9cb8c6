/** The page file setting: its text form in the registry, and the plugin that keeps it right. */
module PageFiles {
  import opened Basics
  import opened Text

  datatype PageFile = PageFile(path: string, minSize: int, maxSize: int)

  /* ---------- Numbers as text ---------- */

  function Digit(d: nat): char
    requires d < 10
  {
    '0' + d as char
  }

  predicate IsDigit(c: char) {
    '0' <= c <= '9'
  }

  function PrintNat(n: nat): (s: string)
    ensures s != ""
  {
    if n < 10 then [Digit(n)] else PrintNat(n / 10) + [Digit(n % 10)]
  }

  function PrintInt(n: int): string {
    if n < 0 then "-" + PrintNat(-n) else PrintNat(n)
  }

  predicate AllDigits(s: string) {
    s != "" && forall i :: 0 <= i < |s| ==> IsDigit(s[i])
  }

  /** Digits, with single underscores between them. */
  predicate Numeral(s: string) {
    && s != "" && DigitsOrMarks(s) && IsDigit(s[0]) && IsDigit(s[|s| - 1])
    && forall i :: 0 < i < |s| && s[i] == '_' ==> s[i - 1] != '_'
  }

  predicate DigitsOrMarks(s: string) {
    forall i :: 0 <= i < |s| ==> IsDigit(s[i]) || s[i] == '_'
  }

  function NatOf(s: string): nat
    requires DigitsOrMarks(s)
  {
    if s == "" then 0
    else if s[|s| - 1] == '_' then NatOf(s[..|s| - 1])
    else
      assert IsDigit(s[|s| - 1]);
      10 * NatOf(s[..|s| - 1]) + (s[|s| - 1] as int - '0' as int)
  }

  /** `int(s)`. */
  function ParseInt(s: string): Outcome<int> {
    var t := Strip(s);
    if Numeral(t) then Ok(NatOf(t))
    else if t != "" && t[0] in {'+', '-'} && Numeral(t[1..]) then
      var n: int := NatOf(t[1..]);
      Ok(if t[0] == '-' then -n else n)
    else Raised
  }

  lemma {:induction false} NothingToStrip(s: string)
    requires s != "" && !IsSpace(s[0]) && !IsSpace(s[|s| - 1])
    ensures Strip(s) == s
  {
  }

  lemma {:induction false} DigitsParse(s: string)
    requires AllDigits(s)
    ensures Numeral(s) && ParseInt(s) == Ok(NatOf(s))
  {
    assert IsDigit(s[0]) && IsDigit(s[|s| - 1]);
    NothingToStrip(s);
  }

  lemma {:induction false} NatRoundTrip(n: nat)
    ensures AllDigits(PrintNat(n)) && NatOf(PrintNat(n)) == n
  {
    var s := PrintNat(n);
    if n >= 10 {
      NatRoundTrip(n / 10);
      assert s[..|s| - 1] == PrintNat(n / 10);
    } else {
      assert s[..|s| - 1] == "";
    }
  }

  lemma {:induction false} DigitsHaveNoSpace(s: string)
    requires AllDigits(s)
    ensures ' ' !in s
  {
    assert !IsDigit(' ');
  }

  lemma {:induction false} IntRoundTrip(n: int)
    ensures ParseInt(PrintInt(n)) == Ok(n)
    ensures ' ' !in PrintInt(n)
  {
    var digits := PrintNat(if n < 0 then -n else n);
    NatRoundTrip(if n < 0 then -n else n);
    DigitsHaveNoSpace(digits);
    DigitsParse(digits);
    if n < 0 {
      var s := PrintInt(n);
      assert s[0] == '-' && !IsDigit(s[0]) && s[1..] == digits;
      assert IsDigit(s[|s| - 1]);
      NothingToStrip(s);
    }
  }

  /* ---------- A setting as text ---------- */

  /** `s.split(" ")`. */
  function Split(s: string): (words: seq<string>)
    ensures words != []
  {
    if s == "" then [""]
    else
      var rest := Split(s[1..]);
      if s[0] == ' ' then [""] + rest else [[s[0]] + rest[0]] + rest[1..]
  }

  /** `"%s %d %d" % (path, min_size, max_size)`. */
  function Print(p: PageFile): string {
    p.path + (" " + (PrintInt(p.minSize) + (" " + PrintInt(p.maxSize))))
  }

  function Parse(value: string): Outcome<PageFile> {
    var v := Split(value);
    var min := if |v| > 1 then ParseInt(v[1]) else Ok(0);
    var max := if |v| > 2 then ParseInt(v[2]) else Ok(0);
    if min.Ok? && max.Ok? then Ok(PageFile(v[0], min.value, max.value)) else Raised
  }

  lemma {:induction false} SplitAtSpace(a: string, rest: string)
    requires ' ' !in a
    ensures Split(a + (" " + rest)) == [a] + Split(rest)
  {
    SplitConcat(a, rest);
    SplitWord(a);
  }

  lemma {:induction false} SplitWord(a: string)
    requires ' ' !in a
    ensures Split(a) == [a]
  {
    if a != "" {
      SplitWord(a[1..]);
      assert [a[0]] + a[1..] == a;
    }
  }

  lemma {:induction false} FirstWord(s: string)
    ensures ' ' !in Split(s)[0]
  {
    if s != "" {
      FirstWord(s[1..]);
    }
  }

  /** Reading back what was printed gives the same page file exactly when its path has no space. */
  lemma {:induction false} RoundTripIff(p: PageFile)
    ensures Parse(Print(p)) == Ok(p) <==> ' ' !in p.path
  {
    if ' ' in p.path {
      FirstWord(Print(p));
    } else {
      var min, max := PrintInt(p.minSize), PrintInt(p.maxSize);
      IntRoundTrip(p.minSize);
      IntRoundTrip(p.maxSize);
      SplitWord(max);
      SplitAtSpace(min, max);
      SplitAtSpace(p.path, min + (" " + max));
    }
  }

  function PrintAll(ps: seq<PageFile>): seq<string> {
    if ps == [] then [] else [Print(ps[0])] + PrintAll(ps[1..])
  }

  lemma {:induction false} PrintNext(values: seq<string>, ps: seq<PageFile>, i: nat)
    requires i < |ps|
    ensures values + PrintAll(ps[i..]) == (values + [Print(ps[i])]) + PrintAll(ps[i + 1..])
  {
    assert ps[i..][1..] == ps[i + 1..];
  }

  function ParseAll(values: seq<string>): Outcome<seq<PageFile>> {
    if values == [] then Ok([])
    else
      match (Parse(values[0]), ParseAll(values[1..]))
      case (Ok(p), Ok(rest)) => Ok([p] + rest)
      case _ => Raised
  }

  /** What is read when some page files were read already. */
  function After(ps: seq<PageFile>, r: Outcome<seq<PageFile>>): Outcome<seq<PageFile>> {
    match r
    case Ok(rest) => Ok(ps + rest)
    case Raised => Raised
  }

  /** A whole setting reads back as it was written exactly when no path has a space. */
  lemma {:induction false} SettingRoundTripIff(ps: seq<PageFile>)
    ensures ParseAll(PrintAll(ps)) == Ok(ps) <==> forall p :: p in ps ==> ' ' !in p.path
  {
    if ps != [] {
      RoundTripIff(ps[0]);
      SettingRoundTripIff(ps[1..]);
      ParsePrinted(ps);
      assert forall p :: p in ps <==> p == ps[0] || p in ps[1..];
    }
  }

  lemma {:induction false} ParsePrinted(ps: seq<PageFile>)
    requires ps != []
    ensures ParseAll(PrintAll(ps)) == Ok(ps)
       <==> Parse(Print(ps[0])) == Ok(ps[0]) && ParseAll(PrintAll(ps[1..])) == Ok(ps[1..])
  {
    var values := PrintAll(ps);
    assert values[0] == Print(ps[0]) && values[1..] == PrintAll(ps[1..]);
    var first, rest := Parse(values[0]), ParseAll(values[1..]);
    if first.Ok? && rest.Ok? {
      SameList(first.value, rest.value, ps);
    }
  }

  lemma {:induction false} SameList(p: PageFile, rest: seq<PageFile>, ps: seq<PageFile>)
    requires ps != []
    ensures [p] + rest == ps <==> p == ps[0] && rest == ps[1..]
  {
    assert ([p] + rest)[0] == p && ([p] + rest)[1..] == rest && [ps[0]] + ps[1..] == ps;
  }

  lemma {:induction false} ParsedPathsHaveNoSpace(values: seq<string>)
    ensures ParseAll(values).Ok? ==> forall p :: p in ParseAll(values).value ==> ' ' !in p.path
  {
    if values != [] {
      FirstWord(values[0]);
      ParsedPathsHaveNoSpace(values[1..]);
    }
  }

  /* ---------- The plugin ---------- */

  /** `os.path.join(volume, "pagefile.sys")`. */
  function JoinPath(volume: string): string {
    var n := |volume|;
    volume
    + (if n == 0 || volume[n - 1] in {'\\', '/'} || (n == 2 && volume[1] == ':') then "" else "\\")
    + "pagefile.sys"
  }

  function Wanted(volumes: seq<string>): seq<PageFile> {
    if volumes == [] then [] else [PageFile(JoinPath(volumes[0]), 0, 0)] + Wanted(volumes[1..])
  }

  /** The registry value, if it exists, and whether `execute` wrote it and asked for a reboot. */
  datatype Result = Result(setting: Option<seq<string>>, reboot: bool, raised: bool)

  /** `execute` on the sorted list of page file volumes.  Two sorted lists are equal exactly when
      they have the same elements with the same multiplicities. */
  function ExecutePlugin(setting: Option<seq<string>>, volumes: seq<string>): Result {
    if volumes == [] then Result(setting, false, false)
    else if setting.None? || ParseAll(setting.value).Raised? then Result(setting, false, true)
    else if multiset(ParseAll(setting.value).value) != multiset(Wanted(volumes)) then
      Result(Some(PrintAll(Wanted(volumes))), true, false)
    else Result(setting, false, false)
  }

  class PageFilesPlugin {
    var setting: Option<seq<string>>

    constructor (setting: Option<seq<string>>)
      ensures this.setting == setting
    {
      this.setting := setting;
    }

    method GetPageFiles() returns (r: Outcome<seq<PageFile>>)
      ensures r == if setting.None? then Raised else ParseAll(setting.value)
    {
      if setting.None? {
        return Raised;
      }
      var values, pageFiles := setting.value, [];
      var i := 0;
      assert values[0..] == values && (ParseAll(values).Ok? ==> [] + ParseAll(values).value == ParseAll(values).value);
      while i < |values|
        invariant i <= |values|
        invariant ParseAll(values) == After(pageFiles, ParseAll(values[i..]))
      {
        assert values[i..][1..] == values[i + 1..];
        var p := Parse(values[i]);
        if p.Raised? {
          return Raised;
        }
        ghost var rest := ParseAll(values[i + 1..]);
        assert rest.Ok? ==> pageFiles + ([p.value] + rest.value) == (pageFiles + [p.value]) + rest.value;
        pageFiles := pageFiles + [p.value];
        i := i + 1;
      }
      assert pageFiles + [] == pageFiles;
      return Ok(pageFiles);
    }

    method SetPageFiles(pageFiles: seq<PageFile>)
      modifies this
      ensures setting == Some(PrintAll(pageFiles))
    {
      var values := [];
      var i := 0;
      assert pageFiles[0..] == pageFiles;
      while i < |pageFiles|
        invariant i <= |pageFiles| && values + PrintAll(pageFiles[i..]) == PrintAll(pageFiles)
      {
        PrintNext(values, pageFiles, i);
        values := values + [Print(pageFiles[i])];
        i := i + 1;
      }
      assert values + [] == values;
      setting := Some(values);
    }

    method Execute(volumes: seq<string>) returns (reboot: bool, raised: bool)
      modifies this
      ensures Result(setting, reboot, raised) == ExecutePlugin(old(setting), volumes)
    {
      reboot, raised := false, false;
      if volumes != [] {
        var pageFiles := Wanted(volumes);
        var current := GetPageFiles();
        if current.Raised? {
          raised := true;
        } else if multiset(current.value) != multiset(pageFiles) {
          SetPageFiles(pageFiles);
          reboot := true;
        }
      }
    }
  }

  /* ---------- Convergence ---------- */

  ghost predicate NoSpaces(volumes: seq<string>) {
    forall v :: v in volumes ==> ' ' !in v
  }

  lemma {:induction false} WantedPaths(volumes: seq<string>)
    ensures NoSpaces(volumes) <==> forall p :: p in Wanted(volumes) ==> ' ' !in p.path
  {
    if volumes != [] {
      WantedPaths(volumes[1..]);
      JoinedSpace(volumes[0]);
      assert forall v :: v in volumes <==> v == volumes[0] || v in volumes[1..];
      var first := PageFile(JoinPath(volumes[0]), 0, 0);
      assert forall p :: p in Wanted(volumes) <==> p == first || p in Wanted(volumes[1..]);
    }
  }

  lemma {:induction false} JoinedSpace(volume: string)
    ensures ' ' in JoinPath(volume) <==> ' ' in volume
  {
    var tail := PathTail(volume);
  }

  lemma {:induction false} PathTail(volume: string) returns (tail: string)
    ensures JoinPath(volume) == volume + tail && ' ' !in tail
  {
    tail := JoinPath(volume)[|volume|..];
    assert JoinPath(volume) == volume + tail;
  }

  /** Nothing was written, no reboot asked for, and no error raised. */
  predicate Quiet(setting: Option<seq<string>>, volumes: seq<string>) {
    ExecutePlugin(setting, volumes) == Result(setting, false, false)
  }

  /** Whether the setting that is written for a volume cannot be read back: a second or third
      space-separated word of its path that is not a number. */
  predicate Unreadable(volume: string) {
    var words := Split(JoinPath(volume));
    || (|words| > 1 && ParseInt(words[1]).Raised?)
    || (|words| > 2 && ParseInt(words[2]).Raised?)
  }

  predicate HasSpace(volumes: seq<string>) {
    exists i :: 0 <= i < |volumes| && ' ' in volumes[i]
  }

  predicate HasUnreadable(volumes: seq<string>) {
    exists i :: 0 <= i < |volumes| && Unreadable(volumes[i])
  }

  lemma {:induction false} SplitConcat(a: string, b: string)
    ensures Split(a + (" " + b)) == Split(a) + Split(b)
  {
    var s := a + (" " + b);
    if a == "" {
      assert s[1..] == b;
    } else {
      SplitConcat(a[1..], b);
      assert s[0] == a[0] && s[1..] == a[1..] + (" " + b);
      SplitFirst(s);
      SplitFirst(a);
      PrependConcat(a[0], Split(a[1..]), Split(b));
    }
  }

  /** The words with one more character in front. */
  function Prepend(c: char, words: seq<string>): seq<string>
    requires words != []
  {
    if c == ' ' then [""] + words else [[c] + words[0]] + words[1..]
  }

  lemma {:induction false} SplitFirst(s: string)
    requires s != ""
    ensures Split(s) == Prepend(s[0], Split(s[1..]))
  {
  }

  lemma {:induction false} PrependConcat(c: char, a: seq<string>, b: seq<string>)
    requires a != []
    ensures Prepend(c, a + b) == Prepend(c, a) + b
  {
    assert (a + b)[1..] == a[1..] + b;
  }

  /** The printed page file of a volume reads back without an error exactly when these words are numbers. */
  lemma {:induction false} UnreadableMeaning(volume: string)
    ensures Parse(Print(PageFile(JoinPath(volume), 0, 0))).Raised? <==> Unreadable(volume)
  {
    var path, zero := JoinPath(volume), PrintInt(0);
    IntRoundTrip(0);
    SplitWord(zero);
    SplitConcat(zero, zero);
    SplitConcat(path, zero + (" " + zero));
    assert Split(Print(PageFile(path, 0, 0))) == Split(path) + ([zero] + [zero]);
  }

  lemma {:induction false} WrittenReadsBackIff(volumes: seq<string>)
    ensures ParseAll(PrintAll(Wanted(volumes))).Raised? <==> HasUnreadable(volumes)
  {
    if volumes != [] {
      UnreadableMeaning(volumes[0]);
      WrittenReadsBackIff(volumes[1..]);
      assert Unreadable(volumes[0]) ==> HasUnreadable(volumes);
      assert forall i :: 0 < i < |volumes| ==> volumes[i] == volumes[1..][i - 1];
    }
  }

  lemma {:induction false} SpaceMeaning(volumes: seq<string>)
    ensures HasSpace(volumes) <==> !NoSpaces(volumes)
  {
    if !NoSpaces(volumes) {
      var v :| v in volumes && ' ' in v;
      var i :| 0 <= i < |volumes| && volumes[i] == v;
    }
  }

  /** A path without a space has one word, so it can be read back. */
  lemma {:induction false} UnreadableHasSpace(volume: string)
    requires Unreadable(volume)
    ensures ' ' in volume
  {
    JoinedSpace(volume);
    if ' ' !in JoinPath(volume) {
      SplitWord(JoinPath(volume));
    }
  }

  lemma {:induction false} AnUnreadableHasSpace(volumes: seq<string>)
    requires HasUnreadable(volumes)
    ensures HasSpace(volumes)
  {
    var i :| 0 <= i < |volumes| && Unreadable(volumes[i]);
    UnreadableHasSpace(volumes[i]);
  }

  /** The n-th execution on the same volumes. */
  function Execution(setting: Option<seq<string>>, volumes: seq<string>, n: nat): Result {
    ExecutePlugin(if n == 0 then setting else Execution(setting, volumes, n - 1).setting, volumes)
  }

  /** From any readable setting, every execution after the first on the same volumes fails exactly
      when a word of a path cannot be read as a number, asks for a reboot exactly when that is not
      so but a path has a space, and leaves the setting as the first execution left it. */
  lemma {:induction false} LaterExecutions(setting: seq<string>, volumes: seq<string>, n: nat)
    requires ParseAll(setting).Ok? && n > 0
    ensures
      var r := Execution(Some(setting), volumes, n);
      && (r.raised <==> HasUnreadable(volumes))
      && (r.reboot <==> HasSpace(volumes) && !HasUnreadable(volumes))
      && r.setting == ExecutePlugin(Some(setting), volumes).setting
  {
    if n > 1 {
      LaterExecutions(setting, volumes, n - 1);
      assert Execution(Some(setting), volumes, n).setting == ExecutePlugin(Some(setting), volumes).setting;
    }
    SecondExecution(setting, volumes);
  }

  lemma {:induction false} SecondExecution(setting: seq<string>, volumes: seq<string>)
    requires ParseAll(setting).Ok?
    ensures
      var first := ExecutePlugin(Some(setting), volumes);
      var r := ExecutePlugin(first.setting, volumes);
      && (r.raised <==> HasUnreadable(volumes))
      && (r.reboot <==> HasSpace(volumes) && !HasUnreadable(volumes))
      && r.setting == first.setting
  {
    ConvergesIff(setting, volumes);
    SpaceMeaning(volumes);
    if volumes != [] {
      WrittenReadsBackIff(volumes);
      if HasUnreadable(volumes) {
        AnUnreadableHasSpace(volumes);
      }
    }
  }

  lemma {:induction false} TwoWords(a: string, b: string)
    requires ' ' !in a && ' ' !in b
    ensures Split(a + (" " + b)) == [a, b]
  {
    SplitAtSpace(a, b);
    SplitWord(b);
  }

  lemma {:induction false} FourWords(a: string, b: string, c: string, d: string)
    requires ' ' !in a && ' ' !in b && ' ' !in c && ' ' !in d
    ensures Split(a + (" " + (b + (" " + (c + (" " + d)))))) == [a, b, c, d]
  {
    TwoWords(c, d);
    SplitAtSpace(b, c + (" " + d));
    SplitAtSpace(a, b + (" " + (c + (" " + d))));
  }

  lemma {:induction false} FourthWordLonger(a: string, b: string, c: string, d: string, tail: string)
    ensures (a + (" " + (b + (" " + (c + (" " + d)))))) + tail == a + (" " + (b + (" " + (c + (" " + (d + tail))))))
  {
  }

  /** Two numbers after the first word of a path: it is read back, as another page file. */
  lemma {:induction false} NumbersAreReadable(volume: string, a: string, min: string, max: string, d: string)
    requires volume == a + (" " + (min + (" " + (max + (" " + d))))) && ' ' !in a && ' ' !in d
    requires AllDigits(min) && AllDigits(max)
    ensures ' ' in volume && !Unreadable(volume)
  {
    var tail := PathTail(volume);
    FourthWordLonger(a, min, max, d, tail);
    DigitsHaveNoSpace(min);
    DigitsHaveNoSpace(max);
    DigitsParse(min);
    DigitsParse(max);
    FourWords(a, min, max, d + tail);
    assert volume[|a|] == ' ';
  }

  /** A second word that begins with a letter: the path cannot be read back. */
  lemma {:induction false} LetterIsUnreadable(volume: string, a: string, b: string)
    requires volume == a + (" " + b) && ' ' !in a && ' ' !in b
    requires b != "" && 'a' <= b[0] <= 'z'
    ensures Unreadable(volume)
  {
    var tail := PathTail(volume);
    assert volume + tail == a + (" " + (b + tail));
    TwoWords(a, b + tail);
    LetterIsNoNumber(b + tail);
  }

  lemma {:induction false} LetterIsNoNumber(word: string)
    requires word != "" && 'a' <= word[0] <= 'z'
    ensures ParseInt(word).Raised?
  {
    assert StripLeft(word) == word;
    StripRightKeepsFirst(word);
  }

  lemma {:induction false} StripRightKeepsFirst(word: string)
    requires word != "" && !IsSpace(word[0])
    ensures StripRight(word) != "" && StripRight(word)[0] == word[0]
  {
    if IsSpace(word[|word| - 1]) {
      StripRightKeepsFirst(word[..|word| - 1]);
    }
  }

  /** With the volume `a 1 2 b` every execution after the first asks for a reboot; with
      `C:\my disk\` every one fails. */
  lemma {:induction false} EndlessExecutions(setting: seq<string>, rewritten: string, failing: string, n: nat)
    requires ParseAll(setting).Ok? && n > 0
    requires rewritten == "a 1 2 b" && failing == "C:\\my disk\\"
    ensures Execution(Some(setting), [rewritten], n).reboot
    ensures Execution(Some(setting), [failing], n).raised
  {
    NumbersAreReadable(rewritten, "a", "1", "2", "b");
    LetterIsUnreadable(failing, "C:\\my", "disk\\");
    OneVolume(rewritten);
    OneVolume(failing);
    LaterExecutions(setting, [rewritten], n);
    LaterExecutions(setting, [failing], n);
  }

  lemma {:induction false} OneVolume(volume: string)
    ensures HasSpace([volume]) <==> ' ' in volume
    ensures HasUnreadable([volume]) <==> Unreadable(volume)
  {
    assert [volume][0] == volume;
  }

  /** From any readable setting, the second execution on the same volumes leaves the setting alone
      and asks for no reboot exactly when no volume path has a space; otherwise every execution
      writes it again or fails. */
  lemma {:induction false} ConvergesIff(setting: seq<string>, volumes: seq<string>)
    requires ParseAll(setting).Ok?
    ensures Quiet(ExecutePlugin(Some(setting), volumes).setting, volumes) <==> NoSpaces(volumes)
  {
    if volumes != [] {
      WantedPaths(volumes);
      ParsedPathsHaveNoSpace(setting);
      ParsedPathsHaveNoSpace(PrintAll(Wanted(volumes)));
      SettingRoundTripIff(Wanted(volumes));
      var first, second := ParseAll(setting).value, ParseAll(PrintAll(Wanted(volumes)));
      SameElements(first, Wanted(volumes));
      if second.Ok? {
        SameElements(second.value, Wanted(volumes));
      }
    }
  }

  lemma {:induction false} SameElements(a: seq<PageFile>, b: seq<PageFile>)
    requires forall p :: p in a ==> ' ' !in p.path
    ensures multiset(a) == multiset(b) ==> forall p :: p in b ==> ' ' !in p.path
  {
    assert forall p :: p in b ==> p in multiset(b);
  }

  /* ---------- What is read and written ---------- */

  /** The words with single spaces between them. */
  function Joined(words: seq<string>): string {
    if words == [] then "" else if |words| == 1 then words[0] else words[0] + " " + Joined(words[1..])
  }

  /** Splitting loses nothing, and leaves no space in a word. */
  lemma {:induction false} SplitMeaning(s: string)
    ensures Joined(Split(s)) == s
    ensures forall k :: 0 <= k < |Split(s)| ==> ' ' !in Split(s)[k]
  {
    if s != "" {
      SplitMeaning(s[1..]);
      var words, rest := Split(s), Split(s[1..]);
      assert words[1..] == if s[0] == ' ' then rest else rest[1..];
      assert [s[0]] + s[1..] == s;
    }
  }

  /** The value can be read: its second and third words, if there are such, are numbers. */
  predicate ReadableValue(value: string) {
    var words := Split(value);
    && (|words| > 1 ==> ParseInt(words[1]).Ok?)
    && (|words| > 2 ==> ParseInt(words[2]).Ok?)
  }

  /** What it says: a path and two sizes, zero where they are missing. */
  predicate SaysPageFile(value: string, p: PageFile) {
    var words := Split(value);
    && p.path == words[0]
    && (if |words| > 1 then ParseInt(words[1]) == Ok(p.minSize) else p.minSize == 0)
    && (if |words| > 2 then ParseInt(words[2]) == Ok(p.maxSize) else p.maxSize == 0)
  }

  /** A setting is read value by value, and fails exactly on a value that cannot be read. */
  lemma {:induction false} ReadMeaning(values: seq<string>)
    ensures ParseAll(values).Ok? <==> forall i :: 0 <= i < |values| ==> ReadableValue(values[i])
    ensures ParseAll(values).Ok? ==>
      && |ParseAll(values).value| == |values|
      && forall i :: 0 <= i < |values| ==> SaysPageFile(values[i], ParseAll(values).value[i])
  {
    if values != [] {
      ReadMeaning(values[1..]);
      assert forall i :: 0 < i < |values| ==> values[i] == values[1..][i - 1];
      assert ReadableValue(values[0]) <==> Parse(values[0]).Ok?;
    }
  }

  /** A backslash is put in between, unless the volume ends with a separator or is a drive. */
  predicate NeedsSeparator(volume: string) {
    var n := |volume|;
    n > 0 && volume[n - 1] != '\\' && volume[n - 1] != '/' && !(n == 2 && volume[1] == ':')
  }

  predicate WrittenFor(value: string, volume: string) {
    value == volume + ((if NeedsSeparator(volume) then "\\" else "") + "pagefile.sys 0 0")
  }

  lemma {:induction false} PrintedFor(volume: string)
    ensures WrittenFor(Print(PageFile(JoinPath(volume), 0, 0)), volume)
  {
    var sep := if NeedsSeparator(volume) then "\\" else "";
    assert PrintInt(0) == "0";
    assert JoinPath(volume) == volume + sep + "pagefile.sys";
    assert Print(PageFile(JoinPath(volume), 0, 0)) == JoinPath(volume) + " 0 0";
    assert sep + "pagefile.sys" + " 0 0" == sep + "pagefile.sys 0 0";
  }

  predicate AllWrittenFor(values: seq<string>, volumes: seq<string>) {
    |values| == |volumes| && forall i :: 0 <= i < |volumes| ==> WrittenFor(values[i], volumes[i])
  }

  lemma {:induction false} WrittenForCons(value: string, values: seq<string>, volumes: seq<string>)
    requires volumes != [] && WrittenFor(value, volumes[0]) && AllWrittenFor(values, volumes[1..])
    ensures AllWrittenFor([value] + values, volumes)
  {
  }

  lemma {:induction false} AllPrintedFor(volumes: seq<string>)
    ensures AllWrittenFor(PrintAll(Wanted(volumes)), volumes)
  {
    if volumes != [] {
      var first, rest := PageFile(JoinPath(volumes[0]), 0, 0), Wanted(volumes[1..]);
      PrintedFor(volumes[0]);
      AllPrintedFor(volumes[1..]);
      WrittenForCons(Print(first), PrintAll(rest), volumes);
      assert ([first] + rest)[0] == first && ([first] + rest)[1..] == rest;
    }
  }

  predicate CanBeRead(setting: Option<seq<string>>) {
    setting.Some? && forall i :: 0 <= i < |setting.value| ==> ReadableValue(setting.value[i])
  }

  /** One execution: nothing without volumes; an error exactly when the setting is missing or cannot
      be read; and when it does not say what is wanted, one value for each volume is written. */
  lemma {:induction false} ExecutionMeaning(setting: Option<seq<string>>, volumes: seq<string>)
    ensures
      var r := ExecutePlugin(setting, volumes);
      && (r.raised <==> volumes != [] && !CanBeRead(setting))
      && (!r.reboot ==> r.setting == setting)
      && (r.reboot ==> r.setting.Some? && volumes != [] && AllWrittenFor(r.setting.value, volumes))
  {
    if setting.Some? {
      ReadMeaning(setting.value);
    }
    AllPrintedFor(volumes);
  }
}
