/** Parsing of the lines of the node's configuration file: the split of a line
    into its first word and the remainder, the option lines, and the effect of
    the options on the two settings they control. */
module Config {

  /** The separators of the first word (" \t" in the source). */
  predicate IsBlank(c: char) {
    c == ' ' || c == '\t'
  }

  /** Characters removed by trimming: space and '\t' .. '\r'. */
  predicate IsSpace(c: char) {
    c == ' ' || '\t' <= c <= '\r'
  }

  predicate IsDigit(c: char) {
    '0' <= c <= '9'
  }

  /** `find_first_of(" \t", from)`, with |s| standing for npos. */
  function FindBlank(s: string, from: nat): (pos: nat)
    requires from <= |s|
    ensures from <= pos <= |s|
    ensures pos < |s| ==> IsBlank(s[pos])
    ensures forall k :: from <= k < pos ==> !IsBlank(s[k])
    decreases |s| - from
  {
    if from == |s| then |s|
    else if IsBlank(s[from]) then from
    else FindBlank(s, from + 1)
  }

  /** `find_first_not_of(" \t", from)`, with |s| standing for npos. */
  function FindNonBlank(s: string, from: nat): (pos: nat)
    requires from <= |s|
    ensures from <= pos <= |s|
    ensures pos < |s| ==> !IsBlank(s[pos])
    ensures forall k :: from <= k < pos ==> IsBlank(s[k])
    decreases |s| - from
  {
    if from == |s| then |s|
    else if !IsBlank(s[from]) then from
    else FindNonBlank(s, from + 1)
  }

  /** A line cut into its first word and the remainder. */
  datatype Split = Split(head: string, tail: string)

  predicate NoBlank(s: string) {
    forall k :: 0 <= k < |s| ==> !IsBlank(s[k])
  }

  /** The split of the first two lines (transport and its configuration; node
      name and workspace): the head runs up to the first blank, or is the whole
      line; the tail starts at the first non-blank after it, or is empty.
      Between the two there are only blanks. */
  function SplitWord(line: string): (r: Split)
    ensures |r.head| + |r.tail| <= |line|
    ensures r.head == line[..|r.head|] && NoBlank(r.head)
    ensures |r.head| < |line| ==> IsBlank(line[|r.head|])
    ensures r.tail == line[|line| - |r.tail|..]
    ensures forall k :: |r.head| <= k < |line| - |r.tail| ==> IsBlank(line[k])
    ensures r.tail == [] || !IsBlank(r.tail[0])
  {
    var pos := FindBlank(line, 0);
    if pos == |line| then Split(line, [])
    else
      var start := FindNonBlank(line, pos);
      Split(line[..pos], line[start..])
  }

  /** Putting a word, a run of blanks and a remainder together and splitting
      the line again gives back the word and the remainder. */
  lemma SplitWordJoin(word: string, gap: string, rest: string)
    requires NoBlank(word)
    requires forall k :: 0 <= k < |gap| ==> IsBlank(gap[k])
    requires rest == [] || !IsBlank(rest[0])
    requires gap == [] ==> rest == []
    ensures SplitWord(word + gap + rest) == Split(word, rest)
  {
    var line := word + gap + rest;
    var r := SplitWord(line);
    if gap == [] {
      assert line == word;
    } else {
      var stop := |word| + |gap|;
      assert forall k :: |word| <= k < stop ==> line[k] == gap[k - |word|];
      assert rest != [] ==> line[stop] == rest[0];
      assert IsBlank(line[|word|]);
      assert |r.head| == |word|;
      var start := FindNonBlank(line, |word|);
      assert start == stop;
      assert line[start..] == rest;
    }
  }

  /** What the first two lines of the configuration give: the transport kind
      (trimmed, lower-cased) and its configuration (trimmed), the node name
      (trimmed) and the workspace (as split off). */
  datatype Header = Header(transport: string, address: string, name: string, workspace: string)

  function ReadHeader(first: string, second: string): (h: Header)
    ensures h.address == [] || (!IsSpace(h.address[0]) && !IsSpace(h.address[|h.address| - 1]))
    ensures h.name == [] || (!IsSpace(h.name[0]) && !IsSpace(h.name[|h.name| - 1]))
    ensures h.workspace == [] || !IsBlank(h.workspace[0])
    ensures |h.workspace| <= |second| && h.workspace == second[|second| - |h.workspace|..]
  {
    var comm := SplitWord(first);
    var node := SplitWord(second);
    Header(ToLower(Trim(comm.head)), Trim(comm.tail), Trim(node.head), node.tail)
  }

  /** Two lines written as `transport blanks address` and `name blanks
      workspace` are read back into their four parts, the transport trimmed
      and lower-cased, the address and the name trimmed. */
  lemma ReadHeaderJoin(transport: string, gap1: string, address: string,
                       name: string, gap2: string, workspace: string)
    requires NoBlank(transport) && NoBlank(name)
    requires forall k :: 0 <= k < |gap1| ==> IsBlank(gap1[k])
    requires forall k :: 0 <= k < |gap2| ==> IsBlank(gap2[k])
    requires address == [] || !IsBlank(address[0])
    requires workspace == [] || !IsBlank(workspace[0])
    requires gap1 == [] ==> address == []
    requires gap2 == [] ==> workspace == []
    ensures ReadHeader(transport + gap1 + address, name + gap2 + workspace) ==
            Header(ToLower(Trim(transport)), Trim(address), Trim(name), workspace)
  {
    SplitWordJoin(transport, gap1, address);
    SplitWordJoin(name, gap2, workspace);
  }

  /** Strips spaces from the front. */
  function TrimLeft(s: string): (r: string)
    ensures |r| <= |s| && r == s[|s| - |r|..]
    ensures r == [] || !IsSpace(r[0])
    ensures forall k :: 0 <= k < |s| - |r| ==> IsSpace(s[k])
  {
    if s != [] && IsSpace(s[0]) then TrimLeft(s[1..]) else s
  }

  /** Strips spaces from the back. */
  function TrimRight(s: string): (r: string)
    ensures |r| <= |s| && r == s[..|r|]
    ensures r == [] || !IsSpace(r[|r| - 1])
    ensures forall k :: |r| <= k < |s| ==> IsSpace(s[k])
  {
    if s != [] && IsSpace(s[|s| - 1]) then TrimRight(s[..|s| - 1]) else s
  }

  /** Trimming as done by the helper library of the node (whose body is not
      part of this model): spaces go from both ends. */
  function Trim(s: string): (r: string)
    ensures r == [] || (!IsSpace(r[0]) && !IsSpace(r[|r| - 1]))
  {
    TrimRight(TrimLeft(s))
  }

  /** Lower-casing as done by the helper library (ASCII letters only). */
  function ToLower(s: string): (r: string)
    ensures |r| == |s|
  {
    if s == [] then []
    else
      var c := s[0];
      [if 'A' <= c <= 'Z' then (c as int + 32) as char else c] + ToLower(s[1..])
  }

  /** The longest prefix of digits. */
  function LeadingDigits(s: string): (r: string)
    ensures |r| <= |s| && r == s[..|r|]
    ensures forall k :: 0 <= k < |r| ==> IsDigit(r[k])
    ensures |r| < |s| ==> !IsDigit(s[|r|])
  {
    if s != [] && IsDigit(s[0]) then [s[0]] + LeadingDigits(s[1..]) else []
  }

  /** The value of a string of decimal digits, most significant first. */
  function DigitsValue(d: string): nat
    requires forall k :: 0 <= k < |d| ==> IsDigit(d[k])
  {
    if d == [] then 0
    else DigitsValue(d[..|d| - 1]) * 10 + DigitValue(d[|d| - 1])
  }

  function DigitValue(c: char): nat
    requires IsDigit(c)
  {
    c as int - '0' as int
  }

  /** C's `atoi`: leading spaces, an optional sign, then as many digits as
      there are; no digit at all gives 0. The 32-bit overflow, undefined in C,
      is not modelled. */
  function Atoi(s: string): int {
    var t := TrimLeft(s);
    if t != [] && t[0] == '-' then -(DigitsValue(LeadingDigits(t[1..])) as int)
    else if t != [] && t[0] == '+' then DigitsValue(LeadingDigits(t[1..]))
    else DigitsValue(LeadingDigits(t))
  }

  /** The decimal notation of a natural number. */
  function Decimal(n: nat): (d: string)
    ensures d != [] && forall k :: 0 <= k < |d| ==> IsDigit(d[k])
  {
    var last := ('0' as int + n % 10) as char;
    if n < 10 then [last] else Decimal(n / 10) + [last]
  }

  lemma {:induction false} DigitsValueDecimal(n: nat)
    ensures DigitsValue(Decimal(n)) == n
  {
    var d := Decimal(n);
    if n >= 10 {
      DigitsValueDecimal(n / 10);
      assert d[..|d| - 1] == Decimal(n / 10);
    }
  }

  /** `atoi` reads back the decimal notation of a number, with or without a
      minus sign in front. */
  lemma AtoiDecimal(n: nat)
    ensures Atoi(Decimal(n)) == n
    ensures Atoi("-" + Decimal(n)) == -(n as int)
  {
    DigitsValueDecimal(n);
    AtoiDigits(Decimal(n));
  }

  /** `atoi` of a non-empty run of digits, possibly after a minus sign, is its
      value. */
  lemma AtoiDigits(d: string)
    requires d != [] && forall k :: 0 <= k < |d| ==> IsDigit(d[k])
    ensures Atoi(d) == DigitsValue(d)
    ensures Atoi("-" + d) == -(DigitsValue(d) as int)
  {
    LeadingDigitsOfDigits(d);
    assert !IsSpace(d[0]);
    assert TrimLeft(d) == d;
    var m := "-" + d;
    assert TrimLeft(m) == m;
    assert m[1..] == d;
  }

  lemma LeadingDigitsOfDigits(d: string)
    requires forall k :: 0 <= k < |d| ==> IsDigit(d[k])
    ensures LeadingDigits(d) == d
  {
    var r := LeadingDigits(d);
  }

  /** An option line cut into the option's name (first word, trimmed and
      lower-cased) and its argument (the trimmed text after the first blank,
      taken only when at least one character follows that blank). */
  function SplitOption(line: string): (r: Split)
    ensures r.tail == [] || (!IsSpace(r.tail[0]) && !IsSpace(r.tail[|r.tail| - 1]))
    ensures NoBlank(line) ==> r.tail == []
  {
    var pos := FindBlank(line, 0);
    var option := if pos == |line| then line else line[..pos];
    var rest := if pos < |line| && |line| >= pos + 2 then Trim(line[pos + 1..]) else "";
    Split(ToLower(Trim(option)), rest)
  }

  /** An option name, one blank and a remainder: the name is the word
      trimmed and lower-cased, the argument the trimmed remainder (none when
      nothing follows the blank). */
  lemma SplitOptionJoin(word: string, b: char, rest: string)
    requires NoBlank(word) && IsBlank(b)
    ensures SplitOption(word + [b] + rest) == Split(ToLower(Trim(word)), if rest == [] then "" else Trim(rest))
  {
    var line := word + [b] + rest;
    assert FindBlank(line, 0) == |word| by {
      assert IsBlank(line[|word|]);
      assert forall k :: 0 <= k < |word| ==> line[k] == word[k];
    }
    assert line[..|word|] == word;
    assert line[|word| + 1..] == rest;
  }

  /** A line without a blank is all option name and carries no argument. */
  lemma SplitOptionWord(word: string)
    requires NoBlank(word)
    ensures SplitOption(word) == Split(ToLower(Trim(word)), "")
  {
    assert FindBlank(word, 0) == |word|;
  }

  /** An option line as the loop of the configuration reader sees it. */
  datatype OptionLine =
    | QuitIfOBNStops           // `quitifobnstops`
    | TimeoutSeconds(seconds: int)  // `timeout` with an argument, read by `atoi`
    | BareTimeout              // `timeout` without an argument
    | Unknown                  // any other option

  /** Classification of an option line by its lower-cased, trimmed name. */
  function ParseOption(line: string): (o: OptionLine)
    ensures o == QuitIfOBNStops <==> SplitOption(line).head == "quitifobnstops"
    ensures o.TimeoutSeconds? <==> SplitOption(line).head == "timeout" && SplitOption(line).tail != ""
    ensures o.TimeoutSeconds? ==> o.seconds == Atoi(SplitOption(line).tail)
    ensures o == BareTimeout <==> SplitOption(line).head == "timeout" && SplitOption(line).tail == ""
  {
    var r := SplitOption(line);
    if r.head == "quitifobnstops" then QuitIfOBNStops
    else if r.head == "timeout" then
      if r.tail != "" then TimeoutSeconds(Atoi(r.tail)) else BareTimeout
    else Unknown
  }

  /** Every line of a block, classified. */
  function ParseOptions(lines: seq<string>): (opts: seq<OptionLine>)
    ensures |opts| == |lines|
    ensures forall k :: 0 <= k < |lines| ==> opts[k] == ParseOption(lines[k])
  {
    seq(|lines|, k requires 0 <= k < |lines| => ParseOption(lines[k]))
  }

  /** The two settings the option lines control. */
  datatype Settings = Settings(quit: bool, timeout: int)

  /** The effect of one option line: `quitifobnstops` sets the quit flag, a
      `timeout` line with an argument sets the timeout, and every other line,
      a bare `timeout` included, changes nothing. */
  function ApplyOption(o: OptionLine, s: Settings): (r: Settings)
    ensures r.quit == (s.quit || o == QuitIfOBNStops)
    ensures r.timeout == (if o.TimeoutSeconds? then o.seconds else s.timeout)
  {
    match o
    case QuitIfOBNStops => s.(quit := true)
    case TimeoutSeconds(t) => s.(timeout := t)
    case BareTimeout => s
    case Unknown => s
  }

  /** The option lines applied one after the other, first to last. */
  function ApplyOptions(opts: seq<OptionLine>, s: Settings): Settings {
    if opts == [] then s
    else ApplyOption(opts[|opts| - 1], ApplyOptions(opts[..|opts| - 1], s))
  }

  /** Applying two blocks of lines is applying the first, then the second. */
  lemma {:induction false} ApplyOptionsAppend(a: seq<OptionLine>, b: seq<OptionLine>, s: Settings)
    ensures ApplyOptions(a + b, s) == ApplyOptions(b, ApplyOptions(a, s))
    decreases |b|
  {
    if b == [] {
      assert a + b == a;
    } else {
      ApplyOptionsAppend(a, b[..|b| - 1], s);
      assert (a + b)[..|a + b| - 1] == a + b[..|b| - 1];
    }
  }

  /** One more line of a block takes effect after the lines before it. */
  lemma ApplyOptionsStep(opts: seq<OptionLine>, i: nat, s: Settings)
    requires i < |opts|
    ensures ApplyOptions(opts[..i + 1], s) == ApplyOption(opts[i], ApplyOptions(opts[..i], s))
  {
    assert opts[..i + 1][..i] == opts[..i];
  }

  /** The quit flag ends up set exactly when it was set before or some line
      asks for it. */
  lemma {:induction false} QuitAfterOptions(opts: seq<OptionLine>, s: Settings)
    ensures ApplyOptions(opts, s).quit <==>
              s.quit || exists k :: 0 <= k < |opts| && opts[k] == QuitIfOBNStops
  {
    if opts != [] {
      var n := |opts| - 1;
      var init := opts[..n];
      QuitAfterOptions(init, s);
      assert forall k :: 0 <= k < n ==> init[k] == opts[k];
    }
  }

  /** Without a `timeout` line carrying an argument the timeout stays what it
      was; otherwise it is the value of the last such line. */
  lemma {:induction false} TimeoutAfterOptions(opts: seq<OptionLine>, s: Settings)
    ensures (forall k :: 0 <= k < |opts| ==> !opts[k].TimeoutSeconds?) ==>
              ApplyOptions(opts, s).timeout == s.timeout
    ensures forall k :: 0 <= k < |opts| && opts[k].TimeoutSeconds? &&
                        (forall j :: k < j < |opts| ==> !opts[j].TimeoutSeconds?) ==>
              ApplyOptions(opts, s).timeout == opts[k].seconds
  {
    if opts != [] {
      var n := |opts| - 1;
      var init := opts[..n];
      TimeoutAfterOptions(init, s);
      assert forall k :: 0 <= k < n ==> init[k] == opts[k];
    }
  }

  /** A line that changes nothing by itself (an unknown option or a bare
      `timeout`) may be removed from anywhere without changing the outcome. */
  lemma IneffectiveOptionIgnored(a: seq<OptionLine>, o: OptionLine, b: seq<OptionLine>, s: Settings)
    requires o == Unknown || o == BareTimeout
    ensures ApplyOptions(a + [o] + b, s) == ApplyOptions(a + b, s)
  {
    ApplyOptionsAppend(a + [o], b, s);
    ApplyOptionsAppend(a, b, s);
    ApplyOptionsAppend(a, [o], s);
    assert ApplyOptions([o], ApplyOptions(a, s)) == ApplyOptions(a, s) by {
      assert [o][..0] == [];
    }
  }

  /** `timeout N` sets the timeout to N, and `timeout` alone is bare. */
  lemma TimeoutLine(n: nat)
    ensures ParseOption("timeout " + Decimal(n)) == TimeoutSeconds(n)
    ensures ParseOption("timeout") == BareTimeout
  {
    TimeoutWordIsClean();
    SplitTimeoutLine(Decimal(n));
    AtoiDecimal(n);
  }

  /** The option name `timeout` survives trimming and lower-casing. */
  lemma TimeoutWordIsClean()
    ensures ToLower(Trim("timeout")) == "timeout"
    ensures FindBlank("timeout", 0) == 7
  {
    assert TrimLeft("timeout") == "timeout";
    assert TrimRight("timeout") == "timeout";
    assert ToLower("timeout") == "timeout";
  }

  /** `timeout` followed by one blank and a number splits into the two. */
  lemma SplitTimeoutLine(d: string)
    requires |d| > 0 && forall k :: 0 <= k < |d| ==> IsDigit(d[k])
    ensures SplitOption("timeout " + d) == Split("timeout", d)
  {
    var line := "timeout " + d;
    assert FindBlank(line, 0) == 7 by {
      assert IsBlank(line[7]);
      assert forall k :: 0 <= k < 7 ==> !IsBlank(line[k]);
    }
    assert line[..7] == "timeout";
    assert line[8..] == d;
    assert TrimLeft(d) == d by {
      assert !IsSpace(d[0]);
    }
    assert TrimRight(d) == d by {
      assert !IsSpace(d[|d| - 1]);
    }
    TimeoutWordIsClean();
  }
}
