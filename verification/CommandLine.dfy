/**
 Reading a command line into a list of options, and looking options up
 (src/cphConfig.c:121-183, 259-287, src/cphNameVal.c:49-116).
 */
module CommandLine {

  const UNSPECIFIED := "UNSPECIFIED"

  datatype Pair = Pair(name: string, value: string)

  datatype Found = Value(value: string) | Missing | TooLong

  /** A hyphen that does not begin a negative number. */
  predicate IsOption(arg: string) {
    arg != "" && arg[0] == '-' && !(|arg| > 1 && '0' <= arg[1] <= '9')
  }

  /** The option being read, its value so far, and the options already added. */
  datatype Scan = Scan(key: string, value: string, options: seq<Pair>) {
    /** The option being read, if there is one, joins the list. */
    function Added(): seq<Pair> { if key == "" then options else options + [Pair(key, value)] }
  }

  const AT_START := Scan("", UNSPECIFIED, [])

  /** A further token of a value. */
  function Grown(value: string, token: string): string {
    if value == UNSPECIFIED then token else value + " " + token
  }

  function Step(s: Scan, arg: string): Scan {
    if IsOption(arg) then Scan(arg[1..], UNSPECIFIED, s.Added())
    else s.(value := Grown(s.value, arg))
  }

  function Scanned(s: Scan, args: seq<string>): Scan {
    if args == [] then s else Step(Scanned(s, args[..|args| - 1]), args[|args| - 1])
  }

  function Parse(args: seq<string>): seq<Pair> { Scanned(AT_START, args).Added() }

  // ----- printing

  /** An option with the tokens of its value. */
  datatype Option = Option(key: string, tokens: seq<string>)

  /** A token that can be part of a value: it does not begin with a hyphen, or is a negative number. */
  predicate IsToken(token: string) {
    token != "" && token[0] == '-' ==> |token| > 1 && '0' <= token[1] <= '9'
  }

  /** Keys are not empty and do not begin like numbers. */
  predicate Printable(o: Option) {
    && o.key != "" && !('0' <= o.key[0] <= '9')
    && forall i :: 0 <= i < |o.tokens| ==> IsToken(o.tokens[i])
  }

  function Print(options: seq<Option>): seq<string> {
    if options == [] then []
    else
      var o := options[|options| - 1];
      Print(options[..|options| - 1]) + ["-" + o.key] + o.tokens
  }

  /** The value that is recorded for a sequence of tokens. */
  function Recorded(value: string, tokens: seq<string>): string {
    if tokens == [] then value
    else Grown(Recorded(value, tokens[..|tokens| - 1]), tokens[|tokens| - 1])
  }

  function Joined(tokens: seq<string>): string {
    if tokens == [] then ""
    else if |tokens| == 1 then tokens[0]
    else Joined(tokens[..|tokens| - 1]) + " " + tokens[|tokens| - 1]
  }

  /** How a recorded value reads. */
  function Read(value: string): string { if value == UNSPECIFIED then "" else value }

  lemma {:induction false} ScannedSum(s: Scan, p: seq<string>, q: seq<string>)
    ensures Scanned(s, p + q) == Scanned(Scanned(s, p), q)
  {
    if q == [] {
      assert p + q == p;
    } else {
      ScannedSum(s, p, q[..|q| - 1]);
      assert (p + q)[..|p + q| - 1] == p + q[..|q| - 1];
    }
  }

  lemma {:induction false} ScannedTokens(s: Scan, tokens: seq<string>)
    requires forall i :: 0 <= i < |tokens| ==> IsToken(tokens[i])
    ensures Scanned(s, tokens) == s.(value := Recorded(s.value, tokens))
  {
    if tokens != [] {
      ScannedTokens(s, tokens[..|tokens| - 1]);
    }
  }

  lemma ScannedOption(s: Scan, o: Option)
    requires Printable(o)
    ensures Scanned(s, ["-" + o.key] + o.tokens) == Scan(o.key, Recorded(UNSPECIFIED, o.tokens), s.Added())
  {
    var flag := "-" + o.key;
    assert IsOption(flag) && flag[1..] == o.key;
    ScannedSum(s, [flag], o.tokens);
    assert [flag][..0] == [];
    assert Scanned(s, [flag]) == Step(Scanned(s, []), flag);
    ScannedTokens(Scanned(s, [flag]), o.tokens);
  }

  /** The options as they are recorded. */
  function Records(options: seq<Option>): (r: seq<Pair>)
    ensures |r| == |options|
    ensures forall i :: 0 <= i < |r| ==> r[i] == Pair(options[i].key, Recorded(UNSPECIFIED, options[i].tokens))
  {
    seq(|options|, i requires 0 <= i < |options| => Pair(options[i].key, Recorded(UNSPECIFIED, options[i].tokens)))
  }

  lemma {:induction false} ScannedPrint(s: Scan, options: seq<Option>)
    requires s.key == "" && forall i :: 0 <= i < |options| ==> Printable(options[i])
    ensures Scanned(s, Print(options)).Added() == s.options + Records(options)
  {
    if options != [] {
      var before, o := options[..|options| - 1], options[|options| - 1];
      ScannedPrint(s, before);
      LastOption(options);
      hide Scanned, Step, Recorded, IsOption, Print, Records;
      ScannedSum(s, Print(before), ["-" + o.key] + o.tokens);
      ScannedOption(Scanned(s, Print(before)), o);
    }
  }

  /** Parsing what was printed gives back the same keys, with the values recorded for their tokens, in order. */
  lemma RoundTrip(options: seq<Option>)
    requires forall i :: 0 <= i < |options| ==> Printable(options[i])
    ensures Parse(Print(options)) == Records(options)
  {
    ScannedPrint(AT_START, options);
  }

  lemma LoneHyphen(s: Scan)
    ensures Scanned(s, ["-"]) == Scan("", UNSPECIFIED, s.Added())
  {
    assert ["-"][..0] == [];
    assert Scanned(s, ["-"]) == Step(Scanned(s, []), "-");
  }

  /** Values before the first option, or after a lone hyphen, are ignored. */
  lemma StrayValuesIgnored(options: seq<Option>, stray: seq<string>)
    requires forall i :: 0 <= i < |options| ==> Printable(options[i])
    requires forall i :: 0 <= i < |stray| ==> IsToken(stray[i])
    ensures Parse(stray + Print(options)) == Records(options)
    ensures Parse(Print(options) + (["-"] + stray)) == Records(options)
  {
    hide Scanned, Recorded, Print, Records, IsToken, Printable;
    ScannedTokens(AT_START, stray);
    ScannedSum(AT_START, stray, Print(options));
    ScannedPrint(AT_START.(value := Recorded(UNSPECIFIED, stray)), options);
    RoundTrip(options);
    var s := Scanned(AT_START, Print(options));
    LoneHyphen(s);
    ScannedSum(AT_START, Print(options), ["-"] + stray);
    ScannedSum(s, ["-"], stray);
    ScannedTokens(Scan("", UNSPECIFIED, s.Added()), stray);
  }

  lemma LastOption(options: seq<Option>)
    requires options != []
    ensures var before, o := options[..|options| - 1], options[|options| - 1];
      && Print(options) == Print(before) + (["-" + o.key] + o.tokens)
      && Records(options) == Records(before) + [Pair(o.key, Recorded(UNSPECIFIED, o.tokens))]
  {
    hide Recorded;
  }

  // ----- what a recorded value is

  /** A value of several tokens has a blank in it. */
  lemma {:induction false} JoinedHasBlank(tokens: seq<string>)
    requires |tokens| > 1
    ensures ' ' in Joined(tokens)
  {
    var p := Joined(tokens[..|tokens| - 1]);
    assert Joined(tokens)[|p|] == ' ';
  }

  lemma {:induction false} RecordedIsJoined(tokens: seq<string>)
    requires tokens != [] && (|tokens| > 1 ==> tokens[0] != UNSPECIFIED)
    ensures Recorded(UNSPECIFIED, tokens) == Joined(tokens)
  {
    var before := tokens[..|tokens| - 1];
    if |tokens| == 1 {
      assert before == [];
    } else {
      RecordedIsJoined(before);
      if |before| > 1 {
        JoinedHasBlank(before);
      }
    }
  }

  lemma {:induction false} RecordedIsShort(tokens: seq<string>)
    requires |tokens| > 1
    ensures tokens[0] == UNSPECIFIED ==> |Recorded(UNSPECIFIED, tokens)| < |Joined(tokens)|
    ensures |Recorded(UNSPECIFIED, tokens)| <= |Joined(tokens)|
  {
    var before := tokens[..|tokens| - 1];
    if |before| == 1 {
      assert before[..0] == [];
      assert Recorded(UNSPECIFIED, before) == tokens[0];
    } else {
      RecordedIsShort(before);
    }
  }

  /** A value reads as its tokens joined by blanks, exactly when the first token is not the word for no value. */
  lemma ReadsAsJoined(tokens: seq<string>)
    ensures Read(Recorded(UNSPECIFIED, tokens)) == Joined(tokens) <==> tokens == [] || tokens[0] != UNSPECIFIED
  {
    if tokens != [] {
      if tokens[0] != UNSPECIFIED || |tokens| == 1 {
        RecordedIsJoined(tokens);
        if |tokens| > 1 {
          JoinedHasBlank(tokens);
        }
      } else {
        RecordedIsShort(tokens);
      }
    }
  }

  // ----- looking options up

  function FirstMatch(pairs: seq<Pair>, name: string): (i: nat)
    ensures i <= |pairs| && (i < |pairs| ==> pairs[i].name == name)
    ensures forall j :: 0 <= j < i ==> pairs[j].name != name
  {
    if pairs == [] || pairs[0].name == name then 0 else 1 + FirstMatch(pairs[1..], name)
  }

  /** The first match, if it fits the buffer; a value that does not fit stops the program. */
  function Get(pairs: seq<Pair>, name: string, buffer: nat): Found
    requires buffer > 0
  {
    var i := FirstMatch(pairs, name);
    if i == |pairs| then Missing
    else if |pairs[i].value| > buffer - 1 then TooLong
    else Value(pairs[i].value)
  }

  /** The command line comes before the defaults. */
  function Lookup(options: seq<Pair>, defaults: seq<Pair>, name: string, buffer: nat): Found
    requires buffer > 0
  {
    var given := Get(options, name, buffer);
    var found := if given.Missing? then Get(defaults, name, buffer) else given;
    if found.Value? then Value(Read(found.value)) else found
  }

  /** Place i is the first with the name. */
  ghost predicate FirstAt(pairs: seq<Pair>, name: string, i: int) {
    0 <= i < |pairs| && pairs[i].name == name && forall j :: 0 <= j < i ==> pairs[j].name != name
  }

  ghost predicate Absent(pairs: seq<Pair>, name: string) {
    forall i :: 0 <= i < |pairs| ==> pairs[i].name != name
  }

  /** What is returned for a value: the value itself, nothing for no value, or a failure if it does not fit. */
  predicate Serves(found: Found, value: string, buffer: nat) {
    if |value| >= buffer then found == TooLong
    else found == Value(if value == "UNSPECIFIED" then "" else value)
  }

  /**
   The first option with the name decides; if there is none, the first default with it;
   and the name is unknown exactly if neither list has it.
   */
  lemma LookupByPlace(options: seq<Pair>, defaults: seq<Pair>, name: string, buffer: nat)
    requires buffer > 0
    ensures var found := Lookup(options, defaults, name, buffer);
      && (forall i :: FirstAt(options, name, i) ==> Serves(found, options[i].value, buffer))
      && (Absent(options, name) ==> forall i :: FirstAt(defaults, name, i) ==> Serves(found, defaults[i].value, buffer))
      && (found.Missing? <==> Absent(options, name) && Absent(defaults, name))
  {
    var i, j := FirstMatch(options, name), FirstMatch(defaults, name);
    assert i < |options| ==> options[i].name == name;
    assert j < |defaults| ==> defaults[j].name == name;
  }

  /**
   What was printed is found again: the first option with the name gives the value,
   whatever the defaults are, and an option without tokens reads as empty.  The first
   default with the name gives the value only if the name was not printed.
   */
  lemma PrintedIsFound(options: seq<Option>, defaults: seq<Pair>, name: string, buffer: nat)
    requires (forall i :: 0 <= i < |options| ==> Printable(options[i])) && buffer > 0
    ensures var found := Lookup(Parse(Print(options)), defaults, name, buffer);
      && (forall i :: FirstWith(options, name, i) && |Recorded(UNSPECIFIED, options[i].tokens)| < buffer ==>
            found.Value?
            && (found.value == Joined(options[i].tokens)
                <==> options[i].tokens == [] || options[i].tokens[0] != UNSPECIFIED))
      && ((forall i :: 0 <= i < |options| ==> options[i].key != name) ==>
            && (forall i :: FirstAt(defaults, name, i) ==> Serves(found, defaults[i].value, buffer))
            && (found.Missing? <==> Absent(defaults, name)))
  {
    RoundTrip(options);
    var records := Records(options);
    LookupByPlace(records, defaults, name, buffer);
    forall i | FirstWith(options, name, i) ensures FirstAt(records, name, i) {
    }
    var k := FirstMatch(records, name);
    if k < |options| {
      assert options[k].key == records[k].name == name;
      assert FirstAt(records, name, k);
      ReadsAsJoined(options[k].tokens);
    }
  }

  /** Option i is the first with the name. */
  ghost predicate FirstWith(options: seq<Option>, name: string, i: int) {
    0 <= i < |options| && options[i].key == name && forall j :: 0 <= j < i ==> options[j].key != name
  }
}
