/** The command line: the tokenizer and dispatcher that turn one input line
    into a command, and the start-up argument checks. Reading lines, printing
    and the application-id lookup are left to the caller. */
module Commands {
  import opened Basics
  import opened Store

  // ---------------------------------------------------------------------
  // Whitespace and words

  /** Unicode `White_Space`, the set `char::is_whitespace` tests. */
  predicate IsWhitespace(c: char)
    ensures c == ' ' || c == '\t' || c == '\n' || c == '\r' ==> IsWhitespace(c)
    ensures '0' <= c <= '9' || 'a' <= c <= 'z' || 'A' <= c <= 'Z' ==> !IsWhitespace(c)
  {
    var n := c as int;
    (0x09 <= n <= 0x0D) || n == 0x20 || n == 0x85 || n == 0xA0 || n == 0x1680 ||
    (0x2000 <= n <= 0x200A) || n == 0x2028 || n == 0x2029 || n == 0x202F ||
    n == 0x205F || n == 0x3000
  }

  predicate AllWhitespace(s: string) {
    forall i :: 0 <= i < |s| ==> IsWhitespace(s[i])
  }

  /** A token as `split_whitespace` yields it: non-empty, no whitespace. */
  predicate IsWord(w: string) {
    |w| > 0 && forall i :: 0 <= i < |w| ==> !IsWhitespace(w[i])
  }

  /** Length of the run of non-whitespace characters `s` starts with. */
  function WordLength(s: string): (n: nat)
    ensures n <= |s|
    ensures forall i :: 0 <= i < n ==> !IsWhitespace(s[i])
    ensures n < |s| ==> IsWhitespace(s[n])
  {
    if s == [] || IsWhitespace(s[0]) then 0 else 1 + WordLength(s[1..])
  }

  /** A word's run stops where the word does when what follows starts with
      whitespace or nothing follows, and never looks past an earlier end. */
  lemma {:induction false} WordLengthAppend(x: string, z: string)
    requires WordLength(x) < |x| || z == [] || IsWhitespace(z[0])
    ensures WordLength(x + z) == WordLength(x)
  {
    if x == [] {
    } else if IsWhitespace(x[0]) {
      assert (x + z)[0] == x[0];
    } else {
      assert (x + z)[0] == x[0];
      assert (x + z)[1..] == x[1..] + z;
      WordLengthAppend(x[1..], z);
    }
  }

  /** `s.trim().split_whitespace()`: the maximal runs of non-whitespace
      characters, in order. The `trim` removes nothing the split keeps.
      Every token is a word, and there are no more tokens than characters. */
  function Tokens(s: string): (ts: seq<string>)
    ensures |ts| <= |s|
    ensures forall i :: 0 <= i < |ts| ==> IsWord(ts[i])
    decreases |s|
  {
    if s == [] then []
    else if IsWhitespace(s[0]) then Tokens(s[1..])
    else
      var n := WordLength(s);
      [s[..n]] + Tokens(s[n..])
  }

  /** The line has no tokens exactly when it is whitespace only. */
  lemma {:induction false} NoTokensIffBlank(s: string)
    ensures Tokens(s) == [] <==> AllWhitespace(s)
    decreases |s|
  {
    if s != [] && IsWhitespace(s[0]) {
      NoTokensIffBlank(s[1..]);
      assert forall i :: 1 <= i < |s| ==> s[i] == s[1..][i - 1];
    }
  }

  /** A whitespace-only prefix contributes no token. */
  lemma {:induction false} BlankPrefixVanishes(sep: string, y: string)
    requires AllWhitespace(sep)
    ensures Tokens(sep + y) == Tokens(y)
  {
    if sep != [] {
      assert (sep + y)[0] == sep[0];
      assert (sep + y)[1..] == sep[1..] + y;
      BlankPrefixVanishes(sep[1..], y);
    } else {
      assert sep + y == y;
    }
  }

  /** A word on its own is its only token. */
  lemma WordTokens(w: string)
    requires IsWord(w)
    ensures Tokens(w) == [w]
  {
    assert WordLength(w) == |w| by {
      WordLengthAppend(w, []);
      WordLengthOfWord(w);
    }
    assert w[..|w|] == w;
    assert w[|w|..] == [];
  }

  lemma {:induction false} WordLengthOfWord(w: string)
    requires forall i :: 0 <= i < |w| ==> !IsWhitespace(w[i])
    ensures WordLength(w) == |w|
  {
    if w != [] {
      assert forall i :: 0 <= i < |w| - 1 ==> w[1..][i] == w[i + 1];
      WordLengthOfWord(w[1..]);
    }
  }

  /** Splitting at a non-empty run of whitespace: the tokens of the two sides,
      one after the other. Any such run separates exactly like one space. */
  lemma {:induction false} TokensSplit(x: string, sep: string, y: string)
    requires sep != [] && AllWhitespace(sep)
    ensures Tokens(x + sep + y) == Tokens(x) + Tokens(y)
    decreases |x|
  {
    var s := x + sep + y;
    if x == [] {
      assert s == sep + y;
      BlankPrefixVanishes(sep, y);
    } else if IsWhitespace(x[0]) {
      assert s[0] == x[0];
      assert s[1..] == x[1..] + sep + y;
      TokensSplit(x[1..], sep, y);
    } else {
      var n := WordLength(x);
      var w, r := x[..n], x[n..];
      var rest := r + sep + y;
      assert IsWord(w) && (r == [] || IsWhitespace(r[0]));
      assert rest[0] == if r == [] then sep[0] else r[0];
      assert x == w + r;
      assert s == w + rest by {
        AppendAssoc(w, r, sep);
        AppendAssoc(w, r + sep, y);
      }
      assert Tokens(x) == [w] + Tokens(r) by {
        TokensOfWordThen(w, r);
      }
      assert Tokens(s) == [w] + Tokens(rest) by {
        TokensOfWordThen(w, rest);
      }
      assert Tokens(rest) == Tokens(r) + Tokens(y) by {
        TokensSplit(r, sep, y);
      }
    }
  }

  /** `join(" ")`: the first word comes first, and words joined by spaces
      neither start nor end with whitespace. */
  function Join(ts: seq<string>): (r: string)
    ensures ts != [] ==> ts[0] <= r
    ensures ts != [] && (forall i :: 0 <= i < |ts| ==> IsWord(ts[i])) ==>
              |r| > 0 && !IsWhitespace(r[0]) && !IsWhitespace(r[|r| - 1])
  {
    if ts == [] then []
    else if |ts| == 1 then ts[0]
    else ts[0] + [' '] + Join(ts[1..])
  }

  /** Joining words with single spaces and splitting again gives back the
      words. */
  lemma {:induction false} TokensOfJoin(ts: seq<string>)
    requires forall i :: 0 <= i < |ts| ==> IsWord(ts[i])
    ensures Tokens(Join(ts)) == ts
  {
    if |ts| == 1 {
      WordTokens(ts[0]);
    } else if |ts| > 1 {
      assert AllWhitespace([' ']);
      TokensSplit(ts[0], [' '], Join(ts[1..]));
      WordTokens(ts[0]);
      TokensOfJoin(ts[1..]);
    }
  }

  /** A text whose whitespace is already collapsed: words separated by single
      spaces, nothing leading or trailing. */
  predicate Normalized(v: string) {
    Join(Tokens(v)) == v
  }

  // ---------------------------------------------------------------------
  // Lower-casing the command word

  function LowerChar(c: char): char {
    if 'A' <= c <= 'Z' then (c as int + 32) as char else c
  }

  /** ASCII lower-casing, the part of `to_lowercase` the command words need. */
  function AsciiLower(s: string): (r: string)
    ensures |r| == |s|
    ensures forall i :: 0 <= i < |s| ==> r[i] == LowerChar(s[i])
  {
    if s == [] then [] else [LowerChar(s[0])] + AsciiLower(s[1..])
  }

  /** Lower-casing twice is lower-casing once, and keeps a word a word. */
  lemma LowerIsIdempotentOnWords(w: string)
    requires IsWord(w)
    ensures AsciiLower(AsciiLower(w)) == AsciiLower(w)
    ensures IsWord(AsciiLower(w))
  {
    assert forall i :: 0 <= i < |w| ==> !IsWhitespace(AsciiLower(w)[i]);
  }

  /** Lower-casing the line's command word as typed: ASCII lower case leaves
      a lower-case word unchanged. */
  lemma LowerOfLower(w: string)
    requires forall i :: 0 <= i < |w| ==> !('A' <= w[i] <= 'Z')
    ensures AsciiLower(w) == w
  {
  }

  // ---------------------------------------------------------------------
  // Commands

  datatype Command =
    | Add(key: string, value: string)
    | Get(key: string)
    | List
    | Exit
    | Help

  const EMPTY_COMMAND: string := "Empty command"
  const ADD_USAGE: string := "Invalid add command format. Usage: add <key> <value>"
  const GET_USAGE: string := "Invalid get command format. Usage: get <key>"
  const UNKNOWN_COMMAND: string := "Unknown command: "

  const KEYWORDS: set<string> := {"add", "get", "list", "exit", "quit", "help"}

  /** The `match` of `Command::from_str` on the token list. */
  function Dispatch(parts: seq<string>): (r: Result<Command, string>)
    requires forall i :: 0 <= i < |parts| ==> IsWord(parts[i])
    ensures r == Err(EMPTY_COMMAND) <==> parts == []
    ensures r.Ok? ==> |parts| > 0 && AsciiLower(parts[0]) in KEYWORDS
    ensures r.Ok? && r.value.Add? ==>
              |parts| >= 3 && r.value.key == parts[1] &&
              IsWord(r.value.key) && r.value.value != [] &&
              Tokens(r.value.value) == parts[2..] && Normalized(r.value.value)
    ensures r.Ok? && r.value.Get? ==>
              |parts| == 2 && r.value.key == parts[1] && IsWord(r.value.key)
    ensures |parts| > 0 && AsciiLower(parts[0]) == "add" ==>
              if |parts| >= 3 then r.Ok? && r.value.Add? else r == Err(ADD_USAGE)
    ensures |parts| > 0 && AsciiLower(parts[0]) == "get" ==>
              if |parts| == 2 then r.Ok? && r.value.Get? else r == Err(GET_USAGE)
    ensures |parts| > 0 && AsciiLower(parts[0]) == "list" ==> r == Ok(List)
    ensures |parts| > 0 && AsciiLower(parts[0]) in {"exit", "quit"} ==> r == Ok(Exit)
    ensures |parts| > 0 && AsciiLower(parts[0]) == "help" ==> r == Ok(Help)
    ensures |parts| > 0 && AsciiLower(parts[0]) !in KEYWORDS ==>
              r == Err(UNKNOWN_COMMAND + parts[0])
  {
    if parts == [] then Err(EMPTY_COMMAND)
    else
      var word := AsciiLower(parts[0]);
      if word == "add" then
        if |parts| < 3 then Err(ADD_USAGE)
        else
          TokensOfJoin(parts[2..]);
          Ok(Add(parts[1], Join(parts[2..])))
      else if word == "get" then
        if |parts| != 2 then Err(GET_USAGE) else Ok(Get(parts[1]))
      else if word == "list" then Ok(List)
      else if word == "exit" || word == "quit" then Ok(Exit)
      else if word == "help" then Ok(Help)
      else Err(UNKNOWN_COMMAND + parts[0])
  }

  /** `Command::from_str`: only a blank line is an empty command; a parsed
      key is one token, and a parsed value is the remaining tokens with the
      whitespace between them collapsed to single spaces. */
  function Parse(s: string): (r: Result<Command, string>)
    ensures r == Err(EMPTY_COMMAND) <==> AllWhitespace(s)
    ensures r.Ok? ==> |Tokens(s)| > 0 && AsciiLower(Tokens(s)[0]) in KEYWORDS
    ensures r.Ok? && r.value.Add? ==>
              |Tokens(s)| >= 3 && r.value.key == Tokens(s)[1] &&
              IsWord(r.value.key) && r.value.value != [] &&
              Tokens(r.value.value) == Tokens(s)[2..] && Normalized(r.value.value)
    ensures r.Ok? && r.value.Get? ==>
              |Tokens(s)| == 2 && r.value.key == Tokens(s)[1] && IsWord(r.value.key)
    ensures |Tokens(s)| > 0 && AsciiLower(Tokens(s)[0]) == "add" ==>
              if |Tokens(s)| >= 3 then r.Ok? && r.value.Add? else r == Err(ADD_USAGE)
    ensures |Tokens(s)| > 0 && AsciiLower(Tokens(s)[0]) == "get" ==>
              if |Tokens(s)| == 2 then r.Ok? && r.value.Get? else r == Err(GET_USAGE)
    ensures |Tokens(s)| > 0 && AsciiLower(Tokens(s)[0]) !in KEYWORDS ==>
              r == Err(UNKNOWN_COMMAND + Tokens(s)[0])
  {
    NoTokensIffBlank(s);
    Dispatch(Tokens(s))
  }

  /** The commands a line can spell, fields in the form a parse yields them. */
  predicate WellFormed(c: Command) {
    match c
    case Add(k, v) => IsWord(k) && v != [] && Normalized(v)
    case Get(k) => IsWord(k)
    case _ => true
  }

  /** The canonical line for a command. */
  function Render(c: Command): string {
    match c
    case Add(k, v) => "add" + [' '] + k + [' '] + v
    case Get(k) => "get" + [' '] + k
    case List => "list"
    case Exit => "exit"
    case Help => "help"
  }

  /** Rendering a well-formed command with arguments and parsing the line
      gives it back. */
  lemma ParseRender(c: Command)
    requires WellFormed(c) && (c.Add? || c.Get?)
    ensures Parse(Render(c)) == Ok(c)
  {
    match c
    case Add(k, v) =>
      ParseRenderAdd(k, v);
    case Get(k) =>
      ParseRenderGet(k);
  }

  /** A command word without arguments, alone on the line and in any case,
      parses to its command; `quit` is another name for `exit`. */
  lemma ParseKeywordAlone(w: string)
    requires IsWord(w) && AsciiLower(w) in {"list", "exit", "quit", "help"}
    ensures Parse(w) == Ok(match AsciiLower(w)
                           case "list" => List
                           case "help" => Help
                           case _ => Exit)
  {
    WordTokens(w);
    assert [w][0] == w;
  }

  lemma ParseRenderAdd(k: string, v: string)
    requires IsWord(k) && v != [] && Normalized(v)
    ensures Parse(Render(Add(k, v))) == Ok(Add(k, v))
  {
    AddLineTokens(k, v);
    LowerOfLower("add");
    NoTokensIffBlank(v);
    var parts := ["add", k] + Tokens(v);
    assert parts[0] == "add" && parts[1] == k && parts[2..] == Tokens(v);
    assert Dispatch(parts) == Ok(Add(k, Join(Tokens(v))));
  }

  lemma ParseRenderGet(k: string)
    requires IsWord(k)
    ensures Parse(Render(Get(k))) == Ok(Get(k))
  {
    assert AllWhitespace([' ']);
    TokensSplit("get", [' '], k);
    WordTokens("get");
    WordTokens(k);
    LowerOfLower("get");
    assert Dispatch(["get", k]) == Ok(Get(k));
  }

  /** The tokens of a line made of two words and a rest, single-spaced. */
  lemma TwoWordsThenTokens(w: string, k: string, v: string)
    requires IsWord(w) && IsWord(k)
    ensures Tokens(w + [' '] + k + [' '] + v) == [w, k] + Tokens(v)
  {
    var afterKey := [' '] + v;
    var afterWord := [' '] + (k + afterKey);
    assert AllWhitespace([' ']);
    assert w + [' '] + k + [' '] + v == w + afterWord by {
      AppendAssoc(w + [' '] + k, [' '], v);
      AppendAssoc(w + [' '], k, afterKey);
      AppendAssoc(w, [' '], k + afterKey);
    }
    assert Tokens(w + afterWord) == [w] + Tokens(afterWord) by {
      TokensOfWordThen(w, afterWord);
    }
    assert Tokens(afterWord) == Tokens(k + afterKey) by {
      BlankPrefixVanishes([' '], k + afterKey);
    }
    assert Tokens(k + afterKey) == [k] + Tokens(afterKey) by {
      TokensOfWordThen(k, afterKey);
    }
    assert Tokens(afterKey) == Tokens(v) by {
      BlankPrefixVanishes([' '], v);
    }
  }

  /** The tokens of a rendered `add` line. */
  lemma AddLineTokens(k: string, v: string)
    requires IsWord(k)
    ensures Tokens(Render(Add(k, v))) == ["add", k] + Tokens(v)
  {
    assert IsWord("add");
    TwoWordsThenTokens("add", k, v);
  }

  /** Any non-empty run of whitespace parses like a single space, so
      `add k  a   b` stores the value `a b`. */
  lemma ParseCollapsesWhitespace(x: string, sep: string, y: string)
    requires sep != [] && AllWhitespace(sep)
    ensures Parse(x + sep + y) == Parse(x + [' '] + y)
  {
    TokensSplit(x, sep, y);
    assert AllWhitespace([' ']);
    TokensSplit(x, [' '], y);
  }

  /** `list`, `exit`, `quit` and `help` ignore whatever follows them. */
  lemma TrailingTokensIgnored(s: string, t: string)
    requires Parse(s).Ok? && !Parse(s).value.Add? && !Parse(s).value.Get?
    ensures Parse(s + [' '] + t) == Parse(s)
  {
    assert AllWhitespace([' ']);
    TokensSplit(s, [' '], t);
    assert Tokens(s + [' '] + t)[0] == Tokens(s)[0];
  }

  /** The command word is matched in any case; an unknown word is reported
      as typed. */
  lemma ParseIgnoresCase(w: string, rest: string)
    requires IsWord(w) && (rest == [] || IsWhitespace(rest[0]))
    ensures AsciiLower(w) in KEYWORDS ==> Parse(w + rest) == Parse(AsciiLower(w) + rest)
    ensures AsciiLower(w) !in KEYWORDS ==> Parse(w + rest) == Err(UNKNOWN_COMMAND + w)
  {
    var lw := AsciiLower(w);
    LowerIsIdempotentOnWords(w);
    TokensOfWordThen(w, rest);
    TokensOfWordThen(lw, rest);
    DispatchIgnoresCase(w, Tokens(rest));
  }

  /** `Dispatch` looks at the command word only through its lower case. */
  lemma DispatchIgnoresCase(w: string, t: seq<string>)
    requires IsWord(w) && forall i :: 0 <= i < |t| ==> IsWord(t[i])
    ensures IsWord(AsciiLower(w))
    ensures AsciiLower(w) in KEYWORDS ==> Dispatch([w] + t) == Dispatch([AsciiLower(w)] + t)
    ensures AsciiLower(w) !in KEYWORDS ==> Dispatch([w] + t) == Err(UNKNOWN_COMMAND + w)
  {
    var lw := AsciiLower(w);
    LowerIsIdempotentOnWords(w);
    var a, b := [w] + t, [lw] + t;
    assert a[0] == w && b[0] == lw && |a| == |b|;
    assert a[1..] == t == b[1..];
    if |t| > 0 {
      assert a[1] == b[1];
      assert a[2..] == b[2..];
    }
  }

  /** The tokens of a word followed by whitespace or nothing. */
  lemma TokensOfWordThen(w: string, rest: string)
    requires IsWord(w) && (rest == [] || IsWhitespace(rest[0]))
    ensures Tokens(w + rest) == [w] + Tokens(rest)
  {
    WordLengthOfWord(w);
    WordLengthAppend(w, rest);
    assert (w + rest)[0] == w[0];
    assert (w + rest)[..|w|] == w;
    assert (w + rest)[|w|..] == rest;
  }

  // ---------------------------------------------------------------------
  // Start-up arguments

  function DigitValue(c: char): nat
    requires '0' <= c <= '9'
  {
    c as int - '0' as int
  }

  predicate AllDigits(s: string) {
    forall i :: 0 <= i < |s| ==> '0' <= s[i] <= '9'
  }

  /** The number a string of decimal digits denotes. */
  function DecimalValue(ds: string): nat
    requires AllDigits(ds)
  {
    if ds == [] then 0
    else DecimalValue(ds[..|ds| - 1]) * 10 + DigitValue(ds[|ds| - 1])
  }

  /** `s.parse::<u32>()`: an optional `+`, then at least one decimal digit,
      denoting a value that fits a `u32`. Leading zeros are accepted. */
  function ParseU32(s: string): (r: Option<u32>)
    ensures r.Some? ==> |s| > 0
  {
    var digits := if |s| > 0 && s[0] == '+' then s[1..] else s;
    if digits == [] || !AllDigits(digits) then None
    else if DecimalValue(digits) > U32_MAX then None
    else Some(DecimalValue(digits))
  }

  /** The decimal text of a number, without sign or leading zeros. */
  function DecimalText(n: nat): (s: string)
    ensures |s| > 0 && AllDigits(s)
  {
    (if n < 10 then [] else DecimalText(n / 10)) + [('0' as int + n % 10) as char]
  }

  lemma {:induction false} DecimalValueOfText(n: nat)
    ensures DecimalValue(DecimalText(n)) == n
  {
    var s := DecimalText(n);
    var prefix := if n < 10 then [] else DecimalText(n / 10);
    var d := n % 10;
    assert s == prefix + [('0' as int + d) as char];
    assert s[..|s| - 1] == prefix;
    assert DigitValue(s[|s| - 1]) == d;
    if n >= 10 {
      DecimalValueOfText(n / 10);
    }
    assert DecimalValue(s) == DecimalValue(prefix) * 10 + d;
    assert (n / 10) * 10 + d == n;
  }

  /** Every `u32` written in decimal parses back to itself. */
  lemma ParseU32OfText(n: u32)
    ensures ParseU32(DecimalText(n)) == Some(n)
  {
    DecimalValueOfText(n);
  }

  const BLOCK_RANGE_INVALID: string := "block_range must be a valid number"

  /** What start-up does with the command line: print the usage text and
      stop, or go on with an application name and an optional lookback. */
  datatype Launch =
    | ShowUsage
    | Start(appName: string, blockRange: Option<u32>)

  /** The argument checks of `main`. `args[0]` is the program name, so one or
      two user arguments are accepted. */
  function Launching(args: seq<string>): (r: Result<Launch, string>)
    ensures r == Ok(ShowUsage) <==> |args| < 2 || |args| > 3
    ensures r.Ok? && r.value.Start? ==>
              r.value.appName == args[1] &&
              (r.value.blockRange.Some? <==> |args| == 3) &&
              (|args| == 3 ==> r.value.blockRange == ParseU32(args[2]))
    ensures r.Err? <==> |args| == 3 && ParseU32(args[2]).None?
    ensures r.Err? ==> r.error == BLOCK_RANGE_INVALID
  {
    if |args| < 2 || |args| > 3 then Ok(ShowUsage)
    else if |args| == 3 then
      match ParseU32(args[2])
      case None => Err(BLOCK_RANGE_INVALID)
      case Some(n) => Ok(Start(args[1], Some(n)))
    else Ok(Start(args[1], None))
  }

  /** The lookback `main` reports: the configured range, or 10. It is the
      same window discovery uses. */
  function BlockLimit(blockRange: Option<u32>): (n: u32)
    ensures blockRange.Some? ==> n == blockRange.value
    ensures blockRange.None? ==> n == 10
    ensures forall latest: u32 {:trigger DiscoveryStart(latest, blockRange)} ::
              latest - DiscoveryStart(latest, blockRange) == Min(n, latest)
  {
    blockRange.GetOr(DEFAULT_BLOCK_RANGE)
  }
}
