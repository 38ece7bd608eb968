/**
 Quoting of program arguments for a Windows command line, and the Microsoft rules by which the
 started program splits that line again ("Parsing C command-line arguments").
 */
module CommandLine {

  predicate IsBlank(c: char) { c == ' ' || c == '\t' }

  function Repeat(c: char, n: nat): (s: string)
    ensures |s| == n && forall i :: 0 <= i < n ==> s[i] == c
  {
    seq(n, _ => c)
  }

  // ----- Quoting -----

  predicate NeedsQuotes(value: string)
  {
    value == [] || exists i :: 0 <= i < |value| && (IsBlank(value[i]) || value[i] == '"')
  }

  /** The text after the opening quote, when `pending` backslashes wait for what follows them. */
  function Escaped(value: string, pending: nat): string
  {
    if value == [] then Repeat('\\', 2 * pending) + ['"']
    else if value[0] == '\\' then Escaped(value[1..], pending + 1)
    else if value[0] == '"' then Repeat('\\', 2 * pending + 1) + ['"'] + Escaped(value[1..], 0)
    else Repeat('\\', pending) + [value[0]] + Escaped(value[1..], 0)
  }

  function Quoted(value: string): string
  {
    if NeedsQuotes(value) then ['"'] + Escaped(value, 0) else value
  }

  method QuoteArg(value: string) returns (result: string)
    ensures result == Quoted(value)
  {
    if value == [] { return ['"', '"']; }
    var needsQuotes := false;
    for i := 0 to |value|
      invariant !needsQuotes
      invariant forall j :: 0 <= j < i ==> !IsBlank(value[j]) && value[j] != '"'
    {
      if value[i] == ' ' || value[i] == '\t' || value[i] == '"' {
        needsQuotes := true;
        break;
      }
    }
    if !needsQuotes { return value; }
    result := ['"'];
    var backslashes := 0;
    for i := 0 to |value|
      invariant backslashes >= 0
      invariant result + Escaped(value[i..], backslashes) == ['"'] + Escaped(value, 0)
    {
      var character := value[i];
      assert value[i..][1..] == value[i + 1..];
      if character == '\\' {
        backslashes := backslashes + 1;
        continue;
      }
      if character == '"' {
        result := result + Repeat('\\', backslashes * 2 + 1) + ['"'];
        backslashes := 0;
        continue;
      }
      result := result + Repeat('\\', backslashes);
      backslashes := 0;
      result := result + [character];
    }
    result := result + Repeat('\\', backslashes * 2) + ['"'];
  }

  /** The arguments after the program name, each preceded by a space. */
  function Tail(arguments: seq<string>): string
  {
    if arguments == [] then [] else [' '] + Quoted(arguments[0]) + Tail(arguments[1..])
  }

  lemma {:induction false} TailAppend(arguments: seq<string>, last: string)
    ensures Tail(arguments + [last]) == Tail(arguments) + [' '] + Quoted(last)
  {
    if arguments == [] {
      assert [last][1..] == [];
    } else {
      TailAppend(arguments[1..], last);
      assert (arguments + [last])[1..] == arguments[1..] + [last];
    }
  }

  /** The branch of `buildCommandLine` for a plain program: what follows the program splits into its arguments. */
  method BuildCommandLine(resolvedCommand: string, command: seq<string>) returns (result: string)
    requires command != []
    ensures result == Quoted(resolvedCommand) + Tail(command[1..])
    ensures forall rule :: Split(result[|Quoted(resolvedCommand)|..], rule) == command[1..]
  {
    result := QuoteArg(resolvedCommand);
    for index := 1 to |command|
      invariant result == Quoted(resolvedCommand) + Tail(command[1..index])
    {
      var quoted := QuoteArg(command[index]);
      TailAppend(command[1..index], command[index]);
      assert command[1..index] + [command[index]] == command[1..index + 1];
      result := result + [' '] + quoted;
    }
    assert command[1..|command|] == command[1..];
    assert result[|Quoted(resolvedCommand)|..] == Tail(command[1..]);
    forall rule ensures Split(Tail(command[1..]), rule) == command[1..] {
      QuotingRoundTrip(command[1..], rule);
    }
  }

  // ----- Splitting -----

  /** What two quotes in a row inside a quoted part mean: this differs between Microsoft's parsers. */
  datatype DoubledQuote =
    | JustToggles        // no special rule
    | LiteralAndStays    // a literal quote, the part stays quoted
    | LiteralAndLeaves   // a literal quote, the part ends

  function Backslashes(s: string): (n: nat)
    ensures n <= |s| && s[..n] == Repeat('\\', n)
    ensures n < |s| ==> s[n] != '\\'
  {
    if s != [] && s[0] == '\\' then
      var n := 1 + Backslashes(s[1..]);
      assert s[..n] == [s[0]] + s[1..][..n - 1];
      n
    else 0
  }

  /** Between two arguments. */
  function Split(s: string, rule: DoubledQuote): seq<string>
    decreases |s|, 1
  {
    if s == [] then []
    else if IsBlank(s[0]) then Split(s[1..], rule)
    else Within(s, [], false, rule)
  }

  /** Inside an argument whose text so far is `text`. */
  function Within(s: string, text: string, quoted: bool, rule: DoubledQuote): seq<string>
    decreases |s|, 0
  {
    if s == [] then [text]
    else if !quoted && IsBlank(s[0]) then [text] + Split(s[1..], rule)
    else
      var n := Backslashes(s);
      if n > 0 then
        if n < |s| && s[n] == '"' then
          if n % 2 == 1 then Within(s[n + 1..], text + Repeat('\\', n / 2) + ['"'], quoted, rule)
          else Within(s[n..], text + Repeat('\\', n / 2), quoted, rule)
        else Within(s[n..], text + s[..n], quoted, rule)
      else if s[0] == '"' then
        if quoted && |s| > 1 && s[1] == '"' && !rule.JustToggles? then
          Within(s[2..], text + ['"'], rule.LiteralAndStays?, rule)
        else Within(s[1..], text, !quoted, rule)
      else Within(s[1..], text + [s[0]], quoted, rule)
  }

  // ----- Splitting undoes quoting -----

  /** The end of the line or the space before the next argument. */
  predicate AtBoundary(rest: string) { rest == [] || rest[0] == ' ' }

  lemma {:induction false} RunLength(n: nat, rest: string)
    requires rest == [] || rest[0] != '\\'
    ensures Backslashes(Repeat('\\', n) + rest) == n
  {
    if n == 0 {
      assert Repeat('\\', 0) + rest == rest;
    } else {
      assert (Repeat('\\', n) + rest)[1..] == Repeat('\\', n - 1) + rest;
      RunLength(n - 1, rest);
    }
  }

  /** A run of backslashes that is not followed by a quote stands for itself. */
  lemma LiteralRun(n: nat, rest: string, text: string, quoted: bool, rule: DoubledQuote)
    requires rest == [] || (rest[0] != '\\' && rest[0] != '"')
    ensures Within(Repeat('\\', n) + rest, text, quoted, rule) == Within(rest, text + Repeat('\\', n), quoted, rule)
  {
    var run := Repeat('\\', n);
    if n == 0 {
      assert run + rest == rest && text + run == text;
    } else {
      RunLength(n, rest);
      assert (run + rest)[..n] == run && (run + rest)[n..] == rest;
    }
  }

  lemma LiteralCharacter(c: char, rest: string, text: string, rule: DoubledQuote)
    requires c != '\\' && c != '"'
    ensures Within([c] + rest, text, true, rule) == Within(rest, text + [c], true, rule)
  {
    assert ([c] + rest)[1..] == rest;
  }

  lemma PlainCharacter(c: char, rest: string, text: string, rule: DoubledQuote)
    requires c != '\\' && c != '"' && !IsBlank(c)
    ensures Within([c] + rest, text, false, rule) == Within(rest, text + [c], false, rule)
  {
    assert ([c] + rest)[1..] == rest;
  }

  lemma EscapedQuote(n: nat, rest: string, text: string, quoted: bool, rule: DoubledQuote)
    ensures Within(Repeat('\\', 2 * n + 1) + ['"'] + rest, text, quoted, rule)
         == Within(rest, text + Repeat('\\', n) + ['"'], quoted, rule)
  {
    var k := 2 * n + 1;
    var s := Repeat('\\', k) + ['"'] + rest;
    assert Backslashes(s) == k by {
      assert s == Repeat('\\', k) + (['"'] + rest);
      RunLength(k, ['"'] + rest);
    }
    assert s[k] == '"' && s[k + 1..] == rest && k / 2 == n;
  }

  lemma ClosingQuote(n: nat, rest: string, text: string, rule: DoubledQuote)
    requires AtBoundary(rest)
    ensures Within(Repeat('\\', 2 * n) + ['"'] + rest, text, true, rule)
         == Within(rest, text + Repeat('\\', n), false, rule)
  {
    var close := ['"'] + rest;
    var s := Repeat('\\', 2 * n) + close;
    assert s == Repeat('\\', 2 * n) + ['"'] + rest;
    assert close[1..] == rest;
    RunLength(2 * n, close);
    if n == 0 {
      assert s == close && text + Repeat('\\', 0) == text;
    } else {
      assert s[2 * n..] == close;
    }
  }

  /** One character that is no backslash, read together with the backslashes before it. */
  lemma EscapedStep(value: string, pending: nat, rest: string, text: string, rule: DoubledQuote)
    requires value != [] && value[0] != '\\'
    ensures Within(Escaped(value, pending) + rest, text, true, rule)
         == Within(Escaped(value[1..], 0) + rest, text + Repeat('\\', pending) + [value[0]], true, rule)
  {
    var c := [value[0]];
    var after := Escaped(value[1..], 0) + rest;
    if value[0] == '"' {
      assert Escaped(value, pending) + rest == Repeat('\\', 2 * pending + 1) + c + after;
      EscapedQuote(pending, after, text, true, rule);
    } else {
      assert Escaped(value, pending) + rest == Repeat('\\', pending) + (c + after);
      LiteralRun(pending, c + after, text, true, rule);
      LiteralCharacter(value[0], after, text + Repeat('\\', pending), rule);
    }
  }

  lemma {:induction false} EscapedReadsBack(value: string, pending: nat, rest: string, text: string, rule: DoubledQuote)
    requires AtBoundary(rest)
    ensures Within(Escaped(value, pending) + rest, text, true, rule)
         == Within(rest, text + Repeat('\\', pending) + value, false, rule)
    decreases value
  {
    var before := text + Repeat('\\', pending);
    if value == [] {
      ClosingQuote(pending, rest, text, rule);
      assert before + value == before;
    } else if value[0] == '\\' {
      EscapedReadsBack(value[1..], pending + 1, rest, text, rule);
      assert text + Repeat('\\', pending + 1) + value[1..] == before + value;
    } else {
      EscapedStep(value, pending, rest, text, rule);
      EscapedReadsBack(value[1..], 0, rest, before + [value[0]], rule);
      assert before + [value[0]] + Repeat('\\', 0) + value[1..] == before + value;
    }
  }

  /** The run of backslashes, or the one character, at the front of such a text. */
  lemma PlainStep(value: string, rest: string, text: string, rule: DoubledQuote) returns (k: nat)
    requires AtBoundary(rest) && value != []
    requires forall i :: 0 <= i < |value| ==> !IsBlank(value[i]) && value[i] != '"'
    ensures 0 < k <= |value|
    ensures Within(value + rest, text, false, rule) == Within(value[k..] + rest, text + value[..k], false, rule)
  {
    var n := Backslashes(value);
    if n > 0 {
      k := n;
      assert value + rest == Repeat('\\', n) + (value[n..] + rest);
      LiteralRun(n, value[n..] + rest, text, false, rule);
    } else {
      k := 1;
      assert value + rest == [value[0]] + (value[1..] + rest);
      PlainCharacter(value[0], value[1..] + rest, text, rule);
      assert value[..1] == [value[0]];
    }
  }

  /** Text without blanks and quotes is read as it stands, whatever backslashes it holds. */
  lemma {:induction false} PlainReadsBack(value: string, rest: string, text: string, rule: DoubledQuote)
    requires AtBoundary(rest)
    requires forall i :: 0 <= i < |value| ==> !IsBlank(value[i]) && value[i] != '"'
    ensures Within(value + rest, text, false, rule) == Within(rest, text + value, false, rule)
    decreases |value|
  {
    if value == [] {
      assert value + rest == rest && text + value == text;
    } else {
      var k := PlainStep(value, rest, text, rule);
      PlainReadsBack(value[k..], rest, text + value[..k], rule);
      assert text + value[..k] + value[k..] == text + value;
    }
  }

  lemma ArgumentReadsBack(value: string, rest: string, rule: DoubledQuote)
    requires AtBoundary(rest)
    ensures Split(Quoted(value) + rest, rule) == Within(rest, value, false, rule)
  {
    assert [] + value == value;
    if NeedsQuotes(value) {
      OpeningQuote(Escaped(value, 0) + rest, rule);
      assert Quoted(value) + rest == ['"'] + (Escaped(value, 0) + rest);
      EscapedReadsBack(value, 0, rest, [], rule);
      assert [] + Repeat('\\', 0) + value == value;
    } else {
      PlainBegins(value + rest, rule);
      PlainReadsBack(value, rest, [], rule);
    }
  }

  lemma OpeningQuote(rest: string, rule: DoubledQuote)
    ensures Split(['"'] + rest, rule) == Within(rest, [], true, rule)
  {
    assert (['"'] + rest)[1..] == rest;
  }

  lemma PlainBegins(s: string, rule: DoubledQuote)
    requires s != [] && !IsBlank(s[0])
    ensures Split(s, rule) == Within(s, [], false, rule)
  {
  }

  /** For every argument list, under every variant of the rules, splitting gives the list back. */
  lemma {:induction false} QuotingRoundTrip(arguments: seq<string>, rule: DoubledQuote)
    ensures Split(Tail(arguments), rule) == arguments
  {
    if arguments != [] {
      var rest := Tail(arguments[1..]);
      var line := Tail(arguments);
      assert line[1..] == Quoted(arguments[0]) + rest;
      ArgumentReadsBack(arguments[0], rest, rule);
      QuotingRoundTrip(arguments[1..], rule);
    }
  }

  /** Two argument lists that are written the same are the same. */
  lemma QuotingIsInjective(a: seq<string>, b: seq<string>)
    requires Tail(a) == Tail(b)
    ensures a == b
  {
    QuotingRoundTrip(a, JustToggles);
    QuotingRoundTrip(b, JustToggles);
  }
}
