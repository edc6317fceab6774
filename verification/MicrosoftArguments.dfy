/** How the Microsoft C runtime splits a command line, applied to every argument. */
module MicrosoftArguments {

  const SLASH: char := '\\'
  const QUOTE: char := '"'

  function Repeat(c: char, n: nat): (r: string)
    ensures |r| == n && forall i :: 0 <= i < n ==> r[i] == c
  {
    seq(n, _ => c)
  }

  /** The number of backslashes `s` starts with. */
  function Slashes(s: string): (n: nat)
    ensures n <= |s| && (forall i :: 0 <= i < n ==> s[i] == SLASH)
    ensures n < |s| ==> s[n] != SLASH
  {
    if s == [] || s[0] != SLASH then 0 else 1 + Slashes(s[1..])
  }

  /** Reads one argument: its value, and what is left from the separator on. */
  function Argument(s: string, quoted: bool, separators: set<char>): (string, string)
    decreases |s|, if s != [] && s[0] == SLASH then 1 else 0
  {
    if s == [] then ([], [])
    else if s[0] == SLASH then
      var n := Slashes(s);
      if n < |s| && s[n] == QUOTE then
        if n % 2 == 1 then
          var (more, rest) := Argument(s[n + 1..], quoted, separators);
          (Repeat(SLASH, n / 2) + [QUOTE] + more, rest)
        else
          var (more, rest) := Argument(s[n..], quoted, separators);
          (Repeat(SLASH, n / 2) + more, rest)
      else
        var (more, rest) := Argument(s[n..], quoted, separators);
        (Repeat(SLASH, n) + more, rest)
    else if s[0] == QUOTE then
      if quoted && |s| > 1 && s[1] == QUOTE then
        var (more, rest) := Argument(s[2..], quoted, separators);
        ([QUOTE] + more, rest)
      else Argument(s[1..], !quoted, separators)
    else if !quoted && s[0] in separators then ([], s)
    else
      var (more, rest) := Argument(s[1..], quoted, separators);
      ([s[0]] + more, rest)
  }

  lemma {:induction false} ArgumentShrinks(s: string, quoted: bool, separators: set<char>)
    ensures |Argument(s, quoted, separators).1| <= |s|
    ensures s != [] && s[0] !in separators ==> |Argument(s, quoted, separators).1| < |s|
    decreases |s|, if s != [] && s[0] == SLASH then 1 else 0
  {
    if s == [] {
    } else if s[0] == SLASH {
      var n := Slashes(s);
      if n < |s| && s[n] == QUOTE && n % 2 == 1 {
        ArgumentShrinks(s[n + 1..], quoted, separators);
      } else {
        ArgumentShrinks(s[n..], quoted, separators);
      }
    } else if s[0] == QUOTE {
      if quoted && |s| > 1 && s[1] == QUOTE {
        ArgumentShrinks(s[2..], quoted, separators);
      } else {
        ArgumentShrinks(s[1..], !quoted, separators);
      }
    } else if !quoted && s[0] in separators {
    } else {
      ArgumentShrinks(s[1..], quoted, separators);
    }
  }

  function Skip(s: string, separators: set<char>): (r: string)
    ensures |r| <= |s| && (r != [] ==> r[0] !in separators)
  {
    if s != [] && s[0] in separators then Skip(s[1..], separators) else s
  }

  /** All arguments of a line. */
  function Split(s: string, separators: set<char>): seq<string>
    decreases |s|
  {
    var start := Skip(s, separators);
    if start == [] then []
    else
      ArgumentShrinks(start, false, separators);
      var (arg, rest) := Argument(start, false, separators);
      [arg] + Split(rest, separators)
  }

  // ---- reading runs of backslashes -----------------------------------------------------

  lemma {:induction false} SlashesOf(n: nat, rest: string)
    requires rest == [] || rest[0] != SLASH
    ensures Slashes(Repeat(SLASH, n) + rest) == n
  {
    if n > 0 {
      SlashesOf(n - 1, rest);
      assert (Repeat(SLASH, n) + rest)[1..] == Repeat(SLASH, n - 1) + rest;
    } else {
      assert Repeat(SLASH, 0) + rest == rest;
    }
  }

  lemma PlainSlashes(n: nat, rest: string, quoted: bool, separators: set<char>)
    requires rest == [] || (rest[0] != SLASH && rest[0] != QUOTE)
    ensures Argument(Repeat(SLASH, n) + rest, quoted, separators)
         == (Repeat(SLASH, n) + Argument(rest, quoted, separators).0, Argument(rest, quoted, separators).1)
  {
    var s := Repeat(SLASH, n) + rest;
    SlashesOf(n, rest);
    if n > 0 {
      assert s[0] == SLASH && s[n..] == rest;
    } else {
      assert s == rest;
      assert Repeat(SLASH, 0) + Argument(rest, quoted, separators).0 == Argument(rest, quoted, separators).0;
    }
  }

  lemma PlainChar(n: nat, c: char, rest: string, quoted: bool, separators: set<char>)
    requires c != SLASH && c != QUOTE && (quoted || c !in separators)
    ensures Argument(Repeat(SLASH, n) + [c] + rest, quoted, separators)
         == (Repeat(SLASH, n) + [c] + Argument(rest, quoted, separators).0, Argument(rest, quoted, separators).1)
  {
    assert Repeat(SLASH, n) + [c] + rest == Repeat(SLASH, n) + ([c] + rest);
    PlainSlashes(n, [c] + rest, quoted, separators);
    assert ([c] + rest)[1..] == rest;
    var more := Argument(rest, quoted, separators).0;
    assert Repeat(SLASH, n) + ([c] + more) == Repeat(SLASH, n) + [c] + more;
  }

  lemma EscapedQuote(n: nat, rest: string, quoted: bool, separators: set<char>)
    ensures Argument(Repeat(SLASH, 2 * n + 1) + [QUOTE] + rest, quoted, separators)
         == (Repeat(SLASH, n) + [QUOTE] + Argument(rest, quoted, separators).0, Argument(rest, quoted, separators).1)
  {
    var s := Repeat(SLASH, 2 * n + 1) + [QUOTE] + rest;
    assert s == Repeat(SLASH, 2 * n + 1) + ([QUOTE] + rest);
    SlashesOf(2 * n + 1, [QUOTE] + rest);
    assert s[0] == SLASH && s[2 * n + 1] == QUOTE && s[2 * n + 2..] == rest;
    assert (2 * n + 1) / 2 == n && (2 * n + 1) % 2 == 1;
  }

  lemma OpeningQuote(rest: string, separators: set<char>)
    ensures Argument([QUOTE] + rest, false, separators) == Argument(rest, true, separators)
  {
    assert ([QUOTE] + rest)[1..] == rest;
  }

  lemma ClosingQuote(n: nat, rest: string, separators: set<char>)
    requires rest == [] || (rest[0] in separators && rest[0] != QUOTE && rest[0] != SLASH)
    ensures Argument(Repeat(SLASH, 2 * n) + [QUOTE] + rest, true, separators) == (Repeat(SLASH, n), rest)
  {
    var s := Repeat(SLASH, 2 * n) + [QUOTE] + rest;
    assert s == Repeat(SLASH, 2 * n) + ([QUOTE] + rest);
    SlashesOf(2 * n, [QUOTE] + rest);
    assert s[2 * n..] == [QUOTE] + rest;
    assert Argument([QUOTE] + rest, true, separators) == ([], rest) by {
      assert ([QUOTE] + rest)[1..] == rest;
      assert Argument(rest, false, separators) == ([], rest);
    }
    if n > 0 {
      assert s[0] == SLASH && s[2 * n] == QUOTE;
      assert Repeat(SLASH, n) + [] == Repeat(SLASH, n);
    } else {
      assert s == [QUOTE] + rest && Repeat(SLASH, 0) == [];
    }
  }

  /** An argument with nothing to quote stands for itself. */
  lemma {:induction false} BareArgument(arg: string, rest: string, separators: set<char>)
    requires rest == [] || (rest[0] in separators && rest[0] != QUOTE && rest[0] != SLASH)
    requires forall i :: 0 <= i < |arg| ==> arg[i] != QUOTE && arg[i] !in separators
    ensures Argument(arg + rest, false, separators) == (arg, rest)
    decreases |arg|
  {
    if arg == [] {
      assert arg + rest == rest;
    } else {
      var n := Slashes(arg);
      var more := arg[n..];
      if n > 0 {
        assert arg == Repeat(SLASH, n) + more;
        assert arg + rest == Repeat(SLASH, n) + (more + rest);
        PlainSlashes(n, more + rest, false, separators);
        BareArgument(more, rest, separators);
      } else {
        BareArgument(arg[1..], rest, separators);
        assert (arg + rest)[1..] == arg[1..] + rest && (arg + rest)[0] == arg[0];
        assert [arg[0]] + arg[1..] == arg;
      }
    }
  }

  // ---- quoting ---------------------------------------------------------------------------

  /** The quoted form after `slashes` backslashes that were held back. */
  function Body(arg: string, slashes: nat): string
    decreases |arg|
  {
    if arg == [] then Repeat(SLASH, 2 * slashes) + [QUOTE]
    else if arg[0] == SLASH then Body(arg[1..], slashes + 1)
    else if arg[0] == QUOTE then Repeat(SLASH, 2 * slashes + 1) + [QUOTE] + Body(arg[1..], 0)
    else Repeat(SLASH, slashes) + [arg[0]] + Body(arg[1..], 0)
  }

  lemma BodyEnd(arg: string, slashes: nat)
    requires arg == []
    ensures Body(arg, slashes) == Repeat(SLASH, slashes * 2) + [QUOTE]
  {
  }

  lemma BodyStep(arg: string, i: nat, slashes: nat)
    requires i < |arg|
    ensures Body(arg[i..], slashes) ==
            if arg[i] == SLASH then Body(arg[i + 1..], slashes + 1)
            else Repeat(SLASH, if arg[i] == QUOTE then slashes * 2 + 1 else slashes) + [arg[i]] + Body(arg[i + 1..], 0)
  {
    assert arg[i..][0] == arg[i] && arg[i..][1..] == arg[i + 1..];
  }

  lemma {:induction false} BodyReadsBack(arg: string, slashes: nat, rest: string, separators: set<char>)
    requires rest == [] || (rest[0] in separators && rest[0] != QUOTE && rest[0] != SLASH)
    ensures Argument(Body(arg, slashes) + rest, true, separators) == (Repeat(SLASH, slashes) + arg, rest)
    decreases |arg|
  {
    hide Argument, Body;
    if arg == [] {
      BodyEnd(arg, slashes);
      ClosingQuote(slashes, rest, separators);
      assert Repeat(SLASH, slashes) + arg == Repeat(SLASH, slashes);
    } else {
      assert arg[0..] == arg;
      BodyStep(arg, 0, slashes);
      if arg[0] == SLASH {
        BodyReadsBack(arg[1..], slashes + 1, rest, separators);
        assert Repeat(SLASH, slashes + 1) + arg[1..] == Repeat(SLASH, slashes) + arg;
      } else {
        BodyReadsBack(arg[1..], 0, rest, separators);
        assert Repeat(SLASH, 0) + arg[1..] == arg[1..];
        PieceReadsBack(slashes, arg[0], Body(arg[1..], 0), arg[1..], rest, separators);
        assert [arg[0]] + arg[1..] == arg;
      }
    }
  }

  /** A run of backslashes, escaped when a quote follows, and the character after it. */
  lemma PieceReadsBack(slashes: nat, c: char, body: string, more: string, rest: string, separators: set<char>)
    requires c != SLASH && Argument(body + rest, true, separators) == (more, rest)
    ensures Argument(Repeat(SLASH, if c == QUOTE then slashes * 2 + 1 else slashes) + [c] + body + rest, true, separators)
         == (Repeat(SLASH, slashes) + ([c] + more), rest)
  {
    hide Argument;
    var run := Repeat(SLASH, if c == QUOTE then slashes * 2 + 1 else slashes);
    assert run + [c] + body + rest == run + [c] + (body + rest);
    if c == QUOTE {
      EscapedQuote(slashes, body + rest, true, separators);
    } else {
      PlainChar(slashes, c, body + rest, true, separators);
    }
    assert Repeat(SLASH, slashes) + [c] + more == Repeat(SLASH, slashes) + ([c] + more);
  }

  /** The whole quoted form reads back as the argument. */
  lemma QuotedReadsBack(arg: string, rest: string, separators: set<char>)
    requires rest == [] || (rest[0] in separators && rest[0] != QUOTE && rest[0] != SLASH)
    ensures Argument([QUOTE] + Body(arg, 0) + rest, false, separators) == (arg, rest)
  {
    hide Argument, Body;
    BodyReadsBack(arg, 0, rest, separators);
    assert [QUOTE] + Body(arg, 0) + rest == [QUOTE] + (Body(arg, 0) + rest);
    OpeningQuote(Body(arg, 0) + rest, separators);
    assert Repeat(SLASH, 0) + arg == arg;
  }

  // ---- joining ---------------------------------------------------------------------------

  /** Arguments, each encoded so that it reads back alone, read back in sequence when separated. */
  ghost predicate ReadsBack(encoded: string, arg: string, separators: set<char>) {
    && encoded != [] && encoded[0] !in separators
    && forall rest :: (rest == [] || (rest[0] in separators && rest[0] != QUOTE && rest[0] != SLASH)) ==>
         Argument(encoded + rest, false, separators) == (arg, rest)
  }

  lemma SplitFirst(encoded: string, arg: string, rest: string, separators: set<char>)
    requires ReadsBack(encoded, arg, separators)
    requires rest == [] || (rest[0] in separators && rest[0] != QUOTE && rest[0] != SLASH)
    ensures Split(encoded + rest, separators) == [arg] + Split(rest, separators)
  {
    assert (encoded + rest)[0] == encoded[0];
    assert Skip(encoded + rest, separators) == encoded + rest;
  }
}
