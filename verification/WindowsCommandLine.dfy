/** The command line built for CreateProcess from an argument vector. */
module WindowsCommandLine {
  import opened MicrosoftArguments

  const BLANKS: set<char> := {' ', '\t'}
  const NUL: char := '\0'

  predicate NeedsQuotes(arg: string) {
    arg == [] || exists i :: 0 <= i < |arg| && (arg[i] == ' ' || arg[i] == '\t' || arg[i] == QUOTE)
  }

  function Encode(arg: string): string {
    if NeedsQuotes(arg) then [QUOTE] + Body(arg, 0) else arg
  }

  /** The whole line: encoded arguments with one blank between them. */
  function Line(args: seq<string>): string {
    if args == [] then []
    else if |args| == 1 then Encode(args[0])
    else Encode(args[0]) + [' '] + Line(args[1..])
  }

  predicate EndsWithSh(s: string) {
    |s| >= 3 && s[|s| - 3..] == ".sh"
  }

  /** On Windows a shell script is run through `sh`. */
  function Effective(args: seq<string>, onWindows: bool): seq<string> {
    if onWindows && args != [] && EndsWithSh(args[0]) then ["sh"] + args else args
  }

  // ---- the round trip ------------------------------------------------------------------

  lemma EncodeReadsBack(arg: string)
    ensures ReadsBack(Encode(arg), arg, BLANKS)
  {
    hide Argument, Body;
    forall rest | rest == [] || (rest[0] in BLANKS && rest[0] != QUOTE && rest[0] != SLASH)
      ensures Argument(Encode(arg) + rest, false, BLANKS) == (arg, rest)
    {
      if NeedsQuotes(arg) {
        QuotedReadsBack(arg, rest, BLANKS);
      } else {
        BareArgument(arg, rest, BLANKS);
      }
    }
  }

  /** Splitting the line gives back the arguments, whatever they contain. */
  lemma {:induction false} LineSplitsBack(args: seq<string>)
    ensures Split(Line(args), BLANKS) == args
    decreases |args|
  {
    hide Split, Encode, ReadsBack;
    if args == [] {
      SplitNothing();
    } else {
      EncodeReadsBack(args[0]);
      if |args| == 1 {
        SplitFirst(Encode(args[0]), args[0], [], BLANKS);
        SplitNothing();
        assert Encode(args[0]) + [] == Encode(args[0]);
        assert args == [args[0]] + [];
      } else {
        LineSplitsBack(args[1..]);
        LineStep(Encode(args[0]), args[0], Line(args[1..]));
        assert args == [args[0]] + args[1..];
      }
    }
  }

  lemma SplitNothing()
    ensures Split([], BLANKS) == []
  {}

  lemma LineStep(encoded: string, arg: string, line: string)
    requires ReadsBack(encoded, arg, BLANKS)
    ensures Split(encoded + [' '] + line, BLANKS) == [arg] + Split(line, BLANKS)
  {
    hide Split, ReadsBack;
    var rest := [' '] + line;
    assert encoded + [' '] + line == encoded + rest && rest[1..] == line;
    SplitFirst(encoded, arg, rest, BLANKS);
    SplitSkips(rest);
  }

  lemma SplitSkips(s: string)
    requires s != [] && s[0] in BLANKS
    ensures Split(s, BLANKS) == Split(s[1..], BLANKS)
  {
    assert Skip(s, BLANKS) == Skip(s[1..], BLANKS);
  }

  lemma {:induction false} LineGrows(args: seq<string>, arg: string)
    ensures Line(args + [arg]) == Line(args) + (if args == [] then [] else [' ']) + Encode(arg)
    decreases |args|
  {
    if args == [] {
      assert args + [arg] == [arg];
    } else {
      LineGrows(args[1..], arg);
      assert (args + [arg])[1..] == args[1..] + [arg];
    }
  }

  // ---- writing into a buffer of fixed size -------------------------------------------------

  /** A buffer with a cursor; the text so far is always closed by a NUL. */
  /** What the program started by the line is given: the vector, after `sh` if it is a shell script on Windows. */
  lemma StartedWith(args: seq<string>, onWindows: bool)
    ensures onWindows && args != [] && |args[0]| >= 3 && args[0][|args[0]| - 3] == '.' && args[0][|args[0]| - 2] == 's' && args[0][|args[0]| - 1] == 'h' ==>
              Split(Line(Effective(args, onWindows)), BLANKS) == ["sh"] + args
    ensures !onWindows || args == [] || |args[0]| < 3 || args[0][|args[0]| - 3..] != ".sh" ==> Split(Line(Effective(args, onWindows)), BLANKS) == args
  {
    hide Split, Line;
    LineSplitsBack(Effective(args, onWindows));
  }

  class LineWriter {
    const dst: array<char>
    var cursor: nat
    var remaining: nat

    ghost predicate Valid()
      reads this, dst
    {
      && remaining > 0 && cursor + remaining == dst.Length
      && dst[cursor] == NUL
    }

    ghost function Text(): string
      requires Valid()
      reads this, dst
    {
      dst[..cursor]
    }

    constructor (dst: array<char>)
      requires dst.Length > 0
      modifies dst
      ensures this.dst == dst && Valid() && Text() == [] && remaining == dst.Length
    {
      this.dst, cursor, remaining := dst, 0, dst.Length;
      new;
      dst[0] := NUL;
    }

    method AppendChar(c: char) returns (ok: bool)
      requires Valid()
      modifies this, dst
      ensures Valid()
      ensures ok <==> old(remaining) > 1
      ensures Text() == old(Text()) + if ok then [c] else []
    {
      ok := remaining > 1;
      if ok {
        dst[cursor] := c;
        cursor, remaining := cursor + 1, remaining - 1;
        dst[cursor] := NUL;
      }
    }

    method AppendRepeated(c: char, count: nat) returns (ok: bool)
      requires Valid()
      modifies this, dst
      ensures Valid()
      ensures ok <==> old(remaining) > count
      ensures ok ==> Text() == old(Text()) + Repeat(c, count)
    {
      var left := count;
      while left > 0
        invariant Valid() && 0 <= left <= count && remaining + count - left == old(remaining)
        invariant Text() == old(Text()) + Repeat(c, count - left)
      {
        left := left - 1;
        ok := AppendChar(c);
        if !ok {
          return;
        }
        assert Repeat(c, count - left - 1) + [c] == Repeat(c, count - left);
      }
      ok := true;
    }

    method AppendString(s: string) returns (ok: bool)
      requires Valid()
      modifies this, dst
      ensures Valid()
      ensures ok <==> old(remaining) > |s|
      ensures ok ==> Text() == old(Text()) + s
    {
      for i := 0 to |s|
        invariant Valid() && remaining + i == old(remaining)
        invariant Text() == old(Text()) + s[..i]
      {
        ok := AppendChar(s[i]);
        if !ok {
          return;
        }
      }
      ok := true;
    }

    static method WantsQuotes(arg: string) returns (quote: bool)
      ensures quote == NeedsQuotes(arg)
    {
      if |arg| == 0 {
        return true;
      }
      for i := 0 to |arg|
        invariant forall j :: 0 <= j < i ==> arg[j] != ' ' && arg[j] != '	' && arg[j] != QUOTE
      {
        if arg[i] == ' ' || arg[i] == '	' || arg[i] == QUOTE {
          return true;
        }
      }
      quote := false;
    }

    /** Appends one argument in its encoded form, or fails when that and a NUL do not fit. */
    method AppendArgument(arg: string) returns (ok: bool)
      requires Valid()
      modifies this, dst
      ensures Valid()
      ensures ok <==> old(remaining) > |Encode(arg)|
      ensures ok ==> Text() == old(Text()) + Encode(arg)
    {
      hide Body;
      var quote := WantsQuotes(arg);
      if !quote {
        ok := AppendString(arg);
        return;
      }
      ok := AppendChar(QUOTE);
      if ok {
        ok := AppendBody(arg);
      }
    }

    /** A run of backslashes and the character after it. */
    method AppendRun(run: nat, c: char) returns (ok: bool)
      requires Valid()
      modifies this, dst
      ensures Valid()
      ensures ok <==> old(remaining) > run + 1
      ensures ok ==> Text() == old(Text()) + (Repeat(SLASH, run) + [c])
    {
      ok := AppendRepeated(SLASH, run);
      if ok {
        ok := AppendChar(c);
      }
    }

    method AppendBody(arg: string) returns (ok: bool)
      requires Valid()
      modifies this, dst
      ensures Valid()
      ensures ok <==> old(remaining) > |Body(arg, 0)|
      ensures ok ==> Text() == old(Text()) + Body(arg, 0)
    {
      hide Body;
      var slashes := 0;
      ghost var done := "";
      assert arg[0..] == arg && "" + Body(arg, 0) == Body(arg, 0);
      for i := 0 to |arg|
        invariant Valid() && remaining + |done| == old(remaining)
        invariant Text() == old(Text()) + done
        invariant Body(arg, 0) == done + Body(arg[i..], slashes)
      {
        BodyStep(arg, i, slashes);
        if arg[i] == SLASH {
          slashes := slashes + 1;
          continue;
        }
        var run := if arg[i] == QUOTE then slashes * 2 + 1 else slashes;
        ghost var piece := Repeat(SLASH, run) + [arg[i]];
        ok := AppendRun(run, arg[i]);
        if !ok {
          return;
        }
        assert done + (piece + Body(arg[i + 1..], 0)) == (done + piece) + Body(arg[i + 1..], 0);
        done := done + piece;
        slashes := 0;
      }
      BodyEnd(arg[|arg|..], slashes);
      ok := AppendRun(slashes * 2, QUOTE);
    }
  }

  /** Writes the command line; it succeeds exactly when the line and its NUL fit. */
  method FromArgv(argv: seq<string>, dst: array<char>, onWindows: bool) returns (ok: bool)
    modifies dst
    ensures ok <==> argv != [] && |Line(Effective(argv, onWindows))| < dst.Length
    ensures ok ==> dst[..|Line(Effective(argv, onWindows))|] == Line(Effective(argv, onWindows))
    ensures ok ==> dst[|Line(Effective(argv, onWindows))|] == NUL
  {
    if |argv| == 0 || dst.Length == 0 {
      return false;
    }
    var items := Effective(argv, onWindows);
    var writer := new LineWriter(dst);
    for i := 0 to |items|
      invariant writer.dst == dst && writer.Valid() && fresh(writer)
      invariant writer.Text() == Line(items[..i])
    {
      assert items[..i + 1] == items[..i] + [items[i]];
      LineGrows(items[..i], items[i]);
      LineNotLonger(items, i + 1);
      if i > 0 {
        ok := writer.AppendChar(' ');
        if !ok {
          return;
        }
      }
      ok := writer.AppendArgument(items[i]);
      if !ok {
        return;
      }
    }
    assert items[..|items|] == items;
    ok := true;
  }

  lemma {:induction false} LineNotLonger(args: seq<string>, n: nat)
    requires n <= |args|
    ensures |Line(args[..n])| <= |Line(args)|
    decreases |args| - n
  {
    if n < |args| {
      LineGrows(args[..n], args[n]);
      assert args[..n + 1] == args[..n] + [args[n]];
      LineNotLonger(args, n + 1);
    } else {
      assert args[..n] == args;
    }
  }
}
