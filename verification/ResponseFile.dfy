/** The response file of a long command, and its digest taken without the file. */
module ResponseFile {
  import opened Wrappers
  import opened MicrosoftArguments
  import Shell = ShellWords

  const NEWLINE: char := '\n'

  /** What `isspace` accepts: blank, tab, newline, vertical tab, form feed, carriage return. */
  const SPACES: set<char> := {' ', '\t', '\n', 11 as char, 12 as char, '\r'}

  predicate WindowsStyle(style: string) {
    style == "windows" || style == "msvc"
  }

  predicate WindowsNeedsQuotes(arg: string) {
    arg == [] || exists i :: 0 <= i < |arg| && (arg[i] in SPACES || arg[i] == QUOTE || arg[i] == SLASH)
  }

  function WindowsItem(arg: string): string {
    if WindowsNeedsQuotes(arg) then [QUOTE] + Body(arg, 0) else arg
  }

  function Item(arg: string, windows: bool): string {
    if windows then WindowsItem(arg) else Shell.Quote(arg)
  }

  /** One quoted argument a line. */
  function FileText(args: seq<string>, windows: bool): string {
    if args == [] then []
    else FileText(args[..|args| - 1], windows) + Item(args[|args| - 1], windows) + [NEWLINE]
  }

  lemma {:induction false} FileTextFront(args: seq<string>, windows: bool)
    requires args != []
    ensures FileText(args, windows) == Item(args[0], windows) + ([NEWLINE] + FileText(args[1..], windows))
    decreases |args|
  {
    hide Item;
    var item := Item(args[0], windows);
    if |args| == 1 {
      assert args[..0] == [] && args[1..] == [];
      assert [] + item + [NEWLINE] == item + ([NEWLINE] + []);
    } else {
      var front, last := args[..|args| - 1], args[|args| - 1];
      FileTextFront(front, windows);
      assert front[1..] == args[1..][..|args| - 2] && args[1..][|args| - 2] == last;
      var middle := FileText(front[1..], windows);
      assert item + ([NEWLINE] + middle) + Item(last, windows) + [NEWLINE]
          == item + ([NEWLINE] + (middle + Item(last, windows) + [NEWLINE]));
    }
  }

  /** A shell reading the file finds the arguments. */
  lemma {:induction false} ShellFileReadsBack(args: seq<string>)
    ensures Shell.Words(FileText(args, false)) == Some(args)
  {
    hide Shell.Quote, Shell.Words;
    if args == [] {
      Shell.WordsOfNothing();
    } else {
      FileTextFront(args, false);
      var rest := [NEWLINE] + FileText(args[1..], false);
      Shell.WordsFirst(args[0], rest);
      Shell.WordsSkip(rest);
      assert rest[1..] == FileText(args[1..], false);
      ShellFileReadsBack(args[1..]);
      assert args == [args[0]] + args[1..];
    }
  }

  /** So does a Microsoft tool, whatever other white space it separates arguments by. */
  lemma {:induction false} WindowsFileReadsBack(args: seq<string>, separators: set<char>)
    requires NEWLINE in separators && separators <= SPACES
    ensures Split(FileText(args, true), separators) == args
  {
    hide Argument, Body;
    if args != [] {
      FileTextFront(args, true);
      var rest := [NEWLINE] + FileText(args[1..], true);
      WindowsItemReadsBack(args[0], separators);
      SplitFirst(WindowsItem(args[0]), args[0], rest, separators);
      assert Skip(rest, separators) == Skip(rest[1..], separators);
      assert rest[1..] == FileText(args[1..], true);
      WindowsFileReadsBack(args[1..], separators);
      assert args == [args[0]] + args[1..];
    }
  }

  lemma WindowsItemReadsBack(arg: string, separators: set<char>)
    requires separators <= SPACES
    ensures ReadsBack(WindowsItem(arg), arg, separators)
  {
    hide Argument, Body;
    forall rest | rest == [] || (rest[0] in separators && rest[0] != QUOTE && rest[0] != SLASH)
      ensures Argument(WindowsItem(arg) + rest, false, separators) == (arg, rest)
    {
      if WindowsNeedsQuotes(arg) {
        QuotedReadsBack(arg, rest, separators);
      } else {
        BareArgument(arg, rest, separators);
      }
    }
  }

  // ---- writing ---------------------------------------------------------------------------

  /** A file opened for writing. */
  class TextFile {
    var bytes: string

    constructor ()
      ensures bytes == []
    {
      bytes := [];
    }

    method PutChar(c: char)
      modifies this
      ensures bytes == old(bytes) + [c]
    {
      bytes := bytes + [c];
    }

    method PutText(s: string)
      modifies this
      ensures bytes == old(bytes) + s
    {
      for i := 0 to |s|
        invariant bytes == old(bytes) + s[..i]
      {
        PutChar(s[i]);
      }
    }

    method WriteShellArg(value: string)
      modifies this
      ensures bytes == old(bytes) + Shell.Quote(value)
    {
      hide Shell.Inner, Shell.Simple;
      var simple := IsSimple(value);
      if simple {
        PutText(value);
      } else {
        PutChar('\'');
        WriteShellInner(value);
        PutChar('\'');
      }
    }

    method WriteShellInner(value: string)
      modifies this
      ensures bytes == old(bytes) + Shell.Inner(value)
    {
      hide *;
      assert value[..0] == [];
      Shell.InnerEmpty();
      for i := 0 to |value|
        invariant bytes == old(bytes) + Shell.Inner(value[..i])
      {
        Shell.InnerStep(value, i);
        if value[i] == '\'' {
          PutText("'\\''");
        } else {
          PutChar(value[i]);
        }
      }
      assert value[..|value|] == value;
    }

    /** As many times as there were backslashes, `piece`. */
    method PutRun(piece: string, count: nat, ghost text: string)
      requires (piece == [SLASH] && text == Repeat(SLASH, count)) || (piece == [SLASH, SLASH] && text == Repeat(SLASH, 2 * count))
      modifies this
      ensures bytes == old(bytes) + text
    {
      var left := count;
      while left > 0
        invariant 0 <= left <= count
        invariant bytes == old(bytes) + text[..|piece| * (count - left)]
      {
        ghost var k := |piece| * (count - left);
        PutText(piece);
        left := left - 1;
        assert text[..k + |piece|] == text[..k] + piece;
      }
      assert text[..|piece| * count] == text;
    }

    method WriteWindowsArg(value: string)
      modifies this
      ensures bytes == old(bytes) + WindowsItem(value)
    {
      hide Body;
      var quote := WantsWindowsQuotes(value);
      if !quote {
        PutText(value);
      } else {
        PutChar(QUOTE);
        WriteWindowsBody(value);
      }
    }

    /** A run of backslashes, doubled and one more before a quote, and the character after it. */
    method WritePiece(c: char, backslashes: nat)
      modifies this
      ensures bytes == old(bytes) + (Repeat(SLASH, if c == QUOTE then backslashes * 2 + 1 else backslashes) + [c])
    {
      if c == QUOTE {
        PutRun([SLASH, SLASH], backslashes, Repeat(SLASH, 2 * backslashes));
        PutText([SLASH, QUOTE]);
        assert Repeat(SLASH, 2 * backslashes) + [SLASH, QUOTE] == Repeat(SLASH, backslashes * 2 + 1) + [c];
      } else {
        PutRun([SLASH], backslashes, Repeat(SLASH, backslashes));
        PutChar(c);
      }
    }

    method WriteWindowsBody(value: string)
      modifies this
      ensures bytes == old(bytes) + Body(value, 0)
    {
      hide *;
      var backslashes := 0;
      ghost var done := "";
      assert value[0..] == value && "" + Body(value, 0) == Body(value, 0);
      for i := 0 to |value|
        invariant bytes == old(bytes) + done
        invariant Body(value, 0) == done + Body(value[i..], backslashes)
      {
        BodyStep(value, i, backslashes);
        if value[i] == SLASH {
          backslashes := backslashes + 1;
          continue;
        }
        WritePiece(value[i], backslashes);
        ghost var piece := Repeat(SLASH, if value[i] == QUOTE then backslashes * 2 + 1 else backslashes) + [value[i]];
        assert done + (piece + Body(value[i + 1..], 0)) == (done + piece) + Body(value[i + 1..], 0);
        done := done + piece;
        backslashes := 0;
      }
      BodyEnd(value[|value|..], backslashes);
      PutRun([SLASH, SLASH], backslashes, Repeat(SLASH, 2 * backslashes));
      PutChar(QUOTE);
    }

    /** Everything but the tool itself, one argument a line. */
    method WriteResponse(logical: seq<string>, style: string)
      requires logical != []
      modifies this
      ensures bytes == old(bytes) + FileText(logical[1..], WindowsStyle(style))
    {
      hide Item;
      ghost var args := logical[1..];
      for i := 1 to |logical|
        invariant bytes == old(bytes) + FileText(args[..i - 1], WindowsStyle(style))
      {
        assert args[..i][..i - 1] == args[..i - 1] && args[..i][i - 1] == logical[i];
        WriteArg(logical[i], style);
        PutChar(NEWLINE);
      }
      assert args[..|logical| - 1] == args;
    }

    method WriteArg(value: string, style: string)
      modifies this
      ensures bytes == old(bytes) + Item(value, WindowsStyle(style))
    {
      if WindowsStyle(style) {
        WriteWindowsArg(value);
      } else {
        WriteShellArg(value);
      }
    }
  }

  method IsSimple(value: string) returns (simple: bool)
    ensures simple == Shell.Simple(value)
  {
    simple := |value| > 0;
    for i := 0 to |value|
      invariant simple <==> |value| > 0 && forall j :: 0 <= j < i ==> Shell.SimpleChar(value[j])
    {
      if !Shell.SimpleChar(value[i]) {
        simple := false;
      }
    }
  }

  method WantsWindowsQuotes(value: string) returns (quote: bool)
    ensures quote == WindowsNeedsQuotes(value)
  {
    quote := |value| == 0;
    for i := 0 to |value|
      invariant quote <==> value == [] || exists j :: 0 <= j < i && (value[j] in SPACES || value[j] == QUOTE || value[j] == SLASH)
    {
      if value[i] in SPACES || value[i] == QUOTE || value[i] == SLASH {
        quote := true;
      }
    }
  }

  // ---- the digest of the file, without the file -----------------------------------------------

  /** A byte-by-byte hash: `step` folds one more byte in. */
  function Fold(step: (nat, char) -> nat, h: nat, text: string): nat {
    if text == [] then h else step(Fold(step, h, text[..|text| - 1]), text[|text| - 1])
  }

  /** Every byte counts, in order, and what comes first is hashed first. */
  lemma {:induction false} FoldContinues(step: (nat, char) -> nat, h: nat, a: string, b: string)
    ensures Fold(step, h, []) == h
    ensures forall c :: Fold(step, h, [c]) == step(h, c)
    ensures Fold(step, h, a + b) == Fold(step, Fold(step, h, a), b)
  {
    assert forall c: char :: [c][..0] == [];
    if b == [] {
      assert a + b == a;
    } else {
      assert (a + b)[..|a + b| - 1] == a + b[..|b| - 1];
      FoldContinues(step, h, a, b[..|b| - 1]);
    }
  }

  class Digest {
    const step: (nat, char) -> nat
    var hash: nat
    ghost var text: string
    ghost const initial: nat

    /** `text` is what has been folded in so far. */
    ghost predicate Valid()
      reads this
    {
      hash == Fold(step, initial, text)
    }

    constructor (step: (nat, char) -> nat, initial: nat)
      ensures Valid() && text == [] && this.step == step && this.initial == initial
    {
      this.step, this.initial, hash, text := step, initial, initial, [];
    }

    method AddChar(c: char)
      requires Valid()
      modifies this
      ensures Valid() && text == old(text) + [c]
    {
      assert (text + [c])[..|text|] == text;
      hash, text := step(hash, c), text + [c];
    }

    method AddText(s: string)
      requires Valid()
      modifies this
      ensures Valid() && text == old(text) + s
    {
      for i := 0 to |s|
        invariant Valid() && text == old(text) + s[..i]
      {
        AddChar(s[i]);
      }
    }

    method AddShellArg(value: string)
      requires Valid()
      modifies this
      ensures Valid() && text == old(text) + Shell.Quote(value)
    {
      hide Fold, Shell.Inner, Shell.Simple;
      var simple := IsSimple(value);
      if simple {
        AddText(value);
      } else {
        AddChar('\'');
        AddShellInner(value);
        AddChar('\'');
      }
    }

    method AddShellInner(value: string)
      requires Valid()
      modifies this
      ensures Valid() && text == old(text) + Shell.Inner(value)
    {
      hide *;
      assert value[..0] == [];
      Shell.InnerEmpty();
      for i := 0 to |value|
        invariant Valid() && text == old(text) + Shell.Inner(value[..i])
      {
        Shell.InnerStep(value, i);
        if value[i] == '\'' {
          AddText("'\\''");
        } else {
          AddChar(value[i]);
        }
      }
      assert value[..|value|] == value;
    }

    method AddRun(piece: string, count: nat, ghost run: string)
      requires Valid()
      requires (piece == [SLASH] && run == Repeat(SLASH, count)) || (piece == [SLASH, SLASH] && run == Repeat(SLASH, 2 * count))
      modifies this
      ensures Valid() && text == old(text) + run
    {
      hide Fold;
      var left := count;
      while left > 0
        invariant Valid() && 0 <= left <= count
        invariant text == old(text) + run[..|piece| * (count - left)]
      {
        ghost var k := |piece| * (count - left);
        AddText(piece);
        left := left - 1;
        assert run[..k + |piece|] == run[..k] + piece;
      }
      assert run[..|piece| * count] == run;
    }

    method AddWindowsArg(value: string)
      requires Valid()
      modifies this
      ensures Valid() && text == old(text) + WindowsItem(value)
    {
      hide Body, Fold, WindowsNeedsQuotes;
      var quote := WantsWindowsQuotes(value);
      if !quote {
        AddText(value);
      } else {
        AddChar(QUOTE);
        AddWindowsBody(value);
      }
    }

    /** A run of backslashes, doubled and one more before a quote, and the character after it. */
    method AddPiece(c: char, backslashes: nat)
      requires Valid()
      modifies this
      ensures Valid() && text == old(text) + (Repeat(SLASH, if c == QUOTE then backslashes * 2 + 1 else backslashes) + [c])
    {
      if c == QUOTE {
        AddRun([SLASH, SLASH], backslashes, Repeat(SLASH, 2 * backslashes));
        AddText([SLASH, QUOTE]);
        assert Repeat(SLASH, 2 * backslashes) + [SLASH, QUOTE] == Repeat(SLASH, backslashes * 2 + 1) + [c];
      } else {
        AddRun([SLASH], backslashes, Repeat(SLASH, backslashes));
        AddChar(c);
      }
    }

    method AddWindowsBody(value: string)
      requires Valid()
      modifies this
      ensures Valid() && text == old(text) + Body(value, 0)
    {
      hide *;
      var backslashes := 0;
      ghost var done := "";
      assert value[0..] == value && "" + Body(value, 0) == Body(value, 0);
      for i := 0 to |value|
        invariant Valid() && text == old(text) + done
        invariant Body(value, 0) == done + Body(value[i..], backslashes)
      {
        BodyStep(value, i, backslashes);
        if value[i] == SLASH {
          backslashes := backslashes + 1;
          continue;
        }
        AddPiece(value[i], backslashes);
        ghost var piece := Repeat(SLASH, if value[i] == QUOTE then backslashes * 2 + 1 else backslashes) + [value[i]];
        assert done + (piece + Body(value[i + 1..], 0)) == (done + piece) + Body(value[i + 1..], 0);
        done := done + piece;
        backslashes := 0;
      }
      BodyEnd(value[|value|..], backslashes);
      AddRun([SLASH, SLASH], backslashes, Repeat(SLASH, 2 * backslashes));
      AddChar(QUOTE);
    }

    method AddArg(value: string, style: string)
      requires Valid()
      modifies this
      ensures Valid() && text == old(text) + Item(value, WindowsStyle(style))
    {
      if WindowsStyle(style) {
        AddWindowsArg(value);
      } else {
        AddShellArg(value);
      }
    }
  }

  /** The digest is the hash, byte by byte, of the text the writer would put into the file. */
  method ResponseDigest(step: (nat, char) -> nat, initial: nat, logical: seq<string>, style: string) returns (hash: nat)
    ensures hash == Fold(step, initial, FileText(if logical == [] then [] else logical[1..], WindowsStyle(style)))
  {
    hide Item, Fold;
    var d := new Digest(step, initial);
    ghost var args := if logical == [] then [] else logical[1..];
    var i := 1;
    while i < |logical|
      invariant fresh(d) && d.Valid() && d.step == step && d.initial == initial
      invariant 1 <= i && i - 1 <= |args|
      invariant d.text == FileText(args[..i - 1], WindowsStyle(style))
    {
      assert args[..i][..i - 1] == args[..i - 1] && args[..i][i - 1] == logical[i];
      d.AddArg(logical[i], style);
      d.AddChar(NEWLINE);
      i := i + 1;
    }
    assert args[..i - 1] == args;
    hash := d.hash;
  }
}
