/** Quoting one argument for a POSIX shell, and how a shell reads words (section 2.2 of the Shell Command Language). */
module ShellWords {
  import opened Wrappers

  const BLANKS: set<char> := {' ', '\t', '\n'}
  const APOSTROPHE: char := '\''

  /** Characters a shell acts on when they are not quoted. */
  const RESERVED: set<char> := {'|', '&', ';', '<', '>', '(', ')', '$', '`', '*', '?', '[', '#', '~', '%'}

  datatype Mode = Plain | Single | Double

  function Prefix(text: string, r: Option<(string, string)>): Option<(string, string)> {
    match r
    case None => None
    case Some(p) => Some((text + p.0, p.1))
  }

  /** Reads one word after quote removal. Nothing when a quote stays open or the shell would expand something. */
  function Word(s: string, mode: Mode): Option<(string, string)>
    decreases |s|
  {
    if s == [] then (if mode.Plain? then Some(([], [])) else None)
    else
      var c, rest := s[0], s[1..];
      match mode
      case Single => if c == APOSTROPHE then Word(rest, Plain) else Prefix([c], Word(rest, Single))
      case Double =>
        if c == '"' then Word(rest, Plain)
        else if c == '$' || c == '`' then None
        else if c == '\\' && rest != [] && rest[0] == '\n' then Word(rest[1..], Double)
        else if c == '\\' && rest != [] && rest[0] in {'$', '`', '"', '\\'} then Prefix([rest[0]], Word(rest[1..], Double))
        else Prefix([c], Word(rest, Double))
      case Plain =>
        if c in BLANKS then Some(([], s))
        else if c == APOSTROPHE then Word(rest, Single)
        else if c == '"' then Word(rest, Double)
        else if c == '\\' then
          if rest == [] then None
          else if rest[0] == '\n' then Word(rest[1..], Plain)
          else Prefix([rest[0]], Word(rest[1..], Plain))
        else if c in RESERVED then None
        else Prefix([c], Word(rest, Plain))
  }

  lemma {:induction false} WordShrinks(s: string, mode: Mode)
    requires Word(s, mode).Some?
    ensures |Word(s, mode).value.1| <= |s|
    ensures s != [] && s[0] !in BLANKS ==> |Word(s, mode).value.1| < |s|
    decreases |s|
  {
    if s != [] {
      if Word(s[1..], Plain).Some? { WordShrinks(s[1..], Plain); }
      if Word(s[1..], Single).Some? { WordShrinks(s[1..], Single); }
      if Word(s[1..], Double).Some? { WordShrinks(s[1..], Double); }
      if |s| > 1 && Word(s[1..][1..], Plain).Some? { WordShrinks(s[1..][1..], Plain); }
      if |s| > 1 && Word(s[1..][1..], Double).Some? { WordShrinks(s[1..][1..], Double); }
    }
  }

  function Skip(s: string): (r: string)
    ensures |r| <= |s| && (r != [] ==> r[0] !in BLANKS)
  {
    if s != [] && s[0] in BLANKS then Skip(s[1..]) else s
  }

  /** All words of a text. */
  function Words(s: string): Option<seq<string>>
    decreases |s|
  {
    var start := Skip(s);
    if start == [] then Some([])
    else
      var word := Word(start, Plain);
      if word.None? then None
      else
        WordShrinks(start, Plain);
        var more := Words(word.value.1);
        if more.None? then None else Some([word.value.0] + more.value)
  }

  // ---- quoting -----------------------------------------------------------------------

  predicate SimpleChar(c: char) {
    || 'a' <= c <= 'z' || 'A' <= c <= 'Z' || '0' <= c <= '9'
    || c in {'_', '-', '.', '/', ':', '=', '+', ','}
  }

  predicate Simple(arg: string) {
    arg != [] && forall i :: 0 <= i < |arg| ==> SimpleChar(arg[i])
  }

  /** A character inside quotes; an apostrophe leaves them for a moment. */
  function Inside(c: char): string {
    if c == APOSTROPHE then "'\\''" else [c]
  }

  function Inner(arg: string): string {
    if arg == [] then []
    else Inner(arg[..|arg| - 1]) + Inside(arg[|arg| - 1])
  }

  function Quote(arg: string): string {
    if Simple(arg) then arg else [APOSTROPHE] + Inner(arg) + [APOSTROPHE]
  }

  /** Only an argument that has a character outside the plain ones, or none at all, is quoted. */
  lemma QuotedExactly(arg: string)
    ensures Quote(arg) == arg <==>
              arg != [] && forall i :: 0 <= i < |arg| ==>
                ('a' <= arg[i] <= 'z') || ('A' <= arg[i] <= 'Z') || ('0' <= arg[i] <= '9') || arg[i] in "_-./:=+,"
  {
    if !Simple(arg) {
      InnerLength(arg);
    }
  }

  lemma {:induction false} InnerLength(arg: string)
    ensures |Inner(arg)| >= |arg|
  {
    if arg != [] {
      InnerLength(arg[..|arg| - 1]);
    }
  }

  predicate EndsWord(rest: string) {
    rest == [] || rest[0] in BLANKS
  }

  lemma {:induction false} SimpleReadsBack(arg: string, rest: string)
    requires EndsWord(rest) && forall i :: 0 <= i < |arg| ==> SimpleChar(arg[i])
    ensures Word(arg + rest, Plain) == Some((arg, rest))
  {
    if arg == [] {
      assert arg + rest == rest;
    } else {
      SimpleReadsBack(arg[1..], rest);
      assert (arg + rest)[0] == arg[0] && (arg + rest)[1..] == arg[1..] + rest;
      assert SimpleChar(arg[0]) && [arg[0]] + arg[1..] == arg;
    }
  }

  lemma {:induction false} InnerFront(arg: string)
    requires arg != []
    ensures Inner(arg) == Inside(arg[0]) + Inner(arg[1..])
    decreases |arg|
  {
    if |arg| == 1 {
      assert arg[..0] == [] && arg[1..] == [];
    } else {
      var n := |arg| - 1;
      var front := arg[..n];
      InnerFront(front);
      assert front[1..] == arg[1..][..n - 1] && arg[1..][n - 1] == arg[n];
      var head, last := Inside(arg[0]), Inside(arg[n]);
      assert Inner(arg) == Inner(front) + last && Inner(arg[1..]) == Inner(front[1..]) + last;
      hide Inner;
      assert (head + Inner(front[1..])) + last == head + (Inner(front[1..]) + last);
    }
  }

  lemma {:induction false} InnerReadsBack(arg: string, rest: string)
    requires EndsWord(rest)
    ensures Word(Inner(arg) + [APOSTROPHE] + rest, Single) == Some((arg, rest))
    decreases |arg|
  {
    hide Inner;
    var s := Inner(arg) + [APOSTROPHE] + rest;
    if arg == [] {
      assert Inner(arg) == [] by { InnerEmpty(); }
      assert s[0] == APOSTROPHE && s[1..] == rest;
      assert Word(rest, Plain) == Some(([], rest));
    } else {
      InnerFront(arg);
      var tail := Inner(arg[1..]) + [APOSTROPHE] + rest;
      InnerReadsBack(arg[1..], rest);
      assert [arg[0]] + arg[1..] == arg;
      if arg[0] == APOSTROPHE {
        assert s == "'\\''" + tail;
        ReopenedQuote(tail);
      } else {
        assert s[0] == arg[0] && s[1..] == tail;
      }
    }
  }

  lemma InnerStep(arg: string, i: nat)
    requires i < |arg|
    ensures Inner(arg[..i + 1]) == Inner(arg[..i]) + Inside(arg[i])
    ensures Inside(arg[i]) == if arg[i] == '\'' then "'\\''" else [arg[i]]
  {
    assert arg[..i + 1][..i] == arg[..i];
  }

  lemma InnerEmpty()
    ensures Inner([]) == []
  {
  }

  /** A quote inside quotes: closed, escaped, opened again. */
  lemma ReopenedQuote(tail: string)
    ensures Word("'\\''" + tail, Single) == Prefix([APOSTROPHE], Word(tail, Single))
  {
    var s := "'\\''" + tail;
    assert s[1..] == "\\''" + tail;
    assert s[1..][1..] == "''" + tail;
    assert s[1..][1..][1..] == "'" + tail;
    assert s[1..][1..][1..][1..] == tail;
    assert Word(s, Single) == Word(s[1..], Plain);
    assert Word(s[1..], Plain) == Prefix([APOSTROPHE], Word(s[1..][1..][1..], Plain));
  }

  /** A quoted argument reads back as itself, up to the blank that ends it. */
  lemma QuoteReadsBack(arg: string, rest: string)
    requires EndsWord(rest)
    ensures Word(Quote(arg) + rest, Plain) == Some((arg, rest))
    ensures Quote(arg) != [] && Quote(arg)[0] !in BLANKS
  {
    hide Inner;
    if Simple(arg) {
      SimpleReadsBack(arg, rest);
      assert SimpleChar(arg[0]);
    } else {
      InnerReadsBack(arg, rest);
      var s := Quote(arg) + rest;
      assert s[0] == APOSTROPHE && s[1..] == Inner(arg) + [APOSTROPHE] + rest;
    }
  }

  lemma WordsFirst(arg: string, rest: string)
    requires EndsWord(rest)
    ensures Words(Quote(arg) + rest) == (if Words(rest).None? then None else Some([arg] + Words(rest).value))
  {
    hide Quote;
    QuoteReadsBack(arg, rest);
    var s := Quote(arg) + rest;
    assert s[0] == Quote(arg)[0];
    assert Skip(s) == s;
  }

  lemma WordsOfNothing()
    ensures Words([]) == Some([])
  {
    assert Skip([]) == [];
  }

  lemma WordsSkip(s: string)
    requires s != [] && s[0] in BLANKS
    ensures Words(s) == Words(s[1..])
  {
    assert Skip(s) == Skip(s[1..]);
  }
}
