/** The command string of a compile_commands record, joined from an argument vector. */
module CommandJoin {
  import opened Wrappers
  import opened ShellWords

  const NUL: char := '\0'

  /** Quoted arguments with one blank between them. */
  function Joined(argv: seq<string>): string {
    if argv == [] then []
    else if |argv| == 1 then Quote(argv[0])
    else Quote(argv[0]) + [' '] + Joined(argv[1..])
  }

  /** The size of the buffer that is allocated. */
  function Room(argv: seq<string>): nat {
    if argv == [] then 1 else Room(argv[..|argv| - 1]) + |argv[|argv| - 1]| * 4 + 4
  }

  lemma {:induction false} JoinedGrows(argv: seq<string>, arg: string)
    ensures Joined(argv + [arg]) == Joined(argv) + (if argv == [] then [] else [' ']) + Quote(arg)
    decreases |argv|
  {
    hide Quote;
    if argv == [] {
      assert argv + [arg] == [arg];
    } else {
      JoinedGrows(argv[1..], arg);
      assert (argv + [arg])[1..] == argv[1..] + [arg];
    }
  }

  /** A shell reads the joined string back as the argument vector. */
  lemma {:induction false} JoinedSplitsBack(argv: seq<string>)
    ensures Words(Joined(argv)) == Some(argv)
  {
    hide Quote, Words;
    if argv == [] {
      WordsOfNothing();
    } else if |argv| == 1 {
      WordsFirst(argv[0], []);
      assert Quote(argv[0]) + [] == Quote(argv[0]);
      WordsOfNothing();
      assert argv == [argv[0]] + [];
    } else {
      var rest := [' '] + Joined(argv[1..]);
      WordsFirst(argv[0], rest);
      assert Joined(argv) == Quote(argv[0]) + rest;
      JoinedSplitsBack(argv[1..]);
      WordsSkip(rest);
      assert rest[1..] == Joined(argv[1..]);
      assert argv == [argv[0]] + argv[1..];
    }
  }

  lemma {:induction false} InnerBound(arg: string)
    ensures |Inner(arg)| <= 4 * |arg|
    decreases |arg|
  {
    if arg != [] {
      InnerBound(arg[..|arg| - 1]);
    }
  }

  /** The string and its NUL always fit the buffer, with room to spare for a non-empty vector. */
  lemma {:induction false} JoinedFits(argv: seq<string>)
    ensures |Joined(argv)| + (if argv == [] then 0 else 2) <= Room(argv) - 1
    decreases |argv|
  {
    hide Quote;
    if argv != [] {
      var front, last := argv[..|argv| - 1], argv[|argv| - 1];
      JoinedFits(front);
      JoinedGrows(front, last);
      assert argv == front + [last];
      QuoteBound(last);
    }
  }

  lemma QuoteBound(arg: string)
    ensures |Quote(arg)| <= 4 * |arg| + 2
  {
    InnerBound(arg);
  }

  lemma RoomGrows(argv: seq<string>, k: nat)
    requires k < |argv|
    ensures Room(argv[..k + 1]) == Room(argv[..k]) + |argv[k]| * 4 + 4
  {
    assert argv[..k + 1][..k] == argv[..k];
  }

  lemma {:induction false} RoomOfPrefix(argv: seq<string>, k: nat)
    requires k <= |argv|
    ensures Room(argv[..k]) <= Room(argv)
    decreases |argv| - k
  {
    if k < |argv| {
      RoomGrows(argv, k);
      RoomOfPrefix(argv, k + 1);
    } else {
      assert argv[..k] == argv;
    }
  }

  /** Copies one argument's quoted form into the buffer. */
  method PutArgument(s: array<char>, start: nat, arg: string) returns (used: nat)
    requires start + 4 * |arg| + 2 <= s.Length
    modifies s
    ensures used == start + |Quote(arg)| && used <= s.Length
    ensures s[..used] == old(s[..start]) + Quote(arg)
  {
    var simple := |arg| > 0;
    for k := 0 to |arg|
      invariant simple <==> |arg| > 0 && forall j :: 0 <= j < k ==> SimpleChar(arg[j])
    {
      if !SimpleChar(arg[k]) {
        simple := false;
      }
    }
    assert simple <==> Simple(arg);
    hide Inner, SimpleChar;
    if simple {
      used := PutPlain(s, start, arg);
      return;
    }
    used := PutQuoted(s, start, arg);
  }

  method PutQuoted(s: array<char>, start: nat, arg: string) returns (used: nat)
    requires start + 4 * |arg| + 2 <= s.Length
    modifies s
    ensures used == start + |Inner(arg)| + 2 && used <= s.Length
    ensures s[..used] == old(s[..start]) + ([APOSTROPHE] + Inner(arg) + [APOSTROPHE])
  {
    hide Inner;
    s[start] := APOSTROPHE;
    used := PutInner(s, start + 1, arg);
    s[used] := APOSTROPHE;
    used := used + 1;
  }

  method PutPlain(s: array<char>, start: nat, arg: string) returns (used: nat)
    requires start + |arg| <= s.Length
    modifies s
    ensures used == start + |arg| && s[..used] == old(s[..start]) + arg
  {
    used := start;
    for k := 0 to |arg|
      invariant used == start + k && s[..used] == old(s[..start]) + arg[..k]
    {
      s[used] := arg[k];
      used := used + 1;
    }
    assert arg[..|arg|] == arg;
  }

  method PutInside(s: array<char>, start: nat, c: char) returns (used: nat)
    requires start + 4 <= s.Length
    modifies s
    ensures start < used <= start + 4 && s[..used] == old(s[..start]) + Inside(c)
  {
    if c == APOSTROPHE {
      s[start], s[start + 1], s[start + 2], s[start + 3] := '\'', '\\', '\'', '\'';
      used := start + 4;
    } else {
      s[start] := c;
      used := start + 1;
    }
  }

  method PutInner(s: array<char>, start: nat, arg: string) returns (used: nat)
    requires start + 4 * |arg| <= s.Length
    modifies s
    ensures used == start + |Inner(arg)| && used <= start + 4 * |arg|
    ensures s[..used] == old(s[..start]) + Inner(arg)
  {
    hide Inner, Inside;
    InnerEmpty();
    used := start;
    ghost var before := s[..start];
    assert before + [] == before;
    for k := 0 to |arg|
      invariant start <= used <= start + 4 * k
      invariant s[..used] == before + Inner(arg[..k])
    {
      InnerStep(arg, k);
      used := PutInside(s, used, arg[k]);
      assert (before + Inner(arg[..k])) + Inside(arg[k]) == before + (Inner(arg[..k]) + Inside(arg[k]));
    }
    assert arg[..|arg|] == arg;
    assert |s[..used]| == |before| + |Inner(arg)|;
  }

  /** Adds item `i` to a buffer that holds the items before it. */
  method PutItem(s: array<char>, start: nat, argv: seq<string>, i: nat) returns (used: nat)
    requires i < |argv| && s.Length == Room(argv)
    requires start == |Joined(argv[..i])| && start < s.Length && s[..start] == Joined(argv[..i])
    modifies s
    ensures used == |Joined(argv[..i + 1])| && used < s.Length
    ensures s[..used] == Joined(argv[..i + 1])
  {
    hide Quote, Joined, Room;
    JoinedFits(argv[..i]);
    RoomGrows(argv, i);
    RoomOfPrefix(argv, i + 1);
    JoinedGrows(argv[..i], argv[i]);
    JoinedFits(argv[..i + 1]);
    assert argv[..i + 1] == argv[..i] + [argv[i]];
    used := start;
    if i > 0 {
      s[used] := ' ';
      used := used + 1;
    }
    used := PutArgument(s, used, argv[i]);
  }

  /** Joins the vector; every write stays inside the buffer. */
  method JoinArgv(argv: seq<string>) returns (s: array<char>)
    ensures fresh(s) && s.Length == Room(argv) && |Joined(argv)| < s.Length
    ensures s[..|Joined(argv)|] == Joined(argv) && s[|Joined(argv)|] == NUL
  {
    hide Quote;
    var len := 1;
    for i := 0 to |argv|
      invariant len == Room(argv[..i])
    {
      RoomGrows(argv, i);
      len := len + |argv[i]| * 4 + 4;
    }
    assert argv[..|argv|] == argv;
    s := new char[len];
    var used := 0;
    for i := 0 to |argv|
      invariant used == |Joined(argv[..i])| && used < s.Length
      invariant s[..used] == Joined(argv[..i])
    {
      used := PutItem(s, used, argv, i);
    }
    s[used] := NUL;
  }
}
