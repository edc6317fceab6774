/** Reading a depfile, or what an earlier build remembered of it. */
module DepfileCache {
  import opened Wrappers
  import opened ActionKeys

  const PATH_MAX: nat := 4096

  // ---- the text of a depfile -----------------------------------------------------------

  predicate Blank(c: char) {
    c == ' ' || c == '\t' || c == '\n' || c == '\r'
  }

  function Flushed(token: string): seq<string> {
    if token == [] then [] else [token]
  }

  function Added(token: string, c: char): string {
    if |token| + 1 < PATH_MAX then token + [c] else token
  }

  /** The tokens after the first colon; `token` is the one being read. */
  function Scan(text: string, seen: bool, token: string): seq<string>
    decreases |text|
  {
    if text == [] then Flushed(token)
    else if !seen then Scan(text[1..], text[0] == ':', token)
    else if text[0] == '\\' then
      if |text| == 1 then Flushed(token)
      else if text[1] == '\n' || text[1] == '\r' then Scan(text[2..], true, token)
      else if Blank(text[1]) then Flushed(token) + Scan(text[2..], true, [])
      else Scan(text[2..], true, Added(token, text[1]))
    else if Blank(text[0]) then Flushed(token) + Scan(text[1..], true, [])
    else Scan(text[1..], true, Added(token, text[0]))
  }

  function Tokens(text: string): seq<string> {
    Scan(text, false, [])
  }

  function EscapeChar(c: char, special: set<char>): string {
    if c == '\\' || c in special then ['\\', c] else [c]
  }

  /** A path as a rule writes it: a backslash before backslashes and before special characters. */
  function Escape(p: string, special: set<char>): string {
    if p == [] then [] else EscapeChar(p[0], special) + Escape(p[1..], special)
  }

  /** A rule as compilers write it: a target, then one prerequisite a line. */
  function Rule(target: string, deps: seq<string>, special: set<char>): string {
    target + [':'] + Lines(deps, special)
  }

  function Lines(deps: seq<string>, special: set<char>): string {
    if deps == [] then ['\n'] else " \\\n " + Escape(deps[0], special) + Lines(deps[1..], special)
  }

  predicate WithoutBlanks(p: string) {
    p != [] && forall i :: 0 <= i < |p| ==> p[i] !in {' ', '\t', '\n', '\r'}
  }

  /** What fits the token buffer. */
  function Cut(p: string): string {
    if |p| < PATH_MAX then p else p[..PATH_MAX - 1]
  }

  lemma AddedCut(token: string, p: string)
    requires p != []
    ensures Cut(Added(Cut(token), p[0]) + p[1..]) == Cut(token + p)
    ensures Added(Cut(token), p[0]) == Cut(token + [p[0]])
  {
    assert token + p == (token + [p[0]]) + p[1..];
  }

  lemma {:induction false} ScanPath(p: string, special: set<char>, token: string, rest: string)
    requires forall i :: 0 <= i < |p| ==> !Blank(p[i])
    ensures Scan(Escape(p, special) + rest, true, Cut(token)) == Scan(rest, true, Cut(token + p))
  {
    hide Scan, Cut, Added, EscapeChar;
    if p == [] {
      assert Escape(p, special) + rest == rest && token + p == token;
    } else {
      var tail := Escape(p[1..], special) + rest;
      ScanChar(p[0], special, Cut(token), tail);
      assert Escape(p, special) + rest == EscapeChar(p[0], special) + tail;
      AddedCut(token, p);
      ScanPath(p[1..], special, token + [p[0]], rest);
      assert token + [p[0]] + p[1..] == token + p;
    }
  }

  lemma ScanChar(c: char, special: set<char>, token: string, tail: string)
    requires !Blank(c)
    ensures Scan(EscapeChar(c, special) + tail, true, token) == Scan(tail, true, Added(token, c))
  {
    assert (['\\', c] + tail)[2..] == tail && ([c] + tail)[1..] == tail;
  }

  /** Between two prerequisites: a blank, a continued line, a blank. */
  lemma ScanSeparator(rest: string, token: string)
    ensures Scan(" \\\n " + rest, true, token) == Flushed(token) + Scan(rest, true, [])
  {
    var s := " \\\n " + rest;
    assert s[0] == ' ' && s[1..] == "\\\n " + rest;
    assert s[1..][0] == '\\' && s[1..][1] == '\n' && s[1..][2..] == " " + rest;
    assert (" " + rest)[0] == ' ' && (" " + rest)[1..] == rest;
    assert Scan(" " + rest, true, []) == [] + Scan(rest, true, []);
  }

  function CutAll(deps: seq<string>): seq<string> {
    seq(|deps|, i requires 0 <= i < |deps| => Cut(deps[i]))
  }

  lemma CutFirst(deps: seq<string>)
    requires deps != []
    ensures CutAll(deps) == [Cut(deps[0])] + CutAll(deps[1..])
  {
    hide Cut;
    assert forall i :: 0 < i < |deps| ==> deps[i] == deps[1..][i - 1];
  }

  lemma {:induction false} ScanLines(deps: seq<string>, special: set<char>, token: string)
    requires forall i :: 0 <= i < |deps| ==> WithoutBlanks(deps[i])
    ensures Scan(Lines(deps, special), true, token) == Flushed(token) + CutAll(deps)
    decreases |deps|, 1
  {
    if deps == [] {
      assert ['\n'][1..] == [];
      assert Scan([], true, []) == [];
      assert CutAll(deps) == [];
    } else {
      hide Escape, Scan, CutAll, Flushed;
      var tail := Escape(deps[0], special) + Lines(deps[1..], special);
      assert Lines(deps, special) == " \\\n " + tail;
      assert WithoutBlanks(deps[0]);
      ScanSeparator(tail, token);
      ScanPath(deps[0], special, [], Lines(deps[1..], special));
      assert Cut([]) == [] && [] + deps[0] == deps[0];
      NextLine(deps, special, token);
    }
  }

  /** From the first path on: it is one token, and the lines that follow are read in the same way. */
  lemma NextLine(deps: seq<string>, special: set<char>, token: string)
    requires deps != [] && forall i :: 0 <= i < |deps| ==> WithoutBlanks(deps[i])
    ensures Flushed(token) + Scan(Lines(deps[1..], special), true, Cut(deps[0])) == Flushed(token) + CutAll(deps)
    decreases |deps|, 0
  {
    hide Escape, Scan, CutAll, Lines;
    assert Flushed(Cut(deps[0])) == [Cut(deps[0])];
    ScanLines(deps[1..], special, Cut(deps[0]));
    CutFirst(deps);
  }

  lemma {:induction false} ScanTarget(target: string, rest: string)
    requires forall i :: 0 <= i < |target| ==> target[i] != ':'
    ensures Scan(target + [':'] + rest, false, []) == Scan(rest, true, [])
  {
    var s := target + [':'] + rest;
    if target == [] {
      assert s[0] == ':' && s[1..] == rest;
    } else {
      assert s[0] == target[0] && s[1..] == target[1..] + [':'] + rest;
      ScanTarget(target[1..], rest);
    }
  }

  /** The prerequisites of a written rule are what the scanner finds, escapes undone and cut to its buffer. */
  lemma RuleReadsBack(target: string, deps: seq<string>, special: set<char>)
    requires forall i :: 0 <= i < |target| ==> target[i] != ':'
    requires forall i :: 0 <= i < |deps| ==> WithoutBlanks(deps[i])
    ensures Tokens(Rule(target, deps, special)) == CutAll(deps)
  {
    hide Lines, Scan;
    ScanTarget(target, Lines(deps, special));
    ScanLines(deps, special, []);
    assert Flushed([]) + CutAll(deps) == CutAll(deps);
  }

  /** An escaped blank is not part of a path: it ends the one before it, as one that is not escaped does. */
  lemma EscapedBlankSplits(p: string, special: set<char>, c: char, rest: string)
    requires WithoutBlanks(p)
    ensures c in {' ', '\t', '\n', '\r'} ==> Scan(Escape(p, special) + ([c] + rest), true, []) == [Cut(p)] + Scan(rest, true, [])
    ensures c in {' ', '\t'} ==> Scan(Escape(p, special) + (['\\', c] + rest), true, []) == [Cut(p)] + Scan(rest, true, [])
  {
    hide Escape;
    assert Cut([]) == [] && [] + p == p;
    ScanPath(p, special, [], [c] + rest);
    ScanPath(p, special, [], ['\\', c] + rest);
    assert ([c] + rest)[1..] == rest && (['\\', c] + rest)[2..] == rest;
  }

  // ---- pushing tokens --------------------------------------------------------------------

  /** The list with the tokens that are new to it, or the first token whose file is gone. */
  function PushTokens(list: seq<Path>, tokens: seq<Path>, present: Path -> bool): Result<seq<Path>, Path>
    decreases |tokens|
  {
    if tokens == [] then Ok(list)
    else
      var earlier := PushTokens(list, tokens[..|tokens| - 1], present);
      var t := tokens[|tokens| - 1];
      if earlier.Err? then earlier
      else if !present(t) then Err(t)
      else if t in earlier.value then earlier
      else Ok(earlier.value + [t])
  }

  /** Package-relative tokens; others, and empty ones, are passed over. */
  function Relevant(tokens: seq<string>, relative: string -> bool): seq<Path> {
    if tokens == [] then []
    else
      var last := tokens[|tokens| - 1];
      Relevant(tokens[..|tokens| - 1], relative) + if last != [] && relative(last) then [last] else []
  }

  lemma {:induction false} PushedHold(list: seq<Path>, tokens: seq<Path>, present: Path -> bool)
    requires PushTokens(list, tokens, present).Ok?
    ensures forall t :: t in tokens ==> present(t) && t in PushTokens(list, tokens, present).value
    decreases |tokens|
  {
    if tokens != [] {
      PushedHold(list, tokens[..|tokens| - 1], present);
      assert tokens == tokens[..|tokens| - 1] + [tokens[|tokens| - 1]];
    }
  }

  /** Pushing the tokens once each does what pushing them all does, down to the file it misses. */
  lemma {:induction false} OnceIsEnough(list: seq<Path>, tokens: seq<Path>, present: Path -> bool)
    ensures PushTokens(list, PushNew([], tokens), present) == PushTokens(list, tokens, present)
    decreases |tokens|
  {
    hide PushTokens, PushNew;
    if tokens == [] {
      NothingTaken(list, x => true, present);
    } else {
      var front, t := tokens[..|tokens| - 1], tokens[|tokens| - 1];
      OnceIsEnough(list, front, present);
      assert tokens == front + [t];
      PushedGrows(list, front, t, present);
      var once := PushNew([], front);
      if t in once {
        assert once + [] == once;
        if PushTokens(list, front, present).Ok? {
          PushedHold(list, front, present);
        }
      } else {
        PushedGrows(list, once, t, present);
      }
    }
  }

  // ---- the build's records -----------------------------------------------------------------

  datatype Stat = Stat(size: nat, mtime: nat, text: string)

  datatype DepEntry = DepEntry(depfile: Path, size: nat, mtime: nat, digest: string, inputs: seq<Path>)

  /** Position of the first record for the depfile. */
  function FindEntry(entries: seq<DepEntry>, depfile: Path): (r: Option<nat>)
    ensures r.Some? ==> r.value < |entries| && entries[r.value].depfile == depfile
    ensures r.Some? ==> forall j :: 0 <= j < r.value ==> entries[j].depfile != depfile
    ensures r.None? ==> forall j :: 0 <= j < |entries| ==> entries[j].depfile != depfile
  {
    if entries == [] then None
    else
      var earlier := FindEntry(entries[..|entries| - 1], depfile);
      if earlier.Some? then earlier
      else if entries[|entries| - 1].depfile == depfile then Some(|entries| - 1)
      else None
  }

  /** One record per depfile: a new one replaces the old one in place. */
  function Recorded(entries: seq<DepEntry>, e: DepEntry): seq<DepEntry> {
    var at := FindEntry(entries, e.depfile);
    if at.None? then entries + [e] else entries[at.value := e]
  }

  /** What reading the depfile itself would give: the new input list and the records, or the missing file. */
  function FreshRead(next: seq<DepEntry>, depfile: Path, stat: Stat, digest: string, inputs: seq<Path>,
                     relative: string -> bool, present: Path -> bool): Result<(seq<Path>, seq<DepEntry>), Path> {
    var tokens := Relevant(Tokens(stat.text), relative);
    var pushed := PushTokens(inputs, tokens, present);
    if pushed.Err? then Err(pushed.error)
    else Ok((pushed.value, Recorded(next, DepEntry(depfile, stat.size, stat.mtime, digest, PushNew([], tokens)))))
  }

  /** The digest of an unchanged depfile is the remembered one. */
  function DigestIn(prev: seq<DepEntry>, depfile: Path, stat: Stat, hash: (Path, Stat) -> string): string {
    var at := FindEntry(prev, depfile);
    if at.Some? && prev[at.value].size == stat.size && prev[at.value].mtime == stat.mtime && prev[at.value].digest != []
    then prev[at.value].digest
    else hash(depfile, stat)
  }

  /** The inputs and records after a depfile: from the remembered record when it matches, else from the text. */
  function ReadDepfile(prev: seq<DepEntry>, next: seq<DepEntry>, depfile: Path, stat: Stat, inputs: seq<Path>, relative: string -> bool,
                       present: Path -> bool, hash: (Path, Stat) -> string): Result<(seq<Path>, seq<DepEntry>), Path> {
    var at, digest := FindEntry(prev, depfile), DigestIn(prev, depfile, stat, hash);
    if at.Some? && prev[at.value].size == stat.size && prev[at.value].mtime == stat.mtime && prev[at.value].digest == digest then
      var e := prev[at.value];
      var pushed := PushTokens(inputs, Relevant(e.inputs, relative), present);
      if pushed.Err? then Err(pushed.error)
      else Ok((pushed.value, Recorded(next, DepEntry(depfile, stat.size, stat.mtime, digest, e.inputs))))
    else FreshRead(next, depfile, stat, digest, inputs, relative, present)
  }

  /** A remembered record is what the depfile with that size and time says. */
  predicate Remembers(e: DepEntry, stat: Stat, relative: string -> bool) {
    e.inputs == PushNew([], Relevant(Tokens(stat.text), relative))
  }

  class DepContext {
    const prev: seq<DepEntry>
    const relative: string -> bool
    const present: Path -> bool
    const hash: (Path, Stat) -> string
    var next: seq<DepEntry>

    constructor (prev: seq<DepEntry>, relative: string -> bool, present: Path -> bool, hash: (Path, Stat) -> string)
      ensures this.prev == prev && this.relative == relative && this.present == present && this.hash == hash && next == []
    {
      this.prev, this.relative, this.present, this.hash, next := prev, relative, present, hash, [];
    }

    method Find(entries: seq<DepEntry>, depfile: Path) returns (r: Option<nat>)
      ensures r == FindEntry(entries, depfile)
    {
      for i := 0 to |entries|
        invariant forall j :: 0 <= j < i ==> entries[j].depfile != depfile
      {
        if entries[i].depfile == depfile {
          return Some(i);
        }
      }
      r := None;
    }

    method Record(e: DepEntry)
      modifies this
      ensures next == Recorded(old(next), e)
    {
      var at := Find(next, e.depfile);
      if at.None? {
        next := next + [e];
      } else {
        next := next[at.value := e];
      }
    }

    /** The digest of an unchanged depfile is the remembered one; otherwise it is hashed. */
    method Fingerprint(depfile: Path, stat: Stat) returns (digest: string)
      ensures digest == DigestIn(prev, depfile, stat, hash)
    {
      var at := Find(prev, depfile);
      if at.Some? && prev[at.value].size == stat.size && prev[at.value].mtime == stat.mtime && |prev[at.value].digest| > 0 {
        return prev[at.value].digest;
      }
      digest := hash(depfile, stat);
    }

    /** Adds one token to the list, unless it is passed over, listed already, or gone. */
    method PushToken(list: seq<Path>, token: string) returns (ok: bool, r: seq<Path>)
      ensures ok <==> (token != [] && relative(token) ==> present(token))
      ensures r == if ok && token != [] && relative(token) && token !in list then list + [token] else list
    {
      r := list;
      if |token| == 0 || !relative(token) {
        return true, r;
      }
      if !present(token) {
        return false, r;
      }
      if token !in list {
        r := list + [token];
      }
      ok := true;
    }

    /** Takes one token into the input list and the list to be remembered. */
    method Take(ghost inputs: seq<Path>, ghost done: seq<string>, list: seq<Path>, parsed: seq<Path>, token: string)
      returns (ok: bool, newList: seq<Path>, newParsed: seq<Path>)
      requires PushTokens(inputs, Relevant(done, relative), present) == Ok(list) && parsed == PushNew([], Relevant(done, relative))
      ensures ok <==> (token != [] && relative(token) ==> present(token))
      ensures ok ==> PushTokens(inputs, Relevant(done + [token], relative), present) == Ok(newList)
      ensures ok ==> newParsed == PushNew([], Relevant(done + [token], relative))
    {
      hide PushTokens, PushNew, Relevant;
      TakenGrows(inputs, done, token, relative, present);
      newParsed := parsed;
      ok, newList := PushToken(list, token);
      if ok && |token| > 0 && relative(token) && token !in parsed {
        newParsed := parsed + [token];
      }
    }

    /** Scans the text character by character, taking each token when it ends. */
    method Parse(text: string, inputs: seq<Path>) returns (r: Result<(seq<Path>, seq<Path>), Path>)
      ensures r == Parsed(text, inputs, relative, present)
    {
      hide PushTokens, PushNew, Relevant, Scan, Added, Blank;
      var list, parsed, token, seen, i := inputs, [], "", false, 0;
      ghost var done: seq<string> := [];
      assert text[0..] == text && [] + Scan(text, false, "") == Scan(text, false, "");
      NothingTaken(inputs, relative, present);
      while i < |text|
        invariant i <= |text|
        invariant Tokens(text) == done + Scan(text[i..], seen, token)
        invariant PushTokens(inputs, Relevant(done, relative), present) == Ok(list)
        invariant parsed == PushNew([], Relevant(done, relative))
      {
        ScanStep(text, i, seen, token);
        var c := text[i];
        i := i + 1;
        if !seen {
          seen := c == ':';
          continue;
        }
        if c == '\\' {
          if i == |text| {
            continue;
          }
          c := text[i];
          i := i + 1;
          if c == '\n' || c == '\r' {
            continue;
          }
        }
        if !Blank(c) {
          token := Added(token, c);
          continue;
        }
        if |token| > 0 {
          ghost var rest := Scan(text[i..], true, []);
          Joined(done, token, rest);
          var ok;
          ok, list, parsed := Take(inputs, done, list, parsed, token);
          if !ok {
            StopsAt(inputs, done, token, rest, relative, present);
            return Err(token);
          }
          done, token := done + [token], "";
        } else {
          assert Flushed(token) + Scan(text[i..], true, []) == Scan(text[i..], true, token);
        }
      }
      ScanEnds(text[i..], seen, token);
      if |token| > 0 {
        var ok;
        ok, list, parsed := Take(inputs, done, list, parsed, token);
        Joined(done, token, []);
        if !ok {
          StopsAt(inputs, done, token, [], relative, present);
          return Err(token);
        }
        done := done + [token];
      } else {
        assert done + [] == done;
      }
      r := Ok((list, parsed));
    }

    /** The inputs a depfile adds: from the remembered record when size and time match, else from its text. */
    method PushDepfileInputs(depfile: Path, stat: Option<Stat>, inputs: seq<Path>) returns (r: Result<seq<Path>, Path>)
      modifies this
      ensures stat.None? ==> r == Ok(inputs) && next == old(next)
      ensures stat.Some? ==>
                match ReadDepfile(prev, old(next), depfile, stat.value, inputs, relative, present, hash)
                case Ok((list, records)) => r == Ok(list) && next == records
                case Err(t) => r == Err(t) && next == old(next)
      ensures stat.Some? && TrueRecord(prev, depfile, stat.value, relative, hash) ==>
                var read := FreshRead(old(next), depfile, stat.value, hash(depfile, stat.value), inputs, relative, present);
                match r
                case Ok(list) => read == Ok((list, next))
                case Err(t) => read == Err(t) && next == old(next)
    {
      if stat.None? {
        return Ok(inputs);
      }
      hide PushTokens, PushNew, Relevant, Tokens;
      if TrueRecord(prev, depfile, stat.value, relative, hash) {
        CachedIsFresh(prev, next, depfile, stat.value, inputs, relative, present, hash);
      }
      var digest := Fingerprint(depfile, stat.value);
      var at := Find(prev, depfile);
      if at.Some? && prev[at.value].size == stat.value.size && prev[at.value].mtime == stat.value.mtime
         && prev[at.value].digest == digest {
        var e := prev[at.value];
        r := PushAll(inputs, e.inputs);
        if r.Ok? {
          Record(DepEntry(depfile, stat.value.size, stat.value.mtime, digest, e.inputs));
        }
        return;
      }
      var parsed := Parse(stat.value.text, inputs);
      if parsed.Err? {
        return Err(parsed.error);
      }
      Record(DepEntry(depfile, stat.value.size, stat.value.mtime, digest, parsed.value.1));
      r := Ok(parsed.value.0);
    }

    /** Pushes remembered inputs one by one. */
    method PushAll(inputs: seq<Path>, tokens: seq<Path>) returns (r: Result<seq<Path>, Path>)
      ensures r == PushTokens(inputs, Relevant(tokens, relative), present)
    {
      hide PushTokens, PushNew, Relevant;
      NothingTaken(inputs, relative, present);
      var list := inputs;
      for i := 0 to |tokens|
        invariant PushTokens(inputs, Relevant(tokens[..i], relative), present) == Ok(list)
      {
        TakenGrows(inputs, tokens[..i], tokens[i], relative, present);
        assert tokens[..i] + [tokens[i]] == tokens[..i + 1];
        var ok;
        ok, list := PushToken(list, tokens[i]);
        if !ok {
          StopsAt(inputs, tokens[..i], tokens[i], tokens[i + 1..], relative, present);
          assert tokens[..i] + [tokens[i]] + tokens[i + 1..] == tokens;
          return Err(tokens[i]);
        }
      }
      assert tokens[..|tokens|] == tokens;
      r := Ok(list);
    }
  }

  /** Relevant tokens are all relevant. */
  lemma {:induction false} RelevantAgain(tokens: seq<string>, relative: string -> bool)
    requires forall t :: t in tokens ==> t != [] && relative(t)
    ensures Relevant(tokens, relative) == tokens
    decreases |tokens|
  {
    if tokens != [] {
      var front, last := tokens[..|tokens| - 1], tokens[|tokens| - 1];
      assert tokens == front + [last];
      forall t | t in front ensures t != [] && relative(t) {
        assert t in tokens;
      }
      assert last in tokens;
      RelevantAgain(front, relative);
    }
  }

  /** Where the remembered record is true, using it is reading the depfile. */
  lemma CachedIsFresh(prev: seq<DepEntry>, next: seq<DepEntry>, depfile: Path, stat: Stat, inputs: seq<Path>, relative: string -> bool,
                      present: Path -> bool, hash: (Path, Stat) -> string)
    requires TrueRecord(prev, depfile, stat, relative, hash)
    ensures ReadDepfile(prev, next, depfile, stat, inputs, relative, present, hash)
         == FreshRead(next, depfile, stat, hash(depfile, stat), inputs, relative, present)
  {
    hide PushTokens, PushNew, Relevant, Tokens;
    var at := FindEntry(prev, depfile);
    if at.Some? && prev[at.value].size == stat.size && prev[at.value].mtime == stat.mtime {
      OnceIsEnough(inputs, Relevant(Tokens(stat.text), relative), present);
      AllRelevant(Tokens(stat.text), relative);
      RelevantAgain(prev[at.value].inputs, relative);
    }
  }

  function Parsed(text: string, inputs: seq<Path>, relative: string -> bool, present: Path -> bool): Result<(seq<Path>, seq<Path>), Path> {
    var tokens := Relevant(Tokens(text), relative);
    var pushed := PushTokens(inputs, tokens, present);
    if pushed.Err? then Err(pushed.error) else Ok((pushed.value, PushNew([], tokens)))
  }

  /** Whatever record the earlier build left for this size and time is true of the text, digest included. */
  predicate TrueRecord(prev: seq<DepEntry>, depfile: Path, stat: Stat, relative: string -> bool, hash: (Path, Stat) -> string) {
    var at := FindEntry(prev, depfile);
    at.Some? && prev[at.value].size == stat.size && prev[at.value].mtime == stat.mtime ==>
      Remembers(prev[at.value], stat, relative) && prev[at.value].digest == hash(depfile, stat)
  }

  lemma ScanStep(text: string, i: nat, seen: bool, token: string)
    requires i < |text|
    ensures Scan(text[i..], seen, token) ==
            if !seen then Scan(text[i + 1..], text[i] == ':', token)
            else if text[i] == '\\' then
              if i + 1 == |text| then Flushed(token)
              else if text[i + 1] == '\n' || text[i + 1] == '\r' then Scan(text[i + 2..], true, token)
              else if Blank(text[i + 1]) then Flushed(token) + Scan(text[i + 2..], true, [])
              else Scan(text[i + 2..], true, Added(token, text[i + 1]))
            else if Blank(text[i]) then Flushed(token) + Scan(text[i + 1..], true, [])
            else Scan(text[i + 1..], true, Added(token, text[i]))
    ensures Scan(text[|text|..], seen, token) == Flushed(token)
  {
    var s := text[i..];
    assert s[1..] == text[i + 1..] && (|s| > 1 ==> s[2..] == text[i + 2..] && s[1] == text[i + 1]);
  }

  lemma Joined(done: seq<string>, token: string, rest: seq<string>)
    ensures done + ([token] + rest) == (done + [token]) + rest
    ensures done + [token] + [] == done + [token]
  {
  }

  lemma ScanEnds(s: string, seen: bool, token: string)
    requires s == []
    ensures Scan(s, seen, token) == Flushed(token)
  {
  }

  lemma NothingTaken(inputs: seq<Path>, relative: string -> bool, present: Path -> bool)
    ensures PushTokens(inputs, Relevant([], relative), present) == Ok(inputs) && PushNew([], Relevant([], relative)) == []
  {
  }

  lemma RelevantGrows(tokens: seq<string>, t: string, relative: string -> bool)
    ensures Relevant(tokens + [t], relative) == Relevant(tokens, relative) + if t != [] && relative(t) then [t] else []
  {
    assert (tokens + [t])[..|tokens|] == tokens;
  }

  lemma PushedGrows(list: seq<Path>, tokens: seq<Path>, t: Path, present: Path -> bool)
    ensures PushTokens(list, tokens + [t], present) ==
            var earlier := PushTokens(list, tokens, present);
            if earlier.Err? then earlier
            else if !present(t) then Err(t)
            else if t in earlier.value then earlier
            else Ok(earlier.value + [t])
    ensures PushNew([], tokens + [t]) == PushNew([], tokens) + if t in PushNew([], tokens) then [] else [t]
  {
    assert (tokens + [t])[..|tokens|] == tokens;
    assert PushNew([], tokens) + [] == PushNew([], tokens);
  }

  lemma TakenGrows(inputs: seq<Path>, done: seq<string>, token: string, relative: string -> bool, present: Path -> bool)
    requires PushTokens(inputs, Relevant(done, relative), present).Ok?
    ensures var was := Relevant(done, relative); var now := Relevant(done + [token], relative);
            var list := PushTokens(inputs, was, present).value;
            if token == [] || !relative(token) then now == was
            else
              && PushTokens(inputs, now, present) == (if !present(token) then Err(token) else if token in list then Ok(list) else Ok(list + [token]))
              && PushNew([], now) == PushNew([], was) + if token in PushNew([], was) then [] else [token]
  {
    hide PushTokens, PushNew, Relevant;
    RelevantGrows(done, token, relative);
    if token == [] || !relative(token) {
      assert Relevant(done, relative) + [] == Relevant(done, relative);
    } else {
      PushedGrows(inputs, Relevant(done, relative), token, present);
    }
  }

  lemma {:induction false} ErrorStays(list: seq<Path>, tokens: seq<Path>, n: nat, present: Path -> bool)
    requires n <= |tokens| && PushTokens(list, tokens[..n], present).Err?
    ensures PushTokens(list, tokens, present) == PushTokens(list, tokens[..n], present)
    decreases |tokens| - n
  {
    if n < |tokens| {
      assert tokens[..n + 1][..n] == tokens[..n];
      ErrorStays(list, tokens, n + 1, present);
    } else {
      assert tokens[..n] == tokens;
    }
  }

  lemma {:induction false} RelevantJoins(a: seq<string>, b: seq<string>, relative: string -> bool)
    ensures Relevant(a, relative) <= Relevant(a + b, relative)
    decreases |b|
  {
    if b == [] {
      assert a + b == a;
    } else {
      RelevantJoins(a, b[..|b| - 1], relative);
      RelevantGrows(a + b[..|b| - 1], b[|b| - 1], relative);
      assert a + b == (a + b[..|b| - 1]) + [b[|b| - 1]];
    }
  }

  /** The first missing file decides, whatever tokens come after it. */
  lemma StopsAt(inputs: seq<Path>, done: seq<string>, token: string, rest: seq<string>,
                                   relative: string -> bool, present: Path -> bool)
    requires PushTokens(inputs, Relevant(done, relative), present).Ok?
    requires token != [] && relative(token) && !present(token)
    ensures PushTokens(inputs, Relevant(done + [token] + rest, relative), present) == Err(token)
  {
    hide PushTokens, PushNew, Relevant;
    TakenGrows(inputs, done, token, relative, present);
    RelevantJoins(done + [token], rest, relative);
    var some, all := Relevant(done + [token], relative), Relevant(done + [token] + rest, relative);
    assert all[..|some|] == some;
    ErrorStays(inputs, all, |some|, present);
  }

  lemma {:induction false} AllRelevant(tokens: seq<string>, relative: string -> bool)
    ensures forall t :: t in Relevant(tokens, relative) ==> t != [] && relative(t)
    ensures forall t :: t in PushNew([], Relevant(tokens, relative)) ==> t != [] && relative(t)
    decreases |tokens|
  {
    if tokens != [] {
      AllRelevant(tokens[..|tokens| - 1], relative);
    }
  }

  // ---- what the list of a read holds ---------------------------------------------------------------

  /** A list without the missing file, or the first one: the inputs stay in front, and what is added is exactly the
      package-relative tokens of the text. */
  lemma {:induction false} PushedAre(list: seq<Path>, tokens: seq<Path>, present: Path -> bool)
    ensures var r := PushTokens(list, tokens, present);
            && (r.Ok? <==> forall t :: t in tokens ==> present(t))
            && (r.Ok? ==> list <= r.value && forall t :: t in r.value <==> t in list || t in tokens)
            && (r.Err? ==> r.error in tokens && !present(r.error))
    decreases |tokens|
  {
    if tokens != [] {
      assert tokens == tokens[..|tokens| - 1] + [tokens[|tokens| - 1]];
      PushedAre(list, tokens[..|tokens| - 1], present);
    }
  }

  lemma {:induction false} RelevantAre(tokens: seq<string>, relative: string -> bool, t: string)
    ensures t in Relevant(tokens, relative) <==> t in tokens && t != [] && relative(t)
    decreases |tokens|
  {
    if tokens != [] {
      assert tokens == tokens[..|tokens| - 1] + [tokens[|tokens| - 1]];
      RelevantAre(tokens[..|tokens| - 1], relative, t);
    }
  }

  /** What reading the text gives. */
  function Listed(text: string, inputs: seq<Path>, relative: string -> bool, present: Path -> bool): Result<seq<Path>, Path> {
    PushTokens(inputs, Relevant(Tokens(text), relative), present)
  }

  lemma ListedAre(text: string, inputs: seq<Path>, relative: string -> bool, present: Path -> bool)
    ensures var r := Listed(text, inputs, relative, present);
            && (r.Ok? <==> forall t :: t in Tokens(text) && t != [] && relative(t) ==> present(t))
            && (r.Ok? ==> inputs <= r.value && forall t :: t in r.value <==> t in inputs || (t in Tokens(text) && t != [] && relative(t)))
            && (r.Err? ==> r.error in Tokens(text) && relative(r.error) && !present(r.error))
  {
    hide PushTokens, Relevant, Tokens;
    forall t ensures t in Relevant(Tokens(text), relative) <==> t in Tokens(text) && t != [] && relative(t) {
      RelevantAre(Tokens(text), relative, t);
    }
    PushedAre(inputs, Relevant(Tokens(text), relative), present);
  }

  // ---- what a read leaves behind ---------------------------------------------------------------------

  /** After recording, a depfile's record is the new one; other depfiles keep theirs. */
  lemma {:induction false} RecordedFinds(entries: seq<DepEntry>, e: DepEntry, depfile: Path)
    ensures var at := FindEntry(Recorded(entries, e), depfile);
            if depfile == e.depfile then at.Some? && Recorded(entries, e)[at.value] == e
            else at == FindEntry(entries, depfile) && (at.Some? ==> Recorded(entries, e)[at.value] == entries[at.value])
  {
    hide FindEntry;
    var was, now := FindEntry(entries, depfile), FindEntry(Recorded(entries, e), depfile);
    var place := FindEntry(entries, e.depfile);
    if depfile == e.depfile {
      assert Recorded(entries, e)[if place.Some? then place.value else |entries|] == e;
    } else {
      assert forall j :: 0 <= j < |entries| ==> Recorded(entries, e)[j].depfile == entries[j].depfile;
    }
  }

  /** A read that succeeds leaves a record of the depfile with this size and time that holds what the text says. */
  lemma ReadIsRemembered(prev: seq<DepEntry>, next: seq<DepEntry>, depfile: Path, stat: Stat, inputs: seq<Path>, relative: string -> bool,
                         present: Path -> bool, hash: (Path, Stat) -> string)
    requires TrueRecord(prev, depfile, stat, relative, hash)
    ensures var r := ReadDepfile(prev, next, depfile, stat, inputs, relative, present, hash);
            r.Ok? ==>
              && PushTokens(inputs, Relevant(Tokens(stat.text), relative), present) == Ok(r.value.0)
              && var at := FindEntry(r.value.1, depfile);
                 && at.Some? && r.value.1[at.value].size == stat.size && r.value.1[at.value].mtime == stat.mtime
                 && r.value.1[at.value].inputs == PushNew([], Relevant(Tokens(stat.text), relative))
                 && TrueRecord(r.value.1, depfile, stat, relative, hash)
  {
    hide PushTokens, PushNew, Relevant, Tokens, ReadDepfile;
    CachedIsFresh(prev, next, depfile, stat, inputs, relative, present, hash);
    var tokens := Relevant(Tokens(stat.text), relative);
    RecordedFinds(next, DepEntry(depfile, stat.size, stat.mtime, hash(depfile, stat), PushNew([], tokens)), depfile);
    hide FindEntry, Recorded;
  }

  // ---- any number of builds ----------------------------------------------------------------------------

  /** One depfile read in a build, and the input list it is added to. */
  datatype Visit = Visit(depfile: Path, stat: Stat, inputs: seq<Path>)

  /** A build's reads, the files that exist during it, and whether it succeeds. */
  datatype Reading = Reading(visits: seq<Visit>, present: Path -> bool, success: bool)

  /** The results of the first `n` reads of a build, and the records they leave. */
  function ReadBuild(prev: seq<DepEntry>, b: Reading, n: nat, relative: string -> bool, hash: (Path, Stat) -> string)
    : (r: (seq<Result<seq<Path>, Path>>, seq<DepEntry>))
    requires n <= |b.visits|
    ensures |r.0| == n
  {
    if n == 0 then ([], [])
    else
      var (results, next) := ReadBuild(prev, b, n - 1, relative, hash);
      var v := b.visits[n - 1];
      match ReadDepfile(prev, next, v.depfile, v.stat, v.inputs, relative, b.present, hash)
      case Ok((list, records)) => (results + [Ok(list)], records)
      case Err(t) => (results + [Err(t)], next)
  }

  /** The records kept after the first `k` builds: those of the last successful one that made any. */
  function Kept(builds: seq<Reading>, k: nat, relative: string -> bool, hash: (Path, Stat) -> string): seq<DepEntry>
    requires k <= |builds|
  {
    if k == 0 then []
    else
      var prev := Kept(builds, k - 1, relative, hash);
      var b := builds[k - 1];
      var next := ReadBuild(prev, b, |b.visits|, relative, hash).1;
      if b.success && next != [] then next else prev
  }

  ghost predicate Visits(builds: seq<Reading>, v: Visit) {
    exists k, n :: 0 <= k < |builds| && 0 <= n < |builds[k].visits| && builds[k].visits[n] == v
  }

  /** A depfile that has one size and time twice has one text. */
  ghost predicate SizeAndTimeTell(builds: seq<Reading>) {
    forall v, w :: Visits(builds, v) && Visits(builds, w) && v.depfile == w.depfile && v.stat.size == w.stat.size && v.stat.mtime == w.stat.mtime
      ==> v.stat.text == w.stat.text
  }

  ghost predicate AllTrue(records: seq<DepEntry>, builds: seq<Reading>, relative: string -> bool, hash: (Path, Stat) -> string) {
    forall v :: Visits(builds, v) ==> TrueRecord(records, v.depfile, v.stat, relative, hash)
  }

  lemma StepKeepsTrue(prev: seq<DepEntry>, next: seq<DepEntry>, builds: seq<Reading>, v: Visit, relative: string -> bool,
                      present: Path -> bool, hash: (Path, Stat) -> string)
    requires SizeAndTimeTell(builds) && Visits(builds, v)
    requires AllTrue(prev, builds, relative, hash) && AllTrue(next, builds, relative, hash)
    ensures var r := ReadDepfile(prev, next, v.depfile, v.stat, v.inputs, relative, present, hash);
            r.Ok? ==> AllTrue(r.value.1, builds, relative, hash)
  {
    hide Tokens, Relevant, PushNew, PushTokens, Visits, FindEntry, Recorded, ReadDepfile;
    CachedIsFresh(prev, next, v.depfile, v.stat, v.inputs, relative, present, hash);
    var r := ReadDepfile(prev, next, v.depfile, v.stat, v.inputs, relative, present, hash);
    var e := DepEntry(v.depfile, v.stat.size, v.stat.mtime, hash(v.depfile, v.stat), PushNew([], Relevant(Tokens(v.stat.text), relative)));
    if r.Ok? {
      forall w | Visits(builds, w) ensures TrueRecord(r.value.1, w.depfile, w.stat, relative, hash) {
        RecordedFinds(next, e, w.depfile);
        assert TrueRecord(next, w.depfile, w.stat, relative, hash);
        assert v.depfile == w.depfile && v.stat.size == w.stat.size && v.stat.mtime == w.stat.mtime ==> v.stat == w.stat;
      }
    }
  }

  lemma {:induction false} BuildKeepsTrue(builds: seq<Reading>, prev: seq<DepEntry>, k: nat, n: nat, relative: string -> bool, hash: (Path, Stat) -> string)
    requires SizeAndTimeTell(builds) && AllTrue(prev, builds, relative, hash)
    requires k < |builds| && n <= |builds[k].visits|
    ensures AllTrue(ReadBuild(prev, builds[k], n, relative, hash).1, builds, relative, hash)
    ensures forall i :: 0 <= i < n ==>
              var v := builds[k].visits[i];
              ReadBuild(prev, builds[k], n, relative, hash).0[i] == Listed(v.stat.text, v.inputs, relative, builds[k].present)
  {
    hide TrueRecord, SizeAndTimeTell, ReadDepfile, Tokens, Relevant, PushNew, PushTokens;
    if n == 0 {
      NoRecords(builds, relative, hash);
    } else {
      BuildKeepsTrue(builds, prev, k, n - 1, relative, hash);
      var (b, v) := (builds[k], builds[k].visits[n - 1]);
      var next := ReadBuild(prev, b, n - 1, relative, hash).1;
      assert Visits(builds, v);
      StepKeepsTrue(prev, next, builds, v, relative, b.present, hash);
      CachedIsFresh(prev, next, v.depfile, v.stat, v.inputs, relative, b.present, hash);
    }
  }

  lemma NoRecords(builds: seq<Reading>, relative: string -> bool, hash: (Path, Stat) -> string)
    ensures AllTrue([], builds, relative, hash)
  {}

  lemma {:induction false} KeptIsTrue(builds: seq<Reading>, k: nat, relative: string -> bool, hash: (Path, Stat) -> string)
    requires SizeAndTimeTell(builds) && k <= |builds|
    ensures AllTrue(Kept(builds, k, relative, hash), builds, relative, hash)
  {
    hide AllTrue, SizeAndTimeTell, ReadBuild;
    if k == 0 {
      NoRecords(builds, relative, hash);
    } else {
      KeptIsTrue(builds, k - 1, relative, hash);
      BuildKeepsTrue(builds, Kept(builds, k - 1, relative, hash), k - 1, |builds[k - 1].visits|, relative, hash);
    }
  }

  /** Over any number of builds that start without records, every read gives what reading the text gives. */
  lemma EveryReadIsFresh(builds: seq<Reading>, k: nat, i: nat, relative: string -> bool, hash: (Path, Stat) -> string)
    requires SizeAndTimeTell(builds) && k < |builds| && i < |builds[k].visits|
    ensures var b, v := builds[k], builds[k].visits[i];
            var read := ReadBuild(Kept(builds, k, relative, hash), b, |b.visits|, relative, hash).0[i];
            read == Listed(v.stat.text, v.inputs, relative, b.present)
  {
    hide AllTrue, SizeAndTimeTell, ReadBuild, Kept;
    KeptIsTrue(builds, k, relative, hash);
    BuildKeepsTrue(builds, Kept(builds, k, relative, hash), k, |builds[k].visits|, relative, hash);
  }
}
