/** Turning a logical command into the one that is executed, within the host's limits. */
module Materialize {
  import opened Wrappers
  import opened ArgvStorage
  import Line = WindowsCommandLine
  import Microsoft = MicrosoftArguments
  import Shell = ShellWords
  import Rsp = ResponseFile

  const RESPONSE_ARGV_BYTES: nat := 512
  const RESPONSE_ARGC: nat := 48
  const WINDOWS_COMMAND_LIMIT: nat := 32767
  const FALLBACK_COMMAND_LIMIT: nat := 131072
  const POSIX_COMMAND_HEADROOM: nat := 2048
  const LONG_MAX: nat := 0x7FFF_FFFF_FFFF_FFFF

  /** `argMax` is the system's answer for ARG_MAX, not positive when it has none. */
  datatype Host = Host(onWindows: bool, argMax: int, environ: seq<string>)

  datatype Toolchain = Toolchain(responseFiles: bool, style: string, windows: bool)

  datatype Command = Command(exec: seq<string>, response: Option<Response>)
  datatype Response = Response(path: string, style: string, digest: nat)

  datatype Error = EmptyCommand | OverLimit | NoMemory

  // ---- the size of a command -----------------------------------------------------------

  function CommandLimit(host: Host): nat {
    if host.argMax > 0 then host.argMax else FALLBACK_COMMAND_LIMIT
  }

  /** The process's own environment counts except on Windows. */
  function Inherited(host: Host): seq<string> {
    if host.onWindows then [] else host.environ
  }

  /** Bytes, pointers and environment, with no bound on any of them. */
  function Needed(host: Host, args: seq<string>, env: seq<string>): nat {
    Bytes(args) + (|args| + 1) * POINTER_SIZE + Bytes(Inherited(host)) + Bytes(env)
  }

  /** What the command may take up. */
  predicate Fits(host: Host, windows: bool, args: seq<string>, env: seq<string>) {
    if windows then |Line.Line(Line.Effective(args, host.onWindows))| <= WINDOWS_COMMAND_LIMIT
    else CommandLimit(host) > POSIX_COMMAND_HEADROOM && Needed(host, args, env) <= CommandLimit(host) - POSIX_COMMAND_HEADROOM
  }

  function Saturated(n: nat): nat {
    if n < SIZE_MAX then n else SIZE_MAX
  }

  /** Adds up one list of strings, staying at the largest word once it is reached. */
  method AddBytes(start: nat, items: seq<string>) returns (bytes: nat)
    requires start <= SIZE_MAX && forall s :: s in items ==> |s| < SIZE_MAX
    ensures bytes == Saturated(start + Bytes(items))
  {
    bytes := start;
    for i := 0 to |items|
      invariant bytes == start + Bytes(items[..i]) <= SIZE_MAX
    {
      assert items[..i + 1][..i] == items[..i];
      BytesOfPrefix(items, i + 1);
      var n := |items[i]| + 1;
      if bytes > SIZE_MAX - n {
        return SIZE_MAX;
      }
      bytes := bytes + n;
    }
    assert items[..|items|] == items;
  }

  /** The environment the command starts with: the process's own, unless on Windows, then the action's. */
  method EnvironmentBytes(host: Host, env: seq<string>) returns (bytes: nat)
    requires forall s :: s in host.environ || s in env ==> |s| < SIZE_MAX
    ensures bytes == Saturated(Bytes(Inherited(host)) + Bytes(env))
  {
    bytes := 0;
    if !host.onWindows {
      bytes := AddBytes(0, host.environ);
    }
    if bytes < SIZE_MAX {
      bytes := AddBytes(bytes, env);
    }
  }

  /** The limit check in word arithmetic accepts exactly what fits when counted without bound. */
  method WithinPosixLimit(host: Host, len: nat, argBytes: nat, args: seq<string>, env: seq<string>) returns (ok: bool)
    requires host.argMax <= LONG_MAX
    requires len == |args| <= SIZE_MAX && argBytes == Bytes(args) <= SIZE_MAX
    requires forall s :: s in host.environ || s in env ==> |s| < SIZE_MAX
    ensures ok == Fits(host, false, args, env)
  {
    var limit := CommandLimit(host);
    var envBytes := EnvironmentBytes(host, env);
    var pointerBytes := SIZE_MAX;
    if len < SIZE_MAX && len + 1 <= SIZE_MAX / POINTER_SIZE {
      pointerBytes := (len + 1) * POINTER_SIZE;
    }
    var required := SIZE_MAX;
    if !(envBytes == SIZE_MAX || pointerBytes == SIZE_MAX || argBytes > SIZE_MAX - pointerBytes
         || envBytes > SIZE_MAX - argBytes - pointerBytes) {
      required := argBytes + pointerBytes + envBytes;
    }
    assert required == Saturated(Needed(host, args, env));
    ok := limit > POSIX_COMMAND_HEADROOM && required <= limit - POSIX_COMMAND_HEADROOM;
  }

  /** On Windows the line is written into a buffer one larger than the limit. */
  method WithinWindowsLimit(host: Host, args: seq<string>) returns (ok: bool)
    requires args != []
    ensures ok == (|Line.Line(Line.Effective(args, host.onWindows))| <= WINDOWS_COMMAND_LIMIT)
  {
    var buffer := new char[WINDOWS_COMMAND_LIMIT + 1];
    ok := Line.FromArgv(args, buffer, host.onWindows);
  }

  // ---- materializing ---------------------------------------------------------------------

  predicate NeedsResponse(args: seq<string>) {
    Bytes(args) >= RESPONSE_ARGV_BYTES || |args| > RESPONSE_ARGC
  }

  /** What running the command means: a response file stands for the arguments it lists, read in the tool's own way. */
  function Meaning(t: Toolchain, c: Command, file: string, separators: set<char>): Option<seq<string>> {
    if c.response.None? then Some(c.exec)
    else if |c.exec| != 2 || c.exec[1] != "@" + c.response.value.path then None
    else if t.style == "windows" || t.style == "msvc" then Some([c.exec[0]] + Microsoft.Split(file, separators))
    else
      var words := Shell.Words(file);
      if words.None? then None else Some([c.exec[0]] + words.value)
  }

  /** The command for a non-empty logical argv. */
  function Materialized(t: Toolchain, args: seq<string>, path: string, digest: nat): Command
    requires args != []
  {
    if NeedsResponse(args) && t.responseFiles
    then Command([args[0], "@" + path], Some(Response(path, StyleOf(t), digest)))
    else Command(args, None)
  }

  function StyleOf(t: Toolchain): string {
    if t.style == "" then "posix" else t.style
  }

  /** Whatever form the command takes, it means the logical argv. */
  lemma MaterializedMeansLogical(t: Toolchain, args: seq<string>, path: string, digest: nat, separators: set<char>)
    requires args != []
    requires Rsp.NEWLINE in separators && separators <= Rsp.SPACES
    ensures var command := Materialized(t, args, path, digest);
            var style := if command.response.Some? then command.response.value.style else "";
            Meaning(t, command, Rsp.FileText(args[1..], Rsp.WindowsStyle(style)), separators) == Some(args)
  {
    hide Rsp.FileText, Shell.Words, Microsoft.Split, Bytes;
    Rsp.ShellFileReadsBack(args[1..]);
    Rsp.WindowsFileReadsBack(args[1..], separators);
    assert [args[0]] + args[1..] == args;
  }

  /** A response file is used exactly where the toolchain takes one and the vector has 512 bytes or more than 48 items. */
  lemma ResponseExactly(t: Toolchain, args: seq<string>, path: string, digest: nat)
    requires args != []
    ensures Materialized(t, args, path, digest).response.Some? <==> t.responseFiles && (Bytes(args) >= 512 || |args| > 48)
    ensures t.responseFiles ==>
              var exec := Materialized(t, args, path, digest).exec;
              (Bytes(exec) < 512 && |exec| <= 48) || exec == [args[0], "@" + path]
  {
    hide Bytes;
  }

  /** What fits, in numbers: a line of 32767 characters, or 2048 bytes less than the limit of the system, which is taken to be
      131072 if it has none. */
  lemma FitsInNumbers(host: Host, args: seq<string>, env: seq<string>)
    ensures Fits(host, true, args, env) <==> |Line.Line(Line.Effective(args, host.onWindows))| <= 32767
    ensures var own := if host.onWindows then 0 else Bytes(host.environ);
            var limit := if host.argMax > 0 then host.argMax else 131072;
            Fits(host, false, args, env) <==> limit > 2048 && Bytes(args) + 8 * (|args| + 1) + own + Bytes(env) + 2048 <= limit
  {
    assert Bytes([]) == 0;
    hide Bytes;
  }

  /** A vector that can be cloned, and whose tool name leaves room for one more short argument. */
  predicate Feasible(args: seq<string>) {
    args != [] && |args| <= SIZE_MAX && CanHold(0, |args|) && |args[0]| < SIZE_MAX - 8192
  }

  lemma TwoCanBeHeld(cap: nat)
    requires (cap + 1) * POINTER_SIZE <= SIZE_MAX
    ensures CanHold(cap, 1) && CanHold(cap, 2)
  {
    assert cap > 0 && cap < 2 ==> Doubled(cap, 2) == 2;
  }

  /** `file` takes the response file's text when one is to be written. */
  method Action(host: Host, t: Toolchain, logical: Argv, env: seq<string>, path: string, write: bool, memory: bool,
                step: (nat, char) -> nat, initial: nat, file: Rsp.TextFile)
    returns (r: Result<Command, Error>)
    requires logical.Valid() && file.bytes == []
    requires host.argMax <= LONG_MAX
    requires forall s :: s in host.environ || s in env ==> |s| < SIZE_MAX
    requires |path| < 4096
    modifies file
    ensures logical.Contents() == [] ==> r == Err(EmptyCommand)
    ensures r.Ok? ==> logical.Contents() != []
    ensures r.Ok? ==>
      var args := logical.Contents();
      var text := Rsp.FileText(args[1..], Rsp.WindowsStyle(StyleOf(t)));
      && r.value == Materialized(t, args, path, Rsp.Fold(step, initial, text))
      && (r.value.response.Some? && write ==> file.bytes == text)
      && (!t.responseFiles ==> Fits(host, t.windows, args, env))
    ensures logical.Contents() != [] && !t.responseFiles && !Fits(host, t.windows, logical.Contents(), env) ==> r.Err?
    ensures memory && Feasible(logical.Contents()) && (t.responseFiles || Fits(host, t.windows, logical.Contents(), env)) ==> r.Ok?
  {
    hide Bytes, CanHold, Fits, Rsp.FileText, Rsp.Fold;
    if logical.len == 0 {
      return Err(EmptyCommand);
    }
    ghost var args := logical.Contents();
    if !(logical.bytes >= RESPONSE_ARGV_BYTES || logical.len > RESPONSE_ARGC) || !t.responseFiles {
      r := Plain(host, t, logical, env, memory);
    } else {
      r := WithResponse(t, logical, path, write, memory, step, initial, file);
    }
  }

  method Plain(host: Host, t: Toolchain, logical: Argv, env: seq<string>, memory: bool) returns (r: Result<Command, Error>)
    requires logical.Valid() && logical.len > 0
    requires host.argMax <= LONG_MAX
    requires forall s :: s in host.environ || s in env ==> |s| < SIZE_MAX
    ensures r.Ok? ==> r.value == Command(logical.Contents(), None)
    ensures r.Ok? && !t.responseFiles ==> Fits(host, t.windows, logical.Contents(), env)
    ensures memory && CanHold(0, |logical.Contents()|) && (t.responseFiles || Fits(host, t.windows, logical.Contents(), env)) ==> r.Ok?
  {
    hide Bytes, CanHold;
    var exec := new Argv();
    var ok := exec.CloneFrom(logical, memory);
    if !ok {
      return Err(NoMemory);
    }
    var args := exec.Snapshot();
    if !t.responseFiles {
      if t.windows {
        ok := WithinWindowsLimit(host, args);
      } else {
        ok := WithinPosixLimit(host, logical.len, logical.bytes, args, env);
      }
      if !ok {
        return Err(OverLimit);
      }
    }
    r := Ok(Command(args, None));
  }

  method TwoItems(first: string, second: string, memory: bool) returns (ok: bool, items: seq<string>)
    ensures ok ==> items == [first, second]
    ensures memory && |first| + |second| + 2 <= SIZE_MAX ==> ok
  {
    items := [];
    var exec := new Argv();
    TwoCanBeHeld(exec.cap);
    TwoBytes(first);
    ok := exec.Push(first, memory);
    if ok {
      if exec.items != null { TwoCanBeHeld(exec.cap); }
      ok := exec.Push(second, memory);
    }
    if ok {
      items := exec.Snapshot();
    }
  }

  lemma TwoBytes(first: string)
    ensures Bytes([]) == 0 && Bytes([] + [first]) == |first| + 1
  {
    assert ([] + [first])[..0] == [];
  }

  method WithResponse(t: Toolchain, logical: Argv, path: string, write: bool, memory: bool,
                      step: (nat, char) -> nat, initial: nat, file: Rsp.TextFile) returns (r: Result<Command, Error>)
    requires logical.Valid() && logical.len > 0 && file.bytes == [] && |path| < 4096
    modifies file
    ensures r.Ok? ==>
      var text := Rsp.FileText(logical.Contents()[1..], Rsp.WindowsStyle(StyleOf(t)));
      && r.value == Command([logical.Contents()[0], "@" + path], Some(Response(path, StyleOf(t), Rsp.Fold(step, initial, text))))
      && (write ==> file.bytes == text)
    ensures memory && Feasible(logical.Contents()) ==> r.Ok?
  {
    hide Rsp.FileText, Rsp.Fold, CanHold;
    var args := logical.Snapshot();
    var digest := Rsp.ResponseDigest(step, initial, args, StyleOf(t));
    if write {
      file.WriteResponse(args, StyleOf(t));
    }
    var ok, items := TwoItems(args[0], "@" + path, memory);
    if !ok {
      return Err(NoMemory);
    }
    r := Ok(Command(items, Some(Response(path, StyleOf(t), digest))));
  }
}
