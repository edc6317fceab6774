/** The two files a build leaves for the next one: action states, and what depfiles named. */
module StateDb {
  import opened Wrappers
  import opened BinaryRecords

  const STATE_ABI: nat := 2
  const DEPS_ABI: nat := 1
  const MAX_ENTRIES: nat := 10_000_000
  const MAX_INPUTS: nat := 1_000_000
  const DIGEST_SIZE: nat := 32

  datatype Material = Material(argv: Text, env: Text, input: Text, depfile: Text, toolPolicy: Text, output: Text, external: Text)

  datatype StateEntry = StateEntry(id: Text, key: Text, output: Text, status: Text, kind: Text, material: Material)

  datatype DepEntry = DepEntry(depfile: Text, size: nat, mtime: nat, digest: Text, inputs: seq<Text>)

  /** The characters of an identifier with the zero that ends it. */
  function Magic(name: string): seq<Byte> {
    if name == [] then [0] else [name[0] as int % 256] + Magic(name[1..])
  }

  const STATE_MAGIC := "qstar-stella-state-db-v2"
  const DEPS_MAGIC := "qstar-stella-deps-db-v1"

  // ---- any file of records ---------------------------------------------------------------

  type Reader<!T> = seq<Byte> -> Parsed<T>

  function ReadMany<T>(one: Reader<T>, n: nat, s: seq<Byte>): Parsed<seq<T>> {
    if n == 0 then Some(([], s))
    else
      var first := one(s);
      if first.None? then None
      else
        var more := ReadMany(one, n - 1, first.value.1);
        if more.None? then None else Some(([first.value.0] + more.value.0, more.value.1))
  }

  function ReadHeader(magic: seq<Byte>, abi: nat, s: seq<Byte>): Parsed<nat> {
    if |s| < |magic| || s[..|magic|] != magic then None
    else
      var version := ReadWord(s[|magic|..]);
      if version.None? || version.value.0 != abi then None
      else
        var count := ReadWord(version.value.1);
        if count.None? || count.value.0 > MAX_ENTRIES then None else count
  }

  /** The records of a whole file, or nothing at all. */
  function ReadFile<T>(magic: seq<Byte>, abi: nat, one: Reader<T>, s: seq<Byte>): Parsed<seq<T>> {
    var header := ReadHeader(magic, abi, s);
    if header.None? then None else ReadMany(one, header.value.0, header.value.1)
  }

  function ManyBytes<T>(bytes: T -> seq<Byte>, records: seq<T>): seq<Byte> {
    if records == [] then [] else bytes(records[0]) + ManyBytes(bytes, records[1..])
  }

  function FileBytes<T>(magic: seq<Byte>, abi: nat, bytes: T -> seq<Byte>, records: seq<T>): seq<Byte> {
    magic + (WordBytes(abi) + (WordBytes(|records|) + ManyBytes(bytes, records)))
  }

  /** What a record reads as does not depend on what follows it. */
  ghost predicate Local<T(!new)>(one: Reader<T>) {
    forall s, more :: ExtendsAt(one, s, more)
  }

  ghost predicate ExtendsAt<T(!new)>(one: Reader<T>, s: seq<Byte>, more: seq<Byte>) {
    one(s).Some? ==> one(s + more) == Some((one(s).value.0, one(s).value.1 + more))
  }

  /** A written record reads back as itself when it is acceptable, and is refused when it is not. */
  ghost predicate ReadsBackAt<T(!new)>(one: Reader<T>, bytes: T -> seq<Byte>, accepts: T -> bool, record: T, rest: seq<Byte>) {
    one(bytes(record) + rest) == if accepts(record) then Some((record, rest)) else None
  }

  lemma {:induction false} ManyExtend<T(!new)>(one: Reader<T>, n: nat, s: seq<Byte>, more: seq<Byte>)
    requires Local(one) && ReadMany(one, n, s).Some?
    ensures ReadMany(one, n, s + more) == Some((ReadMany(one, n, s).value.0, ReadMany(one, n, s).value.1 + more))
  {
    if n > 0 {
      assert ExtendsAt(one, s, more);
      ManyExtend(one, n - 1, one(s).value.1, more);
    }
  }

  lemma HeaderExtends(magic: seq<Byte>, abi: nat, s: seq<Byte>, more: seq<Byte>)
    requires ReadHeader(magic, abi, s).Some?
    ensures ReadHeader(magic, abi, s + more) == Some((ReadHeader(magic, abi, s).value.0, ReadHeader(magic, abi, s).value.1 + more))
  {
    hide ReadWord;
    assert (s + more)[..|magic|] == s[..|magic|] && (s + more)[|magic|..] == s[|magic|..] + more;
    WordExtends(s[|magic|..], more);
    WordExtends(ReadWord(s[|magic|..]).value.1, more);
  }

  predicate AllAccepted<T>(accepts: T -> bool, records: seq<T>) {
    forall i :: 0 <= i < |records| ==> accepts(records[i])
  }

  lemma {:induction false} ManyReadBack<T(!new)>(one: Reader<T>, bytes: T -> seq<Byte>, accepts: T -> bool, records: seq<T>, rest: seq<Byte>)
    requires forall i, tail :: 0 <= i < |records| ==> ReadsBackAt(one, bytes, accepts, records[i], tail)
    ensures ReadMany(one, |records|, ManyBytes(bytes, records) + rest)
         == if AllAccepted(accepts, records) then Some((records, rest)) else None
    decreases |records|
  {
    if records == [] {
      assert ManyBytes(bytes, records) + rest == rest;
    } else {
      var more := ManyBytes(bytes, records[1..]) + rest;
      assert ReadsBackAt(one, bytes, accepts, records[0], more);
      assert ManyBytes(bytes, records) + rest == bytes(records[0]) + more;
      ManyReadBack(one, bytes, accepts, records[1..], rest);
      assert [records[0]] + records[1..] == records;
      assert AllAccepted(accepts, records) <==> accepts(records[0]) && AllAccepted(accepts, records[1..]) by {
        assert forall i :: 0 < i < |records| ==> records[i] == records[1..][i - 1];
        assert forall i :: 0 <= i < |records| - 1 ==> records[1..][i] == records[i + 1];
      }
    }
  }

  /** A written file loads back exactly when it is not too long and every record is acceptable. */
  lemma FileReadsBack<T(!new)>(magic: seq<Byte>, abi: nat, one: Reader<T>, bytes: T -> seq<Byte>,
                                            accepts: T -> bool, records: seq<T>)
    requires IsWord(abi) && IsWord(|records|)
    requires forall i, tail :: 0 <= i < |records| ==> ReadsBackAt(one, bytes, accepts, records[i], tail)
    ensures ReadFile(magic, abi, one, FileBytes(magic, abi, bytes, records))
         == if |records| <= MAX_ENTRIES && AllAccepted(accepts, records) then Some((records, [])) else None
  {
    hide ReadWord, IsWord, ReadsBackAt;
    var body := ManyBytes(bytes, records);
    var s := FileBytes(magic, abi, bytes, records);
    assert s[..|magic|] == magic && s[|magic|..] == WordBytes(abi) + (WordBytes(|records|) + body);
    WordReadsBack(abi, WordBytes(|records|) + body);
    WordReadsBack(|records|, body);
    ManyReadBack(one, bytes, accepts, records, []);
    assert body + [] == body;
  }

  /** No proper prefix of a file that loads completely loads at all. */
  lemma PrefixIsRefused<T(!new)>(magic: seq<Byte>, abi: nat, one: Reader<T>, s: seq<Byte>, n: nat)
    requires Local(one) && n < |s|
    requires ReadFile(magic, abi, one, s).Some? && ReadFile(magic, abi, one, s).value.1 == []
    ensures ReadFile(magic, abi, one, s[..n]) == None
  {
    var p, more := s[..n], s[n..];
    if ReadFile(magic, abi, one, p).Some? {
      assert p + more == s;
      HeaderExtends(magic, abi, p, more);
      var header := ReadHeader(magic, abi, p).value;
      ManyExtend(one, header.0, header.1, more);
    }
  }

  // ---- action states -----------------------------------------------------------------------

  function FieldsOf(e: StateEntry): seq<Text> {
    [e.id, e.key, e.output, e.status, e.kind,
     e.material.argv, e.material.env, e.material.input, e.material.depfile,
     e.material.toolPolicy, e.material.output, e.material.external]
  }

  function EntryOf(f: seq<Text>): StateEntry
    requires |f| == 12
  {
    StateEntry(f[0], f[1], f[2], f[3], f[4], Material(f[5], f[6], f[7], f[8], f[9], f[10], f[11]))
  }

  function EntryBytes(e: StateEntry): seq<Byte> {
    TextsBytes(FieldsOf(e))
  }

  /** Digest fields fit their buffers; id, key, output and status are not empty. */
  predicate Complete(e: StateEntry) {
    && |e.material.argv| < DIGEST_SIZE && |e.material.env| < DIGEST_SIZE && |e.material.input| < DIGEST_SIZE
    && |e.material.depfile| < DIGEST_SIZE && |e.material.toolPolicy| < DIGEST_SIZE
    && |e.material.output| < DIGEST_SIZE && |e.material.external| < DIGEST_SIZE
    && e.id != [] && e.key != [] && e.output != [] && e.status != []
  }

  function ReadEntry(s: seq<Byte>): Parsed<StateEntry> {
    var fields := ReadTexts(12, s);
    if fields.None? || !Complete(EntryOf(fields.value.0)) then None
    else Some((EntryOf(fields.value.0), fields.value.1))
  }

  predicate Loadable(e: StateEntry) {
    AllWithinCap(FieldsOf(e)) && Complete(e)
  }

  lemma EntryReadsBack(e: StateEntry, rest: seq<Byte>)
    requires AllTexts(FieldsOf(e))
    ensures ReadsBackAt(ReadEntry, EntryBytes, Loadable, e, rest)
  {
    hide ReadTexts, TextsBytes;
    TextsReadBack(FieldsOf(e), rest);
    assert EntryOf(FieldsOf(e)) == e;
  }

  lemma EntriesAreLocal()
    ensures Local(ReadEntry)
  {
    hide ReadTexts;
    forall s, more ensures ExtendsAt(ReadEntry, s, more) {
      if ReadEntry(s).Some? {
        TextsExtend(12, s, more);
      }
    }
  }

  function StateFile(entries: seq<StateEntry>): seq<Byte> {
    FileBytes(Magic(STATE_MAGIC), STATE_ABI, EntryBytes, entries)
  }

  function LoadState(s: seq<Byte>): Option<seq<StateEntry>> {
    var r := ReadFile(Magic(STATE_MAGIC), STATE_ABI, ReadEntry, s);
    if r.None? then None else Some(r.value.0)
  }

  predicate StateTexts(entries: seq<StateEntry>) {
    IsWord(|entries|) && forall i :: 0 <= i < |entries| ==> AllTexts(FieldsOf(entries[i]))
  }

  predicate AllLoadable(entries: seq<StateEntry>) {
    |entries| <= MAX_ENTRIES && AllAccepted(Loadable, entries)
  }

  /** What the loader takes, field by field: no string over 16 MiB, digests under 32 bytes, and id, key, output and status said;
      at most ten million entries. */
  lemma LoadableAre(entries: seq<StateEntry>)
    ensures AllLoadable(entries) <==>
              && |entries| <= 10_000_000
              && forall i :: 0 <= i < |entries| ==>
                   var e, m := entries[i], entries[i].material;
                   && 0 < |e.id| <= 0x100_0000 && 0 < |e.key| <= 0x100_0000 && 0 < |e.output| <= 0x100_0000
                   && 0 < |e.status| <= 0x100_0000 && |e.kind| <= 0x100_0000
                   && |m.argv| < 32 && |m.env| < 32 && |m.input| < 32 && |m.depfile| < 32
                   && |m.toolPolicy| < 32 && |m.output| < 32 && |m.external| < 32
  {
    forall i | 0 <= i < |entries|
      ensures Loadable(entries[i]) <==>
                var e, m := entries[i], entries[i].material;
                && 0 < |e.id| <= 0x100_0000 && 0 < |e.key| <= 0x100_0000 && 0 < |e.output| <= 0x100_0000
                && 0 < |e.status| <= 0x100_0000 && |e.kind| <= 0x100_0000
                && |m.argv| < 32 && |m.env| < 32 && |m.input| < 32 && |m.depfile| < 32
                && |m.toolPolicy| < 32 && |m.output| < 32 && |m.external| < 32
    {
      FieldsWithinCap(entries[i]);
    }
    hide Loadable;
  }

  lemma FieldsWithinCap(e: StateEntry)
    ensures AllWithinCap(FieldsOf(e)) <==>
              && |e.id| <= MAX_STRING && |e.key| <= MAX_STRING && |e.output| <= MAX_STRING && |e.status| <= MAX_STRING && |e.kind| <= MAX_STRING
              && |e.material.argv| <= MAX_STRING && |e.material.env| <= MAX_STRING && |e.material.input| <= MAX_STRING
              && |e.material.depfile| <= MAX_STRING && |e.material.toolPolicy| <= MAX_STRING
              && |e.material.output| <= MAX_STRING && |e.material.external| <= MAX_STRING
  {
    var f := FieldsOf(e);
    assert f[0] == e.id && f[1] == e.key && f[2] == e.output && f[3] == e.status && f[4] == e.kind;
    assert f[5] == e.material.argv && f[6] == e.material.env && f[7] == e.material.input && f[8] == e.material.depfile;
    assert f[9] == e.material.toolPolicy && f[10] == e.material.output && f[11] == e.material.external;
  }

  lemma SmallWords()
    ensures IsWord(STATE_ABI) && IsWord(DEPS_ABI) && IsWord(MAX_ENTRIES) && IsWord(MAX_STRING)
  {
    WordRange();
  }

  /** The state file loads back to its entries; when an entry or their number is out of range it is refused whole. */
  lemma StateLoadsBack(entries: seq<StateEntry>)
    requires StateTexts(entries)
    ensures LoadState(StateFile(entries)) == if AllLoadable(entries) then Some(entries) else None
  {
    hide IsWord, AllTexts, ReadFile, FileBytes, Magic, ReadEntry, EntryBytes, Loadable;
    SmallWords();
    forall i, tail | 0 <= i < |entries| ensures ReadsBackAt(ReadEntry, EntryBytes, Loadable, entries[i], tail) {
      EntryReadsBack(entries[i], tail);
    }
    FileReadsBack(Magic(STATE_MAGIC), STATE_ABI, ReadEntry, EntryBytes, Loadable, entries);
  }

  /** A state file cut short anywhere loads nothing. */
  lemma CutStateIsRefused(entries: seq<StateEntry>, n: nat)
    requires StateTexts(entries) && AllLoadable(entries) && n < |StateFile(entries)|
    ensures LoadState(StateFile(entries)[..n]) == None
  {
    hide IsWord, AllTexts, ReadFile, FileBytes, Magic, ReadEntry, EntryBytes, Loadable;
    SmallWords();
    forall i, tail | 0 <= i < |entries| ensures ReadsBackAt(ReadEntry, EntryBytes, Loadable, entries[i], tail) {
      EntryReadsBack(entries[i], tail);
    }
    FileReadsBack(Magic(STATE_MAGIC), STATE_ABI, ReadEntry, EntryBytes, Loadable, entries);
    EntriesAreLocal();
    PrefixIsRefused(Magic(STATE_MAGIC), STATE_ABI, ReadEntry, StateFile(entries), n);
  }

  // ---- depfile contents ------------------------------------------------------------------------

  function DepBytes(e: DepEntry): seq<Byte> {
    TextBytes(e.depfile) + (WordBytes(e.size) + (WordBytes(e.mtime) + (TextBytes(e.digest)
      + (WordBytes(|e.inputs|) + TextsBytes(e.inputs)))))
  }

  /** `relative` is the package-relative path test. */
  function ReadDep(relative: Text -> bool, s: seq<Byte>): Parsed<DepEntry> {
    var depfile := ReadText(s);
    if depfile.None? then None else
    var size := ReadWord(depfile.value.1);
    if size.None? then None else
    var mtime := ReadWord(size.value.1);
    if mtime.None? then None else
    var digest := ReadText(mtime.value.1);
    if digest.None? then None else
    var count := ReadWord(digest.value.1);
    if count.None? || count.value.0 > MAX_INPUTS || depfile.value.0 == [] || |digest.value.0| >= DIGEST_SIZE then None else
    var inputs := ReadTexts(count.value.0, count.value.1);
    if inputs.None? || !AllRelative(relative, inputs.value.0) then None
    else Some((DepEntry(depfile.value.0, size.value.0, mtime.value.0, digest.value.0, inputs.value.0), inputs.value.1))
  }

  predicate AllRelative(relative: Text -> bool, inputs: seq<Text>) {
    forall i :: 0 <= i < |inputs| ==> relative(inputs[i])
  }

  predicate DepLoadable(relative: Text -> bool, e: DepEntry) {
    && e.depfile != [] && |e.depfile| <= MAX_STRING && |e.digest| < DIGEST_SIZE
    && |e.inputs| <= MAX_INPUTS && AllWithinCap(e.inputs) && AllRelative(relative, e.inputs)
  }

  predicate DepTexts(e: DepEntry) {
    && AllTexts([e.depfile, e.digest]) && AllTexts(e.inputs)
    && IsWord(e.size) && IsWord(e.mtime) && IsWord(|e.inputs|)
  }

  lemma DepReadsBack(relative: Text -> bool, e: DepEntry, rest: seq<Byte>)
    requires DepTexts(e)
    ensures ReadDep(relative, DepBytes(e) + rest) == if DepLoadable(relative, e) then Some((e, rest)) else None
  {
    hide ReadText, ReadWord, ReadTexts, TextBytes, TextsBytes, IsWord;
    var pair := [e.depfile, e.digest];
    assert 0 !in pair[0] && IsWord(|pair[0]|) && 0 !in pair[1] && IsWord(|pair[1]|);
    var t5 := TextsBytes(e.inputs) + rest;
    var t4 := WordBytes(|e.inputs|) + t5;
    var t3 := TextBytes(e.digest) + t4;
    var t2 := WordBytes(e.mtime) + t3;
    var t1 := WordBytes(e.size) + t2;
    assert DepBytes(e) + rest == TextBytes(e.depfile) + t1;
    TextReadsBack(e.depfile, t1);
    WordReadsBack(e.size, t2);
    WordReadsBack(e.mtime, t3);
    TextReadsBack(e.digest, t4);
    WordReadsBack(|e.inputs|, t5);
    TextsReadBack(e.inputs, rest);
  }

  lemma DepExtends(relative: Text -> bool, s: seq<Byte>, more: seq<Byte>)
    requires ReadDep(relative, s).Some?
    ensures ReadDep(relative, s + more) == Some((ReadDep(relative, s).value.0, ReadDep(relative, s).value.1 + more))
  {
    hide ReadText, ReadWord, ReadTexts;
    TextExtends(s, more);
    var s1 := ReadText(s).value.1;
    WordExtends(s1, more);
    var s2 := ReadWord(s1).value.1;
    WordExtends(s2, more);
    var s3 := ReadWord(s2).value.1;
    TextExtends(s3, more);
    var s4 := ReadText(s3).value.1;
    WordExtends(s4, more);
    TextsExtend(ReadWord(s4).value.0, ReadWord(s4).value.1, more);
  }

  function DepsFile(entries: seq<DepEntry>): seq<Byte> {
    FileBytes(Magic(DEPS_MAGIC), DEPS_ABI, DepBytes, entries)
  }

  function LoadDeps(relative: Text -> bool, s: seq<Byte>): Option<seq<DepEntry>> {
    var r := ReadFile(Magic(DEPS_MAGIC), DEPS_ABI, x => ReadDep(relative, x), s);
    if r.None? then None else Some(r.value.0)
  }

  predicate DepsTexts(entries: seq<DepEntry>) {
    IsWord(|entries|) && forall i :: 0 <= i < |entries| ==> DepTexts(entries[i])
  }

  predicate AllDepsLoadable(relative: Text -> bool, entries: seq<DepEntry>) {
    |entries| <= MAX_ENTRIES && AllAccepted(e => DepLoadable(relative, e), entries)
  }

  /** What the loader takes: a depfile's name, a digest under 32 bytes, at most a million package-relative inputs, no string over
      16 MiB; at most ten million records. */
  lemma DepsLoadableAre(relative: Text -> bool, entries: seq<DepEntry>)
    ensures AllDepsLoadable(relative, entries) <==>
              && |entries| <= 10_000_000
              && forall i :: 0 <= i < |entries| ==>
                   && 0 < |entries[i].depfile| <= 0x100_0000 && |entries[i].digest| < 32 && |entries[i].inputs| <= 1_000_000
                   && forall j :: 0 <= j < |entries[i].inputs| ==> |entries[i].inputs[j]| <= 0x100_0000 && relative(entries[i].inputs[j])
  {
    forall i | 0 <= i < |entries|
      ensures DepLoadable(relative, entries[i]) <==>
                && 0 < |entries[i].depfile| <= 0x100_0000 && |entries[i].digest| < 32 && |entries[i].inputs| <= 1_000_000
                && forall j :: 0 <= j < |entries[i].inputs| ==> |entries[i].inputs[j]| <= 0x100_0000 && relative(entries[i].inputs[j])
    {}
    hide DepLoadable;
  }

  /** An identifier's bytes are its characters, and one zero. */
  lemma {:induction false} MagicIs(name: string)
    ensures |Magic(name)| == |name| + 1 && Magic(name)[|name|] == 0
    ensures forall i: nat :: i < |name| ==> Magic(name)[i] == name[i] as int % 256
  {
    if name != [] {
      MagicIs(name[1..]);
      assert forall i: nat :: 0 < i < |name| ==> name[i] == name[1..][i - 1];
    }
  }

  /** No file is taken for both. */
  lemma EachItsOwn(relative: Text -> bool, s: seq<Byte>)
    ensures LoadState(s).Some? ==> LoadDeps(relative, s).None?
  {
    hide Magic, ReadMany, ReadWord;
    MagicIs(STATE_MAGIC);
    MagicIs(DEPS_MAGIC);
    var i := 13;
    assert STATE_MAGIC[i] == 's' && DEPS_MAGIC[i] == 'd';
    assert Magic(STATE_MAGIC)[i] != Magic(DEPS_MAGIC)[i];
  }

  /** A file of another version is refused whole. */
  lemma VersionCounts<T>(magic: seq<Byte>, abi: nat, version: nat, one: Reader<T>, bytes: T -> seq<Byte>, records: seq<T>)
    requires IsWord(version) && version != abi
    ensures ReadFile(magic, abi, one, FileBytes(magic, version, bytes, records)) == None
  {
    hide ReadMany, ReadWord, IsWord;
    var rest := WordBytes(|records|) + ManyBytes(bytes, records);
    var s := FileBytes(magic, version, bytes, records);
    assert s[|magic|..] == WordBytes(version) + rest;
    WordReadsBack(version, rest);
  }

  /** The same for the depfile contents: they load back, or are refused whole, and a cut file loads nothing. */
  lemma DepsLoadBack(relative: Text -> bool, entries: seq<DepEntry>)
    requires DepsTexts(entries)
    ensures LoadDeps(relative, DepsFile(entries)) == if AllDepsLoadable(relative, entries) then Some(entries) else None
    ensures AllDepsLoadable(relative, entries) ==>
              forall n: nat :: n < |DepsFile(entries)| ==> LoadDeps(relative, DepsFile(entries)[..n]) == None
  {
    hide IsWord, DepTexts, ReadFile, FileBytes, Magic, ReadDep, DepBytes, DepLoadable;
    SmallWords();
    var one: Reader<DepEntry> := x => ReadDep(relative, x);
    var accepts := (e: DepEntry) => DepLoadable(relative, e);
    forall i, tail | 0 <= i < |entries| ensures ReadsBackAt(one, DepBytes, accepts, entries[i], tail) {
      DepReadsBack(relative, entries[i], tail);
    }
    FileReadsBack(Magic(DEPS_MAGIC), DEPS_ABI, one, DepBytes, accepts, entries);
    forall s, more ensures ExtendsAt(one, s, more) {
      if one(s).Some? { DepExtends(relative, s, more); }
    }
    if AllDepsLoadable(relative, entries) {
      forall n: nat | n < |DepsFile(entries)| ensures LoadDeps(relative, DepsFile(entries)[..n]) == None {
        PrefixIsRefused(Magic(DEPS_MAGIC), DEPS_ABI, one, DepsFile(entries), n);
      }
    }
  }

  // ---- saving and loading in place -----------------------------------------------------------------

  function Prepend<T>(front: seq<T>, r: Parsed<seq<T>>): Parsed<seq<T>> {
    if r.None? then None else Some((front + r.value.0, r.value.1))
  }

  lemma TextsNext(n: nat, s: seq<Byte>, front: seq<Text>)
    requires n > 0
    ensures ReadText(s).None? ==> ReadTexts(n, s).None?
    ensures ReadText(s).Some? ==>
              Prepend(front, ReadTexts(n, s)) == Prepend(front + [ReadText(s).value.0], ReadTexts(n - 1, ReadText(s).value.1))
  {
    if ReadText(s).Some? && ReadTexts(n - 1, ReadText(s).value.1).Some? {
      var more := ReadTexts(n - 1, ReadText(s).value.1).value.0;
      assert front + ([ReadText(s).value.0] + more) == (front + [ReadText(s).value.0]) + more;
    }
  }

  lemma ManyNext<T(!new)>(one: Reader<T>, n: nat, s: seq<Byte>, front: seq<T>)
    requires n > 0
    ensures one(s).None? ==> ReadMany(one, n, s).None?
    ensures one(s).Some? ==>
              Prepend(front, ReadMany(one, n, s)) == Prepend(front + [one(s).value.0], ReadMany(one, n - 1, one(s).value.1))
  {
    if one(s).Some? && ReadMany(one, n - 1, one(s).value.1).Some? {
      var more := ReadMany(one, n - 1, one(s).value.1).value.0;
      assert front + ([one(s).value.0] + more) == (front + [one(s).value.0]) + more;
    }
  }

  /** Reads one action state field by field, stopping at the first that is out of range. */
  method NextEntry(f: FileReader) returns (ok: bool, e: StateEntry)
    requires f.Valid()
    modifies f
    ensures f.Valid() && ok == ReadEntry(old(f.Left())).Some?
    ensures ok ==> ReadEntry(old(f.Left())) == Some((e, f.Left()))
  {
    hide ReadText, ReadTexts;
    var fields: seq<Text> := [];
    ghost var s := f.Left();
    e := EntryOf([[], [], [], [], [], [], [], [], [], [], [], []]);
    assert Prepend([], ReadTexts(12, s)) == ReadTexts(12, s) by { PrependNothing(ReadTexts(12, s)); }
    for k := 0 to 12
      invariant f.Valid() && |fields| == k
      invariant ReadTexts(12, s) == Prepend(fields, ReadTexts(12 - k, f.Left()))
      invariant forall j :: 5 <= j < k ==> |fields[j]| < DIGEST_SIZE
    {
      TextsNext(12 - k, f.Left(), fields);
      var value;
      ok, value := f.NextText();
      if !ok {
        return;
      }
      fields := fields + [value];
      if k >= 5 && |value| >= DIGEST_SIZE {
        ok := false;
        LongDigest(s, fields, k);
        return;
      }
    }
    NoneLeft(s, fields, f.Left());
    e := EntryOf(fields);
    ok := |e.id| > 0 && |e.key| > 0 && |e.output| > 0 && |e.status| > 0;
  }

  lemma PrependNothing<T>(r: Parsed<seq<T>>)
    ensures Prepend([], r) == r
  {
    if r.Some? {
      assert [] + r.value.0 == r.value.0;
    }
  }

  lemma NoneLeft(s: seq<Byte>, fields: seq<Text>, left: seq<Byte>)
    requires ReadTexts(12, s) == Prepend(fields, ReadTexts(0, left))
    ensures ReadTexts(12, s) == Some((fields, left))
  {
    assert fields + [] == fields;
  }

  lemma LongDigest(s: seq<Byte>, fields: seq<Text>, k: nat)
    requires 5 <= k < 12 && |fields| == k + 1 && |fields[k]| >= DIGEST_SIZE
    requires ReadTexts(12, s).Some? ==> fields <= ReadTexts(12, s).value.0
    ensures ReadEntry(s).None?
  {
    hide ReadTexts;
    if ReadTexts(12, s).Some? {
      assert ReadTexts(12, s).value.0[k] == fields[k];
    }
  }

  /** Loads all entries or none. */
  method LoadStateDb(bytes: seq<Byte>) returns (loaded: bool, prev: seq<StateEntry>)
    ensures loaded == LoadState(bytes).Some?
    ensures prev == if loaded then LoadState(bytes).value else []
  {
    hide ReadEntry, ReadMany, ReadHeader, Magic;
    var f := new FileReader(bytes);
    var ok, count := NextHeader(f, Magic(STATE_MAGIC), STATE_ABI);
    prev := [];
    if !ok {
      return false, [];
    }
    ghost var body := f.Left();
    PrependNothing(ReadMany(ReadEntry, count, body));
    for i := 0 to count
      invariant fresh(f) && f.Valid()
      invariant ReadMany(ReadEntry, count, body) == Prepend(prev, ReadMany(ReadEntry, count - i, f.Left()))
    {
      ManyNext(ReadEntry, count - i, f.Left(), prev);
      var e;
      ok, e := NextEntry(f);
      if !ok {
        return false, [];
      }
      prev := prev + [e];
    }
    AllRead(ReadEntry, f.Left(), prev);
    loaded := true;
  }

  lemma AllRead<T(!new)>(one: Reader<T>, left: seq<Byte>, records: seq<T>)
    ensures Prepend(records, ReadMany(one, 0, left)) == Some((records, left))
  {
    assert records + [] == records;
  }

  method NextHeader(f: FileReader, magic: seq<Byte>, abi: nat) returns (ok: bool, count: nat)
    requires f.Valid()
    modifies f
    ensures f.Valid() && ok == ReadHeader(magic, abi, old(f.Left())).Some?
    ensures ok ==> ReadHeader(magic, abi, old(f.Left())) == Some((count, f.Left()))
  {
    hide ReadWord;
    var raw, version;
    count := 0;
    ok, raw := f.Take(|magic|);
    if !ok || raw != magic {
      return false, 0;
    }
    ok, version := f.NextWord();
    if !ok || version != abi {
      return false, 0;
    }
    ok, count := f.NextWord();
    if ok && count > MAX_ENTRIES {
      ok := false;
    }
  }

  method PutEntries(f: FileWriter, entries: seq<StateEntry>)
    modifies f
    ensures f.bytes == old(f.bytes) + ManyBytes(EntryBytes, entries)
  {
    hide ManyBytes, EntryBytes;
    ghost var head := f.bytes;
    assert entries[..0] == [];
    NoBytes(EntryBytes);
    for i := 0 to |entries|
      invariant f.bytes == head + ManyBytes(EntryBytes, entries[..i])
    {
      ManyBytesGrow(EntryBytes, entries[..i], entries[i]);
      assert entries[..i + 1] == entries[..i] + [entries[i]];
      PutEntry(f, entries[i]);
    }
    assert entries[..|entries|] == entries;
  }

  lemma NoBytes<T(!new)>(bytes: T -> seq<Byte>)
    ensures ManyBytes(bytes, []) == []
  {
  }

  /** Writes all entries; the file replaces the old one only when complete. */
  method SaveStateDb(entries: seq<StateEntry>) returns (bytes: seq<Byte>)
    ensures bytes == StateFile(entries)
  {
    hide Magic, EntryBytes, ManyBytes;
    var f := new FileWriter();
    f.bytes := Magic(STATE_MAGIC);
    f.PutWord(STATE_ABI);
    f.PutWord(|entries|);
    PutEntries(f, entries);
    bytes := f.bytes;
    Regroup(Magic(STATE_MAGIC), WordBytes(STATE_ABI), WordBytes(|entries|), ManyBytes(EntryBytes, entries));
  }

  lemma Regroup(a: seq<Byte>, b: seq<Byte>, c: seq<Byte>, d: seq<Byte>)
    ensures a + b + c + d == a + (b + (c + d))
  {
  }

  lemma {:induction false} ManyBytesGrow<T(!new)>(bytes: T -> seq<Byte>, records: seq<T>, record: T)
    ensures ManyBytes(bytes, records + [record]) == ManyBytes(bytes, records) + bytes(record)
    decreases |records|
  {
    if records == [] {
      assert records + [record] == [record];
      assert [record][1..] == [];
    } else {
      ManyBytesGrow(bytes, records[1..], record);
      assert (records + [record])[1..] == records[1..] + [record];
      Regroup2(bytes(records[0]), ManyBytes(bytes, records[1..]), bytes(record));
    }
  }

  lemma Regroup2(a: seq<Byte>, b: seq<Byte>, c: seq<Byte>)
    ensures a + (b + c) == (a + b) + c
  {
  }

  method PutEntry(f: FileWriter, e: StateEntry)
    modifies f
    ensures f.bytes == old(f.bytes) + EntryBytes(e)
  {
    hide TextBytes;
    var fields := FieldsOf(e);
    ghost var start := f.bytes;
    assert start + TextsBytes(fields[..0]) == start;
    for k := 0 to 12
      invariant f.bytes == start + TextsBytes(fields[..k])
    {
      TextsBytesGrow(fields[..k], fields[k]);
      assert fields[..k + 1] == fields[..k] + [fields[k]];
      f.PutText(fields[k]);
    }
    assert fields[..12] == fields;
  }

  lemma {:induction false} TextsBytesGrow(texts: seq<Text>, t: Text)
    ensures TextsBytes(texts + [t]) == TextsBytes(texts) + TextBytes(t)
    decreases |texts|
  {
    if texts == [] {
      assert texts + [t] == [t];
      assert [t][1..] == [];
      assert TextBytes(t) + [] == TextBytes(t);
    } else {
      TextsBytesGrow(texts[1..], t);
      assert (texts + [t])[1..] == texts[1..] + [t];
      Regroup2(TextBytes(texts[0]), TextsBytes(texts[1..]), TextBytes(t));
    }
  }

  /** Reads the inputs one depfile named, stopping at one that is not package relative. */
  method NextInputs(relative: Text -> bool, f: FileReader, count: nat) returns (ok: bool, inputs: seq<Text>)
    requires f.Valid()
    modifies f
    ensures f.Valid()
    ensures ok == (ReadTexts(count, old(f.Left())).Some? && AllRelative(relative, ReadTexts(count, old(f.Left())).value.0))
    ensures ok ==> ReadTexts(count, old(f.Left())) == Some((inputs, f.Left()))
  {
    hide ReadText, ReadTexts;
    ghost var s := f.Left();
    inputs := [];
    PrependNothing(ReadTexts(count, s));
    for k := 0 to count
      invariant f.Valid() && |inputs| == k
      invariant ReadTexts(count, s) == Prepend(inputs, ReadTexts(count - k, f.Left()))
      invariant AllRelative(relative, inputs)
    {
      TextsNext(count - k, f.Left(), inputs);
      var input;
      ok, input := f.NextText();
      if !ok {
        return;
      }
      inputs := inputs + [input];
      if !relative(input) {
        ok := false;
        if ReadTexts(count, s).Some? {
          assert ReadTexts(count, s).value.0[k] == input;
        }
        return;
      }
    }
    AllTextsRead(f.Left(), inputs);
    ok := true;
  }

  lemma AllTextsRead(left: seq<Byte>, texts: seq<Text>)
    ensures Prepend(texts, ReadTexts(0, left)) == Some((texts, left))
  {
    assert texts + [] == texts;
  }

  method NextDep(relative: Text -> bool, f: FileReader) returns (ok: bool, e: DepEntry)
    requires f.Valid()
    modifies f
    ensures f.Valid() && ok == ReadDep(relative, old(f.Left())).Some?
    ensures ok ==> ReadDep(relative, old(f.Left())) == Some((e, f.Left()))
  {
    hide ReadText, ReadTexts, ReadWord;
    var depfile, size, mtime, digest, count, inputs;
    e := DepEntry([], 0, 0, [], []);
    ok, depfile := f.NextText();
    if !ok { return; }
    ok, size := f.NextWord();
    if !ok { return; }
    ok, mtime := f.NextWord();
    if !ok { return; }
    ok, digest := f.NextText();
    if !ok { return; }
    ok, count := f.NextWord();
    if !ok { return; }
    if count > MAX_INPUTS || |depfile| == 0 || |digest| >= DIGEST_SIZE {
      ok := false;
      return;
    }
    ok, inputs := NextInputs(relative, f, count);
    if ok {
      e := DepEntry(depfile, size, mtime, digest, inputs);
    }
  }

  method LoadDepsDb(relative: Text -> bool, bytes: seq<Byte>) returns (loaded: bool, prev: seq<DepEntry>)
    ensures loaded == LoadDeps(relative, bytes).Some?
    ensures prev == if loaded then LoadDeps(relative, bytes).value else []
  {
    hide ReadDep, ReadMany, ReadHeader, Magic;
    ghost var one: Reader<DepEntry> := x => ReadDep(relative, x);
    var f := new FileReader(bytes);
    var ok, count := NextHeader(f, Magic(DEPS_MAGIC), DEPS_ABI);
    prev := [];
    if !ok {
      return false, [];
    }
    ghost var body := f.Left();
    PrependNothing(ReadMany(one, count, body));
    for i := 0 to count
      invariant fresh(f) && f.Valid()
      invariant ReadMany(one, count, body) == Prepend(prev, ReadMany(one, count - i, f.Left()))
    {
      ManyNext(one, count - i, f.Left(), prev);
      var e;
      ok, e := NextDep(relative, f);
      if !ok {
        return false, [];
      }
      prev := prev + [e];
    }
    AllRead(one, f.Left(), prev);
    loaded := true;
  }
}
