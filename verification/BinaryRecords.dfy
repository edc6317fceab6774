/** Words and length-prefixed strings in a binary file. */
module BinaryRecords {
  import opened Wrappers

  type Byte = b: int | 0 <= b < 256 witness 0

  /** A C string's bytes; none is zero. */
  type Text = seq<Byte>

  const MAX_STRING: nat := 16 * 1024 * 1024
  const WORD: nat := 8

  /** A value and what is left of the file. */
  type Parsed<T> = Option<(T, seq<Byte>)>

  function Power(k: nat): (r: nat)
    ensures r > 0
  {
    if k == 0 then 1 else 256 * Power(k - 1)
  }

  /** The `k` low bytes of `n`, lowest first. */
  function Digits(n: nat, k: nat): (r: seq<Byte>)
    ensures |r| == k
  {
    if k == 0 then [] else [n % 256] + Digits(n / 256, k - 1)
  }

  function Value(s: seq<Byte>): (n: nat)
    ensures n < Power(|s|)
  {
    if s == [] then 0 else s[0] + 256 * Value(s[1..])
  }

  lemma {:induction false} DigitsHaveValue(n: nat, k: nat)
    requires n < Power(k)
    ensures Value(Digits(n, k)) == n
  {
    if k > 0 {
      assert n / 256 < Power(k - 1);
      DigitsHaveValue(n / 256, k - 1);
      assert Digits(n, k)[1..] == Digits(n / 256, k - 1);
    }
  }

  function WordBytes(n: nat): (r: seq<Byte>)
    ensures |r| == WORD
  {
    Digits(n, WORD)
  }

  predicate IsWord(n: nat) {
    n < Power(WORD)
  }

  lemma WordRange()
    ensures Power(WORD) == 0x1_0000_0000_0000_0000
  {
    assert Power(2) == 0x1_0000;
    assert Power(4) == 0x1_0000_0000;
    assert Power(6) == 0x1_0000_0000_0000;
    assert Power(8) == 0x1_0000_0000_0000_0000;
  }

  function ReadWord(s: seq<Byte>): Parsed<nat> {
    if |s| < WORD then None else Some((Value(s[..WORD]), s[WORD..]))
  }

  /** A C string stops at its first zero byte. */
  function CString(s: seq<Byte>): (r: Text)
    ensures 0 !in r && |r| <= |s|
    ensures 0 !in s ==> r == s
  {
    if s == [] || s[0] == 0 then [] else [s[0]] + CString(s[1..])
  }

  function TextBytes(t: Text): seq<Byte> {
    WordBytes(|t|) + t
  }

  function ReadText(s: seq<Byte>): Parsed<Text> {
    var len := ReadWord(s);
    if len.None? || len.value.0 > MAX_STRING || |len.value.1| < len.value.0 then None
    else Some((CString(len.value.1[..len.value.0]), len.value.1[len.value.0..]))
  }

  lemma WordReadsBack(n: nat, rest: seq<Byte>)
    requires IsWord(n)
    ensures ReadWord(WordBytes(n) + rest) == Some((n, rest))
  {
    var s := WordBytes(n) + rest;
    DigitsHaveValue(n, WORD);
    assert s[..WORD] == WordBytes(n) && s[WORD..] == rest;
  }

  /** A string reads back exactly when it is within the cap. */
  lemma TextReadsBack(t: Text, rest: seq<Byte>)
    requires 0 !in t && IsWord(|t|)
    ensures ReadText(TextBytes(t) + rest) == if |t| <= MAX_STRING then Some((t, rest)) else None
  {
    assert TextBytes(t) + rest == WordBytes(|t|) + (t + rest);
    WordReadsBack(|t|, t + rest);
    assert (t + rest)[..|t|] == t && (t + rest)[|t|..] == rest;
  }

  // ---- reading more of a file -----------------------------------------------------------

  lemma WordExtends(s: seq<Byte>, more: seq<Byte>)
    requires ReadWord(s).Some?
    ensures ReadWord(s + more) == Some((ReadWord(s).value.0, ReadWord(s).value.1 + more))
  {
    assert (s + more)[..WORD] == s[..WORD] && (s + more)[WORD..] == s[WORD..] + more;
  }

  lemma TextExtends(s: seq<Byte>, more: seq<Byte>)
    requires ReadText(s).Some?
    ensures ReadText(s + more) == Some((ReadText(s).value.0, ReadText(s).value.1 + more))
  {
    WordExtends(s, more);
    var n, rest := ReadWord(s).value.0, ReadWord(s).value.1;
    assert (rest + more)[..n] == rest[..n] && (rest + more)[n..] == rest[n..] + more;
  }

  // ---- runs of strings --------------------------------------------------------------------

  function TextsBytes(texts: seq<Text>): seq<Byte> {
    if texts == [] then [] else TextBytes(texts[0]) + TextsBytes(texts[1..])
  }

  function ReadTexts(n: nat, s: seq<Byte>): (r: Parsed<seq<Text>>)
    ensures r.Some? ==> |r.value.0| == n
  {
    if n == 0 then Some(([], s))
    else
      var first := ReadText(s);
      if first.None? then None
      else
        var more := ReadTexts(n - 1, first.value.1);
        if more.None? then None else Some(([first.value.0] + more.value.0, more.value.1))
  }

  predicate AllWithinCap(texts: seq<Text>) {
    forall i :: 0 <= i < |texts| ==> |texts[i]| <= MAX_STRING
  }

  predicate AllTexts(texts: seq<Text>) {
    forall i :: 0 <= i < |texts| ==> 0 !in texts[i] && IsWord(|texts[i]|)
  }

  lemma CapSplits(texts: seq<Text>)
    requires texts != []
    ensures AllWithinCap(texts) <==> |texts[0]| <= MAX_STRING && AllWithinCap(texts[1..])
    ensures AllTexts(texts) <==> 0 !in texts[0] && IsWord(|texts[0]|) && AllTexts(texts[1..])
  {
    hide IsWord;
    assert forall i :: 0 < i < |texts| ==> texts[i] == texts[1..][i - 1];
    assert forall i :: 0 <= i < |texts| - 1 ==> texts[1..][i] == texts[i + 1];
  }

  lemma {:induction false} TextsReadBack(texts: seq<Text>, rest: seq<Byte>)
    requires AllTexts(texts)
    ensures ReadTexts(|texts|, TextsBytes(texts) + rest) == if AllWithinCap(texts) then Some((texts, rest)) else None
    decreases |texts|
  {
    hide ReadText, TextBytes, AllWithinCap, AllTexts, IsWord;
    if texts == [] {
      assert TextsBytes(texts) + rest == rest;
      assert AllWithinCap(texts) by { CapOfNone(texts); }
    } else {
      CapSplits(texts);
      var more := TextsBytes(texts[1..]) + rest;
      TextReadsBack(texts[0], more);
      assert TextsBytes(texts) + rest == TextBytes(texts[0]) + more;
      TextsReadBack(texts[1..], rest);
      assert [texts[0]] + texts[1..] == texts;
    }
  }

  lemma CapOfNone(texts: seq<Text>)
    requires texts == []
    ensures AllWithinCap(texts)
  {
  }

  lemma {:induction false} TextsExtend(n: nat, s: seq<Byte>, more: seq<Byte>)
    requires ReadTexts(n, s).Some?
    ensures ReadTexts(n, s + more) == Some((ReadTexts(n, s).value.0, ReadTexts(n, s).value.1 + more))
  {
    if n > 0 {
      TextExtends(s, more);
      TextsExtend(n - 1, ReadText(s).value.1, more);
    }
  }

  // ---- a file read in place -----------------------------------------------------------------

  class FileReader {
    const bytes: seq<Byte>
    var pos: nat

    ghost predicate Valid()
      reads this
    {
      pos <= |bytes|
    }

    ghost function Left(): seq<Byte>
      reads this
      requires Valid()
    {
      bytes[pos..]
    }

    constructor (bytes: seq<Byte>)
      ensures Valid() && this.bytes == bytes && Left() == bytes
    {
      this.bytes, pos := bytes, 0;
    }

    /** `fread` of `n` bytes: all of them or a failure. */
    method Take(n: nat) returns (ok: bool, r: seq<Byte>)
      requires Valid()
      modifies this
      ensures Valid() && ok == (|old(Left())| >= n)
      ensures ok ==> r == old(Left())[..n] && Left() == old(Left())[n..]
    {
      ok, r := pos + n <= |bytes|, [];
      if ok {
        r := bytes[pos..pos + n];
        pos := pos + n;
      }
    }

    method NextWord() returns (ok: bool, value: nat)
      requires Valid()
      modifies this
      ensures Valid() && ok == ReadWord(old(Left())).Some?
      ensures ok ==> ReadWord(old(Left())) == Some((value, Left()))
    {
      var raw;
      value := 0;
      ok, raw := Take(WORD);
      if ok {
        var i := |raw|;
        assert raw[i..] == [];
        while i > 0
          invariant i <= |raw| && value == Value(raw[i..])
        {
          i := i - 1;
          assert raw[i..][0] == raw[i] && raw[i..][1..] == raw[i + 1..];
          value := raw[i] + 256 * value;
        }
      }
    }

    method NextText() returns (ok: bool, value: Text)
      requires Valid()
      modifies this
      ensures Valid() && ok == ReadText(old(Left())).Some?
      ensures ok ==> ReadText(old(Left())) == Some((value, Left()))
    {
      hide ReadWord;
      var len, raw;
      value := [];
      ok, len := NextWord();
      if !ok { return; }
      if len > MAX_STRING {
        ok := false;
        return;
      }
      ok, raw := Take(len);
      if ok {
        value := CString(raw);
      }
    }
  }

  class FileWriter {
    var bytes: seq<Byte>

    constructor ()
      ensures bytes == []
    {
      bytes := [];
    }

    method PutWord(n: nat)
      modifies this
      ensures bytes == old(bytes) + WordBytes(n)
    {
      var left, i := n, 0;
      ghost var start := bytes;
      while i < WORD
        invariant 0 <= i <= WORD && |bytes| == |start| + i
        invariant bytes + Digits(left, WORD - i) == start + WordBytes(n)
      {
        assert bytes + Digits(left, WORD - i) == bytes + [left % 256] + Digits(left / 256, WORD - i - 1);
        bytes := bytes + [left % 256];
        left, i := left / 256, i + 1;
      }
      assert bytes + [] == bytes;
    }

    method PutText(t: Text)
      modifies this
      ensures bytes == old(bytes) + TextBytes(t)
    {
      PutWord(|t|);
      if |t| > 0 {
        bytes := bytes + t;
      }
    }
  }
}
