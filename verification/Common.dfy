/** Value types shared by the modules of this project. */
module Common {

  /** The conventional optional value, used where the source has a nil pointer. */
  datatype Option<+T> = None | Some(value: T)

  type Byte = b: int | 0 <= b < 256

  const TWO_16: int := 0x1_0000
  const TWO_32: int := 0x1_0000_0000
  const TWO_64: int := 0x1_0000_0000_0000_0000

  function Min(a: int, b: int): int { if a < b then a else b }

  function Max(a: int, b: int): int { if a < b then b else a }

  /** The last `n` elements of `s`, or all of `s` when it is shorter. */
  function LastN<T>(s: seq<T>, n: nat): (r: seq<T>)
    ensures |r| == if |s| < n then |s| else n
  {
    if |s| <= n then s else s[|s| - n..]
  }

  /** `n` as two bytes, most significant first (binary.BigEndian.PutUint16). */
  function BE16(n: nat): (r: seq<Byte>)
    requires n < TWO_16
    ensures |r| == 2
  {
    [n / 256, n % 256]
  }

  function FromBE16(s: seq<Byte>): (r: nat)
    requires |s| == 2
    ensures r < TWO_16
  {
    s[0] as int * 256 + s[1] as int
  }

  lemma Be16RoundTrip(n: nat)
    requires n < TWO_16
    ensures FromBE16(BE16(n)) == n
  {
  }

  /** `n` as four bytes, most significant first (binary.BigEndian.PutUint32). */
  function BE32(n: nat): (r: seq<Byte>)
    requires n < TWO_32
    ensures |r| == 4
  {
    [n / 0x100_0000, n / 0x1_0000 % 256, n / 256 % 256, n % 256]
  }

  function FromBE32(s: seq<Byte>): (r: nat)
    requires |s| == 4
    ensures r < TWO_32
  {
    FromBE16(s[..2]) * TWO_16 + FromBE16(s[2..])
  }
}

/** Writing into byte buffers in place. */
module Buffers {
  import opened Common

  /** `s` with the bytes from `at` on replaced by `t`. */
  function Overwrite(s: seq<Byte>, at: nat, t: seq<Byte>): (r: seq<Byte>)
    requires at + |t| <= |s|
    ensures |r| == |s|
    ensures forall i :: 0 <= i < |s| ==> r[i] == if at <= i < at + |t| then t[i - at] else s[i]
  {
    s[..at] + t + s[at + |t|..]
  }

  /** copy(buf[at:], t), which is also how the PutUint calls store their bytes. */
  method Put(buf: array<Byte>, at: nat, t: seq<Byte>)
    requires at + |t| <= buf.Length
    modifies buf
    ensures buf[..] == Overwrite(old(buf[..]), at, t)
    ensures buf[..at + |t|] == old(buf[..at]) + t
  {
    for i := 0 to |t|
      invariant forall k :: 0 <= k < buf.Length ==> buf[k] == if at <= k < at + i then t[k - at] else old(buf[k])
    {
      buf[at + i] := t[i];
    }
  }
}

/** Splitting text into lines and words, as Go's strings package does it. */
module Text {
  import opened Common

  // strings.Split and strings.Fields

  /** strings.Split(s, "\n"): the pieces between newlines, always at least one. */
  function Lines(s: string): (r: seq<string>)
    ensures |r| > 0
    ensures forall i :: 0 <= i < |r| ==> '\n' !in r[i]
    decreases |s|
  {
    if s == "" then [""]
    else
      var rest := Lines(s[1..]);
      if s[0] == '\n' then [""] + rest else [[s[0]] + rest[0]] + rest[1..]
  }

  /** unicode.IsSpace */
  predicate IsSpace(c: char) {
    var n := c as int;
    || 9 <= n <= 13 || n == 32 || n == 0x85 || n == 0xa0 || n == 0x1680 || 0x2000 <= n <= 0x200a
    || n == 0x2028 || n == 0x2029 || n == 0x202f || n == 0x205f || n == 0x3000
  }

  predicate IsWord(s: string) { s != "" && forall i :: 0 <= i < |s| ==> !IsSpace(s[i]) }

  function WordLength(s: string): (n: nat)
    ensures n <= |s|
    ensures forall i :: 0 <= i < n ==> !IsSpace(s[i])
    ensures n < |s| ==> IsSpace(s[n])
    decreases |s|
  {
    if s == "" || IsSpace(s[0]) then 0 else 1 + WordLength(s[1..])
  }

  /** strings.Fields: the maximal runs of characters that are not white space. */
  function Fields(s: string): (r: seq<string>)
    ensures forall i :: 0 <= i < |r| ==> IsWord(r[i])
    decreases |s|
  {
    if s == "" then []
    else if IsSpace(s[0]) then Fields(s[1..])
    else
      var n := WordLength(s);
      [s[..n]] + Fields(s[n..])
  }

  lemma {:induction false} LinesFirst(line: string, rest: string)
    requires '\n' !in line
    ensures Lines(line + "\n" + rest) == [line] + Lines(rest)
    decreases |line|
  {
    var s := line + "\n" + rest;
    if line == "" {
      assert s[1..] == rest;
    } else {
      assert s[1..] == line[1..] + "\n" + rest;
      LinesFirst(line[1..], rest);
      assert [line[0]] + line[1..] == line;
    }
  }

  lemma {:induction false} WordLengthOf(w: string, rest: string)
    requires forall i :: 0 <= i < |w| ==> !IsSpace(w[i])
    requires rest == "" || IsSpace(rest[0])
    ensures WordLength(w + rest) == |w|
    decreases |w|
  {
    if w != "" {
      assert (w + rest)[1..] == w[1..] + rest;
      WordLengthOf(w[1..], rest);
    } else {
      assert w + rest == rest;
    }
  }

  lemma OneField(w: string)
    requires IsWord(w)
    ensures Fields(w) == [w]
  {
    assert w + "" == w;
    WordLengthOf(w, "");
    assert w[..|w|] == w && w[|w|..] == "";
  }

  lemma TwoFields(a: string, b: string)
    requires IsWord(a) && IsWord(b)
    ensures Fields(a + " " + b) == [a, b]
  {
    var s := a + " " + b;
    assert s == a + (" " + b);
    WordLengthOf(a, " " + b);
    assert s[..|a|] == a && s[|a|..] == " " + b;
    assert (" " + b)[1..] == b;
    OneField(b);
    assert Fields(" " + b) == Fields(b);
    assert Fields(s) == [s[..|a|]] + Fields(s[|a|..]) by { assert s[0] == a[0]; }
  }

  // Digits

  function DigitChar(d: nat): (c: char)
    requires d < 16
    ensures !IsSpace(c) && c != '\n' && DigitValue(c) == Some(d)
  {
    if d < 10 then '0' + d as char else 'a' + (d - 10) as char
  }

  function DigitValue(c: char): (v: Option<nat>)
    ensures v.Some? ==> v.value < 16
  {
    if '0' <= c <= '9' then Some(c as int - '0' as int)
    else if 'a' <= c <= 'f' then Some(c as int - 'a' as int + 10)
    else if 'A' <= c <= 'F' then Some(c as int - 'A' as int + 10)
    else None
  }

  // Hexadecimal

  /** %0nx for a number that fits into n digits. */
  function Hex(v: nat, n: nat): (s: string)
    ensures |s| == n && forall i :: 0 <= i < n ==> !IsSpace(s[i])
  {
    if n == 0 then "" else Hex(v / 16, n - 1) + [DigitChar(v % 16)]
  }

  function HexValue(s: string): Option<nat>
    decreases |s|
  {
    if s == "" then Some(0)
    else
      var high, low := HexValue(s[..|s| - 1]), DigitValue(s[|s| - 1]);
      if high.Some? && low.Some? then Some(high.value * 16 + low.value) else None
  }

  function Pow16(n: nat): nat { if n == 0 then 1 else 16 * Pow16(n - 1) }

  lemma {:induction false} HexRoundTrip(v: nat, n: nat)
    requires v < Pow16(n)
    ensures HexValue(Hex(v, n)) == Some(v)
  {
    if n > 0 {
      HexRoundTrip(v / 16, n - 1);
      assert Hex(v, n)[..n - 1] == Hex(v / 16, n - 1);
    }
  }

  /** strconv.ParseUint(s, 16, 32) without its error's text. */
  function ParseUint32(s: string): (v: Option<nat>)
    ensures v.Some? ==> v.value < TWO_32
  {
    var v := HexValue(s);
    if s == "" || v == None || v.value >= TWO_32 then None else v
  }

  // strings.TrimSpace

  function TrimLeft(s: string): string
    decreases |s|
  {
    if s != "" && IsSpace(s[0]) then TrimLeft(s[1..]) else s
  }

  function TrimRight(s: string): string
    decreases |s|
  {
    if s != "" && IsSpace(s[|s| - 1]) then TrimRight(s[..|s| - 1]) else s
  }

  function TrimSpace(s: string): string { TrimRight(TrimLeft(s)) }
}
