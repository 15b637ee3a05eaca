/** Hex digits, and the decoder that takes them two at a time. */
module HexText {
  import opened Wrappers

  function Nibble(d: nat): char
    requires d < 16
  {
    ['0', '1', '2', '3', '4', '5', '6', '7', '8', '9', 'a', 'b', 'c', 'd', 'e', 'f'][d]
  }

  function HexNibble(c: char): (r: Option<nat>)
    ensures r.Some? ==> r.value < 16
  {
    if '0' <= c <= '9' then Some(c as int - '0' as int)
    else if 'a' <= c <= 'f' then Some(c as int - 'a' as int + 10)
    else if 'A' <= c <= 'F' then Some(c as int - 'A' as int + 10)
    else None
  }

  function LowerChar(c: char): char { if 'A' <= c <= 'Z' then (c as int + 32) as char else c }

  // The first of two characters may be a plus sign, which then stands for a zero.
  function Unsigned(c: char): char { if c == '+' then '0' else c }

  // `u8::from_str_radix` on two characters.
  function RadixPair(a: char, b: char): Option<Byte> {
    var hi, lo := HexNibble(Unsigned(a)), HexNibble(b);
    if hi.None? || lo.None? then None else Some(16 * hi.value + lo.value)
  }

  function DecodeHex(s: string): Option<Bytes>
    decreases |s|
  {
    if |s| == 0 then Some([])
    else if |s| == 1 then None
    else
      var b, rest := RadixPair(s[0], s[1]), DecodeHex(s[2..]);
      if b.None? || rest.None? then None else Some([b.value] + rest.value)
  }

  // The text without capitals and plus signs.
  function Canonical(s: string): string
    decreases |s|
  {
    if |s| < 2 then s
    else [LowerChar(Unsigned(s[0])), LowerChar(s[1])] + Canonical(s[2..])
  }

  lemma NibblesAgree(a: char, b: char)
    requires HexNibble(a).Some? && HexNibble(b).Some?
    ensures HexNibble(a) == HexNibble(b) <==> LowerChar(a) == LowerChar(b)
  {
  }

  lemma PairsAgree(a: char, b: char, c: char, d: char)
    requires RadixPair(a, b).Some? && RadixPair(c, d).Some?
    ensures RadixPair(a, b) == RadixPair(c, d) <==>
              LowerChar(Unsigned(a)) == LowerChar(Unsigned(c)) && LowerChar(b) == LowerChar(d)
  {
    NibblesAgree(Unsigned(a), Unsigned(c));
    NibblesAgree(b, d);
  }

  /** Two hex texts decode to the same bytes exactly if they differ only in case and in plus signs for zeros. */
  lemma {:induction false} SameBytesIff(s: string, t: string)
    requires DecodeHex(s).Some? && DecodeHex(t).Some?
    ensures DecodeHex(s) == DecodeHex(t) <==> Canonical(s) == Canonical(t)
    decreases |s|
  {
    if |s| >= 2 && |t| >= 2 {
      PairsAgree(s[0], s[1], t[0], t[1]);
      SameBytesIff(s[2..], t[2..]);
      ConsAgree(DecodeHex(s).value, DecodeHex(t).value);
      var u, v := Canonical(s), Canonical(t);
      assert u[2..] == Canonical(s[2..]) && v[2..] == Canonical(t[2..]);
      if u[0] == v[0] && u[1] == v[1] && u[2..] == v[2..] {
        assert u == [u[0], u[1]] + u[2..] && v == [v[0], v[1]] + v[2..];
      }
    }
  }

  lemma ConsAgree(xs: Bytes, ys: Bytes)
    requires |xs| > 0 && |ys| > 0
    ensures xs == ys <==> xs[0] == ys[0] && xs[1..] == ys[1..]
  {
    assert xs == [xs[0]] + xs[1..] && ys == [ys[0]] + ys[1..];
  }

  lemma OneByte(a: char, b: char)
    requires RadixPair(a, b).Some?
    ensures DecodeHex([a, b]) == Some([RadixPair(a, b).value])
  {
    var s := [a, b];
    assert s[2..] == [] && DecodeHex(s[2..]) == Some([]);
    assert [RadixPair(a, b).value] + [] == [RadixPair(a, b).value];
  }

  // Three spellings of one byte.
  lemma ByteInThreeSpellings()
    ensures DecodeHex("0a") == DecodeHex("0A") == DecodeHex("+a") == Some([10])
  {
    OneByte('0', 'a');
    OneByte('0', 'A');
    OneByte('+', 'a');
  }
}
