/**
 The boot-trace text format: a comment header, then one line per entry with the content hash in
 hex and two decimal numbers. Text is a sequence of characters; the hash is its 32 bytes.
 */
module Trace {
  import opened HexText
  import opened Wrappers

  const U64: nat := 0x1_0000_0000_0000_0000
  const HEADER: string := "# elide-boot-trace v1"

  datatype TraceEntry = TraceEntry(hash: Bytes, startByte: nat, byteCount: nat)

  datatype Error = MissingHash | BadStartByte | BadByteCount | BadHash

  predicate ValidEntry(e: TraceEntry) { |e.hash| == 32 && e.startByte < U64 && e.byteCount < U64 }

  // ---- characters and words ----

  // Unicode White_Space.
  predicate White(c: char) {
    var n := c as int;
    9 <= n <= 13 || n in {0x20, 0x85, 0xA0, 0x1680, 0x2028, 0x2029, 0x202F, 0x205F, 0x3000} || 0x2000 <= n <= 0x200A
  }

  predicate Word(s: string) { |s| > 0 && forall i :: 0 <= i < |s| ==> !White(s[i]) }

  function IndexOf(s: string, stop: char -> bool): (i: nat)
    ensures i <= |s| && (i < |s| ==> stop(s[i])) && forall k :: 0 <= k < i ==> !stop(s[k])
  {
    if |s| == 0 || stop(s[0]) then 0 else 1 + IndexOf(s[1..], stop)
  }

  lemma {:induction false} IndexUnique(s: string, stop: char -> bool, i: nat)
    requires i <= |s| && (i < |s| ==> stop(s[i])) && forall k :: 0 <= k < i ==> !stop(s[k])
    ensures IndexOf(s, stop) == i
  {
  }

  // `str::lines`: pieces ended by a newline, a trailing carriage return dropped, no last empty piece.
  function Lines(s: string): seq<string>
    decreases |s|
  {
    if |s| == 0 then []
    else
      var i := IndexOf(s, c => c == '\n');
      if i == |s| then [s] else [ChopReturn(s[..i])] + Lines(s[i + 1..])
  }

  function ChopReturn(s: string): string { if |s| > 0 && s[|s| - 1] == '\r' then s[..|s| - 1] else s }

  function TrimStart(s: string): string { if |s| > 0 && White(s[0]) then TrimStart(s[1..]) else s }

  function TrimEnd(s: string): string { if |s| > 0 && White(s[|s| - 1]) then TrimEnd(s[..|s| - 1]) else s }

  function Trim(s: string): string { TrimEnd(TrimStart(s)) }

  // `str::split_whitespace`.
  function Words(s: string): seq<string>
    decreases |s|
  {
    if |s| == 0 then []
    else if White(s[0]) then Words(s[1..])
    else var i := IndexOf(s, White); [s[..i]] + Words(s[i..])
  }

  // ---- numbers ----

  function Digit(d: nat): char
    requires d < 10
  {
    ['0', '1', '2', '3', '4', '5', '6', '7', '8', '9'][d]
  }

  function Decimal(n: nat): string { if n < 10 then [Digit(n)] else Decimal(n / 10) + [Digit(n % 10)] }

  function DigitValue(c: char): Option<nat> { if '0' <= c <= '9' then Some(c as int - '0' as int) else None }

  function Digits(s: string): Option<nat> {
    if |s| == 0 then None
    else
      var d := DigitValue(s[|s| - 1]);
      if d.None? then None
      else if |s| == 1 then d
      else var rest := Digits(s[..|s| - 1]); if rest.None? then None else Some(10 * rest.value + d.value)
  }

  // `u64::from_str`: an optional plus sign, digits only, no overflow.
  function ParseU64(s: string): Option<nat> {
    var v := Digits(if |s| > 0 && s[0] == '+' then s[1..] else s);
    if v.Some? && v.value < U64 then v else None
  }

  lemma {:induction false} DecimalDigits(n: nat)
    ensures Digits(Decimal(n)) == Some(n) && Word(Decimal(n)) && Decimal(n)[0] != '+'
    decreases n
  {
    if n >= 10 {
      DecimalDigits(n / 10);
      assert Decimal(n)[..|Decimal(n)| - 1] == Decimal(n / 10);
    }
  }

  lemma DecimalParses(n: nat)
    requires n < U64
    ensures ParseU64(Decimal(n)) == Some(n) && Word(Decimal(n))
  {
    DecimalDigits(n);
  }

  // ---- hashes ----

  function ToHex(hash: Bytes): string {
    if |hash| == 0 then ""
    else ToHex(hash[..|hash| - 1]) + [Nibble(hash[|hash| - 1] / 16), Nibble(hash[|hash| - 1] % 16)]
  }

  lemma NibbleReads(d: nat)
    requires d < 16
    ensures HexNibble(Nibble(d)) == Some(d) && !White(Nibble(d)) && Nibble(d) != '#'
  {
  }

  lemma {:induction false} ToHexAt(hash: Bytes, i: nat)
    requires i < |hash|
    ensures |ToHex(hash)| == 2 * |hash|
    ensures ToHex(hash)[2 * i] == Nibble(hash[i] / 16) && ToHex(hash)[2 * i + 1] == Nibble(hash[i] % 16)
    decreases |hash|
  {
    var init := hash[..|hash| - 1];
    if |init| > 0 { ToHexAt(init, if i < |init| then i else 0); }
  }

  lemma ToHexIsWord(hash: Bytes)
    requires |hash| > 0
    ensures Word(ToHex(hash)) && |ToHex(hash)| == 2 * |hash| && ToHex(hash)[0] != '#'
  {
    ToHexAt(hash, 0);
    NibbleReads(hash[0] / 16);
    forall i | 0 <= i < |ToHex(hash)| ensures !White(ToHex(hash)[i]) {
      ToHexAt(hash, i / 2);
      NibbleReads(hash[i / 2] / 16);
      NibbleReads(hash[i / 2] % 16);
    }
  }

  predicate Hex(s: string) { |s| == 64 && forall i :: 0 <= i < 64 ==> HexNibble(s[i]).Some? }

  function HashOf(s: string): Option<Bytes> {
    if Hex(s) then
      Some(seq(32, (i: nat) requires i < 32 => 16 * HexNibble(s[2 * i]).value + HexNibble(s[2 * i + 1]).value))
    else None
  }

  lemma HexPair(hash: Bytes, i: nat)
    requires i < |hash|
    ensures |ToHex(hash)| == 2 * |hash|
    ensures HexNibble(ToHex(hash)[2 * i]) == Some(hash[i] / 16)
            && HexNibble(ToHex(hash)[2 * i + 1]) == Some(hash[i] % 16)
  {
    ToHexAt(hash, i);
    NibbleReads(hash[i] / 16);
    NibbleReads(hash[i] % 16);
  }

  lemma HexRoundTrip(hash: Bytes)
    requires |hash| == 32
    ensures HashOf(ToHex(hash)) == Some(hash)
  {
    var s := ToHex(hash);
    HexPair(hash, 0);
    forall i | 0 <= i < 64 ensures HexNibble(s[i]).Some? { HexPair(hash, i / 2); }
    var read := HashOf(s).value;
    forall i | 0 <= i < 32 ensures read[i] == hash[i] { HexPair(hash, i); }
    assert read == hash;
  }

  function Lower(s: string): string { seq(|s|, i requires 0 <= i < |s| => LowerChar(s[i])) }

  lemma NibbleOfHex(c: char)
    requires HexNibble(c).Some?
    ensures Nibble(HexNibble(c).value) == LowerChar(c)
  {
  }

  lemma HighAndLow(hi: nat, lo: nat)
    requires hi < 16 && lo < 16
    ensures (16 * hi + lo) / 16 == hi && (16 * hi + lo) % 16 == lo
  {
  }

  lemma HashDigits(s: string, k: nat)
    requires Hex(s) && k < 32
    ensures var hash := HashOf(s).value;
            hash[k] / 16 == HexNibble(s[2 * k]).value && hash[k] % 16 == HexNibble(s[2 * k + 1]).value
  {
    HighAndLow(HexNibble(s[2 * k]).value, HexNibble(s[2 * k + 1]).value);
  }

  lemma HexTextPair(s: string, k: nat)
    requires Hex(s) && k < 32
    ensures var hash := HashOf(s).value;
            && |ToHex(hash)| == 64
            && ToHex(hash)[2 * k] == LowerChar(s[2 * k]) && ToHex(hash)[2 * k + 1] == LowerChar(s[2 * k + 1])
  {
    HashDigits(s, k);
    ToHexAt(HashOf(s).value, k);
    NibbleOfHex(s[2 * k]);
    NibbleOfHex(s[2 * k + 1]);
  }

  // And any hex text read as a hash prints as the same text in lower case.
  lemma HexTextRoundTrip(s: string)
    requires Hex(s)
    ensures ToHex(HashOf(s).value) == Lower(s)
  {
    HexTextPair(s, 0);
    forall i | 0 <= i < 64 ensures ToHex(HashOf(s).value)[i] == Lower(s)[i] { HexTextPair(s, i / 2); }
  }

  // Two digits at a time into a buffer, giving up at the first that is not one.
  method HexToHash(s: string) returns (r: Option<Bytes>)
    ensures r == HashOf(s)
  {
    if |s| != 64 {
      return None;
    }
    var bytes := new Byte[32](_ => 0);
    for i := 0 to 32
      invariant forall k :: 0 <= k < 2 * i ==> HexNibble(s[k]).Some?
      invariant forall k :: 0 <= k < i ==> bytes[k] == 16 * HexNibble(s[2 * k]).value + HexNibble(s[2 * k + 1]).value
    {
      var hi, lo := HexNibble(s[2 * i]), HexNibble(s[2 * i + 1]);
      if hi.None? || lo.None? {
        return None;
      }
      bytes[i] := 16 * hi.value + lo.value;
    }
    assert Hex(s);
    var read := HashOf(s).value;
    assert bytes[..] == read;
    return Some(bytes[..]);
  }

  // ---- lines ----

  function EntryLine(e: TraceEntry): string { ToHex(e.hash) + " " + Decimal(e.startByte) + " " + Decimal(e.byteCount) }

  function Body(es: seq<TraceEntry>): string { if |es| == 0 then "" else EntryLine(es[0]) + "\n" + Body(es[1..]) }

  function Text(es: seq<TraceEntry>): string { HEADER + "\n" + Body(es) }

  function LoadLine(line: string): Result<Option<TraceEntry>, Error> {
    var l := Trim(line);
    if |l| == 0 || l[0] == '#' then Ok(None)
    else
      var w := Words(l);
      if |w| < 1 then Err(MissingHash)
      else if |w| < 2 || ParseU64(w[1]).None? then Err(BadStartByte)
      else if |w| < 3 || ParseU64(w[2]).None? then Err(BadByteCount)
      else if HashOf(w[0]).None? then Err(BadHash)
      else Ok(Some(TraceEntry(HashOf(w[0]).value, ParseU64(w[1]).value, ParseU64(w[2]).value)))
  }

  // The entries of the lines, or the first error.
  function LoadLines(lines: seq<string>): Result<seq<TraceEntry>, Error> {
    if |lines| == 0 then Ok([])
    else
      var before := LoadLines(lines[..|lines| - 1]);
      if before.Err? then before
      else
        var last := LoadLine(lines[|lines| - 1]);
        if last.Err? then Err(last.error)
        else if last.value.None? then before
        else Ok(before.value + [last.value.value])
  }

  function LoadText(content: string): Result<seq<TraceEntry>, Error> { LoadLines(Lines(content)) }

  // ---- a saved line reads back ----

  lemma FirstLine(l: string, rest: string)
    requires '\n' !in l && (|l| > 0 ==> l[|l| - 1] != '\r')
    ensures Lines(l + "\n" + rest) == [l] + Lines(rest)
  {
    var s, stop := l + "\n" + rest, c => c == '\n';
    IndexUnique(s, stop, |l|);
    assert s[..|l|] == l && s[|l| + 1..] == rest;
  }

  lemma FirstWord(w: string, rest: string)
    requires Word(w)
    ensures Words(w + " " + rest) == [w] + Words(rest) && Words(w) == [w]
  {
    var s := w + " " + rest;
    IndexUnique(s, White, |w|);
    assert s[..|w|] == w && s[|w|..][1..] == rest && s[|w|..][0] == ' ';
    IndexUnique(w, White, |w|);
    assert w[..|w|] == w && w[|w|..] == "";
  }

  lemma TrimKeeps(s: string)
    requires |s| > 0 && !White(s[0]) && !White(s[|s| - 1])
    ensures Trim(s) == s
  {
  }

  lemma HeaderIsSkipped()
    ensures LoadLine(HEADER) == Ok(None) && '\n' !in HEADER && |HEADER| > 0 && HEADER[|HEADER| - 1] != '\r'
  {
    TrimKeeps(HEADER);
  }

  lemma Associates(a: string, b: string, c: string)
    ensures a + (b + c) == a + b + c
  {
  }

  lemma ThreeWords(h: string, s: string, c: string)
    requires Word(h) && Word(s) && Word(c)
    ensures Words(h + " " + s + " " + c) == [h, s, c]
  {
    Associates(h + " ", s, " ");
    Associates(h + " ", s + " ", c);
    FirstWord(h, s + " " + c);
    FirstWord(s, c);
    FirstWord(c, "");
  }

  // Nothing of such a line is trimmed or chopped.
  lemma LineEdges(h: string, s: string, c: string)
    requires Word(h) && Word(s) && Word(c)
    ensures var l := h + " " + s + " " + c;
            |l| > 0 && l[0] == h[0] && !White(l[|l| - 1]) && '\n' !in l && l[|l| - 1] != '\r'
  {
    var l := h + " " + s + " " + c;
    assert l[|l| - 1] == c[|c| - 1];
    forall i | 0 <= i < |l| ensures l[i] != '\n' {
      if i < |h| {
        assert l[i] == h[i];
      } else if |h| < i < |h| + 1 + |s| {
        assert l[i] == s[i - |h| - 1];
      } else if i > |h| + 1 + |s| {
        assert l[i] == c[i - |h| - |s| - 2];
      }
    }
  }

  lemma EntryLineWords(e: TraceEntry)
    requires ValidEntry(e)
    ensures Words(EntryLine(e)) == [ToHex(e.hash), Decimal(e.startByte), Decimal(e.byteCount)]
    ensures var l := EntryLine(e);
            |l| > 0 && l[0] != '#' && !White(l[0]) && !White(l[|l| - 1]) && '\n' !in l && l[|l| - 1] != '\r'
  {
    ToHexIsWord(e.hash);
    DecimalParses(e.startByte);
    DecimalParses(e.byteCount);
    ThreeWords(ToHex(e.hash), Decimal(e.startByte), Decimal(e.byteCount));
    LineEdges(ToHex(e.hash), Decimal(e.startByte), Decimal(e.byteCount));
  }

  lemma EntryLineLoads(e: TraceEntry)
    requires ValidEntry(e)
    ensures LoadLine(EntryLine(e)) == Ok(Some(e))
  {
    EntryLineWords(e);
    TrimKeeps(EntryLine(e));
    HexRoundTrip(e.hash);
    DecimalParses(e.startByte);
    DecimalParses(e.byteCount);
  }

  function EntryLines(es: seq<TraceEntry>): seq<string> { seq(|es|, i requires 0 <= i < |es| => EntryLine(es[i])) }

  lemma FirstEntryLine(e: TraceEntry, rest: string)
    requires ValidEntry(e)
    ensures Lines(EntryLine(e) + "\n" + rest) == [EntryLine(e)] + Lines(rest)
  {
    EntryLineWords(e);
    FirstLine(EntryLine(e), rest);
  }

  lemma EntryLinesFront(es: seq<TraceEntry>)
    requires |es| > 0
    ensures EntryLines(es) == [EntryLine(es[0])] + EntryLines(es[1..])
  {
  }

  lemma {:induction false} BodyLines(es: seq<TraceEntry>)
    requires forall e :: e in es ==> ValidEntry(e)
    ensures Lines(Body(es)) == EntryLines(es)
    decreases |es|
  {
    if |es| > 0 {
      FirstEntryLine(es[0], Body(es[1..]));
      BodyLines(es[1..]);
      EntryLinesFront(es);
    }
  }

  // One more line.
  lemma LoadPush(lines: seq<string>, line: string)
    requires LoadLines(lines).Ok?
    ensures var last := LoadLine(line);
            LoadLines(lines + [line]) == if last.Err? then Err(last.error)
                                         else if last.value.None? then LoadLines(lines)
                                         else Ok(LoadLines(lines).value + [last.value.value])
  {
    assert (lines + [line])[..|lines|] == lines;
  }

  lemma HeaderLoads()
    ensures LoadLines([HEADER]) == Ok([])
  {
    HeaderIsSkipped();
    LoadPush([], HEADER);
    assert [] + [HEADER] == [HEADER];
  }

  lemma EntryLinesPush(es: seq<TraceEntry>, e: TraceEntry)
    ensures [HEADER] + EntryLines(es + [e]) == [HEADER] + EntryLines(es) + [EntryLine(e)]
  {
    assert EntryLines(es + [e]) == EntryLines(es) + [EntryLine(e)];
  }

  lemma {:induction false} EntryLinesLoad(es: seq<TraceEntry>)
    requires forall e :: e in es ==> ValidEntry(e)
    ensures LoadLines([HEADER] + EntryLines(es)) == Ok(es)
    decreases |es|
  {
    if |es| == 0 {
      assert [HEADER] + EntryLines(es) == [HEADER];
      HeaderLoads();
    } else {
      var init, last := es[..|es| - 1], es[|es| - 1];
      assert es == init + [last];
      EntryLinesLoad(init);
      EntryLineLoads(last);
      EntryLinesPush(init, last);
      LoadPush([HEADER] + EntryLines(init), EntryLine(last));
    }
  }

  /** Loading a saved trace returns the same entries, for every list of hashes and u64 pairs. */
  lemma TraceRoundTrip(es: seq<TraceEntry>)
    requires forall e :: e in es ==> ValidEntry(e)
    ensures LoadText(Text(es)) == Ok(es)
  {
    HeaderIsSkipped();
    FirstLine(HEADER, Body(es));
    BodyLines(es);
    EntryLinesLoad(es);
  }

  // ---- the program's loops ----

  lemma {:induction false} BodySnoc(es: seq<TraceEntry>, e: TraceEntry)
    ensures Body(es + [e]) == Body(es) + EntryLine(e) + "\n"
    decreases |es|
  {
    if |es| == 0 {
      assert es + [e] == [e] && [e][1..] == [];
    } else {
      assert (es + [e])[0] == es[0] && (es + [e])[1..] == es[1..] + [e];
      BodySnoc(es[1..], e);
      var first := EntryLine(es[0]) + "\n";
      Associates(first, Body(es[1..]) + EntryLine(e), "\n");
      Associates(first, Body(es[1..]), EntryLine(e));
    }
  }

  lemma TextSnoc(es: seq<TraceEntry>, e: TraceEntry)
    ensures Text(es + [e]) == Text(es) + (EntryLine(e) + "\n")
  {
    BodySnoc(es, e);
    Associates(HEADER + "\n", Body(es), EntryLine(e) + "\n");
    Associates(Body(es), EntryLine(e), "\n");
  }

  method SaveTrace(entries: seq<TraceEntry>) returns (out: string)
    ensures out == Text(entries)
    ensures (forall e :: e in entries ==> ValidEntry(e)) ==> LoadText(out) == Ok(entries)
  {
    out := HEADER + "\n";
    for i := 0 to |entries|
      invariant out == Text(entries[..i])
    {
      var e := entries[i];
      TextSnoc(entries[..i], e);
      assert entries[..i + 1] == entries[..i] + [e];
      out := out + (ToHex(e.hash) + " " + Decimal(e.startByte) + " " + Decimal(e.byteCount) + "\n");
    }
    assert entries[..|entries|] == entries;
    if forall e :: e in entries ==> ValidEntry(e) { TraceRoundTrip(entries); }
  }

  lemma {:induction false} FirstErrorStands(lines: seq<string>, i: nat)
    requires i <= |lines| && LoadLines(lines[..i]).Err?
    ensures LoadLines(lines) == LoadLines(lines[..i])
    decreases |lines|
  {
    if i == |lines| {
      assert lines[..i] == lines;
    } else {
      var init := lines[..|lines| - 1];
      assert init[..i] == lines[..i];
      FirstErrorStands(init, i);
    }
  }

  method LoadTrace(content: string) returns (r: Result<seq<TraceEntry>, Error>)
    ensures r == LoadText(content)
    ensures forall es :: (forall e :: e in es ==> ValidEntry(e)) && content == Text(es) ==> r == Ok(es)
  {
    var lines, entries := Lines(content), [];
    forall es | (forall e :: e in es ==> ValidEntry(e)) && content == Text(es) ensures LoadText(content) == Ok(es) {
      TraceRoundTrip(es);
    }
    for i := 0 to |lines|
      invariant LoadLines(lines[..i]) == Ok(entries)
    {
      assert lines[..i + 1] == lines[..i] + [lines[i]];
      LoadPush(lines[..i], lines[i]);
      var loaded := LoadLine(lines[i]);
      if loaded.Err? {
        FirstErrorStands(lines, i + 1);
        return Err(loaded.error);
      }
      if loaded.value.Some? {
        entries := entries + [loaded.value.value];
      }
    }
    assert lines[..|lines|] == lines;
    return Ok(entries);
  }
}
