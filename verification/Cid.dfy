/**
 The plaintext of a caveat identifier (CID) sealed by mint for a discharge authority: a 32-byte
 root key and length-prefixed identity strings, with a mode string in the attested form.
 */
module Cid {
  import opened Wrappers

  datatype Error = Aead | Truncated | Overrun | BadUtf8 | Trailing

  // Strings are their UTF-8 bytes.
  datatype AttestedCid = AttestedCid(r: Bytes, clientId: Bytes, orgId: Bytes, mode: Bytes)
  datatype CidPlaintext = CidPlaintext(r: Bytes, clientId: Bytes, orgId: Bytes)

  const KEY_LEN: nat := 32
  const AEAD_NONCE_LEN: nat := 12
  const U32: nat := 0x1_0000_0000

  predicate Continuation(b: Byte) { 0x80 <= b < 0xC0 }

  // Well-formed UTF-8: no overlong forms, no surrogates, nothing above U+10FFFF.
  predicate Utf8(s: Bytes)
    decreases |s|
  {
    if |s| == 0 then true
    else if s[0] < 0x80 then Utf8(s[1..])
    else if 0xC2 <= s[0] < 0xE0 then |s| >= 2 && Continuation(s[1]) && Utf8(s[2..])
    else if 0xE0 <= s[0] < 0xF0 then
      && |s| >= 3 && Continuation(s[1]) && Continuation(s[2])
      && (s[0] == 0xE0 ==> s[1] >= 0xA0) && (s[0] == 0xED ==> s[1] < 0xA0)
      && Utf8(s[3..])
    else if 0xF0 <= s[0] < 0xF5 then
      && |s| >= 4 && Continuation(s[1]) && Continuation(s[2]) && Continuation(s[3])
      && (s[0] == 0xF0 ==> s[1] >= 0x90) && (s[0] == 0xF4 ==> s[1] < 0x90)
      && Utf8(s[4..])
    else false
  }

  // ---- the layout mint writes ----

  function Be32(n: nat): Bytes
    requires n < U32
  {
    [n / 0x100_0000, n / 0x1_0000 % 0x100, n / 0x100 % 0x100, n % 0x100]
  }

  function FromBe32(b: Bytes): nat
    requires |b| == 4
  {
    var w: seq<int> := b;
    w[0] * 0x100_0000 + w[1] * 0x1_0000 + w[2] * 0x100 + w[3]
  }

  predicate Field(s: Bytes) { Utf8(s) && |s| < U32 }

  function Prefixed(s: Bytes): Bytes
    requires |s| < U32
  {
    Be32(|s|) + s
  }

  predicate SoundAttested(x: AttestedCid) {
    |x.r| == KEY_LEN && Field(x.clientId) && Field(x.orgId) && Field(x.mode)
  }

  predicate Sound(x: CidPlaintext) { |x.r| == KEY_LEN && Field(x.clientId) && Field(x.orgId) }

  function AttestedLayout(x: AttestedCid): Bytes
    requires SoundAttested(x)
  {
    x.r + Prefixed(x.clientId) + Prefixed(x.orgId) + Prefixed(x.mode)
  }

  function Layout(x: CidPlaintext): Bytes
    requires Sound(x)
  {
    x.r + Prefixed(x.clientId) + Prefixed(x.orgId)
  }

  // ---- the layout is unambiguous ----

  lemma Be32Inverse(n: nat)
    requires n < U32
    ensures FromBe32(Be32(n)) == n
  {
    var w: seq<int> := Be32(n);
    assert n / 0x100 == n / 0x1_0000 * 0x100 + w[2];
    assert n / 0x1_0000 == n / 0x100_0000 * 0x100 + w[1];
  }

  lemma FromBe32Inverse(b: Bytes)
    requires |b| == 4
    ensures FromBe32(b) < U32 && Be32(FromBe32(b)) == b
  {
    var n, w: seq<int> := FromBe32(b), b;
    assert n / 0x100_0000 == w[0];
    assert n / 0x1_0000 == w[0] * 0x100 + w[1];
    assert n / 0x100 == w[0] * 0x1_0000 + w[1] * 0x100 + w[2];
  }

  // A length-prefixed field determines where it ends, whatever follows.
  lemma PrefixedUnique(f: Bytes, g: Bytes, rest: Bytes, tail: Bytes)
    requires |f| < U32 && |g| < U32 && Prefixed(f) + rest == Prefixed(g) + tail
    ensures f == g && rest == tail
  {
    var whole := Prefixed(f) + rest;
    assert whole[..4] == Be32(|f|) && whole[..4] == Be32(|g|);
    Be32Inverse(|f|);
    Be32Inverse(|g|);
    SplitUnique(Prefixed(f), Prefixed(g), rest, tail);
    assert Prefixed(f)[4..] == f && Prefixed(g)[4..] == g;
  }

  lemma SplitUnique(a: Bytes, b: Bytes, rest: Bytes, tail: Bytes)
    requires |a| == |b| && a + rest == b + tail
    ensures a == b && rest == tail
  {
    assert (a + rest)[..|a|] == a && (b + tail)[..|a|] == b;
    assert (a + rest)[|a|..] == rest && (b + tail)[|a|..] == tail;
  }

  lemma LayoutSplits(x: CidPlaintext, rest: Bytes)
    requires Sound(x)
    ensures Layout(x) + rest == x.r + (Prefixed(x.clientId) + (Prefixed(x.orgId) + rest))
  {
  }

  lemma LayoutUnique(x: CidPlaintext, y: CidPlaintext, rest: Bytes, tail: Bytes)
    requires Sound(x) && Sound(y) && Layout(x) + rest == Layout(y) + tail
    ensures x == y && rest == tail
  {
    LayoutSplits(x, rest);
    LayoutSplits(y, tail);
    var xs, ys := Prefixed(x.orgId) + rest, Prefixed(y.orgId) + tail;
    SplitUnique(x.r, y.r, Prefixed(x.clientId) + xs, Prefixed(y.clientId) + ys);
    PrefixedUnique(x.clientId, y.clientId, xs, ys);
    PrefixedUnique(x.orgId, y.orgId, rest, tail);
  }

  function Head(x: AttestedCid): CidPlaintext { CidPlaintext(x.r, x.clientId, x.orgId) }

  lemma AttestedSplits(x: AttestedCid, rest: Bytes)
    requires SoundAttested(x)
    ensures AttestedLayout(x) + rest == Layout(Head(x)) + (Prefixed(x.mode) + rest)
  {
  }

  lemma AttestedUnique(x: AttestedCid, y: AttestedCid, rest: Bytes, tail: Bytes)
    requires SoundAttested(x) && SoundAttested(y) && AttestedLayout(x) + rest == AttestedLayout(y) + tail
    ensures x == y && rest == tail
  {
    var xs, ys := Prefixed(x.mode) + rest, Prefixed(y.mode) + tail;
    AttestedSplits(x, rest);
    AttestedSplits(y, tail);
    LayoutUnique(Head(x), Head(y), xs, ys);
    PrefixedUnique(x.mode, y.mode, rest, tail);
  }

  /**
   No plaintext is both an attested and an operator CID, so a CID sealed for one authority can
   never be read as the other form.
   */
  lemma FormsAreDisjoint(x: AttestedCid, y: CidPlaintext)
    requires SoundAttested(x) && Sound(y)
    ensures AttestedLayout(x) != Layout(y)
  {
    if AttestedLayout(x) == Layout(y) {
      assert Layout(Head(x)) + Prefixed(x.mode) == Layout(y) + [];
      LayoutUnique(Head(x), y, Prefixed(x.mode), []);
      assert false;
    }
  }

  // ---- the parsers ----

  // The error `read_length_prefixed_str` reports at `pos`, in its order of checks.
  function FieldError(buf: Bytes, pos: nat): Option<Error>
    requires pos <= |buf|
  {
    if |buf| - pos < 4 then Some(Truncated)
    else
      var len := FromBe32(buf[pos..pos + 4]);
      if |buf| - pos - 4 < len then Some(Overrun)
      else if !Utf8(buf[pos + 4..pos + 4 + len]) then Some(BadUtf8)
      else None
  }

  // A field followed by anything reads without error.
  lemma FieldReads(buf: Bytes, pos: nat, f: Bytes, rest: Bytes)
    requires pos <= |buf| && Field(f) && buf[pos..] == Prefixed(f) + rest
    ensures FieldError(buf, pos).None?
  {
    var tail := buf[pos..];
    assert buf[pos..pos + 4] == tail[..4] == Be32(|f|);
    Be32Inverse(|f|);
    assert buf[pos + 4..pos + 4 + |f|] == tail[4..4 + |f|] == f;
  }

  // Only one field stands at `pos`.
  lemma FieldUnique(buf: Bytes, pos: nat, end: nat, s: Bytes, f: Bytes, rest: Bytes)
    requires pos <= end <= |buf| && |s| < U32 && |f| < U32
    requires buf[pos..end] == Prefixed(s) && buf[pos..] == Prefixed(f) + rest
    ensures f == s
  {
    assert buf[pos..] == buf[pos..end] + buf[end..];
    PrefixedUnique(f, s, rest, buf[end..]);
  }

  method ReadLengthPrefixed(buf: Bytes, pos: nat) returns (r: Result<Bytes, Error>, end: nat)
    requires pos <= |buf|
    ensures r.Ok? ==> Field(r.value) && pos < end <= |buf| && buf[pos..end] == Prefixed(r.value)
    ensures r.Err? ==> FieldError(buf, pos) == Some(r.error)
    ensures forall f, rest :: Field(f) && buf[pos..] == Prefixed(f) + rest ==> r == Ok(f)
  {
    forall f, rest | Field(f) && buf[pos..] == Prefixed(f) + rest ensures FieldError(buf, pos).None? {
      FieldReads(buf, pos, f, rest);
    }
    if pos + 4 > |buf| {
      return Err(Truncated), pos;
    }
    var len := FromBe32(buf[pos..pos + 4]);
    FromBe32Inverse(buf[pos..pos + 4]);
    var start := pos + 4;
    if start + len > |buf| {
      return Err(Overrun), pos;
    }
    var s := buf[start..start + len];
    if !Utf8(s) {
      return Err(BadUtf8), pos;
    }
    end := start + len;
    assert buf[pos..end] == buf[pos..start] + s;
    forall f, rest | Field(f) && buf[pos..] == Prefixed(f) + rest ensures f == s {
      FieldUnique(buf, pos, end, s, f, rest);
    }
    r := Ok(s);
  }

  lemma KeySplits(buf: Bytes, x: CidPlaintext, rest: Bytes)
    requires Sound(x) && buf == Layout(x) + rest
    ensures |buf| >= KEY_LEN && buf[..KEY_LEN] == x.r
            && buf[KEY_LEN..] == Prefixed(x.clientId) + (Prefixed(x.orgId) + rest)
  {
    LayoutSplits(x, rest);
  }

  lemma FieldSplits(buf: Bytes, pos: nat, end: nat, f: Bytes, rest: Bytes)
    requires pos <= end <= |buf| && |f| < U32 && buf[pos..] == Prefixed(f) + rest && buf[pos..end] == Prefixed(f)
    ensures buf[end..] == rest
  {
    assert buf[pos..] == buf[pos..end] + buf[end..];
    SplitUnique(Prefixed(f), buf[pos..end], rest, buf[end..]);
  }

  // The root key and the two identity strings, which both forms start with.
  method ReadHead(buf: Bytes) returns (r: Result<CidPlaintext, Error>, pos: nat)
    ensures r.Ok? ==> Sound(r.value) && pos <= |buf| && buf[..pos] == Layout(r.value)
    ensures r.Err? ==> r.error in {Truncated, Overrun, BadUtf8}
    ensures forall x, rest :: Sound(x) && buf == Layout(x) + rest ==> r == Ok(x)
  {
    if |buf| < KEY_LEN {
      return Err(Truncated), 0;
    }
    var key := buf[..KEY_LEN];
    forall x, rest | Sound(x) && buf == Layout(x) + rest
      ensures key == x.r && buf[KEY_LEN..] == Prefixed(x.clientId) + (Prefixed(x.orgId) + rest)
    {
      KeySplits(buf, x, rest);
    }
    var client, mid := ReadLengthPrefixed(buf, KEY_LEN);
    if client.Err? {
      return Err(client.error), 0;
    }
    forall x, rest | Sound(x) && buf == Layout(x) + rest ensures buf[mid..] == Prefixed(x.orgId) + rest {
      FieldSplits(buf, KEY_LEN, mid, x.clientId, Prefixed(x.orgId) + rest);
    }
    var org, end := ReadLengthPrefixed(buf, mid);
    if org.Err? {
      return Err(org.error), 0;
    }
    assert buf[..end] == buf[..KEY_LEN] + buf[KEY_LEN..mid] + buf[mid..end];
    return Ok(CidPlaintext(key, client.value, org.value)), end;
  }

  /**
   Accepts exactly the plaintexts the layout produces and returns what was laid out; reports
   trailing bytes exactly when a layout is followed by some.
   */
  method ParseCid(buf: Bytes) returns (r: Result<CidPlaintext, Error>)
    ensures r.Ok? ==> Sound(r.value) && buf == Layout(r.value)
    ensures forall x, rest :: Sound(x) && buf == Layout(x) + rest ==> r == if rest == [] then Ok(x) else Err(Trailing)
    ensures r == Err(Trailing) ==> exists x, rest :: Sound(x) && rest != [] && buf == Layout(x) + rest
  {
    var head, pos := ReadHead(buf);
    if head.Err? {
      return head;
    }
    assert buf == Layout(head.value) + buf[pos..];
    forall x, rest | Sound(x) && buf == Layout(x) + rest ensures rest == buf[pos..] {
      LayoutUnique(x, head.value, rest, buf[pos..]);
    }
    if pos != |buf| {
      return Err(Trailing);
    }
    return head;
  }

  lemma HeadSplits(buf: Bytes, mid: nat, x: CidPlaintext, rest: Bytes)
    requires Sound(x) && mid <= |buf| && buf == Layout(x) + rest && buf[..mid] == Layout(x)
    ensures buf[mid..] == rest
  {
    assert buf == buf[..mid] + buf[mid..];
    SplitUnique(Layout(x), buf[..mid], rest, buf[mid..]);
  }

  lemma AttestedJoins(buf: Bytes, mid: nat, pos: nat, x: AttestedCid)
    requires SoundAttested(x) && mid <= pos <= |buf| && buf[..mid] == Layout(Head(x))
             && buf[mid..pos] == Prefixed(x.mode)
    ensures buf == AttestedLayout(x) + buf[pos..]
  {
    assert buf == buf[..mid] + buf[mid..pos] + buf[pos..];
  }

  method ParseAttestedCid(buf: Bytes) returns (r: Result<AttestedCid, Error>)
    ensures r.Ok? ==> SoundAttested(r.value) && buf == AttestedLayout(r.value)
    ensures forall x, rest :: SoundAttested(x) && buf == AttestedLayout(x) + rest ==>
                                r == if rest == [] then Ok(x) else Err(Trailing)
    ensures r == Err(Trailing) ==> exists x, rest :: SoundAttested(x) && rest != [] && buf == AttestedLayout(x) + rest
  {
    var head, mid := ReadHead(buf);
    forall x, rest | SoundAttested(x) && buf == AttestedLayout(x) + rest
      ensures head == Ok(Head(x)) && buf[mid..] == Prefixed(x.mode) + rest
    {
      AttestedSplits(x, rest);
      HeadSplits(buf, mid, Head(x), Prefixed(x.mode) + rest);
    }
    if head.Err? {
      return Err(head.error);
    }
    var mode, pos := ReadLengthPrefixed(buf, mid);
    if mode.Err? {
      return Err(mode.error);
    }
    var got := AttestedCid(head.value.r, head.value.clientId, head.value.orgId, mode.value);
    AttestedJoins(buf, mid, pos, got);
    forall x, rest | SoundAttested(x) && buf == AttestedLayout(x) + rest ensures x == got && rest == buf[pos..] {
      AttestedUnique(x, got, rest, buf[pos..]);
    }
    if pos != |buf| {
      return Err(Trailing);
    }
    return Ok(got);
  }

  // ---- under the seal ----

  // A cipher under one key: opening what it sealed under the same nonce gives the plaintext back.
  datatype Cipher = Cipher(seal: (Bytes, Bytes) -> Bytes, open: (Bytes, Bytes) -> Option<Bytes>)

  ghost predicate Opens(c: Cipher) {
    forall nonce, plain :: c.open(nonce, c.seal(nonce, plain)) == Some(plain)
  }

  function SealAttested(c: Cipher, nonce: Bytes, x: AttestedCid): Bytes
    requires SoundAttested(x)
  {
    nonce + c.seal(nonce, AttestedLayout(x))
  }

  // Succeeds with `x` exactly when the cipher opens the tail, under the leading nonce, to `x` laid out.
  method DecryptCidAttested(c: Cipher, cid: Bytes) returns (r: Result<AttestedCid, Error>)
    ensures forall x :: r == Ok(x) <==>
                && SoundAttested(x) && |cid| >= AEAD_NONCE_LEN
                && c.open(cid[..AEAD_NONCE_LEN], cid[AEAD_NONCE_LEN..]) == Some(AttestedLayout(x))
    ensures forall nonce, x ::
              Opens(c) && SoundAttested(x) && |nonce| == AEAD_NONCE_LEN && cid == SealAttested(c, nonce, x)
              ==> r == Ok(x)
  {
    forall nonce, x | Opens(c) && SoundAttested(x) && |nonce| == AEAD_NONCE_LEN && cid == SealAttested(c, nonce, x)
      ensures |cid| >= AEAD_NONCE_LEN && c.open(cid[..AEAD_NONCE_LEN], cid[AEAD_NONCE_LEN..]) == Some(AttestedLayout(x))
    {
      assert cid[..AEAD_NONCE_LEN] == nonce && cid[AEAD_NONCE_LEN..] == c.seal(nonce, AttestedLayout(x));
    }
    if |cid| < AEAD_NONCE_LEN {
      return Err(Aead);
    }
    var plain := c.open(cid[..AEAD_NONCE_LEN], cid[AEAD_NONCE_LEN..]);
    if plain.None? {
      return Err(Aead);
    }
    r := ParseAttestedCid(plain.value);
    forall x | SoundAttested(x) && plain.value == AttestedLayout(x) ensures r == Ok(x) {
      assert plain.value == AttestedLayout(x) + [];
    }
  }
}
