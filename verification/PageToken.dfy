/** The ListSessions page token (src/pagination.rs): a version prefix and the last
    session id, in strict unpadded base64url (sections 3.5 and 5 of RFC 4648).
    Strings are their UTF-8 bytes. */
module PageTokens {
  import opened Sessions

  type Byte = x: int | 0 <= x < 256
  type Sextet = x: int | 0 <= x < 64
  type Text = seq<Byte>

  datatype PageTokenError = TooLong | NotBase64 | NotUtf8 | WrongVersion | EmptyCursor
  datatype Decoded = Cursor(id: Text) | Refused(error: PageTokenError)

  const MAX_PAGE_TOKEN_CHARS := 1024

  /** "v1:" */
  const TOKEN_VERSION_PREFIX: Text := [0x76, 0x31, 0x3A]

  // ---- The base64url alphabet ----------------------------------------------

  /** A-Z, a-z, 0-9, '-', '_'. */
  function Symbol(v: Sextet): Byte {
    if v < 26 then 65 + v else if v < 52 then 71 + v else if v < 62 then v - 4 else if v == 62 then 45 else 95
  }

  function SymbolValue(c: Byte): Option<Sextet> {
    if 65 <= c <= 90 then Some(c - 65)
    else if 97 <= c <= 122 then Some(c - 71)
    else if 48 <= c <= 57 then Some(c + 4)
    else if c == 45 then Some(62)
    else if c == 95 then Some(63)
    else None
  }

  lemma SymbolRoundTrip(v: Sextet, c: Byte)
    ensures SymbolValue(Symbol(v)) == Some(v)
    ensures SymbolValue(c).Some? ==> Symbol(SymbolValue(c).value) == c
  {
  }

  function Symbols(s: seq<Sextet>): Text {
    if s == [] then [] else [Symbol(s[0])] + Symbols(s[1..])
  }

  function Values(t: Text): Option<seq<Sextet>> {
    if t == [] then Some([])
    else if SymbolValue(t[0]).None? || Values(t[1..]).None? then None
    else Some([SymbolValue(t[0]).value] + Values(t[1..]).value)
  }

  lemma {:induction false} SymbolsRoundTrip(s: seq<Sextet>)
    ensures |Symbols(s)| == |s| && Values(Symbols(s)) == Some(s)
  {
    if s != [] {
      SymbolsRoundTrip(s[1..]);
      SymbolRoundTrip(s[0], 0);
      assert s == [s[0]] + s[1..];
      assert Symbols(s)[1..] == Symbols(s[1..]);
    }
  }

  lemma {:induction false} ValuesRoundTrip(t: Text)
    requires Values(t).Some?
    ensures Symbols(Values(t).value) == t
  {
    if t != [] {
      ValuesRoundTrip(t[1..]);
      assert Values(t).value[1..] == Values(t[1..]).value;
    }
  }

  // ---- Groups of bits ------------------------------------------------------

  function First(x: Byte): Sextet { x / 4 }

  function Second(x: Byte, y: Byte): Sextet { x % 4 * 16 + y / 16 }

  function Third(y: Byte, z: Byte): Sextet { y % 16 * 4 + z / 64 }

  function Fourth(z: Byte): Sextet { z % 64 }

  function ToSextets(b: Text): seq<Sextet> {
    if |b| == 0 then []
    else if |b| == 1 then [First(b[0]), Second(b[0], 0)]
    else if |b| == 2 then [First(b[0]), Second(b[0], b[1]), Third(b[1], 0)]
    else [First(b[0]), Second(b[0], b[1]), Third(b[1], b[2]), Fourth(b[2])] + ToSextets(b[3..])
  }

  function High(x: Sextet, y: Sextet): Byte { x as int * 4 + y / 16 }

  function Middle(x: Sextet, y: Sextet): Byte { x as int % 16 * 16 + y / 4 }

  function Low(x: Sextet, y: Sextet): Byte { x as int % 4 * 64 + y }

  /** Strict: no lone final symbol, and the unused bits of the last one are zero. */
  function FromSextets(s: seq<Sextet>): Option<Text> {
    if |s| == 0 then Some([])
    else if |s| == 1 then None
    else if |s| == 2 then (if s[1] % 16 != 0 then None else Some([High(s[0], s[1])]))
    else if |s| == 3 then (if s[2] % 4 != 0 then None else Some([High(s[0], s[1]), Middle(s[1], s[2])]))
    else if FromSextets(s[4..]).None? then None
    else Some([High(s[0], s[1]), Middle(s[1], s[2]), Low(s[2], s[3])] + FromSextets(s[4..]).value)
  }

  lemma GroupOfBytes(x: Byte, y: Byte, z: Byte)
    ensures High(First(x), Second(x, y)) == x
    ensures Middle(Second(x, y), Third(y, z)) == y
    ensures Low(Third(y, z), Fourth(z)) == z
    ensures Second(x, 0) % 16 == 0 && Third(y, 0) % 4 == 0
  {
  }

  lemma GroupOfSextets(p: Sextet, q: Sextet, r: Sextet, s: Sextet)
    ensures First(High(p, q)) == p
    ensures Second(High(p, q), Middle(q, r)) == q && (q % 16 == 0 ==> Second(High(p, q), 0) == q)
    ensures Third(Middle(q, r), Low(r, s)) == r && (r % 4 == 0 ==> Third(Middle(q, r), 0) == r)
    ensures Fourth(Low(r, s)) == s
  {
  }

  lemma {:induction false} FromGroup(p: Sextet, q: Sextet, r: Sextet, s: Sextet, rest: seq<Sextet>)
    requires FromSextets(rest).Some?
    ensures FromSextets([p, q, r, s] + rest) == Some([High(p, q), Middle(q, r), Low(r, s)] + FromSextets(rest).value)
  {
    var all := [p, q, r, s] + rest;
    assert all[4..] == rest && all[0] == p && all[1] == q && all[2] == r && all[3] == s;
  }

  lemma {:induction false} FromEnd(p: Sextet, q: Sextet, r: Sextet)
    ensures q % 16 == 0 ==> FromSextets([p, q]) == Some([High(p, q)])
    ensures r % 4 == 0 ==> FromSextets([p, q, r]) == Some([High(p, q), Middle(q, r)])
  {
  }

  lemma {:induction false} FromToOne(x: Byte)
    ensures FromSextets(ToSextets([x])) == Some([x])
  {
    var p, q := First(x), Second(x, 0);
    assert ToSextets([x]) == [p, q];
    FromEnd(p, q, 0);
    GroupOfBytes(x, 0, 0);
  }

  lemma {:induction false} FromToTwo(x: Byte, y: Byte)
    ensures FromSextets(ToSextets([x, y])) == Some([x, y])
  {
    var p, q, r := First(x), Second(x, y), Third(y, 0);
    assert ToSextets([x, y]) == [p, q, r];
    FromEnd(p, q, r);
    GroupOfBytes(x, y, 0);
  }

  lemma {:induction false} FromToSextets(b: Text)
    ensures FromSextets(ToSextets(b)) == Some(b)
  {
    if |b| == 1 {
      FromToOne(b[0]);
      assert b == [b[0]];
    } else if |b| == 2 {
      FromToTwo(b[0], b[1]);
      assert b == [b[0], b[1]];
    } else if |b| >= 3 {
      FromToSextets(b[3..]);
      GroupOfBytes(b[0], b[1], b[2]);
      FromGroup(First(b[0]), Second(b[0], b[1]), Third(b[1], b[2]), Fourth(b[2]), ToSextets(b[3..]));
      assert b == [b[0], b[1], b[2]] + b[3..];
    }
  }

  lemma {:induction false} SextetCount(b: Text)
    ensures |ToSextets(b)| == (4 * |b| + 2) / 3
  {
    if |b| >= 3 { SextetCount(b[3..]); }
  }

  lemma {:induction false} ToFromSextets(s: seq<Sextet>)
    requires FromSextets(s).Some?
    ensures ToSextets(FromSextets(s).value) == s
  {
    if |s| == 2 {
      GroupOfSextets(s[0], s[1], 0, 0);
      assert s == [s[0], s[1]];
    } else if |s| == 3 {
      GroupOfSextets(s[0], s[1], s[2], 0);
      assert s == [s[0], s[1], s[2]];
    } else if |s| >= 4 {
      GroupOfSextets(s[0], s[1], s[2], s[3]);
      ToFromSextets(s[4..]);
      var b := FromSextets(s).value;
      assert b[3..] == FromSextets(s[4..]).value;
      assert s == [s[0], s[1], s[2], s[3]] + s[4..];
    }
  }

  function EncodeBase64(b: Text): Text { Symbols(ToSextets(b)) }

  function DecodeBase64(t: Text): Option<Text> { if Values(t).None? then None else FromSextets(Values(t).value) }

  lemma {:induction false} Base64RoundTrips(b: Text, t: Text)
    ensures DecodeBase64(EncodeBase64(b)) == Some(b) && |EncodeBase64(b)| == (4 * |b| + 2) / 3
    ensures DecodeBase64(t).Some? ==> EncodeBase64(DecodeBase64(t).value) == t
  {
    FromToSextets(b);
    SextetCount(b);
    SymbolsRoundTrip(ToSextets(b));
    if DecodeBase64(t).Some? {
      ToFromSextets(Values(t).value);
      ValuesRoundTrip(t);
    }
  }

  // ---- UTF-8 ---------------------------------------------------------------

  predicate Continuation(b: Byte) { 0x80 <= b <= 0xBF }

  /** Section 4 of RFC 3629. */
  predicate ValidUtf8(b: Text) {
    if b == [] then true
    else if b[0] <= 0x7F then ValidUtf8(b[1..])
    else if 0xC2 <= b[0] <= 0xDF then |b| >= 2 && Continuation(b[1]) && ValidUtf8(b[2..])
    else if 0xE0 <= b[0] <= 0xEF then
      |b| >= 3 && Continuation(b[1]) && Continuation(b[2])
      && (b[0] == 0xE0 ==> b[1] >= 0xA0) && (b[0] == 0xED ==> b[1] <= 0x9F) && ValidUtf8(b[3..])
    else if 0xF0 <= b[0] <= 0xF4 then
      |b| >= 4 && Continuation(b[1]) && Continuation(b[2]) && Continuation(b[3])
      && (b[0] == 0xF0 ==> b[1] >= 0x90) && (b[0] == 0xF4 ==> b[1] <= 0x8F) && ValidUtf8(b[4..])
    else false
  }

  // ---- The token -----------------------------------------------------------

  function EncodePageToken(id: Text): Text { EncodeBase64(TOKEN_VERSION_PREFIX + id) }

  function DecodePageToken(token: Text): Decoded {
    if |token| > MAX_PAGE_TOKEN_CHARS then Refused(TooLong)
    else
      var bytes := DecodeBase64(token);
      if bytes.None? then Refused(NotBase64)
      else if !ValidUtf8(bytes.value) then Refused(NotUtf8)
      else if !(TOKEN_VERSION_PREFIX <= bytes.value) then Refused(WrongVersion)
      else if |bytes.value| == |TOKEN_VERSION_PREFIX| then Refused(EmptyCursor)
      else Cursor(bytes.value[|TOKEN_VERSION_PREFIX|..])
  }

  lemma {:induction false} PrefixIsAscii(id: Text)
    ensures ValidUtf8(TOKEN_VERSION_PREFIX + id) <==> ValidUtf8(id)
    ensures (TOKEN_VERSION_PREFIX + id)[3..] == id
  {
    var all := TOKEN_VERSION_PREFIX + id;
    assert all[1..] == [0x31, 0x3A] + id;
    assert all[1..][1..] == [0x3A] + id;
    assert all[1..][1..][1..] == id;
    assert ValidUtf8(all) == ValidUtf8(all[1..]) == ValidUtf8(all[1..][1..]) == ValidUtf8(id);
  }

  /** A token decodes back to its id exactly when the id is not empty and has at most
      765 bytes; a longer one makes a token no server accepts. */
  lemma {:induction false} DecodeInvertsEncode(id: Text)
    requires ValidUtf8(id)
    ensures DecodePageToken(EncodePageToken(id)) ==
      if |id| > 765 then Refused(TooLong) else if id == [] then Refused(EmptyCursor) else Cursor(id)
  {
    Base64RoundTrips(TOKEN_VERSION_PREFIX + id, []);
    PrefixIsAscii(id);
  }

  /** Only one token stands for a cursor: an accepted token is the encoding of what
      it decodes to. */
  lemma {:induction false} EncodeInvertsDecode(token: Text)
    requires DecodePageToken(token).Cursor?
    ensures EncodePageToken(DecodePageToken(token).id) == token
    ensures ValidUtf8(DecodePageToken(token).id) && DecodePageToken(token).id != []
  {
    var bytes := DecodeBase64(token).value;
    Base64RoundTrips([], token);
    assert bytes == TOKEN_VERSION_PREFIX + bytes[3..];
    PrefixIsAscii(bytes[3..]);
  }

  lemma {:induction false} FirstGroup(id: Text)
    ensures |ToSextets(TOKEN_VERSION_PREFIX + id)| >= 4
    ensures ToSextets(TOKEN_VERSION_PREFIX + id)[..4] == [29, 35, 4, 58]
  {
  }

  lemma {:induction false} ShiftedFirstByte(s: seq<Sextet>)
    requires |s| >= 3 && s[0] == 35 && s[1] == 4 && FromSextets(s).Some?
    ensures FromSextets(s).value != [] && FromSextets(s).value[0] == 0x8C && !ValidUtf8(FromSextets(s).value)
  {
  }

  /** A token that lost its first character never decodes, whatever it carried: the
      shifted prefix begins with a bare continuation byte. */
  lemma {:induction false} FrontTruncationRejected(id: Text)
    ensures EncodePageToken(id) != []
    ensures DecodePageToken(EncodePageToken(id)[1..]).Refused?
  {
    var s := ToSextets(TOKEN_VERSION_PREFIX + id);
    FirstGroup(id);
    SymbolsRoundTrip(s);
    SymbolsRoundTrip(s[1..]);
    assert Symbols(s)[1..] == Symbols(s[1..]);
    if FromSextets(s[1..]).Some? {
      assert s[..4][1] == s[1] && s[..4][2] == s[2];
      ShiftedFirstByte(s[1..]);
    }
  }
}
