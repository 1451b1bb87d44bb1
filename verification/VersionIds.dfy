/** Version identifiers: the unpadded URL-safe base64 of a 64-byte digest, section 5 of RFC 4648
    (internal/dbstore/keys.go, validVersionID in cmd/reputationdbd/internal/svc/fetch/v1/fetch.go). */
module VersionIds {
  import opened Prefixes

  type Byte = b: int | 0 <= b < 256
  type Digest = d: seq<Byte> | |d| == DIGEST_LENGTH witness seq(64, _ => 0)

  const DIGEST_LENGTH := 64
  const VERSION_ID_LENGTH := 86

  // ---- the alphabet ----

  function Letter(v: int): char
    requires 0 <= v < 64
  {
    if v < 26 then 'A' + v as char
    else if v < 52 then 'a' + (v - 26) as char
    else if v < 62 then '0' + (v - 52) as char
    else if v == 62 then '-' else '_'
  }

  function Value(c: char): Option<int> {
    if 'A' <= c <= 'Z' then Some(c as int - 'A' as int)
    else if 'a' <= c <= 'z' then Some(c as int - 'a' as int + 26)
    else if '0' <= c <= '9' then Some(c as int - '0' as int + 52)
    else if c == '-' then Some(62)
    else if c == '_' then Some(63) else None
  }

  /** Letters and six-bit values correspond one to one. */
  lemma LettersAreValues(c: char, v: int)
    requires 0 <= v < 64
    ensures Value(c) == Some(v) <==> c == Letter(v)
    ensures Letter(v) != '\r' && Letter(v) != '\n'
  {
    if v < 26 { assert 'A' + v as char == (65 + v) as char; }
    else if v < 52 { assert 'a' + (v - 26) as char == (71 + v) as char; }
    else if v < 62 { assert '0' + (v - 52) as char == (v - 4) as char; }
  }

  /** The characters from one to another. */
  function Range(first: char, last: char): string
    requires first <= last < 0x7f as char
  {
    seq(last as int - first as int + 1, i requires 0 <= i <= last as int - first as int => (first as int + i) as char)
  }

  /** The letters are those of the URL-safe alphabet of section 5 of RFC 4648, in its order. */
  lemma LettersAreTheAlphabet(v: int)
    requires 0 <= v < 64
    ensures
      var alphabet := Range('A', 'Z') + Range('a', 'z') + Range('0', '9') + "-_";
      |alphabet| == 64 && Letter(v) == alphabet[v] && Value(alphabet[v]) == Some(v)
  {
    LettersAreValues(Letter(v), v);
  }

  // ---- encoding and decoding ----

  function Quad(x: Byte, y: Byte, z: Byte): (q: string)
    ensures |q| == 4
  {
    [Letter(x / 4), Letter(x % 4 * 16 + y / 16), Letter(y % 16 * 4 + z / 64), Letter(z % 64)]
  }

  function Triple(q: string): (t: Option<seq<Byte>>)
    requires |q| == 4
    ensures t.Some? ==> |t.value| == 3
  {
    if Value(q[0]) == None || Value(q[1]) == None || Value(q[2]) == None || Value(q[3]) == None then None
    else
      var a, b, c, d := Value(q[0]).value, Value(q[1]).value, Value(q[2]).value, Value(q[3]).value;
      Some([a * 4 + b / 16, b % 16 * 16 + c / 4, c % 4 * 64 + d])
  }

  /** Each three bytes as four letters; one byte left over as two, two as three. */
  function Encode(bs: seq<Byte>): string {
    if |bs| == 0 then ""
    else if |bs| == 1 then Quad(bs[0], 0, 0)[..2]
    else if |bs| == 2 then Quad(bs[0], bs[1], 0)[..3]
    else Quad(bs[0], bs[1], bs[2]) + Encode(bs[3..])
  }

  /** The first n of three bytes, when the others are zero. */
  function First(t: Option<seq<Byte>>, n: nat): Option<seq<Byte>>
    requires (t.Some? ==> |t.value| == 3) && 1 <= n <= 2
  {
    if t == None || t.value[2] != 0 || (n == 1 && t.value[1] != 0) then None else Some(t.value[..n])
  }

  /** The strict decoder: only letters of the alphabet, no single letter left over, and no bit set
      beyond the last byte (section 3.5 of RFC 4648). A missing letter counts as zero bits. */
  function Decode(s: string): Option<seq<Byte>> {
    if |s| == 0 then Some([])
    else if |s| == 1 then None
    else if |s| == 2 then First(Triple([s[0], s[1], 'A', 'A']), 1)
    else if |s| == 3 then First(Triple([s[0], s[1], s[2], 'A']), 2)
    else
      match Triple(s[..4])
      case None => None
      case Some(t) => if Decode(s[4..]) == None then None else Some(t + Decode(s[4..]).value)
  }

  /** What Go's decoder reads: carriage returns and line feeds are skipped, even when strict. */
  function Stripped(s: string): string {
    if s == "" then ""
    else if s[0] == '\r' || s[0] == '\n' then Stripped(s[1..])
    else [s[0]] + Stripped(s[1..])
  }

  /** Stripping goes character by character and takes away line breaks only. */
  lemma {:induction false} StrippedByCharacter(s: string, t: string)
    ensures Stripped(s + t) == Stripped(s) + Stripped(t)
    ensures |s| == 1 ==> Stripped(s) == if s == "\r" || s == "\n" then "" else s
  {
    if s == "" {
      assert s + t == t;
    } else {
      StrippedByCharacter(s[1..], t);
      assert (s + t)[1..] == s[1..] + t;
    }
  }

  /** Four letters are read as the 24 bits of three bytes, the first letter's highest. */
  lemma QuadIsBigEndian(x: Byte, y: Byte, z: Byte)
    ensures
      var a, b, c, d := x / 4, x % 4 * 16 + y / 16, y % 16 * 4 + z / 64, z % 64;
      && Quad(x, y, z) == [Letter(a), Letter(b), Letter(c), Letter(d)]
      && ((a * 64 + b) * 64 + c) * 64 + d == (x * 256 + y) * 256 + z
  {}

  function VersionId(d: Digest): string { Encode(d) }

  predicate ValidVersionId(id: string) {
    |id| == VERSION_ID_LENGTH && Decode(Stripped(id)).Some?
  }

  // ---- the two are inverse ----

  lemma TripleInvertsQuad(x: Byte, y: Byte, z: Byte)
    ensures Triple(Quad(x, y, z)) == Some([x, y, z])
  {
    var a, b, c, d := x / 4, x % 4 * 16 + y / 16, y % 16 * 4 + z / 64, z % 64;
    LettersAreValues(Letter(a), a);
    LettersAreValues(Letter(b), b);
    LettersAreValues(Letter(c), c);
    LettersAreValues(Letter(d), d);
    assert a * 4 + b / 16 == x && b % 16 * 16 + c / 4 == y && c % 4 * 64 + d == z;
  }

  lemma QuadInvertsTriple(q: string)
    requires |q| == 4 && Triple(q).Some?
    ensures var t := Triple(q).value; Quad(t[0], t[1], t[2]) == q
  {
    var a, b, c, d := Value(q[0]).value, Value(q[1]).value, Value(q[2]).value, Value(q[3]).value;
    LettersAreValues(q[0], a);
    LettersAreValues(q[1], b);
    LettersAreValues(q[2], c);
    LettersAreValues(q[3], d);
    SextetsRejoin(a, b, c, d);
  }

  /** Four six-bit values as three bytes and back. */
  lemma SextetsRejoin(a: int, b: int, c: int, d: int)
    requires 0 <= a < 64 && 0 <= b < 64 && 0 <= c < 64 && 0 <= d < 64
    ensures
      var x, y, z := a * 4 + b / 16, b % 16 * 16 + c / 4, c % 4 * 64 + d;
      && x / 4 == a && x % 4 * 16 + y / 16 == b && y % 16 * 4 + z / 64 == c && z % 64 == d
  {
    assert (a * 4 + b / 16) % 4 == b / 16;
    assert (b % 16 * 16 + c / 4) % 16 == c / 4;
    assert (c % 4 * 64 + d) % 64 == d;
  }

  lemma DecodeInvertsOne(x: Byte)
    ensures Decode(Encode([x])) == Some([x])
  {
    TripleInvertsQuad(x, 0, 0);
    var q, s := Quad(x, 0, 0), Encode([x]);
    assert s == q[..2] && [s[0], s[1], 'A', 'A'] == q;
    assert [x, 0, 0][..1] == [x];
  }

  lemma DecodeInvertsTwo(x: Byte, y: Byte)
    ensures Decode(Encode([x, y])) == Some([x, y])
  {
    TripleInvertsQuad(x, y, 0);
    var q, s := Quad(x, y, 0), Encode([x, y]);
    assert s == q[..3] && [s[0], s[1], s[2], 'A'] == q;
    assert [x, y, 0][..2] == [x, y];
  }

  lemma DecodeInvertsShort(bs: seq<Byte>)
    requires |bs| < 3
    ensures Decode(Encode(bs)) == Some(bs)
  {
    if |bs| == 1 {
      assert bs == [bs[0]];
      DecodeInvertsOne(bs[0]);
    } else if |bs| == 2 {
      assert bs == [bs[0], bs[1]];
      DecodeInvertsTwo(bs[0], bs[1]);
    }
  }

  lemma DecodeAppend(q: string, rest: string)
    requires |q| == 4 && Triple(q).Some? && Decode(rest).Some?
    ensures Decode(q + rest) == Some(Triple(q).value + Decode(rest).value)
  {
    assert (q + rest)[..4] == q && (q + rest)[4..] == rest;
  }

  lemma FirstThree<T>(s: seq<T>)
    requires |s| >= 3
    ensures s == [s[0], s[1], s[2]] + s[3..]
  {}

  lemma DecodeInvertsMore(bs: seq<Byte>)
    requires |bs| >= 3 && Decode(Encode(bs[3..])) == Some(bs[3..])
    ensures Decode(Encode(bs)) == Some(bs)
  {
    TripleInvertsQuad(bs[0], bs[1], bs[2]);
    DecodeAppend(Quad(bs[0], bs[1], bs[2]), Encode(bs[3..]));
    FirstThree(bs);
  }

  lemma {:induction false} DecodeInvertsEncode(bs: seq<Byte>)
    ensures Decode(Encode(bs)) == Some(bs)
    decreases |bs|
  {
    if |bs| < 3 {
      DecodeInvertsShort(bs);
    } else {
      DecodeInvertsEncode(bs[3..]);
      DecodeInvertsMore(bs);
    }
  }

  lemma {:induction false} EncodeInvertsDecode(s: string)
    requires Decode(s).Some?
    ensures Encode(Decode(s).value) == s
    decreases |s|
  {
    if |s| == 0 {
    } else if |s| == 2 {
      var q := [s[0], s[1], 'A', 'A'];
      QuadInvertsTriple(q);
      assert q[..2] == s;
    } else if |s| == 3 {
      var q := [s[0], s[1], s[2], 'A'];
      QuadInvertsTriple(q);
      assert q[..3] == s;
    } else {
      QuadInvertsTriple(s[..4]);
      EncodeInvertsDecode(s[4..]);
      assert Decode(s).value[3..] == Decode(s[4..]).value;
      assert s == s[..4] + s[4..];
    }
  }

  /** Four letters for three bytes, rounded up. */
  lemma {:induction false} EncodedLength(bs: seq<Byte>)
    ensures |Encode(bs)| == (4 * |bs| + 2) / 3
    decreases |bs|
  {
    if |bs| >= 3 {
      EncodedLength(bs[3..]);
    }
  }

  lemma {:induction false} EncodedLetters(bs: seq<Byte>, c: char)
    requires c in Encode(bs)
    ensures c != '\r' && c != '\n'
    decreases |bs|
  {
    DecodeInvertsEncode(bs);
    DecodedLetters(Encode(bs), c);
  }

  lemma {:induction false} DecodedLetters(s: string, c: char)
    requires Decode(s).Some? && c in s
    ensures Value(c).Some?
    decreases |s|
  {
    if |s| >= 4 {
      assert s == s[..4] + s[4..];
      if c in s[4..] { DecodedLetters(s[4..], c); }
    }
  }

  lemma {:induction false} StrippedKeeps(s: string)
    ensures |Stripped(s)| <= |s|
    ensures (forall c :: c in s ==> c != '\r' && c != '\n') <==> Stripped(s) == s
    ensures Stripped(s) == s <==> |Stripped(s)| == |s|
  {
    if s != "" {
      StrippedKeeps(s[1..]);
      assert s == [s[0]] + s[1..];
      assert s[0] in s && forall c :: c in s[1..] ==> c in s;
      if Stripped(s) == s {
        assert Stripped(s)[1..] == s[1..];
      }
    }
  }

  // ---- which strings the fetch service accepts ----

  /** Every version's identifier is accepted. */
  lemma AcceptsEveryVersion(d: Digest)
    ensures |VersionId(d)| == VERSION_ID_LENGTH && ValidVersionId(VersionId(d))
  {
    EncodedLength(d);
    DecodeInvertsEncode(d);
    forall c | c in VersionId(d) ensures c != '\r' && c != '\n' { EncodedLetters(d, c); }
    StrippedKeeps(VersionId(d));
  }

  /** Different digests have different identifiers. */
  lemma VersionIdsDiffer(d: Digest, e: Digest)
    ensures VersionId(d) == VersionId(e) ==> d == e
  {
    DecodeInvertsEncode(d);
    DecodeInvertsEncode(e);
  }

  /** Accepted are the strings of the right length that, line breaks aside, encode some bytes. */
  lemma AcceptedExactlyEncodings(id: string)
    ensures ValidVersionId(id) <==> |id| == VERSION_ID_LENGTH && exists bs :: Encode(bs) == Stripped(id)
  {
    if ValidVersionId(id) {
      EncodeInvertsDecode(Stripped(id));
    }
    if bs :| Encode(bs) == Stripped(id) {
      DecodeInvertsEncode(bs);
    }
  }

  /** The identifiers of digests are exactly the accepted strings without line breaks. */
  lemma AcceptedExactlyVersions(id: string)
    ensures (exists d: Digest :: VersionId(d) == id) <==> ValidVersionId(id) && '\r' !in id && '\n' !in id
  {
    if d: Digest :| VersionId(d) == id {
      AcceptsEveryVersion(d);
      forall c | c in id ensures c != '\r' && c != '\n' { EncodedLetters(d, c); }
    }
    if ValidVersionId(id) && '\r' !in id && '\n' !in id {
      StrippedKeeps(id);
      var bs := Decode(id).value;
      EncodeInvertsDecode(id);
      EncodedLength(bs);
      var d: Digest := bs;
      assert VersionId(d) == id;
    }
  }

  /** The line breaks do matter: 84 letters and a line break are accepted, and name no version. */
  lemma LineBreaksSlipThrough()
    ensures var id := seq(84, _ => 'A') + "\r\n"; ValidVersionId(id) && forall d: Digest :: VersionId(d) != id
  {
    var letters := seq(84, _ => 'A');
    var id := letters + "\r\n";
    StripAppends(letters, "\r\n");
    StrippedKeeps(letters);
    assert Stripped("\r\n") == "" by { assert "\r\n"[1..] == "\n"; }
    assert Stripped(id) == letters;
    ZerosDecode(84);
    assert '\r' in id;
    AcceptedExactlyVersions(id);
  }

  lemma {:induction false} StripAppends(s: string, t: string)
    ensures Stripped(s + t) == Stripped(s) + Stripped(t)
  {
    if s == "" {
      assert s + t == t;
    } else {
      StripAppends(s[1..], t);
      assert (s + t)[1..] == s[1..] + t && (s + t)[0] == s[0];
      assert [s[0]] + (Stripped(s[1..]) + Stripped(t)) == [s[0]] + Stripped(s[1..]) + Stripped(t);
    }
  }

  lemma {:induction false} ZerosDecode(n: nat)
    requires n % 4 == 0
    ensures Decode(seq(n, _ => 'A')).Some?
  {
    if n > 0 {
      ZerosDecode(n - 4);
      assert seq(n, _ => 'A')[4..] == seq(n - 4, _ => 'A');
    }
  }
}
