// Standard Webhooks signatures: secrets, signing, and verifying a header with
// several space-separated signatures, over an abstract MAC and base64.

module Signing {
  import opened Options
  import opened Texts
  import opened Numerals

  type Bytes = seq<bv8>

  /** HMAC-SHA256 as mac(key, message), base64 as encode and decode, String::as_bytes. */
  datatype Primitives = Primitives(
    mac: (Bytes, Bytes) -> Bytes,
    encode: Bytes -> string,
    decode: string -> Option<Bytes>,
    utf8: string -> Bytes)

  /** Section 4 of RFC 4648, characters with the padding. */
  predicate Base64Char(c: char) {
    'A' <= c <= 'Z' || 'a' <= c <= 'z' || '0' <= c <= '9' || c == '+' || c == '/' || c == '='
  }

  predicate Base64Text(s: string) {
    forall i :: 0 <= i < |s| ==> Base64Char(s[i])
  }

  ghost predicate Lawful(p: Primitives) {
    forall b :: p.decode(p.encode(b)) == Some(b) && Base64Text(p.encode(b))
  }

  /** A decoder that takes nothing but the encoder's output (section 3.5 of RFC 4648). */
  ghost predicate Canonical(p: Primitives) {
    forall s :: p.decode(s).Some? ==> s == p.encode(p.decode(s).value)
  }

  const SECRET_PREFIX: string := "whsec_"
  const VERSION: string := "v1,"
  const TOLERANCE: int := 300

  datatype Error = InvalidTimestamp | TimestampExpired(age: int, tolerance: int) | SignatureMismatch
  datatype Verdict = Ok | Err(error: Error)

  // --------------------------------------------------------------------- signing

  function WithoutPrefix(s: string): string {
    if SECRET_PREFIX <= s then s[|SECRET_PREFIX|..] else s
  }

  function DecodeSecret(p: Primitives, secret: string): Bytes {
    match p.decode(WithoutPrefix(secret))
    case Some(key) => key
    case None => p.utf8(secret)
  }

  function Content(id: string, timestamp: string, body: string): string {
    id + "." + timestamp + "." + body
  }

  function Mac(p: Primitives, secret: string, id: string, timestamp: string, body: string): Bytes {
    p.mac(DecodeSecret(p, secret), p.utf8(Content(id, timestamp, body)))
  }

  function Sign(p: Primitives, secret: string, id: string, timestamp: string, body: string): string {
    VERSION + p.encode(Mac(p, secret, id, timestamp, body))
  }

  // ---------------------------------------------------------------------- header

  /** Unicode White_Space, what str::trim removes. */
  predicate Space(c: char) {
    '\U{9}' <= c <= '\U{D}' || c == ' ' || c == '\U{85}' || c == '\U{A0}' || c == '\U{1680}'
    || '\U{2000}' <= c <= '\U{200A}' || c == '\U{2028}' || c == '\U{2029}' || c == '\U{202F}'
    || c == '\U{205F}' || c == '\U{3000}'
  }

  function TrimLeft(s: string): string {
    if s != "" && Space(s[0]) then TrimLeft(s[1..]) else s
  }

  function TrimRight(s: string): string {
    if s != "" && Space(s[|s| - 1]) then TrimRight(s[..|s| - 1]) else s
  }

  function Trim(s: string): string {
    TrimRight(TrimLeft(s))
  }

  /** header[i..j] lies between two spaces, or a space and an end. */
  predicate Part(header: string, i: int, j: int) {
    0 <= i <= j <= |header|
    && ' ' !in header[i..j]
    && (i == 0 || header[i - 1] == ' ')
    && (j == |header| || header[j] == ' ')
  }

  ghost predicate HasPart(header: string, token: string) {
    exists i, j :: Part(header, i, j) && header[i..j] == token
  }

  /** The token is trimmed, carries the version and decodes to the MAC. */
  predicate Fits(p: Primitives, mac: Bytes, part: string) {
    var token := Trim(part);
    VERSION <= token && p.decode(token[|VERSION|..]) == Some(mac)
  }

  // ------------------------------------------------------------------- timestamps

  function Abs(n: int): nat {
    if n < 0 then -n else n
  }

  function Age(now: int, timestamp: int): int {
    Wrap64(Abs(Wrap64(now - timestamp)))
  }

  // ------------------------------------------------------------------ verification

  function Limit(tolerance: Option<int>): int {
    if tolerance.Some? then tolerance.value else TOLERANCE
  }

  ghost function VerdictOf(p: Primitives, secret: string, id: string, timestamp: string, header: string,
                           body: string, tolerance: Option<int>, now: int): Verdict {
    var limit := Limit(tolerance);
    match Parse(timestamp, I64_MIN, I64_MAX)
    case None => Err(InvalidTimestamp)
    case Some(ts) =>
      if Age(now, ts) > limit then Err(TimestampExpired(Age(now, ts), limit))
      else if exists part :: part in Split(header, ' ') && Fits(p, Mac(p, secret, id, timestamp, body), part) then Ok
      else Err(SignatureMismatch)
  }

  lemma OrIsZero(a: bv8, b: bv8)
    ensures a | b == 0 <==> a == 0 && b == 0
  {
  }

  /** The comparison that looks at every byte: the fold of the differences is zero
      exactly when no byte differs. */
  method SameBytes(a: Bytes, b: Bytes) returns (same: bool)
    ensures same <==> a == b
  {
    if |a| != |b| {
      return false;
    }
    var diff: bv8 := 0;
    for i := 0 to |a|
      invariant diff == 0 <==> a[..i] == b[..i]
    {
      Differ(a[i], b[i]);
      OrIsZero(diff, a[i] ^ b[i]);
      assert a[..i + 1] == a[..i] + [a[i]] && b[..i + 1] == b[..i] + [b[i]];
      diff := diff | (a[i] ^ b[i]);
    }
    assert a[..|a|] == a && b[..|a|] == b;
    same := diff == 0;
  }

  lemma Differ(a: bv8, b: bv8)
    ensures a ^ b == 0 <==> a == b
  {
  }

  method Verify(p: Primitives, secret: string, id: string, timestamp: string, header: string,
                body: string, tolerance: Option<int>, now: int) returns (verdict: Verdict)
    ensures verdict == VerdictOf(p, secret, id, timestamp, header, body, tolerance, now)
  {
    var limit := Limit(tolerance);
    var parsed := Parse(timestamp, I64_MIN, I64_MAX);
    if parsed.None? {
      return Err(InvalidTimestamp);
    }
    var age := Age(now, parsed.value);
    if age > limit {
      return Err(TimestampExpired(age, limit));
    }
    var expected := Mac(p, secret, id, timestamp, body);
    var parts := Split(header, ' ');
    for i := 0 to |parts|
      invariant forall k :: 0 <= k < i ==> !Fits(p, expected, parts[k])
    {
      var token := Trim(parts[i]);
      if token == "" || !(VERSION <= token) {
        continue;
      }
      var bytes := p.decode(token[|VERSION|..]);
      if bytes.None? {
        continue;
      }
      var same := SameBytes(bytes.value, expected);
      if same {
        assert parts[i] in parts && Fits(p, expected, parts[i]);
        return Ok;
      }
    }
    return Err(SignatureMismatch);
  }

  // ------------------------------------------------------------------- the header

  lemma {:induction false} SplitExactly(s: string, i: nat, j: nat) returns (k: nat)
    requires Part(s, i, j)
    ensures k < |Split(s, ' ')| && Split(s, ' ')[k] == s[i..j]
    ensures k == 0 <==> i == 0
    decreases |s|
  {
    k := 0;
    if i > 0 {
      assert s[1..][i - 1..j - 1] == s[i..j];
      k := SplitExactly(s[1..], i - 1, j - 1);
      if s[0] == ' ' {
        k := k + 1;
      }
    } else if j > 0 {
      assert s[0..j][0] == s[0] && s[0..j] == [s[0]] + s[1..][0..j - 1];
      k := SplitExactly(s[1..], 0, j - 1);
    }
  }

  lemma {:induction false} SplitOnlyParts(s: string, k: nat) returns (i: nat, j: nat)
    requires k < |Split(s, ' ')|
    ensures Part(s, i, j) && s[i..j] == Split(s, ' ')[k]
    ensures k == 0 ==> i == 0
    ensures k > 0 ==> i > 0
    decreases |s|
  {
    if s == "" || (s[0] == ' ' && k == 0) {
      i, j := 0, 0;
    } else if s[0] == ' ' {
      i, j := SplitOnlyParts(s[1..], k - 1);
      assert s[1..][i..j] == s[i + 1..j + 1];
      i, j := i + 1, j + 1;
    } else {
      i, j := SplitOnlyParts(s[1..], k);
      assert s[1..][i..j] == s[i + 1..j + 1];
      if k == 0 {
        assert s[0..j + 1] == [s[0]] + s[1..][0..j];
        j := j + 1;
      } else {
        i, j := i + 1, j + 1;
      }
    }
  }

  /** Splitting yields exactly the texts between neighbouring spaces. */
  lemma SplitIsParts(s: string, token: string)
    ensures token in Split(s, ' ') <==> HasPart(s, token)
  {
    if token in Split(s, ' ') {
      var k :| 0 <= k < |Split(s, ' ')| && Split(s, ' ')[k] == token;
      var i, j := SplitOnlyParts(s, k);
    }
    if HasPart(s, token) {
      var i, j :| Part(s, i, j) && s[i..j] == token;
      var k := SplitExactly(s, i, j);
    }
  }

  // -------------------------------------------------------------------- timestamps

  predicate Fits64(n: int) {
    I64_MIN <= n <= I64_MAX
  }

  /** Times 2^63 seconds or more apart, whose age in 64 bits is still in the limit. */
  predicate WrapsInto(distance: nat, limit: int) {
    distance == -I64_MIN || (distance > -I64_MIN && -2 * I64_MIN - distance <= limit)
  }

  /** The age test is the distance test exactly up to wrap-around. */
  lemma AgeIsDistance(now: int, timestamp: int, limit: int)
    requires Fits64(now) && Fits64(timestamp) && Fits64(limit)
    ensures Age(now, timestamp) <= limit
            <==> Abs(now - timestamp) <= limit || WrapsInto(Abs(now - timestamp), limit)
  {
    var d := now - timestamp;
    if d > I64_MAX {
      assert Wrap64(d) == d + 2 * I64_MIN;
    } else if d < I64_MIN {
      assert Wrap64(d) == d - 2 * I64_MIN;
    } else {
      assert Wrap64(d) == d;
    }
  }

  /** The smallest distance that wraps in a release build: such a timestamp counts as
      recent. */
  lemma AgeWraps()
    ensures Age(1_700_000_000, I64_MIN + 1_700_000_000) == I64_MIN
    ensures Age(1_700_000_000, I64_MIN + 1_700_000_001) == I64_MAX
  {
    assert Wrap64(-I64_MIN) == I64_MIN;
  }

  // ------------------------------------------------------------------ main results

  /** A number no further than the limit from the clock. */
  predicate Timely(timestamp: string, tolerance: Option<int>, now: int) {
    var ts := Parse(timestamp, I64_MIN, I64_MAX);
    ts.Some? && Abs(now - ts.value) <= Limit(tolerance)
  }

  predicate Wrapped(timestamp: string, tolerance: Option<int>, now: int) {
    var ts := Parse(timestamp, I64_MIN, I64_MAX);
    ts.Some? && WrapsInto(Abs(now - ts.value), Limit(tolerance))
  }

  ghost predicate Signed(p: Primitives, secret: string, id: string, timestamp: string, header: string, body: string) {
    exists i, j :: Part(header, i, j) && Fits(p, Mac(p, secret, id, timestamp, body), header[i..j])
  }

  /** Verification succeeds exactly for a timely (or wrapped) stamp and a header one of whose
      space-separated parts, trimmed, is a v1 signature that decodes to the MAC. */
  lemma VerifiesExactly(p: Primitives, secret: string, id: string, timestamp: string, header: string,
                        body: string, tolerance: Option<int>, now: int)
    requires Fits64(now) && Fits64(Limit(tolerance))
    ensures VerdictOf(p, secret, id, timestamp, header, body, tolerance, now) == Ok
            <==> (Timely(timestamp, tolerance, now) || Wrapped(timestamp, tolerance, now))
                 && Signed(p, secret, id, timestamp, header, body)
  {
    var parsed := Parse(timestamp, I64_MIN, I64_MAX);
    var mac := Mac(p, secret, id, timestamp, body);
    if parsed.Some? {
      AgeIsDistance(now, parsed.value, Limit(tolerance));
    }
    if exists part :: part in Split(header, ' ') && Fits(p, mac, part) {
      var part :| part in Split(header, ' ') && Fits(p, mac, part);
      SplitIsParts(header, part);
    }
    if Signed(p, secret, id, timestamp, header, body) {
      var i, j :| Part(header, i, j) && Fits(p, mac, header[i..j]);
      SplitIsParts(header, header[i..j]);
    }
  }

  lemma TrimKeeps(s: string)
    requires s != "" && !Space(s[0]) && !Space(s[|s| - 1])
    ensures Trim(s) == s
  {
  }

  /** A signature survives trimming and decodes to the MAC. */
  lemma SignatureFits(p: Primitives, secret: string, id: string, timestamp: string, body: string)
    requires Lawful(p)
    ensures Fits(p, Mac(p, secret, id, timestamp, body), Sign(p, secret, id, timestamp, body))
    ensures ' ' !in Sign(p, secret, id, timestamp, body)
  {
    var encoded := p.encode(Mac(p, secret, id, timestamp, body));
    var token := Sign(p, secret, id, timestamp, body);
    assert token[|VERSION|..] == encoded;
    assert Base64Text(encoded);
    TrimKeeps(token);
  }

  /** What was signed verifies, in time, whatever signatures surround it. */
  lemma SignThenVerify(p: Primitives, secret: string, id: string, timestamp: string, body: string,
                       tolerance: Option<int>, now: int, before: string, after: string)
    requires Lawful(p) && Fits64(now) && Fits64(Limit(tolerance)) && Timely(timestamp, tolerance, now)
    requires before == "" || before[|before| - 1] == ' '
    requires after == "" || after[0] == ' '
    ensures VerdictOf(p, secret, id, timestamp, before + Sign(p, secret, id, timestamp, body) + after, body,
                      tolerance, now) == Ok
  {
    var token := Sign(p, secret, id, timestamp, body);
    var header := before + token + after;
    SignatureFits(p, secret, id, timestamp, body);
    var i, j := |before|, |before| + |token|;
    assert header[i..j] == token;
    assert Part(header, i, j);
    VerifiesExactly(p, secret, id, timestamp, header, body, tolerance, now);
  }

  /** With a canonical decoder nothing but the signature itself is accepted. */
  lemma OnlyTheSignature(p: Primitives, secret: string, id: string, timestamp: string, header: string, body: string)
    requires Lawful(p) && Canonical(p)
    ensures Signed(p, secret, id, timestamp, header, body)
            <==> exists i, j :: Part(header, i, j) && Trim(header[i..j]) == Sign(p, secret, id, timestamp, body)
  {
    var mac := Mac(p, secret, id, timestamp, body);
    var token := Sign(p, secret, id, timestamp, body);
    if Signed(p, secret, id, timestamp, header, body) {
      var i, j :| Part(header, i, j) && Fits(p, mac, header[i..j]);
      var text := Trim(header[i..j]);
      assert text == text[..|VERSION|] + text[|VERSION|..];
      assert Part(header, i, j) && Trim(header[i..j]) == token;
    }
    if exists i, j :: Part(header, i, j) && Trim(header[i..j]) == token {
      var i, j :| Part(header, i, j) && Trim(header[i..j]) == token;
      assert token[|VERSION|..] == p.encode(mac);
      assert Part(header, i, j) && Fits(p, mac, header[i..j]);
    }
  }

  /** With and without its prefix a secret names the same key. */
  lemma SecretRoundTrip(p: Primitives, key: Bytes)
    requires Lawful(p)
    ensures DecodeSecret(p, p.encode(key)) == key == DecodeSecret(p, SECRET_PREFIX + p.encode(key))
  {
    var text := p.encode(key);
    assert Base64Text(text);
    assert SECRET_PREFIX[5] == '_' && !Base64Char('_');
    assert (SECRET_PREFIX + text)[|SECRET_PREFIX|..] == text;
  }

  lemma FirstDot(a: string, b: string, x: string, y: string)
    requires '.' !in a && '.' !in b && a + "." + x == b + "." + y
    ensures a == b && x == y
  {
    var s := a + "." + x;
    assert s[|a|] == '.' && s[|b|] == '.';
    assert a == s[..|a|] && b == s[..|b|];
    assert x == s[|a| + 1..] && y == s[|b| + 1..];
  }

  /** Without dots in the id and the timestamp the signed text tells its parts. */
  lemma ContentIsInjective(id: string, timestamp: string, body: string, id': string, timestamp': string, body': string)
    requires '.' !in id && '.' !in timestamp && '.' !in id' && '.' !in timestamp'
    ensures Content(id, timestamp, body) == Content(id', timestamp', body')
            <==> id == id' && timestamp == timestamp' && body == body'
  {
    if Content(id, timestamp, body) == Content(id', timestamp', body') {
      assert Content(id, timestamp, body) == id + "." + (timestamp + "." + body);
      assert Content(id', timestamp', body') == id' + "." + (timestamp' + "." + body');
      FirstDot(id, id', timestamp + "." + body, timestamp' + "." + body');
      FirstDot(timestamp, timestamp', body, body');
    }
  }

  /** A timestamp that verification parses never has a dot. */
  lemma ParsedHasNoDot(timestamp: string)
    requires Parse(timestamp, I64_MIN, I64_MAX).Some?
    ensures '.' !in timestamp
  {
    forall i | 0 <= i < |timestamp|
      ensures timestamp[i] != '.'
    {
      assert i > 0 ==> timestamp[1..][i - 1] == timestamp[i];
    }
  }

  // ------------------------------------------------------- the text that is signed

  /** The part of a text before its first dot, and the part after it. */
  function BeforeDot(s: string): string {
    if s == "" || s[0] == '.' then "" else [s[0]] + BeforeDot(s[1..])
  }

  function AfterDot(s: string): string {
    if s == "" then "" else if s[0] == '.' then s[1..] else AfterDot(s[1..])
  }

  lemma {:induction false} CutAtDot(a: string, rest: string)
    requires '.' !in a
    ensures BeforeDot(a + "." + rest) == a && AfterDot(a + "." + rest) == rest
  {
    var s := a + "." + rest;
    if a != "" {
      assert s[1..] == a[1..] + "." + rest;
      CutAtDot(a[1..], rest);
    }
  }

  /** What reaches the MAC: the id before the first dot, the timestamp between the first
      and the second, the body after that; and the signature is "v1," and its base64. */
  lemma SignsTheText(p: Primitives, secret: string, id: string, timestamp: string, body: string) returns (text: string)
    ensures text == id + "." + timestamp + "." + body
    ensures Sign(p, secret, id, timestamp, body) == "v1," + p.encode(p.mac(DecodeSecret(p, secret), p.utf8(text)))
    ensures '.' !in id && '.' !in timestamp ==>
              BeforeDot(text) == id && BeforeDot(AfterDot(text)) == timestamp && AfterDot(AfterDot(text)) == body
  {
    text := id + "." + timestamp + "." + body;
    if '.' !in id && '.' !in timestamp {
      assert text == id + "." + (timestamp + "." + body);
      CutAtDot(id, timestamp + "." + body);
      CutAtDot(timestamp, body);
    }
  }

  /** A part of the header that is "v1," and the base64 of the MAC of this very text. */
  ghost predicate CarriesMac(p: Primitives, secret: string, header: string, text: string) {
    exists i, j :: Part(header, i, j) && MacToken(p, secret, Trim(header[i..j]), text)
  }

  predicate MacToken(p: Primitives, secret: string, token: string, text: string) {
    "v1," <= token && p.decode(token[3..]) == Some(p.mac(DecodeSecret(p, secret), p.utf8(text)))
  }

  /** Acceptance, in full: a parsed stamp no further from the clock than the tolerance,
      300 seconds unless given (or wrapped), and such a part for the text
      id.timestamp.body. */
  lemma AcceptsTheText(p: Primitives, secret: string, id: string, timestamp: string, header: string, body: string,
                       tolerance: Option<int>, now: int)
    requires Fits64(now) && (tolerance.Some? ==> Fits64(tolerance.value))
    ensures var ts := Parse(timestamp, I64_MIN, I64_MAX);
      var limit := if tolerance.Some? then tolerance.value else 300;
      VerdictOf(p, secret, id, timestamp, header, body, tolerance, now) == Ok
      <==> && ts.Some?
           && (-limit <= now - ts.value <= limit || WrapsInto(Abs(now - ts.value), limit))
           && CarriesMac(p, secret, header, id + "." + timestamp + "." + body)
  {
    var text := id + "." + timestamp + "." + body;
    VerifiesExactly(p, secret, id, timestamp, header, body, tolerance, now);
    if Signed(p, secret, id, timestamp, header, body) {
      var i, j :| Part(header, i, j) && Fits(p, Mac(p, secret, id, timestamp, body), header[i..j]);
      assert MacToken(p, secret, Trim(header[i..j]), text);
    }
    if CarriesMac(p, secret, header, text) {
      var i, j :| Part(header, i, j) && MacToken(p, secret, Trim(header[i..j]), text);
      assert Fits(p, Mac(p, secret, id, timestamp, body), header[i..j]);
    }
  }

  /** And the errors: no number, too far from the clock with the distance and the
      tolerance told, and otherwise no such part. */
  lemma RejectsWith(p: Primitives, secret: string, id: string, timestamp: string, header: string, body: string,
                    tolerance: Option<int>, now: int)
    requires Fits64(now) && (tolerance.Some? ==> Fits64(tolerance.value))
    ensures var ts := Parse(timestamp, I64_MIN, I64_MAX);
      var limit := if tolerance.Some? then tolerance.value else 300;
      var verdict := VerdictOf(p, secret, id, timestamp, header, body, tolerance, now);
      && (ts.None? ==> verdict == Err(InvalidTimestamp))
      && (ts.Some? ==>
            var age := if ts.value < now then now - ts.value else ts.value - now;
            limit < age <= I64_MAX ==> verdict == Err(TimestampExpired(age, limit)))
      && ((ts.Some? && -limit <= now - ts.value <= limit
           && !CarriesMac(p, secret, header, id + "." + timestamp + "." + body)) ==> verdict == Err(SignatureMismatch))
  {
    AcceptsTheText(p, secret, id, timestamp, header, body, tolerance, now);
    var ts := Parse(timestamp, I64_MIN, I64_MAX);
    if ts.Some? {
      AgeIsDistance(now, ts.value, Limit(tolerance));
      if Abs(now - ts.value) <= I64_MAX {
        AgeInRange(now, ts.value);
      }
    }
  }

  lemma AgeInRange(now: int, timestamp: int)
    requires Fits64(now) && Fits64(timestamp) && Abs(now - timestamp) <= I64_MAX
    ensures Age(now, timestamp) == Abs(now - timestamp)
  {
    assert Wrap64(now - timestamp) == now - timestamp;
  }

  /** Secrets: base64 with or without "whsec_"; what is no base64 is the key itself, byte
      for byte, prefix included. */
  lemma SecretsDecode(p: Primitives, rest: string)
    ensures p.decode(rest).Some? ==> DecodeSecret(p, "whsec_" + rest) == p.decode(rest).value
    ensures p.decode(rest).None? ==> DecodeSecret(p, "whsec_" + rest) == p.utf8("whsec_" + rest)
    ensures !("whsec_" <= rest) ==>
              DecodeSecret(p, rest) == if p.decode(rest).Some? then p.decode(rest).value else p.utf8(rest)
  {
    assert ("whsec_" + rest)[6..] == rest;
  }

  /** Blanks, tabs and line ends around a token do not matter. */
  predicate Blank(s: string) {
    forall i :: 0 <= i < |s| ==> s[i] == ' ' || s[i] == '\t' || s[i] == '\n' || s[i] == '\r'
  }

  lemma {:induction false} TrimsLeft(a: string, core: string)
    requires Blank(a) && core != "" && '!' <= core[0] <= '~'
    ensures TrimLeft(a + core) == core
  {
    if a == "" {
      assert a + core == core;
    } else {
      assert (a + core)[1..] == a[1..] + core;
      TrimsLeft(a[1..], core);
    }
  }

  lemma {:induction false} TrimsRight(core: string, b: string)
    requires Blank(b) && core != "" && '!' <= core[|core| - 1] <= '~'
    ensures TrimRight(core + b) == core
  {
    if b == "" {
      assert core + b == core;
    } else {
      assert (core + b)[..|core + b| - 1] == core + b[..|b| - 1];
      TrimsRight(core, b[..|b| - 1]);
    }
  }

  lemma Trims(a: string, core: string, b: string)
    requires Blank(a) && Blank(b) && core != "" && '!' <= core[0] <= '~' && '!' <= core[|core| - 1] <= '~'
    ensures Trim(a + core + b) == core
  {
    assert a + core + b == a + (core + b);
    TrimsLeft(a, core + b);
    TrimsRight(core, b);
  }
}
