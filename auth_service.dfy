/**
 * The backend's authentication helpers: the e-mail check, input
 * sanitising, the salted password hash and its verification, and session
 * tokens. The random bytes are parameters, and so is the key-derivation
 * function (PBKDF2 with SHA-512, 1000 rounds, 64 bytes), which the model
 * treats as an arbitrary deterministic function.
 */
module AuthService {
  import opened TextUtil
  import opened Json

  // ---------------------------------------------------------------------
  // isValidEmail
  // ---------------------------------------------------------------------

  /** `[^\s@]`. */
  predicate EmailChar(c: char) { !IsSpace(c) && c != '@' }

  predicate AllEmailChars(s: string)
  {
    forall k :: 0 <= k < |s| ==> EmailChar(s[k])
  }

  /**
   * `/^[^\s@]+@[^\s@]+\.[^\s@]+$/` read as a pattern: three non-empty runs
   * of `[^\s@]`, the first two separated by an '@' and the last two by a '.'.
   */
  ghost predicate EmailPattern(e: string)
  {
    exists a, d :: 0 < a && a + 1 < d && d + 1 < |e| && e[a] == '@' && e[d] == '.'
      && AllEmailChars(e[..a]) && AllEmailChars(e[a + 1..d]) && AllEmailChars(e[d + 1..])
  }

  /**
   * `isValidEmail` as a scan: the first '@' is not at the start and is the
   * only one, nothing is white space, and the first '.' two or more places
   * after the '@' is not the last character.
   */
  predicate IsValidEmail(e: string)
  {
    var a := IndexOfChar(e, '@');
    0 < a && LastIndexOfChar(e, '@') == a
    && (forall k :: 0 <= k < |e| ==> !IsSpace(e[k]))
    && var d := IndexOfCharFrom(e, '.', a + 2);
       0 <= d < |e| - 1
  }

  /** The scan accepts exactly the strings the pattern matches. */
  lemma IsValidEmailMatchesPattern(e: string)
    ensures IsValidEmail(e) <==> EmailPattern(e)
  {
    if IsValidEmail(e) {
      ScanMatchesPattern(e);
    }
    if EmailPattern(e) {
      PatternPassesScan(e);
    }
  }

  lemma ScanMatchesPattern(e: string)
    requires IsValidEmail(e)
    ensures EmailPattern(e)
  {
    var a := IndexOfChar(e, '@');
    var d := IndexOfCharFrom(e, '.', a + 2);
    assert AllEmailChars(e[..a]) by {
      forall k | 0 <= k < a ensures EmailChar(e[..a][k]) {
        assert e[..a][k] == e[k];
      }
    }
    var domain, tld := e[a + 1..d], e[d + 1..];
    assert AllEmailChars(domain) by {
      forall k | 0 <= k < |domain| ensures EmailChar(domain[k]) {
        assert domain[k] == e[a + 1 + k];
      }
    }
    assert AllEmailChars(tld) by {
      forall k | 0 <= k < |tld| ensures EmailChar(tld[k]) {
        assert tld[k] == e[d + 1 + k];
      }
    }
  }

  lemma PatternPassesScan(e: string)
    requires EmailPattern(e)
    ensures IsValidEmail(e)
  {
    var a, d :| 0 < a && a + 1 < d && d + 1 < |e| && e[a] == '@' && e[d] == '.'
      && AllEmailChars(e[..a]) && AllEmailChars(e[a + 1..d]) && AllEmailChars(e[d + 1..]);
    PatternChars(e, a, d);
    OnlyOccurrence(e, '@', a);
    var d2 := IndexOfCharFrom(e, '.', a + 2);
    assert a + 2 <= d2 <= d;
  }

  /** Outside the '@' and the '.', every character of a matched address is in `[^\s@]`. */
  lemma PatternChars(e: string, a: nat, d: nat)
    requires a < d < |e| && AllEmailChars(e[..a]) && AllEmailChars(e[a + 1..d]) && AllEmailChars(e[d + 1..])
    ensures forall k :: 0 <= k < |e| && k != a && k != d ==> EmailChar(e[k])
  {
    forall k | 0 <= k < |e| && k != a && k != d ensures EmailChar(e[k]) {
      if k < a {
        assert e[k] == e[..a][k];
      } else if k < d {
        assert e[k] == e[a + 1..d][k - a - 1];
      } else {
        assert e[k] == e[d + 1..][k - d - 1];
      }
    }
  }

  /** The pattern's three conditions in words: no white space, a single '@' after a non-empty local part, and a dot that neither starts nor ends the domain. */
  predicate EmailShape(e: string)
  {
    (forall k :: 0 <= k < |e| ==> !IsSpace(e[k]))
    && (exists a :: 0 < a < |e| && e[a] == '@' && '@' !in e[..a] && '@' !in e[a + 1..]
          && exists d :: a + 1 < d < |e| - 1 && e[d] == '.')
  }

  lemma EmailConditions(e: string)
    ensures IsValidEmail(e) <==> EmailShape(e)
  {
    if IsValidEmail(e) {
      ValidEmailShape(e);
    }
    if EmailShape(e) {
      var b :| 0 < b < |e| && e[b] == '@' && '@' !in e[..b] && '@' !in e[b + 1..]
            && exists d :: b + 1 < d < |e| - 1 && e[d] == '.';
      var d :| b + 1 < d < |e| - 1 && e[d] == '.';
      ShapedEmailValid(e, b, d);
    }
  }

  lemma ValidEmailShape(e: string)
    requires IsValidEmail(e)
    ensures EmailShape(e)
  {
    var a := IndexOfChar(e, '@');
    assert '@' !in e[..a] by {
      forall k | 0 <= k < a ensures e[..a][k] != '@' { assert e[..a][k] == e[k]; }
    }
    var rest := e[a + 1..];
    assert '@' !in rest by {
      forall k | 0 <= k < |rest| ensures rest[k] != '@' { assert rest[k] == e[a + 1 + k]; }
    }
    var d := IndexOfCharFrom(e, '.', a + 2);
    assert a + 1 < d < |e| - 1 && e[d] == '.';
  }

  lemma ShapedEmailValid(e: string, b: nat, d: nat)
    requires forall k :: 0 <= k < |e| ==> !IsSpace(e[k])
    requires 0 < b < |e| && e[b] == '@' && '@' !in e[..b] && '@' !in e[b + 1..]
    requires b + 1 < d < |e| - 1 && e[d] == '.'
    ensures IsValidEmail(e)
  {
    forall k | 0 <= k < |e| && k != b ensures e[k] != '@' {
      if k < b { assert e[k] == e[..b][k]; } else { assert e[k] == e[b + 1..][k - b - 1]; }
    }
    OnlyOccurrence(e, '@', b);
    var d2 := IndexOfCharFrom(e, '.', b + 2);
    assert b + 2 <= d2 <= d;
  }

  lemma EmailExamples()
    ensures IsValidEmail("a@b.co")
    ensures !IsValidEmail("a@.co") && !IsValidEmail("a@b.") && !IsValidEmail("@b.co")
    ensures !IsValidEmail("a@b@c.d") && !IsValidEmail("a b@c.d")
  {
    ValidExample();
    NoLabelExample();
    NoTldExample();
    NoLocalExample();
    TwoAtsExample();
    SpacedExample();
  }

  lemma ValidExample()
    ensures IsValidEmail("a@b.co")
  {
    var ok := "a@b.co";
    assert ok[0] == 'a' && ok[1] == '@' && ok[3] == '.';
    assert IndexOfChar(ok, '@') == 1;
    assert forall k :: 1 < k < |ok| ==> ok[k] != '@';
    assert LastIndexOfChar(ok, '@') == 1;
    assert ok[2] == 'b';
    assert IndexOfCharFrom(ok, '.', 3) == 3;
  }

  lemma NoLabelExample()
    ensures !IsValidEmail("a@.co")
  {
    var e := "a@.co";
    assert e[0] == 'a' && e[1] == '@';
    assert IndexOfChar(e, '@') == 1;
    assert forall k :: 3 <= k < |e| ==> e[k] != '.';
    assert IndexOfCharFrom(e, '.', 3) == -1;
  }

  lemma NoTldExample()
    ensures !IsValidEmail("a@b.")
  {
    var e := "a@b.";
    assert e[0] == 'a' && e[1] == '@' && e[3] == '.';
    assert IndexOfChar(e, '@') == 1;
    assert IndexOfCharFrom(e, '.', 3) == 3;
  }

  lemma NoLocalExample()
    ensures !IsValidEmail("@b.co")
  {
    var e := "@b.co";
    assert e[0] == '@';
    assert IndexOfChar(e, '@') == 0;
  }

  lemma TwoAtsExample()
    ensures !IsValidEmail("a@b@c.d")
  {
    var e := "a@b@c.d";
    assert e[0] == 'a' && e[1] == '@' && e[3] == '@';
    assert IndexOfChar(e, '@') == 1;
    assert LastIndexOfChar(e, '@') != 1;
  }

  lemma SpacedExample()
    ensures !IsValidEmail("a b@c.d")
  {
    var e := "a b@c.d";
    assert IsSpace(e[1]);
  }

  // ---------------------------------------------------------------------
  // sanitizeInput
  // ---------------------------------------------------------------------

  /** `sanitizeInput`: strings are trimmed, every other value passes through. */
  function SanitizeInput(v: JsonValue): (r: JsonValue)
    ensures !v.JStr? ==> r == v
    ensures v.JStr? ==> r.JStr? && IsTrimmed(r.s) && exists i, j :: 0 <= i <= j <= |v.s| && r.s == v.s[i..j]
  {
    TrimIsTrimmed(if v.JStr? then v.s else []);
    match v
    case JStr(s) => JStr(Trim(s))
    case _ => v
  }

  /** Sanitising twice is sanitising once. */
  lemma SanitizeIdempotent(v: JsonValue)
    ensures SanitizeInput(SanitizeInput(v)) == SanitizeInput(v)
  {
    if v.JStr? {
      TrimIdempotent(v.s);
    }
  }

  /** A string with white space around it is changed; a trimmed one is not. */
  lemma SanitizeExamples()
    ensures SanitizeInput(JStr(" ann ")) == JStr("ann")
    ensures SanitizeInput(JNum(5.0)) == JNum(5.0)
  {
    var padded := " ann ";
    assert TrimStart(padded) == "ann ";
    assert TrimEnd("ann ") == "ann";
  }

  // ---------------------------------------------------------------------
  // Hex encoding, hashPassword, verifyPassword, generateSessionToken
  // ---------------------------------------------------------------------

  type Byte = b: int | 0 <= b < 256

  /** The 16 random bytes of a salt, the 64 bytes of a derived key, the 32 random bytes of a token. */
  type SaltBytes = s: seq<Byte> | |s| == 16 witness seq(16, _ => 0)
  type Digest = s: seq<Byte> | |s| == 64 witness seq(64, _ => 0)
  type TokenBytes = s: seq<Byte> | |s| == 32 witness seq(32, _ => 0)

  predicate IsHexDigit(c: char) { IsDigit(c) || 'a' <= c <= 'f' }

  function HexDigit(n: nat): (c: char)
    requires n < 16
    ensures IsHexDigit(c)
  {
    if n < 10 then (48 + n) as char else (87 + n) as char
  }

  function HexDigitValue(c: char): (n: nat)
    ensures n < 16
  {
    if IsDigit(c) then c as int - 48
    else if 'a' <= c <= 'f' then c as int - 87
    else 0
  }

  /** `buffer.toString('hex')`: two lower-case hexadecimal digits per byte, high nibble first. */
  function Hex(bytes: seq<Byte>): (r: string)
    ensures |r| == 2 * |bytes|
    ensures forall k :: 0 <= k < |r| ==> IsHexDigit(r[k])
  {
    if bytes == [] then []
    else [HexDigit(bytes[0] / 16), HexDigit(bytes[0] % 16)] + Hex(bytes[1..])
  }

  /** Reads a hexadecimal string back as bytes, two digits at a time. */
  function UnHex(s: string): (r: seq<Byte>)
    decreases |s|
  {
    if |s| < 2 then []
    else [16 * HexDigitValue(s[0]) + HexDigitValue(s[1])] + UnHex(s[2..])
  }

  /** Hex encoding loses nothing: decoding gives the bytes back. */
  lemma {:induction false} UnHexOfHex(bytes: seq<Byte>)
    ensures UnHex(Hex(bytes)) == bytes
  {
    if bytes != [] {
      var s := Hex(bytes);
      UnHexOfHex(bytes[1..]);
      assert s[2..] == Hex(bytes[1..]);
    }
  }

  lemma HexInjective(a: seq<Byte>, b: seq<Byte>)
    requires Hex(a) == Hex(b)
    ensures a == b
  {
    UnHexOfHex(a);
    UnHexOfHex(b);
  }

  /** `hashPassword`: the hex salt, a ':', and the hex key derived from the password and the hex salt. */
  function HashPassword(password: string, salt: SaltBytes, kdf: (string, string) -> Digest): (r: string)
    ensures |r| == 161 && r[32] == ':'
    ensures forall k :: 0 <= k < |r| && k != 32 ==> IsHexDigit(r[k])
    ensures UnHex(r[..32]) == salt && UnHex(r[33..]) == kdf(password, r[..32])
  {
    var s := Hex(salt);
    var h := Hex(kdf(password, s));
    UnHexOfHex(salt);
    UnHexOfHex(kdf(password, s));
    assert (s + ":" + h)[..32] == s;
    assert (s + ":" + h)[33..] == h;
    s + ":" + h
  }

  /** `verifyPassword`: the piece between the first ':' and any second one must equal the key derived from the password and the piece before it. */
  function VerifyPassword(password: string, storedHash: string, kdf: (string, string) -> Digest): (ok: bool)
    ensures ok ==> ':' in storedHash
  {
    var parts := SplitChar(storedHash, ':');
    if |parts| < 2 then false
    else
      assert IndexOfChar(storedHash, ':') >= 0;
      parts[1] == Hex(kdf(password, parts[0]))
  }

  /** The stored form splits at its one ':' into the hex salt and the hex key. */
  lemma HashParts(password: string, salt: SaltBytes, kdf: (string, string) -> Digest)
    ensures SplitChar(HashPassword(password, salt, kdf), ':') == [Hex(salt), Hex(kdf(password, Hex(salt)))]
  {
    var parts := [Hex(salt), Hex(kdf(password, Hex(salt)))];
    SplitJoin(parts, ':');
    assert Join(parts, [':']) == parts[0] + [':'] + Join(parts[1..], [':']);
  }

  /** A password verifies against its own hash, whatever the salt and key function. */
  lemma VerifyOwnHash(password: string, salt: SaltBytes, kdf: (string, string) -> Digest)
    ensures VerifyPassword(password, HashPassword(password, salt, kdf), kdf)
  {
    HashParts(password, salt, kdf);
  }

  /** Another password verifies only if the key function gives it the same key under that salt. */
  lemma VerifyOtherPassword(password: string, other: string, salt: SaltBytes, kdf: (string, string) -> Digest)
    ensures VerifyPassword(other, HashPassword(password, salt, kdf), kdf)
      <==> kdf(other, Hex(salt)) == kdf(password, Hex(salt))
  {
    HashParts(password, salt, kdf);
    if Hex(kdf(other, Hex(salt))) == Hex(kdf(password, Hex(salt))) {
      HexInjective(kdf(other, Hex(salt)), kdf(password, Hex(salt)));
    }
  }

  /** `generateSessionToken`: 32 random bytes in hex, 64 characters. */
  function SessionToken(bytes: TokenBytes): (r: string)
    ensures |r| == 64 && forall k :: 0 <= k < |r| ==> IsHexDigit(r[k])
    ensures UnHex(r) == bytes
  {
    UnHexOfHex(bytes);
    Hex(bytes)
  }
}
