/** Advisory-lock keys for student contacts (src/core/advisory_locks.py).

    A contact is normalised, hashed with SHA-256, and the first four digest bytes are read as a
    big-endian number and folded into PostgreSQL's signed 32-bit key space.  Lower-casing and SHA-256
    are parameters: nothing below depends on which functions they are, so collisions are allowed. */
module LockKeys {
  datatype ContactField = Phone | Email

  type Byte = b: int | 0 <= b < 0x100

  type Digest = bytes: seq<Byte> | |bytes| == 32 witness seq(32, _ => 0)

  // str.lower, and SHA-256 of the UTF-8 encoding.
  datatype Hash = Hash(lower: string -> string, sha256: string -> Digest)

  const KEY_MIN := -0x8000_0000
  const KEY_MAX := 0x7FFF_FFFF

  // ----- Normalisation -----

  // The class [\s\-().] removed from phone numbers.
  predicate IsSeparator(c: char) {
    IsSpace(c) || c in "-()."
  }

  // The characters that Python's \s matches and its strip removes.
  predicate IsSpace(c: char) {
    var code := c as int;
    9 <= code <= 13 || 0x1C <= code <= 0x20 || code == 0x85 || code == 0xA0 || code == 0x1680
    || 0x2000 <= code <= 0x200A || code == 0x2028 || code == 0x2029 || code == 0x202F || code == 0x205F
    || code == 0x3000
  }

  function WithoutSeparators(s: string): string {
    if s == "" then ""
    else (if IsSeparator(s[0]) then "" else [s[0]]) + WithoutSeparators(s[1..])
  }

  function StripLeft(s: string): string {
    if s != "" && IsSpace(s[0]) then StripLeft(s[1..]) else s
  }

  function StripRight(s: string): string {
    if s != "" && IsSpace(s[|s| - 1]) then StripRight(s[..|s| - 1]) else s
  }

  function Normalized(hash: Hash, field: ContactField, contact: string): string {
    match field
    case Phone => hash.lower(WithoutSeparators(contact))
    case Email => hash.lower(StripRight(StripLeft(contact)))
  }

  // ----- The key of a digest -----

  function FromBigEndian(bytes: seq<Byte>): nat {
    if bytes == [] then 0 else FromBigEndian(bytes[..|bytes| - 1]) * 0x100 + bytes[|bytes| - 1]
  }

  function ToSigned32(unsigned: int): int {
    if unsigned >= 0x8000_0000 then unsigned - 0x1_0000_0000 else unsigned
  }

  function DigestKey(digest: Digest): int {
    ToSigned32(FromBigEndian(digest[..4]))
  }

  function ComputeLockKey(hash: Hash, field: ContactField, contact: string): int {
    DigestKey(hash.sha256(Normalized(hash, field, contact)))
  }

  // The four bytes a signed key stands for: the inverse of the fold.
  function PrefixOfKey(key: int): seq<Byte>
    requires KEY_MIN <= key <= KEY_MAX
  {
    var unsigned := if key < 0 then key + 0x1_0000_0000 else key;
    [unsigned / 0x100_0000, unsigned / 0x1_0000 % 0x100, unsigned / 0x100 % 0x100, unsigned % 0x100]
  }

  function FourBytes(a: int, b: int, c: int, d: int): int {
    a * 0x100_0000 + b * 0x1_0000 + c * 0x100 + d
  }

  lemma FromFourBytes(bytes: seq<Byte>)
    requires |bytes| == 4
    ensures FromBigEndian(bytes)
         == FourBytes(bytes[0], bytes[1], bytes[2], bytes[3])
  {
    assert bytes[..3][..2] == bytes[..2] && bytes[..2][..1] == bytes[..1] && bytes[..1][..0] == [];
    assert FromBigEndian(bytes[..1]) == bytes[0];
    assert FromBigEndian(bytes[..2]) == FromBigEndian(bytes[..1]) * 0x100 + bytes[1];
    assert FromBigEndian(bytes[..3]) == FromBigEndian(bytes[..2]) * 0x100 + bytes[2];
  }

  lemma FourBytesSplit(a: int, b: int, c: int, d: int)
    requires 0 <= a < 0x100 && 0 <= b < 0x100 && 0 <= c < 0x100 && 0 <= d < 0x100
    ensures 0 <= FourBytes(a, b, c, d) < 0x1_0000_0000
    ensures FourBytes(a, b, c, d) / 0x100_0000 == a
    ensures FourBytes(a, b, c, d) / 0x1_0000 % 0x100 == b
    ensures FourBytes(a, b, c, d) / 0x100 % 0x100 == c
    ensures FourBytes(a, b, c, d) % 0x100 == d
  {
    var u := FourBytes(a, b, c, d);
    assert u == 0x100 * (0x1_0000 * a + 0x100 * b + c) + d;
    assert u / 0x100 == 0x1_0000 * a + 0x100 * b + c;
    assert u == 0x1_0000 * (0x100 * a + b) + (0x100 * c + d);
    assert u / 0x1_0000 == 0x100 * a + b;
  }

  lemma FourBytesJoin(u: int)
    requires 0 <= u < 0x1_0000_0000
    ensures FourBytes(u / 0x100_0000, u / 0x1_0000 % 0x100, u / 0x100 % 0x100, u % 0x100) == u
  {
    assert u / 0x1_0000 == u / 0x100 / 0x100;
    assert u / 0x100_0000 == u / 0x1_0000 / 0x100;
  }

  /** Every key fits the 32-bit argument of pg_advisory_xact_lock, and the digest prefix can be
      read back from it. */
  lemma KeyRoundTrip(digest: Digest)
    ensures KEY_MIN <= DigestKey(digest) <= KEY_MAX
    ensures PrefixOfKey(DigestKey(digest)) == digest[..4]
  {
    var prefix := digest[..4];
    FromFourBytes(prefix);
    FourBytesSplit(prefix[0], prefix[1], prefix[2], prefix[3]);
  }

  /** Every 32-bit key is the key of the digests that start with its four bytes. */
  lemma PrefixRoundTrip(key: int, digest: Digest)
    requires KEY_MIN <= key <= KEY_MAX && digest[..4] == PrefixOfKey(key)
    ensures DigestKey(digest) == key
  {
    FromFourBytes(digest[..4]);
    var unsigned := if key < 0 then key + 0x1_0000_0000 else key;
    FourBytesJoin(unsigned);
  }

  /** Two contacts share a lock exactly when the digests of their normal forms agree on the first
      four bytes. */
  lemma SharedKeyIffSharedPrefix(hash: Hash, field: ContactField, a: string, b: string)
    ensures ComputeLockKey(hash, field, a) == ComputeLockKey(hash, field, b)
       <==> hash.sha256(Normalized(hash, field, a))[..4] == hash.sha256(Normalized(hash, field, b))[..4]
  {
    KeyRoundTrip(hash.sha256(Normalized(hash, field, a)));
    KeyRoundTrip(hash.sha256(Normalized(hash, field, b)));
  }

  // ----- Spellings of one contact share its lock -----

  lemma {:induction false} WithoutSeparatorsAppends(a: string, b: string)
    ensures WithoutSeparators(a + b) == WithoutSeparators(a) + WithoutSeparators(b)
  {
    if a == "" {
      assert a + b == b;
    } else {
      assert (a + b)[1..] == a[1..] + b;
      WithoutSeparatorsAppends(a[1..], b);
    }
  }

  lemma {:induction false} OnlySeparatorsVanish(s: string)
    requires forall i :: 0 <= i < |s| ==> IsSeparator(s[i])
    ensures WithoutSeparators(s) == ""
  {
    if s == "" {
    } else {
      OnlySeparatorsVanish(s[1..]);
    }
  }

  /** Punctuation and blanks inserted anywhere in a phone number do not change its lock. */
  lemma PhonePunctuationKeepsKey(hash: Hash, before: string, separators: string, after: string)
    requires forall i :: 0 <= i < |separators| ==> IsSeparator(separators[i])
    ensures ComputeLockKey(hash, Phone, before + separators + after)
         == ComputeLockKey(hash, Phone, before + after)
  {
    WithoutSeparatorsAppends(before + separators, after);
    WithoutSeparatorsAppends(before, separators);
    WithoutSeparatorsAppends(before, after);
    OnlySeparatorsVanish(separators);
    assert WithoutSeparators(before) + "" == WithoutSeparators(before);
  }

  lemma {:induction false} StripLeftBlanks(blanks: string, s: string)
    requires forall i :: 0 <= i < |blanks| ==> IsSpace(blanks[i])
    ensures StripLeft(blanks + s) == StripLeft(s)
  {
    if blanks == "" {
      assert blanks + s == s;
    } else {
      assert (blanks + s)[1..] == blanks[1..] + s;
      StripLeftBlanks(blanks[1..], s);
    }
  }

  lemma {:induction false} StripRightBlanks(s: string, blanks: string)
    requires forall i :: 0 <= i < |blanks| ==> IsSpace(blanks[i])
    ensures StripRight(s + blanks) == StripRight(s)
  {
    if blanks == "" {
      assert s + blanks == s;
    } else {
      var last := |blanks| - 1;
      assert (s + blanks)[..|s + blanks| - 1] == s + blanks[..last];
      StripRightBlanks(s, blanks[..last]);
    }
  }

  lemma {:induction false} StripLeftKeepsRightBlanks(s: string, blanks: string)
    requires forall i :: 0 <= i < |blanks| ==> IsSpace(blanks[i])
    ensures StripRight(StripLeft(s + blanks)) == StripRight(StripLeft(s))
  {
    if s == "" {
      assert s + blanks == blanks + "";
      StripLeftBlanks(blanks, "");
    } else if IsSpace(s[0]) {
      assert (s + blanks)[1..] == s[1..] + blanks;
      StripLeftKeepsRightBlanks(s[1..], blanks);
    } else {
      StripRightBlanks(s, blanks);
    }
  }

  /** Blanks around an e-mail address do not change its lock. */
  lemma EmailPaddingKeepsKey(hash: Hash, left: string, email: string, right: string)
    requires forall i :: 0 <= i < |left| ==> IsSpace(left[i])
    requires forall i :: 0 <= i < |right| ==> IsSpace(right[i])
    ensures ComputeLockKey(hash, Email, left + email + right) == ComputeLockKey(hash, Email, email)
  {
    StripLeftKeepsRightBlanks(left + email, right);
    StripLeftBlanks(left, email);
  }

  // ----- What the normal form and the key are -----

  /** The key is the first four digest bytes as one big-endian number, less 2^32 when that is 2^31 or more. */
  lemma KeyIsBigEndian(digest: Digest)
    ensures var a: int, b: int, c: int, d: int := digest[0], digest[1], digest[2], digest[3];
            var number := a * 16777216 + b * 65536 + c * 256 + d;
            DigestKey(digest) == if number >= 2147483648 then number - 4294967296 else number
  {
    FromFourBytes(digest[..4]);
  }

  // No character of this string is dropped from a phone number.
  predicate NothingToDrop(s: string) {
    forall i | 0 <= i < |s| :: s[i] == '+' || '0' <= s[i] <= '9' || 'a' <= s[i] <= 'z' || 'A' <= s[i] <= 'Z'
  }

  lemma {:induction false} NothingIsDropped(s: string)
    requires NothingToDrop(s)
    ensures WithoutSeparators(s) == s
  {
    if s == "" {
    } else {
      assert NothingToDrop(s[1..]);
      NothingIsDropped(s[1..]);
    }
  }

  /** A plain phone number and the same with spaces, hyphens, parentheses and dots in it have one lock, and it is
      that of the plain number in lower case. */
  lemma PlainPhoneKey(hash: Hash, before: string, separators: string, after: string)
    requires NothingToDrop(before + after) && forall i | 0 <= i < |separators| :: separators[i] in " -().\t\n"
    ensures ComputeLockKey(hash, Phone, before + separators + after)
         == DigestKey(hash.sha256(hash.lower(before + after)))
  {
    PhonePunctuationKeepsKey(hash, before, separators, after);
    NothingIsDropped(before + after);
  }

  /** The lock of an address with no white space at its ends is that of the address in lower case. */
  lemma PlainEmailKey(hash: Hash, left: string, email: string, right: string)
    requires email != "" && email[0] > ' ' && email[0] <= '~' && email[|email| - 1] > ' ' && email[|email| - 1] <= '~'
    requires forall i | 0 <= i < |left| :: left[i] in " \t\n"
    requires forall i | 0 <= i < |right| :: right[i] in " \t\n"
    ensures ComputeLockKey(hash, Email, left + email + right) == DigestKey(hash.sha256(hash.lower(email)))
  {
    EmailPaddingKeepsKey(hash, left, email, right);
    assert StripLeft(email) == email && StripRight(email) == email;
  }
}
