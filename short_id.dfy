/**
 * Short ids: the display form of a report UUID (its first six characters in
 * upper case) and a random six-character code over A-Z and 0-9. The random
 * numbers are a parameter, one per character drawn.
 */
module ShortId {
  import opened Text

  const Alphabet: string := "ABCDEFGHIJKLMNOPQRSTUVWXYZ0123456789"

  predicate IsAlphabetChar(c: char) {
    'A' <= c <= 'Z' || '0' <= c <= '9'
  }

  /** The alphabet is the 26 capital letters then the ten digits. */
  lemma AlphabetChars()
    ensures |Alphabet| == 36
    ensures forall i :: 0 <= i < 26 ==> Alphabet[i] == ('A' as int + i) as char
    ensures forall i :: 26 <= i < 36 ==> Alphabet[i] == ('0' as int + i - 26) as char
    ensures forall c :: c in Alphabet ==> IsAlphabetChar(c)
  {
  }

  /** `Math.floor(Math.random() * chars.length)` */
  function Pick(random: real): (i: nat)
    requires 0.0 <= random < 1.0
    ensures i < |Alphabet|
    ensures i as real <= random * 36.0 < i as real + 1.0
  {
    (random * 36.0).Floor
  }

  /**
   * `generateShortId`: six draws, each `chars.charAt(floor(r * 36))`,
   * appended in order.
   */
  method GenerateShortId(rolls: seq<real>) returns (id: string)
    requires |rolls| == 6
    requires forall i :: 0 <= i < 6 ==> 0.0 <= rolls[i] < 1.0
    ensures |id| == 6
    ensures forall i :: 0 <= i < 6 ==> id[i] == Alphabet[Pick(rolls[i])]
    ensures forall i :: 0 <= i < 6 ==> IsAlphabetChar(id[i])
  {
    AlphabetChars();
    id := "";
    var i := 0;
    while i < 6
      invariant 0 <= i <= 6
      invariant |id| == i
      invariant forall j :: 0 <= j < i ==> id[j] == Alphabet[Pick(rolls[j])]
    {
      id := id + [Alphabet[Pick(rolls[i])]];
      i := i + 1;
    }
    assert forall j :: 0 <= j < 6 ==> id[j] in Alphabet;
  }

  /** `fullId.substring(0, 6).toUpperCase()` */
  function GetShortId(fullId: string): (short: string)
    ensures |short| == if |fullId| < 6 then |fullId| else 6
    ensures forall i :: 0 <= i < |short| ==> short[i] == ToUpperAsciiChar(fullId[i])
    ensures forall i :: 0 <= i < |short| ==> !IsAsciiLower(short[i])
  {
    var prefix := if |fullId| < 6 then fullId else fullId[..6];
    ToUpperAscii(prefix)
  }

  /** Shortening a short id gives it back. */
  lemma GetShortIdIdempotent(fullId: string)
    ensures GetShortId(GetShortId(fullId)) == GetShortId(fullId)
  {
    var s := GetShortId(fullId);
    assert forall i :: 0 <= i < |s| ==> ToUpperAsciiChar(s[i]) == s[i];
  }

  /** A UUID's short form is the upper-cased first six characters: ids sharing them look the same. */
  lemma SharedPrefixSameShortId(a: string, b: string)
    requires |a| >= 6 && |b| >= 6 && a[..6] == b[..6]
    ensures GetShortId(a) == GetShortId(b)
  {
    assert forall i :: 0 <= i < 6 ==> a[i] == a[..6][i] == b[..6][i] == b[i];
  }
}
