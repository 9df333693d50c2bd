/**
 * The two Django primitives the user factory calls: the password hasher
 * (`set_password` / `check_password`) and `normalize_email`. Both are
 * library code outside core/models.py; they are stated here only as far as
 * the factory's behaviour depends on them.
 */
module AuthPrimitives {

  import opened Wrappers

  /**
   * A stored password. The hash is symbolic: it remembers which raw password
   * it was made from, which is exactly what `check_password` can find out
   * about a real salted hash. `Unusable` is what `set_password(None)` stores.
   */
  datatype PasswordHash = Unusable | Hashed(raw: string)

  /** `user.set_password(password)`: None makes the password unusable. */
  function SetPassword(password: Option<string>): (h: PasswordHash)
    ensures forall attempt :: CheckPassword(h, attempt) <==> password == Some(attempt)
  {
    match password
    case None => Unusable
    case Some(p) => Hashed(p)
  }

  /**
   * `user.check_password(attempt)`: never true of an unusable password, and
   * true only of the one password a hash was made from.
   */
  function CheckPassword(h: PasswordHash, attempt: string): (ok: bool)
    ensures h == Unusable ==> !ok
    ensures ok ==> h == Hashed(attempt)
  {
    h.Hashed? && h.raw == attempt
  }

  // ---------------------------------------------------------------------
  // normalize_email

  /** `c.lower()` on the ASCII letters; every other character is kept. */
  function LowerChar(c: char): char
  {
    if 'A' <= c <= 'Z' then (c as int - 'A' as int + 'a' as int) as char else c
  }

  /** `s.lower()`: no capital is left, every other character stays. */
  function Lower(s: string): (r: string)
    ensures |r| == |s|
    ensures forall i :: 0 <= i < |r| ==> !('A' <= r[i] <= 'Z')
    ensures forall i :: 0 <= i < |s| && !('A' <= s[i] <= 'Z') ==> r[i] == s[i]
    ensures forall i :: 0 <= i < |s| && 'A' <= s[i] <= 'Z' ==> r[i] as int == s[i] as int + 32
  {
    seq(|s|, i requires 0 <= i < |s| => LowerChar(s[i]))
  }

  /** Index of the last `c` in `s`, or -1 when `s` has none. */
  function LastIndexOf(s: string, c: char): (k: int)
    ensures -1 <= k < |s|
    ensures k >= 0 ==> s[k] == c
    ensures forall j :: k < j < |s| ==> s[j] != c
    decreases |s|
  {
    if |s| == 0 then -1
    else if s[|s| - 1] == c then |s| - 1
    else LastIndexOf(s[..|s| - 1], c)
  }

  /**
   * `normalize_email(email)`: the address is cut at its last '@'
   * (`rsplit('@', 1)`) and the domain part is lower-cased; an address without
   * '@' is returned as it is.
   */
  function NormalizeEmail(email: string): (r: string)
    ensures |r| == |email|
  {
    var k := LastIndexOf(email, '@');
    if k < 0 then email else email[..k + 1] + Lower(email[k + 1..])
  }

  // ---------------------------------------------------------------------
  // Lemmas

  lemma LowerIdempotent(s: string)
    ensures Lower(Lower(s)) == Lower(s)
  {
  }

  /** The last '@' is where `LastIndexOf` says it is, and only there. */
  lemma LastIndexOfUnique(s: string, c: char, k: int)
    requires 0 <= k < |s| && s[k] == c
    requires forall j :: k < j < |s| ==> s[j] != c
    ensures LastIndexOf(s, c) == k
  {
  }

  /** The domain after the last '@' is lower-cased, the local part kept. */
  lemma NormalizeEmailSplitsAtLastAt(local: string, domain: string)
    requires '@' !in domain
    ensures NormalizeEmail(local + "@" + domain) == local + "@" + Lower(domain)
  {
    var e := local + "@" + domain;
    assert e[|local|] == '@';
    assert forall j :: |local| < j < |e| ==> e[j] == domain[j - |local| - 1];
    LastIndexOfUnique(e, '@', |local|);
    assert e[..|local| + 1] == local + "@";
    assert e[|local| + 1..] == domain;
  }

  /** An address without '@' is not changed. */
  lemma NormalizeEmailWithoutAt(email: string)
    requires '@' !in email
    ensures NormalizeEmail(email) == email
  {
  }

  /** Normalising a normalised address changes nothing. */
  lemma NormalizeEmailIdempotent(email: string)
    ensures NormalizeEmail(NormalizeEmail(email)) == NormalizeEmail(email)
  {
    var k := LastIndexOf(email, '@');
    if k >= 0 {
      var local, domain := email[..k], email[k + 1..];
      assert email == local + "@" + domain;
      assert '@' !in domain by {
        forall j | 0 <= j < |domain| ensures domain[j] != '@' { assert domain[j] == email[k + 1 + j]; }
      }
      NormalizeEmailSplitsAtLastAt(local, domain);
      assert '@' !in Lower(domain);
      NormalizeEmailSplitsAtLastAt(local, Lower(domain));
      LowerIdempotent(domain);
    }
  }

  /**
   * When the local part has no capital letters, normalising is the same as
   * lower-casing the whole address.
   */
  lemma NormalizeEmailIsLowerWhenLocalIsLower(local: string, domain: string)
    requires '@' !in domain
    requires Lower(local) == local
    ensures NormalizeEmail(local + "@" + domain) == Lower(local + "@" + domain)
  {
    NormalizeEmailSplitsAtLastAt(local, domain);
    var e := local + "@" + domain;
    assert Lower(e) == Lower(local) + "@" + Lower(domain);
  }

  /** The address with a capitalised domain that core/tests/test_models.py:29 uses. */
  const MixedCaseAddress: string := "test@LOCALHOST.COM"

  /** `test@LOCALHOST.COM` normalises to `test@localhost.com`. */
  lemma NormalizeMixedCaseDomain()
    ensures NormalizeEmail(MixedCaseAddress) == "test@localhost.com"
  {
    var local, domain, lowered := "test", "LOCALHOST.COM", "localhost.com";
    MixedCaseAddressParts(local, domain);
    LowerLocalhost(domain, lowered);
    NormalizeAtParts(MixedCaseAddress, local, domain, lowered);
  }

  /** Pins the literal pieces of `MixedCaseAddress` for `NormalizeMixedCaseDomain`. */
  lemma MixedCaseAddressParts(local: string, domain: string)
    requires local == "test" && domain == "LOCALHOST.COM"
    ensures MixedCaseAddress == local + "@" + domain && '@' !in domain
  {
  }

  /** `NormalizeEmailSplitsAtLastAt` for an address given with its parts. */
  lemma NormalizeAtParts(email: string, local: string, domain: string, lowered: string)
    requires email == local + "@" + domain && '@' !in domain && Lower(domain) == lowered
    ensures NormalizeEmail(email) == local + "@" + lowered
  {
    NormalizeEmailSplitsAtLastAt(local, domain);
  }

  /** Pins the lower-cased domain of `MixedCaseAddress` for `NormalizeMixedCaseDomain`. */
  lemma LowerLocalhost(domain: string, lowered: string)
    requires domain == "LOCALHOST.COM" && lowered == "localhost.com"
    ensures Lower(domain) == lowered
  {
    forall i | 0 <= i < |domain| ensures Lower(domain)[i] == lowered[i] {
      assert Lower(domain)[i] == LowerChar(domain[i]);
    }
  }
}
