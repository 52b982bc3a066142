/**
 * The key namespace of the S3 storage: where a domain's site data, a user's
 * account data and the most-recent-user pointer live in the bucket.
 * Keys are lowercased, so lookups are case-insensitive by construction.
 */
module Keys {

  /** ASCII lowering of one character (the stand-in for strings.ToLower). */
  function LowerChar(c: char): char
  {
    if 'A' <= c <= 'Z' then (c as int - 'A' as int + 'a' as int) as char else c
  }

  /** Lowering of a whole string, character by character. */
  function Lower(s: string): (r: string)
    ensures |r| == |s|
    ensures forall i :: 0 <= i < |s| ==> r[i] == LowerChar(s[i])
  {
    if s == [] then [] else [LowerChar(s[0])] + Lower(s[1..])
  }

  /** Two strings are equal up to letter case. */
  predicate EqualFold(a: string, b: string)
  {
    |a| == |b| && forall i :: 0 <= i < |a| ==> LowerChar(a[i]) == LowerChar(b[i])
  }

  /**
   * The key of a domain's site data: under prefix + "domain/", a name as
   * long as the domain and already in lower case.
   */
  function DomainKey(prefix: string, domain: string): (k: string)
    ensures prefix + "domain/" <= k && |k| == |prefix| + 7 + |domain|
    ensures Lower(k[|prefix| + 7..]) == k[|prefix| + 7..]
  {
    LowerIdempotent(domain);
    prefix + "domain/" + Lower(domain)
  }

  /**
   * The key of a user's account data: under prefix + "user/", a name as
   * long as the email and already in lower case.
   */
  function UserKey(prefix: string, email: string): (k: string)
    ensures prefix + "user/" <= k && |k| == |prefix| + 5 + |email|
    ensures Lower(k[|prefix| + 5..]) == k[|prefix| + 5..]
  {
    LowerIdempotent(email);
    prefix + "user/" + Lower(email)
  }

  /** The key of the most-recent-user pointer, which reuses the user namespace. */
  function RecentKey(prefix: string): (k: string)
    ensures k == prefix + "user/recent"
  {
    assert Lower("recent") == "recent";
    UserKey(prefix, "recent")
  }

  lemma {:induction false} LowerIdempotent(s: string)
    ensures Lower(Lower(s)) == Lower(s)
  {
    var l := Lower(s);
    assert forall i :: 0 <= i < |s| ==> Lower(l)[i] == LowerChar(LowerChar(s[i])) == l[i];
  }

  /** Lowering identifies exactly the strings that are equal up to case. */
  lemma LowerEqualIff(a: string, b: string)
    ensures Lower(a) == Lower(b) <==> EqualFold(a, b)
  {
    if Lower(a) == Lower(b) {
      assert forall i :: 0 <= i < |a| ==> LowerChar(a[i]) == Lower(a)[i] == Lower(b)[i] == LowerChar(b[i]);
    }
    if EqualFold(a, b) {
      assert forall i :: 0 <= i < |a| ==> Lower(a)[i] == Lower(b)[i];
    }
  }

  /** Cancelling a common head of two concatenations. */
  lemma AppendCancel(h: string, x: string, y: string)
    ensures h + x == h + y <==> x == y
  {
    if h + x == h + y {
      assert x == (h + x)[|h|..] == (h + y)[|h|..] == y;
    }
  }

  /** Domain keys are case-insensitive, and only case is ignored. */
  lemma DomainKeyCaseInsensitive(prefix: string, a: string, b: string)
    ensures DomainKey(prefix, a) == DomainKey(prefix, b) <==> EqualFold(a, b)
  {
    AppendCancel(prefix + "domain/", Lower(a), Lower(b));
    LowerEqualIff(a, b);
  }

  /** User keys are case-insensitive, and only case is ignored. */
  lemma UserKeyCaseInsensitive(prefix: string, a: string, b: string)
    ensures UserKey(prefix, a) == UserKey(prefix, b) <==> EqualFold(a, b)
  {
    AppendCancel(prefix + "user/", Lower(a), Lower(b));
    LowerEqualIff(a, b);
  }

  /** Under one prefix, no domain key is ever a user key (nor the pointer key). */
  lemma DomainUserKeysDisjoint(prefix: string, domain: string, email: string)
    ensures DomainKey(prefix, domain) != UserKey(prefix, email)
    ensures DomainKey(prefix, domain) != RecentKey(prefix)
  {
    assert DomainKey(prefix, domain)[|prefix|] == 'd';
    assert UserKey(prefix, email)[|prefix|] == 'u';
    assert RecentKey(prefix)[|prefix|] == 'u';
  }

  /** The pointer key is the record key of exactly those users whose email lowercases to "recent". */
  lemma RecentKeyCollision(prefix: string, email: string)
    ensures UserKey(prefix, email) == RecentKey(prefix) <==> Lower(email) == "recent"
  {
    assert Lower("recent") == "recent";
    AppendCancel(prefix + "user/", Lower(email), "recent");
  }
}
