/**
 * What the storage's reads report after its writes, stated over the bucket's
 * contents: round trips of sites and users, case-insensitive lookups, the
 * isolation of the site and user namespaces, and the most-recent-user pointer.
 */
module StorageProperties {
  import opened Wrappers
  import opened Keys
  import opened Codec
  import opened ObjectStore
  import opened Storage

  /** A site that was never stored does not exist and loads as NotExist. */
  lemma SiteNeverStored(objects: map<string, string>, prefix: string, domain: string)
    requires DomainKey(prefix, domain) !in objects
    ensures SiteExistsOf(objects, prefix, domain, Healthy) == (false, None)
    ensures LoadSiteOf(objects, prefix, domain, Healthy, Healthy) == Err(NotExist(RequestFailure(NotFoundStatus)))
  {
  }

  /** After a site is written under one spelling of its domain, every spelling equal up to case finds it. */
  lemma StoredSiteRoundTrip(objects: map<string, string>, prefix: string, domain: string, spelling: string, data: SiteData)
    requires EqualFold(domain, spelling)
    ensures var stored := objects[DomainKey(prefix, domain) := EncodeSite(data)];
              && SiteExistsOf(stored, prefix, spelling, Healthy) == (true, None)
              && LoadSiteOf(stored, prefix, spelling, Healthy, Healthy) == Ok(data)
  {
    DomainKeyCaseInsensitive(prefix, domain, spelling);
    SiteRoundTrip(data);
  }

  /** After a site is deleted, it does not exist under any spelling of its domain and loads as NotExist. */
  lemma DeletedSiteAbsent(objects: map<string, string>, prefix: string, domain: string, spelling: string)
    requires EqualFold(domain, spelling)
    ensures var deleted := objects - {DomainKey(prefix, domain)};
              && SiteExistsOf(deleted, prefix, spelling, Healthy) == (false, None)
              && LoadSiteOf(deleted, prefix, spelling, Healthy, Healthy) == Err(NotExist(RequestFailure(NotFoundStatus)))
  {
    DomainKeyCaseInsensitive(prefix, domain, spelling);
  }

  /** A site's reads depend on the bucket only at the site's key. */
  lemma SiteReadsLocal(before: map<string, string>, after: map<string, string>, prefix: string, domain: string, getFault: Fault, readFault: Fault)
    requires var k := DomainKey(prefix, domain); (k in before <==> k in after) && (k in before ==> before[k] == after[k])
    ensures SiteExistsOf(after, prefix, domain, getFault) == SiteExistsOf(before, prefix, domain, getFault)
    ensures LoadSiteOf(after, prefix, domain, getFault, readFault) == LoadSiteOf(before, prefix, domain, getFault, readFault)
  {
  }

  /** A user's reads and the pointer depend on the bucket only at their keys. */
  lemma UserReadsLocal(before: map<string, string>, after: map<string, string>, prefix: string, email: string, getFault: Fault, readFault: Fault)
    requires forall k :: k == UserKey(prefix, email) || k == RecentKey(prefix) ==>
               (k in before <==> k in after) && (k in before ==> before[k] == after[k])
    ensures LoadUserOf(after, prefix, email, getFault, readFault) == LoadUserOf(before, prefix, email, getFault, readFault)
    ensures MostRecentUserEmailOf(after, prefix, getFault, readFault) == MostRecentUserEmailOf(before, prefix, getFault, readFault)
  {
    var u, p := UserKey(prefix, email), RecentKey(prefix);
    assert (u in before <==> u in after) && (u in before ==> before[u] == after[u]);
    assert (p in before <==> p in after) && (p in before ==> before[p] == after[p]);
  }

  /** Writing or deleting a site leaves every user, and the most-recent-user pointer, as they were. */
  lemma SiteWritesLeaveUsers(objects: map<string, string>, prefix: string, domain: string, payload: string,
                             email: string, getFault: Fault, readFault: Fault)
    ensures var stored := objects[DomainKey(prefix, domain) := payload];
              && LoadUserOf(stored, prefix, email, getFault, readFault) == LoadUserOf(objects, prefix, email, getFault, readFault)
              && MostRecentUserEmailOf(stored, prefix, getFault, readFault) == MostRecentUserEmailOf(objects, prefix, getFault, readFault)
    ensures var deleted := objects - {DomainKey(prefix, domain)};
              && LoadUserOf(deleted, prefix, email, getFault, readFault) == LoadUserOf(objects, prefix, email, getFault, readFault)
              && MostRecentUserEmailOf(deleted, prefix, getFault, readFault) == MostRecentUserEmailOf(objects, prefix, getFault, readFault)
  {
    DomainUserKeysDisjoint(prefix, domain, email);
    UserReadsLocal(objects, objects[DomainKey(prefix, domain) := payload], prefix, email, getFault, readFault);
    UserReadsLocal(objects, objects - {DomainKey(prefix, domain)}, prefix, email, getFault, readFault);
  }

  /** Storing a user, whether or not the pointer write went through, leaves every site as it was. */
  lemma UserWritesLeaveSites(objects: map<string, string>, prefix: string, email: string, data: UserData,
                             domain: string, getFault: Fault, readFault: Fault)
    ensures var recorded := objects[UserKey(prefix, email) := EncodeUser(data)];
            var pointed := recorded[RecentKey(prefix) := email];
              && SiteExistsOf(recorded, prefix, domain, getFault) == SiteExistsOf(objects, prefix, domain, getFault)
              && LoadSiteOf(recorded, prefix, domain, getFault, readFault) == LoadSiteOf(objects, prefix, domain, getFault, readFault)
              && SiteExistsOf(pointed, prefix, domain, getFault) == SiteExistsOf(objects, prefix, domain, getFault)
              && LoadSiteOf(pointed, prefix, domain, getFault, readFault) == LoadSiteOf(objects, prefix, domain, getFault, readFault)
  {
    DomainUserKeysDisjoint(prefix, domain, email);
    var recorded := objects[UserKey(prefix, email) := EncodeUser(data)];
    SiteReadsLocal(objects, recorded, prefix, domain, getFault, readFault);
    SiteReadsLocal(objects, recorded[RecentKey(prefix) := email], prefix, domain, getFault, readFault);
  }

  /**
   * After both writes of a user store, the user loads back under every
   * spelling of the email, and the pointer gives the email as it was passed,
   * not lowercased. The one exception is an email that lowercases to
   * "recent": see RecentUserShadowed.
   */
  lemma StoredUserRoundTrip(objects: map<string, string>, prefix: string, email: string, spelling: string, data: UserData)
    requires EqualFold(email, spelling)
    requires Lower(email) != "recent"
    ensures var stored := objects[UserKey(prefix, email) := EncodeUser(data)][RecentKey(prefix) := email];
              && LoadUserOf(stored, prefix, spelling, Healthy, Healthy) == Ok(data)
              && MostRecentUserEmailOf(stored, prefix, Healthy, Healthy) == email
  {
    UserKeyCaseInsensitive(prefix, email, spelling);
    RecentKeyCollision(prefix, email);
    UserRoundTrip(data);
  }

  /**
   * When the record write of a user store succeeds and the pointer write
   * fails, the record is stored and the pointer still names whoever it named.
   */
  lemma PointerWriteFailed(objects: map<string, string>, prefix: string, email: string, data: UserData)
    requires Lower(email) != "recent"
    ensures var recorded := objects[UserKey(prefix, email) := EncodeUser(data)];
              && LoadUserOf(recorded, prefix, email, Healthy, Healthy) == Ok(data)
              && MostRecentUserEmailOf(recorded, prefix, Healthy, Healthy) == MostRecentUserEmailOf(objects, prefix, Healthy, Healthy)
  {
    var uk, rk := UserKey(prefix, email), RecentKey(prefix);
    var recorded := objects[uk := EncodeUser(data)];
    RecentKeyCollision(prefix, email);
    assert uk != rk;
    UserRoundTrip(data);
    assert ReadObject(recorded, uk, Healthy, Healthy) == Ok(EncodeUser(data));
    assert LoadUserOf(recorded, prefix, email, Healthy, Healthy) == Ok(data);
    assert rk in recorded <==> rk in objects;
    assert rk in objects ==> recorded[rk] == objects[rk];
  }

  /**
   * A user whose email lowercases to "recent" shares its key with the
   * pointer: the pointer write overwrites the record with the email text,
   * so the user then loads as Malformed.
   */
  lemma RecentUserShadowed(objects: map<string, string>, prefix: string, email: string, data: UserData)
    requires Lower(email) == "recent"
    ensures var stored := objects[UserKey(prefix, email) := EncodeUser(data)][RecentKey(prefix) := email];
              && LoadUserOf(stored, prefix, email, Healthy, Healthy) == Err(Malformed)
              && MostRecentUserEmailOf(stored, prefix, Healthy, Healthy) == email
  {
    RecentKeyCollision(prefix, email);
    assert LowerChar(email[0]) == 'r';
    assert DecodeUser(email).None?;
  }

  /**
   * For a user whose email lowercases to "recent", the record write itself
   * lands on the pointer key: when only the pointer write then fails, the
   * user loads back, and the pointer reads as that user's encoded record.
   */
  lemma RecentUserPointerWriteFailed(objects: map<string, string>, prefix: string, email: string, data: UserData)
    requires Lower(email) == "recent"
    ensures var recorded := objects[UserKey(prefix, email) := EncodeUser(data)];
              && LoadUserOf(recorded, prefix, email, Healthy, Healthy) == Ok(data)
              && MostRecentUserEmailOf(recorded, prefix, Healthy, Healthy) == EncodeUser(data)
  {
    RecentKeyCollision(prefix, email);
    UserRoundTrip(data);
  }
}
