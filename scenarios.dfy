/**
 * Callers of S3Storage that run the storage's documented sequences and
 * prove, from the method contracts alone, what each step returns: the two
 * integration tests of the repository, case-insensitive site lookup, and the
 * life cycle of one named lock.
 */
module Scenarios {
  import opened Wrappers
  import opened Keys
  import opened Codec
  import opened ObjectStore
  import opened Sync
  import opened Storage
  import opened StorageProperties

  /**
   * The site integration test: a domain not yet stored is absent, stores,
   * loads back equal, deletes, and is absent again; the bucket ends as it began.
   */
  method IntegrationDomain(st: S3Storage, domain: string, data: SiteData)
    returns (existedBefore: bool, loadedBefore: Result<SiteData>, loaded: Result<SiteData>,
             existedAfter: bool, loadedAfter: Result<SiteData>)
    requires DomainKey(st.prefix, domain) !in st.s3.objects
    modifies st.s3
    ensures !existedBefore && loadedBefore == Err(NotExist(RequestFailure(NotFoundStatus)))
    ensures loaded == Ok(data)
    ensures !existedAfter && loadedAfter == Err(NotExist(RequestFailure(NotFoundStatus)))
    ensures st.s3.objects == old(st.s3.objects)
  {
    SiteNeverStored(st.s3.objects, st.prefix, domain);
    var err;
    existedBefore, err := st.SiteExists(domain, Healthy);
    loadedBefore := st.LoadSite(domain, Healthy, Healthy);

    err := st.StoreSite(domain, data, Healthy);
    assert err == None;
    StoredSiteRoundTrip(old(st.s3.objects), st.prefix, domain, domain, data);
    loaded := st.LoadSite(domain, Healthy, Healthy);

    err := st.DeleteSite(domain, Healthy);
    assert err == None;
    DeletedSiteAbsent(st.s3.objects, st.prefix, domain, domain);
    existedAfter, err := st.SiteExists(domain, Healthy);
    loadedAfter := st.LoadSite(domain, Healthy, Healthy);
    assert st.s3.objects == old(st.s3.objects)[DomainKey(st.prefix, domain) := EncodeSite(data)] - {DomainKey(st.prefix, domain)};
  }

  /**
   * The user integration test: with no user stored there is no most recent
   * user and the user is absent; after storing, the user loads back equal and
   * is the most recent user.
   */
  method IntegrationUser(st: S3Storage, email: string, data: UserData)
    returns (recentBefore: string, loadedBefore: Result<UserData>, loaded: Result<UserData>, recentAfter: string)
    requires RecentKey(st.prefix) !in st.s3.objects && UserKey(st.prefix, email) !in st.s3.objects
    requires Lower(email) != "recent"
    modifies st.s3
    ensures recentBefore == "" && loadedBefore == Err(NotExist(RequestFailure(NotFoundStatus)))
    ensures loaded == Ok(data) && recentAfter == email
  {
    recentBefore := st.MostRecentUserEmail(Healthy, Healthy);
    loadedBefore := st.LoadUser(email, Healthy, Healthy);

    var err := st.StoreUser(email, data, Healthy, Healthy);
    assert err == None;
    StoredUserRoundTrip(old(st.s3.objects), st.prefix, email, email, data);
    loaded := st.LoadUser(email, Healthy, Healthy);
    recentAfter := st.MostRecentUserEmail(Healthy, Healthy);
  }

  /** A site stored under one spelling of a domain ("Example.com") loads under another ("example.com"). */
  method StoreThenLoadOtherCase(st: S3Storage, domain: string, spelling: string, data: SiteData)
    returns (loaded: Result<SiteData>)
    requires EqualFold(domain, spelling)
    modifies st.s3
    ensures loaded == Ok(data)
  {
    var err := st.StoreSite(domain, data, Healthy);
    StoredSiteRoundTrip(old(st.s3.objects), st.prefix, domain, spelling, data);
    loaded := st.LoadSite(spelling, Healthy, Healthy);
  }

  /**
   * One name through its life cycle: the first claim acquires, a second gets
   * the holder's wait group, an unlock releases it, a new claim acquires
   * again, and an unlock after the release is an error.
   */
  method LockSequence(st: S3Storage, name: string)
    returns (first: WaitGroup?, second: WaitGroup?, released: Option<Error>, third: WaitGroup?,
             releasedAgain: Option<Error>, extra: Option<Error>)
    requires st.Valid() && st.State(name) == Unclaimed
    modifies st
    ensures st.Valid() && st.nameLocks == old(st.nameLocks)
    ensures first == null && second != null && second.Released()
    ensures released == None && third == null && releasedAgain == None
    ensures extra == Some(NoLock(name))
  {
    first := st.TryLock(name);
    second := st.TryLock(name);
    released := st.Unlock(name);
    third := st.TryLock(name);
    releasedAgain := st.Unlock(name);
    extra := st.Unlock(name);
  }
}
