/**
 * The S3-backed certificate storage: the storage facade over the object
 * store (existence checks, loads, stores and deletes of site and user data,
 * the most-recent-user pointer) and the in-process table of named locks.
 *
 * The reads are specified by functions of the bucket's contents (the *Of
 * functions below); the writes state the bucket's new contents outright.
 */
module Storage {
  import opened Wrappers
  import opened Keys
  import opened Codec
  import opened ObjectStore
  import opened Sync

  /** The errors the storage returns to its caller. */
  datatype Error =
    | NotExist(cause: Failure)   // caddytls.ErrNotExist, wrapping the client's 404
    | Failed(cause: Failure)     // a client or body-read failure, passed through unchanged
    | Malformed                  // the stored payload does not decode
    | NoLock(name: string)       // Unlock of a name that is not locked

  datatype Result<T> = Ok(value: T) | Err(error: Error)

  /** The per-name state of the lock table. */
  datatype LockState = Unclaimed | Claimed

  /**
   * Gets key and reads its body. The client's 404 becomes NotExist; every
   * other failure, of the get or of the body read, is passed through.
   */
  function ReadObject(objects: map<string, string>, key: string, getFault: Fault, readFault: Fault): (r: Result<string>)
    ensures r.Ok? <==> getFault.Healthy? && readFault.Healthy? && key in objects
    ensures r.Ok? ==> r.value == objects[key]
    ensures r.Err? && r.error.NotExist? <==>
              (getFault.Healthy? && key !in objects) || (getFault.Fails? && IsNotFound(getFault.failure))
    ensures getFault.Fails? && !IsNotFound(getFault.failure) ==> r == Err(Failed(getFault.failure))
    ensures getFault.Fails? && IsNotFound(getFault.failure) ==> r == Err(NotExist(getFault.failure))
    ensures getFault.Healthy? && key !in objects ==> r == Err(NotExist(RequestFailure(NotFoundStatus)))
    ensures getFault.Healthy? && key in objects && readFault.Fails? ==> r == Err(Failed(readFault.failure))
  {
    match GetOf(objects, key, getFault)
    case GetFailed(f) => if IsNotFound(f) then Err(NotExist(f)) else Err(Failed(f))
    case Body(content) => if readFault.Fails? then Err(Failed(readFault.failure)) else Ok(content)
  }

  /** What SiteExists reports: presence of the domain's object, with 404 folded into "absent". */
  function SiteExistsOf(objects: map<string, string>, prefix: string, domain: string, fault: Fault): (r: (bool, Option<Error>))
    ensures r.0 <==> fault.Healthy? && DomainKey(prefix, domain) in objects
    ensures r.1.None? <==> fault.Healthy? || IsNotFound(fault.failure)
    ensures r.1.Some? ==> r.1.value == Failed(fault.failure)
  {
    match HeadOf(objects, DomainKey(prefix, domain), fault)
    case Some(f) => if IsNotFound(f) then (false, None) else (false, Some(Failed(f)))
    case None => (true, None)
  }

  /** What LoadSite returns: the decoded record, the read's error, or Malformed. */
  function LoadSiteOf(objects: map<string, string>, prefix: string, domain: string, getFault: Fault, readFault: Fault): (r: Result<SiteData>)
    ensures var read := ReadObject(objects, DomainKey(prefix, domain), getFault, readFault);
              && (read.Err? ==> r == Err(read.error))
              && (read.Ok? && DecodeSite(read.value).Some? ==> r == Ok(DecodeSite(read.value).value))
              && (read.Ok? && DecodeSite(read.value).None? ==> r == Err(Malformed))
  {
    match ReadObject(objects, DomainKey(prefix, domain), getFault, readFault)
    case Err(e) => Err(e)
    case Ok(body) =>
      match DecodeSite(body)
      case Some(data) => Ok(data)
      case None => Err(Malformed)
  }

  /** What LoadUser returns: the decoded record, the read's error, or Malformed. */
  function LoadUserOf(objects: map<string, string>, prefix: string, email: string, getFault: Fault, readFault: Fault): (r: Result<UserData>)
    ensures var read := ReadObject(objects, UserKey(prefix, email), getFault, readFault);
              && (read.Err? ==> r == Err(read.error))
              && (read.Ok? && DecodeUser(read.value).Some? ==> r == Ok(DecodeUser(read.value).value))
              && (read.Ok? && DecodeUser(read.value).None? ==> r == Err(Malformed))
  {
    match ReadObject(objects, UserKey(prefix, email), getFault, readFault)
    case Err(e) => Err(e)
    case Ok(body) =>
      match DecodeUser(body)
      case Some(data) => Ok(data)
      case None => Err(Malformed)
  }

  /** What MostRecentUserEmail returns: the pointer's text, or "" on any failure. */
  function MostRecentUserEmailOf(objects: map<string, string>, prefix: string, getFault: Fault, readFault: Fault): (email: string)
    ensures getFault.Healthy? && readFault.Healthy? && RecentKey(prefix) in objects ==> email == objects[RecentKey(prefix)]
    ensures getFault.Fails? || readFault.Fails? || RecentKey(prefix) !in objects ==> email == ""
  {
    match ReadObject(objects, RecentKey(prefix), getFault, readFault)
    case Ok(body) => body
    case Err(_) => ""
  }

  class S3Storage {
    const prefix: string
    const s3: Bucket
    var nameLocks: map<string, WaitGroup>

    /** Every held name has its own wait group, whose counter is 1 while the name is held. */
    ghost predicate Valid()
      reads this, nameLocks.Values
    {
      && (forall name :: name in nameLocks ==> nameLocks[name].count == 1)
      && (forall a, b :: a in nameLocks && b in nameLocks && a != b ==> nameLocks[a] != nameLocks[b])
    }

    ghost function State(name: string): LockState
      reads this
    {
      if name in nameLocks then Claimed else Unclaimed
    }

    /** The storage for the CA at host, over the given bucket, with no name locked. */
    constructor(host: string, bucket: Bucket)
      ensures prefix == "acme/" + host + "/" && s3 == bucket
      ensures nameLocks == map[]
      ensures Valid()
    {
      prefix := "acme/" + host + "/";
      s3 := bucket;
      nameLocks := map[];
    }

    /**
     * Claims name. On an unclaimed name the caller gets the lock (no waiter is
     * returned); on a claimed one it gets the holder's wait group and the
     * table is left as it was.
     */
    method TryLock(name: string) returns (waiter: WaitGroup?)
      requires Valid()
      modifies this
      ensures Valid()
      ensures State(name) == Claimed
      ensures old(State(name)) == Claimed ==> waiter == old(nameLocks[name]) && nameLocks == old(nameLocks)
      ensures old(State(name)) == Unclaimed ==>
                && waiter == null
                && fresh(nameLocks[name]) && nameLocks[name].count == 1
                && nameLocks == old(nameLocks)[name := nameLocks[name]]
    {
      if name in nameLocks {
        return nameLocks[name];
      }
      var wg := new WaitGroup();
      wg.Add(1);
      nameLocks := nameLocks[name := wg];
      return null;
    }

    /**
     * Releases name: its wait group drops to zero, letting its waiters go,
     * and exactly that entry leaves the table. Unlocking a name that is not
     * held is an error and changes nothing.
     */
    method Unlock(name: string) returns (err: Option<Error>)
      requires Valid()
      modifies this, if name in nameLocks then {nameLocks[name]} else {}
      ensures Valid()
      ensures State(name) == Unclaimed
      ensures old(State(name)) == Unclaimed ==> err == Some(NoLock(name)) && nameLocks == old(nameLocks)
      ensures old(State(name)) == Claimed ==>
                && err == None
                && old(nameLocks[name]).Released()
                && nameLocks == old(nameLocks) - {name}
      ensures forall n :: n in nameLocks ==> unchanged(nameLocks[n])
    {
      if name !in nameLocks {
        return Some(NoLock(name));
      }
      var wg := nameLocks[name];
      wg.Done();
      nameLocks := nameLocks - {name};
      return None;
    }

    method SiteExists(domain: string, fault: Fault) returns (present: bool, err: Option<Error>)
      ensures (present, err) == SiteExistsOf(s3.objects, prefix, domain, fault)
    {
      var headErr := s3.HeadObject(DomainKey(prefix, domain), fault);
      if headErr.Some? {
        if IsNotFound(headErr.value) {
          return false, None;
        }
        return false, Some(Failed(headErr.value));
      }
      return true, None;
    }

    method LoadSite(domain: string, getFault: Fault, readFault: Fault) returns (r: Result<SiteData>)
      ensures r == LoadSiteOf(s3.objects, prefix, domain, getFault, readFault)
    {
      var reply := s3.GetObject(DomainKey(prefix, domain), getFault);
      if reply.GetFailed? {
        if IsNotFound(reply.failure) {
          return Err(NotExist(reply.failure));
        }
        return Err(Failed(reply.failure));
      }
      if readFault.Fails? {
        return Err(Failed(readFault.failure));
      }
      var data := DecodeSite(reply.content);
      if data.None? {
        return Err(Malformed);
      }
      return Ok(data.value);
    }

    /** Writes the encoded record over the domain's object; nothing else changes. */
    method StoreSite(domain: string, data: SiteData, fault: Fault) returns (err: Option<Error>)
      modifies s3
      ensures fault.Fails? ==> err == Some(Failed(fault.failure)) && s3.objects == old(s3.objects)
      ensures fault.Healthy? ==> err == None && s3.objects == old(s3.objects)[DomainKey(prefix, domain) := EncodeSite(data)]
    {
      var payload := EncodeSite(data);
      var putErr := s3.PutObject(DomainKey(prefix, domain), payload, fault);
      if putErr.Some? {
        return Some(Failed(putErr.value));
      }
      return None;
    }

    /** Deletes the domain's object; the client's error, if any, is returned as it is. */
    method DeleteSite(domain: string, fault: Fault) returns (err: Option<Error>)
      modifies s3
      ensures fault.Fails? ==> err == Some(Failed(fault.failure)) && s3.objects == old(s3.objects)
      ensures fault.Healthy? ==> err == None && s3.objects == old(s3.objects) - {DomainKey(prefix, domain)}
    {
      var delErr := s3.DeleteObject(DomainKey(prefix, domain), fault);
      if delErr.Some? {
        return Some(Failed(delErr.value));
      }
      return None;
    }

    method LoadUser(email: string, getFault: Fault, readFault: Fault) returns (r: Result<UserData>)
      ensures r == LoadUserOf(s3.objects, prefix, email, getFault, readFault)
    {
      var reply := s3.GetObject(UserKey(prefix, email), getFault);
      if reply.GetFailed? {
        if IsNotFound(reply.failure) {
          return Err(NotExist(reply.failure));
        }
        return Err(Failed(reply.failure));
      }
      if readFault.Fails? {
        return Err(Failed(readFault.failure));
      }
      var data := DecodeUser(reply.content);
      if data.None? {
        return Err(Malformed);
      }
      return Ok(data.value);
    }

    /**
     * Writes the user's record, then, only if that succeeded, the email as
     * the most-recent-user pointer. The two writes are independent: a failed
     * pointer write leaves the record written.
     */
    method StoreUser(email: string, data: UserData, recordFault: Fault, pointerFault: Fault) returns (err: Option<Error>)
      modifies s3
      ensures recordFault.Fails? ==> err == Some(Failed(recordFault.failure)) && s3.objects == old(s3.objects)
      ensures recordFault.Healthy? && pointerFault.Fails? ==>
                err == Some(Failed(pointerFault.failure)) &&
                s3.objects == old(s3.objects)[UserKey(prefix, email) := EncodeUser(data)]
      ensures recordFault.Healthy? && pointerFault.Healthy? ==>
                err == None &&
                s3.objects == old(s3.objects)[UserKey(prefix, email) := EncodeUser(data)][RecentKey(prefix) := email]
    {
      var payload := EncodeUser(data);
      var putErr := s3.PutObject(UserKey(prefix, email), payload, recordFault);
      if putErr.Some? {
        return Some(Failed(putErr.value));
      }
      putErr := s3.PutObject(UserKey(prefix, "recent"), email, pointerFault);
      if putErr.Some? {
        return Some(Failed(putErr.value));
      }
      return None;
    }

    method MostRecentUserEmail(getFault: Fault, readFault: Fault) returns (email: string)
      ensures email == MostRecentUserEmailOf(s3.objects, prefix, getFault, readFault)
    {
      var reply := s3.GetObject(UserKey(prefix, "recent"), getFault);
      if reply.GetFailed? {
        return "";
      }
      if readFault.Fails? {
        return "";
      }
      return reply.content;
    }
  }
}
