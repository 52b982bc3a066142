/**
 * The object store the storage talks to, standing in for the S3 client:
 * one bucket, a map from key to payload. Whether a call reaches the store or
 * fails (network, permissions, throttling, ...) is outside the storage's
 * control, so every call takes a Fault that says how it goes.
 */
module ObjectStore {
  import opened Wrappers

  const NotFoundStatus := 404

  /** A failure as the client reports it: an HTTP request failure with its status, or any other error. */
  datatype Failure = RequestFailure(status: int) | Transport(message: string)

  /** What happens to one call: it reaches the store, or it fails with the given failure. */
  datatype Fault = Healthy | Fails(failure: Failure)

  /** The reply to a get: the object's body, or the failure. */
  datatype GetReply = Body(content: string) | GetFailed(failure: Failure)

  /** The client's "not found" condition: a request failure with HTTP status 404. */
  predicate IsNotFound(f: Failure)
  {
    f.RequestFailure? && f.status == NotFoundStatus
  }

  function HeadOf(objects: map<string, string>, key: string, fault: Fault): Option<Failure>
  {
    if fault.Fails? then Some(fault.failure)
    else if key in objects then None
    else Some(RequestFailure(NotFoundStatus))
  }

  function GetOf(objects: map<string, string>, key: string, fault: Fault): GetReply
  {
    if fault.Fails? then GetFailed(fault.failure)
    else if key in objects then Body(objects[key])
    else GetFailed(RequestFailure(NotFoundStatus))
  }

  class Bucket {
    var objects: map<string, string>

    constructor(initial: map<string, string>)
      ensures objects == initial
    {
      objects := initial;
    }

    method HeadObject(key: string, fault: Fault) returns (err: Option<Failure>)
      ensures err == HeadOf(objects, key, fault)
    {
      if fault.Fails? {
        return Some(fault.failure);
      }
      if key !in objects {
        return Some(RequestFailure(NotFoundStatus));
      }
      return None;
    }

    method GetObject(key: string, fault: Fault) returns (reply: GetReply)
      ensures reply == GetOf(objects, key, fault)
    {
      if fault.Fails? {
        return GetFailed(fault.failure);
      }
      if key !in objects {
        return GetFailed(RequestFailure(NotFoundStatus));
      }
      return Body(objects[key]);
    }

    /** Writes the whole object, replacing any previous one. */
    method PutObject(key: string, body: string, fault: Fault) returns (err: Option<Failure>)
      modifies this
      ensures fault.Fails? ==> err == Some(fault.failure) && objects == old(objects)
      ensures fault.Healthy? ==> err == None && objects == old(objects)[key := body]
    {
      if fault.Fails? {
        return Some(fault.failure);
      }
      objects := objects[key := body];
      return None;
    }

    /** Removes the object; as on S3, removing a missing key succeeds. */
    method DeleteObject(key: string, fault: Fault) returns (err: Option<Failure>)
      modifies this
      ensures fault.Fails? ==> err == Some(fault.failure) && objects == old(objects)
      ensures fault.Healthy? ==> err == None && objects == old(objects) - {key}
    {
      if fault.Fails? {
        return Some(fault.failure);
      }
      objects := objects - {key};
      return None;
    }
  }
}
