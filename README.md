# S3 certificate storage for Caddy's TLS layer, in Dafny

This project models the core of `caddytlss3`, a storage backend for Caddy's
TLS certificate manager that keeps ACME account data and per-domain
certificate bundles in an S3 bucket, and proves properties of that model.

It covers three parts of `plugin.go`:

- **Key namespace** (module `Keys`): a site lives at `prefix + "domain/" +
  lower(domain)`, a user at `prefix + "user/" + lower(email)`, and the
  most-recent-user pointer at the user key of `"recent"`. Proved: lookups are
  case-insensitive and only case is ignored; domain keys and user keys never
  collide under one prefix; the pointer key is the record key of exactly the
  users whose email lowercases to `recent`.
- **Named lock table** (`Storage.S3Storage.TryLock`, `Unlock`, field
  `nameLocks`): a map from name to a wait group, changed in place. Each name is
  Unclaimed or Claimed. `TryLock` on an unclaimed name inserts a fresh wait
  group with counter 1 and returns no waiter; on a claimed name it returns the
  holder's wait group and changes nothing. `Unlock` of a held name drops its
  counter to 0, which lets its waiters go, and removes exactly that entry;
  `Unlock` of a name not held is an error and changes nothing. The invariant
  `Valid` (every held name has its own wait group, at 1) is kept throughout.
- **Storage facade** (`Storage.S3Storage` and the `*Of` functions that specify
  its reads): a 404 from the client becomes `(false, nil)` in `SiteExists` and
  `NotExist` in `LoadSite`/`LoadUser`; every other failure is passed through
  unchanged; a payload that does not decode gives an error and no record;
  `MostRecentUserEmail` turns every failure into `""`. `StoreUser` writes the
  record first and the pointer only if the record write succeeded. Proved over
  the bucket's contents: store/load/delete round trips, case-insensitive
  lookups, site writes leave users and the pointer alone and user writes leave
  sites alone, and a failed pointer write leaves the record stored and the
  pointer unchanged (for every email except those that lowercase to
  `recent`, whose record write itself lands on the pointer key).

The S3 client is the class `ObjectStore.Bucket`, a map from key to payload.
Whether a call reaches the bucket is outside the storage's control, so every
client call, and every read of a response body, takes a `Fault` parameter:
`Healthy`, or `Fails(f)` with `f` a request failure carrying an HTTP status or
another error. A get or head of a missing key fails with status 404. A delete
of a missing key succeeds, as it does on S3.

Records are encoded by module `Codec` into a JSON-shaped text,
`{"Cert":"…","Key":"…","Meta":"…"}` for a site and `{"Reg":"…","Key":"…"}` for
a user, whose byte fields are written in hex. Proved: a payload decodes to a
record exactly when it starts with that record's encoding, so the round trip
`Decode(Encode(r)) == r` holds and every other payload, the empty one
included, is refused rather than read as a partial or zero-filled record.

Where the code and its comments disagree, the model follows the code.
`DeleteSite`'s doc comment (plugin.go:183-185) says a missing site gives
`ErrNotExist`, but the code returns the client's error as it is
(plugin.go:186-191). With S3's semantics the delete of a missing site
therefore succeeds: `DeleteSite`'s contract gives `err == None` for a healthy
call whatever the bucket holds.

A user whose email lowercases to `recent` shares its key with the pointer.
Storing such a user overwrites its record with the email text, and the user
then loads as `Malformed` (`RecentUserShadowed`). If instead only the pointer
write fails, the record write has already replaced the pointer, which then
reads as the user's encoded record (`RecentUserPointerWriteFailed`).
`StoredUserRoundTrip` and `PointerWriteFailed` therefore exclude those emails.

Files: `wrappers.dfy` (Option), `keys.dfy`, `codec.dfy`, `object_store.dfy`,
`sync.dfy` (the wait group counter), `storage.dfy` (the facade and the lock
table), `storage_properties.dfy` (the lemmas relating reads to writes),
`scenarios.dfy` (callers that run the integration tests' sequences and a lock's
life cycle against the method contracts).

## Model

| member | source | states |
|---|---|---|
| `Keys.Lower` | plugin.go:82 | lowering keeps the length and lowers each character (ASCII letters only) |
| `Keys.LowerIdempotent` | plugin.go:82-83 | lowering a lowered string changes nothing |
| `Keys.LowerEqualIff` | plugin.go:82-88 | two strings lower to the same string exactly when they are equal up to case |
| `Keys.DomainKey` | plugin.go:81-84 | a domain's key lies under prefix + "domain/", is followed by a name as long as the domain, and that name is already lower case |
| `Keys.UserKey` | plugin.go:86-89 | a user's key lies under prefix + "user/", is followed by a name as long as the email, and that name is already lower case |
| `Keys.RecentKey` | plugin.go:237-253 | the pointer key, userKey("recent"), is prefix + "user/recent" |
| `Keys.DomainKeyCaseInsensitive` | plugin.go:81-84 | two domains get the same key if and only if they are equal up to case |
| `Keys.UserKeyCaseInsensitive` | plugin.go:86-89 | two emails get the same key if and only if they are equal up to case |
| `Keys.DomainUserKeysDisjoint` | plugin.go:81-89 | under one prefix no domain key equals any user key or the pointer key |
| `Keys.RecentKeyCollision` | plugin.go:237-253 | the pointer key is a user's record key exactly when the email lowercases to "recent" |
| `Codec.EncodeSite` | plugin.go:169 | the stored site payload is a JSON-shaped object `{"Cert":…,"Key":…,"Meta":…}` with hex byte fields, two characters per byte; SiteRoundTrip and DecodeSiteExactly prove it the inverse of the decoder |
| `Codec.EncodeUser` | plugin.go:222 | the stored user payload is a JSON-shaped object `{"Reg":…,"Key":…}` with hex byte fields, two characters per byte; UserRoundTrip and DecodeUserExactly prove it the inverse of the decoder |
| `Codec.DecodeSite` | plugin.go:155-158 | a decoded site comes only from a payload starting with `{`; an empty payload gives no record |
| `Codec.DecodeUser` | plugin.go:211-214 | a decoded user comes only from a payload starting with `{`; an empty payload gives no record |
| `Codec.DecodeSiteExactly` | plugin.go:155-158 | a payload decodes to a site if and only if it starts with that site's encoding: no other payload yields a record |
| `Codec.DecodeUserExactly` | plugin.go:211-214 | a payload decodes to a user if and only if it starts with that user's encoding: no other payload yields a record |
| `Codec.SiteRoundTrip` | plugin.go:169 | decoding an encoded site gives back the same site |
| `Codec.UserRoundTrip` | plugin.go:222 | decoding an encoded user gives back the same user |
| `Storage.ReadObject` | plugin.go:144-153 | a read succeeds exactly when the get and body read succeed and the key is present, giving the stored payload; NotExist exactly for a missing key or a 404, wrapping that 404; a failed get or body read returns that very failure |
| `Storage.SiteExistsOf` | plugin.go:124-136 | reports presence exactly when the call went through and the domain's object is there; a 404 gives no error; any other failure is returned unchanged |
| `Storage.LoadSiteOf` | plugin.go:143-160 | a failed read fails the load with the read's own error; a readable payload that decodes loads as its decoding; one that does not gives Malformed |
| `Storage.LoadUserOf` | plugin.go:199-216 | a failed read fails the load with the read's own error; a readable payload that decodes loads as its decoding; one that does not gives Malformed |
| `Storage.MostRecentUserEmailOf` | plugin.go:250-264 | the pointer's stored text when the read succeeds; "" on any get or read failure or when nothing is stored |
| `Storage.S3Storage.constructor` | plugin.go:73-78 | the prefix is "acme/" + host + "/", the lock table is empty and valid |
| `Storage.S3Storage.TryLock` | plugin.go:93-106 | unclaimed: the name becomes claimed with a fresh wait group at 1, no waiter is returned, no other entry changes; claimed: the holder's wait group is returned and the table is unchanged |
| `Storage.S3Storage.Unlock` | plugin.go:109-119 | not held: NoLock error, table unchanged; held: that wait group is released (counter 0), exactly that name is removed, every other entry untouched |
| `Storage.S3Storage.SiteExists` | plugin.go:124-136 | returns what SiteExistsOf gives for the bucket's contents |
| `Storage.S3Storage.LoadSite` | plugin.go:143-160 | returns what LoadSiteOf gives for the bucket's contents |
| `Storage.S3Storage.StoreSite` | plugin.go:168-181 | on success only the domain's key changes, to the encoded site; on failure the error is passed through and the bucket is unchanged |
| `Storage.S3Storage.DeleteSite` | plugin.go:186-192 | on success only the domain's key is removed, present or not, and no error is returned; on failure the client's error is passed through and the bucket is unchanged |
| `Storage.S3Storage.LoadUser` | plugin.go:199-216 | returns what LoadUserOf gives for the bucket's contents |
| `Storage.S3Storage.StoreUser` | plugin.go:221-245 | a failed record write changes nothing and the pointer is not written; then the record is written, and the pointer only after it; a failed pointer write is reported with the record left written |
| `Storage.S3Storage.MostRecentUserEmail` | plugin.go:250-264 | returns what MostRecentUserEmailOf gives for the bucket's contents |
| `StorageProperties.SiteNeverStored` | plugin_test.go:45-58 | a site never stored does not exist and loads as NotExist |
| `StorageProperties.StoredSiteRoundTrip` | plugin.go:168-181 | after a site is stored, every spelling of its domain equal up to case finds it and loads it back equal |
| `StorageProperties.DeletedSiteAbsent` | plugin.go:186-192 | after a site is deleted, it does not exist under any spelling and loads as NotExist |
| `StorageProperties.SiteReadsLocal` | plugin.go:124-160 | a site's existence and load depend on the bucket only at the site's key |
| `StorageProperties.UserReadsLocal` | plugin.go:199-264 | a user's load and the pointer depend on the bucket only at their two keys |
| `StorageProperties.SiteWritesLeaveUsers` | plugin.go:168-192 | storing or deleting a site leaves every user's load and the pointer unchanged |
| `StorageProperties.UserWritesLeaveSites` | plugin.go:221-245 | storing a user, with or without the pointer write, leaves every site's existence and load unchanged |
| `StorageProperties.StoredUserRoundTrip` | plugin.go:221-264 | after a user store, every spelling of the email loads the user back equal and the pointer gives the email exactly as passed |
| `StorageProperties.PointerWriteFailed` | plugin.go:233-244 | when only the pointer write fails, the user is stored and the pointer still gives what it gave before |
| `StorageProperties.RecentUserPointerWriteFailed` | plugin.go:226-244 | for an email lowercasing to "recent", when only the pointer write fails the user loads back and the pointer reads as the user's encoded record |
| `StorageProperties.RecentUserShadowed` | plugin.go:226-244 | storing a user whose email lowercases to "recent" leaves that user loading as Malformed and the pointer giving the email |
| `Scenarios.IntegrationDomain` | plugin_test.go:40-96 | absent, store, load equal, delete, absent again, and the bucket ends as it began |
| `Scenarios.IntegrationUser` | plugin_test.go:98-134 | no recent user and user absent; after the store the user loads equal and is the most recent user |
| `Scenarios.StoreThenLoadOtherCase` | plugin.go:81-84 | a site stored as "Example.com" loads as "example.com" |
| `Scenarios.LockSequence` | plugin.go:93-119 | lock acquires, a second lock gets the released-on-unlock waiter, unlock, lock acquires again, unlock, a further unlock is an error |

## Left out

- Credential, region and bucket discovery in `NewS3Storage` (plugin.go:58-72), including the error when `CADDY_S3_BUCKET` is unset: environment and I/O glue. The constructor takes the CA host and the bucket object.
- The AWS SDK (`HeadObject`, `GetObject`, `PutObject`, `DeleteObject`, `awserr` inspection): foreign library code, replaced by `ObjectStore.Bucket` with a `Fault` parameter per call. The request options `ServerSideEncryption` and `ContentLength` and `Body.Close` have no effect on the modelled state.
- `encoding/json`: library code, replaced by the codec in `Codec`. Go writes byte fields in base64 where this model writes hex. Go's decoder also matches field names without regard to case, ignores unknown fields and zero-fills missing ones; the model's decoder accepts only the fields in order. Like Go's stream decoder, it ignores what follows the record.
- `json.Marshal`'s error branches (plugin.go:170-172, plugin.go:223-225): they cannot be taken for these records, so encoding is total.
- A nil record pointer, which Go encodes and decodes as `null`: the model's records are always present.
- `Keys.Lower`: lowers ASCII letters only, not the full Unicode case mapping of `strings.ToLower`.
- `sync.Mutex` (`nameLocksMu`) and the blocking `Wait` of `sync.WaitGroup`: the lock table is modelled sequentially, each call one atomic step, and a waiter only by its counter.
- `TryLock`'s error result, which is always nil, is not returned; the message text of `Unlock`'s error is reduced to the name it carries.
- Plugin registration in `init` and the commented-out `setup` (plugin.go:32-47), and the tests' `randomPrefix`.
