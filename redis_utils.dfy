/** The revocation store: a key-value store with a time-to-live per key,
    shared with any other user of the same store, into which a logout writes
    "revoked:" + token with the value "true" until the token's own expiry.

    The store's contents are a map from key to (value, expiry); a key whose
    expiry has passed reads as absent. Time is an integer clock in seconds.
    Whether the store answers at all is the parameter `reachable`. */
module Revocation {
  import opened Common

  datatype Entry = Entry(value: string, expiresAt: int)

  type Entries = map<string, Entry>

  const KEY_PREFIX := "revoked:"
  const MARKER := "true"

  function Key(token: string): string {
    KEY_PREFIX + token
  }

  /** Distinct tokens have distinct keys. */
  lemma KeyInjective(a: string, b: string)
    ensures Key(a) == Key(b) ==> a == b
  {
    if Key(a) == Key(b) {
      assert a == Key(a)[|KEY_PREFIX|..];
      assert b == Key(b)[|KEY_PREFIX|..];
    }
  }

  /** The key holds a value that has not yet expired. */
  predicate Live(entries: Entries, key: string, now: int) {
    key in entries && now < entries[key].expiresAt
  }

  /** `IsTokenRevoked` at time `now`: an absent (or expired) key means "not
      revoked"; a live key means revoked iff its value is exactly "true". */
  function IsRevoked(entries: Entries, token: string, now: int, reachable: bool): (r: Result<bool, string>)
    ensures r.Err? <==> !reachable
    ensures r == Ok(true) <==> reachable && Live(entries, Key(token), now) && entries[Key(token)].value == MARKER
  {
    if !reachable then Err("failed to get revoked token status: store unreachable")
    else if !Live(entries, Key(token), now) then Ok(false)
    else Ok(entries[Key(token)].value == MARKER)
  }

  const ALREADY_EXPIRED := "token already expired"

  /** `RevokeToken` at time `now`: a token whose expiry is not in the future
      is refused before the store is touched; otherwise the marker is set with
      a time-to-live equal to the token's remaining life, overwriting any value
      the key held. */
  function Revoke(entries: Entries, token: string, expiresAt: int, now: int, reachable: bool): (Entries, Option<string>) {
    var ttl := expiresAt - now;
    if ttl <= 0 then (entries, Some(ALREADY_EXPIRED))
    else if !reachable then (entries, Some("failed to revoke token: store unreachable"))
    else (entries[Key(token) := Entry(MARKER, now + ttl)], None)
  }

  /** An expired token is refused with "token already expired" and nothing
      changes, whether or not the store is reachable. */
  lemma RevokeExpiredRejected(entries: Entries, token: string, expiresAt: int, now: int, reachable: bool)
    requires expiresAt <= now
    ensures Revoke(entries, token, expiresAt, now, reachable) == (entries, Some("token already expired"))
  {
  }

  /** An unreachable store makes a revocation of a live token fail, with
      nothing changed. */
  lemma RevokeUnreachableFails(entries: Entries, token: string, expiresAt: int, now: int)
    requires now < expiresAt
    ensures var (after, err) := Revoke(entries, token, expiresAt, now, false);
      after == entries && err.Some? && err.value != ALREADY_EXPIRED
  {
  }

  /** After a successful revocation at `now`, the token reads as revoked at
      every time in [now, expiresAt) and as not revoked from expiresAt on: the
      marker never outlives the token. */
  lemma RevokedUntilExpiry(entries: Entries, token: string, expiresAt: int, now: int, later: int)
    requires Revoke(entries, token, expiresAt, now, true).1.None?
    ensures now <= later < expiresAt ==>
      IsRevoked(Revoke(entries, token, expiresAt, now, true).0, token, later, true) == Ok(true)
    ensures expiresAt <= later ==>
      IsRevoked(Revoke(entries, token, expiresAt, now, true).0, token, later, true) == Ok(false)
  {
  }

  /** Revoking a token leaves the status of every other token as it was, at
      every time and whether or not the store is reachable. */
  lemma RevokeLeavesOthers(entries: Entries, token: string, expiresAt: int, now: int,
                           other: string, later: int, reachable: bool)
    requires other != token
    ensures IsRevoked(Revoke(entries, token, expiresAt, now, true).0, other, later, reachable)
         == IsRevoked(entries, other, later, reachable)
  {
    KeyInjective(token, other);
  }

  /** Revoking a live token a second time succeeds again and the token stays
      revoked until its expiry: the second write overwrites the first. */
  lemma RevokeTwice(entries: Entries, token: string, expiresAt: int, first: int, second: int, later: int)
    requires first <= second < expiresAt
    requires second <= later < expiresAt
    ensures var once := Revoke(entries, token, expiresAt, first, true).0;
      && Revoke(once, token, expiresAt, second, true).1.None?
      && IsRevoked(Revoke(once, token, expiresAt, second, true).0, token, later, true) == Ok(true)
      && Revoke(once, token, expiresAt, second, true).0 == once
  {
  }

  /** No key, no revocation: the store allows by default. */
  lemma AbsentKeyNotRevoked(entries: Entries, token: string, now: int)
    requires Key(token) !in entries
    ensures IsRevoked(entries, token, now, true) == Ok(false)
  {
  }

  /** A live key holding anything but "true" reads as not revoked. */
  lemma OtherValueNotRevoked(entries: Entries, token: string, now: int)
    requires Live(entries, Key(token), now) && entries[Key(token)].value != "true"
    ensures IsRevoked(entries, token, now, true) == Ok(false)
  {
  }

  /** The store client: the shared key-value store and its clock. */
  class RevocationStore {
    var entries: Entries
    var now: int

    constructor (initial: Entries, start: int)
      ensures entries == initial && now == start
    {
      entries := initial;
      now := start;
    }

    /** Time passes; keys expire by themselves. */
    method Advance(seconds: nat)
      modifies this
      ensures now == old(now) + seconds && entries == old(entries)
    {
      now := now + seconds;
    }

    method RevokeToken(token: string, expiresAt: int, reachable: bool) returns (err: Option<string>)
      modifies this
      ensures now == old(now)
      ensures (entries, err) == Revoke(old(entries), token, expiresAt, now, reachable)
    {
      var ttl := expiresAt - now;
      if ttl <= 0 {
        return Some(ALREADY_EXPIRED);
      }
      if !reachable {
        return Some("failed to revoke token: store unreachable");
      }
      entries := entries[Key(token) := Entry(MARKER, now + ttl)];
      err := None;
    }

    method IsTokenRevoked(token: string, reachable: bool) returns (revoked: bool, err: Option<string>)
      ensures err.Some? <==> !reachable
      ensures revoked <==> IsRevoked(entries, token, now, reachable) == Ok(true)
    {
      if !reachable {
        return false, Some("failed to get revoked token status: store unreachable");
      }
      var key := Key(token);
      if key !in entries || entries[key].expiresAt <= now {
        return false, None;
      }
      return entries[key].value == MARKER, None;
    }
  }

  /** Through the client: a live token revoked now reads as revoked, and
      once the clock reaches the token's expiry the marker has expired and
      the token reads as not revoked. */
  method RevokeThenExpire(store: RevocationStore, token: string, expiresAt: int)
    returns (before: bool, after: bool)
    requires store.now < expiresAt
    modifies store
    ensures before && !after
    ensures store.now == expiresAt
  {
    ghost var start, initial := store.now, store.entries;
    var err := store.RevokeToken(token, expiresAt, true);
    RevokedUntilExpiry(initial, token, expiresAt, start, start);
    RevokedUntilExpiry(initial, token, expiresAt, start, expiresAt);
    before, err := store.IsTokenRevoked(token, true);
    store.Advance(expiresAt - store.now);
    after, err := store.IsTokenRevoked(token, true);
  }
}
