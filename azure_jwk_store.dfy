/**
  AzureJwkStore: a cache of Azure AD's published signing keys (a JSON Web Key Set, RFC 7517)
  used to validate SSO id tokens. The cache is refreshed when it is more than an hour old or
  holds no keys, and the key endpoint is fetched at most once every five minutes. Validation
  never throws: every failure is reported as false.
 */
module Jwk {
  import opened Common

  /** DateTimeOffset.MinValue in Unix seconds: the cache's initial retrieval time. */
  const MinValueSeconds := -62135596800

  /** Age in seconds beyond which the cache is refreshed. */
  const MaxCacheAgeSeconds := 3600

  /** Minimum age in seconds before the key endpoint is fetched again. */
  const MinFetchIntervalSeconds := 300

  /** One key of the set; `material` stands for kty, use, x5t, n, e and x5c. */
  datatype JwkEntry = JwkEntry(kid: Option<string>, material: string)

  /** The deserialized key set document; its "keys" member may be null. */
  datatype KeyDocument = KeyDocument(keys: Option<seq<JwkEntry>>)

  /** What a fetch of the key endpoint gives: a document (possibly JSON null), or an exception. */
  datatype FetchOutcome = Fetched(document: Option<KeyDocument>) | FetchFailed

  /** A compact JWT as ReadToken parses it, without any validation: its header kid and its payload claims. */
  datatype JwtToken = JwtToken(headerKid: Option<string>, claims: seq<Claim>)

  /**
    The token library as seen by the store: `read` parses a compact token (None where
    ReadToken throws; a readable token is always a JwtSecurityToken), `validate` checks
    signature, issuer, audience and lifetime against a key list and yields the validated
    token's ValidTo, or None where ValidateToken throws.
   */
  datatype TokenHandler = TokenHandler(read: string -> Option<JwtToken>, validate: (string, seq<JwkEntry>) -> Option<int>)

  /** The cache fields: the last fetched document (null initially) and when it was fetched. */
  datatype CacheState = CacheState(keys: Option<KeyDocument>, lastRetrievedOn: int)

  const InitialState := CacheState(None, MinValueSeconds)

  /**
    The refresh test. Some(b) is its value; None is the ArgumentNullException Any() throws when
    the document is present but its key list is null and the age test did not short-circuit.
   */
  function RefreshCondition(s: CacheState, now: int): (r: Option<bool>)
    ensures r == None <==> now - s.lastRetrievedOn <= MaxCacheAgeSeconds && s.keys.Some? && s.keys.value.keys.None?
    ensures r == Some(true) <==>
      now - s.lastRetrievedOn > MaxCacheAgeSeconds || s.keys.None? || s.keys.value.keys == Some([])
  {
    if now - s.lastRetrievedOn > MaxCacheAgeSeconds then Some(true)
    else if s.keys.None? then Some(true)
    else if s.keys.value.keys.None? then None
    else Some(|s.keys.value.keys.value| == 0)
  }

  /** Whether a refresh at `now` goes to the network. */
  predicate FetchDue(s: CacheState, now: int) {
    now - s.lastRetrievedOn > MinFetchIntervalSeconds
  }

  /** The cache after RefreshJwks; None when the fetch throws, which leaves the fields as they were. */
  function Refreshed(s: CacheState, now: int, fetch: FetchOutcome): (r: Option<CacheState>)
    ensures !FetchDue(s, now) ==> r == Some(s)
    ensures FetchDue(s, now) && fetch.FetchFailed? ==> r == None
    ensures FetchDue(s, now) && fetch.Fetched? ==> r == Some(CacheState(fetch.document, now))
  {
    if !FetchDue(s, now) then Some(s)
    else if fetch.FetchFailed? then None
    else Some(CacheState(fetch.document, now))
  }

  /** Some key of the document carries the token's header kid. */
  predicate HasKid(keys: seq<JwkEntry>, kid: Option<string>) {
    exists i :: 0 <= i < |keys| && keys[i].kid == kid
  }

  /** The token check on a settled cache: a key with the header kid must exist and validation with all keys must succeed before expiry. */
  predicate KeysAccept(doc: Option<KeyDocument>, token: string, now: int, handler: TokenHandler) {
    && doc.Some? && doc.value.keys.Some?
    && handler.read(token).Some?
    && HasKid(doc.value.keys.value, handler.read(token).value.headerKid)
    && handler.validate(token, doc.value.keys.value).Some?
    && now < handler.validate(token, doc.value.keys.value).value
  }

  /** The cache after a ValidateTokenWithAzureKeys call. */
  function AfterValidation(s: CacheState, now: int, fetch: FetchOutcome): (r: CacheState)
    ensures r == s || (FetchDue(s, now) && fetch.Fetched? && r == CacheState(fetch.document, now))
  {
    var cond := RefreshCondition(s, now);
    if cond == Some(true) then
      var refreshed := Refreshed(s, now, fetch);
      if refreshed.Some? then refreshed.value else s
    else
      s
  }

  /** The result of a ValidateTokenWithAzureKeys call. */
  function ValidationResult(s: CacheState, token: string, now: int, fetch: FetchOutcome, handler: TokenHandler): (ok: bool)
    ensures ok ==> RefreshCondition(s, now).Some?
    ensures ok ==> KeysAccept(AfterValidation(s, now, fetch).keys, token, now, handler)
  {
    var cond := RefreshCondition(s, now);
    if cond.None? then false
    else if cond == Some(true) && Refreshed(s, now, fetch).None? then false
    else KeysAccept(AfterValidation(s, now, fetch).keys, token, now, handler)
  }

  class AzureJwkStore {
    var keys: Option<KeyDocument>
    var lastRetrievedOn: int

    function State(): CacheState
      reads this
    {
      CacheState(keys, lastRetrievedOn)
    }

    constructor()
      ensures State() == InitialState
    {
      keys := None;
      lastRetrievedOn := MinValueSeconds;
    }

    /** RefreshJwks: fetches only when the cache is older than five minutes; `ok` is false when the fetch throws. */
    method RefreshJwks(now: int, fetch: FetchOutcome) returns (ok: bool)
      modifies this
      ensures ok <==> Refreshed(old(State()), now, fetch).Some?
      ensures ok ==> State() == Refreshed(old(State()), now, fetch).value
      ensures !ok ==> State() == old(State())
    {
      if now - lastRetrievedOn > MinFetchIntervalSeconds {
        if fetch.FetchFailed? {
          return false;
        }
        keys := fetch.document;
        lastRetrievedOn := now;
      }
      ok := true;
    }

    /** ValidateTokenWithAzureKeys: refresh if due, find a key with the token's kid, validate, compare ValidTo. */
    method ValidateTokenWithAzureKeys(token: string, now: int, fetch: FetchOutcome, handler: TokenHandler)
      returns (result: bool)
      modifies this
      ensures State() == AfterValidation(old(State()), now, fetch)
      ensures result == ValidationResult(old(State()), token, now, fetch, handler)
    {
      result := false;
      var needsRefresh: bool;
      if now - lastRetrievedOn > MaxCacheAgeSeconds {
        needsRefresh := true;
      } else if keys.None? {
        needsRefresh := true;
      } else if keys.value.keys.None? {
        return false;
      } else {
        needsRefresh := |keys.value.keys.value| == 0;
      }
      if needsRefresh {
        var refreshed := RefreshJwks(now, fetch);
        if !refreshed {
          return false;
        }
      }
      var dToken := handler.read(token);
      if dToken.None? {
        return false;
      }
      var kid := dToken.value.headerKid;
      if keys.None? || keys.value.keys.None? {
        return false;
      }
      var entries := keys.value.keys.value;
      if HasKid(entries, kid) {
        var validated := handler.validate(token, entries);
        if validated.None? {
          return false;
        }
        result := now < validated.value;
      } else {
        result := false;
      }
    }
  }

  /** The first validation always refreshes, and fetches unless the clock reads before year 1 plus five minutes. */
  lemma FirstValidationRefreshes(now: int)
    ensures RefreshCondition(InitialState, now) == Some(true)
    ensures now > MinValueSeconds + MinFetchIntervalSeconds ==> FetchDue(InitialState, now)
  {
  }

  /** A failed fetch leaves keys and retrieval time unchanged and the call answers false. */
  lemma FailedFetchLeavesCacheUnchanged(s: CacheState, token: string, now: int, handler: TokenHandler)
    ensures AfterValidation(s, now, FetchFailed) == s
    ensures RefreshCondition(s, now) == Some(true) && FetchDue(s, now) ==> !ValidationResult(s, token, now, FetchFailed, handler)
  {
  }

  /** A token whose kid no cached key carries is refused, whatever the validator says. */
  lemma UnknownKidFailsClosed(s: CacheState, token: string, now: int, fetch: FetchOutcome, handler: TokenHandler)
    requires handler.read(token).Some?
    requires var doc := AfterValidation(s, now, fetch).keys;
      doc.Some? && doc.value.keys.Some? && !HasKid(doc.value.keys.value, handler.read(token).value.headerKid)
    ensures !ValidationResult(s, token, now, fetch, handler)
  {
  }

  /** An unreadable token, and a token the validator rejects, are refused without an exception escaping. */
  lemma InvalidTokenFailsClosed(s: CacheState, token: string, now: int, fetch: FetchOutcome, handler: TokenHandler)
    requires handler.read(token).None? || forall keys :: handler.validate(token, keys).None?
    ensures !ValidationResult(s, token, now, fetch, handler)
  {
  }

  /** An accepted token was validated against the cached keys and its ValidTo lies after now. */
  lemma AcceptedTokenIsUnexpired(s: CacheState, token: string, now: int, fetch: FetchOutcome, handler: TokenHandler)
    requires ValidationResult(s, token, now, fetch, handler)
    ensures var doc := AfterValidation(s, now, fetch).keys;
      && doc.Some? && doc.value.keys.Some?
      && handler.validate(token, doc.value.keys.value).Some?
      && now < handler.validate(token, doc.value.keys.value).value
  {
  }

  /** The cache only changes on a fetch that succeeded, more than 300 s after the last one. */
  lemma CacheChangesOnlyOnFetch(s: CacheState, now: int, fetch: FetchOutcome)
    requires AfterValidation(s, now, fetch) != s
    ensures RefreshCondition(s, now) == Some(true) && FetchDue(s, now) && fetch.Fetched?
    ensures AfterValidation(s, now, fetch) == CacheState(fetch.document, now)
    ensures now - s.lastRetrievedOn > MinFetchIntervalSeconds
  {
  }

  /** One ValidateTokenWithAzureKeys call: the clock reading and what the endpoint would answer. */
  datatype Call = Call(now: int, fetch: FetchOutcome)

  /** The cache after a sequence of calls, and the times at which a fetch succeeded. */
  function Run(s: CacheState, calls: seq<Call>): (r: (CacheState, seq<int>))
    decreases |calls|
  {
    if calls == [] then (s, [])
    else
      var next := AfterValidation(s, calls[0].now, calls[0].fetch);
      var rest := Run(next, calls[1..]);
      if next == s then rest else (rest.0, [calls[0].now] + rest.1)
  }

  /**
    Successful fetches are more than 300 s apart, and the first is more than 300 s after the
    starting retrieval time, whatever order the clock readings come in.
   */
  lemma {:induction false} SuccessfulFetchesAreSpaced(s: CacheState, calls: seq<Call>)
    ensures var times := Run(s, calls).1;
      && (|times| > 0 ==> times[0] - s.lastRetrievedOn > MinFetchIntervalSeconds)
      && (forall i :: 0 <= i < |times| - 1 ==> times[i + 1] - times[i] > MinFetchIntervalSeconds)
    decreases |calls|
  {
    if calls != [] {
      var next := AfterValidation(s, calls[0].now, calls[0].fetch);
      SuccessfulFetchesAreSpaced(next, calls[1..]);
      if next != s {
        CacheChangesOnlyOnFetch(s, calls[0].now, calls[0].fetch);
        var times := Run(s, calls).1;
        var rest := Run(next, calls[1..]).1;
        assert times == [calls[0].now] + rest;
        assert next.lastRetrievedOn == calls[0].now;
        forall i | 0 <= i < |times| - 1
          ensures times[i + 1] - times[i] > MinFetchIntervalSeconds
        {
          if i > 0 {
            assert times[i] == rest[i - 1] && times[i + 1] == rest[i];
          }
        }
      }
    }
  }

  /** A failed fetch is not rate-limited: the next call at the same instant fetches again. */
  lemma FailedFetchIsRetried(s: CacheState, now: int)
    requires RefreshCondition(s, now) == Some(true) && FetchDue(s, now)
    ensures var after := AfterValidation(s, now, FetchFailed);
      RefreshCondition(after, now) == Some(true) && FetchDue(after, now)
  {
  }
}
