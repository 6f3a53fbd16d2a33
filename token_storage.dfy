/** The three-tier token store (frontend/src/utils/tokenStorage.ts): the
    "jwt_token" item lives in localStorage, else in sessionStorage, else in an
    in-memory dictionary. Each browser tier is either missing (`typeof … ===
    "undefined"`), present but throwing on every access, or working. */
module TokenStorage {

  import opened Wrappers

  datatype TierStatus = Missing | Throwing | Working

  const TOKEN_KEY: string := "jwt_token"

  /** The token items as stored: the two browser items and the fallback dictionary. */
  datatype Stored = Stored(localItem: Option<string>, sessionItem: Option<string>, fallback: map<string, string>)

  /** `if (token)`: only a present, non-empty string counts. */
  predicate Truthy(item: Option<string>)
  {
    item.Some? && item.value != ""
  }

  function FallbackItem(fallback: map<string, string>): Option<string>
  {
    if TOKEN_KEY in fallback then Some(fallback[TOKEN_KEY]) else None
  }

  /** `getToken()`: the first working tier, in the order local, session,
      memory, that holds a non-empty token. */
  function Read(local: TierStatus, session: TierStatus, s: Stored): (r: Option<string>)
    ensures r.Some? ==> r.value != ""
    ensures local == Working && Truthy(s.localItem) ==> r == s.localItem
    ensures !(local == Working && Truthy(s.localItem)) && session == Working && Truthy(s.sessionItem) ==> r == s.sessionItem
    ensures !(local == Working && Truthy(s.localItem)) && !(session == Working && Truthy(s.sessionItem)) ==>
              r == (if Truthy(FallbackItem(s.fallback)) then FallbackItem(s.fallback) else None)
  {
    if local == Working && Truthy(s.localItem) then s.localItem
    else if session == Working && Truthy(s.sessionItem) then s.sessionItem
    else if Truthy(FallbackItem(s.fallback)) then FallbackItem(s.fallback)
    else None
  }

  /** `setToken(token)`: written to the first working tier only. */
  function Write(local: TierStatus, session: TierStatus, s: Stored, token: string): (r: Stored)
    ensures local == Working ==> r == s.(localItem := Some(token))
    ensures local != Working && session == Working ==> r == s.(sessionItem := Some(token))
    ensures local != Working && session != Working ==> r == s.(fallback := s.fallback[TOKEN_KEY := token])
  {
    if local == Working then s.(localItem := Some(token))
    else if session == Working then s.(sessionItem := Some(token))
    else s.(fallback := s.fallback[TOKEN_KEY := token])
  }

  /** `removeToken()`: every working browser tier and the dictionary lose the
      token, so none is found afterwards; tiers that cannot be accessed are
      left as they were. */
  function Remove(local: TierStatus, session: TierStatus, s: Stored): (r: Stored)
    ensures Read(local, session, r) == None
    ensures local != Working ==> r.localItem == s.localItem
    ensures session != Working ==> r.sessionItem == s.sessionItem
    ensures TOKEN_KEY !in r.fallback
    ensures forall k :: k != TOKEN_KEY ==> (k in r.fallback <==> k in s.fallback)
  {
    Stored(
      if local == Working then None else s.localItem,
      if session == Working then None else s.sessionItem,
      s.fallback - {TOKEN_KEY})
  }

  /** A non-empty token just set is the token read back, whatever the tiers. */
  lemma SetThenGet(local: TierStatus, session: TierStatus, s: Stored, token: string)
    requires token != ""
    ensures Read(local, session, Write(local, session, s, token)) == Some(token)
  {
  }

  /** Setting the empty string never yields it back. */
  lemma EmptyTokenIsAbsent(local: TierStatus, session: TierStatus, s: Stored)
    ensures Read(local, session, Write(local, session, s, "")) != Some("")
  {
  }

  class TokenStore {
    const localTier: TierStatus
    const sessionTier: TierStatus
    var localItem: Option<string>
    var sessionItem: Option<string>
    var fallbackStorage: map<string, string>

    function State(): Stored
      reads this
    {
      Stored(localItem, sessionItem, fallbackStorage)
    }

    constructor (localTier: TierStatus, sessionTier: TierStatus, localItem: Option<string>, sessionItem: Option<string>)
      ensures this.localTier == localTier && this.sessionTier == sessionTier
      ensures State() == Stored(localItem, sessionItem, map[])
    {
      this.localTier := localTier;
      this.sessionTier := sessionTier;
      this.localItem := localItem;
      this.sessionItem := sessionItem;
      fallbackStorage := map[];
    }

    method SetToken(token: string)
      modifies this
      ensures State() == Write(localTier, sessionTier, old(State()), token)
    {
      if localTier == Working {
        localItem := Some(token);
        return;
      }
      if sessionTier == Working {
        sessionItem := Some(token);
        return;
      }
      fallbackStorage := fallbackStorage[TOKEN_KEY := token];
    }

    method GetToken() returns (token: Option<string>)
      ensures token == Read(localTier, sessionTier, State())
    {
      if localTier == Working {
        var item := localItem;
        if item.Some? && item.value != "" {
          return item;
        }
      }
      if sessionTier == Working {
        var item := sessionItem;
        if item.Some? && item.value != "" {
          return item;
        }
      }
      var item := if TOKEN_KEY in fallbackStorage then Some(fallbackStorage[TOKEN_KEY]) else None;
      if item.Some? && item.value != "" {
        return item;
      }
      return None;
    }

    method RemoveToken()
      modifies this
      ensures State() == Remove(localTier, sessionTier, old(State()))
    {
      if localTier == Working {
        localItem := None;
      }
      if sessionTier == Working {
        sessionItem := None;
      }
      fallbackStorage := fallbackStorage - {TOKEN_KEY};
    }

    /** `hasToken()` holds exactly when `getToken()` finds a token. */
    method HasToken() returns (has: bool)
      ensures has <==> Read(localTier, sessionTier, State()).Some?
    {
      var token := GetToken();
      has := token.Some? && token.value != "";
    }
  }
}
