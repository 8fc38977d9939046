/** The token manager: returns a usable access token, refreshing the stored
    one through the auth client when it has expired. */
module ValidAccessToken {
  import opened Wrappers
  import opened MercadoLibreTypes
  import opened MLTokenRepository

  const NotInitialized: string := "MercadoLibre token not initialized"

  /** The auth client's `refreshToken`, as the outcome it gives for each
      refresh token it is called with. */
  type Refresher = string -> Result<Token>

  /** What one call does, given the stored token before it: its result, the
      token it saves (if any) and the refresh tokens it sends to the auth
      client, in order. */
  datatype Call = Call(result: Result<string>, saved: Option<Token>, refreshCalls: seq<string>)

  /** The decision a call makes. */
  function Decide(stored: Option<Token>, now: int, refresh: Refresher): (c: Call)
  {
    match stored
    case None => Call(Err(Thrown(NotInitialized)), None, [])
    case Some(token) =>
      if !IsTokenExpired(token, now) then Call(Ok(token.accessToken), None, [])
      else
        match refresh(token.refreshToken)
        case Err(e) => Call(Err(e), None, [token.refreshToken])
        case Ok(refreshed) => Call(Ok(refreshed.accessToken), Some(refreshed), [token.refreshToken])
  }

  /** The token held once the call is over. */
  function HeldAfter(stored: Option<Token>, c: Call): Option<Token>
  {
    if c.saved.Some? then c.saved else stored
  }

  /** With nothing stored, the call fails without refreshing or saving. */
  lemma UninitializedFails(now: int, refresh: Refresher)
    ensures Decide(None, now, refresh) == Call(Err(Thrown(NotInitialized)), None, [])
  {
  }

  /** A token that has not expired is returned as it is: no refresh, no save. */
  lemma UnexpiredTokenIsReturned(token: Token, now: int, refresh: Refresher)
    requires !IsTokenExpired(token, now)
    ensures Decide(Some(token), now, refresh) == Call(Ok(token.accessToken), None, [])
  {
  }

  /** The auth client is called at most once, and exactly when a stored
      token has expired, with that token's refresh token. */
  lemma RefreshOnlyWhenExpired(stored: Option<Token>, now: int, refresh: Refresher)
    ensures var c := Decide(stored, now, refresh);
      && |c.refreshCalls| <= 1
      && (c.refreshCalls != [] <==> stored.Some? && IsTokenExpired(stored.value, now))
      && (c.refreshCalls != [] ==> c.refreshCalls == [stored.value.refreshToken])
  {
  }

  /** A save happens only after a successful refresh, and stores exactly the
      refreshed token; a failed refresh surfaces its error and saves nothing. */
  lemma SaveOnlyAfterRefresh(token: Token, now: int, refresh: Refresher)
    requires IsTokenExpired(token, now)
    ensures var c := Decide(Some(token), now, refresh);
      && (refresh(token.refreshToken).Err? ==>
            c.saved.None? && c.result == Err(refresh(token.refreshToken).error))
      && (refresh(token.refreshToken).Ok? ==>
            c.saved == Some(refresh(token.refreshToken).value)
            && c.result == Ok(refresh(token.refreshToken).value.accessToken))
  {
  }

  /** Every successful call returns the access token of the token held once
      the call is over. */
  lemma ResultIsHeldToken(stored: Option<Token>, now: int, refresh: Refresher)
    requires Decide(stored, now, refresh).result.Ok?
    ensures var c := Decide(stored, now, refresh);
      HeldAfter(stored, c).Some? && c.result.value == HeldAfter(stored, c).value.accessToken
  {
  }

  /** A token returned without a refresh is never within the 60 s buffer. */
  lemma UnrefreshedResultIsUnexpired(stored: Option<Token>, now: int, refresh: Refresher)
    requires Decide(stored, now, refresh).result.Ok?
    requires Decide(stored, now, refresh).refreshCalls == []
    ensures !IsTokenExpired(stored.value, now)
  {
  }

  /** A second call at the same time, after a successful refresh, refreshes
      again exactly when the refreshed token is itself already expired. */
  lemma SecondCallRefreshesIff(token: Token, now: int, refresh: Refresher)
    requires IsTokenExpired(token, now) && refresh(token.refreshToken).Ok?
    ensures var after := HeldAfter(Some(token), Decide(Some(token), now, refresh));
      Decide(after, now, refresh).refreshCalls != [] <==>
        IsTokenExpired(refresh(token.refreshToken).value, now)
  {
  }

  /** `createGetValidAccessToken({tokenRepository, authClient})`; the
      returned function is `GetValidAccessToken`. */
  class TokenManager {
    const repository: TokenRepository

    constructor (repository: TokenRepository)
      ensures this.repository == repository
    {
      this.repository := repository;
    }

    /** One call of the returned function, at time `now`. `refreshCalls`
        records the arguments the auth client was called with. */
    method GetValidAccessToken(now: int, refresh: Refresher) returns (r: Result<string>, refreshCalls: seq<string>)
      modifies repository
      ensures var c := Decide(old(repository.Stored()), now, refresh);
        && r == c.result
        && refreshCalls == c.refreshCalls
        && repository.table == (if c.saved.Some? then Store(old(repository.table), repository.tokenId, c.saved.value)
                                else old(repository.table))
      ensures repository.Stored() == HeldAfter(old(repository.Stored()), Decide(old(repository.Stored()), now, refresh))
    {
      var token := repository.Get();
      if token.None? {
        return Err(Thrown(NotInitialized)), [];
      }
      if !IsTokenExpired(token.value, now) {
        return Ok(token.value.accessToken), [];
      }
      refreshCalls := [token.value.refreshToken];
      var refreshed := refresh(token.value.refreshToken);
      if refreshed.Err? {
        return Err(refreshed.error), refreshCalls;
      }
      repository.Save(refreshed.value);
      r := Ok(refreshed.value.accessToken);
    }
  }
}
