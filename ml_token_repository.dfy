/** The token repository: one record, under a fixed `tokenId`, in a keyed
    table that may hold other records as well. */
module MLTokenRepository {
  import opened Wrappers
  import opened MercadoLibreTypes

  /** The table: records by their `id` attribute. */
  type TokenTable = map<string, Token>

  /** What `get` reads: the record under `tokenId`, or `null` when there is none. */
  function Lookup(table: TokenTable, tokenId: string): (t: Option<Token>)
    ensures t.Some? <==> tokenId in table
    ensures t.Some? ==> t.value == table[tokenId]
  {
    if tokenId in table then Some(table[tokenId]) else None
  }

  /** What `save` writes: an unconditional put under `tokenId`. */
  function Store(table: TokenTable, tokenId: string, token: Token): (table': TokenTable)
    ensures table'.Keys == table.Keys + {tokenId}
  {
    table[tokenId := token]
  }

  /** A save is read back by the next get. */
  lemma SaveThenGet(table: TokenTable, tokenId: string, token: Token)
    ensures Lookup(Store(table, tokenId, token), tokenId) == Some(token)
  {
  }

  /** A save replaces whatever was there: the earlier token is forgotten. */
  lemma SaveOverwrites(table: TokenTable, tokenId: string, previous: Token, token: Token)
    ensures Store(Store(table, tokenId, previous), tokenId, token) == Store(table, tokenId, token)
  {
  }

  /** Records under other keys are neither read nor written. */
  lemma SaveLeavesOtherRecords(table: TokenTable, tokenId: string, token: Token, other: string)
    requires other != tokenId
    ensures Lookup(Store(table, tokenId, token), other) == Lookup(table, other)
  {
  }

  class TokenRepository {
    const tokenId: string
    var table: TokenTable

    constructor (tokenId: string, table: TokenTable)
      ensures this.tokenId == tokenId && this.table == table
    {
      this.tokenId := tokenId;
      this.table := table;
    }

    /** The token the repository currently holds. */
    function Stored(): Option<Token>
      reads this
    {
      Lookup(table, tokenId)
    }

    /** `get` */
    method Get() returns (token: Option<Token>)
      ensures token == Lookup(table, tokenId)
    {
      if tokenId !in table {
        return None;
      }
      var item := table[tokenId];
      token := Some(Token(item.accessToken, item.refreshToken, item.expiresAt));
    }

    /** `save` */
    method Save(token: Token)
      modifies this
      ensures table == Store(old(table), tokenId, token)
      ensures Stored() == Some(token)
    {
      table := table[tokenId := token];
    }
  }
}
