/** The registry of exchanges: a code template set once, one exchange per
    token, the reverse map, and 1-based ids in creation order. Instantiating
    an exchange is replaced by the fresh account it would get, supplied by
    the caller of CreateExchange. */
module Factory {
  import opened Base

  class Factory {
    var exchangeTemplate: Hash
    var tokenCount: nat
    var tokenToExchange: map<AccountId, AccountId>
    var exchangeToToken: map<AccountId, AccountId>
    var idToToken: map<nat, AccountId>

    /** The two maps are inverse to each other, the ids are exactly 1 up to
        the count and name each registered token once, the default account is
        never a token, and no exchange exists before the template is set. */
    ghost predicate Valid()
      reads this
    {
      && (forall t :: t in tokenToExchange ==>
            tokenToExchange[t] in exchangeToToken && exchangeToToken[tokenToExchange[t]] == t)
      && (forall e :: e in exchangeToToken ==>
            exchangeToToken[e] in tokenToExchange && tokenToExchange[exchangeToToken[e]] == e)
      && (forall i :: i in idToToken <==> 1 <= i <= tokenCount)
      && idToToken.Values == tokenToExchange.Keys
      && (forall i, j :: i in idToToken && j in idToToken && i != j ==> idToToken[i] != idToToken[j])
      && DefaultAccount !in tokenToExchange
      && (tokenCount > 0 ==> exchangeTemplate != DefaultHash)
    }

    /** `new`: no template, no exchange. */
    constructor ()
      ensures Valid()
      ensures exchangeTemplate == DefaultHash && tokenCount == 0
      ensures tokenToExchange == map[] && exchangeToToken == map[] && idToToken == map[]
    {
      exchangeTemplate := DefaultHash;
      tokenCount := 0;
      tokenToExchange := map[];
      exchangeToToken := map[];
      idToToken := map[];
    }

    /** `initialize_factory`: set the template, once, to a real hash. */
    method InitializeFactory(template: Hash) returns (r: Outcome<Error>)
      requires Valid()
      modifies this`exchangeTemplate
      ensures Valid()
      ensures r.Pass? <==> old(exchangeTemplate) == DefaultHash && template != DefaultHash
      ensures old(exchangeTemplate) != DefaultHash ==> r == Fail(AlreadyInitialized)
      ensures old(exchangeTemplate) == DefaultHash && template == DefaultHash ==> r == Fail(InvalidArgument)
      ensures exchangeTemplate == if r.Pass? then template else old(exchangeTemplate)
    {
      if exchangeTemplate != DefaultHash {
        return Fail(AlreadyInitialized);
      }
      if template == DefaultHash {
        return Fail(InvalidArgument);
      }
      exchangeTemplate := template;
      r := Pass;
    }

    /** `create_exchange`, payable with `value`: register the fresh exchange
        `ex` for `token` under the next id. */
    method CreateExchange(token: AccountId, value: nat, ex: AccountId) returns (r: Outcome<Error>)
      requires Valid() && ex !in exchangeToToken
      modifies this`tokenCount, this`tokenToExchange, this`exchangeToToken, this`idToToken
      ensures Valid()
      ensures r.Pass? <==>
        token != DefaultAccount && exchangeTemplate != DefaultHash && token !in old(tokenToExchange) && value != 0
      ensures token == DefaultAccount ==> r == Fail(InvalidArgument)
      ensures token != DefaultAccount && exchangeTemplate == DefaultHash ==> r == Fail(Uninitialized)
      ensures token != DefaultAccount && exchangeTemplate != DefaultHash && token in old(tokenToExchange) ==>
        r == Fail(ExchangeExists)
      ensures r.Fail? ==> unchanged(this)
      ensures r.Pass? ==>
        && tokenToExchange == old(tokenToExchange)[token := ex]
        && exchangeToToken == old(exchangeToToken)[ex := token]
        && tokenCount == old(tokenCount) + 1
        && idToToken == old(idToToken)[tokenCount := token]
    {
      if token == DefaultAccount {
        return Fail(InvalidArgument);
      }
      if exchangeTemplate == DefaultHash {
        return Fail(Uninitialized);
      }
      if token in tokenToExchange {
        return Fail(ExchangeExists);
      }
      if value == 0 {
        return Fail(InvalidArgument);
      }
      tokenToExchange := tokenToExchange[token := ex];
      exchangeToToken := exchangeToToken[ex := token];
      var id := tokenCount + 1;
      tokenCount := id;
      assert id !in old(idToToken);
      idToToken := idToToken[id := token];
      assert idToToken.Values == old(idToToken).Values + {token} by {
        forall v | v in idToToken.Values ensures v in old(idToToken).Values + {token} {
          var i :| i in idToToken && idToToken[i] == v;
          if i != id {
            assert i in old(idToToken);
          }
        }
        forall v | v in old(idToToken).Values ensures v in idToToken.Values {
          var i :| i in old(idToToken) && old(idToToken)[i] == v;
          assert idToToken[i] == v;
        }
        assert idToToken[id] == token;
      }
      r := Pass;
    }

    /** `get_exchange`: the exchange registered for `token`; aborts if none. */
    function GetExchange(token: AccountId): (r: Result<AccountId, Error>)
      reads this
      ensures r.Ok? <==> token in tokenToExchange
      ensures r.Err? ==> r.error == NotFound
      ensures r.Ok? ==> r.value == tokenToExchange[token]
    {
      if token in tokenToExchange then Ok(tokenToExchange[token]) else Err(NotFound)
    }

    /** `get_token`: the token an exchange trades; aborts if `exchange` is not
        registered. */
    function GetToken(exchange: AccountId): (r: Result<AccountId, Error>)
      reads this
      ensures r.Ok? <==> exchange in exchangeToToken
      ensures r.Err? ==> r.error == NotFound
      ensures r.Ok? ==> r.value == exchangeToToken[exchange]
    {
      if exchange in exchangeToToken then Ok(exchangeToToken[exchange]) else Err(NotFound)
    }

    /** `get_token_with_id`: the token created `id`-th; aborts if none. */
    function GetTokenWithId(id: nat): (r: Result<AccountId, Error>)
      reads this
      ensures r.Ok? <==> id in idToToken
      ensures r.Err? ==> r.error == NotFound
      ensures r.Ok? ==> r.value == idToToken[id]
    {
      if id in idToToken then Ok(idToToken[id]) else Err(NotFound)
    }

    /** Looking up a token's exchange and then that exchange's token gives the
        token back, and the other way round. */
    lemma LookupRoundTrip(token: AccountId, exchange: AccountId)
      requires Valid()
      ensures GetExchange(token).Ok? ==> GetToken(GetExchange(token).value) == Ok(token)
      ensures GetToken(exchange).Ok? ==> GetExchange(GetToken(exchange).value) == Ok(exchange)
    {
    }

    /** Ids are exactly 1 up to the number of exchanges created, and each
        names a token that has an exchange. */
    lemma IdsCoverCount(id: nat)
      requires Valid()
      ensures GetTokenWithId(id).Ok? <==> 1 <= id <= tokenCount
      ensures GetTokenWithId(id).Ok? ==> GetExchange(GetTokenWithId(id).value).Ok?
    {
      if id in idToToken {
        assert idToToken[id] in idToToken.Values;
      }
    }
  }

  /** The registry's life cycle: the template is set once, a token gets one
      exchange under id 1, a second exchange for the same token is refused,
      and every lookup then answers. */
  method RegistryScenario(template: Hash, token: AccountId, ex1: AccountId, ex2: AccountId)
    returns (again: Outcome<Error>, duplicate: Outcome<Error>, byToken: Result<AccountId, Error>,
             byExchange: Result<AccountId, Error>, byId: Result<AccountId, Error>)
    requires template != DefaultHash && token != DefaultAccount && ex1 != ex2
    ensures again == Fail(AlreadyInitialized)
    ensures duplicate == Fail(ExchangeExists)
    ensures byToken == Ok(ex1) && byExchange == Ok(token) && byId == Ok(token)
  {
    var f := new Factory();
    var init := f.InitializeFactory(template);
    again := f.InitializeFactory(template + 1);
    var created := f.CreateExchange(token, 1, ex1);
    assert created.Pass?;
    duplicate := f.CreateExchange(token, 1, ex2);
    byToken := f.GetExchange(token);
    byExchange := f.GetToken(ex1);
    byId := f.GetTokenWithId(1);
  }
}
