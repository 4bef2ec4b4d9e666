/** Registered OAuth clients and the scopes they may ask for. */
module OauthClients {

  datatype OAuthClient = OAuthClient(isPublic: bool, firstParty: bool, redirects: seq<string>,
                                     allowedScopes: seq<string>)

  function FilterScopes(client: OAuthClient, requested: seq<string>): seq<string> {
    if requested == [] then []
    else
      var front := FilterScopes(client, requested[..|requested| - 1]);
      var last := requested[|requested| - 1];
      if last in client.allowedScopes then front + [last] else front
  }

  lemma {:induction false} FilterScopesKeeps(client: OAuthClient, requested: seq<string>)
    ensures forall x :: x in FilterScopes(client, requested) <==> x in requested && x in client.allowedScopes
  {
    if requested != [] {
      FilterScopesKeeps(client, requested[..|requested| - 1]);
      assert requested == requested[..|requested| - 1] + [requested[|requested| - 1]];
    }
  }

  /** Order and repetition are the request's: the allowed scopes of two lists are those of one after the other. */
  lemma {:induction false} FilterScopesInOrder(client: OAuthClient, a: seq<string>, b: seq<string>)
    ensures FilterScopes(client, a + b) == FilterScopes(client, a) + FilterScopes(client, b)
    ensures |b| == 1 ==> FilterScopes(client, b) == if b[0] in client.allowedScopes then b else []
  {
    if b == [] {
      assert a + b == a;
    } else {
      FilterScopesInOrder(client, a, b[..|b| - 1]);
      assert (a + b)[..|a + b| - 1] == a + b[..|b| - 1];
      if |b| == 1 {
        assert b[..0] == [] && b == [b[0]];
      }
    }
  }

  method AllowedScopes(client: OAuthClient, requested: seq<string>) returns (allowed: seq<string>)
    ensures allowed == FilterScopes(client, requested)
    ensures forall x :: x in allowed <==> x in requested && x in client.allowedScopes
  {
    allowed := [];
    for i := 0 to |requested|
      invariant allowed == FilterScopes(client, requested[..i])
    {
      assert requested[..i + 1][..i] == requested[..i];
      if requested[i] in client.allowedScopes {
        allowed := allowed + [requested[i]];
      }
    }
    assert requested[..|requested|] == requested;
    FilterScopesKeeps(client, requested);
  }
}
