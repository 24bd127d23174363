/**
 * The bearer-token gate in front of every route. A fixed table of nine read-only
 * paths is public and needs the public API key; every other path needs the
 * private key. The decision is a pure function of the Authorization header, the
 * URL path and the two configured keys; logging and the HTTP response are left
 * out, and `next` runs exactly when the decision is Accept.
 */
module Middlewares {
  import opened GoStrings

  datatype PublicUrl = PublicUrl(url: GoString)

  const PublicUrls: seq<PublicUrl> := [
    PublicUrl(Ascii("/programs/all")),
    PublicUrl(Ascii("/programs/get-by-id")),
    PublicUrl(Ascii("/programs/get-by-name")),
    PublicUrl(Ascii("/programs/get-by-category")),
    PublicUrl(Ascii("/schedules/all")),
    PublicUrl(Ascii("/schedules/get-by-program-id")),
    PublicUrl(Ascii("/schedules/get-by-id")),
    PublicUrl(Ascii("/schedules/get-by-day")),
    PublicUrl(Ascii("/schedules/get-by-date"))
  ]

  const BearerPrefix: GoString := Ascii("Bearer ")

  /** Exact match against one of the table's entries; no prefixes, no patterns. */
  predicate IsPublicPath(path: GoString)
  {
    exists i :: 0 <= i < |PublicUrls| && PublicUrls[i].url == path
  }

  /** isPathPublicUrl: a linear search with early return. */
  method IsPathPublicUrl(path: GoString) returns (isPublic: bool)
    ensures isPublic <==> IsPublicPath(path)
  {
    var i := 0;
    while i < |PublicUrls|
      invariant 0 <= i <= |PublicUrls|
      invariant forall j :: 0 <= j < i ==> PublicUrls[j].url != path
    {
      if PublicUrls[i].url == path {
        return true;
      }
      i := i + 1;
    }
    return false;
  }

  datatype Decision =
    | Accept
    | MissingHeader   // "Authorization header missing"
    | BadFormat       // "Invalid Authorization header format"
    | InvalidToken    // "Invalid token"

  /** The key a path demands. */
  function ExpectedKey(path: GoString, publicKey: GoString, privateKey: GoString): GoString
  {
    if IsPublicPath(path) then publicKey else privateKey
  }

  /** The decision cascade of AuthMiddleware, with the two environment keys as parameters. */
  function Decide(authHeader: GoString, path: GoString, publicKey: GoString, privateKey: GoString): (d: Decision)
    ensures d == MissingHeader <==> authHeader == []
    ensures d == BadFormat <==> authHeader != [] && !HasPrefix(authHeader, BearerPrefix)
    ensures d == Accept <==> authHeader == BearerPrefix + ExpectedKey(path, publicKey, privateKey)
    ensures d == InvalidToken <==>
      HasPrefix(authHeader, BearerPrefix) && authHeader != BearerPrefix + ExpectedKey(path, publicKey, privateKey)
  {
    if authHeader == [] then MissingHeader
    else if !HasPrefix(authHeader, BearerPrefix) then BadFormat
    else
      var clientKey := TrimPrefix(authHeader, BearerPrefix);
      assert BearerPrefix + clientKey == authHeader;
      (if IsPublicPath(path) then
         if clientKey != publicKey then InvalidToken else Accept
       else if clientKey != privateKey then InvalidToken else Accept)
  }

  /** The token is the header with exactly one leading "Bearer " removed. */
  lemma TokenDropsOnePrefix(token: GoString)
    ensures TrimPrefix(BearerPrefix + token, BearerPrefix) == token
    ensures TrimPrefix(BearerPrefix + BearerPrefix + token, BearerPrefix) == BearerPrefix + token
  {
  }

  /** On a public path the private key is refused unless both keys are the same. */
  lemma PrivateKeyDoesNotOpenPublicPaths(path: GoString, publicKey: GoString, privateKey: GoString)
    requires IsPublicPath(path)
    ensures Decide(BearerPrefix + publicKey, path, publicKey, privateKey) == Accept
    ensures Decide(BearerPrefix + privateKey, path, publicKey, privateKey) == Accept <==> privateKey == publicKey
  {
  }

  /** On a private path only the private key is accepted. */
  lemma PublicKeyDoesNotOpenPrivatePaths(path: GoString, publicKey: GoString, privateKey: GoString)
    requires !IsPublicPath(path)
    ensures Decide(BearerPrefix + privateKey, path, publicKey, privateKey) == Accept
    ensures Decide(BearerPrefix + publicKey, path, publicKey, privateKey) == Accept <==> privateKey == publicKey
  {
  }

  /** Plain equality: with an empty configured key the bare header "Bearer " gets through. */
  lemma EmptyKeyAcceptsEmptyToken(path: GoString, publicKey: GoString, privateKey: GoString)
    requires ExpectedKey(path, publicKey, privateKey) == []
    ensures Decide(BearerPrefix, path, publicKey, privateKey) == Accept
  {
  }

  /** The prefix test is case-sensitive: "bearer " is a format error. */
  lemma LowerCaseBearerRejected(token: GoString, path: GoString, publicKey: GoString, privateKey: GoString)
    ensures Decide(Ascii("bearer ") + token, path, publicKey, privateKey) == BadFormat
  {
    var h := Ascii("bearer ") + token;
    assert h[0] != BearerPrefix[0];
  }

  /** The route table: listing and lookup routes are public, writes are private. */
  lemma RouteClassification()
    ensures IsPublicPath(Ascii("/programs/all")) && IsPublicPath(Ascii("/schedules/get-by-date"))
    ensures !IsPublicPath(Ascii("/programs/add")) && !IsPublicPath(Ascii("/schedules/delete-all"))
    ensures !IsPublicPath(Ascii("/programs/all/"))
  {
    assert PublicUrls[0].url == Ascii("/programs/all");
    assert PublicUrls[8].url == Ascii("/schedules/get-by-date");
    var add := Ascii("/programs/add");
    forall i | 0 <= i < |PublicUrls| ensures PublicUrls[i].url != add {
      assert i == 0 ==> PublicUrls[i].url[11] != add[11];
    }
    var deleteAll := Ascii("/schedules/delete-all");
    forall i | 0 <= i < |PublicUrls| ensures PublicUrls[i].url != deleteAll {
      if i < 4 {
        assert PublicUrls[i].url[1] != deleteAll[1];
      } else if i == 7 {
        assert PublicUrls[i].url[11] != deleteAll[11];
      } else {
        assert |PublicUrls[i].url| != |deleteAll|;
      }
    }
    var slash := Ascii("/programs/all/");
    forall i | 0 <= i < |PublicUrls| ensures PublicUrls[i].url != slash {
      assert i == 4 ==> PublicUrls[i].url[1] != slash[1];
    }
  }
}
