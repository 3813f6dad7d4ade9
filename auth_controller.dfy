/** controller/AuthController.java: login and refresh under /api/auth. The
    authentication manager, the token signer and the refresh-token service
    are not part of this model: authentication, token generation and the
    expiry check are functions the caller supplies, and the refresh-token
    store is a map from token string to record. */
module Authentication {
  import opened Common

  datatype AuthRequest = AuthRequest(username: string, password: string)

  datatype AuthResponse = AuthResponse(accessToken: string, refreshToken: string)

  /** A stored refresh token: its string, the username of its owning user
      and its expiry. */
  datatype RefreshRecord = RefreshRecord(token: string, username: string, expiry: int)

  const InvalidUser: string := "invalid user request !"
  const UnknownRefreshToken: string := "Refresh token is not in database!"

  /** The refresh-token store behind `createRefreshToken` and `findByToken`. */
  class RefreshTokenStore {
    var records: map<string, RefreshRecord>

    constructor ()
      ensures records == map[]
    {
      records := map[];
    }

    /** `createRefreshToken(username)`: a record for the user under the token
        string the service generates (`token`), with the expiry it sets. */
    method CreateRefreshToken(username: string, token: string, expiry: int) returns (rec: RefreshRecord)
      modifies this
      ensures rec == RefreshRecord(token, username, expiry)
      ensures records == old(records)[token := rec]
    {
      rec := RefreshRecord(token, username, expiry);
      records := records[token := rec];
    }
  }

  class AuthController {
    const store: RefreshTokenStore

    constructor (store: RefreshTokenStore)
      ensures this.store == store
    {
      this.store := store;
    }

    /** `POST /api/auth/login`. `authenticate` answers whether the
        credentials authenticate, or the exception the manager throws.
        Only an authenticated caller gets a refresh record, created before
        the access token; the answer pairs the access token for the username
        with that record's token. */
    method Login(request: AuthRequest, authenticate: (string, string) -> Result<bool>,
                 generateToken: string -> string, token: string, expiry: int)
        returns (r: Result<AuthResponse>)
      modifies store
      ensures authenticate(request.username, request.password).Err? ==>
        r == Err(authenticate(request.username, request.password).error) && unchanged(store)
      ensures authenticate(request.username, request.password) == Ok(false) ==>
        r == Err(UsernameNotFound(InvalidUser)) && unchanged(store)
      ensures r.Ok? <==> authenticate(request.username, request.password) == Ok(true)
      ensures r.Ok? ==>
        && r.value.accessToken == generateToken(request.username)
        && r.value.refreshToken in store.records
        && store.records[r.value.refreshToken] == RefreshRecord(token, request.username, expiry)
        && store.records == old(store.records)[token := RefreshRecord(token, request.username, expiry)]
    {
      var authentication := authenticate(request.username, request.password);
      if authentication.Err? {
        r := Err(authentication.error);
        return;
      }
      if authentication.value {
        var refresh := store.CreateRefreshToken(request.username, token, expiry);
        r := Ok(AuthResponse(generateToken(request.username), refresh.token));
      } else {
        r := Err(UsernameNotFound(InvalidUser));
      }
    }

    /** `POST /api/auth/refreshToken`: look the presented token up, pass the
        record through `verifyExpiration`, and answer with an access token
        for the record's user and the presented token itself. */
    function Refresh(token: string, verifyExpiration: RefreshRecord -> Result<RefreshRecord>,
                     generateToken: string -> string): (r: Result<AuthResponse>)
      reads store
      ensures token !in store.records ==> r == Err(Runtime(UnknownRefreshToken))
      ensures token in store.records && verifyExpiration(store.records[token]).Err? ==>
        r == Err(verifyExpiration(store.records[token]).error)
      ensures r.Ok? <==> token in store.records && verifyExpiration(store.records[token]).Ok?
      ensures r.Ok? ==> r.value.refreshToken == token
      ensures r.Ok? ==> r.value.accessToken == generateToken(verifyExpiration(store.records[token]).value.username)
    {
      if token !in store.records then Err(Runtime(UnknownRefreshToken))
      else
        match verifyExpiration(store.records[token])
        case Err(e) => Err(e)
        case Ok(rec) => Ok(AuthResponse(generateToken(rec.username), token))
    }
  }

  /** A token handed out at login can be refreshed as long as the expiry
      check accepts its record: the refresh answers with the same token and
      an access token for the same user. */
  lemma LoginThenRefresh(store: RefreshTokenStore, c: AuthController, username: string, token: string, expiry: int,
                         verifyExpiration: RefreshRecord -> Result<RefreshRecord>, generateToken: string -> string)
    requires c.store == store
    requires token in store.records && store.records[token] == RefreshRecord(token, username, expiry)
    requires verifyExpiration(store.records[token]) == Ok(store.records[token])
    ensures c.Refresh(token, verifyExpiration, generateToken) == Ok(AuthResponse(generateToken(username), token))
  {
  }
}
