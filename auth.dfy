/**
 * Request authorisation of backend/src/index.ts: the role decision run
 * for every `@Authorized` field, and the classification of the
 * `Authorization` header into a request context. Verifying the JSON Web
 * Token is the parameter `decode`, which fails (None) when the signature
 * or the expiry does not check out; the deployment's `ADMIN_TOKEN` is the
 * parameter `adminToken`, absent when it is not set.
 */
module Auth {
  import opened Wrappers
  import opened Types

  /** The roles named by `@Authorized(...)`: the two the schema knows and any other string. */
  datatype Role = Admin | User | Other(name: string)

  /** The claims of a decoded token; a token without the claim carries no customer. */
  datatype Token = Token(customerId: Option<Uuid>)

  /** The authorisation decision for one field. */
  function AuthChecker(context: Context, roles: seq<Role>): (allowed: bool)
    ensures |roles| != 1 ==> !allowed
    ensures |roles| == 1 && roles[0] == Admin ==> (allowed <==> context.isAdmin)
    ensures |roles| == 1 && roles[0] == User ==> (allowed <==> Truthy(context.customerId))
    ensures |roles| == 1 && roles[0].Other? ==> !allowed
  {
    if |roles| == 0 || |roles| > 1 then false
    else match roles[0]
      case Admin => context.isAdmin
      case User => Truthy(context.customerId)
      case Other(_) => false
  }

  predicate StartsWith(s: string, prefix: string) {
    |prefix| <= |s| && s[..|prefix|] == prefix
  }

  const BearerPrefix: string := "Bearer"

  /**
   * The context of a request. A header starting with `Bearer` is decoded
   * and carries the token's customer (a token that does not verify fails
   * the request: None); any other header is an administrator exactly when
   * it equals the configured admin token. A missing header reads as "".
   */
  function ContextHandler(authorization: Option<string>, adminToken: Option<string>,
                          decode: string -> Option<Token>): (r: Option<Context>)
    ensures var header := authorization.GetOr("");
      && (StartsWith(header, BearerPrefix) ==>
            (r.None? <==> decode(header).None?)
            && (r.Some? ==> r.value == Context(decode(header).value.customerId, false)))
      && (!StartsWith(header, BearerPrefix) ==>
            r.Some? && r.value.customerId.None? && (r.value.isAdmin <==> adminToken == Some(header)))
  {
    var header := authorization.GetOr("");
    if StartsWith(header, BearerPrefix) then
      match decode(header)
      case None => None
      case Some(token) => Some(Context(token.customerId, false))
    else
      Some(Context(None, Some(header) == adminToken))
  }

  /**
   * Administrator access is granted only to a request whose header is
   * exactly the configured admin token, never to a bearer token, and
   * never while no admin token is configured.
   */
  lemma AdminOnlyByAdminToken(authorization: Option<string>, adminToken: Option<string>,
                              decode: string -> Option<Token>, roles: seq<Role>)
    requires ContextHandler(authorization, adminToken, decode).Some?
    requires AuthChecker(ContextHandler(authorization, adminToken, decode).value, roles)
    requires roles == [Admin]
    ensures adminToken.Some? && adminToken.value == authorization.GetOr("")
    ensures !StartsWith(adminToken.value, BearerPrefix)
  {
  }

  /**
   * A user field is open exactly to a bearer token that verifies and names
   * a customer; the admin token alone does not open it.
   */
  lemma UserOnlyByBearerToken(authorization: Option<string>, adminToken: Option<string>,
                              decode: string -> Option<Token>)
    requires ContextHandler(authorization, adminToken, decode).Some?
    ensures var header := authorization.GetOr("");
      (AuthChecker(ContextHandler(authorization, adminToken, decode).value, [User])
       <==> StartsWith(header, BearerPrefix) && Truthy(decode(header).value.customerId))
  {
  }
}
