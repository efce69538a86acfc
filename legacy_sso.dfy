/**
 * The older, global `SSO` class. Its URL handling (`getRealBackUrl`, the
 * `detectMyUrl*` helpers, `getRedirectUrl`, the check URL, `doRedirect`,
 * `getDefaultToken` and the constructor) is the same code as in the
 * namespaced class and is taken from the `SSO` module; what differs is the
 * key pattern of its parser (`[a-z]+`), the user it builds and the explicit
 * `isTokenAvailable`.
 */
module LegacySSO {
  import opened Common
  import opened Attributes
  import opened Response
  import S = SSO
  import LegacySSOUser

  /** `isTokenAvailable()`: the request carries a `ticket`. */
  function IsTokenAvailable(req: S.Request): (r: bool)
    ensures r <==> S.DefaultToken(req).Some?
    ensures r <==> S.TokenArg in req.get
  {
    S.DefaultToken(req) != None
  }

  /** The user for a parsed response: null unless `login` and `name` are set. */
  function UserOf(data: AttrMap): (r: Option<LegacySSOUser.User>)
    requires forall k :: k in data ==> data[k] != []
  {
    if "login" !in data || "name" !in data then None
    else
      LegacySSOUser.ConstructedFields(data);
      Some(LegacySSOUser.FromAttributes(data).user)
  }

  /** The user for the gateway's answer `text`, parsed with keys of lower-case letters only. */
  function Answer(text: string): Option<LegacySSOUser.User> {
    UserOf(ResponseData(LowerOnly, text))
  }

  /**
   * An answer gives a user exactly when its parsed map has `login` and
   * `name`; the user is then what the constructor builds from the whole map.
   */
  lemma AnswerCases(text: string)
    ensures var data := ResponseData(LowerOnly, text);
      Answer(text).Some? <==> "login" in data && "name" in data
    ensures Answer(text).Some? ==>
      LegacySSOUser.FromAttributes(ResponseData(LowerOnly, text)) == LegacySSOUser.Built(Answer(text).value)
  {
    LegacySSOUser.ConstructedFields(ResponseData(LowerOnly, text));
  }

  /**
   * Keys with `_` never survive this parser, so a user it yields never has a
   * group name, an auth-by or an organisational unit, and nothing in its
   * other data has `_` in its key either.
   */
  lemma UnderscoreFieldsNull(text: string)
    requires Answer(text).Some?
    ensures Answer(text).value.groupName.None?
    ensures Answer(text).value.authBy.None?
    ensures Answer(text).value.ouSimple.None?
    ensures forall k :: k in Answer(text).value.otherData ==> '_' !in k
  {
    var data := ResponseData(LowerOnly, text);
    NoUnderscoreKeys(text);
    AnswerCases(text);
    LegacySSOUser.WithoutUnderscoreKeys(data);
  }

  /** No key of this parser's map contains `_`. */
  lemma NoUnderscoreKeys(text: string)
    ensures forall k :: k in ResponseData(LowerOnly, text) ==> '_' !in k
  {
    var data := ResponseData(LowerOnly, text);
    forall k | k in data ensures '_' !in k {
      assert IsKey(LowerOnly, k);
    }
  }

  /** The result of `querySSOCheckUrl($token, $backUrl)` when the gateway answers `fetch(url)`. */
  function Credentials(sso: S.SSO, req: S.Request, token: string, backUrl: Option<string>, fetch: string -> S.Fetched)
    : Option<LegacySSOUser.User>
  {
    match fetch(S.CheckUrl(sso, req, token, backUrl))
    case Failed => None
    case Body(text) => Answer(text)
  }

  /** `querySSOCheckUrl($token, $backUrl)`. */
  method QuerySSOCheckUrl(sso: S.SSO, req: S.Request, token: string, backUrl: Option<string>, fetch: string -> S.Fetched)
    returns (r: Option<LegacySSOUser.User>)
    ensures r == Credentials(sso, req, token, backUrl, fetch)
  {
    var checkUrl := S.CheckUrl(sso, req, token, backUrl);
    var result := fetch(checkUrl);
    if result.Failed? {
      return None;
    }
    var data := ParseSSOResponseToArray(LowerOnly, result.content);
    if "login" !in data || "name" !in data {
      return None;
    }
    var user := LegacySSOUser.Construct(data);
    LegacySSOUser.ConstructedFields(data);
    r := Some(user.user);
  }

  /** `getLoginCredentials($token, $backUrl)`: the given token, else the request's; null without either. */
  method GetLoginCredentials(sso: S.SSO, req: S.Request, token: Option<string>, backUrl: Option<string>,
                             fetch: string -> S.Fetched)
    returns (r: Option<LegacySSOUser.User>)
    ensures token.None? && !IsTokenAvailable(req) ==> r.None?
    ensures token.Some? ==> r == Credentials(sso, req, token.value, backUrl, fetch)
    ensures token.None? && IsTokenAvailable(req) ==> r == Credentials(sso, req, S.DefaultToken(req).value, backUrl, fetch)
  {
    var t := if token.Some? then token else S.DefaultToken(req);
    if t.None? {
      return None;
    }
    r := QuerySSOCheckUrl(sso, req, t.value, backUrl, fetch);
  }

  /** `doLogin()`: phase two exactly when a token is available, otherwise the redirect. */
  method DoLogin(sso: S.SSO, req: S.Request, fetch: string -> S.Fetched) returns (l: S.Login<LegacySSOUser.User>)
    ensures !IsTokenAvailable(req) ==> l == S.Redirected(S.RedirectUrl(sso, req, None))
    ensures IsTokenAvailable(req) ==> l == S.Returned(Credentials(sso, req, S.DefaultToken(req).value, None, fetch))
  {
    if IsTokenAvailable(req) {
      var user := GetLoginCredentials(sso, req, None, None, fetch);
      l := S.Returned(user);
    } else {
      l := S.DoRedirect(sso, req, None);
    }
  }

  /** `doLoginAsArray()`: `doLogin` with the user given as `asArray` gives it. */
  method DoLoginAsArray(sso: S.SSO, req: S.Request, fetch: string -> S.Fetched)
    returns (l: S.Login<map<string, Value>>)
    ensures l.Redirected? <==> !IsTokenAvailable(req)
    ensures l.Redirected? ==> l.location == S.RedirectUrl(sso, req, None)
    ensures l.Returned? ==>
      var c := Credentials(sso, req, S.DefaultToken(req).value, None, fetch);
      (l.result.None? <==> c.None?) && (c.Some? ==> l.result.value == c.value.AsArray())
  {
    var login := DoLogin(sso, req, fetch);
    match login
    case Redirected(location) =>
      l := S.Redirected(location);
    case Returned(user) =>
      if user.Some? {
        l := S.Returned(Some(user.value.AsArray()));
      } else {
        l := S.Returned(None);
      }
  }
}
