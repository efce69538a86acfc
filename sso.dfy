/**
 * `SPSOstrov\SSO\SSO`: the client side of the SPŠ Ostrov single sign-on.
 * Phase one redirects the browser to the gateway with the back URL
 * (base64, then urlencoded) as the `service` argument; phase two sends the
 * returned `ticket` with the same back URL to the check URL and builds the
 * user from the attribute list the gateway answers with.
 *
 * The request (`$_GET`, `$_SERVER`) is the explicit value `Request`, the
 * HTTP fetch of the check URL is the parameter `fetch`, and the redirect
 * (`header` + `exit`) is the outcome `Redirected`.
 */
module SSO {
  import opened Common
  import opened Php
  import opened Encoding
  import opened Attributes
  import opened Response
  import SSOUser

  const SsoGatewayUrl: string := "https://titan.spsostrov.cz/ssogw/"
  const SsoGatewayCheckUrl: string := "https://titan.spsostrov.cz/ssogw/service-check.php"
  const ServiceArg: string := "service"
  const TokenArg: string := "ticket"

  /** The request being served: the query arguments and the server variables. */
  datatype Request = Request(get: map<string, string>, server: map<string, string>)

  /**
   * The two gateway URLs the instance is configured with, and the
   * `canonizePath` the relative back URL is passed through (a method the
   * class calls but does not define; here it is whatever the caller supplies).
   */
  datatype SSO = SSO(ssoGatewayUrl: string, ssoGatewayCheckUrl: string, canonizePath: string -> string)

  /** `new SSO($ssoGatewayUrl, $ssoGatewayCheckUrl)`: a null argument selects the default URL. */
  function NewSSO(ssoGatewayUrl: Option<string>, ssoGatewayCheckUrl: Option<string>, canonizePath: string -> string)
    : (sso: SSO)
    ensures ssoGatewayUrl.None? ==> sso.ssoGatewayUrl == SsoGatewayUrl
    ensures ssoGatewayUrl.Some? ==> sso.ssoGatewayUrl == ssoGatewayUrl.value
    ensures ssoGatewayCheckUrl.None? ==> sso.ssoGatewayCheckUrl == SsoGatewayCheckUrl
    ensures ssoGatewayCheckUrl.Some? ==> sso.ssoGatewayCheckUrl == ssoGatewayCheckUrl.value
    ensures sso.canonizePath == canonizePath
  {
    SSO(ssoGatewayUrl.GetOr(SsoGatewayUrl), ssoGatewayCheckUrl.GetOr(SsoGatewayCheckUrl), canonizePath)
  }

  /** `getDefaultToken()`: the `ticket` query argument, None when absent. */
  function DefaultToken(req: Request): (t: Option<string>)
    ensures t.Some? <==> TokenArg in req.get
    ensures t.Some? ==> t.value == req.get[TokenArg]
  {
    if TokenArg in req.get then Some(req.get[TokenArg]) else None
  }

  // ---------------------------------------------------------------------------
  // where the request came from
  // ---------------------------------------------------------------------------

  /** A server variable; an unset one reads as "" (PHP's null in string context). */
  function ServerVar(req: Request, name: string): string {
    if name in req.server then req.server[name] else ""
  }

  /** `detectMyUrlScheme()`: "https://" exactly when `HTTPS` is "on". */
  function Scheme(req: Request): (s: string)
    ensures s == "https://" <==> "HTTPS" in req.server && req.server["HTTPS"] == "on"
    ensures s == "https://" || s == "http://"
  {
    if "HTTPS" in req.server && req.server["HTTPS"] == "on" then "https://" else "http://"
  }

  /** `detectMyUrlHost()`: the scheme followed by `HTTP_HOST`. */
  function MyUrlHost(req: Request): (h: string)
    ensures |Scheme(req)| <= |h| && h[..|Scheme(req)|] == Scheme(req)
    ensures h[|Scheme(req)|..] == ServerVar(req, "HTTP_HOST")
  {
    Scheme(req) + ServerVar(req, "HTTP_HOST")
  }

  /**
   * `detectMyUrlPath()`: `strtok(REQUEST_URI, '?')`, the `false` of a URI
   * made of `?` only read as "". For a URI not starting with `?` it is the
   * part before the first `?`.
   */
  function MyUrlPath(req: Request): (p: string)
    ensures '?' !in p
    ensures var uri := ServerVar(req, "REQUEST_URI");
      uri != "" && uri[0] != '?' ==> p != "" && |p| <= |uri| && p == uri[..|p|] && (|p| == |uri| || uri[|p|] == '?')
  {
    StrTok(ServerVar(req, "REQUEST_URI"), '?').GetOr("")
  }

  /** `substr($s, -1)`: the last char as a string, "" for "". */
  function LastChar(s: string): (r: string)
    ensures |r| == if s == "" then 0 else 1
    ensures s != "" ==> r[0] == s[|s| - 1]
  {
    if s == "" then "" else s[|s| - 1..]
  }

  /**
   * `detectMyUrlDirPath()`: the path when it ends in `/`, otherwise its
   * `dirname` with a `/` appended. It always ends in `/`.
   */
  function MyUrlDirPath(req: Request): (d: string)
    ensures d != "" && d[|d| - 1] == '/'
    ensures var p := MyUrlPath(req); p != "" && p[|p| - 1] == '/' ==> d == p
    ensures var p := MyUrlPath(req); !(p != "" && p[|p| - 1] == '/') ==> d == Dirname(p) + "/"
  {
    var myPath := MyUrlPath(req);
    if LastChar(myPath) != "/" then Dirname(myPath) + "/" else myPath
  }

  /**
   * For a path from the root that does not end in `/`, the directory is the
   * path up to its last segment: what follows it in the path is a run of
   * slashes and then one segment. For a first-level path such as "/x" the
   * directory is "//" instead, since `dirname` then gives "/".
   */
  lemma DirPathIsPrefix(req: Request)
    requires var p := MyUrlPath(req); p != "" && p[0] == '/' && p[|p| - 1] != '/'
    ensures var p, d := MyUrlPath(req), MyUrlDirPath(req);
      d != "//" ==>
        && |d| < |p| && d == p[..|d|]
        && exists a :: |d| <= a < |p| && SlashesAt(p, |d|, a) && SegmentAt(p, a, |p|)
    ensures var p, d := MyUrlPath(req), MyUrlDirPath(req);
      d == "//" ==> exists a :: 0 < a < |p| && SlashesAt(p, 0, a) && SegmentAt(p, a, |p|)
  {
    DirnameOfRootedFile(MyUrlPath(req));
  }

  /** `/x` has `/` as its `dirname`, so its directory becomes "//". */
  lemma DirPathOfFirstLevelPath()
    ensures MyUrlDirPath(Request(map[], map["REQUEST_URI" := "/x?y=1"])) == "//"
  {
    var req := Request(map[], map["REQUEST_URI" := "/x?y=1"]);
    assert ServerVar(req, "REQUEST_URI") == "/x?y=1";
    assert TokenOf("?y=1", '?') == "";
    assert TokenOf("x?y=1", '?') == "x";
    assert MyUrlPath(req) == "/x";
    assert DropTrailing("/x", '/') == "/x";
    assert DropTrailingOthers("/", '/') == "/";
    assert DropTrailingOthers("/x", '/') == "/";
    assert DropTrailing("", '/') == "";
    assert DropTrailing("/", '/') == "";
  }

  // ---------------------------------------------------------------------------
  // the back URL
  // ---------------------------------------------------------------------------

  /** The pattern `^https?://`. */
  predicate HasHttpScheme(s: string) {
    (|s| >= 7 && s[..7] == "http://") || (|s| >= 8 && s[..8] == "https://")
  }

  /** The back URL is relative: given, not empty, no scheme and not from the root. */
  predicate IsRelative(backUrl: Option<string>) {
    backUrl.Some? && backUrl.value != "" && !HasHttpScheme(backUrl.value) && backUrl.value[0] != '/'
  }

  /**
   * `getRealBackUrl($backUrl)`: a full `http(s)://` URL is kept, a path from
   * the root gets this server's scheme and host, a missing or empty one is
   * this request's own URL without the query, and a relative one is appended
   * to the current directory and passed through `canonizePath` (no scheme or
   * host is put in front of it).
   */
  function RealBackUrl(sso: SSO, req: Request, backUrl: Option<string>): (r: string)
    ensures backUrl.Some? && HasHttpScheme(backUrl.value) ==> r == backUrl.value
    ensures backUrl.Some? && backUrl.value != "" && !HasHttpScheme(backUrl.value) && backUrl.value[0] == '/' ==>
      r == MyUrlHost(req) + backUrl.value
    ensures backUrl.None? || backUrl.value == "" ==> r == MyUrlHost(req) + MyUrlPath(req)
    ensures IsRelative(backUrl) ==> r == sso.canonizePath(MyUrlDirPath(req) + backUrl.value)
  {
    if backUrl.Some? && backUrl.value != "" then
      if HasHttpScheme(backUrl.value) then backUrl.value
      else if backUrl.value[0] == '/' then MyUrlHost(req) + backUrl.value
      else sso.canonizePath(MyUrlDirPath(req) + backUrl.value)
    else MyUrlHost(req) + MyUrlPath(req)
  }

  /**
   * Unless it went through `canonizePath`, the real back URL is a full URL,
   * and on this server's own URLs its scheme is https exactly when `HTTPS`
   * is "on".
   */
  lemma {:induction false} RealBackUrlIsFull(sso: SSO, req: Request, backUrl: Option<string>)
    requires !IsRelative(backUrl)
    ensures HasHttpScheme(RealBackUrl(sso, req, backUrl))
    ensures backUrl.None? || backUrl.value == "" || (backUrl.value[0] == '/' && !HasHttpScheme(backUrl.value)) ==>
      var r := RealBackUrl(sso, req, backUrl);
      (|r| >= 8 && r[..8] == "https://") <==> "HTTPS" in req.server && req.server["HTTPS"] == "on"
  {
    var r := RealBackUrl(sso, req, backUrl);
    var s := Scheme(req);
    if !(backUrl.Some? && HasHttpScheme(backUrl.value)) {
      assert r[..|s|] == s;
      if s == "http://" {
        assert r[..7] == "http://";
        assert r[4] == ':';
      } else {
        assert r[..8] == "https://";
      }
    }
  }

  /** Resolving the real back URL again changes nothing, unless it is relative. */
  lemma {:induction false} RealBackUrlIdempotent(sso: SSO, req: Request, backUrl: Option<string>)
    requires !IsRelative(backUrl)
    ensures RealBackUrl(sso, req, Some(RealBackUrl(sso, req, backUrl))) == RealBackUrl(sso, req, backUrl)
  {
    RealBackUrlIsFull(sso, req, backUrl);
  }

  // ---------------------------------------------------------------------------
  // the gateway URLs
  // ---------------------------------------------------------------------------

  /**
   * The delimiter put after a gateway URL: `strpos("?", $url) === false ? '?' : '&'`.
   * The arguments are swapped, so it asks whether the URL occurs in "?".
   */
  function Delimiter(gatewayUrl: string): char {
    if StrPos("?", gatewayUrl).None? then '?' else '&'
  }

  /** The delimiter is `&` for the empty URL and for "?" only, whatever the URL already contains. */
  lemma DelimiterQuirk(gatewayUrl: string)
    ensures Delimiter(gatewayUrl) == '&' <==> gatewayUrl == "" || gatewayUrl == "?"
  {
    if gatewayUrl == "" || gatewayUrl == "?" {
      assert OccursAt("?", gatewayUrl, 0);
    }
  }

  /** A gateway URL that already has a query still gets `?`, so the result holds two. */
  lemma DelimiterOfUrlWithQuery()
    ensures Delimiter("https://gw.example/?lang=cs") == '?'
  {
    DelimiterQuirk("https://gw.example/?lang=cs");
  }

  /** The `service=…` argument carrying the back URL. */
  function ServiceArgument(realBackUrl: string): string {
    UrlEncode(ServiceArg) + "=" + UrlEncode(Base64Encode(realBackUrl))
  }

  /** The `ticket=…` argument carrying the token. */
  function TicketArgument(token: string): string {
    UrlEncode(TokenArg) + "=" + UrlEncode(token)
  }

  /** `getRedirectUrl($backUrl)`: the gateway URL, the delimiter and the service argument. */
  function RedirectUrl(sso: SSO, req: Request, backUrl: Option<string>): string {
    sso.ssoGatewayUrl + [Delimiter(sso.ssoGatewayUrl)] + ServiceArgument(RealBackUrl(sso, req, backUrl))
  }

  /** The URL `querySSOCheckUrl` fetches: the check URL, the service argument and `&ticket=` with the token. */
  function CheckUrl(sso: SSO, req: Request, token: string, backUrl: Option<string>): string {
    sso.ssoGatewayCheckUrl + [Delimiter(sso.ssoGatewayCheckUrl)] + CheckQuery(RealBackUrl(sso, req, backUrl), token)
  }

  /** The two arguments of the check URL. */
  function CheckQuery(realBackUrl: string, token: string): string {
    ServiceArgument(realBackUrl) + "&" + TicketArgument(token)
  }

  /** The argument names are made of bytes `urlencode` keeps. */
  lemma ArgumentNamesArePlain()
    ensures forall i :: 0 <= i < |ServiceArg| ==> IsUrlUnreserved(ServiceArg[i])
    ensures forall i :: 0 <= i < |TokenArg| ==> IsUrlUnreserved(TokenArg[i])
  {
  }

  /** An argument whose name needs no encoding is the name, `=` and the encoded value. */
  lemma PlainArgument(name: string, value: string)
    requires forall i :: 0 <= i < |name| ==> IsUrlUnreserved(name[i])
    ensures UrlEncode(name) + "=" + UrlEncode(value) == name + "=" + UrlEncode(value)
  {
    UrlEncodeUnreserved(name);
  }

  /**
   * The redirect URL spelled out: the gateway URL, its delimiter (`?` for any
   * gateway URL longer than one char), `service=` and the encoded back URL.
   */
  lemma RedirectUrlShape(sso: SSO, req: Request, backUrl: Option<string>)
    ensures var gw := sso.ssoGatewayUrl;
      RedirectUrl(sso, req, backUrl) == gw + [Delimiter(gw)] + (ServiceArg + "=" + UrlEncode(Base64Encode(RealBackUrl(sso, req, backUrl))))
    ensures |sso.ssoGatewayUrl| > 1 ==> Delimiter(sso.ssoGatewayUrl) == '?'
  {
    assert ServiceArgument(RealBackUrl(sso, req, backUrl)) == ServiceArg + "=" + UrlEncode(Base64Encode(RealBackUrl(sso, req, backUrl))) by {
      ArgumentNamesArePlain();
      PlainArgument(ServiceArg, Base64Encode(RealBackUrl(sso, req, backUrl)));
    }
    DelimiterQuirk(sso.ssoGatewayUrl);
  }

  /**
   * The check URL spelled out: the check URL, its delimiter, the service
   * argument as in the redirect URL, `&` and `ticket=` with the encoded token.
   */
  lemma CheckUrlShape(sso: SSO, req: Request, token: string, backUrl: Option<string>)
    ensures var gw := sso.ssoGatewayCheckUrl;
      CheckUrl(sso, req, token, backUrl)
        == gw + [Delimiter(gw)] + ((ServiceArg + "=" + UrlEncode(Base64Encode(RealBackUrl(sso, req, backUrl))))
           + "&" + (TokenArg + "=" + UrlEncode(token)))
    ensures |sso.ssoGatewayCheckUrl| > 1 ==> Delimiter(sso.ssoGatewayCheckUrl) == '?'
  {
    var back := RealBackUrl(sso, req, backUrl);
    assert ServiceArgument(back) == ServiceArg + "=" + UrlEncode(Base64Encode(back)) by {
      ArgumentNamesArePlain();
      PlainArgument(ServiceArg, Base64Encode(back));
    }
    assert TicketArgument(token) == TokenArg + "=" + UrlEncode(token) by {
      ArgumentNamesArePlain();
      PlainArgument(TokenArg, token);
    }
    DelimiterQuirk(sso.ssoGatewayCheckUrl);
  }

  // ---------------------------------------------------------------------------
  // what the gateway reads back
  // ---------------------------------------------------------------------------

  /** One `name=value` argument, both urldecoded; an argument without `=` has the value "". */
  function ParseArgument(piece: string): (string, string) {
    match SplitFirst(piece, '=')
    case None => (UrlDecode(piece), "")
    case Some((name, value)) => (UrlDecode(name), UrlDecode(value))
  }

  function ParseArguments(pieces: seq<string>): (args: seq<(string, string)>)
    ensures |args| == |pieces|
  {
    if pieces == [] then [] else [ParseArgument(pieces[0])] + ParseArguments(pieces[1..])
  }

  /** A query string as the list of its arguments, the way a PHP gateway fills `$_GET`. */
  function ParseQuery(query: string): (args: seq<(string, string)>)
    ensures |args| >= 1
  {
    ParseArguments(Explode('&', query))
  }

  lemma {:induction false} ParseArgumentsAppend(a: seq<string>, b: seq<string>)
    ensures ParseArguments(a + b) == ParseArguments(a) + ParseArguments(b)
    decreases |a|
  {
    if a != [] {
      assert (a + b)[0] == a[0] && (a + b)[1..] == a[1..] + b;
      assert a == [a[0]] + a[1..];
      ParseArgumentsAppend(a[1..], b);
    } else {
      assert a + b == b;
    }
  }

  lemma Base64EncodeIsByteString(s: string)
    ensures IsByteString(Base64Encode(s))
  {
    var t := Base64Encode(s);
    forall i | 0 <= i < |t| ensures t[i] as int < 256 {
      assert IsBase64Digit(t[i]) || t[i] == '=';
    }
  }

  /** An argument whose name needs no encoding reads back as the name and the value. */
  lemma ArgumentReadsBack(name: string, value: string)
    requires forall i :: 0 <= i < |name| ==> IsUrlUnreserved(name[i])
    requires IsByteString(value)
    ensures UrlEncode(name) == name
    ensures '&' !in UrlEncode(name) + "=" + UrlEncode(value)
    ensures ParseQuery(UrlEncode(name) + "=" + UrlEncode(value)) == [(name, value)]
  {
    UrlEncodeUnreserved(name);
    var encoded := UrlEncode(value);
    var piece := name + "=" + encoded;
    assert piece == name + ['='] + encoded;
    forall i | 0 <= i < |piece| ensures piece[i] != '&' {
      if i < |name| {
        assert piece[i] == name[i];
      } else if i > |name| {
        assert piece[i] == encoded[i - |name| - 1];
      }
    }
    ExplodeWithoutSeparator('&', piece);
    assert '=' !in name by {
      forall i | 0 <= i < |name| ensures name[i] != '=' {
        assert IsUrlUnreserved(name[i]);
      }
    }
    SplitFirstAt(piece, '=', name, encoded);
    assert IsByteString(name) by {
      forall i | 0 <= i < |name| ensures name[i] as int < 256 {
        assert IsUrlUnreserved(name[i]);
      }
    }
    UrlDecodeEncode(name);
    UrlDecodeEncode(value);
    assert ParseArguments([piece]) == [ParseArgument(piece)];
  }

  /** The service argument reads back as `service` and the base64 text of the back URL. */
  lemma ServiceArgumentReadsBack(realBackUrl: string)
    ensures '&' !in ServiceArgument(realBackUrl)
    ensures ParseQuery(ServiceArgument(realBackUrl)) == [(ServiceArg, Base64Encode(realBackUrl))]
  {
    ArgumentNamesArePlain();
    Base64EncodeIsByteString(realBackUrl);
    ArgumentReadsBack(ServiceArg, Base64Encode(realBackUrl));
  }

  /** The parts of `url + [delimiter] + query`. */
  lemma UrlParts(url: string, delimiter: char, query: string)
    ensures var u := url + [delimiter] + query;
      |url| < |u| && u[..|url|] == url && u[|url|] == delimiter && u[|url| + 1..] == query
  {
    var u := url + [delimiter] + query;
    assert u[..|url|] == url;
    assert u[|url| + 1..] == query;
  }

  /**
   * The query after the gateway URL and its delimiter holds exactly the
   * service argument, and its value decodes back to the real back URL. When
   * the gateway URL has no `?` (and is longer than one char), that query is
   * what follows the URL's first `?`.
   */
  lemma RedirectUrlReadsBack(sso: SSO, req: Request, backUrl: Option<string>)
    requires IsByteString(RealBackUrl(sso, req, backUrl))
    ensures var u, gw := RedirectUrl(sso, req, backUrl), sso.ssoGatewayUrl;
      && |gw| < |u| && u[..|gw|] == gw && u[|gw|] == Delimiter(gw)
      && ParseQuery(u[|gw| + 1..]) == [(ServiceArg, Base64Encode(RealBackUrl(sso, req, backUrl)))]
      && Base64Decode(Base64Encode(RealBackUrl(sso, req, backUrl))) == Some(RealBackUrl(sso, req, backUrl))
      && ('?' !in gw && |gw| > 1 ==> SplitFirst(u, '?') == Some((gw, u[|gw| + 1..])))
  {
    var back := RealBackUrl(sso, req, backUrl);
    var gw := sso.ssoGatewayUrl;
    var query := ServiceArgument(back);
    UrlParts(gw, Delimiter(gw), query);
    ServiceArgumentReadsBack(back);
    Base64DecodeEncode(back);
    if '?' !in gw && |gw| > 1 {
      DelimiterQuirk(gw);
      SplitFirstAt(gw + ['?'] + query, '?', gw, query);
    }
  }

  /** The two arguments of a check URL read back as the back URL's base64 text and the token. */
  lemma CheckQueryReadsBack(realBackUrl: string, token: string)
    requires IsByteString(token)
    ensures ParseQuery(CheckQuery(realBackUrl, token)) == [(ServiceArg, Base64Encode(realBackUrl)), (TokenArg, token)]
  {
    var service, ticket := ServiceArgument(realBackUrl), TicketArgument(token);
    assert ParseQuery(service) == [(ServiceArg, Base64Encode(realBackUrl))] by {
      ServiceArgumentReadsBack(realBackUrl);
    }
    assert ParseQuery(ticket) == [(TokenArg, token)] by {
      ArgumentNamesArePlain();
      ArgumentReadsBack(TokenArg, token);
    }
    QueryConcat(service, ticket);
  }

  /** Joining two queries with `&` joins their argument lists. */
  lemma QueryConcat(a: string, b: string)
    ensures ParseQuery(a + "&" + b) == ParseQuery(a) + ParseQuery(b)
  {
    assert a + "&" + b == a + ['&'] + b;
    ExplodeConcat('&', a, b);
    ParseArgumentsAppend(Explode('&', a), Explode('&', b));
  }

  /**
   * The check URL's query holds the service argument and then the ticket,
   * each reading back as what was encoded.
   */
  lemma CheckUrlReadsBack(sso: SSO, req: Request, token: string, backUrl: Option<string>)
    requires IsByteString(token)
    ensures var u, gw := CheckUrl(sso, req, token, backUrl), sso.ssoGatewayCheckUrl;
      && |gw| < |u| && u[..|gw|] == gw && u[|gw|] == Delimiter(gw)
      && ParseQuery(u[|gw| + 1..]) == [(ServiceArg, Base64Encode(RealBackUrl(sso, req, backUrl))), (TokenArg, token)]
  {
    var back := RealBackUrl(sso, req, backUrl);
    var gw := sso.ssoGatewayCheckUrl;
    var query := CheckQuery(back, token);
    UrlParts(gw, Delimiter(gw), query);
    CheckQueryReadsBack(back, token);
  }

  // ---------------------------------------------------------------------------
  // the login
  // ---------------------------------------------------------------------------

  /** What `@file_get_contents` of the check URL gives: a failure (`false`) or the body. */
  datatype Fetched = Failed | Body(content: string)

  /**
   * The end of `doLogin`: `doRedirect` sends a `Location` header and exits,
   * otherwise the result (a user, or null) is returned.
   */
  datatype Login<T> = Redirected(location: string) | Returned(result: Option<T>)

  /**
   * The user for a parsed response: null unless `login` and `name` are set.
   * Lists in a parsed response are never empty, so the constructor then
   * always succeeds.
   */
  function UserOf(data: AttrMap): (r: Option<SSOUser.User>)
    requires forall k :: k in data ==> data[k] != []
  {
    if "login" !in data || "name" !in data then None
    else
      SSOUser.ConstructedFields(data);
      Some(SSOUser.FromAttributes(data).user)
  }

  /** The user for the gateway's answer `text`. */
  function Answer(text: string): Option<SSOUser.User> {
    UserOf(ResponseData(LowerAndUnderscore, text))
  }

  /** The result of `querySSOCheckUrl($token, $backUrl)` when the gateway answers `fetch(url)`. */
  function Credentials(sso: SSO, req: Request, token: string, backUrl: Option<string>, fetch: string -> Fetched)
    : Option<SSOUser.User>
  {
    match fetch(CheckUrl(sso, req, token, backUrl))
    case Failed => None
    case Body(text) => Answer(text)
  }

  /**
   * An answer gives a user exactly when its parsed map has `login` and
   * `name`; the user is then what the constructor builds from the whole map.
   */
  lemma AnswerCases(text: string)
    ensures var data := ResponseData(LowerAndUnderscore, text);
      Answer(text).Some? <==> "login" in data && "name" in data
    ensures Answer(text).Some? ==> SSOUser.FromAttributes(ResponseData(LowerAndUnderscore, text)) == SSOUser.Built(Answer(text).value)
  {
    SSOUser.ConstructedFields(ResponseData(LowerAndUnderscore, text));
  }

  /** `querySSOCheckUrl($token, $backUrl)`. */
  method QuerySSOCheckUrl(sso: SSO, req: Request, token: string, backUrl: Option<string>, fetch: string -> Fetched)
    returns (r: Option<SSOUser.User>)
    ensures r == Credentials(sso, req, token, backUrl, fetch)
  {
    var checkUrl := CheckUrl(sso, req, token, backUrl);
    var result := fetch(checkUrl);
    if result.Failed? {
      return None;
    }
    var data := ParseSSOResponseToArray(LowerAndUnderscore, result.content);
    if "login" !in data || "name" !in data {
      return None;
    }
    var user := SSOUser.Construct(data);
    SSOUser.ConstructedFields(data);
    r := Some(user.user);
  }

  /** `getLoginCredentials($token, $backUrl)`: the given token, else the request's; null without either. */
  method GetLoginCredentials(sso: SSO, req: Request, token: Option<string>, backUrl: Option<string>, fetch: string -> Fetched)
    returns (r: Option<SSOUser.User>)
    ensures token.None? && DefaultToken(req).None? ==> r.None?
    ensures token.Some? ==> r == Credentials(sso, req, token.value, backUrl, fetch)
    ensures token.None? && DefaultToken(req).Some? ==> r == Credentials(sso, req, DefaultToken(req).value, backUrl, fetch)
  {
    var t := if token.Some? then token else DefaultToken(req);
    if t.None? {
      return None;
    }
    r := QuerySSOCheckUrl(sso, req, t.value, backUrl, fetch);
  }

  /** `doRedirect($backUrl)`: the browser is sent to the redirect URL and the script ends. */
  function DoRedirect<T>(sso: SSO, req: Request, backUrl: Option<string>): (l: Login<T>)
    ensures l.Redirected? && l.location == RedirectUrl(sso, req, backUrl)
  {
    Redirected(RedirectUrl(sso, req, backUrl))
  }

  /** `doLogin()`: phase two when the request carries a ticket, otherwise phase one for this very URL. */
  method DoLogin(sso: SSO, req: Request, fetch: string -> Fetched) returns (l: Login<SSOUser.User>)
    ensures DefaultToken(req).None? ==> l == Redirected(RedirectUrl(sso, req, None))
    ensures DefaultToken(req).Some? ==> l == Returned(Credentials(sso, req, DefaultToken(req).value, None, fetch))
  {
    if DefaultToken(req).Some? {
      var user := GetLoginCredentials(sso, req, None, None, fetch);
      l := Returned(user);
    } else {
      l := DoRedirect(sso, req, None);
    }
  }

  /** `doLoginAsArray()`: `doLogin` with the user given as `asArray` gives it. */
  method DoLoginAsArray(sso: SSO, req: Request, fetch: string -> Fetched, currentYear: nat)
    returns (l: Login<map<string, Value>>)
    ensures l.Redirected? <==> DefaultToken(req).None?
    ensures l.Redirected? ==> l.location == RedirectUrl(sso, req, None)
    ensures l.Returned? ==>
      var c := Credentials(sso, req, DefaultToken(req).value, None, fetch);
      (l.result.None? <==> c.None?) && (c.Some? ==> l.result.value == c.value.AsArray(currentYear))
  {
    var login := DoLogin(sso, req, fetch);
    match login
    case Redirected(location) =>
      l := Redirected(location);
    case Returned(user) =>
      if user.Some? {
        l := Returned(Some(user.value.AsArray(currentYear)));
      } else {
        l := Returned(None);
      }
  }
}
