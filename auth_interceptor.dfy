/** The client's two HTTP interceptors: `AuthInterceptor` attaches the stored access token
    to every request outside the public paths, and `TokenRefreshInterceptor` answers a 401 by
    refreshing the tokens once and retrying the request with the new access token. The
    network calls (the request itself and the refresh call) are represented by their
    outcomes, given as parameters. */
module AuthInterceptors {
  import opened Wrappers
  import opened Strings
  import opened TokenStore

  /** An outgoing request: its encoded path and its headers. Header names are ASCII, as
      OkHttp demands, and are compared without regard to case. */
  datatype Request = Request(path: string, headers: map<string, string>)

  const AuthorizationHeader := "Authorization"

  /** Whether a header name is `Authorization` in some case variant. */
  predicate IsAuthorization(name: string)
  {
    ToLower(name) == "authorization"
  }

  /** `newBuilder().header("Authorization", "Bearer " + token)`: every case variant of the
      header is removed and the one new value set; the path and the other headers are kept. */
  function WithBearer(req: Request, token: string): (r: Request)
    ensures r.path == req.path
    ensures AuthorizationHeader in r.headers && r.headers[AuthorizationHeader] == "Bearer " + token
    ensures forall h :: h in r.headers && IsAuthorization(h) ==> h == AuthorizationHeader
    ensures forall h :: h in req.headers && !IsAuthorization(h) ==> h in r.headers && r.headers[h] == req.headers[h]
    ensures forall h :: h in r.headers ==> h in req.headers || h == AuthorizationHeader
  {
    var others := map h | h in req.headers && !IsAuthorization(h) :: req.headers[h];
    req.(headers := others[AuthorizationHeader := "Bearer " + token])
  }

  /** Attaching a second token leaves exactly what attaching it alone would: the earlier
      bearer header, in whatever case, is gone. */
  lemma WithBearerReplaces(req: Request, first: string, second: string)
    ensures WithBearer(WithBearer(req, first), second) == WithBearer(req, second)
  {
    assert IsAuthorization(AuthorizationHeader);
  }

  /** The length of the run of decimal digits that ends the text. */
  function TrailingDigits(s: string): (n: nat)
    ensures n <= |s|
    ensures forall i :: |s| - n <= i < |s| ==> IsDigit(s[i])
    ensures n < |s| ==> !IsDigit(s[|s| - n - 1])
  {
    if |s| > 0 && IsDigit(s[|s| - 1]) then TrailingDigits(s[..|s| - 1]) + 1 else 0
  }

  /** The characters Java's `.` does not match. */
  predicate IsLineTerminator(c: char)
  {
    c == '\n' || c == '\r' || c == '\U{0085}' || c == '\U{2028}' || c == '\U{2029}'
  }

  const MedicinesSegment := "/medicines/"

  /** A whole-path match of the medicine-detail pattern (any characters, `/medicines/`, one
      or more digits, end of input): any text without a line break, then
      `/medicines/`, then one or more digits, and nothing after them. The digits can only be
      the final run of digits, since the segment before them ends with `/`. */
  predicate IsMedicineDetailPath(path: string)
    ensures IsMedicineDetailPath(path) ==>
              0 < TrailingDigits(path) && TrailingDigits(path) + |MedicinesSegment| <= |path| && IsDigit(path[|path| - 1])
  {
    var d := TrailingDigits(path);
    var head := path[..|path| - d];
    d > 0 && |head| >= |MedicinesSegment| && head[|head| - |MedicinesSegment|..] == MedicinesSegment &&
    forall i :: 0 <= i < |head| - |MedicinesSegment| ==> !IsLineTerminator(head[i])
  }

  /** Every path the pattern describes is matched. */
  lemma MedicineDetailPathIntro(prefix: string, digits: string)
    requires forall i :: 0 <= i < |prefix| ==> !IsLineTerminator(prefix[i])
    requires |digits| > 0 && forall i :: 0 <= i < |digits| ==> IsDigit(digits[i])
    ensures IsMedicineDetailPath(prefix + MedicinesSegment + digits)
  {
    var path := prefix + MedicinesSegment + digits;
    var d := TrailingDigits(path);
    assert path[|path| - |digits| - 1] == '/';
    assert forall i :: |path| - |digits| <= i < |path| ==> path[i] == digits[i - (|path| - |digits|)];
    assert d == |digits|;
    assert path[..|path| - d] == prefix + MedicinesSegment;
  }

  /** And every matched path has that form: a text without line breaks, the segment, and a
      non-empty run of digits. */
  lemma MedicineDetailPathElim(path: string)
    requires IsMedicineDetailPath(path)
    ensures var d := TrailingDigits(path);
      var prefix := path[..|path| - d - |MedicinesSegment|];
      var digits := path[|path| - d..];
      path == prefix + MedicinesSegment + digits && |digits| > 0 &&
      (forall i :: 0 <= i < |prefix| ==> !IsLineTerminator(prefix[i])) &&
      (forall i :: 0 <= i < |digits| ==> IsDigit(digits[i]))
  {
    var d := TrailingDigits(path);
    var head := path[..|path| - d];
    var prefix := path[..|path| - d - |MedicinesSegment|];
    var digits := path[|path| - d..];
    assert d > 0 && |head| >= |MedicinesSegment| && head[|head| - |MedicinesSegment|..] == MedicinesSegment;
    assert forall i :: 0 <= i < |head| - |MedicinesSegment| ==> !IsLineTerminator(head[i]);
    assert path == prefix + MedicinesSegment + digits by {
      assert path == head + digits;
      assert head == prefix + head[|head| - |MedicinesSegment|..];
    }
    assert forall i :: 0 <= i < |prefix| ==> !IsLineTerminator(prefix[i]) by {
      assert forall i :: 0 <= i < |prefix| ==> prefix[i] == head[i];
    }
    assert forall i :: 0 <= i < |digits| ==> IsDigit(digits[i]) by {
      assert forall i :: 0 <= i < |digits| ==> digits[i] == path[|path| - d + i];
    }
  }

  /** `skipAuth`: the path contains one of the public authentication endpoints or the
      medicine search, or ends in a medicine id. Only authentication and medicine paths
      go without the token. */
  predicate SkipAuth(path: string)
    ensures SkipAuth(path) ==> Contains(path, "/auth/") || Contains(path, MedicinesSegment)
  {
    PublicPathShape(path);
    Contains(path, "/auth/login") ||
    Contains(path, "/auth/register") ||
    Contains(path, "/auth/forgot-password") ||
    Contains(path, "/auth/reset-password") ||
    Contains(path, "/auth/verify-email") ||
    Contains(path, "/auth/resend-verification") ||
    Contains(path, "/medicines/search") ||
    IsMedicineDetailPath(path)
  }

  lemma PublicPathShape(path: string)
    ensures Contains(path, "/auth/login") || Contains(path, "/auth/register") ||
            Contains(path, "/auth/forgot-password") || Contains(path, "/auth/reset-password") ||
            Contains(path, "/auth/verify-email") || Contains(path, "/auth/resend-verification") ==>
              Contains(path, "/auth/")
    ensures Contains(path, "/medicines/search") || IsMedicineDetailPath(path) ==> Contains(path, MedicinesSegment)
  {
    assert "/auth/" + "login" == "/auth/login";
    AuthSubpath(path, "login");
    assert "/auth/" + "register" == "/auth/register";
    AuthSubpath(path, "register");
    assert "/auth/" + "forgot-password" == "/auth/forgot-password";
    AuthSubpath(path, "forgot-password");
    assert "/auth/" + "reset-password" == "/auth/reset-password";
    AuthSubpath(path, "reset-password");
    assert "/auth/" + "verify-email" == "/auth/verify-email";
    AuthSubpath(path, "verify-email");
    assert "/auth/" + "resend-verification" == "/auth/resend-verification";
    AuthSubpath(path, "resend-verification");
    MedicineSubpath(path);
  }

  lemma AuthSubpath(path: string, endpoint: string)
    ensures Contains(path, "/auth/" + endpoint) ==> Contains(path, "/auth/")
  {
    if Contains(path, "/auth/" + endpoint) {
      ContainsPrefixOf(path, "/auth/", endpoint);
    }
  }

  lemma MedicineSubpath(path: string)
    ensures Contains(path, "/medicines/search") || IsMedicineDetailPath(path) ==> Contains(path, MedicinesSegment)
  {
    if Contains(path, "/medicines/search") {
      assert "/medicines/search" == MedicinesSegment + "search";
      ContainsPrefixOf(path, MedicinesSegment, "search");
    } else if IsMedicineDetailPath(path) {
      MedicineDetailPathElim(path);
      var d := TrailingDigits(path);
      var k := |path| - d - |MedicinesSegment|;
      assert path[k..k + |MedicinesSegment|] == MedicinesSegment;
      ContainsAt(path, MedicinesSegment, k);
    }
  }

  /** Any path around a public subpath skips authentication, wherever the subpath sits. */
  lemma PublicSubpathSkipsAuth(before: string, sub: string, after: string)
    requires sub in {"/auth/login", "/auth/register", "/auth/forgot-password", "/auth/reset-password",
                     "/auth/verify-email", "/auth/resend-verification", "/medicines/search"}
    ensures SkipAuth(before + sub + after)
  {
    var path := before + sub + after;
    assert path[|before|..|before| + |sub|] == sub;
    ContainsAt(path, sub, |before|);
  }

  /** `AuthInterceptor.intercept`: the request sent on, given what `getAccessToken()`
      returns. A public path goes unchanged without reading the store; otherwise a stored
      token is attached as a bearer header, and without one the request goes unchanged. */
  function AuthorizedRequest(req: Request, storedToken: Option<string>): (sent: Request)
    ensures SkipAuth(req.path) || storedToken.None? ==> sent == req
    ensures !SkipAuth(req.path) && storedToken.Some? ==> sent == WithBearer(req, storedToken.value)
    ensures sent.path == req.path
  {
    if SkipAuth(req.path) then req
    else if storedToken.Some? then WithBearer(req, storedToken.value)
    else req
  }

  /** The interceptor as installed: it reads the token from the manager, so a request
      outside the public paths carries the stored access token unless none is stored or
      the read fails. */
  function Intercept(tm: TokenManager, req: Request, fault: bool): (sent: Request)
    reads tm
    ensures SkipAuth(req.path) || fault || AccessTokenKey !in tm.prefs ==> sent == req
    ensures !SkipAuth(req.path) && !fault && AccessTokenKey in tm.prefs ==>
              sent == WithBearer(req, tm.prefs[AccessTokenKey])
  {
    AuthorizedRequest(req, tm.GetAccessToken(fault))
  }

  /** The body of a successful refresh. */
  datatype TokenPairBody = TokenPairBody(accessToken: string, refreshToken: string)

  /** What the refresh call came back with: an exception, an unsuccessful response, or a
      successful one whose body may be `null`. */
  datatype RefreshReply = RefreshThrew | RefreshRejected | RefreshAccepted(body: Option<TokenPairBody>)

  /** What the interceptor hands back: the first response (closed once a refresh was
      attempted), or the response to the retried request. */
  datatype Delivered = FirstResponse(closed: bool) | Retried(request: Request)

  /** Whether a response triggers a refresh: a 401 that is not itself the refresh call. */
  predicate TriggersRefresh(req: Request, code: int)
  {
    code == 401 && !Contains(req.path, "/auth/refresh-token")
  }

  /** `TokenRefreshInterceptor.intercept` after the first response has come back with
      `code`; `reply` is what the refresh call returns if it is made. `readFault` stands for
      a failing read of the refresh token (which then reads as `null`) and `writeFault` for
      a failing `saveTokens` or `clearTokens` (which the manager swallows). */
  method RefreshIntercept(tm: TokenManager, req: Request, code: int, reply: RefreshReply,
                          readFault: bool, writeFault: bool)
    returns (d: Delivered)
    modifies tm
    ensures !TriggersRefresh(req, code) ==> d == FirstResponse(false) && tm.prefs == old(tm.prefs)
    ensures TriggersRefresh(req, code) && (readFault || RefreshTokenKey !in old(tm.prefs)) ==>
              d == FirstResponse(true) && tm.prefs == old(tm.prefs)
    ensures TriggersRefresh(req, code) && !readFault && RefreshTokenKey in old(tm.prefs) ==>
              match reply
              case RefreshAccepted(Some(body)) =>
                d == Retried(WithBearer(req, body.accessToken)) &&
                tm.prefs == if writeFault then old(tm.prefs)
                            else old(tm.prefs)[AccessTokenKey := body.accessToken][RefreshTokenKey := body.refreshToken][IsLoggedInKey := "true"]
              case RefreshAccepted(None) =>
                d == FirstResponse(true) && tm.prefs == old(tm.prefs)
              case _ =>
                d == FirstResponse(true) &&
                tm.prefs == if writeFault then old(tm.prefs) else (old(tm.prefs) - SessionKeys)[IsLoggedInKey := "false"]
  {
    if !TriggersRefresh(req, code) {
      return FirstResponse(false);
    }
    var refreshToken := tm.GetRefreshToken(readFault);
    if refreshToken.None? {
      return FirstResponse(true);
    }
    match reply {
      case RefreshAccepted(body) =>
        if body.Some? {
          tm.SaveTokens(body.value.accessToken, body.value.refreshToken, writeFault);
          return Retried(WithBearer(req, body.value.accessToken));
        }
      case RefreshRejected =>
        tm.ClearTokens(writeFault);
      case RefreshThrew =>
        tm.ClearTokens(writeFault);
    }
    return FirstResponse(true);
  }
}
