/**
 * `HTMLFetcher`: the two checks `fetch` makes on a response before reading
 * it, and the cookie header it sends to get past consent banners. Opening
 * the connection, the charset, the gzip stream and the read loop are not
 * part of this model; the response code and the content type are given.
 */
module HtmlFetcher {
  import opened Wrappers
  import opened JavaLang

  // ---------------------------------------------------------------------------
  // Response checks

  /** The content type `fetch` accepts: exactly `text/html`, or `text/html;` followed by parameters. */
  predicate AcceptsContentType(ct: Option<string>) {
    ct.Some? && (ct.value == "text/html" || StartsWith(ct.value, "text/html;"))
  }

  /**
   * An accepted content type is `text/html` with nothing after it but a
   * parameter list: the character after `text/html`, if any, is `;`.
   */
  lemma AcceptedContentTypes(ct: Option<string>)
    ensures AcceptsContentType(ct) <==>
              ct.Some? && StartsWith(ct.value, "text/html") && (|ct.value| == 9 || ct.value[9] == ';')
  {
    if ct.Some? && StartsWith(ct.value, "text/html") {
      var s := ct.value;
      if |s| == 9 {
        assert s == s[..9];
      } else if s[9] == ';' {
        assert s[..10] == s[..9] + [s[9]];
      }
    }
  }

  /** The comparison is case-sensitive and a parameter list needs its `;`. */
  lemma RejectedContentTypes()
    ensures AcceptsContentType(Some("text/html; charset=utf-8"))
    ensures !AcceptsContentType(Some("TEXT/HTML"))
    ensures !AcceptsContentType(Some("text/html charset=utf-8"))
    ensures !AcceptsContentType(Some("application/xhtml+xml"))
    ensures !AcceptsContentType(None)
  {
    AcceptedContentTypes(Some("text/html; charset=utf-8"));
    AcceptedContentTypes(Some("TEXT/HTML"));
    AcceptedContentTypes(Some("text/html charset=utf-8"));
    AcceptedContentTypes(Some("application/xhtml+xml"));
  }

  /** The connection `fetch` opened: an HTTP connection with its response code, or another kind of connection. */
  datatype Connection = Http(responseCode: int) | NonHttp

  /**
   * The checks of `fetch` before the body is read: on an HTTP connection, code
   * 429 throws IOException before the content type is looked at; then a
   * missing or unsupported content type throws IOException. `None` means the
   * fetch goes on.
   */
  function ResponseCheck(conn: Connection, contentType: Option<string>): (r: Option<Exception>)
    ensures r == Some(IOException(TooManyRequests)) <==> conn.Http? && conn.responseCode == 429
    ensures r == Some(IOException(UnsupportedContentType)) <==>
              !(conn.Http? && conn.responseCode == 429) && !AcceptsContentType(contentType)
    ensures r.None? <==> !(conn.Http? && conn.responseCode == 429) && AcceptsContentType(contentType)
  {
    if conn.Http? && conn.responseCode == 429 then Some(IOException(TooManyRequests))
    else if !AcceptsContentType(contentType) then Some(IOException(UnsupportedContentType))
    else None
  }

  // ---------------------------------------------------------------------------
  // The cookie header

  /** `key=value` pairs joined with `; `: the text of a builder after `addCookie` was called for each pair in turn. */
  function JoinCookies(pairs: seq<(string, string)>): string {
    if pairs == [] then ""
    else
      var init, last := pairs[..|pairs| - 1], pairs[|pairs| - 1];
      JoinCookies(init) + (if init == [] then "" else "; ") + last.0 + "=" + last.1
  }

  /** The joined text is empty exactly when there are no pairs: each pair contributes its `=`. */
  lemma JoinCookiesEmpty(pairs: seq<(string, string)>)
    ensures JoinCookies(pairs) == [] <==> pairs == []
  {
    if pairs != [] {
      var init, last := pairs[..|pairs| - 1], pairs[|pairs| - 1];
      var tail := (if init == [] then "" else "; ") + last.0 + "=" + last.1;
      assert JoinCookies(pairs) == JoinCookies(init) + tail;
      assert |tail| >= 1;
    }
  }

  /** The joined text begins with the first pair. */
  lemma {:induction false} JoinCookiesStartsWithFirst(pairs: seq<(string, string)>)
    requires pairs != []
    ensures StartsWith(JoinCookies(pairs), pairs[0].0 + "=" + pairs[0].1)
  {
    var first := pairs[0].0 + "=" + pairs[0].1;
    var init, last := pairs[..|pairs| - 1], pairs[|pairs| - 1];
    if init == [] {
      assert JoinCookies(pairs) == "" + "" + last.0 + "=" + last.1;
      assert last == pairs[0];
      assert JoinCookies(pairs) == first;
    } else {
      JoinCookiesStartsWithFirst(init);
      assert init[0] == pairs[0];
      var tail := "; " + last.0 + "=" + last.1;
      assert JoinCookies(pairs) == JoinCookies(init) + tail;
      assert JoinCookies(pairs)[..|first|] == JoinCookies(init)[..|first|];
    }
  }

  /** The `StringBuilder` that `buildCookieBypassHeader` fills. */
  class CookieBuilder {
    var text: string
    /** The pairs added so far, in order. */
    ghost var pairs: seq<(string, string)>

    ghost predicate Valid()
      reads this
    {
      text == JoinCookies(pairs)
    }

    /** `new StringBuilder()`: empty. */
    constructor ()
      ensures Valid() && pairs == [] && text == ""
    {
      text := "";
      pairs := [];
    }

    /** `addCookie`: appends `key=value`, preceded by `; ` exactly when the text is not empty. */
    method AddCookie(key: string, value: string)
      requires Valid()
      modifies this
      ensures Valid() && pairs == old(pairs) + [(key, value)]
      ensures text == old(text) + (if old(text) != [] then "; " else "") + key + "=" + value
    {
      JoinCookiesEmpty(pairs);
      if |text| > 0 {
        text := text + "; ";
      }
      text := text + key + "=" + value;
      pairs := pairs + [(key, value)];
      assert pairs[..|pairs| - 1] == old(pairs);
    }
  }

  /** The cookies `buildCookieBypassHeader` sets, in order: generic consent cookies, then Cookiebot's. */
  const BYPASS_COOKIES: seq<(string, string)> := [
    ("cookieConsent", "true"),
    ("cookie-consent", "accepted"),
    ("cookiesAccepted", "true"),
    ("acceptCookies", "true"),
    ("gdpr-consent", "accepted"),
    ("privacy-consent", "true"),
    ("cookie_notice_accepted", "true"),
    ("cookies_policy", "accepted"),
    ("CookieConsent", "{necessary:true,preferences:true,statistics:true,marketing:false}"),
    ("CookieConsentBulkTicket", "accepted")
  ]

  /**
   * `buildCookieBypassHeader`: the ten bypass cookies joined with `; `, the
   * same for every host.
   */
  method BuildCookieBypassHeader(host: string) returns (header: string)
    ensures header == JoinCookies(BYPASS_COOKIES)
  {
    var cookies := new CookieBuilder();
    cookies.AddCookie("cookieConsent", "true");
    cookies.AddCookie("cookie-consent", "accepted");
    cookies.AddCookie("cookiesAccepted", "true");
    cookies.AddCookie("acceptCookies", "true");
    cookies.AddCookie("gdpr-consent", "accepted");
    cookies.AddCookie("privacy-consent", "true");
    cookies.AddCookie("cookie_notice_accepted", "true");
    cookies.AddCookie("cookies_policy", "accepted");
    cookies.AddCookie("CookieConsent", "{necessary:true,preferences:true,statistics:true,marketing:false}");
    cookies.AddCookie("CookieConsentBulkTicket", "accepted");
    assert cookies.pairs == BYPASS_COOKIES;
    return cookies.text;
  }

  /** The header begins with `cookieConsent=true` and holds ten pairs. */
  lemma BypassHeaderStartsWithConsent()
    ensures StartsWith(JoinCookies(BYPASS_COOKIES), "cookieConsent=true")
    ensures |BYPASS_COOKIES| == 10
  {
    JoinCookiesStartsWithFirst(BYPASS_COOKIES);
    assert BYPASS_COOKIES[0].0 + "=" + BYPASS_COOKIES[0].1 == "cookieConsent=true";
  }
}
