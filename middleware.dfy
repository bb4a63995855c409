/**
 * `middleware.ts`: the CORS response headers added to every `/api` request.
 * The allow-list is matched by prefix; any other origin gets `*`.
 */
module Middleware {
  import opened Wrappers
  import opened JsStrings

  /** The allow-list, matched as prefixes of the request's `Origin`. */
  const Allowed: seq<string> := [
    "http://localhost:3000", "http://localhost:19006", "http://localhost:8081",
    "exp://", "http://127.0.0.1:19000"]

  const AllowOriginHeader: string := "Access-Control-Allow-Origin"
  const AllowMethodsHeader: string := "Access-Control-Allow-Methods"
  const AllowHeadersHeader: string := "Access-Control-Allow-Headers"

  const AllowedMethods: string := "GET,POST,PATCH,DELETE,OPTIONS"
  const AllowedHeaders: string := "Content-Type, Authorization"

  /** `allowed.some(a => origin.startsWith(a))`. */
  predicate AllowListed(origin: string) {
    exists i :: 0 <= i < |Allowed| && StartsWith(origin, Allowed[i])
  }

  /** The value of `Access-Control-Allow-Origin` for a request's `Origin` header. */
  function AllowOrigin(origin: Option<string>): (value: string)
    ensures AllowListed(origin.GetOr("")) ==> value == origin.value
    ensures !AllowListed(origin.GetOr("")) ==> value == "*"
  {
    var o := origin.GetOr("");
    if AllowListed(o) then
      assert o != "" by {
        var i :| 0 <= i < |Allowed| && StartsWith(o, Allowed[i]);
        assert |Allowed[i]| > 0;
      }
      o
    else "*"
  }

  /** A request without an `Origin` header gets `*`. */
  lemma MissingOriginGetsWildcard()
    ensures AllowOrigin(None) == "*"
    ensures AllowOrigin(Some("")) == "*"
  {
    forall i | 0 <= i < |Allowed| ensures !StartsWith("", Allowed[i]) {
      assert |Allowed[i]| > 0;
    }
  }

  /** The header is never left empty: an allow-listed origin is echoed, any other gets `*`. */
  lemma AllowOriginNeverEmpty(origin: Option<string>)
    ensures AllowOrigin(origin) != ""
    ensures AllowOrigin(origin) == "*" || (origin.Some? && AllowOrigin(origin) == origin.value)
  {
  }

  /** Matching is by prefix: any `exp://` origin, and a host that merely begins like a listed one, is echoed. */
  lemma PrefixMatchAdmitsLookalikes()
    ensures AllowOrigin(Some("exp://192.168.1.5:8081")) == "exp://192.168.1.5:8081"
    ensures AllowOrigin(Some("http://localhost:3000.example.com")) == "http://localhost:3000.example.com"
  {
    assert StartsWith("exp://192.168.1.5:8081", Allowed[3]);
    assert StartsWith("http://localhost:3000.example.com", Allowed[0]);
  }

  /** The headers of the response `NextResponse.next()` hands on, filled by successive `set` calls. */
  class Headers {
    var entries: map<string, string>

    constructor()
      ensures entries == map[]
    {
      entries := map[];
    }

    /** `headers.set(name, value)`: replaces any earlier value of the header. */
    method Set(name: string, value: string)
      modifies this
      ensures entries == old(entries)[name := value]
    {
      entries := entries[name := value];
    }
  }

  /**
   * `middleware(req)`: nothing for a path outside `/api` (the request goes
   * on untouched), otherwise the three CORS headers.
   */
  method Run(path: string, origin: Option<string>) returns (res: Option<Headers>)
    ensures res.Some? <==> StartsWith(path, "/api")
    ensures res.Some? ==> fresh(res.value) && res.value.entries == map[
      AllowOriginHeader := AllowOrigin(origin),
      AllowMethodsHeader := AllowedMethods,
      AllowHeadersHeader := AllowedHeaders]
  {
    if !StartsWith(path, "/api") {
      return None;
    }
    var o := origin.GetOr("");
    var headers := new Headers();
    if exists i :: 0 <= i < |Allowed| && StartsWith(o, Allowed[i]) {
      headers.Set(AllowOriginHeader, o);
    } else {
      headers.Set(AllowOriginHeader, "*");
    }
    headers.Set(AllowMethodsHeader, AllowedMethods);
    headers.Set(AllowHeadersHeader, AllowedHeaders);
    res := Some(headers);
  }
}
