/** The URL proxy rewrite (`proxifyHttpUrl`) and the percent-encoding it relies on
    (`encodeURIComponent`). */
module Proxy {
  import opened Types

  /** The same-origin route that forwards a request to the URL in its `url` parameter. */
  const ProxyRoute := "/api/proxy?url="
  const PlainScheme := "http://"

  // ---------------------------------------------------------------------------
  // encodeURIComponent

  /** Characters left as they are: the unreserved set of section 2.3 of RFC 2396. */
  predicate Unreserved(c: char) {
    ('A' <= c <= 'Z') || ('a' <= c <= 'z') || ('0' <= c <= '9')
    || c == '-' || c == '_' || c == '.' || c == '!' || c == '~' || c == '*' || c == '\'' || c == '(' || c == ')'
  }

  function HexDigit(d: nat): (c: char)
    requires d < 16
    ensures Unreserved(c)
  {
    if d < 10 then (('0' as int) + d) as char else (('A' as int) + d - 10) as char
  }

  /** Value of a hexadecimal digit of either case. */
  function HexValue(c: char): Option<nat> {
    if '0' <= c <= '9' then Some((c as int) - ('0' as int))
    else if 'A' <= c <= 'F' then Some((c as int) - ('A' as int) + 10)
    else if 'a' <= c <= 'f' then Some((c as int) - ('a' as int) + 10)
    else None
  }

  lemma HexRoundTrip(d: nat)
    requires d < 16
    ensures HexValue(HexDigit(d)) == Some(d)
  {
  }

  predicate IsOctets(bytes: seq<nat>) {
    forall k :: 0 <= k < |bytes| ==> bytes[k] < 256
  }

  /** UTF-8 encoding of one Unicode scalar value (section 3 of RFC 3629). */
  function Utf8(c: char): (bytes: seq<nat>)
    ensures 1 <= |bytes| <= 4 && IsOctets(bytes)
    ensures (c as int) < 0x80 ==> bytes == [c as int]
  {
    var n := c as int;
    if n < 0x80 then [n]
    else if n < 0x800 then [0xC0 + n / 64, 0x80 + n % 64]
    else if n < 0x1_0000 then [0xE0 + n / 4096, 0x80 + (n / 64) % 64, 0x80 + n % 64]
    else [0xF0 + n / 262144, 0x80 + (n / 4096) % 64, 0x80 + (n / 64) % 64, 0x80 + n % 64]
  }

  function Utf8Bytes(s: string): (bytes: seq<nat>)
    ensures IsOctets(bytes)
  {
    if s == [] then [] else Utf8(s[0]) + Utf8Bytes(s[1..])
  }

  /** Each octet written as `%HH`, upper-case hex (section 2.4.1 of RFC 2396). */
  function Escape(bytes: seq<nat>): (r: string)
    requires IsOctets(bytes)
    ensures |r| == 3 * |bytes|
    ensures forall k :: 0 <= k < |r| ==> Unreserved(r[k]) || r[k] == '%'
  {
    if bytes == [] then []
    else ['%', HexDigit(bytes[0] / 16), HexDigit(bytes[0] % 16)] + Escape(bytes[1..])
  }

  function EncodeChar(c: char): (r: string)
    ensures forall k :: 0 <= k < |r| ==> Unreserved(r[k]) || r[k] == '%'
  {
    if Unreserved(c) then [c] else Escape(Utf8(c))
  }

  /** `encodeURIComponent(s)`. Its output consists of unreserved characters and `%`, so it
      holds none of the separators `:`, `/`, `?`, `&`, `=` and `#`. */
  function EncodeUriComponent(s: string): (r: string)
    ensures forall k :: 0 <= k < |r| ==> Unreserved(r[k]) || r[k] == '%'
  {
    if s == [] then [] else EncodeChar(s[0]) + EncodeUriComponent(s[1..])
  }

  /** A character that is neither unreserved nor `%` never appears in an encoding. */
  lemma EncodedOmits(s: string, c: char)
    requires !Unreserved(c) && c != '%'
    ensures c !in EncodeUriComponent(s)
  {
    var r := EncodeUriComponent(s);
    forall k | 0 <= k < |r| ensures r[k] != c {
      assert Unreserved(r[k]) || r[k] == '%';
    }
  }

  function Prepend(bytes: seq<nat>, rest: Option<seq<nat>>): Option<seq<nat>> {
    if rest.Some? then Some(bytes + rest.value) else None
  }

  /** The octets a percent-encoded string stands for (the first stage of `decodeURIComponent`);
      `None` for a malformed escape. */
  function PercentDecode(s: string): Option<seq<nat>>
    decreases |s|
  {
    if s == [] then Some([])
    else if s[0] == '%' then
      if |s| >= 3 && HexValue(s[1]).Some? && HexValue(s[2]).Some? then
        Prepend([16 * HexValue(s[1]).value + HexValue(s[2]).value], PercentDecode(s[3..]))
      else None
    else Prepend(Utf8(s[0]), PercentDecode(s[1..]))
  }

  lemma {:induction false} DecodeEscape(bytes: seq<nat>, rest: string)
    requires IsOctets(bytes)
    ensures PercentDecode(Escape(bytes) + rest) == Prepend(bytes, PercentDecode(rest))
  {
    if bytes != [] {
      var b := bytes[0];
      HexRoundTrip(b / 16);
      HexRoundTrip(b % 16);
      var s := Escape(bytes) + rest;
      assert s[0] == '%' && s[1] == HexDigit(b / 16) && s[2] == HexDigit(b % 16);
      assert 16 * (b / 16) + b % 16 == b;
      assert s[3..] == Escape(bytes[1..]) + rest;
      DecodeEscape(bytes[1..], rest);
      var d := PercentDecode(rest);
      assert d.Some? ==> [b] + (bytes[1..] + d.value) == bytes + d.value;
    } else {
      assert Escape(bytes) + rest == rest;
      var d := PercentDecode(rest);
      assert d.Some? ==> bytes + d.value == d.value;
    }
  }

  lemma DecodeEncodedChar(c: char, rest: string)
    ensures PercentDecode(EncodeChar(c) + rest) == Prepend(Utf8(c), PercentDecode(rest))
  {
    if Unreserved(c) {
      var s := [c] + rest;
      assert s[0] == c && c != '%';
      assert s[1..] == rest;
      assert EncodeChar(c) + rest == s;
    } else {
      DecodeEscape(Utf8(c), rest);
    }
  }

  /** Decoding the encoding of `s` gives back the UTF-8 octets of `s`: the whole URL survives
      as the value of the proxy's query parameter. */
  lemma {:induction false} EncodeRoundTrip(s: string)
    ensures PercentDecode(EncodeUriComponent(s)) == Some(Utf8Bytes(s))
  {
    if s != [] {
      EncodeRoundTrip(s[1..]);
      DecodeEncodedChar(s[0], EncodeUriComponent(s[1..]));
    }
  }

  // ---------------------------------------------------------------------------
  // proxifyHttpUrl

  /** `proxifyHttpUrl(url, isSecureContext)` of the worker; the service computes the flag itself
      (see PageIsSecure). */
  function Proxify(url: Option<string>, secure: bool): Option<string> {
    if !Truthy(url) then None
    else if secure && PlainScheme <= url.value then Some(ProxyRoute + EncodeUriComponent(url.value))
    else url
  }

  /** The service's flag: `typeof window !== 'undefined' && window.location.protocol === 'https:'`,
      with `None` standing for a context without `window`. */
  function PageIsSecure(windowProtocol: Option<string>): bool {
    windowProtocol.Some? && windowProtocol.value == "https:"
  }

  /** The worker's flag: `self.location.protocol === 'https:'`. A worker counts as secure exactly
      when a page served from the same protocol does. */
  function WorkerIsSecure(protocol: string): (secure: bool)
    ensures secure == PageIsSecure(Some(protocol))
  {
    protocol == "https:"
  }

  /** The service's `proxifyHttpUrl(url)`, which reads the page location itself. */
  function ServiceProxify(url: Option<string>, windowProtocol: Option<string>): (r: Option<string>)
    ensures r == Proxify(url, PageIsSecure(windowProtocol))
  {
    if !Truthy(url) then None
    else
      var isSecureContext := windowProtocol.Some? && windowProtocol.value == "https:";
      if isSecureContext && PlainScheme <= url.value then Some(ProxyRoute + EncodeUriComponent(url.value))
      else url
  }

  /** A rewritten URL is a same-origin path, so rewriting it again changes nothing. */
  lemma ProxifyIdempotent(url: Option<string>, secure: bool)
    ensures Proxify(Proxify(url, secure), secure) == Proxify(url, secure)
  {
    var r := Proxify(url, secure);
    if r.Some? && r != url {
      assert r.value[0] == '/';
      assert !(PlainScheme <= r.value) by { assert PlainScheme[0] == 'h'; }
    }
  }

  /** A rewritten URL starts with the proxy route, and the rest of it decodes to the original URL. */
  lemma ProxifyRecoverable(url: string, secure: bool)
    requires Proxify(Some(url), secure) != Some(url)
    ensures url == "" || (ProxyRoute <= Proxify(Some(url), secure).value
                          && PercentDecode(Proxify(Some(url), secure).value[|ProxyRoute|..]) == Some(Utf8Bytes(url)))
  {
    if url != "" {
      var r := Proxify(Some(url), secure).value;
      assert r[|ProxyRoute|..] == EncodeUriComponent(url);
      EncodeRoundTrip(url);
    }
  }

  /** Only a plain-HTTP URL on a secure page is rewritten: `https://`, `HTTP://` and relative URLs
      pass through, and nothing is rewritten on an insecure page. */
  lemma ProxifyOnlyPlainHttp(url: string, secure: bool)
    requires url != ""
    ensures Proxify(Some(url), secure) != Some(url) <==> secure && PlainScheme <= url
  {
    if secure && PlainScheme <= url {
      assert ProxyRoute[0] != url[0];
      assert (ProxyRoute + EncodeUriComponent(url))[0] == ProxyRoute[0];
    }
  }
}
