/** getProtocol: the request's scheme, taken from the forwarded-proto header
    only when the socket address is a trusted relay. */
module Protocol {
  import opened Wrappers
  import opened Text
  import opened RequestHeaders
  import opened Trust

  /** The forwarded-proto header under its two accepted spellings. */
  function ForwardedProto(headers: HeaderMap): Option<string> {
    Lookup(headers, "X-Forwarded-Proto", "x-forwarded-proto")
  }

  /** getProtocol(ip, headers, encrypted, { trustedIp, untrustedIp }). An
      untrusted peer gets the scheme of its own transport; a trusted one the
      trimmed first value of its forwarded-proto header. The result is never
      empty (an empty value falls back to "http"), never holds a comma and
      has no white space at its ends. */
  function GetProtocol(
    ip: string, headers: HeaderMap, encrypted: bool,
    trustedIp: SpecList, untrustedIp: SpecList, inRange: (string, string) -> bool): (r: string)
    ensures r != "" && ',' !in r && IsTrimmed(r)
    ensures !IsIpTrusted(trustedIp, untrustedIp, inRange, ip) ==> r == (if encrypted then "https" else "http")
  {
    if IsIpTrusted(trustedIp, untrustedIp, inRange, ip) then
      var first := FirstValue(ForwardedProto(headers).GetOr(""));
      var protocol := Trim(first);
      if protocol == "" then "http"
      else
        TrimAddsNothing(first, ',');
        protocol
    else if encrypted then "https" else "http"
  }

  /** From a trusted relay the scheme is the first forwarded value, with the
      white space around it dropped and whatever follows the first comma
      ignored: "https,http" gives "https". */
  lemma {:induction false} TrustedProtoIsFirstValue(
    ip: string, headers: HeaderMap, encrypted: bool,
    trustedIp: SpecList, untrustedIp: SpecList, inRange: (string, string) -> bool,
    w1: string, p: string, w2: string, rest: string)
    requires IsIpTrusted(trustedIp, untrustedIp, inRange, ip)
    requires ForwardedProto(headers) == Some(w1 + p + w2 + rest)
    requires AllSpace(w1) && AllSpace(w2) && IsTrimmed(p) && p != []
    requires ',' !in w1 + p + w2 && (rest == [] || rest[0] == ',')
    ensures GetProtocol(ip, headers, encrypted, trustedIp, untrustedIp, inRange) == p
  {
    FirstValueOf(w1 + p + w2, rest);
    TrimPadded(w1, p, w2);
  }

  /** From a trusted relay a missing forwarded-proto header, or one whose
      first value is blank, gives "http" whatever the transport is. */
  lemma {:induction false} TrustedProtoDefaultsToHttp(
    ip: string, headers: HeaderMap, encrypted: bool,
    trustedIp: SpecList, untrustedIp: SpecList, inRange: (string, string) -> bool)
    requires IsIpTrusted(trustedIp, untrustedIp, inRange, ip)
    requires ForwardedProto(headers).None? || AllSpace(FirstValue(ForwardedProto(headers).value))
    ensures GetProtocol(ip, headers, encrypted, trustedIp, untrustedIp, inRange) == "http"
  {
    var s := FirstValue(ForwardedProto(headers).GetOr(""));
    assert s + [] + [] == s;
    TrimPadded(s, [], []);
  }
}
