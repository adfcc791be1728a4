/** getHostname: the request's host name, taken from the Host header or,
    behind a trusted relay, from the forwarded-host header; normalised,
    checked against a conservative host syntax and, when configured, against
    an allow-list. */
module Host {
  import opened Wrappers
  import opened HttpErrors
  import opened Text
  import opened RequestHeaders
  import opened Trust

  /** An entry of the trusted-hostname list: a literal name, or a RegExp
      represented by its `test` method. */
  datatype HostEntry = Literal(name: string) | Pattern(test: string -> bool)

  /** The `{ trusted, trustedIp, untrustedIp }` options. */
  datatype HostOptions = HostOptions(trusted: seq<HostEntry>, trustedIp: SpecList, untrustedIp: SpecList)

  /** `headers.host ?? headers.Host` */
  function HostHeader(headers: HeaderMap): Option<string> {
    Lookup(headers, "host", "Host")
  }

  /** `headers['X-Forwarded-Host'] ?? headers['x-forwarded-host']` */
  function ForwardedHost(headers: HeaderMap): Option<string> {
    Lookup(headers, "X-Forwarded-Host", "x-forwarded-host")
  }

  /** The host candidate before any normalisation: the Host header as it is
      (possibly missing) for an untrusted peer; for a trusted one always a
      value, the forwarded-host header up to its first comma (empty when the
      header is missing). */
  function SelectHost(ip: string, headers: HeaderMap, trustedIp: SpecList, untrustedIp: SpecList, inRange: (string, string) -> bool): (r: Option<string>)
    ensures !IsIpTrusted(trustedIp, untrustedIp, inRange, ip) ==> r == HostHeader(headers)
    ensures IsIpTrusted(trustedIp, untrustedIp, inRange, ip) ==>
              && r.Some? && r.value <= ForwardedHost(headers).GetOr("") && ',' !in r.value
              && (|r.value| == |ForwardedHost(headers).GetOr("")| || ForwardedHost(headers).GetOr("")[|r.value|] == ',')
    ensures IsIpTrusted(trustedIp, untrustedIp, inRange, ip) && ForwardedHost(headers).None? ==> r == Some("")
  {
    if IsIpTrusted(trustedIp, untrustedIp, inRange, ip) then
      Some(FirstValue(ForwardedHost(headers).GetOr("")))
    else
      HostHeader(headers)
  }

  /** From a trusted proxy the candidate is exactly the first value of the
      forwarded-host header: the text before its first comma. */
  lemma {:induction false} TrustedHostIsFirstValue(
    ip: string, headers: HeaderMap,
    trustedIp: SpecList, untrustedIp: SpecList, inRange: (string, string) -> bool,
    p: string, rest: string)
    requires IsIpTrusted(trustedIp, untrustedIp, inRange, ip)
    requires ForwardedHost(headers) == Some(p + rest)
    requires ',' !in p && (rest == [] || rest[0] == ',')
    ensures SelectHost(ip, headers, trustedIp, untrustedIp, inRange) == Some(p)
  {
    FirstValueOf(p, rest);
  }

  // ----- IPv6 literal: /\[([0-9a-fA-F:]+)\]/ -----

  predicate IsHexOrColon(c: char) {
    IsDigit(c) || ('a' <= c <= 'f') || ('A' <= c <= 'F') || c == ':'
  }

  /** `s[i..j + 1]` is `[`, one or more hex digits or colons, then `]`. */
  ghost predicate LiteralSpan(s: string, i: int, j: int) {
    && 0 <= i && i + 1 < j < |s|
    && s[i] == '[' && s[j] == ']'
    && forall k :: i < k < j ==> IsHexOrColon(s[k])
  }

  /** The end of the longest run of hex digits and colons starting at `k`. */
  function HexRunEnd(s: string, k: nat): (e: nat)
    requires k <= |s|
    ensures k <= e <= |s|
    ensures forall m :: k <= m < e ==> IsHexOrColon(s[m])
    ensures e == |s| || !IsHexOrColon(s[e])
    decreases |s| - k
  {
    if k < |s| && IsHexOrColon(s[k]) then HexRunEnd(s, k + 1) else k
  }

  /** The leftmost bracketed literal starting at or after `from`, as the
      positions of its brackets: RegExp matching from left to right. */
  function FindLiteral(s: string, from: nat): (r: Option<(nat, nat)>)
    requires from <= |s|
    ensures r.Some? ==> from <= r.value.0 && LiteralSpan(s, r.value.0, r.value.1)
    ensures r.Some? ==> forall i, j :: from <= i < r.value.0 ==> !LiteralSpan(s, i, j)
    ensures r.None? ==> forall i, j :: from <= i ==> !LiteralSpan(s, i, j)
    decreases |s| - from
  {
    if from == |s| then None
    else
      var e := HexRunEnd(s, from + 1);
      if s[from] == '[' && from + 1 < e < |s| && s[e] == ']' then
        Some((from, e))
      else
        assert forall j :: !LiteralSpan(s, from, j);
        FindLiteral(s, from + 1)
  }

  /** The normalisation step of getHostname: the first bracketed literal,
      verbatim, when there is one; otherwise the value trimmed, without a
      trailing `:<port>`, and lower-cased. */
  function Normalize(h: string): (r: string)
    ensures FindLiteral(h, 0).Some? ==>
              && 3 <= |r| && r[0] == '[' && r[|r| - 1] == ']'
              && (forall k :: 0 < k < |r| - 1 ==> IsHexOrColon(r[k]))
              && r <= h[FindLiteral(h, 0).value.0..]
    ensures FindLiteral(h, 0).None? ==>
              |r| <= |h| && forall k :: 0 <= k < |r| ==> !('A' <= r[k] <= 'Z')
  {
    match FindLiteral(h, 0)
    case Some((i, j)) =>
      var r := h[i..j + 1];
      assert forall k :: 0 <= k < |r| ==> r[k] == h[i + k];
      assert LiteralSpan(h, i, j);
      r
    case None => ToLower(StripPort(Trim(h)))
  }

  /** A bracketed literal is extracted whatever surrounds it, as long as no
      `[` comes before it; the rest of the value is ignored. */
  lemma {:induction false} BracketLiteralKept(pre: string, lit: string, post: string)
    requires '[' !in pre && lit != []
    requires forall k :: 0 <= k < |lit| ==> IsHexOrColon(lit[k])
    ensures FindLiteral(pre + "[" + lit + "]" + post, 0).Some?
    ensures Normalize(pre + "[" + lit + "]" + post) == "[" + lit + "]"
  {
    var s := pre + "[" + lit + "]" + post;
    var i, j := |pre|, |pre| + |lit| + 1;
    assert s[i] == '[' && s[j] == ']';
    assert forall k :: i < k < j ==> s[k] == lit[k - i - 1];
    assert LiteralSpan(s, i, j);
    forall i', j' | 0 <= i' < i ensures !LiteralSpan(s, i', j') {
      assert s[i'] == pre[i'];
    }
    var r := FindLiteral(s, 0);
    assert r.Some? && r.value.0 == i;
    assert forall k :: i < k < j ==> s[k] != ']';
    assert !IsHexOrColon(s[j]);
    assert s[i..j + 1] == "[" + lit + "]";
  }

  lemma NoBracketNoLiteral(s: string)
    requires '[' !in s
    ensures Normalize(s) == ToLower(StripPort(Trim(s)))
  {
  }

  lemma NoBracketIn(name: string, port: string)
    requires '[' !in name && AllDigits(port)
    ensures '[' !in name + ":" + port
  {
    assert '[' !in port by {
      forall k | 0 <= k < |port| ensures port[k] != '[' {
        assert IsDigit(port[k]);
      }
    }
  }

  lemma TrimmedWithPort(name: string, port: string)
    requires name != [] && !IsSpace(name[0]) && port != [] && AllDigits(port)
    ensures Trim(name + ":" + port) == name + ":" + port
  {
    var s := name + ":" + port;
    assert s[0] == name[0];
    assert s[|s| - 1] == port[|port| - 1];
    assert s == [] + s + [];
    TrimPadded([], s, []);
  }

  /** No bracket, no white space at either end, no final digit and no
      capital letter. */
  predicate PlainHost(h: string) {
    && h != [] && '[' !in h && !IsSpace(h[0]) && !IsSpace(h[|h| - 1]) && !IsDigit(h[|h| - 1])
    && forall k :: 0 <= k < |h| ==> !('A' <= h[k] <= 'Z')
  }

  /** A plain value is already normal. */
  lemma NormalizePlain(s: string)
    requires PlainHost(s)
    ensures Normalize(s) == s
  {
    NoBracketNoLiteral(s);
    TrimmedKept(s);
    NoPortSuffix(s);
    ToLowerKeeps(s);
  }

  lemma TrimmedKept(s: string)
    requires IsTrimmed(s)
    ensures Trim(s) == s
  {
    assert s == [] + s + [];
    TrimPadded([], s, []);
  }

  /** A value ending in a non-digit has no port to strip. */
  lemma NoPortSuffix(s: string)
    requires s != [] && !IsDigit(s[|s| - 1])
    ensures StripPort(s) == s
  {
    forall i | 0 <= i < |s| - 1 && s[i] == ':' ensures !AllDigits(s[i + 1..]) {
      assert s[i + 1..][|s| - i - 2] == s[|s| - 1];
    }
  }

  /** Without a bracket, a value `name:port` loses its port and is
      lower-cased: "www.example.com:8080" gives "www.example.com". */
  lemma {:induction false} PortStripped(name: string, port: string)
    requires '[' !in name && name != [] && !IsSpace(name[0])
    requires port != [] && AllDigits(port)
    ensures Normalize(name + ":" + port) == ToLower(name)
  {
    var s := name + ":" + port;
    NoBracketIn(name, port);
    NoBracketNoLiteral(s);
    TrimmedWithPort(name, port);
    StripPortOf(name, port);
  }

  /** A plain name with a port normalises to the name itself. */
  lemma PlainPortStripped(name: string, port: string)
    requires '[' !in name && name != [] && !IsSpace(name[0])
    requires forall k :: 0 <= k < |name| ==> !('A' <= name[k] <= 'Z')
    requires port != [] && AllDigits(port)
    ensures Normalize(name + ":" + port) == name
  {
    PortStripped(name, port);
    ToLowerKeeps(name);
  }

  /** A bracketed run of hex digits and colons, not all digits, passes the
      host-syntax test: `]` is in the class. */
  lemma LiteralSyntax(lit: string)
    requires lit != [] && !AllDigits(lit) && forall k :: 0 <= k < |lit| ==> IsHexOrColon(lit[k])
    ensures ValidHostSyntax("[" + lit + "]")
  {
    var h := "[" + lit + "]";
    assert AfterBracket(h) == lit + "]";
    assert forall k :: 0 <= k < |lit| ==> (lit + "]")[k] == lit[k];
  }

  // ----- Host syntax: /^[[]?(?![0-9]+$)(?!-)(?:[a-zA-Z0-9-:\]]{1,63}\.?)+$/ -----

  /** The character class `[a-zA-Z0-9-:\]]`. */
  predicate InHostClass(c: char) {
    ('a' <= c <= 'z') || ('A' <= c <= 'Z') || IsDigit(c) || c == '-' || c == ':' || c == ']'
  }

  predicate AllInClass(s: string) {
    forall k :: 0 <= k < |s| ==> InHostClass(s[k])
  }

  /** Non-empty, starts with a class character, otherwise class characters
      and dots, never two dots in a row. */
  predicate DottedRun(s: string) {
    && s != []
    && InHostClass(s[0])
    && (forall k :: 0 <= k < |s| ==> InHostClass(s[k]) || s[k] == '.')
    && (forall k :: 0 < k < |s| && s[k] == '.' ==> s[k - 1] != '.')
  }

  /** `h` after its optional leading `[`. */
  function AfterBracket(h: string): string {
    if h != [] && h[0] == '[' then h[1..] else h
  }

  /** The host-syntax test of getHostname as a character predicate. A host
      that passes it is non-empty, not all digits, and made of class
      characters and dots only, apart from an optional leading `[`. */
  predicate ValidHostSyntax(h: string): (b: bool)
    ensures b ==> h != [] && !AllDigits(h) && h[0] != '-' && h[0] != '.'
    ensures b ==> forall k :: 0 <= k < |h| ==> InHostClass(h[k]) || h[k] == '.' || (k == 0 && h[k] == '[')
  {
    var rest := AfterBracket(h);
    assert h != [] && h[0] == '[' ==> forall k :: 1 <= k < |h| ==> h[k] == rest[k - 1];
    assert h != [] && h[0] == '[' ==> !IsDigit(h[0]);
    DottedRun(rest) && !AllDigits(rest) && rest[0] != '-'
  }

  /** A lower-case name whose dots each follow a letter passes the
      host-syntax test. */
  lemma LowerDottedSyntax(h: string)
    requires h != [] && 'a' <= h[0] <= 'z'
    requires forall k :: 0 <= k < |h| ==> ('a' <= h[k] <= 'z') || h[k] == '.'
    requires forall k :: 0 < k < |h| && h[k] == '.' ==> h[k - 1] != '.'
    ensures ValidHostSyntax(h)
  {
    assert AfterBracket(h) == h;
    assert !IsDigit(h[0]);
  }

  /** `(?:[class]{1,63}\.?)+` read as written: a chunk of one to 63 class
      characters, then the end, another chunk, or a dot followed by the end
      or another chunk. */
  ghost predicate Chunks(s: string)
    decreases |s|, 1
  {
    exists n :: ChunkAt(s, n)
  }

  ghost predicate ChunkAt(s: string, n: int)
    decreases |s|, 0
  {
    && 1 <= n <= 63 && n <= |s|
    && AllInClass(s[..n])
    && (n == |s| || Chunks(s[n..]) || (s[n] == '.' && (n + 1 == |s| || Chunks(s[n + 1..]))))
  }

  /** What follows the optional `[` under the two lookaheads. */
  ghost predicate AfterLookaheads(r: string) {
    !(r != [] && AllDigits(r)) && !(r != [] && r[0] == '-') && Chunks(r)
  }

  /** The whole pattern, with the optional `[` taken or skipped. */
  ghost predicate PatternAccepts(h: string) {
    (h != [] && h[0] == '[' && AfterLookaheads(h[1..])) || AfterLookaheads(h)
  }

  /** The end of the longest run of class characters starting at `k`. */
  function ClassRunEnd(s: string, k: nat): (e: nat)
    requires k <= |s|
    ensures k <= e <= |s|
    ensures forall m :: k <= m < e ==> InHostClass(s[m])
    ensures e == |s| || !InHostClass(s[e])
    decreases |s| - k
  {
    if k < |s| && InHostClass(s[k]) then ClassRunEnd(s, k + 1) else k
  }

  lemma DottedRunSuffix(s: string, m: nat)
    requires DottedRun(s) && m < |s| && InHostClass(s[m])
    ensures DottedRun(s[m..])
  {
    var t := s[m..];
    forall k | 0 <= k < |t| ensures InHostClass(t[k]) || t[k] == '.' {
      assert t[k] == s[m + k];
    }
    forall k | 0 < k < |t| && t[k] == '.' ensures t[k - 1] != '.' {
      assert t[k] == s[m + k] && t[k - 1] == s[m + k - 1];
    }
  }

  lemma {:induction false} DottedRunIsChunks(s: string)
    requires DottedRun(s)
    ensures Chunks(s)
    decreases |s|
  {
    var e := ClassRunEnd(s, 0);
    var n := if e < 63 then e else 63;
    assert AllInClass(s[..n]);
    if n < |s| {
      if n < e {
        DottedRunSuffix(s, n);
        DottedRunIsChunks(s[n..]);
      } else {
        assert s[n] == '.';
        if n + 1 < |s| {
          assert InHostClass(s[n + 1]);
          DottedRunSuffix(s, n + 1);
          DottedRunIsChunks(s[n + 1..]);
        }
      }
    }
    assert ChunkAt(s, n);
  }

  lemma {:induction false} ChunksAreDottedRun(s: string)
    requires Chunks(s)
    ensures DottedRun(s)
    decreases |s|
  {
    var n :| ChunkAt(s, n);
    assert forall k :: 0 <= k < n ==> s[k] == s[..n][k];
    if n < |s| {
      if Chunks(s[n..]) {
        ChunksAreDottedRun(s[n..]);
        forall k | n <= k < |s| ensures s[k] == s[n..][k - n] {}
      } else {
        if n + 1 < |s| {
          ChunksAreDottedRun(s[n + 1..]);
          forall k | n + 1 <= k < |s| ensures s[k] == s[n + 1..][k - n - 1] {}
        }
      }
    }
  }

  lemma ChunksIffDottedRun(s: string)
    ensures Chunks(s) <==> DottedRun(s)
  {
    if DottedRun(s) {
      DottedRunIsChunks(s);
    }
    if Chunks(s) {
      ChunksAreDottedRun(s);
    }
  }

  /** The character predicate is exactly the regular expression of the host-syntax test,
      the optional `[` and both lookaheads included. */
  lemma HostSyntaxIsPattern(h: string)
    ensures ValidHostSyntax(h) <==> PatternAccepts(h)
  {
    ChunksIffDottedRun(h);
    if h != [] && h[0] == '[' {
      ChunksIffDottedRun(h[1..]);
    }
  }

  /** The `{1,63}` bound does not limit label length: since the dot after a
      chunk is optional, a label of any length splits into several chunks. */
  lemma LongLabelsAccepted(word: string)
    requires word != [] && forall k :: 0 <= k < |word| ==> 'a' <= word[k] <= 'z'
    ensures PatternAccepts(word + ".com")
  {
    var h := word + ".com";
    assert AfterBracket(h) == h;
    assert !IsDigit(h[0]);
    forall k | 0 < k < |h| && h[k] == '.' ensures h[k - 1] != '.' {
      assert k == |word|;
    }
    HostSyntaxIsPattern(h);
  }

  // ----- Allow-list -----

  /** One allow-list entry admits the host: a RegExp whose test passes, or a
      literal equal to it. */
  predicate Accepts(entry: HostEntry, host: string) {
    match entry
    case Pattern(test) => test(host)
    case Literal(name) => name == host
  }

  ghost predicate Admitted(trusted: seq<HostEntry>, host: string) {
    exists k :: 0 <= k < |trusted| && Accepts(trusted[k], host)
  }

  /** The allow-list loop of getHostname; the flag ends up set exactly when
      some entry admits the host. */
  method IsTrustedHost(trusted: seq<HostEntry>, host: string) returns (isValid: bool)
    ensures isValid <==> Admitted(trusted, host)
  {
    isValid := false;
    for k := 0 to |trusted|
      invariant isValid <==> exists m :: 0 <= m < k && Accepts(trusted[m], host)
    {
      var entry := trusted[k];
      if entry.Pattern? && entry.test(host) {
        isValid := true;
      } else if entry.Literal? && entry.name == host {
        isValid := true;
      }
    }
  }

  /** getHostname. A missing or empty candidate is returned as it is, with
      no check. Otherwise the normalised host is returned when it passes the
      syntax test and, with a non-empty allow-list, is admitted by an entry;
      a failed syntax test raises "Invalid Host", a failed allow-list
      "Untrusted Host", each naming the normalised host and the peer. */
  method GetHostname(ip: string, headers: HeaderMap, options: HostOptions, inRange: (string, string) -> bool)
    returns (r: Result<Option<string>>)
    ensures
      var chosen := SelectHost(ip, headers, options.trustedIp, options.untrustedIp, inRange);
      if chosen.None? || chosen.value == "" then
        r == Ok(chosen)
      else
        var host := Normalize(chosen.value);
        if !ValidHostSyntax(host) then
          r == Err(SuspiciousOperation("Invalid Host", ip, host))
        else if options.trusted != [] && !Admitted(options.trusted, host) then
          r == Err(SuspiciousOperation("Untrusted Host", ip, host))
        else
          r == Ok(Some(host))
  {
    var hostname := HostHeader(headers);
    if IsIpTrusted(options.trustedIp, options.untrustedIp, inRange, ip) {
      hostname := Some(FirstValue(ForwardedHost(headers).GetOr("")));
    }
    if hostname.None? || hostname.value == "" {
      return Ok(hostname);
    }
    var host := Normalize(hostname.value);
    if !ValidHostSyntax(host) {
      return Err(SuspiciousOperation("Invalid Host", ip, host));
    }
    if |options.trusted| > 0 {
      var isValid := IsTrustedHost(options.trusted, host);
      if !isValid {
        return Err(SuspiciousOperation("Untrusted Host", ip, host));
      }
    }
    return Ok(Some(host));
  }

  // ----- The module's own test inputs -----

  /** The proxy of the examples: `ip-range-check` puts 102.1.5.253 inside
      102.1.5.2/24 and nothing else inside anything. */
  function ExampleRange(ip: string, spec: string): bool {
    ip == "102.1.5.253" && spec == "102.1.5.2/24"
  }

  /** The test of `/\[([0-9a-fA-F:]+)\]/`: a bracketed literal occurs. */
  function BracketTest(s: string): bool {
    FindLiteral(s, 0).Some?
  }

  /** The test of `/^(.+\.)+example.com$/` on names without line
      terminators: at least two characters ending in a dot, then `example`,
      any character and `com`. */
  function ExampleSubdomain(s: string): bool {
    |s| >= 13 && s[|s| - 12] == '.' && s[|s| - 11..|s| - 4] == "example" && s[|s| - 3..] == "com"
  }

  lemma WwwExampleHost(h: string)
    requires h == "www.example.com"
    ensures ValidHostSyntax(h) && PlainHost(h)
  {
    WwwExampleSyntax(h);
    WwwExamplePlain(h);
  }

  lemma WwwExampleSyntax(h: string)
    requires h == "www.example.com"
    ensures ValidHostSyntax(h)
  {
    LowerDottedSyntax(h);
  }

  lemma WwwExamplePlain(h: string)
    requires h == "www.example.com"
    ensures PlainHost(h)
  {
  }

  lemma AdminDevExampleHost(h: string)
    requires h == "admin.dev.example.com"
    ensures ValidHostSyntax(h) && PlainHost(h)
  {
    AdminDevExampleSyntax(h);
    AdminDevExamplePlain(h);
  }

  lemma AdminDevExampleSyntax(h: string)
    requires h == "admin.dev.example.com"
    ensures ValidHostSyntax(h)
  {
    LowerDottedSyntax(h);
  }

  lemma AdminDevExamplePlain(h: string)
    requires h == "admin.dev.example.com"
    ensures PlainHost(h)
  {
  }

  lemma WwwDomainHost(h: string)
    requires h == "www.domain.com"
    ensures ValidHostSyntax(h) && PlainHost(h)
  {
    WwwDomainSyntax(h);
    WwwDomainPlain(h);
  }

  lemma WwwDomainSyntax(h: string)
    requires h == "www.domain.com"
    ensures ValidHostSyntax(h)
  {
    LowerDottedSyntax(h);
  }

  lemma WwwDomainPlain(h: string)
    requires h == "www.domain.com"
    ensures PlainHost(h)
  {
  }

  /** The test hosts pass the host-syntax test and are plain names. */
  lemma TestHostFacts(h: string)
    requires h == "www.example.com" || h == "admin.dev.example.com" || h == "www.domain.com"
    ensures ValidHostSyntax(h) && PlainHost(h)
  {
    if h == "www.example.com" {
      WwwExampleHost(h);
    } else if h == "admin.dev.example.com" {
      AdminDevExampleHost(h);
    } else {
      WwwDomainHost(h);
    }
  }

  /** The subdomain pattern admits the test hosts under example.com only. */
  lemma TestHostSubdomain(h: string)
    requires h == "www.example.com" || h == "admin.dev.example.com" || h == "www.domain.com"
    ensures ExampleSubdomain(h) <==> h != "www.domain.com"
  {
    if h == "www.domain.com" {
      assert h[|h| - 12] == 'w';
    } else if h == "www.example.com" {
      assert |h| == 15 && h[3] == '.' && h[4..11] == "example" && h[12..] == "com";
    } else {
      assert |h| == 21 && h[9] == '.' && h[10..17] == "example" && h[18..] == "com";
    }
  }

  /** The test hosts are already in normal form. */
  lemma TestHostNormal(h: string)
    requires h == "www.example.com" || h == "admin.dev.example.com" || h == "www.domain.com"
    ensures Normalize(h) == h
  {
    TestHostFacts(h);
    NormalizePlain(h);
  }

  /** Behind the trusted proxy the host comes from the forwarded-host
      header, whichever its spelling. */
  method ForwardedHostScenario(ip: string, name: string, h: string) returns (r: Result<Option<string>>)
    requires ip == "102.1.5.253" && h == "www.example.com"
    requires name == "X-Forwarded-Host" || name == "x-forwarded-host"
    ensures r == Ok(Some(h))
  {
    var options := HostOptions([], One("102.1.5.2/24"), Many([]));
    assert IsIpTrusted(options.trustedIp, options.untrustedIp, ExampleRange, ip);
    TestHostFacts(h);
    FirstValueOf(h, []);
    assert h + [] == h;
    var headers := map[name := h];
    assert SelectHost(ip, headers, options.trustedIp, options.untrustedIp, ExampleRange) == Some(h);
    TestHostNormal(h);
    r := GetHostname(ip, headers, options, ExampleRange);
  }

  /** Behind the trusted proxy, without a forwarded-host header the host is
      the empty string. */
  method MissingForwardedHostScenario(ip: string) returns (r: Result<Option<string>>)
    requires ip == "102.1.5.253"
    ensures r == Ok(Some(""))
  {
    var options := HostOptions([], One("102.1.5.2/24"), Many([]));
    assert IsIpTrusted(options.trustedIp, options.untrustedIp, ExampleRange, ip);
    assert SelectHost(ip, map[], options.trustedIp, options.untrustedIp, ExampleRange) == Some("");
    r := GetHostname(ip, map[], options, ExampleRange);
  }

  /** Without a proxy, a Host header `name:port` whose name is plain,
      passes the syntax test and is admitted yields the name. */
  method PlainHostWithPort(ip: string, key: string, name: string, port: string, trusted: seq<HostEntry>)
    returns (r: Result<Option<string>>)
    requires key == "Host" || key == "host"
    requires PlainHost(name) && port != [] && AllDigits(port)
    requires ValidHostSyntax(name) && Admitted(trusted, name)
    ensures r == Ok(Some(name))
  {
    var options := HostOptions(trusted, Many([]), Many([]));
    EmptyConfigTrustsNobody(ExampleRange, ip);
    var h := name + ":" + port;
    var headers := map[key := h];
    assert SelectHost(ip, headers, options.trustedIp, options.untrustedIp, ExampleRange) == Some(h);
    PlainPortStripped(name, port);
    r := GetHostname(ip, headers, options, ExampleRange);
  }

  /** With no proxy configured the Host header is used with its port
      dropped, and a literal allow-list entry admits it. */
  method HostPortScenario(ip: string, name: string, port: string) returns (r: Result<Option<string>>)
    requires name == "www.example.com" && port == "8080"
    ensures r == Ok(Some(name))
  {
    var trusted := [Literal(name), Pattern(BracketTest)];
    TestHostFacts(name);
    assert Accepts(trusted[0], name);
    assert Admitted(trusted, name);
    r := PlainHostWithPort(ip, "host", name, port, trusted);
  }

  /** The first bracketed literal of the IPv6 test host is what is kept. */
  lemma Ipv6Kept(lit: string, post: string)
    requires lit == "2001:0db8:85a3:0000:0000:8a2e:0370:7334"
    requires post == ":[2001:0db8:85a3:2222:0000:8a2e:0370:7334]"
    ensures Normalize("[" + lit + "]" + post) == "[" + lit + "]"
  {
    assert "" + "[" == "[";
    BracketLiteralKept("", lit, post);
  }

  /** That literal passes the syntax test ... */
  lemma Ipv6Syntax(lit: string)
    requires lit == "2001:0db8:85a3:0000:0000:8a2e:0370:7334"
    ensures ValidHostSyntax("[" + lit + "]")
  {
    assert lit[4] == ':';
    LiteralSyntax(lit);
  }

  /** ... and matches the bracket pattern. */
  lemma Ipv6Bracket(lit: string)
    requires lit == "2001:0db8:85a3:0000:0000:8a2e:0370:7334"
    ensures BracketTest("[" + lit + "]")
  {
    assert "" + "[" == "[";
    BracketLiteralKept("", lit, "");
    assert "" + "[" + lit + "]" + "" == "[" + lit + "]";
  }

  /** Of two bracketed IPv6 literals in the Host header the first is kept,
      and a bracket pattern admits it. */
  method Ipv6HostScenario(ip: string, lit: string, post: string, h: string) returns (r: Result<Option<string>>)
    requires lit == "2001:0db8:85a3:0000:0000:8a2e:0370:7334"
    requires post == ":[2001:0db8:85a3:2222:0000:8a2e:0370:7334]"
    requires h == "[" + lit + "]" + post
    ensures r == Ok(Some("[" + lit + "]"))
  {
    var options := HostOptions([Pattern(BracketTest)], Many([]), Many([]));
    EmptyConfigTrustsNobody(ExampleRange, ip);
    Ipv6Syntax(lit);
    Ipv6Bracket(lit);
    Ipv6Kept(lit, post);
    var host := "[" + lit + "]";
    assert Accepts(options.trusted[0], host);
    assert Admitted(options.trusted, host);
    var headers := map["Host" := h];
    assert SelectHost(ip, headers, options.trustedIp, options.untrustedIp, ExampleRange) == Some(h);
    r := GetHostname(ip, headers, options, ExampleRange);
  }

  /** A subdomain pattern admits a subdomain of example.com, port dropped. */
  method SubdomainScenario(ip: string, name: string, port: string) returns (r: Result<Option<string>>)
    requires port == "8080"
    requires name == "www.example.com" || name == "admin.dev.example.com"
    ensures r == Ok(Some(name))
  {
    var trusted := [Pattern(ExampleSubdomain)];
    TestHostFacts(name);
    TestHostSubdomain(name);
    assert Accepts(trusted[0], name);
    assert Admitted(trusted, name);
    r := PlainHostWithPort(ip, "Host", name, port, trusted);
  }

  /** Under the subdomain pattern www.domain.com is an untrusted host. */
  method UntrustedHostRejected(ip: string, h: string) returns (r: Result<Option<string>>)
    requires h == "www.domain.com"
    ensures r == Err(SuspiciousOperation("Untrusted Host", ip, h))
  {
    var options := HostOptions([Pattern(ExampleSubdomain)], Many([]), Many([]));
    EmptyConfigTrustsNobody(ExampleRange, ip);
    TestHostSubdomain(h);
    assert options.trusted == [Pattern(ExampleSubdomain)];
    assert !Accepts(Pattern(ExampleSubdomain), h);
    assert !Admitted(options.trusted, h);
    var headers := map["host" := h];
    assert SelectHost(ip, headers, options.trustedIp, options.untrustedIp, ExampleRange) == Some(h);
    TestHostFacts(h);
    TestHostNormal(h);
    r := GetHostname(ip, headers, options, ExampleRange);
  }

  /** A host starting with `-` fails the syntax test before the allow-list
      is consulted. */
  method InvalidHostRejected(ip: string, h: string) returns (r: Result<Option<string>>)
    requires h == "-example_.com?lorem"
    ensures r == Err(SuspiciousOperation("Invalid Host", ip, h))
  {
    var options := HostOptions([Pattern(ExampleSubdomain)], Many([]), Many([]));
    EmptyConfigTrustsNobody(ExampleRange, ip);
    var headers := map["host" := h];
    assert SelectHost(ip, headers, options.trustedIp, options.untrustedIp, ExampleRange) == Some(h);
    NormalizePlain(h);
    assert !ValidHostSyntax(h);
    r := GetHostname(ip, headers, options, ExampleRange);
  }
}
