/** isIpTrusted: whether an address is a trusted relay, with the untrusted
    list always taking precedence over the trusted one. */
module Trust {

  /** A trust setting as the configuration gives it: one spec string or a
      list of them. Each spec is an address, a CIDR range or `*`. */
  datatype SpecList = One(spec: string) | Many(specs: seq<string>)

  function Specs(l: SpecList): seq<string> {
    match l
    case One(s) => [s]
    case Many(ss) => ss
  }

  /** `l.includes('*')`: on a string a substring test, on an array a test
      for an element equal to "*". */
  predicate IncludesWildcard(l: SpecList) {
    match l
    case One(s) => '*' in s
    case Many(ss) => "*" in ss
  }

  /** The address lies in one of the listed ranges, `inRange` deciding for
      a single spec. */
  ghost predicate Matched(l: SpecList, inRange: (string, string) -> bool, ip: string) {
    exists spec :: spec in Specs(l) && inRange(ip, spec)
  }

  /** ipRangeCheck(ip, specs) over a list: some spec contains the address. */
  function InAnyRange(ip: string, specs: seq<string>, inRange: (string, string) -> bool): (r: bool)
    ensures r <==> exists k :: 0 <= k < |specs| && inRange(ip, specs[k])
  {
    if specs == [] then false
    else inRange(ip, specs[0]) || InAnyRange(ip, specs[1..], inRange)
  }

  /** isIpTrusted(trusted, untrusted)(ip): deny overrides allow. A wildcard
      or a match in `untrusted` makes the address untrusted whatever `trusted`
      says; otherwise it is trusted exactly when `trusted` has a wildcard or
      a match. */
  function IsIpTrusted(trusted: SpecList, untrusted: SpecList, inRange: (string, string) -> bool, ip: string): (r: bool)
    ensures IncludesWildcard(untrusted) || Matched(untrusted, inRange, ip) ==> !r
    ensures !(IncludesWildcard(untrusted) || Matched(untrusted, inRange, ip)) ==>
              (r <==> IncludesWildcard(trusted) || Matched(trusted, inRange, ip))
  {
    if IncludesWildcard(untrusted) || InAnyRange(ip, Specs(untrusted), inRange) then
      false
    else
      IncludesWildcard(trusted) || InAnyRange(ip, Specs(trusted), inRange)
  }

  /** With nothing configured no address is trusted: the safe default. */
  lemma EmptyConfigTrustsNobody(inRange: (string, string) -> bool, ip: string)
    ensures !IsIpTrusted(Many([]), Many([]), inRange, ip)
  {
  }
}
