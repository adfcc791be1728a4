/** Request headers as the resolvers read them: a plain map from the exact
    header spelling to its value. The lookups are not case-insensitive; each
    one tries two fixed spellings in turn. */
module RequestHeaders {
  import opened Wrappers

  type HeaderMap = map<string, string>

  /** `headers[first] ?? headers[second]`: the value under the first spelling
      if present, else the value under the second, else nothing. */
  function Lookup(headers: HeaderMap, first: string, second: string): (r: Option<string>)
    ensures r.Some? <==> first in headers || second in headers
    ensures first in headers ==> r == Some(headers[first])
    ensures first !in headers && second in headers ==> r == Some(headers[second])
  {
    if first in headers then Some(headers[first])
    else if second in headers then Some(headers[second])
    else None
  }
}
