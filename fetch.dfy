/** What the page scripts see of a `fetch`: a response with its `ok` flag and
    parsed JSON body, or an error thrown on the way (network failure, a body
    that is not JSON). The browser and the network are not modelled. */
module Fetch {
  import opened Js
  import opened Records

  datatype Fetched<T> = Answered(ok: bool, json: T) | Threw(message: string)

  /** An awaited call: its value, or the message of the error it throws. */
  datatype Settled<T> = Resolved(value: T) | Rejected(message: string)

  /** `if (!res.ok) throw new Error(failure); return res.json();` */
  function Checked<T>(f: Fetched<T>, failure: string): (r: Settled<T>)
    ensures r.Resolved? <==> f.Answered? && f.ok
    ensures r.Resolved? ==> r.value == f.json
    ensures f.Answered? && !f.ok ==> r == Rejected(failure)
    ensures f.Threw? ==> r == Rejected(f.message)
  {
    match f
    case Answered(ok, json) => if ok then Resolved(json) else Rejected(failure)
    case Threw(message) => Rejected(message)
  }

  const CustomersPath := "/api/customers"
  const QueryPrefix := CustomersPath + "?q="

  /** The query string the server parses from a customers URL. The text after
      `?q=` is taken as it is: percent-encoding and decoding cancel out. */
  function UrlQuery(url: string): Payload {
    if StartsWith(url, QueryPrefix) then map["q" := url[|QueryPrefix|..]] else map[]
  }

  /** The list URL both admin pages build: no parameter for the empty query,
      otherwise `?q=` and the query. */
  function ListUrl(q: string): (u: string)
    ensures q == "" ==> u == CustomersPath
    ensures q != "" ==> StartsWith(u, QueryPrefix) && u[|QueryPrefix|..] == q
  {
    if q == "" then CustomersPath else QueryPrefix + q
  }

  /** The server reads back from the list URL exactly the query it was built
      from, once trimmed: a trimmed query reaches the search filter unchanged. */
  lemma ListUrlCarriesQuery(q: string)
    ensures SearchQuery(UrlQuery(ListUrl(Trim(q)))) == Trim(q)
  {
    var t := Trim(q);
    TrimIdempotent(q);
    if t == "" {
      assert !StartsWith(CustomersPath, QueryPrefix);
    } else {
      assert UrlQuery(ListUrl(t)) == map["q" := t];
    }
  }
}
