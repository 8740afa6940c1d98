/** The services the sources call: what a call is, and what may come back. */
module Service {
  import opened Domain

  /** A reply of a service: an answer, the context's end, or any other error. */
  datatype Reply<+T> = Answered(value: T) | TimedOut | Broken(reason: string)

  /** What an error reply says. */
  function Reason<T>(reply: Reply<T>): string
    requires !reply.Answered?
  {
    if reply.TimedOut? then "context deadline exceeded" else reply.reason
  }

  /** One request, by everything in it that a source chooses. */
  datatype Call =
    | CompanySearch(domain: string)
    | CompanyDetail(guid: string)
    | CvePage(cpe: string, perPage: int, start: int)
    | DictionaryPage(prefix: string, keyword: string)
    | AdvisoryPage(package: Package, token: string)
    | Marketplace
    | BreachSearch(name: string)

  /** One Fetch of a source: the requests it made, in order, and the section it built. */
  datatype Fetched = Fetched(calls: seq<Call>, section: Section)
}
