/** Execution of one query against the remote endpoint. The network is a
    parameter: an `Endpoint` maps an API URL and the POSTed query to what
    comes back. Only the rule turning that response into a result is
    modelled; the two clients use different rules. */
module Http {
  import opened Wrappers
  import opened Models

  /** What a POST produces: a status and a body, or no response at all. */
  datatype Response = Received(status: int, body: string) | TransportFailure(reason: string)

  type Endpoint = (string, PxWebQuery) -> Response

  /** Success test of a client: the TypeScript `fetch` client accepts any
      2xx status (`response.ok`), the Kotlin `HttpClient` one only 200. */
  datatype StatusRule = FetchOk | Exactly200

  predicate Accepts(rule: StatusRule, status: int)
  {
    match rule
    case FetchOk => 200 <= status <= 299
    case Exactly200 => status == 200
  }

  /** The typed failure `executeQuery` throws. */
  datatype ExtractError = HttpError(status: int, body: string) | TransportError(reason: string)

  /** `executeQuery`: one POST; an accepted status yields the body with the
      requested format and the unchanged metadata, any other status an
      error carrying the status and the body. */
  function ExecuteQuery(rule: StatusRule, endpoint: Endpoint, apiUrl: string, metadata: DatasetMetadata,
                        query: PxWebQuery, format: string): (r: Result<RawDataset, ExtractError>)
    ensures var response := endpoint(apiUrl, query);
      r.Success? <==> response.Received? && Accepts(rule, response.status)
    ensures r.Success? ==> r.value == RawDataset(format, endpoint(apiUrl, query).body, metadata)
    ensures var response := endpoint(apiUrl, query);
      response.Received? && r.Failure? ==> r.error == HttpError(response.status, response.body)
  {
    match endpoint(apiUrl, query)
    case TransportFailure(reason) => Failure(TransportError(reason))
    case Received(status, body) =>
      if Accepts(rule, status) then Success(RawDataset(format, body, metadata))
      else Failure(HttpError(status, body))
  }

  /** The Kotlin rule is strictly narrower: whatever it accepts the
      TypeScript rule accepts, but a 204 response succeeds only in
      TypeScript. */
  lemma Exactly200Narrower(endpoint: Endpoint, apiUrl: string, metadata: DatasetMetadata, query: PxWebQuery, format: string)
    ensures ExecuteQuery(Exactly200, endpoint, apiUrl, metadata, query, format).Success? ==>
            ExecuteQuery(FetchOk, endpoint, apiUrl, metadata, query, format) ==
            ExecuteQuery(Exactly200, endpoint, apiUrl, metadata, query, format)
    ensures endpoint(apiUrl, query) == Received(204, "") ==>
            ExecuteQuery(FetchOk, endpoint, apiUrl, metadata, query, format).Success? &&
            ExecuteQuery(Exactly200, endpoint, apiUrl, metadata, query, format).Failure?
  {
  }
}
