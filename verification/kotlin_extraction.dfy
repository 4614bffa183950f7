/** The Kotlin `DatasetExtractor`. It shares the default and latest-data
    query builders with the TypeScript one (see `Queries`), but its
    `extract` sends a fixed test query and accepts only status 200. */
module KotlinExtraction {
  import opened Wrappers
  import opened Models
  import opened PostalCodes
  import opened Queries
  import opened Http

  /** `buildTestQuery`: year 2024, postal code 00400, building types 1, 2,
      3 and 5 and both metrics, whatever the metadata says. */
  function BuildTestQuery(metadata: DatasetMetadata, format: string): (q: PxWebQuery)
    ensures Codes(q.query) == [YEAR, POSTAL_CODE, BUILDING_TYPE, METRIC]
    ensures q.response.format == format
  {
    PxWebQuery(
      [ VariableSelection(YEAR, Selection(ITEM, ["2024"])),
        VariableSelection(POSTAL_CODE, Selection(ITEM, ["00400"])),
        VariableSelection(BUILDING_TYPE, Selection(ITEM, ["1", "2", "3", "5"])),
        VariableSelection(METRIC, Selection(ITEM, ["keskihinta_aritm_nw", "lkm_julk20"])) ],
      ResponseFormat(format))
  }

  /** The test query is the configuration query for year 2024 and postal
      code 00400 with the default building types and metrics, and it does
      not depend on the metadata. */
  lemma TestQueryIsConfigQuery(metadata: DatasetMetadata, format: string)
    ensures BuildTestQuery(metadata, format) == BuildConfigQuery(QueryConfig(["00400"], ["2024"], None, None), format)
    ensures var q := BuildTestQuery(metadata, format).query;
      && SelectionFor(q, YEAR) == Some(Selection(ITEM, ["2024"]))
      && SelectionFor(q, POSTAL_CODE) == Some(Selection(ITEM, ["00400"]))
      && SelectionFor(q, BUILDING_TYPE) == Some(Selection(ITEM, DEFAULT_BUILDING_TYPES))
      && SelectionFor(q, METRIC) == Some(Selection(ITEM, DEFAULT_METRICS))
  {
    var config := QueryConfig(["00400"], ["2024"], None, None);
    ConfigQueryAxes(config, format);
  }

  /** `extract`: one request with the test query; only status 200
      succeeds, and the result carries the caller's format, the body and
      the metadata. */
  function Extract(endpoint: Endpoint, metadata: DatasetMetadata, apiUrl: string, format: string): (r: Result<RawDataset, ExtractError>)
    ensures var response := endpoint(apiUrl, BuildTestQuery(metadata, format));
      && (r.Success? <==> response.Received? && response.status == 200)
      && (r.Success? ==> r.value == RawDataset(format, response.body, metadata))
      && (r.Failure? && response.Received? ==> r.error == HttpError(response.status, response.body))
  {
    ExecuteQuery(Exactly200, endpoint, apiUrl, metadata, BuildTestQuery(metadata, format), format)
  }

  /** Whether `extract` succeeds, and what data it returns, does not depend
      on the metadata's variables: only the metadata attached to the result
      differs. */
  lemma ExtractIgnoresMetadata(endpoint: Endpoint, m1: DatasetMetadata, m2: DatasetMetadata, apiUrl: string, format: string)
    ensures Extract(endpoint, m1, apiUrl, format).Success? == Extract(endpoint, m2, apiUrl, format).Success?
    ensures Extract(endpoint, m1, apiUrl, format).Success? ==>
      Extract(endpoint, m1, apiUrl, format).value.data == Extract(endpoint, m2, apiUrl, format).value.data &&
      Extract(endpoint, m1, apiUrl, format).value.metadata == m1
  {
    assert BuildTestQuery(m1, format) == BuildTestQuery(m2, format);
  }
}
