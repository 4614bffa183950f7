/** The data shapes shared by the TypeScript and Kotlin clients of the
    PX-Web API: dataset metadata as the API describes it, the query sent to
    the API, the caller's query configuration and the raw extraction result. */
module Models {
  import opened Wrappers

  /** One dimension of a dataset. `values` are the legal codes,
      `valueTexts` their display labels. An absent flag is `None`. */
  datatype Variable = Variable(
    code: string,
    text: string,
    values: seq<string>,
    valueTexts: seq<string>,
    elimination: Option<bool>,
    time: Option<bool>)

  datatype DatasetMetadata = DatasetMetadata(
    title: string,
    variables: seq<Variable>,
    source: Option<string>,
    updated: Option<string>,
    description: Option<string>)

  /** `filter` is "item" (explicit codes) or "top" (latest N). */
  datatype Selection = Selection(filter: string, values: seq<string>)

  datatype VariableSelection = VariableSelection(code: string, selection: Selection)

  datatype ResponseFormat = ResponseFormat(format: string)

  /** The payload POSTed to a dataset's API URL. */
  datatype PxWebQuery = PxWebQuery(query: seq<VariableSelection>, response: ResponseFormat)

  /** What a caller asks for, before validation against the metadata. */
  datatype QueryConfig = QueryConfig(
    postalCodes: seq<string>,
    years: seq<string>,
    buildingTypes: Option<seq<string>>,
    metrics: Option<seq<string>>)

  /** One successful response: the body is kept unparsed. */
  datatype RawDataset = RawDataset(format: string, data: string, metadata: DatasetMetadata)

  /** No two variables of a metadata document share a code. */
  predicate UniqueCodes(vars: seq<Variable>)
  {
    forall i, j :: 0 <= i < j < |vars| ==> vars[i].code != vars[j].code
  }
}
