/** The warehouse-ID field: the input check run before a fetch, the friendlier wording of a
    failed fetch, and when the fetch button is disabled. */
module WarehouseFetcher {
  import opened Wrappers
  import opened Text
  import Api

  const Required: string := "Warehouse ID is required"
  const NotANumber: string := "Warehouse ID must be a number"
  const Negative: string := "Warehouse ID must be positive"

  /** `validateInput`: `None` when the text may be fetched, else the first complaint.
      `toNumber` is JavaScript's `Number(…)`, with `None` for `NaN`. */
  function ValidateInput(value: string, toNumber: string -> Option<real>): (r: Option<string>)
    ensures r == Some(Required) <==> Trim(value) == ""
    ensures r == Some(NotANumber) <==> Trim(value) != "" && toNumber(value).None?
    ensures r == Some(Negative) <==> Trim(value) != "" && toNumber(value).Some? && toNumber(value).value < 0.0
    ensures r.None? <==> Trim(value) != "" && toNumber(value).Some? && toNumber(value).value >= 0.0
  {
    if value == "" || Trim(value) == "" then Some(Required)
    else if toNumber(value).None? then Some(NotANumber)
    else if toNumber(value).value < 0.0 then Some(Negative)
    else None
  }

  /** Zero is accepted: only numbers below zero are refused as not positive. */
  lemma ZeroAccepted(value: string, toNumber: string -> Option<real>)
    requires Trim(value) != "" && toNumber(value) == Some(0.0)
    ensures ValidateInput(value, toNumber).None?
  {
  }

  /** The mapping of a fetch failure to what the user is shown; the first matching rule
      wins and an unmatched message is kept. The network rule shows the very text the
      backend client uses for its own network error. */
  function FriendlyMessage(errorMessage: string, warehouseId: string): (r: string)
  {
    if Contains(errorMessage, "not found") || Contains(errorMessage, "404") then
      "Warehouse not found with ID " + warehouseId
    else if Contains(errorMessage, "Invalid request") || Contains(errorMessage, "400") then
      "Invalid warehouse ID"
    else if Contains(errorMessage, "Server error") || Contains(errorMessage, "500") then
      "Server error: Unable to fetch warehouse data"
    else if Contains(errorMessage, "Network error") then
      Api.NetworkErrorMessage
    else if Contains(errorMessage, "timed out") then
      "Request timed out. Please try again."
    else errorMessage
  }

  /** What each rule of the mapping does, in priority order: a rule applies only when no
      earlier rule matched, and nothing matching keeps the message. */
  lemma FriendlyMessageRules(m: string, id: string)
    ensures var nf := Contains(m, "not found") || Contains(m, "404");
            var ir := Contains(m, "Invalid request") || Contains(m, "400");
            var se := Contains(m, "Server error") || Contains(m, "500");
            var ne := Contains(m, "Network error");
            var to := Contains(m, "timed out");
            var r := FriendlyMessage(m, id);
            && (nf ==> r == "Warehouse not found with ID " + id)
            && (!nf && ir ==> r == "Invalid warehouse ID")
            && (!nf && !ir && se ==> r == "Server error: Unable to fetch warehouse data")
            && (!nf && !ir && !se && ne ==> r == Api.NetworkErrorMessage)
            && (!nf && !ir && !se && !ne && to ==> r == "Request timed out. Please try again.")
            && (!nf && !ir && !se && !ne && !to ==> r == m)
  {
  }

  /** Any "Resource not found" message from the backend client reads as a missing
      warehouse, whatever the server's own words. */
  lemma NotFoundStatusReadsAsMissing(body: string, id: string)
    ensures FriendlyMessage(Api.StatusPrefix(404) + body, id) == "Warehouse not found with ID " + id
  {
    var m := "Resource not found: " + body;
    assert m == "Resource " + "not found" + (": " + body);
    ContainsSelf("not found");
    ContainsConcat("Resource ", "not found", ": " + body, "not found");
  }

  /** Characters the network error does not use, checked piece by piece. */
  lemma NetworkMessageLacks(c: char)
    requires c == 'f' || c == '0' || c == 'I' || c == 'S'
    ensures c !in Api.NetworkErrorMessage
  {
    assert c !in "Network error";
    assert c !in Api.NetworkErrorDetail;
  }

  /** The network error matches none of the rules before its own. */
  lemma NetworkMessageMisses()
    ensures var m := Api.NetworkErrorMessage;
            && !Contains(m, "not found") && !Contains(m, "404")
            && !Contains(m, "Invalid request") && !Contains(m, "400")
            && !Contains(m, "Server error") && !Contains(m, "500")
  {
    var m := Api.NetworkErrorMessage;
    NetworkMessageLacks('f');
    NetworkMessageLacks('0');
    NetworkMessageLacks('I');
    NetworkMessageLacks('S');
    assert "not found"[4] == 'f' && "404"[1] == '0' && "400"[1] == '0' && "500"[1] == '0';
    NotContainsByChar(m, "not found", 4);
    NotContainsByChar(m, "404", 1);
    NotContainsByChar(m, "Invalid request", 0);
    NotContainsByChar(m, "400", 1);
    NotContainsByChar(m, "Server error", 0);
    NotContainsByChar(m, "500", 1);
  }

  /** The network error the backend client makes is shown word for word. */
  lemma NetworkErrorShownAsIs(id: string)
    ensures FriendlyMessage(Api.NetworkErrorMessage, id) == Api.NetworkErrorMessage
  {
    NetworkMessageMisses();
    ContainsPrefix("Network error", Api.NetworkErrorDetail);
  }

  /** `error instanceof Error ? error.message : 'Unknown error occurred'`. */
  function ErrorText(message: Option<string>): (r: string)
    ensures message.Some? ==> r == message.value
    ensures message.None? ==> r == "Unknown error occurred"
  {
    message.GetOr("Unknown error occurred")
  }

  // ---------------------------------------------------------------- the component

  /** The text typed, whether a fetch runs, and the validation error shown ("" for none). */
  datatype FetcherState = FetcherState(warehouseId: string, isFetching: bool, validationError: string)

  const Initial: FetcherState := FetcherState("", false, "")

  /** `isButtonDisabled`. */
  predicate ButtonDisabled(disabled: bool, st: FetcherState)
  {
    disabled || st.isFetching || Trim(st.warehouseId) == ""
  }

  /** An enabled button never meets the "required" complaint: the disabled rule and the
      first check look at the same trimmed text. */
  lemma EnabledButtonPassesRequired(disabled: bool, st: FetcherState, toNumber: string -> Option<real>)
    requires !ButtonDisabled(disabled, st)
    ensures ValidateInput(st.warehouseId, toNumber) != Some(Required)
  {
  }

  /** `handleInputChange`: the new text, and no validation error. */
  function InputChanged(st: FetcherState, value: string): (r: FetcherState)
    ensures r.warehouseId == value && r.validationError == "" && r.isFetching == st.isFetching
  {
    st.(warehouseId := value, validationError := "")
  }

  /** How `getWarehouseById` ended: with the data, or thrown — an `Error`'s message, or
      `None` for anything else. */
  datatype FetchEnd<D> = Fetched(data: D) | FetchFailed(message: Option<string>)

  /** What the component reports to its parent. */
  datatype Report<D> = NoReport | DataFetched(data: D) | ErrorShown(message: string)

  /** `handleFetchData`: a failed check shows its complaint and fetches nothing; otherwise
      the fetch runs and its data or its reworded error is reported, and the fetching mark
      is down again at the end. */
  function FetchClicked<D>(st: FetcherState, toNumber: string -> Option<real>, outcome: FetchEnd<D>): (r: (FetcherState, Report<D>))
    ensures ValidateInput(st.warehouseId, toNumber).Some? ==>
              r == (st.(validationError := ValidateInput(st.warehouseId, toNumber).value), NoReport)
    ensures ValidateInput(st.warehouseId, toNumber).None? ==>
              && r.0 == st.(isFetching := false, validationError := "")
              && (outcome.Fetched? ==> r.1 == DataFetched(outcome.data))
              && (outcome.FetchFailed? ==> r.1 == ErrorShown(FriendlyMessage(ErrorText(outcome.message), st.warehouseId)))
  {
    match ValidateInput(st.warehouseId, toNumber)
    case Some(complaint) => (st.(validationError := complaint), NoReport)
    case None =>
      var report := match outcome
        case Fetched(data) => DataFetched(data)
        case FetchFailed(message) => ErrorShown(FriendlyMessage(ErrorText(message), st.warehouseId));
      (st.(isFetching := false, validationError := ""), report)
  }

  /** A fetch is made, and something reported, exactly when the check passes. */
  lemma FetchOnlyWhenValid<D>(st: FetcherState, toNumber: string -> Option<real>, outcome: FetchEnd<D>)
    ensures FetchClicked(st, toNumber, outcome).1.NoReport? <==> ValidateInput(st.warehouseId, toNumber).Some?
  {
  }
}
