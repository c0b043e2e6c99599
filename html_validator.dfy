/**
 * The HTML validation adapter: the validator's messages for one page, an
 * empty list when it sends none, and the number of errors among them. The
 * validator itself is the caller's: its answer is a parameter.
 */
module HtmlValidator {
  import opened Wrappers
  import opened Seqs

  /** One validator message; `kind` is its `type` (`error`, `info`, `warning`). */
  datatype Message = Message(
    kind: string,
    message: string,
    extract: Option<string>,
    lastLine: Option<real>,
    lastColumn: Option<real>)

  datatype HtmlValidationResult = HtmlValidationResult(url: string, messages: seq<Message>, errorCount: nat)

  /** A message counts as an error when its type is exactly `error`. */
  predicate IsError(m: Message)
  {
    m.kind == "error"
  }

  /** The number of errors among `messages`. */
  function ErrorCount(messages: seq<Message>): (n: nat)
    ensures n <= |messages|
  {
    |Filter(messages, IsError)|
  }

  /**
   * `validateHtmlUrl` given the validator's answer for `url`: it throws
   * (`Err`), or sends a message list that may be missing. The result carries
   * the URL and the list (empty when missing) unchanged, and their error count.
   */
  function ValidateHtmlUrl(url: string, answer: Result<Option<seq<Message>>, string>): (r: Result<HtmlValidationResult, string>)
    ensures r.Err? <==> answer.Err?
    ensures r.Ok? ==> r.value.url == url && r.value.messages == answer.value.GetOr([])
    ensures r.Ok? ==> r.value.errorCount == ErrorCount(r.value.messages)
  {
    match answer
    case Err(e) => Err(e)
    case Ok(messages) =>
      var ms := messages.GetOr([]);
      Ok(HtmlValidationResult(url, ms, ErrorCount(ms)))
  }

  /** The error count is the number of positions holding an error. */
  lemma ErrorCountCountsErrors(messages: seq<Message>)
    ensures ErrorCount(messages) == |set i: nat | i < |messages| && messages[i].kind == "error"|
  {
    FilterCountsPositions(messages, IsError);
    assert Positions(messages, IsError) == set i: nat | i < |messages| && messages[i].kind == "error";
  }

  /** Warnings and information messages added to a page change nothing in its error count. */
  lemma NonErrorsNotCounted(messages: seq<Message>, others: seq<Message>)
    requires forall i :: 0 <= i < |others| ==> others[i].kind != "error"
    ensures ErrorCount(messages + others) == ErrorCount(messages)
  {
    FilterAppend(messages, others, IsError);
    ErrorCountCountsErrors(others);
    assert (set i: nat | i < |others| && others[i].kind == "error") == {};
  }

  /** A missing message list yields no messages and no errors. */
  lemma MissingMessagesAreEmpty(url: string)
    ensures ValidateHtmlUrl(url, Ok(None)) == Ok(HtmlValidationResult(url, [], 0))
  {
  }
}
