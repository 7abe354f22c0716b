/**
 * How `POST /drafts/{draft_id}/publish` turns the result of `publish_draft`
 * into a response: a success response when the result says so, an HTTP 500
 * error otherwise. `publish_draft` itself is not part of this model; its
 * result is the parameter `result` (None for a `None` result).
 */
module Publishing {
  import opened Wrappers
  import opened Json
  import opened Http

  /** The `PublishResponse` body; `success` is always true in a response that is returned. */
  datatype PublishResponse = PublishResponse(postId: Json, postUrl: Json, message: Json)

  const DefaultFailure := "Publishing failed"

  /** `result and result.get('success')`: a non-empty dict whose `success` is truthy. */
  predicate Succeeded(result: Option<map<string, Json>>) {
    result.Some? && result.value != map[] && Truthy(Field(result.value, "success"))
  }

  /** The `if result and result.get('success')` statement of `publish_draft_api`. */
  function PublishOutcome(result: Option<map<string, Json>>, userId: string): (r: Result<PublishResponse, HttpError>)
    ensures r.Success? <==> result.Some? && Truthy(Field(result.value, "success"))
    ensures r.Failure? ==> r.error.status == 500
    ensures r.Success? ==> r.value.postId == Field(result.value, "post_id") &&
                           r.value.postUrl == Field(result.value, "post_url")
  {
    if Succeeded(result) then
      var d := result.value;
      Success(PublishResponse(Field(d, "post_id"), Field(d, "post_url"),
                              FieldOr(d, "message", Str("Draft published successfully for user " + userId))))
    else
      var detail := if result.Some? && result.value != map[] then FieldOr(result.value, "message", Str(DefaultFailure))
                    else Str(DefaultFailure);
      Failure(HttpError(500, detail))
  }

  /**
   * The message: the result's own `message` whenever it has one, on either
   * path; otherwise the success text naming the user, or 'Publishing failed'.
   */
  lemma PublishMessage(result: Option<map<string, Json>>, userId: string)
    ensures var r := PublishOutcome(result, userId);
            && (result.Some? && "message" in result.value ==>
                  (r.Success? && r.value.message == result.value["message"]) ||
                  (r.Failure? && r.error.detail == result.value["message"]))
            && (result.None? || "message" !in result.value ==>
                  (r.Success? && r.value.message == Str("Draft published successfully for user " + userId)) ||
                  (r.Failure? && r.error.detail == Str(DefaultFailure)))
  {
  }

  /** No result, or a result whose `success` is missing or falsy, is the 500 error and nothing else. */
  lemma PublishFailures(result: Option<map<string, Json>>, userId: string)
    ensures result.None? ==> PublishOutcome(result, userId) == Failure(HttpError(500, Str(DefaultFailure)))
    ensures result.Some? && !Truthy(Field(result.value, "success")) ==>
            PublishOutcome(result, userId) == Failure(HttpError(500, FieldOr(result.value, "message", Str(DefaultFailure))))
  {
  }
}
