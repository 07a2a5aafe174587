/**
 * `call_hf_emotion_api`: the token check and the validation of the emotion
 * classifier's HTTP response. The POST itself is an input outcome: either the
 * response (status code and parsed JSON body) or a network exception.
 */
module ApiUtils {
  import opened Wrappers
  import opened Text

  datatype Json =
    | JNull
    | JBool(b: bool)
    | JNumber(n: real)
    | JString(s: string)
    | JArray(items: seq<Json>)
    | JObject(fields: map<string, Json>)

  datatype HttpResponse = HttpResponse(status: int, body: Json)

  /** What `requests.post` did: returned a response or raised a `RequestException`. */
  datatype PostOutcome = Responded(response: HttpResponse) | RequestException(message: string)

  /** The distinct exceptions `call_hf_emotion_api` raises. */
  datatype ApiError =
    | NotConfigured                  // HUGGING_FACE_API_TOKEN not configured
    | StatusNotOk(status: int)       // API request failed with status ...
    | ModelLoading                   // Model is loading, retry needed
    | UpstreamError(message: string) // API error: ...
    | ErrorNotText                   // `.lower()` on an "error" value that is not a string
    | NoEmotionData                  // Could not extract emotion data from response
    | InvalidEmotionObject           // Invalid emotion object format
    | NetworkError(message: string)  // Network error: ...

  /** The call: whether a request went out, and what the function returned or raised. */
  datatype ApiCall = ApiCall(requested: bool, result: Result<seq<Json>, ApiError>)

  /** An element of the emotion list: an object holding both "label" and "score". */
  predicate IsEmotionObject(j: Json) {
    j.JObject? && "label" in j.fields && "score" in j.fields
  }

  /** The body's first element when the body is a non-empty list (`emotion_data[0]`). */
  function FirstElement(body: Json): Option<Json> {
    if body.JArray? && |body.items| > 0 then Some(body.items[0]) else None
  }

  /** Python truthiness of a JSON value. */
  predicate JsonTruthy(j: Json) {
    match j
    case JNull => false
    case JBool(b) => b
    case JNumber(n) => n != 0.0
    case JString(s) => s != ""
    case JArray(items) => items != []
    case JObject(fields) => fields != map[]
  }

  /** The checks made on a response that came back. */
  function ValidateResponse(resp: HttpResponse): (r: Result<seq<Json>, ApiError>)
    ensures r.Ok? ==> resp.status == 200 && FirstElement(resp.body) == Some(JArray(r.value))
    ensures r.Ok? ==> r.value != [] && forall i :: 0 <= i < |r.value| ==> IsEmotionObject(r.value[i])
    ensures r.Err? ==> !r.error.NetworkError? && !r.error.NotConfigured?
  {
    if resp.status != 200 then Err(StatusNotOk(resp.status))
    else
      var body := resp.body;
      if body.JObject? && "error" in body.fields then
        match body.fields["error"]
        case JString(text) =>
          if Contains(Lower(text), "loading") then Err(ModelLoading) else Err(UpstreamError(text))
        case _ => Err(ErrorNotText)
      else
        var emotions := FirstElement(body);
        if emotions.None? || !JsonTruthy(emotions.value) || !emotions.value.JArray? then Err(NoEmotionData)
        else if exists i :: 0 <= i < |emotions.value.items| && !IsEmotionObject(emotions.value.items[i]) then
          Err(InvalidEmotionObject)
        else Ok(emotions.value.items)
  }

  /** `call_hf_emotion_api`. */
  function CallHfEmotionApi(token: Option<string>, post: PostOutcome): (c: ApiCall)
    ensures !Truthy(token) ==> c == ApiCall(false, Err(NotConfigured))
    ensures Truthy(token) ==> c.requested
    ensures post.RequestException? && Truthy(token) ==> c.result == Err(NetworkError(post.message))
    ensures c.result.Err? && c.result.error.NetworkError? ==> post.RequestException?
    ensures Truthy(token) && post.Responded? ==> c.result == ValidateResponse(post.response)
  {
    if !Truthy(token) then ApiCall(false, Err(NotConfigured))
    else
      match post
      case RequestException(m) => ApiCall(true, Err(NetworkError(m)))
      case Responded(resp) => ApiCall(true, ValidateResponse(resp))
  }

  /** A status other than 200 fails whatever the body. */
  lemma NonOkStatusFails(resp: HttpResponse)
    requires resp.status != 200
    ensures ValidateResponse(resp) == Err(StatusNotOk(resp.status))
  {
  }

  /** An object body with an "error" key: "loading" anywhere in it, in any case, asks for a
      retry; any other text is an API error. */
  lemma ErrorBodyFails(resp: HttpResponse, text: string)
    requires resp.status == 200 && resp.body.JObject? && "error" in resp.body.fields
    requires resp.body.fields["error"] == JString(text)
    ensures Contains(Lower(text), "loading") ==> ValidateResponse(resp) == Err(ModelLoading)
    ensures !Contains(Lower(text), "loading") ==> ValidateResponse(resp) == Err(UpstreamError(text))
  {
  }

  /** The response is accepted exactly when the body is a list whose first element is a
      non-empty list of objects that all carry "label" and "score"; the value is that list. */
  lemma ValidateIff(resp: HttpResponse, items: seq<Json>)
    ensures ValidateResponse(resp) == Ok(items) <==>
      && resp.status == 200
      && FirstElement(resp.body) == Some(JArray(items))
      && items != []
      && forall i :: 0 <= i < |items| ==> IsEmotionObject(items[i])
  {
  }

  /** Bodies that are not lists, or whose first element is not a non-empty list, fail. */
  lemma MalformedBodyFails(resp: HttpResponse)
    requires resp.status == 200
    requires !(resp.body.JObject? && "error" in resp.body.fields)
    requires FirstElement(resp.body).None? || FirstElement(resp.body).value == JArray([])
             || !FirstElement(resp.body).value.JArray?
    ensures ValidateResponse(resp) == Err(NoEmotionData)
  {
  }

  /** One element of the list without "label" or "score" makes the whole response fail. */
  lemma BadElementFails(resp: HttpResponse, items: seq<Json>, i: nat)
    requires resp.status == 200 && FirstElement(resp.body) == Some(JArray(items))
    requires i < |items| && !IsEmotionObject(items[i])
    ensures ValidateResponse(resp) == Err(InvalidEmotionObject)
  {
  }
}
