/**
 * The client of the generative-language endpoint: the request built from a
 * prompt, and how the text and the token count are read from the answer.
 * Every field of the answer may be missing, so each is optional here.
 */
module GeminiApi {
  import opened Wrappers
  import opened Http

  datatype Part = Part(text: string)

  /** One entry of the request's `contents`. */
  datatype RequestContent = RequestContent(parts: seq<Part>)

  datatype GeminiRequest = GeminiRequest(contents: seq<RequestContent>)

  datatype ResponseContent = ResponseContent(parts: Option<seq<Part>>, role: string)

  datatype Candidate = Candidate(content: Option<ResponseContent>)

  datatype Usage = Usage(totalTokenCount: Option<int>)

  datatype GeminiResponse = GeminiResponse(candidates: Option<seq<Candidate>>, usageMetadata: Option<Usage>)

  /** Why `getMessage` throws: the transport's error, passed on unchanged,
      or the answer holding no text ("No response from Gemini"). */
  datatype GeminiError = Transport(error: HttpError) | NoResponse

  /** What `getMessage` settles with. */
  datatype MessageOutcome = Answer(text: string) | Thrown(reason: GeminiError)

  /** What `getDetailedResponse` settles with. */
  datatype DetailedOutcome = Detailed(text: string, totalTokens: int) | DetailedThrown(error: HttpError)

  /** The request body: one content entry holding one part, the prompt. */
  function BuildRequest(prompt: string): (r: GeminiRequest)
    ensures |r.contents| == 1 && |r.contents[0].parts| == 1
    ensures r.contents[0].parts[0].text == prompt
  {
    GeminiRequest([RequestContent([Part(prompt)])])
  }

  /** The answer has a first candidate with content whose parts are present and non-empty. */
  predicate HasText(resp: GeminiResponse) {
    && resp.candidates.Some? && |resp.candidates.value| > 0
    && resp.candidates.value[0].content.Some?
    && resp.candidates.value[0].content.value.parts.Some?
    && |resp.candidates.value[0].content.value.parts.value| > 0
  }

  /** `candidates[0].content.parts[0].text`, read only when every step is there. */
  function FirstText(resp: GeminiResponse): (r: Option<string>)
    ensures r.Some? <==> HasText(resp)
    ensures r.Some? ==> r.value == resp.candidates.value[0].content.value.parts.value[0].text
  {
    match resp.candidates
    case None => None
    case Some(cs) =>
      if |cs| == 0 then None
      else
        match cs[0].content
        case None => None
        case Some(c) =>
          match c.parts
          case None => None
          case Some(ps) => if |ps| > 0 then Some(ps[0].text) else None
  }

  /** `getMessage`: the first text, a thrown "No response" when there is none,
      and a transport error re-thrown as it came. */
  function GetMessage(reply: Reply<GeminiResponse>): (r: MessageOutcome)
    ensures reply.Fail? ==> r == Thrown(Transport(reply.error))
    ensures reply.Ok? && HasText(reply.value) ==> r.Answer? && Some(r.text) == FirstText(reply.value)
    ensures reply.Ok? && !HasText(reply.value) ==> r == Thrown(NoResponse)
  {
    match reply
    case Fail(e) => Thrown(Transport(e))
    case Ok(resp) =>
      match FirstText(resp)
      case Some(t) => Answer(t)
      case None => Thrown(NoResponse)
  }

  /** `usageMetadata?.totalTokenCount || 0` */
  function TotalTokens(resp: GeminiResponse): (n: int)
    ensures resp.usageMetadata.Some? && resp.usageMetadata.value.totalTokenCount.Some?
            ==> n == resp.usageMetadata.value.totalTokenCount.value
    ensures resp.usageMetadata.None? || resp.usageMetadata.value.totalTokenCount.None? ==> n == 0
  {
    match resp.usageMetadata
    case None => 0
    case Some(u) => u.totalTokenCount.GetOr(0)
  }

  /** What `getDetailedResponse` returns, as a value. */
  function DetailedOf(reply: Reply<GeminiResponse>): DetailedOutcome {
    match reply
    case Fail(e) => DetailedThrown(e)
    case Ok(resp) => Detailed(FirstText(resp).GetOr(""), TotalTokens(resp))
  }

  /** `getDetailedResponse`: like `getMessage`, but a missing text gives ""
      instead of an error. */
  method GetDetailedResponse(reply: Reply<GeminiResponse>) returns (r: DetailedOutcome)
    ensures r == DetailedOf(reply)
  {
    if reply.Fail? {
      return DetailedThrown(reply.error);
    }
    var data := reply.value;
    var responseText := "";
    if data.candidates.Some? && |data.candidates.value| > 0 {
      var candidate := data.candidates.value[0];
      if candidate.content.Some? && candidate.content.value.parts.Some?
         && |candidate.content.value.parts.value| > 0 {
        responseText := candidate.content.value.parts.value[0].text;
      }
    }
    var totalTokens := if data.usageMetadata.Some? then data.usageMetadata.value.totalTokenCount.GetOr(0) else 0;
    return Detailed(responseText, totalTokens);
  }

  /** The two calls agree: the same text when there is one; where
      `getMessage` throws "No response", `getDetailedResponse` returns "";
      and both pass on the same transport error. */
  lemma DetailedAgreesWithMessage(reply: Reply<GeminiResponse>)
    ensures GetMessage(reply).Answer? ==> DetailedOf(reply).Detailed? && DetailedOf(reply).text == GetMessage(reply).text
    ensures GetMessage(reply) == Thrown(NoResponse) ==> DetailedOf(reply).Detailed? && DetailedOf(reply).text == ""
    ensures GetMessage(reply).Thrown? && GetMessage(reply).reason.Transport?
            <==> DetailedOf(reply).DetailedThrown?
    ensures DetailedOf(reply).DetailedThrown? ==> GetMessage(reply) == Thrown(Transport(DetailedOf(reply).error))
  {
  }

  /** An answer whose first candidate's first part is `t` yields `t`. */
  lemma AnswerOfFirstPart(t: string, more: seq<Part>, others: seq<Candidate>, usage: Option<Usage>)
    ensures GetMessage(Ok(GeminiResponse(
              Some([Candidate(Some(ResponseContent(Some([Part(t)] + more), "model")))] + others),
              usage))) == Answer(t)
  {
  }
}
