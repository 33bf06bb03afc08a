/**
 * The chatbot endpoint: the per-client one-message-per-second limiter, the
 * keyword intent classifier and its canned replies, the extraction of the
 * model's answer from the text-generation response, and the 500-character
 * truncation. The remote model is replaced by how its call settles.
 */
module Chatbot {
  import opened Wrappers
  import Text

  const MinGap: int := 1000

  /** `checkRateLimit`: the limiter map from client identifier to the time of its last accepted message. */
  function CheckRateLimit(limits: map<string, int>, id: string, now: int): (r: (bool, map<string, int>))
    ensures var last := if id in limits then limits[id] else 0;
            r.0 <==> now - last >= MinGap
    ensures r.0 ==> r.1 == limits[id := now]
    ensures !r.0 ==> r.1 == limits
  {
    var last := if id in limits then limits[id] else 0;
    if now - last < MinGap then (false, limits) else (true, limits[id := now])
  }

  /**
   * Accepted messages from one client are at least a second apart, whatever it sends in
   * between, and a check for one client leaves every other client's entry as it was.
   */
  lemma RateLimitPerClient(limits: map<string, int>, id: string, other: string, t1: int, t2: int)
    ensures t1 <= t2 && CheckRateLimit(limits, id, t1).0 ==>
              (CheckRateLimit(CheckRateLimit(limits, id, t1).1, id, t2).0 <==> t2 - t1 >= MinGap)
    ensures var m := CheckRateLimit(limits, id, t1).1;
            other != id ==> (other in m <==> other in limits) && (other in limits ==> m[other] == limits[other])
  {
  }

  datatype Intent = Evening | Emergency | Area | Default

  /** The server's intent detection on the lower-cased message, in priority order. */
  function DetectIntent(message: string): (i: Intent)
    ensures var m := Text.ToLower(message);
            var evening := Text.Contains(m, "evening") || Text.Contains(m, "night") || Text.Contains(m, "dark");
            var emergency := Text.Contains(m, "emergency") || Text.Contains(m, "help") || Text.Contains(m, "danger");
            var area := Text.Contains(m, "area") || Text.Contains(m, "location") || Text.Contains(m, "safe zone");
            && (i == Evening <==> evening)
            && (i == Emergency <==> !evening && emergency)
            && (i == Area <==> !evening && !emergency && area)
            && (i == Default <==> !evening && !emergency && !area)
  {
    var m := Text.ToLower(message);
    if Text.Contains(m, "evening") || Text.Contains(m, "night") || Text.Contains(m, "dark") then Evening
    else if Text.Contains(m, "emergency") || Text.Contains(m, "help") || Text.Contains(m, "danger") then Emergency
    else if Text.Contains(m, "area") || Text.Contains(m, "location") || Text.Contains(m, "safe zone") then Area
    else Default
  }

  /** The chat widget's own classifier, written as early returns over the same keyword groups. */
  function WidgetIntent(message: string): (r: Intent)
    ensures Text.Contains(Text.ToLower(message), "night") ==> r == Evening
    ensures r == Default ==> !Text.Contains(Text.ToLower(message), "help") && !Text.Contains(Text.ToLower(message), "area")
  {
    var m := Text.ToLower(message);
    var evening := Text.Contains(m, "evening") || Text.Contains(m, "night") || Text.Contains(m, "dark");
    var emergency := Text.Contains(m, "emergency") || Text.Contains(m, "help") || Text.Contains(m, "danger");
    var area := Text.Contains(m, "area") || Text.Contains(m, "location") || Text.Contains(m, "safe zone");
    if evening then Evening else if emergency then Emergency else if area then Area else Default
  }

  /** The widget and the server always agree on the intent. */
  lemma WidgetAgreesWithServer(message: string)
    ensures WidgetIntent(message) == DetectIntent(message)
  {
  }

  /** A message about the night is answered with evening tips even when it also asks for help. */
  lemma NightOutranksHelp(message: string)
    requires Text.Contains(Text.ToLower(message), "night")
    ensures DetectIntent(message) == Evening
  {
  }

  const EveningReply: string := "\U{1F319} Evening Safety Tips:\n\U{2022} Stay on well-lit routes\n\U{2022} Share your location with trusted contacts\n\U{2022} Keep your phone charged\n\U{2022} Trust your instincts\n\U{2022} Use buddy system when possible"
  const EmergencyReply: string := "\U{1F198} Emergency Help:\n\U{2022} Call 911 (or local emergency)\n\U{2022} Share your location with contacts\n\U{2022} Use app's SOS feature\n\U{2022} Stay calm and describe your situation clearly"
  const AreaReply: string := "\U{1F4CD} Current Area Safety:\nCheck the app's map for nearby safe zones and alert areas. Report incidents to help other users stay safe."
  const DefaultReply: string := "Hello! I'm SafeWatch AI. I can help you with safety tips, emergency guidance, and route planning. What would you like to know?"
  const UnavailableReply: string := "I'm having trouble connecting to my brain right now. Please try again in a moment. For immediate help, use the SOS feature."
  const TooSlowReply: string := "The response took too long. For urgent safety concerns, please use the SOS feature or call emergency services."

  /** The canned reply for an intent. */
  function FallbackReply(i: Intent): (r: string)
    ensures 0 < |r| <= MaxReply
  {
    match i
    case Evening => EveningReply
    case Emergency => EmergencyReply
    case Area => AreaReply
    case Default => DefaultReply
  }

  const MaxReply: nat := 500
  const Ellipsis: string := "..."

  /** A reply over 500 characters is cut to its first 500 and marked with "...". */
  function Truncate(reply: string): (r: string)
    ensures |r| <= MaxReply + |Ellipsis|
    ensures |reply| <= MaxReply ==> r == reply
    ensures |reply| > MaxReply ==> |r| == MaxReply + |Ellipsis| && Text.StartsWith(r, reply[..MaxReply]) && Text.EndsWith(r, Ellipsis)
  {
    if |reply| > MaxReply then reply[..MaxReply] + Ellipsis else reply
  }

  /** What the text-generation service answered with. */
  datatype ResponseData =
    | GeneratedList(first: Option<Option<string>>)  // an array: its first element's `generated_text`, if there is an element
    | GeneratedObject(generatedText: Option<string>) // an object with (or without) `generated_text`

  const Marker: string := "Assistant:"

  /** The answer after the first "Assistant:" marker, trimmed; without a marker the text stays as it is. */
  function AfterMarker(text: string): (r: string)
    ensures Text.IndexOf(text, Marker).None? ==> r == text
    ensures Text.IndexOf(text, Marker).Some? ==> r == Text.Trim(text[Text.IndexOf(text, Marker).value + |Marker|..])
  {
    match Text.IndexOf(text, Marker)
    case None => text
    case Some(i) => Text.Trim(text[i + |Marker|..])
  }

  /**
   * The reply taken from a response: the first list element's text after the
   * marker, or the object's text as it is; `None` stands for the `TypeError`
   * thrown when the list's first element has no text.
   */
  function ExtractReply(data: ResponseData): (r: Option<string>)
    ensures data.GeneratedList? && data.first.Some? && data.first.value.None? <==> r.None?
    ensures data.GeneratedObject? ==> r == Some(data.generatedText.GetOr(""))
  {
    match data
    case GeneratedList(first) =>
      (match first
       case None => Some("")
       case Some(None) => None
       case Some(Some(text)) => Some(AfterMarker(text)))
    case GeneratedObject(text) => Some(text.GetOr(""))
  }

  /** How the call to the text-generation service settled. */
  datatype ApiOutcome =
    | Answered(data: ResponseData)
    | ApiFailed(fromHttpClient: bool, status: Option<int>, mentionsTimeout: bool)

  /** The reply to a call that threw: the 503 and timeout messages for HTTP-client errors, else the canned reply. */
  function FailureReply(fromHttpClient: bool, status: Option<int>, mentionsTimeout: bool, i: Intent): (r: string)
    ensures fromHttpClient && status == Some(503) ==> r == UnavailableReply
    ensures fromHttpClient && status != Some(503) && mentionsTimeout ==> r == TooSlowReply
    ensures !fromHttpClient || (status != Some(503) && !mentionsTimeout) ==> r == FallbackReply(i)
  {
    if fromHttpClient && status == Some(503) then UnavailableReply
    else if fromHttpClient && mentionsTimeout then TooSlowReply
    else FallbackReply(i)
  }

  /** The reply to an answered call: extracted, replaced by the canned reply when empty, then truncated. */
  function AnsweredReply(data: ResponseData, i: Intent): (r: string)
    ensures 0 < |r| <= MaxReply + |Ellipsis|
    ensures ExtractReply(data).None? || ExtractReply(data) == Some("") ==> r == FallbackReply(i)
    ensures (ExtractReply(data).Some? && ExtractReply(data).value != "") ==> r == Truncate(ExtractReply(data).value)
  {
    match ExtractReply(data)
    case None => FallbackReply(i)
    case Some(reply) => Truncate(if reply == "" then FallbackReply(i) else reply)
  }

  datatype ChatResponse = BadRequest | TooManyRequests | Reply(text: string)

  /**
   * The POST handler. A missing or blank message is refused before the limiter
   * is consulted; a limited client gets 429; otherwise the canned reply when
   * the service is not configured, or the service's answer.
   */
  function HandleChat(limits: map<string, int>, message: Option<string>, clientId: string, now: int,
                      useApi: bool, api: ApiOutcome): (r: (map<string, int>, ChatResponse))
    ensures message.None? || Text.AllSpace(message.value) ==> r == (limits, BadRequest)
    ensures message.Some? && !Text.AllSpace(message.value) ==>
              (r.1 == TooManyRequests <==> !CheckRateLimit(limits, clientId, now).0) &&
              r.0 == CheckRateLimit(limits, clientId, now).1
    ensures r.1.Reply? && !useApi ==> r.1.text == FallbackReply(DetectIntent(message.value))
    ensures r.1.Reply? && useApi && api.Answered? ==> r.1.text == AnsweredReply(api.data, DetectIntent(message.value))
    ensures r.1.Reply? && useApi && api.ApiFailed? ==>
              r.1.text == FailureReply(api.fromHttpClient, api.status, api.mentionsTimeout, DetectIntent(message.value))
    ensures r.1.Reply? ==> 0 < |r.1.text| <= MaxReply + |Ellipsis|
  {
    match message
    case None => (limits, BadRequest)
    case Some(m) =>
      Text.TrimEmptyIff(m);
      if Text.Trim(m) == "" then (limits, BadRequest)
      else
        var (ok, limits') := CheckRateLimit(limits, clientId, now);
        if !ok then (limits', TooManyRequests)
        else
          (limits', Reply(Answer(DetectIntent(m), useApi, api)))
  }

  /** The reply text: the canned reply when the service is not configured, else the service's answer or the failure reply. */
  function Answer(intent: Intent, useApi: bool, api: ApiOutcome): (r: string)
    ensures !useApi ==> r == FallbackReply(intent)
    ensures useApi && api.Answered? ==> r == AnsweredReply(api.data, intent)
    ensures useApi && api.ApiFailed? ==> r == FailureReply(api.fromHttpClient, api.status, api.mentionsTimeout, intent)
    ensures 0 < |r| <= MaxReply + |Ellipsis|
  {
    if !useApi then FallbackReply(intent)
    else
      match api
      case Answered(data) => AnsweredReply(data, intent)
      case ApiFailed(http, status, timeout) => FailureReply(http, status, timeout, intent)
  }

  /** A blank message does not use up the client's second: a real one sent at the same moment is still accepted. */
  lemma BlankMessageCostsNothing(limits: map<string, int>, blank: string, text: string, id: string, now: int,
                                 useApi: bool, api: ApiOutcome)
    requires Text.AllSpace(blank) && !Text.AllSpace(text)
    requires CheckRateLimit(limits, id, now).0
    ensures var (after, _) := HandleChat(limits, Some(blank), id, now, useApi, api);
            HandleChat(after, Some(text), id, now, useApi, api).1.Reply?
  {
  }

  /** An accepted message whose model call fails with a 503 from the HTTP client gets the unavailable text. */
  lemma UnavailableOn503(limits: map<string, int>, m: string, id: string, now: int, timeout: bool)
    requires !Text.AllSpace(m) && CheckRateLimit(limits, id, now).0
    ensures HandleChat(limits, Some(m), id, now, true, ApiFailed(true, Some(503), timeout)).1 == Reply(UnavailableReply)
  {
  }

  /** An accepted message answered with a non-empty object text gets that text unchanged when it is
      short, and its first 500 characters followed by the ellipsis when it is long. */
  lemma AnswerReachesClient(limits: map<string, int>, m: string, id: string, now: int, text: string)
    requires !Text.AllSpace(m) && CheckRateLimit(limits, id, now).0
    requires 0 < |text|
    ensures var r := HandleChat(limits, Some(m), id, now, true, Answered(GeneratedObject(Some(text)))).1;
            (|text| <= MaxReply ==> r == Reply(text)) &&
            (|text| > MaxReply ==> r == Reply(text[..MaxReply] + Ellipsis))
  {
    var data := GeneratedObject(Some(text));
    assert ExtractReply(data) == Some(text);
    assert AnsweredReply(data, DetectIntent(m)) == Truncate(text);
    assert Text.Trim(m) != "" by { Text.TrimEmptyIff(m); }
  }
}
