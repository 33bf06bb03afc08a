/**
 * The voice-assistant endpoints: the stored voice preferences with their
 * defaults and partial update (volume clamped to 0..1), and the keyword
 * classifier that turns a spoken command into an action.
 */
module VoiceCommands {
  import opened Wrappers
  import Text

  /** A user's voice preferences, as stored. */
  datatype Preferences = Preferences(
    voiceEnabled: bool, wakeWordEnabled: bool, wakeWord: string,
    language: string, volume: real, voiceGender: string)

  /** The schema defaults of a new preferences document. */
  const DefaultPreferences: Preferences := Preferences(true, true, "Hey SafeZone", "en-US", 1.0, "neutral")

  /** The values the schema admits for `voiceGender`. */
  predicate ValidGender(g: string) {
    g == "male" || g == "female" || g == "neutral"
  }

  /** What the schema checks on save: the gender enum and the volume bounds. */
  predicate Valid(p: Preferences) {
    ValidGender(p.voiceGender) && 0.0 <= p.volume <= 1.0
  }

  /** The fields a PUT body may carry; an absent one is `undefined`. */
  datatype PreferenceUpdate = PreferenceUpdate(
    voiceEnabled: Option<bool>, wakeWordEnabled: Option<bool>, wakeWord: Option<string>,
    language: Option<string>, volume: Option<real>, voiceGender: Option<string>)

  /** `Math.max(0, Math.min(1, v))`. */
  function ClampUnit(v: real): (r: real)
    ensures 0.0 <= r <= 1.0
    ensures 0.0 <= v <= 1.0 ==> r == v
    ensures v < 0.0 ==> r == 0.0
    ensures v > 1.0 ==> r == 1.0
  {
    if v > 1.0 then 1.0 else if v < 0.0 then 0.0 else v
  }

  /** A string field is taken only when it is truthy, that is present and non-empty. */
  function Truthy(o: Option<string>, current: string): (r: string)
    ensures o.Some? && o.value != "" ==> r == o.value
    ensures !(o.Some? && o.value != "") ==> r == current
  {
    if o.Some? && o.value != "" then o.value else current
  }

  /**
   * The field assignments of the PUT handler: the flags and the volume when
   * given at all, the strings when given non-empty; the volume clamped.
   */
  function ApplyUpdate(p: Preferences, u: PreferenceUpdate): (r: Preferences)
    ensures r.voiceEnabled == u.voiceEnabled.GetOr(p.voiceEnabled)
    ensures r.wakeWordEnabled == u.wakeWordEnabled.GetOr(p.wakeWordEnabled)
    ensures r.wakeWord == Truthy(u.wakeWord, p.wakeWord)
    ensures r.language == Truthy(u.language, p.language)
    ensures u.volume.Some? ==> r.volume == ClampUnit(u.volume.value)
    ensures u.volume.None? ==> r.volume == p.volume
    ensures r.voiceGender == Truthy(u.voiceGender, p.voiceGender)
  {
    Preferences(
      u.voiceEnabled.GetOr(p.voiceEnabled),
      u.wakeWordEnabled.GetOr(p.wakeWordEnabled),
      Truthy(u.wakeWord, p.wakeWord),
      Truthy(u.language, p.language),
      if u.volume.Some? then ClampUnit(u.volume.value) else p.volume,
      Truthy(u.voiceGender, p.voiceGender))
  }

  /** An empty body changes nothing, and applying the same update twice is the same as applying
      it once. */
  lemma ApplyUpdateLaws(p: Preferences, u: PreferenceUpdate)
    ensures ApplyUpdate(p, PreferenceUpdate(None, None, None, None, None, None)) == p
    ensures ApplyUpdate(ApplyUpdate(p, u), u) == ApplyUpdate(p, u)
  {
  }

  datatype Reply<T> = Unauthorized | BadRequest | ServerError | Success(body: T)

  /** `GET /preferences`: the stored preferences, created with the defaults on first access. */
  function GetPreferences(store: map<string, Preferences>, user: Option<string>): (r: (map<string, Preferences>, Reply<Preferences>))
    ensures user.None? ==> r == (store, Unauthorized)
    ensures user.Some? && user.value in store ==> r == (store, Success(store[user.value]))
    ensures user.Some? && user.value !in store ==> r == (store[user.value := DefaultPreferences], Success(DefaultPreferences))
  {
    match user
    case None => (store, Unauthorized)
    case Some(id) =>
      if id in store then (store, Success(store[id]))
      else (store[id := DefaultPreferences], Success(DefaultPreferences))
  }

  /**
   * `PUT /preferences`: the user's preferences (or the defaults) updated and
   * saved. A gender outside the schema's enum fails the save's validation,
   * which the handler reports as 500 with nothing stored.
   */
  function PutPreferences(store: map<string, Preferences>, user: Option<string>, u: PreferenceUpdate): (r: (map<string, Preferences>, Reply<Preferences>))
    ensures user.None? ==> r == (store, Unauthorized)
    ensures user.Some? ==>
      var updated := ApplyUpdate(if user.value in store then store[user.value] else DefaultPreferences, u);
      (ValidGender(updated.voiceGender) ==> r == (store[user.value := updated], Success(updated))) &&
      (!ValidGender(updated.voiceGender) ==> r == (store, ServerError))
    ensures forall id :: id in store && Valid(store[id]) ==> id in r.0 && (Valid(r.0[id]))
  {
    match user
    case None => (store, Unauthorized)
    case Some(id) =>
      var updated := ApplyUpdate(if id in store then store[id] else DefaultPreferences, u);
      if ValidGender(updated.voiceGender) then (store[id := updated], Success(updated)) else (store, ServerError)
  }

  /** Every stored preference record stays valid: the volume lands in 0..1 whatever the request sent. */
  lemma StoredVolumeAlwaysInRange(store: map<string, Preferences>, user: Option<string>, u: PreferenceUpdate)
    requires forall id :: id in store ==> Valid(store[id])
    ensures forall id :: id in PutPreferences(store, user, u).0 ==> Valid(PutPreferences(store, user, u).0[id])
    ensures forall id :: id in GetPreferences(store, user).0 ==> Valid(GetPreferences(store, user).0[id])
  {
  }

  // ----- Commands -----

  datatype Action = SosTriggered | LocationShare | SafetyTips | OpenRoute | HelpInfo | UnknownCommand

  predicate Mentions(command: string, a: string, b: string, c: string) {
    var m := Text.ToLower(command);
    Text.Contains(m, a) || Text.Contains(m, b) || Text.Contains(m, c)
  }

  /** The command classifier on the lower-cased command, first matching keyword group wins. */
  function Classify(command: string): (a: Action)
    ensures a == SosTriggered <==> Mentions(command, "help", "emergency", "sos")
    ensures a == LocationShare <==> !Mentions(command, "help", "emergency", "sos") && Mentions(command, "location", "where", "track")
    ensures a == SafetyTips <==> !Mentions(command, "help", "emergency", "sos") && !Mentions(command, "location", "where", "track")
                                 && Mentions(command, "tips", "safety", "advice")
    ensures a == OpenRoute <==> !Mentions(command, "help", "emergency", "sos") && !Mentions(command, "location", "where", "track")
                                && !Mentions(command, "tips", "safety", "advice") && Mentions(command, "route", "map", "navigate")
    ensures a == UnknownCommand <==> !Mentions(command, "help", "emergency", "sos") && !Mentions(command, "location", "where", "track")
                                     && !Mentions(command, "tips", "safety", "advice") && !Mentions(command, "route", "map", "navigate")
                                     && !Mentions(command, "help", "what", "can")
  {
    if Mentions(command, "help", "emergency", "sos") then SosTriggered
    else if Mentions(command, "location", "where", "track") then LocationShare
    else if Mentions(command, "tips", "safety", "advice") then SafetyTips
    else if Mentions(command, "route", "map", "navigate") then OpenRoute
    else if Mentions(command, "help", "what", "can") then HelpInfo
    else UnknownCommand
  }

  /** Any command that says "help" raises an SOS; the help information is reached only through "what" or "can". */
  lemma HelpMeansSos(command: string)
    ensures Text.Contains(Text.ToLower(command), "help") ==> Classify(command) == SosTriggered
    ensures Classify(command) == HelpInfo ==>
              !Text.Contains(Text.ToLower(command), "help") &&
              (Text.Contains(Text.ToLower(command), "what") || Text.Contains(Text.ToLower(command), "can"))
  {
  }

  function ResponseText(a: Action): string {
    match a
    case SosTriggered => "Emergency alert has been triggered. Help is on the way."
    case LocationShare => "Your location has been shared with emergency contacts."
    case SafetyTips => "Here are some safety tips: Stay aware of your surroundings, keep your phone charged, and trust your instincts. Never share personal information with strangers."
    case OpenRoute => "Opening your route information and map."
    case HelpInfo => "I am SafeZone AI Voice Assistant. I can help you with emergencies, location sharing, safety tips, and navigation. Say \"Hey SafeZone\" followed by your command."
    case UnknownCommand => "I did not understand that command. You can say: emergency, location, safety tips, or route."
  }

  datatype CommandResult = CommandResult(action: Action, response: string, success: bool, transcript: string)

  /**
   * `POST /command`: 401 without a user, 400 when the command or the
   * transcript is missing or empty, otherwise the classified action, which
   * succeeds unless the command was not understood.
   */
  function ProcessCommand(user: Option<string>, command: Option<string>, transcript: Option<string>): (r: Reply<CommandResult>)
    ensures user.None? <==> r == Unauthorized
    ensures user.Some? ==> (r == BadRequest <==> command.None? || command == Some("") || transcript.None? || transcript == Some(""))
    ensures r.Success? ==> r.body.action == Classify(command.value) && r.body.transcript == transcript.value
    ensures r.Success? ==> (r.body.success <==> r.body.action != UnknownCommand)
    ensures !r.ServerError?
  {
    if user.None? then Unauthorized
    else if command.None? || command == Some("") || transcript.None? || transcript == Some("") then BadRequest
    else
      var a := Classify(command.value);
      Success(CommandResult(a, ResponseText(a), a != UnknownCommand, transcript.value))
  }
}
