/**
 * The voice SOS listener: the keyword list (always stored lower-case), the
 * fuzzy comparison that tolerates recognition errors, the scan of a final
 * transcript for the first keyword that matches, and the start/status
 * gate. The speech recogniser itself is replaced by its results and events.
 */
module VoiceSos {
  import opened Wrappers
  import Text

  const DefaultKeywords: seq<string> := ["help me", "emergency", "help", "code red", "mayday"]

  /** The listener's state: whether the browser has a recogniser, whether it is listening, the keywords. */
  datatype Service = Service(supported: bool, listening: bool, keywords: seq<string>, language: string)

  /** The options a caller may give; an absent one keeps the current setting. */
  datatype Options = Options(keywords: Option<seq<string>>, language: Option<string>)

  predicate AllLower(ks: seq<string>) {
    forall k :: 0 <= k < |ks| ==> Text.IsLower(ks[k])
  }

  /** `keywords.map(k => k.toLowerCase())`. */
  function LowerAll(ks: seq<string>): (r: seq<string>)
    ensures |r| == |ks| && AllLower(r)
    ensures forall k :: 0 <= k < |ks| ==> r[k] == Text.ToLower(ks[k])
  {
    seq(|ks|, k requires 0 <= k < |ks| => Text.ToLower(ks[k]))
  }

  /** Lower-casing a lower-case list changes nothing. */
  lemma LowerAllIdempotent(ks: seq<string>)
    requires AllLower(ks)
    ensures LowerAll(ks) == ks
  {
    forall k | 0 <= k < |ks| ensures LowerAll(ks)[k] == ks[k] {
      Text.ToLowerOfLower(ks[k]);
    }
  }

  /**
   * `configure`: a non-empty keyword list replaces the current one, lower-cased;
   * an absent or empty list keeps it. A given non-empty language replaces the
   * current one; an empty string is falsy and keeps it.
   */
  function Configure(s: Service, o: Options): (r: Service)
    ensures AllLower(s.keywords) ==> AllLower(r.keywords)
    ensures o.keywords.Some? && |o.keywords.value| > 0 ==> r.keywords == LowerAll(o.keywords.value)
    ensures !(o.keywords.Some? && |o.keywords.value| > 0) ==> r.keywords == s.keywords
    ensures o.language.Some? && o.language.value != "" ==> r.language == o.language.value
    ensures !(o.language.Some? && o.language.value != "") ==> r.language == s.language
    ensures r.supported == s.supported && r.listening == s.listening
  {
    var ks := if o.keywords.Some? && |o.keywords.value| > 0 then LowerAll(o.keywords.value) else s.keywords;
    var lang := if o.language.Some? && o.language.value != "" then o.language.value else s.language;
    s.(keywords := ks, language := lang)
  }

  /** The constructor: without a recogniser nothing is configured. */
  function Create(supported: bool, o: Options): (r: Service)
    ensures AllLower(r.keywords) && !r.listening && r.supported == supported
    ensures !supported ==> r.keywords == DefaultKeywords
  {
    var initial := Service(supported, false, DefaultKeywords, "en-US");
    assert AllLower(DefaultKeywords);
    if supported then Configure(initial, o) else initial
  }

  /** `setKeywords`: the list replaced, lower-cased. */
  function SetKeywords(s: Service, ks: seq<string>): (r: Service)
    ensures AllLower(r.keywords) && |r.keywords| == |ks|
    ensures forall k :: 0 <= k < |ks| ==> Text.ToLower(r.keywords[k]) == Text.ToLower(ks[k])
    ensures r.supported == s.supported && r.listening == s.listening && r.language == s.language
  {
    var r := s.(keywords := LowerAll(ks));
    forall k | 0 <= k < |ks| ensures Text.ToLower(r.keywords[k]) == Text.ToLower(ks[k]) {
      Text.ToLowerOfLower(r.keywords[k]);
    }
    r
  }

  // ----- Fuzzy comparison -----

  /** The number of positions, below the shorter length, where the two strings agree. */
  function MatchCount(a: string, b: string): (r: nat)
    ensures r <= |a| && r <= |b|
    decreases |a|
  {
    if |a| == 0 || |b| == 0 then 0
    else (if a[0] == b[0] then 1 else 0) + MatchCount(a[1..], b[1..])
  }

  function Abs(x: int): nat {
    if x < 0 then -x else x
  }

  function Max(a: nat, b: nat): nat {
    if a < b then b else a
  }

  /**
   * `fuzzyMatch`: equal once lower-cased; otherwise lengths at most 2 apart and
   * at least 85% of the longer length matching position by position. The
   * ratio test `matches / maxLen >= 0.85` is exactly `20 * matches >= 17 * maxLen`:
   * a ratio below 17/20 is below it by at least 1/(20 * maxLen), far more than
   * the rounding of a double.
   */
  function FuzzyMatch(t1: string, t2: string): (r: bool)
    ensures Text.ToLower(t1) == Text.ToLower(t2) ==> r
    ensures Abs(|t1| - |t2|) > 2 ==> !r
  {
    var a := Text.ToLower(t1);
    var b := Text.ToLower(t2);
    if a == b then true
    else if Abs(|a| - |b|) > 2 then false
    else 20 * MatchCount(a, b) >= 17 * Max(|a|, |b|)
  }

  lemma {:induction false} MatchCountSymmetric(a: string, b: string)
    ensures MatchCount(a, b) == MatchCount(b, a)
    decreases |a|
  {
    if |a| > 0 && |b| > 0 {
      MatchCountSymmetric(a[1..], b[1..]);
    }
  }

  /** The comparison does not care which string is the keyword. */
  lemma FuzzySymmetric(t1: string, t2: string)
    ensures FuzzyMatch(t1, t2) == FuzzyMatch(t2, t1)
  {
    MatchCountSymmetric(Text.ToLower(t1), Text.ToLower(t2));
  }

  /** Two different strings of the same length disagree somewhere. */
  lemma {:induction false} MatchCountBelowLength(a: string, b: string)
    requires |a| == |b| && a != b
    ensures MatchCount(a, b) < |a|
    decreases |a|
  {
    if a[0] == b[0] {
      assert a == [a[0]] + a[1..] && b == [b[0]] + b[1..];
      MatchCountBelowLength(a[1..], b[1..]);
    }
  }

  /** A string agrees with itself with one character replaced everywhere but there. */
  lemma {:induction false} MatchCountOneChange(b: string, i: nat, c: char)
    requires i < |b| && c != b[i]
    ensures MatchCount(b[i := c], b) == |b| - 1
    decreases |b|
  {
    var a := b[i := c];
    if i > 0 {
      assert a[1..] == b[1..][i - 1 := c];
      MatchCountOneChange(b[1..], i - 1, c);
    } else {
      assert a[1..] == b[1..];
      MatchCountSelf(b[1..]);
    }
  }

  lemma {:induction false} MatchCountSelf(a: string)
    ensures MatchCount(a, a) == |a|
    decreases |a|
  {
    if |a| > 0 {
      MatchCountSelf(a[1..]);
    }
  }

  /** One misrecognised character is tolerated in a lower-case phrase of at least 7 characters. */
  lemma OneSlipToleratedFromSeven(b: string, i: nat, c: char)
    requires Text.IsLower(b) && i < |b| && Text.LowerChar(c) == c
    requires |b| >= 7
    ensures FuzzyMatch(b[i := c], b)
  {
    var a := b[i := c];
    Text.ToLowerOfLower(b);
    Text.ToLowerOfLower(a);
    if c != b[i] {
      MatchCountOneChange(b, i, c);
    }
  }

  /** Below 7 characters, a lower-case phrase must be exact: any other string of its length is refused. */
  lemma ShortPhrasesMustBeExact(a: string, b: string)
    requires Text.IsLower(a) && Text.IsLower(b)
    requires |a| == |b| <= 6 && a != b
    ensures !FuzzyMatch(a, b)
  {
    Text.ToLowerOfLower(a);
    Text.ToLowerOfLower(b);
    MatchCountBelowLength(a, b);
  }

  // ----- Keyword scan -----

  /** The words of `keyword`, as `keyword.split(/\s+/)` gives them. */
  function KeywordWidth(keyword: string): nat {
    |Text.Split(keyword)|
  }

  /** The window of the transcript's words at `i` as wide as the keyword, joined by spaces. */
  function Phrase(words: seq<string>, keyword: string, i: nat): string
    requires i + KeywordWidth(keyword) <= |words|
  {
    Text.Join(words[i..i + KeywordWidth(keyword)], " ")
  }

  /** The window at `i` fits in the transcript and matches the keyword, exactly or fuzzily. */
  predicate WindowMatches(words: seq<string>, keyword: string, i: nat) {
    && i + KeywordWidth(keyword) <= |words|
    && (Phrase(words, keyword, i) == keyword || FuzzyMatch(Phrase(words, keyword, i), keyword))
  }

  /** The keyword matches some window of the transcript. */
  predicate Fires(words: seq<string>, keyword: string) {
    exists i: nat :: i <= |words| && WindowMatches(words, keyword, i)
  }

  /** The inner loop: the first window from `i` on that matches. */
  function ScanWindows(words: seq<string>, keyword: string, i: nat): (r: Option<nat>)
    ensures r.Some? ==> i <= r.value && WindowMatches(words, keyword, r.value)
    ensures r.Some? ==> forall j: nat :: i <= j < r.value ==> !WindowMatches(words, keyword, j)
    ensures r.None? ==> forall j: nat :: i <= j ==> !WindowMatches(words, keyword, j)
    decreases |words| - i
  {
    if i + KeywordWidth(keyword) > |words| then None
    else if WindowMatches(words, keyword, i) then Some(i)
    else ScanWindows(words, keyword, i + 1)
  }

  /** The scan from the first window finds a match exactly when the keyword fires. */
  lemma FiresIffFound(words: seq<string>, keyword: string)
    ensures Fires(words, keyword) <==> ScanWindows(words, keyword, 0).Some?
  {
    if ScanWindows(words, keyword, 0).Some? {
      assert WindowMatches(words, keyword, ScanWindows(words, keyword, 0).value);
    }
  }

  /** The outer loop: the index of the first keyword, in list order, that matches some window. */
  function FirstFiring(words: seq<string>, keywords: seq<string>): (r: Option<nat>)
    ensures r.Some? ==> r.value < |keywords| && Fires(words, keywords[r.value])
    ensures r.Some? ==> forall k :: 0 <= k < r.value ==> !Fires(words, keywords[k])
    ensures r.None? ==> forall k :: 0 <= k < |keywords| ==> !Fires(words, keywords[k])
  {
    if |keywords| == 0 then None
    else if ScanWindows(words, keywords[0], 0).Some? then FiresIffFound(words, keywords[0]); Some(0)
    else
      FiresIffFound(words, keywords[0]);
      assert !Fires(words, keywords[0]);
      var rest := FirstFiring(words, keywords[1..]);
      var bound := if rest.Some? then rest.value + 1 else |keywords|;
      assert forall j :: 0 <= j < bound ==> !Fires(words, keywords[j]) by {
        forall j | 0 <= j < bound
          ensures !Fires(words, keywords[j])
        {
          if j > 0 { assert keywords[j] == keywords[1..][j - 1]; }
        }
      }
      match rest
      case None => None
      case Some(k) =>
        assert keywords[k + 1] == keywords[1..][k];
        Some(k + 1)
  }

  /**
   * `checkForKeywords`: the keyword `onMatch` is called with, if any. It is
   * called at most once, with the first keyword in list order that matches a
   * window of the transcript's words.
   */
  function CheckForKeywords(transcript: string, keywords: seq<string>): (r: Option<string>)
    ensures r.None? <==> forall k :: 0 <= k < |keywords| ==> !Fires(Text.Words(transcript), keywords[k])
    ensures r.Some? ==> exists k :: 0 <= k < |keywords| && r.value == keywords[k] && Fires(Text.Words(transcript), keywords[k])
                          && forall j :: 0 <= j < k ==> !Fires(Text.Words(transcript), keywords[j])
  {
    match FirstFiring(Text.Words(transcript), keywords)
    case None => None
    case Some(k) => Some(keywords[k])
  }

  /** A keyword spoken word for word, as consecutive words of the transcript, triggers a match. */
  lemma VerbatimKeywordFires(transcript: string, keywords: seq<string>, k: nat, ws: seq<string>, i: nat)
    requires k < |keywords| && |ws| > 0
    requires forall m :: 0 <= m < |ws| ==> |ws[m]| > 0 && Text.NoSpace(ws[m])
    requires keywords[k] == Text.Join(ws, " ")
    requires i + |ws| <= |Text.Words(transcript)| && Text.Words(transcript)[i..i + |ws|] == ws
    ensures CheckForKeywords(transcript, keywords).Some?
  {
    var words := Text.Words(transcript);
    VerbatimWindow(words, keywords[k], ws, i);
    assert Fires(words, keywords[k]);
  }

  /** The window holding the keyword's words matches it exactly. */
  lemma VerbatimWindow(words: seq<string>, keyword: string, ws: seq<string>, i: nat)
    requires |ws| > 0
    requires forall m :: 0 <= m < |ws| ==> |ws[m]| > 0 && Text.NoSpace(ws[m])
    requires keyword == Text.Join(ws, " ")
    requires i + |ws| <= |words| && words[i..i + |ws|] == ws
    ensures WindowMatches(words, keyword, i)
  {
    assert KeywordWidth(keyword) == |ws| by {
      Text.SplitJoin(ws);
    }
    assert words[i..i + KeywordWidth(keyword)] == ws;
    assert Phrase(words, keyword, i) == keyword;
  }

  /** One recognition result: its top transcript and whether it is final. */
  datatype SpeechResult = SpeechResult(transcript: string, isFinal: bool)

  /** The final transcripts, lower-cased, each followed by a space. */
  function FinalTranscript(results: seq<SpeechResult>): (r: string)
    ensures (forall k :: 0 <= k < |results| ==> !results[k].isFinal) <==> r == ""
  {
    if |results| == 0 then ""
    else (if results[0].isFinal then Text.ToLower(results[0].transcript) + " " else "") + FinalTranscript(results[1..])
  }

  /** The `onresult` handler: keywords are searched only when some result is final. */
  function OnResult(s: Service, results: seq<SpeechResult>): (r: Option<string>)
    ensures (forall k :: 0 <= k < |results| ==> !results[k].isFinal) ==> r.None?
    ensures (exists k :: 0 <= k < |results| && results[k].isFinal) ==> r == CheckForKeywords(FinalTranscript(results), s.keywords)
    ensures r.Some? ==> r.value in s.keywords
  {
    var final := FinalTranscript(results);
    if final != "" then CheckForKeywords(final, s.keywords) else None
  }

  /**
   * Interim results add nothing to the final transcript, so whether a keyword fires depends
   * only on the final results: a trailing interim result changes nothing.
   */
  lemma {:induction false} InterimAddsNothing(s: Service, results: seq<SpeechResult>, interim: SpeechResult)
    requires !interim.isFinal
    ensures FinalTranscript(results + [interim]) == FinalTranscript(results)
    ensures OnResult(s, results + [interim]) == OnResult(s, results)
  {
    if |results| == 0 {
      assert FinalTranscript([interim]) == "" + FinalTranscript([]);
    } else {
      assert (results + [interim])[1..] == results[1..] + [interim];
      InterimAddsNothing(s, results[1..], interim);
    }
  }

  // ----- Start and status -----

  /**
   * `start`: false without a recogniser; true, without asking the recogniser
   * again, while listening; otherwise true unless the recogniser's `start`
   * throws. Listening itself begins only with the recogniser's start event.
   */
  function Start(s: Service, startThrows: bool): (ok: bool)
    ensures !s.supported ==> !ok
    ensures s.supported && s.listening ==> ok
    ensures s.supported && !s.listening ==> (ok <==> !startThrows)
  {
    if !s.supported then false
    else if s.listening then true
    else !startThrows
  }

  /** The recogniser's start and end events, and `abort`. */
  function OnStartEvent(s: Service): (r: Service)
    ensures r.listening && r.keywords == s.keywords
  {
    s.(listening := true)
  }

  function OnEndEvent(s: Service): (r: Service)
    ensures !r.listening && r.keywords == s.keywords
  {
    s.(listening := false)
  }

  datatype Status = Idle | Listening | Error

  /** `getStatus`. */
  function GetStatus(s: Service): (st: Status)
    ensures st == Error <==> !s.supported
    ensures st == Listening <==> s.supported && s.listening
    ensures st == Idle <==> s.supported && !s.listening
  {
    if !s.supported then Error else if s.listening then Listening else Idle
  }

  /**
   * A start while listening succeeds whatever the recogniser would do; after the start event
   * a supported listener reports listening and a second start is a no-op success.
   */
  lemma StartWhileListening(s: Service, t1: bool, t2: bool)
    requires s.supported
    ensures s.listening ==> Start(s, t1) == Start(s, t2) == true
    ensures GetStatus(OnStartEvent(s)) == Listening && Start(OnStartEvent(s), t1)
  {
  }
}
