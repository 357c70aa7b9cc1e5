/**
 * The chat widget: an append-only transcript seeded with a welcome message,
 * a text turn answered in English, a recorded audio turn answered in
 * Spanish, and the helpers for voice choice and speech recognition.
 * The language model, the microphone, the recorder and the recognizer are
 * oracles: their outcomes are parameters of the operations.
 */
module Chat {
  import opened Options

  // ---------------------------------------------------------------------
  // Messages
  // ---------------------------------------------------------------------

  datatype Sender = User | BotEn | BotEsAudio

  /** `"welcome"`, or `${Date.now()}-<tag>` kept as the clock reading and the tag. */
  datatype MessageId = WelcomeId | Stamped(millis: int, tag: string)

  datatype Message =
    | Text(id: MessageId, sender: Sender, content: string)
    | Audio(id: MessageId, sender: Sender, audioUrl: string, transcript: Option<string>)

  const WelcomeText := "Hi! I'm your A2 English tutor. How can I help today? Vocabulary, grammar, or conversation? \U{1F60A}"
  const WelcomeMessage := Text(WelcomeId, BotEn, WelcomeText)
  const EnglishApology := "Sorry, something went wrong. Please try again."
  const SpanishApology := "Hubo un problema generando la respuesta por voz."
  const NoTranscript := "(sin transcripci\U{F3}n)"
  const MicrophoneError := "\U{274C} No pude acceder al micr\U{F3}fono. Revisa permisos."

  // ---------------------------------------------------------------------
  // String.prototype.trim
  // ---------------------------------------------------------------------

  /** ECMAScript white space and line terminators. */
  predicate IsWhitespace(c: char) {
    || c == ' ' || c == '\t' || c == '\n' || c == '\r' || c == '\U{B}' || c == '\U{C}'
    || c == '\U{A0}' || c == '\U{1680}' || ('\U{2000}' <= c <= '\U{200A}')
    || c == '\U{2028}' || c == '\U{2029}' || c == '\U{202F}' || c == '\U{205F}'
    || c == '\U{3000}' || c == '\U{FEFF}'
  }

  predicate IsBlank(s: string) {
    forall i :: 0 <= i < |s| ==> IsWhitespace(s[i])
  }

  /** The first position at or after `i` that is not white space, or `|s|`. */
  function SkipWhite(s: string, i: nat): (k: nat)
    requires i <= |s|
    ensures i <= k <= |s|
    ensures forall j :: i <= j < k ==> IsWhitespace(s[j])
    ensures k < |s| ==> !IsWhitespace(s[k])
    decreases |s| - i
  {
    if i < |s| && IsWhitespace(s[i]) then SkipWhite(s, i + 1) else i
  }

  /** The end of `s[lo..e]` once its trailing white space is dropped. */
  function SkipWhiteBack(s: string, lo: nat, e: nat): (k: nat)
    requires lo <= e <= |s|
    ensures lo <= k <= e
    ensures forall j :: k <= j < e ==> IsWhitespace(s[j])
    ensures k > lo ==> !IsWhitespace(s[k - 1])
  {
    if e > lo && IsWhitespace(s[e - 1]) then SkipWhiteBack(s, lo, e - 1) else e
  }

  /** `s.trim()`: the text between the leading and the trailing white space. */
  function Trim(s: string): string {
    var a := SkipWhite(s, 0);
    s[a..SkipWhiteBack(s, a, |s|)]
  }

  /**
   * `trim` keeps the middle of the string and drops only white space around
   * it; a non-empty result neither starts nor ends with white space.
   */
  lemma TrimKeepsMiddle(s: string)
    ensures var a := SkipWhite(s, 0);
            var b := SkipWhiteBack(s, a, |s|);
            && 0 <= a <= b <= |s| && Trim(s) == s[a..b]
            && (forall j :: 0 <= j < a ==> IsWhitespace(s[j]))
            && (forall j :: b <= j < |s| ==> IsWhitespace(s[j]))
            && (Trim(s) != [] ==> !IsWhitespace(Trim(s)[0]) && !IsWhitespace(Trim(s)[|Trim(s)| - 1]))
  {
  }

  /** `!s.trim()` holds exactly for strings made only of white space. */
  lemma TrimEmptyIffBlank(s: string)
    ensures Trim(s) == [] <==> IsBlank(s)
  {
  }

  // ---------------------------------------------------------------------
  // Replies of the language model
  // ---------------------------------------------------------------------

  /**
   * `generateENBotResponse`: the model's trimmed text, or the fixed apology
   * when the call throws (`None`).
   */
  function EnglishReply(modelText: Option<string>): (reply: string)
    ensures modelText.None? ==> reply == EnglishApology
    ensures modelText.Some? ==> reply == Trim(modelText.value)
  {
    match modelText
    case Some(t) => Trim(t)
    case None => EnglishApology
  }

  /** `generateESAudioTutorReply`: same shape, with the Spanish apology. */
  function SpanishReply(modelText: Option<string>): (reply: string)
    ensures modelText.None? ==> reply == SpanishApology
    ensures modelText.Some? ==> reply == Trim(modelText.value)
  {
    match modelText
    case Some(t) => Trim(t)
    case None => SpanishApology
  }

  /** A successful reply never starts or ends with white space. */
  lemma ReplyIsTrimmed(t: string)
    ensures var r := EnglishReply(Some(t));
            r != [] ==> !IsWhitespace(r[0]) && !IsWhitespace(r[|r| - 1])
  {
    TrimKeepsMiddle(t);
  }

  // ---------------------------------------------------------------------
  // Speech output
  // ---------------------------------------------------------------------

  /** A `speak` call: the text and the voice settings passed with it. */
  datatype SpeechRequest = SpeechRequest(text: string, lang: string, rate: real, pitch: real, prefs: seq<string>)

  function EnglishSpeech(text: string): SpeechRequest {
    SpeechRequest(text, "en-US", 0.95, 1.08, ["Microsoft Emma", "Google US English", "Microsoft Zira"])
  }

  function SpanishSpeech(text: string): SpeechRequest {
    SpeechRequest(text, "es-ES", 1.0, 1.0, ["Microsoft Helena", "Google espa\U{F1}ol", "Microsoft Laura"])
  }

  datatype Voice = Voice(name: string, lang: string)

  /** `haystack.includes(needle)`. */
  predicate Contains(haystack: string, needle: string)
    decreases |haystack|
  {
    needle <= haystack || (haystack != [] && Contains(haystack[1..], needle))
  }

  /** Lower-casing of the ASCII letters; every other character is kept. */
  function ToLower(s: string): (r: string)
    ensures |r| == |s|
    ensures forall i :: 0 <= i < |s| ==>
              r[i] == if 'A' <= s[i] <= 'Z' then (s[i] as int + 32) as char else s[i]
  {
    if s == [] then []
    else [if 'A' <= s[0] <= 'Z' then (s[0] as int + 32) as char else s[0]] + ToLower(s[1..])
  }

  /** The needle occurs in the haystack starting at position `i`. */
  predicate OccursAt(haystack: string, needle: string, i: int) {
    0 <= i <= |haystack| - |needle| && haystack[i..i + |needle|] == needle
  }

  /** `includes` is an occurrence of the needle at some position of the haystack. */
  lemma ContainsIsIncludes(haystack: string, needle: string)
    ensures Contains(haystack, needle) <==> exists i :: OccursAt(haystack, needle, i)
  {
    if Contains(haystack, needle) {
      var i := ContainsOccurs(haystack, needle);
    }
    if exists i :: OccursAt(haystack, needle, i) {
      var i :| OccursAt(haystack, needle, i);
      OccursContains(haystack, needle, i);
    }
  }

  lemma {:induction false} ContainsOccurs(haystack: string, needle: string) returns (i: int)
    requires Contains(haystack, needle)
    ensures OccursAt(haystack, needle, i)
    decreases |haystack|
  {
    if needle <= haystack {
      i := 0;
      assert haystack[0..|needle|] == haystack[..|needle|];
    } else {
      var t := haystack[1..];
      var j := ContainsOccurs(t, needle);
      i := j + 1;
      assert haystack[i..i + |needle|] == t[j..j + |needle|];
    }
  }

  lemma {:induction false} OccursContains(haystack: string, needle: string, i: int)
    requires OccursAt(haystack, needle, i)
    ensures Contains(haystack, needle)
    decreases i
  {
    if i == 0 {
      assert haystack[..|needle|] == haystack[0..|needle|];
    } else {
      var t := haystack[1..];
      assert t[i - 1..i - 1 + |needle|] == haystack[i..i + |needle|];
      OccursContains(t, needle, i - 1);
    }
  }

  /** The three tests `pickVoice` hands to `voices.find`. */
  datatype Criterion = NameContains(pref: string) | LangIs(lang: string) | NameMentionsFemale

  predicate Matches(v: Voice, c: Criterion) {
    match c
    case NameContains(pref) => Contains(v.name, pref)
    case LangIs(lang) => v.lang == lang
    case NameMentionsFemale => Contains(ToLower(v.name), "female")
  }

  /** `voices.find`: the position of the first voice passing the test. */
  function Find(voices: seq<Voice>, c: Criterion): (r: Option<nat>)
    ensures r.Some? ==> r.value < |voices| && Matches(voices[r.value], c)
    ensures r.Some? ==> forall j :: 0 <= j < r.value ==> !Matches(voices[j], c)
    ensures r.None? ==> forall j :: 0 <= j < |voices| ==> !Matches(voices[j], c)
  {
    if voices == [] then None
    else if Matches(voices[0], c) then Some(0)
    else match Find(voices[1..], c)
      case Some(i) => Some(i + 1)
      case None => None
  }

  /** The voice of the first preference, in order, that some voice name contains. */
  function ByPreference(voices: seq<Voice>, prefs: seq<string>): (v: Option<Voice>)
    ensures v.Some? ==> v.value in voices
  {
    if prefs == [] then None
    else match Find(voices, NameContains(prefs[0]))
      case Some(i) => Some(voices[i])
      case None => ByPreference(voices, prefs[1..])
  }

  /** The whole prioritised choice `pickVoice` makes. */
  function ChosenVoice(voices: seq<Voice>, prefs: seq<string>, langFallback: string): (v: Option<Voice>)
    ensures v.None? <==> voices == []
    ensures v.Some? ==> v.value in voices
  {
    match ByPreference(voices, prefs)
    case Some(v) => Some(v)
    case None =>
      match Find(voices, LangIs(langFallback))
      case Some(i) => Some(voices[i])
      case None =>
        match Find(voices, NameMentionsFemale)
        case Some(i) => Some(voices[i])
        case None => if voices != [] then Some(voices[0]) else None
  }

  /** `pickVoice`: a loop over the preferences, then the three fallbacks. */
  method PickVoice(voices: seq<Voice>, prefs: seq<string>, langFallback: string) returns (v: Option<Voice>)
    ensures v == ChosenVoice(voices, prefs, langFallback)
    ensures v.None? <==> voices == []
    ensures v.Some? ==> v.value in voices
  {
    var k := 0;
    while k < |prefs|
      invariant 0 <= k <= |prefs|
      invariant ByPreference(voices, prefs) == ByPreference(voices, prefs[k..])
    {
      assert prefs[k..][1..] == prefs[k + 1..];
      var hit := Find(voices, NameContains(prefs[k]));
      if hit.Some? {
        return Some(voices[hit.value]);
      }
      k := k + 1;
    }
    var byLang := Find(voices, LangIs(langFallback));
    if byLang.Some? {
      return Some(voices[byLang.value]);
    }
    var female := Find(voices, NameMentionsFemale);
    if female.Some? {
      return Some(voices[female.value]);
    }
    if voices != [] {
      return Some(voices[0]);
    }
    return None;
  }

  /**
   * The earliest preference some voice name contains decides, and among the
   * voices it picks the first one containing it.
   */
  lemma {:induction false} EarliestPreferenceWins(voices: seq<Voice>, prefs: seq<string>, langFallback: string, k: nat, i: nat)
    requires k < |prefs| && i < |voices| && Contains(voices[i].name, prefs[k])
    requires forall j :: 0 <= j < i ==> !Contains(voices[j].name, prefs[k])
    requires forall p, j :: 0 <= p < k && 0 <= j < |voices| ==> !Contains(voices[j].name, prefs[p])
    ensures ChosenVoice(voices, prefs, langFallback) == Some(voices[i])
  {
    ByPreferenceHit(voices, prefs, k, i);
  }

  lemma {:induction false} ByPreferenceHit(voices: seq<Voice>, prefs: seq<string>, k: nat, i: nat)
    requires k < |prefs| && i < |voices| && Contains(voices[i].name, prefs[k])
    requires forall j :: 0 <= j < i ==> !Contains(voices[j].name, prefs[k])
    requires forall p, j :: 0 <= p < k && 0 <= j < |voices| ==> !Contains(voices[j].name, prefs[p])
    ensures ByPreference(voices, prefs) == Some(voices[i])
  {
    if k == 0 {
      assert Matches(voices[i], NameContains(prefs[0]));
    } else {
      ByPreferenceHit(voices, prefs[1..], k - 1, i);
    }
  }

  /**
   * With no preference matching, the first voice in the fallback language
   * wins, else the first "female" voice, else the first voice.
   */
  lemma NoPreferenceFallsBack(voices: seq<Voice>, prefs: seq<string>, langFallback: string)
    requires forall p, j :: 0 <= p < |prefs| && 0 <= j < |voices| ==> !Contains(voices[j].name, prefs[p])
    ensures forall j :: 0 <= j < |voices| && voices[j].lang == langFallback
                        && (forall i :: 0 <= i < j ==> voices[i].lang != langFallback) ==>
              ChosenVoice(voices, prefs, langFallback) == Some(voices[j])
    ensures forall j :: 0 <= j < |voices| && (forall i :: 0 <= i < |voices| ==> voices[i].lang != langFallback)
                        && Contains(ToLower(voices[j].name), "female")
                        && (forall i :: 0 <= i < j ==> !Contains(ToLower(voices[i].name), "female")) ==>
              ChosenVoice(voices, prefs, langFallback) == Some(voices[j])
    ensures voices != []
            && (forall i :: 0 <= i < |voices| ==> voices[i].lang != langFallback)
            && (forall i :: 0 <= i < |voices| ==> !Contains(ToLower(voices[i].name), "female")) ==>
              ChosenVoice(voices, prefs, langFallback) == Some(voices[0])
  {
    forall j | 0 <= j < |voices| && voices[j].lang == langFallback
               && (forall i :: 0 <= i < j ==> voices[i].lang != langFallback)
      ensures ChosenVoice(voices, prefs, langFallback) == Some(voices[j])
    {
      LanguageFallback(voices, prefs, langFallback, j);
    }
    forall j | 0 <= j < |voices| && (forall i :: 0 <= i < |voices| ==> voices[i].lang != langFallback)
               && Contains(ToLower(voices[j].name), "female")
               && (forall i :: 0 <= i < j ==> !Contains(ToLower(voices[i].name), "female"))
      ensures ChosenVoice(voices, prefs, langFallback) == Some(voices[j])
    {
      FemaleFallback(voices, prefs, langFallback, j);
    }
    NoPreferenceMisses(voices, prefs);
  }

  lemma LanguageFallback(voices: seq<Voice>, prefs: seq<string>, langFallback: string, j: nat)
    requires forall p, i :: 0 <= p < |prefs| && 0 <= i < |voices| ==> !Contains(voices[i].name, prefs[p])
    requires j < |voices| && voices[j].lang == langFallback
    requires forall i :: 0 <= i < j ==> voices[i].lang != langFallback
    ensures ChosenVoice(voices, prefs, langFallback) == Some(voices[j])
  {
    NoPreferenceMisses(voices, prefs);
    assert Matches(voices[j], LangIs(langFallback));
  }

  lemma FemaleFallback(voices: seq<Voice>, prefs: seq<string>, langFallback: string, j: nat)
    requires forall p, i :: 0 <= p < |prefs| && 0 <= i < |voices| ==> !Contains(voices[i].name, prefs[p])
    requires forall i :: 0 <= i < |voices| ==> voices[i].lang != langFallback
    requires j < |voices| && Contains(ToLower(voices[j].name), "female")
    requires forall i :: 0 <= i < j ==> !Contains(ToLower(voices[i].name), "female")
    ensures ChosenVoice(voices, prefs, langFallback) == Some(voices[j])
  {
    NoPreferenceMisses(voices, prefs);
    assert Find(voices, LangIs(langFallback)).None?;
    assert Matches(voices[j], NameMentionsFemale);
  }

  lemma {:induction false} NoPreferenceMisses(voices: seq<Voice>, prefs: seq<string>)
    requires forall p, j :: 0 <= p < |prefs| && 0 <= j < |voices| ==> !Contains(voices[j].name, prefs[p])
    ensures ByPreference(voices, prefs) == None
  {
    if prefs != [] {
      NoPreferenceMisses(voices, prefs[1..]);
    }
  }

  // ---------------------------------------------------------------------
  // Speech recognition
  // ---------------------------------------------------------------------

  /** The callbacks a recognition session may fire; results are lists of alternatives. */
  datatype RecognitionEvent = ResultEvent(results: seq<seq<string>>) | ErrorEvent | EndEvent

  /**
   * How `transcribeWithWebSpeech` meets the browser: no recognizer at all,
   * a constructor or `start()` that throws, or a session firing events.
   */
  datatype RecognizerRun = NoRecognizer | StartThrows | Session(events: seq<RecognitionEvent>)

  /** `onresult`: the first alternative of the first result, when both exist. */
  function FirstAlternative(results: seq<seq<string>>): (t: Option<string>)
    ensures t.Some? <==> |results| > 0 && |results[0]| > 0
    ensures t.Some? ==> t.value == results[0][0]
  {
    if |results| > 0 && |results[0]| > 0 then Some(results[0][0]) else None
  }

  /** The value one event would settle the promise with. */
  function EventTranscript(e: RecognitionEvent): Option<string> {
    match e
    case ResultEvent(rs) => FirstAlternative(rs)
    case _ => None
  }

  /**
   * `transcribeWithWebSpeech`: the callbacks run in order; `onresult` marks
   * the session finished, `onerror` and `onend` settle with no transcript
   * unless finished, and the promise keeps the first value it settles with.
   * `settled` is false when no event ever fires.
   */
  method Transcribe(run: RecognizerRun) returns (settled: bool, transcript: Option<string>)
    ensures run.NoRecognizer? || run.StartThrows? ==> settled && transcript == None
    ensures run.Session? ==> settled == (run.events != [])
    ensures run.Session? && settled ==> transcript == EventTranscript(run.events[0])
  {
    match run {
      case NoRecognizer =>
        return true, None;
      case StartThrows =>
        return true, None;
      case Session(events) =>
        var finished := false;
        settled, transcript := false, None;
        var k := 0;
        while k < |events|
          invariant 0 <= k <= |events|
          invariant settled == (k > 0)
          invariant settled ==> transcript == EventTranscript(events[0])
          invariant finished ==> settled
        {
          match events[k] {
            case ResultEvent(rs) =>
              finished := true;
              if !settled {
                settled, transcript := true, FirstAlternative(rs);
              }
            case ErrorEvent =>
              if !finished && !settled {
                settled, transcript := true, None;
              }
            case EndEvent =>
              if !finished && !settled {
                settled, transcript := true, None;
              }
          }
          k := k + 1;
        }
    }
  }

  // ---------------------------------------------------------------------
  // Quick suggestions
  // ---------------------------------------------------------------------

  const QuickActions := ["vocabulary", "grammar", "pronunciation", "question"]

  const VocabularyDraft := "Let's practice A2 vocabulary about daily routines."
  const GrammarDraft := "Can you help me with present simple vs. present continuous?"
  const PronunciationDraft := "I want to practice pronunciation with short sentences."
  const QuestionDraft := "I have a question about English prepositions."

  function Suggestions(): map<string, string> {
    map["vocabulary" := VocabularyDraft, "grammar" := GrammarDraft,
        "pronunciation" := PronunciationDraft, "question" := QuestionDraft]
  }

  /** `suggestions[action] ?? ""`. */
  function SuggestionFor(action: string): (draft: string)
    ensures action in Suggestions() ==> draft == Suggestions()[action]
    ensures action !in Suggestions() ==> draft == ""
  {
    if action in Suggestions() then Suggestions()[action] else ""
  }

  /** Every quick-suggestion button fills the draft with text a send accepts. */
  lemma SuggestionsAreSendable()
    ensures forall a :: a in QuickActions ==> !IsBlank(SuggestionFor(a))
  {
    forall a | a in QuickActions ensures !IsBlank(SuggestionFor(a)) {
      var d := SuggestionFor(a);
      if a == "vocabulary" {
        assert d == VocabularyDraft;
      } else if a == "grammar" {
        assert d == GrammarDraft;
      } else if a == "pronunciation" {
        assert d == PronunciationDraft;
      } else {
        assert d == QuestionDraft;
      }
      assert !IsWhitespace(d[|d| - 1]);
    }
  }

  // ---------------------------------------------------------------------
  // The session
  // ---------------------------------------------------------------------

  /** A recorded `BlobPart`; only its size matters here. */
  datatype Chunk = Chunk(size: nat)

  /** How the attempt to start recording ends. */
  datatype MicrophoneOutcome =
    | Denied          // getUserMedia or the MediaRecorder constructor throws
    | RecorderFails   // the recorder exists but start() throws
    | Recording       // the recorder runs

  /**
   * The widget's state: the transcript, the input draft, the recording flag,
   * whether the recorder reference is set, and the chunk buffer.
   */
  class ChatSession {
    var messages: seq<Message>
    var inputMessage: string
    var isRecording: bool
    var hasRecorder: bool
    var chunks: seq<Chunk>

    /** The transcript opens with the welcome message; the buffer holds only non-empty chunks. */
    ghost predicate Valid()
      reads this
    {
      && |messages| >= 1 && messages[0] == WelcomeMessage
      && forall i :: 0 <= i < |chunks| ==> chunks[i].size > 0
    }

    constructor ()
      ensures Valid()
      ensures messages == [WelcomeMessage] && inputMessage == ""
      ensures !isRecording && !hasRecorder && chunks == []
    {
      messages := [WelcomeMessage];
      inputMessage := "";
      isRecording := false;
      hasRecorder := false;
      chunks := [];
    }

    /** The input field's `onChange`. */
    method SetInput(text: string)
      modifies this`inputMessage
      ensures inputMessage == text
    {
      inputMessage := text;
    }

    /** `handleQuickSuggestion`: fills the draft, sends nothing. */
    method HandleQuickSuggestion(action: string)
      modifies this`inputMessage
      ensures inputMessage == SuggestionFor(action)
    {
      inputMessage := SuggestionFor(action);
    }

    /**
     * `handleSendMessage`.  A blank draft changes nothing.  Otherwise the
     * untrimmed draft is appended as a user message, the draft is cleared,
     * the model is asked with that text, and exactly one English reply is
     * appended and spoken.  `userStamp` and `replyStamp` are the clock
     * readings taken for the two ids; `tutor` is the model (`None`: it threw).
     */
    method HandleSendMessage(userStamp: int, replyStamp: int, tutor: string -> Option<string>)
      returns (spoken: Option<SpeechRequest>)
      requires Valid()
      modifies this`messages, this`inputMessage
      ensures Valid()
      ensures Trim(old(inputMessage)) == "" ==>
        messages == old(messages) && inputMessage == old(inputMessage) && spoken == None
      ensures Trim(old(inputMessage)) != "" ==>
        var reply := EnglishReply(tutor(old(inputMessage)));
        && messages == old(messages) + [Text(Stamped(userStamp, "-u"), User, old(inputMessage)),
                                        Text(Stamped(replyStamp, "-ben"), BotEn, reply)]
        && inputMessage == ""
        && spoken == Some(EnglishSpeech(reply))
    {
      if Trim(inputMessage) == "" {
        return None;
      }
      var userMsg := Text(Stamped(userStamp, "-u"), User, inputMessage);
      var reply := EnglishReply(tutor(inputMessage));
      var botMsg := Text(Stamped(replyStamp, "-ben"), BotEn, reply);
      messages := messages + [userMsg, botMsg];
      inputMessage := "";
      spoken := Some(EnglishSpeech(reply));
    }

    /**
     * `handleAudioButton`.  While recording it stops the recorder (whose
     * `onstop` fires later, see `OnRecorderStop`), clears the flag and appends
     * nothing.  Otherwise it tries to start a recording: a failure appends one
     * microphone error message and leaves the flag down.
     */
    method HandleAudioButton(errorStamp: int, mic: MicrophoneOutcome) returns (stopRequested: bool)
      requires Valid()
      modifies this`isRecording, this`hasRecorder, this`chunks, this`messages
      ensures Valid()
      ensures old(isRecording) ==>
        && stopRequested == old(hasRecorder) && !isRecording
        && messages == old(messages) && chunks == old(chunks) && hasRecorder == old(hasRecorder)
      ensures !old(isRecording) ==> !stopRequested
      ensures !old(isRecording) && mic.Recording? ==>
        && isRecording && hasRecorder && chunks == [] && messages == old(messages)
      ensures !old(isRecording) && !mic.Recording? ==>
        && messages == old(messages) + [Text(Stamped(errorStamp, "-errmic"), BotEsAudio, MicrophoneError)]
        && isRecording == old(isRecording) && hasRecorder == old(hasRecorder)
        && chunks == (if mic.RecorderFails? then [] else old(chunks))
    {
      if isRecording {
        stopRequested := hasRecorder;
        isRecording := false;
        return;
      }
      stopRequested := false;
      if mic.Denied? {
        messages := messages + [Text(Stamped(errorStamp, "-errmic"), BotEsAudio, MicrophoneError)];
        return;
      }
      chunks := [];
      if mic.RecorderFails? {
        messages := messages + [Text(Stamped(errorStamp, "-errmic"), BotEsAudio, MicrophoneError)];
        return;
      }
      hasRecorder := true;
      isRecording := true;
    }

    /** The recorder's `ondataavailable`: only non-empty data is buffered. */
    method OnDataAvailable(data: Option<Chunk>)
      requires Valid()
      modifies this`chunks
      ensures Valid()
      ensures chunks == if data.Some? && data.value.size > 0 then old(chunks) + [data.value] else old(chunks)
    {
      if data.Some? && data.value.size > 0 {
        chunks := chunks + [data.value];
      }
    }

    /**
     * The recorder's `onstop`: the recording (made into the object URL
     * `audioUrl`) is appended as a user audio message; then, once the
     * recognizer settles, exactly one Spanish reply is appended and spoken,
     * asked with the transcript or "(sin transcripción)".  If the
     * recognizer never settles, only the audio message is added.
     */
    method OnRecorderStop(audioStamp: int, audioUrl: string, recognizer: RecognizerRun,
                          replyStamp: int, tutor: string -> Option<string>)
      returns (spoken: Option<SpeechRequest>)
      requires Valid()
      modifies this`messages
      ensures Valid()
      ensures var audio := Audio(Stamped(audioStamp, "-ua"), User, audioUrl, None);
        if recognizer.Session? && recognizer.events == [] then
          messages == old(messages) + [audio] && spoken == None
        else
          var heard := if recognizer.Session? then EventTranscript(recognizer.events[0]) else None;
          var reply := SpanishReply(tutor(heard.GetOr(NoTranscript)));
          && messages == old(messages) + [audio, Text(Stamped(replyStamp, "-bes"), BotEsAudio, reply)]
          && spoken == Some(SpanishSpeech(reply))
    {
      var audioMsg := Audio(Stamped(audioStamp, "-ua"), User, audioUrl, None);
      messages := messages + [audioMsg];
      var settled, transcript := Transcribe(recognizer);
      if !settled {
        return None;
      }
      var replyText := SpanishReply(tutor(transcript.GetOr(NoTranscript)));
      var botTextMsg := Text(Stamped(replyStamp, "-bes"), BotEsAudio, replyText);
      messages := messages + [botTextMsg];
      spoken := Some(SpanishSpeech(replyText));
    }
  }
}
