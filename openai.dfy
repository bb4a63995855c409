/**
 * The local decisions of `lib/services/openai.ts`: the key guard and the
 * upload filename of `transcribeAudio`, and the fallbacks that
 * `generateEventFromPrompt` and `generateEventOptions` return when the
 * chat completion fails. The requests themselves are parameters.
 */
module OpenAi {
  import opened Wrappers
  import opened JsStrings
  import opened Query

  /** What a function of this service does: returns a value or throws an `Error` with a message. */
  datatype Outcome<T> = Returned(value: T) | Threw(message: string)

  // ---------------------------------------------------------------- transcribeAudio

  const NoKey: string := "OpenAI API key not configured"

  /** The prefix of every message `transcribeAudio` rethrows. */
  const TranscriptionFailed: string := "Audio transcription failed: "

  /** The message thrown for a response that is not ok, before its status. */
  const WhisperFailed: string := "Whisper API request failed: "

  const DefaultFilename: string := "audio.webm"

  /** The names the upload can take, all of formats the transcription endpoint accepts. */
  predicate KnownFilename(f: string) {
    f == "audio.m4a" || f == "audio.mp3" || f == "audio.wav" || f == "audio.mpeg" || f == DefaultFilename
  }

  /** The upload's filename for a blob's MIME type: the first of the tests that matches, in order. */
  function FilenameFor(audioType: string): (f: string)
    ensures KnownFilename(f)
    ensures f == "audio.m4a" <==> Includes(audioType, "mp4") || Includes(audioType, "m4a")
    ensures f == "audio.mp3" <==> !Includes(audioType, "mp4") && !Includes(audioType, "m4a") && Includes(audioType, "mp3")
    ensures f == DefaultFilename <==>
      !Includes(audioType, "mp4") && !Includes(audioType, "m4a") && !Includes(audioType, "mp3")
      && !Includes(audioType, "wav") && !Includes(audioType, "mpeg")
  {
    if Includes(audioType, "mp4") || Includes(audioType, "m4a") then "audio.m4a"
    else if Includes(audioType, "mp3") then "audio.mp3"
    else if Includes(audioType, "wav") then "audio.wav"
    else if Includes(audioType, "mpeg") then "audio.mpeg"
    else DefaultFilename
  }

  /** The `filename` variable of `transcribeAudio`, reassigned through its if-chain. */
  method AudioFilename(audioType: string) returns (filename: string)
    ensures filename == FilenameFor(audioType)
  {
    filename := DefaultFilename;
    if Includes(audioType, "mp4") || Includes(audioType, "m4a") {
      filename := "audio.m4a";
    } else if Includes(audioType, "mp3") {
      filename := "audio.mp3";
    } else if Includes(audioType, "wav") {
      filename := "audio.wav";
    } else if Includes(audioType, "mpeg") {
      filename := "audio.mpeg";
    }
  }

  /** An MP4 type is uploaded as `audio.m4a`. */
  lemma Mp4IsM4a()
    ensures FilenameFor("audio/mp4") == "audio.m4a"
  {
    assert OccursAt("audio/mp4", "mp4", 6);
  }

  /** What the transcription endpoint does with the upload. */
  datatype WhisperReply =
    | Transcribed(text: Option<string>)  // a 2xx response; `text` is the JSON field, absent or not
    | Rejected(status: nat)              // a response that is not ok
    | Unreachable(reason: string)        // the request or the JSON decoding throws

  /**
   * `transcribeAudio(blob)` with `key` the configured key. `upload` stands for
   * the request, given the filename; `sent` is the filename uploaded, if any.
   */
  method Transcribe(key: string, audioType: string, upload: string -> WhisperReply) returns (r: Outcome<string>, sent: Option<string>)
    ensures key == "" ==> r == Threw(NoKey) && sent.None?
    ensures key != "" ==> sent == Some(FilenameFor(audioType))
    ensures key != "" ==> match upload(FilenameFor(audioType))
      case Transcribed(text) => r == Returned(text.GetOr(""))
      case Rejected(status) => r == Threw(TranscriptionFailed + (WhisperFailed + Decimal(status)))
      case Unreachable(reason) => r == Threw(TranscriptionFailed + reason)
  {
    if key == "" {
      return Threw(NoKey), None;
    }
    var filename := AudioFilename(audioType);
    sent := Some(filename);
    match upload(filename)
    case Transcribed(text) =>
      r := Returned(if Truthy(text) then text.value else "");
    case Rejected(status) =>
      r := Threw(TranscriptionFailed + (WhisperFailed + Decimal(status)));
    case Unreachable(reason) =>
      r := Threw(TranscriptionFailed + reason);
  }

  // ---------------------------------------------------------------- chat completions

  /** A chat completion: a failed request (thrown or not ok), or the first choice's content if any. */
  datatype ChatReply = ChatFailed | Answered(content: Option<string>)

  /** The `AIEventSuggestion` fields the fallback fills in. */
  datatype Suggestion = Suggestion(title: string, kind: string, description: Option<string>)

  /** The fallback title keeps at most this many characters of the prompt. */
  const FallbackTitleLength: nat := 50

  const FallbackDescription: string := "AI-suggested event based on your input"

  /** The suggestion returned when anything goes wrong: the start of the prompt as a restaurant outing. */
  function Fallback(prompt: string): (s: Suggestion)
    ensures |s.title| == Min(|prompt|, FallbackTitleLength)
    ensures prompt == s.title + prompt[|s.title|..]
    ensures s.kind == "restaurant" && s.description == Some(FallbackDescription)
  {
    Suggestion(prompt[..Min(|prompt|, FallbackTitleLength)], "restaurant", Some(FallbackDescription))
  }

  /** A short prompt is its own fallback title. */
  lemma ShortPromptIsTitle(prompt: string)
    requires |prompt| <= FallbackTitleLength
    ensures Fallback(prompt).title == prompt
  {
    assert prompt[..|prompt|] == prompt;
  }

  /**
   * `generateEventFromPrompt`: the parsed content of the reply, or the
   * fallback when the request fails, the content is missing or empty, or
   * `parse` (standing for `JSON.parse`) throws.
   */
  function GenerateEvent(prompt: string, reply: ChatReply, parse: string -> Option<Suggestion>): (s: Suggestion)
    ensures reply.Answered? && Truthy(reply.content) && parse(reply.content.value).Some? ==>
      s == parse(reply.content.value).value
    ensures !(reply.Answered? && Truthy(reply.content) && parse(reply.content.value).Some?) ==>
      s == Fallback(prompt)
  {
    match reply
    case ChatFailed => Fallback(prompt)
    case Answered(content) =>
      if !Truthy(content) then Fallback(prompt)
      else match parse(content.value)
        case None => Fallback(prompt)
        case Some(result) => result
  }

  /** What `JSON.parse` of the options reply gives, as far as `Array.isArray` can tell. */
  datatype Parsed = ArrayOf(items: seq<string>) | NotArray

  /** `generateEventOptions`: the parsed array, or `[]` on any failure or on a reply that is not an array. */
  function GenerateOptions(reply: ChatReply, parse: string -> Option<Parsed>): (options: seq<string>)
    ensures options != [] ==>
      reply.Answered? && Truthy(reply.content) && parse(reply.content.value) == Some(ArrayOf(options))
    ensures reply.Answered? && Truthy(reply.content) && parse(reply.content.value).Some? ==>
      parse(reply.content.value).value.ArrayOf? ==> options == parse(reply.content.value).value.items
  {
    match reply
    case ChatFailed => []
    case Answered(content) =>
      if !Truthy(content) then []
      else match parse(content.value)
        case None => []
        case Some(NotArray) => []
        case Some(ArrayOf(items)) => items
  }
}
