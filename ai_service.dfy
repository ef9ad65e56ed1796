/**
 * `analyze_syllabus(text)`: the guard in front of the language-model call and the checks
 * on its reply. The call itself (a fixed pair of prompts around the stripped text) is
 * the `chat` oracle.
 */
module SyllabusAi {
  import opened Wrappers
  import opened PyText

  const MinAnalysisLength := 3
  const TooShortMessage := "Input text too short for analysis"
  /** The prefix `analyze_syllabus` puts on an `OpenAIError`. */
  const RequestFailedPrefix := "AI request failed: "
  /** The prefix its `except Exception` clause puts on every other error. */
  const UnexpectedPrefix := "Unexpected AI error: "

  /**
   * What `client.chat.completions.create(...)` came to: an `OpenAIError`, any other
   * exception, or the reply's choices, each with its message content (`None` for null).
   */
  datatype ChatOutcome =
    | ApiError(message: string)
    | OtherError(message: string)
    | Replied(contents: seq<Option<string>>)

  /**
   * The function's result. The two `RuntimeError`s raised inside the `try` block are
   * caught by its own `except Exception` clause and raised again with the
   * "Unexpected AI error: " prefix.
   */
  function AnalyzeSyllabus(text: string, chat: string -> ChatOutcome): (r: Result<string, string>)
    ensures r.Success? ==> r.value != [] && Stripped(r.value)
    ensures r == Failure(TooShortMessage) <==> |Strip(text)| < MinAnalysisLength
  {
    var t := Strip(text);
    if t == [] || |t| < MinAnalysisLength then Failure(TooShortMessage)
    else
      match chat(t)
      case ApiError(m) =>
        assert (RequestFailedPrefix + m)[0] != TooShortMessage[0];
        Failure(RequestFailedPrefix + m)
      case OtherError(m) => Unexpected(m)
      case Replied(contents) =>
        if contents == [] then Unexpected("Empty response from AI")
        else
          match contents[0]
          case None => Unexpected("AI returned empty output")
          case Some(c) =>
            if c == [] || Strip(c) == [] then Unexpected("AI returned empty output")
            else Success(Strip(c))
  }

  /** An error caught by the `except Exception` clause, raised again with its prefix. */
  function Unexpected(m: string): (r: Result<string, string>)
    ensures r.Failure? && r != Failure(TooShortMessage)
    ensures |UnexpectedPrefix| <= |r.error| && r.error[..|UnexpectedPrefix|] == UnexpectedPrefix
  {
    var e := UnexpectedPrefix + m;
    assert e[0] != TooShortMessage[0];
    assert e[..|UnexpectedPrefix|] == UnexpectedPrefix;
    Failure(e)
  }

  /** Text that passes a length gate of at least three stripped characters passes this guard too. */
  lemma GateDominatesGuard(text: string, chat: string -> ChatOutcome, gate: nat)
    requires gate >= MinAnalysisLength && |Strip(text)| >= gate
    ensures AnalyzeSyllabus(Strip(text), chat) == AnalyzeSyllabus(text, chat)
    ensures AnalyzeSyllabus(text, chat) != Failure(TooShortMessage)
  {
    StripIdempotent(text);
  }

  /** The model is asked about the stripped text, so padding the text changes nothing. */
  lemma AnalysisIgnoresPadding(pre: string, text: string, post: string, chat: string -> ChatOutcome)
    requires AllSpace(pre) && AllSpace(post)
    ensures AnalyzeSyllabus(pre + text + post, chat) == AnalyzeSyllabus(text, chat)
  {
    StripPadded(pre, text, post);
  }

  /**
   * Once the guard passes, every failure is either the request's own error behind
   * "AI request failed: " or, for anything else, a message behind "Unexpected AI error: ".
   */
  lemma FailuresAreClassified(text: string, chat: string -> ChatOutcome)
    requires |Strip(text)| >= MinAnalysisLength
    ensures chat(Strip(text)).ApiError? ==>
              AnalyzeSyllabus(text, chat) == Failure(RequestFailedPrefix + chat(Strip(text)).message)
    ensures !chat(Strip(text)).ApiError? && AnalyzeSyllabus(text, chat).Failure? ==>
              var e := AnalyzeSyllabus(text, chat).error;
              |UnexpectedPrefix| <= |e| && e[..|UnexpectedPrefix|] == UnexpectedPrefix
  {
  }

  /**
   * The client of the language model: `Prompts` records the text of every request made.
   */
  class ChatClient {
    const chat: string -> ChatOutcome
    ghost var Prompts: seq<string>

    constructor (chat: string -> ChatOutcome)
      ensures this.chat == chat && Prompts == []
    {
      this.chat := chat;
      Prompts := [];
    }

    /** `analyze_syllabus(text)`: a request is made only when the guard passes. */
    method Analyze(text: string) returns (r: Result<string, string>)
      modifies this
      ensures r == AnalyzeSyllabus(text, chat)
      ensures Prompts == old(Prompts) + (if |Strip(text)| < MinAnalysisLength then [] else [Strip(text)])
    {
      var t := Strip(text);
      if t == [] || |t| < MinAnalysisLength {
        return Failure(TooShortMessage);
      }
      Prompts := Prompts + [t];
      r := AnalyzeSyllabus(text, chat);
    }
  }
}
