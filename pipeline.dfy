/**
 * `analyze_pipeline(text, include_playlists)` and the PDF route in front of it: the
 * length gate, the call to the language model, the repair of its reply, the optional
 * playlist enrichment, and the mapping of every failure to an HTTP error reply.
 */
module Pipeline {
  import opened Wrappers
  import opened PyText
  import opened Dict
  import opened JsonValue
  import opened JsonRepair
  import opened SyllabusAi
  import opened YouTube
  import opened Enrichment
  import opened PdfText

  const MinSyllabusLength := 5
  const TooShortReply := "Syllabus text is too short or empty"
  const InvalidJsonReply := "AI returned invalid JSON"

  /** What the route hands back to FastAPI: a status code and a JSON body. */
  datatype Reply = Reply(status: int, body: Json)

  /** `JSONResponse(status_code=status, content={"error": message})`. */
  function ErrorReply(status: int, message: string): (r: Reply)
    ensures r.status == status && r.body.JObject? && Get(r.body.fields, "error") == Some(JString(message))
  {
    Reply(status, JObject([("error", JString(message))]))
  }

  /**
   * The reply for `text`. A returned outline is sent with status 200; a `JSONDecodeError`
   * becomes the fixed invalid-JSON message; every other exception becomes a 500 reply
   * carrying `str(e)`.
   */
  function Analysis(text: string, withPlaylists: bool, chat: string -> ChatOutcome,
                    decode: string -> Option<Json>, lookup: Lookup, render: Json -> string): (r: Reply)
    ensures r.status == 200 || r.status == 400 || r.status == 500
    ensures r.status == 400 <==> |Strip(text)| < MinSyllabusLength
    ensures r.status == 400 ==> r == ErrorReply(400, TooShortReply)
  {
    StripIdempotent(text);
    Respond(Strip(text), withPlaylists, chat, decode, lookup, render)
  }

  /** The body of `analyze_pipeline` once `text = text.strip()` has run. */
  function Respond(t: string, withPlaylists: bool, chat: string -> ChatOutcome,
                   decode: string -> Option<Json>, lookup: Lookup, render: Json -> string): (r: Reply)
    ensures r.status == 200 || r.status == 400 || r.status == 500
    ensures r.status == 400 <==> |Strip(t)| < MinSyllabusLength
    ensures r.status == 400 ==> r == ErrorReply(400, TooShortReply)
  {
    if t == [] || |Strip(t)| < MinSyllabusLength then ErrorReply(400, TooShortReply)
    else
      match AnalyzeSyllabus(t, chat)
      case Failure(m) => ErrorReply(500, m)
      case Success(raw) =>
        match ExtractJsonSafely(raw, decode)
        case Failure(e) => ErrorReply(500, if e == InvalidJson then InvalidJsonReply else RepairMessage(e))
        case Success(data) =>
          if !withPlaylists then Reply(200, data)
          else
            match Attached(data, lookup, render)
            case Failure(m) => ErrorReply(500, m)
            case Success(enriched) => Reply(200, enriched)
  }

  /** White space around the submitted text does not change the reply. */
  lemma AnalysisIgnoresPadding(pre: string, text: string, post: string, withPlaylists: bool,
                               chat: string -> ChatOutcome, decode: string -> Option<Json>,
                               lookup: Lookup, render: Json -> string)
    requires AllSpace(pre) && AllSpace(post)
    ensures Analysis(pre + text + post, withPlaylists, chat, decode, lookup, render)
         == Analysis(text, withPlaylists, chat, decode, lookup, render)
  {
    StripPadded(pre, text, post);
  }

  /**
   * Without playlists, a 200 reply is exactly the outline decoded from the model's
   * answer, and a reply is 200 exactly when the model answered and the answer held a
   * decodable object.
   */
  lemma OutlineReplyWithoutPlaylists(text: string, chat: string -> ChatOutcome,
                                     decode: string -> Option<Json>, lookup: Lookup, render: Json -> string)
    requires |Strip(text)| >= MinSyllabusLength
    ensures var r := Analysis(text, false, chat, decode, lookup, render);
            var ai := AnalyzeSyllabus(Strip(text), chat);
            && (r.status == 200 <==> ai.Success? && ExtractJsonSafely(ai.value, decode).Success?)
            && (r.status == 200 ==> r.body == ExtractJsonSafely(ai.value, decode).value)
  {
    StripIdempotent(text);
  }

  /** A model answer the decoder refuses gives the fixed invalid-JSON reply. */
  lemma UndecodableAnswerReply(text: string, withPlaylists: bool, chat: string -> ChatOutcome,
                               decode: string -> Option<Json>, lookup: Lookup, render: Json -> string)
    requires |Strip(text)| >= MinSyllabusLength
    requires AnalyzeSyllabus(Strip(text), chat).Success?
    requires ExtractJsonSafely(AnalyzeSyllabus(Strip(text), chat).value, decode) == Failure(InvalidJson)
    ensures Analysis(text, withPlaylists, chat, decode, lookup, render) == ErrorReply(500, InvalidJsonReply)
  {
    StripIdempotent(text);
  }

  /** A failed model call is reported with status 500 and the message of its `RuntimeError`. */
  lemma ModelFailureReply(text: string, withPlaylists: bool, chat: string -> ChatOutcome,
                          decode: string -> Option<Json>, lookup: Lookup, render: Json -> string)
    requires |Strip(text)| >= MinSyllabusLength
    requires AnalyzeSyllabus(Strip(text), chat).Failure?
    ensures Analysis(text, withPlaylists, chat, decode, lookup, render)
         == ErrorReply(500, AnalyzeSyllabus(Strip(text), chat).error)
    ensures AnalyzeSyllabus(Strip(text), chat).error != SyllabusAi.TooShortMessage
  {
    StripIdempotent(text);
    GateDominatesGuard(text, chat, MinSyllabusLength);
  }

  /**
   * The empty-reply check of `extract_json_safely` never fires inside the pipeline: a
   * successful model call returns a non-empty answer.
   */
  lemma EmptyAnswerCheckUnreachable(text: string, chat: string -> ChatOutcome,
                                    decode: string -> Option<Json>, lookup: Lookup, render: Json -> string)
    requires |Strip(text)| >= MinSyllabusLength
    requires AnalyzeSyllabus(Strip(text), chat).Success?
    ensures ExtractJsonSafely(AnalyzeSyllabus(Strip(text), chat).value, decode) != Failure(EmptyResponse)
    ensures Analysis(text, false, chat, decode, lookup, render) != ErrorReply(500, "Empty AI response")
  {
    StripIdempotent(text);
    var raw := AnalyzeSyllabus(Strip(text), chat).value;
    var r := ExtractJsonSafely(raw, decode);
    if r.Failure? && r.error == NoJsonFound {
      assert RepairMessage(NoJsonFound)[0] != "Empty AI response"[0];
    }
  }

  /** A model answer holding no `{ ... }` pair gives the no-JSON reply. */
  lemma NoJsonFoundReply(text: string, withPlaylists: bool, chat: string -> ChatOutcome,
                         decode: string -> Option<Json>, lookup: Lookup, render: Json -> string)
    requires |Strip(text)| >= MinSyllabusLength
    requires AnalyzeSyllabus(Strip(text), chat).Success?
    requires !HasBracePair(AnalyzeSyllabus(Strip(text), chat).value)
    ensures Analysis(text, withPlaylists, chat, decode, lookup, render) == ErrorReply(500, "No JSON found in AI response")
  {
    StripIdempotent(text);
  }

  /** With playlists, enrichment failures reach the client as 500 replies carrying their message. */
  lemma EnrichmentFailureReply(text: string, chat: string -> ChatOutcome,
                               decode: string -> Option<Json>, lookup: Lookup, render: Json -> string)
    requires |Strip(text)| >= MinSyllabusLength
    requires AnalyzeSyllabus(Strip(text), chat).Success?
    requires ExtractJsonSafely(AnalyzeSyllabus(Strip(text), chat).value, decode).Success?
    ensures var data := ExtractJsonSafely(AnalyzeSyllabus(Strip(text), chat).value, decode).value;
            Analysis(text, true, chat, decode, lookup, render)
            == match Attached(data, lookup, render)
               case Failure(m) => ErrorReply(500, m)
               case Success(enriched) => Reply(200, enriched)
  {
    StripIdempotent(text);
  }

  /**
   * The playlist searches `analyze_pipeline` asks for, in order: none unless playlists
   * are requested, the text passes the gate, and the model's answer yields an outline.
   */
  function PipelineQueries(text: string, withPlaylists: bool, chat: string -> ChatOutcome,
                           decode: string -> Option<Json>, lookup: Lookup, render: Json -> string): (qs: seq<string>)
    ensures !withPlaylists || |Strip(text)| < MinSyllabusLength ==> qs == []
  {
    var t := Strip(text);
    if !withPlaylists || |t| < MinSyllabusLength then []
    else
      match AnalyzeSyllabus(t, chat)
      case Failure(_) => []
      case Success(raw) =>
        match ExtractJsonSafely(raw, decode)
        case Failure(_) => []
        case Success(data) => AttachedQueries(data, lookup, render)
  }

  /**
   * Every playlist request the pipeline sends is the stripped form of a topic query, and
   * it sends at most one per search it asks for.
   */
  lemma PipelineSearchesTopics(text: string, withPlaylists: bool, chat: string -> ChatOutcome,
                               decode: string -> Option<Json>, cfg: SearchConfig, es: Entries)
    requires |es| <= CacheSize
    ensures var qs := PipelineQueries(text, withPlaylists, chat, decode, SearchOf(cfg), cfg.render);
            var rs := ReplayRequests(cfg, es, qs);
            && AllTopicQueries(qs, cfg.render)
            && |rs| <= |qs|
            && forall k :: 0 <= k < |rs| ==> exists j :: 0 <= j < |qs| && rs[k] == Strip(qs[j])
  {
    var t := Strip(text);
    var qs := PipelineQueries(text, withPlaylists, chat, decode, SearchOf(cfg), cfg.render);
    if withPlaylists && |t| >= MinSyllabusLength && AnalyzeSyllabus(t, chat).Success?
       && ExtractJsonSafely(AnalyzeSyllabus(t, chat).value, decode).Success? {
      AttachedSearchesTopics(ExtractJsonSafely(AnalyzeSyllabus(t, chat).value, decode).value, cfg, es);
    } else {
      assert qs == [];
    }
    ReplayRequestsAreQueries(cfg, es, qs);
  }

  /**
   * `analyze_pipeline(text, include_playlists)`. Text that fails the gate reaches neither
   * the model nor the playlist search; otherwise the model is asked exactly once, about
   * the stripped text, and the cache is touched only when playlists are requested; the
   * cache then ends as the calls for the outline's topics, in loop order, leave it.
   */
  method AnalyzePipeline(text: string, withPlaylists: bool, client: ChatClient, cache: CachedSearch,
                         decode: string -> Option<Json>) returns (reply: Reply)
    requires cache.Valid()
    modifies client, cache
    ensures cache.Valid()
    ensures reply == Analysis(text, withPlaylists, client.chat, decode, cache.search, cache.cfg.render)
    ensures |Strip(text)| < MinSyllabusLength ==> client.Prompts == old(client.Prompts)
    ensures |Strip(text)| >= MinSyllabusLength ==> client.Prompts == old(client.Prompts) + [Strip(text)]
    ensures (!withPlaylists || |Strip(text)| < MinSyllabusLength) ==>
              cache.entries == old(cache.entries) && cache.Requests == old(cache.Requests)
    ensures Replayed(cache.cfg, old(cache.entries), old(cache.Requests),
                     PipelineQueries(text, withPlaylists, client.chat, decode, cache.search, cache.cfg.render),
                     cache.entries, cache.Requests)
  {
    StripIdempotent(text);
    ReplayNone(cache.cfg, cache.entries, cache.Requests);
    var t := Strip(text);
    if t == [] || |Strip(t)| < MinSyllabusLength {
      return ErrorReply(400, TooShortReply);
    }
    var raw := client.Analyze(t);
    if raw.Failure? {
      return ErrorReply(500, raw.error);
    }
    var data := ExtractJsonSafely(raw.value, decode);
    if data.Failure? {
      if data.error == InvalidJson {
        return ErrorReply(500, InvalidJsonReply);
      }
      return ErrorReply(500, RepairMessage(data.error));
    }
    if !withPlaylists {
      return Reply(200, data.value);
    }
    var enriched := AttachPlaylists(data.value, cache);
    if enriched.Failure? {
      return ErrorReply(500, enriched.error);
    }
    return Reply(200, enriched.value);
  }

  /** `POST /analyze-pdf`: the pipeline on the text extracted from the upload. */
  method AnalyzePdf(file: PdfFile, withPlaylists: bool, client: ChatClient, cache: CachedSearch,
                    decode: string -> Option<Json>) returns (reply: Reply)
    requires cache.Valid()
    modifies client, cache
    ensures cache.Valid()
    ensures reply == Analysis(PdfTextOf(file), withPlaylists, client.chat, decode, cache.search, cache.cfg.render)
    ensures |Strip(PdfTextOf(file))| < MinSyllabusLength ==> client.Prompts == old(client.Prompts)
    ensures |Strip(PdfTextOf(file))| >= MinSyllabusLength ==> client.Prompts == old(client.Prompts) + [Strip(PdfTextOf(file))]
    ensures (!withPlaylists || |Strip(PdfTextOf(file))| < MinSyllabusLength) ==>
              cache.entries == old(cache.entries) && cache.Requests == old(cache.Requests)
    ensures Replayed(cache.cfg, old(cache.entries), old(cache.Requests),
                     PipelineQueries(PdfTextOf(file), withPlaylists, client.chat, decode, cache.search, cache.cfg.render),
                     cache.entries, cache.Requests)
  {
    var text := ExtractTextFromPdf(file);
    reply := AnalyzePipeline(text, withPlaylists, client, cache, decode);
  }

  /** An upload that cannot be parsed, or holds no text, is refused with status 400. */
  lemma UnreadablePdfRejected(file: PdfFile, withPlaylists: bool, chat: string -> ChatOutcome,
                              decode: string -> Option<Json>, lookup: Lookup, render: Json -> string)
    requires file.Unopenable? || forall i :: 0 <= i < |file.pages| ==> Keep(file.pages[i]) == []
    ensures Analysis(PdfTextOf(file), withPlaylists, chat, decode, lookup, render) == ErrorReply(400, TooShortReply)
  {
    if file.Opened? {
      TextlessDocumentGivesEmpty(file.pages);
    }
    assert Strip([]) == [];
  }
}
