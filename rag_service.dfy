/** `RagService.ragSearch` (src/rag/rag.service.ts): retrieval-augmented
    answering. The query's bounds get their defaults, the semantic search
    runs, an empty result is answered at once, otherwise the hits are turned
    into chunks for the generator and the response is assembled; a failure
    of the search becomes an internal server error.

    `ArticleService.semanticSearch` is not part of this model: it is the
    `search` parameter. `Number(x)` on a similarity string is the `parse`
    parameter. */
module RagService {
  import opened Wrappers
  import opened JsStrings
  import opened JsValues
  import Ollama = OllamaService
  import Dto = RagQueryDto
  import ClassValidator

  /** A similarity as the search can deliver it: a number, the text of a
      number (how the database driver returns a `numeric` column), null, or
      nothing at all. */
  datatype Similarity = SimNumber(n: JsNumber) | SimText(text: string) | SimNull | SimMissing

  /** One row of the semantic search. */
  datatype SearchHit = SearchHit(id: int, title: string, contentPreview: string, similarity: Similarity)

  /** The instance of `RagQueryDto` the controller passes in; an absent bound is `Undefined`. */
  datatype RagQuery = RagQuery(q: string, limit: Value, minSimilarity: Value)

  datatype RetrievedArticle = RetrievedArticle(id: int, title: string, similarity: JsNumber)

  /** `RagResponse` (src/rag/interfaces/rag-response.interface.ts); `error` is never set here. */
  datatype RagResponse = RagResponse(
    success: bool,
    query: string,
    found: nat,
    retrievedArticles: Option<seq<RetrievedArticle>>,
    answer: Option<string>)

  /** The body of the `InternalServerErrorException` thrown on failure. */
  datatype RagErrorBody = RagErrorBody(success: bool, message: string, debug: string)

  datatype RagOutcome = Responded(response: RagResponse) | Failed(error: RagErrorBody)

  /** The arguments of `semanticSearch(q, limit, minSimilarity)`. */
  datatype SearchArgs = SearchArgs(q: string, limit: Value, minSimilarity: Value)

  /** The arguments of `generateRAGResponse(q, chunks)`. */
  datatype GeneratorCall = GeneratorCall(question: string, chunks: seq<Ollama.Chunk>)

  /** One run of `ragSearch`: its outcome, the search it made, and the
      generator call it made, if any. */
  datatype RagRun = RagRun(outcome: RagOutcome, search: SearchArgs, generated: Option<GeneratorCall>)

  datatype Backends = Backends(
    search: SearchArgs -> Attempt<seq<SearchHit>>,
    parse: string -> JsNumber,
    ollama: Ollama.Backend)

  const NothingFound: string := "Je n'ai pas trouvé d'article suffisamment pertinent."
  const FailureMessage: string := "Erreur lors du traitement RAG"

  /** `const { q, limit = 4, minSimilarity = 0.25 } = queryDto`: a default
      replaces only an undefined property, not a null one. */
  function SearchArgsOf(query: RagQuery): (args: SearchArgs)
    ensures args.q == query.q
    ensures args.limit == (if query.limit == Undefined then Num(Finite(4.0)) else query.limit)
    ensures args.minSimilarity == (if query.minSimilarity == Undefined then Num(Finite(0.25)) else query.minSimilarity)
  {
    SearchArgs(
      query.q,
      if query.limit == Undefined then Num(Finite(4.0)) else query.limit,
      if query.minSimilarity == Undefined then Num(Finite(0.25)) else query.minSimilarity)
  }

  /** `Number(x)` for the values a similarity can take. */
  function ToNumber(s: Similarity, parse: string -> JsNumber): (n: JsNumber)
    ensures s.SimNull? ==> n == Finite(0.0) && !NumberTruthy(n)
    ensures s.SimMissing? ==> n == NaN && !NumberTruthy(n)
    ensures s.SimNumber? ==> n == s.n
    ensures s.SimText? ==> n == parse(s.text)
  {
    match s
    case SimNumber(n) => n
    case SimText(t) => parse(t)
    case SimNull => Finite(0.0)
    case SimMissing => NaN
  }

  /** `Number(x) || 0`: the number when it is truthy, otherwise 0. */
  function Coerce(s: Similarity, parse: string -> JsNumber): (n: JsNumber)
    ensures n != NaN
    ensures NumberTruthy(ToNumber(s, parse)) ==> n == ToNumber(s, parse)
    ensures !NumberTruthy(ToNumber(s, parse)) ==> n == Finite(0.0)
  {
    var m := ToNumber(s, parse);
    if NumberTruthy(m) then m else Finite(0.0)
  }

  function Chunks(hits: seq<SearchHit>, parse: string -> JsNumber): (cs: seq<Ollama.Chunk>)
    ensures |cs| == |hits|
    ensures forall i :: 0 <= i < |hits| ==>
      cs[i] == Ollama.Chunk(hits[i].title, hits[i].contentPreview, Coerce(hits[i].similarity, parse))
  {
    seq(|hits|, i requires 0 <= i < |hits| =>
      Ollama.Chunk(hits[i].title, hits[i].contentPreview, Coerce(hits[i].similarity, parse)))
  }

  function Retrieved(hits: seq<SearchHit>, parse: string -> JsNumber): (rs: seq<RetrievedArticle>)
    ensures |rs| == |hits|
    ensures forall i :: 0 <= i < |hits| ==>
      rs[i] == RetrievedArticle(hits[i].id, hits[i].title, Coerce(hits[i].similarity, parse))
  {
    seq(|hits|, i requires 0 <= i < |hits| =>
      RetrievedArticle(hits[i].id, hits[i].title, Coerce(hits[i].similarity, parse)))
  }

  /** `ragSearch(queryDto)`. */
  function RagSearch(query: RagQuery, backends: Backends): (run: RagRun)
    ensures run.search == SearchArgsOf(query)
    ensures run.generated.Some? <==> backends.search(run.search).Returned? && backends.search(run.search).value != []
  {
    var args := SearchArgsOf(query);
    match backends.search(args)
    case Threw(message) =>
      RagRun(Failed(RagErrorBody(false, FailureMessage, message)), args, None)
    case Returned(hits) =>
      if |hits| == 0 then
        RagRun(Responded(RagResponse(true, query.q, 0, None, Some(NothingFound))), args, None)
      else
        var chunks := Chunks(hits, backends.parse);
        var generated := Ollama.GenerateRAGResponse(query.q, chunks, backends.ollama);
        RagRun(
          Responded(RagResponse(true, query.q, |hits|, Some(Retrieved(hits, backends.parse)), Some(Trim(generated)))),
          args,
          Some(GeneratorCall(query.q, chunks)))
  }

  // ---------------------------------------------------------------------
  // Properties

  /** An omitted bound is searched with its default, 4 results and a
      similarity floor of 0.25; a given one (null included) is passed as is. */
  lemma DefaultsApplied(q: string, backends: Backends)
    ensures RagSearch(RagQuery(q, Undefined, Undefined), backends).search ==
            SearchArgs(q, Num(Finite(4.0)), Num(Finite(0.25)))
    ensures RagSearch(RagQuery(q, Null, Null), backends).search == SearchArgs(q, Null, Null)
  {
  }

  /** No hit: a successful response with `found` 0, the fixed notice, no
      article list, and the generator left uncalled. */
  lemma EmptySearch(query: RagQuery, backends: Backends)
    requires backends.search(SearchArgsOf(query)) == Returned([])
    ensures var run := RagSearch(query, backends);
      && run.outcome == Responded(RagResponse(true, query.q, 0, None, Some(NothingFound)))
      && run.generated == None
  {
  }

  /** With hits: `found` counts them, the article list follows them one for
      one in order with id and title unchanged, the generator is called once
      with the query and the chunks in hit order, and the answer is the
      generated text, never empty. */
  lemma Answered(query: RagQuery, backends: Backends, hits: seq<SearchHit>)
    requires backends.search(SearchArgsOf(query)) == Returned(hits) && hits != []
    ensures var run := RagSearch(query, backends);
      && run.outcome.Responded?
      && var r := run.outcome.response;
      && r.success && r.query == query.q && r.found == |hits|
      && r.retrievedArticles.Some? && |r.retrievedArticles.value| == |hits|
      && (forall i :: 0 <= i < |hits| ==>
            r.retrievedArticles.value[i].id == hits[i].id && r.retrievedArticles.value[i].title == hits[i].title)
      && run.generated == Some(GeneratorCall(query.q, Chunks(hits, backends.parse)))
      && r.answer == Some(Ollama.GenerateRAGResponse(query.q, Chunks(hits, backends.parse), backends.ollama))
      && r.answer.value != []
  {
    Ollama.AnswerIsTrimmed(query.q, Chunks(hits, backends.parse), backends.ollama);
  }

  /** Every similarity handed on or returned is `Number(x) || 0`: a missing,
      NaN or non-numeric value becomes 0, and none is NaN. */
  lemma SimilaritiesCoerced(hits: seq<SearchHit>, parse: string -> JsNumber, i: nat)
    requires i < |hits|
    ensures Chunks(hits, parse)[i].similarity == Retrieved(hits, parse)[i].similarity
    ensures Retrieved(hits, parse)[i].similarity != NaN
    ensures hits[i].similarity == SimMissing || hits[i].similarity == SimNumber(NaN) ==>
              Retrieved(hits, parse)[i].similarity == Finite(0.0)
    ensures hits[i].similarity.SimText? && parse(hits[i].similarity.text) == NaN ==>
              Retrieved(hits, parse)[i].similarity == Finite(0.0)
  {
  }

  /** A failing search becomes the internal-server-error body with
      `success` false, and nothing is generated. */
  lemma SearchFailure(query: RagQuery, backends: Backends, message: string)
    requires backends.search(SearchArgsOf(query)) == Threw(message)
    ensures var run := RagSearch(query, backends);
      run.outcome == Failed(RagErrorBody(false, FailureMessage, message)) && run.generated == None
  {
  }

  /** A body the validation pipe accepts reaches the search with both bounds
      in range or null: the defaults fill what was omitted, and a null is
      passed through as it is. */
  lemma ValidatedBounds(q: string, body: map<string, Value>, fmt: ClassValidator.FormatCheckers)
    requires ClassValidator.Valid(Dto.Schema, Dto.Instantiate(body), fmt)
    ensures var dto := Dto.Instantiate(body);
      var args := SearchArgsOf(RagQuery(q, Get(dto, "limit"), Get(dto, "minSimilarity")));
      && args.limit != Undefined && Dto.InRangeOrMissing(args.limit, 1.0, 10.0)
      && args.minSimilarity != Undefined && Dto.InRangeOrMissing(args.minSimilarity, 0.0, 1.0)
      && (body == map["q" := Get(body, "q")] ==> args.limit == Num(Finite(4.0)) && args.minSimilarity == Num(Finite(0.25)))
  {
    Dto.Accepted(body, fmt);
  }
}
