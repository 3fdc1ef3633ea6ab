/** `OllamaService.generateRAGResponse` (src/rag/ollama.sevice.ts): builds
    a prompt from the question and the retrieved chunks, asks the Ollama
    `/api/generate` endpoint for a completion and turns whatever comes back
    (or the failure) into a non-empty answer.

    The HTTP call and `Number.prototype.toFixed(3)` are parameters: the
    first resolves to the `data` of the response or fails, the second
    renders a similarity. */
module OllamaService {
  import opened Wrappers
  import opened JsStrings
  import opened JsValues

  /** A retrieved passage, as `ragSearch` hands it over. */
  datatype Chunk = Chunk(title: string, contentPreview: string, similarity: JsNumber)

  /** The body of the POST request; the sampling options (temperature 0.65,
      num_predict 1800, top_p 0.9, top_k 40) are constants of the source
      that the model does not carry. */
  datatype GenerateRequest = GenerateRequest(url: string, model: string, prompt: string, stream: bool)

  datatype Backend = Backend(post: GenerateRequest -> Attempt<Value>, toFixed3: JsNumber -> string)

  const BaseUrl: string := "http://localhost:11434/api/generate"
  const ModelName: string := "llama3.1:8b"

  /** A newline, twenty U+2500 box-drawing characters, a newline. */
  const Separator: string := "\n────────────────────\n"

  const SystemPrompt: string :=
    "\nTu es un assistant technique expert en Linux, Node.js, DevOps et administration système.\n"
    + "Réponds toujours en français, de manière claire, structurée et professionnelle.\n"
  const QuestionIntro: string := "\nQuestion de l'utilisateur : "
  const ContextIntro: string := "\n\nContexte extrait des articles de la base de connaissances :\n"
  const Closing: string := "\n\nRéponds maintenant en te basant sur le contexte fourni :\n"

  const NoAnswer: string := "Aucune réponse générée par Ollama."
  const Apology: string :=
    "Désolé, " + "une erreur est survenue avec Ollama. " + ApologyAdvice
  const ApologyAdvice: string := "Vérifiez que le serveur est lancé et que le modèle est chargé."

  /** The block for the chunk at 0-based position `i`: a numbered header line, then the preview. */
  function RenderChunk(i: nat, c: Chunk, toFixed3: JsNumber -> string): (r: string)
    ensures StartsWith(r, "[Article " + NatToString(i + 1) + "] (" + c.title)
    ensures EndsWith(r, c.contentPreview)
    ensures var head := "[Article " + NatToString(i + 1) + "] (" + c.title;
      var score := " – pertinence " + toFixed3(c.similarity) + ")\n";
      |r| == |head| + |score| + |c.contentPreview| && r[|head|..|head| + |score|] == score
  {
    var head := "[Article " + NatToString(i + 1) + "] (" + c.title;
    var score := " – pertinence " + toFixed3(c.similarity) + ")\n";
    var r := head + score + c.contentPreview;
    assert r[..|head|] == head;
    assert r[|head|..|head| + |score|] == score;
    assert r[|r| - |c.contentPreview|..] == c.contentPreview;
    r
  }

  function Renderings(chunks: seq<Chunk>, toFixed3: JsNumber -> string): (rs: seq<string>)
    ensures |rs| == |chunks|
    ensures forall i :: 0 <= i < |chunks| ==> rs[i] == RenderChunk(i, chunks[i], toFixed3)
  {
    seq(|chunks|, i requires 0 <= i < |chunks| => RenderChunk(i, chunks[i], toFixed3))
  }

  /** The context block: the renderings in input order, separated by `Separator`. */
  function ContextText(chunks: seq<Chunk>, toFixed3: JsNumber -> string): (ctx: string)
    ensures ctx == [] <==> chunks == []
  {
    var rs := Renderings(chunks, toFixed3);
    if chunks == [] then Join(rs, Separator)
    else
      JoinStartsWithFirst(rs, Separator);
      Join(rs, Separator)
  }

  /** The question after its intro, then the context, then the closing line. */
  function UserPrompt(question: string, context: string): (p: string)
    ensures StartsWith(p, QuestionIntro + question)
    ensures EndsWith(p, context + Closing)
  {
    var p := QuestionIntro + question + ContextIntro + context + Closing;
    assert p[..|QuestionIntro + question|] == QuestionIntro + question;
    assert p[|p| - |context + Closing|..] == context + Closing;
    p
  }

  function FullPrompt(question: string, chunks: seq<Chunk>, toFixed3: JsNumber -> string): (p: string)
    ensures StartsWith(p, SystemPrompt + "\n")
    ensures EndsWith(p, ContextText(chunks, toFixed3) + Closing)
  {
    var user := UserPrompt(question, ContextText(chunks, toFixed3));
    var p := SystemPrompt + "\n" + user;
    assert p[..|SystemPrompt + "\n"|] == SystemPrompt + "\n";
    assert p[|p| - |user|..] == user;
    p
  }

  /** What the service makes of the resolved `response.data`: reading
      `.response` off null or undefined throws; a falsy field becomes '';
      calling `.trim` on anything but a string throws; a blank text becomes
      the "Aucune réponse" notice. Every throw is caught and answered with
      the apology. */
  function AnswerFrom(data: Value): (r: string)
    ensures r != []
    ensures r == Apology || r == NoAnswer ||
      (data.Obj? && Get(data.fields, "response").Str? && r == Trim(Get(data.fields, "response").s))
  {
    if data == Undefined || data == Null then Apology
    else
      var field := if data.Obj? then Get(data.fields, "response") else Undefined;
      var generated := if Truthy(field) then field else Str("");
      if !generated.Str? then Apology
      else
        var t := Trim(generated.s);
        if t == [] then NoAnswer
        else t
  }

  /** `generateRAGResponse(question, chunks)`. */
  function GenerateRAGResponse(question: string, chunks: seq<Chunk>, backend: Backend): (r: string)
    ensures r != []
    ensures backend.post(Request(question, chunks, backend.toFixed3)).Threw? ==> r == Apology
    ensures backend.post(Request(question, chunks, backend.toFixed3)).Returned? ==>
      r == AnswerFrom(backend.post(Request(question, chunks, backend.toFixed3)).value)
  {
    match backend.post(Request(question, chunks, backend.toFixed3))
    case Threw(_) => Apology
    case Returned(data) => AnswerFrom(data)
  }

  /** The request sent to Ollama: the full prompt, no streaming. */
  function Request(question: string, chunks: seq<Chunk>, toFixed3: JsNumber -> string): (req: GenerateRequest)
    ensures req.url == BaseUrl && req.model == ModelName && !req.stream
    ensures req.prompt == FullPrompt(question, chunks, toFixed3)
  {
    GenerateRequest(BaseUrl, ModelName, FullPrompt(question, chunks, toFixed3), false)
  }

  // ---------------------------------------------------------------------
  // Properties

  /** No chunk gives an empty context; one chunk gives its block alone; every
      further chunk adds the separator and its block at the end. */
  lemma ContextShape(chunks: seq<Chunk>, toFixed3: JsNumber -> string)
    ensures chunks == [] ==> ContextText(chunks, toFixed3) == []
    ensures |chunks| == 1 ==> ContextText(chunks, toFixed3) == RenderChunk(0, chunks[0], toFixed3)
    ensures |chunks| >= 2 ==>
      var n := |chunks|;
      ContextText(chunks, toFixed3) ==
        ContextText(chunks[..n - 1], toFixed3) + Separator + RenderChunk(n - 1, chunks[n - 1], toFixed3)
  {
    var n := |chunks|;
    if n >= 2 {
      assert Renderings(chunks, toFixed3)[..n - 1] == Renderings(chunks[..n - 1], toFixed3);
    }
  }

  /** The context opens with the first chunk's block: there is no separator before it. */
  lemma ContextStartsWithFirstChunk(chunks: seq<Chunk>, toFixed3: JsNumber -> string)
    requires chunks != []
    ensures StartsWith(ContextText(chunks, toFixed3), RenderChunk(0, chunks[0], toFixed3))
  {
    JoinStartsWithFirst(Renderings(chunks, toFixed3), Separator);
  }

  /** The prompt is the system prompt, a newline and the user prompt; inside
      the latter the question stands verbatim before the context block. */
  lemma PromptLayout(question: string, chunks: seq<Chunk>, toFixed3: JsNumber -> string)
    ensures var p := FullPrompt(question, chunks, toFixed3);
      var q0 := |SystemPrompt| + 1 + |QuestionIntro|;
      var c0 := q0 + |question| + |ContextIntro|;
      var ctx := ContextText(chunks, toFixed3);
      && |p| == c0 + |ctx| + |Closing|
      && p[..|SystemPrompt|] == SystemPrompt
      && p[|SystemPrompt|] == '\n'
      && p[q0..q0 + |question|] == question
      && p[c0..c0 + |ctx|] == ctx
      && p[c0 + |ctx|..] == Closing
  {
    Layout(SystemPrompt, QuestionIntro, question, ContextIntro, ContextText(chunks, toFixed3), Closing);
  }

  lemma Layout(sys: string, qi: string, q: string, ci: string, ctx: string, cl: string)
    ensures var p := sys + "\n" + (qi + q + ci + ctx + cl);
      var q0 := |sys| + 1 + |qi|;
      var c0 := q0 + |q| + |ci|;
      && |p| == c0 + |ctx| + |cl|
      && p[..|sys|] == sys
      && p[|sys|] == '\n'
      && p[q0..q0 + |q|] == q
      && p[c0..c0 + |ctx|] == ctx
      && p[c0 + |ctx|..] == cl
  {
    var p := sys + "\n" + (qi + q + ci + ctx + cl);
    var q0 := |sys| + 1 + |qi|;
    var c0 := q0 + |q| + |ci|;
    assert p == (sys + "\n" + qi) + q + (ci + ctx + cl);
    assert p[q0..q0 + |q|] == q;
    assert p == (sys + "\n" + qi + q + ci) + ctx + cl;
  }

  /** A text field that trims to something gives that trimmed text. */
  lemma AnswerText(data: Value)
    requires data.Obj? && Get(data.fields, "response").Str?
    requires Trim(Get(data.fields, "response").s) != []
    ensures AnswerFrom(data) == Trim(Get(data.fields, "response").s)
  {
    var field := Get(data.fields, "response");
    assert field.s != [];
    assert Truthy(field);
  }

  /** A missing, empty or blank text field gives the "Aucune réponse" notice. */
  lemma AnswerBlank(data: Value)
    requires data.Obj?
    requires !Truthy(Get(data.fields, "response")) ||
             (Get(data.fields, "response").Str? && AllWhitespace(Get(data.fields, "response").s))
    ensures AnswerFrom(data) == NoAnswer
  {
    if Get(data.fields, "response").Str? {
      TrimEmptyIff(Get(data.fields, "response").s);
    }
  }

  /** A truthy field that is not a string has no `trim`: the apology. */
  lemma AnswerNotText(data: Value)
    requires data.Obj? && Truthy(Get(data.fields, "response")) && !Get(data.fields, "response").Str?
    ensures AnswerFrom(data) == Apology
  {
  }

  /** A reply body that is not an object has no `response` field: the notice. */
  lemma AnswerNotObject(data: Value)
    requires !data.Obj? && data != Undefined && data != Null
    ensures AnswerFrom(data) == NoAnswer
  {
  }

  /** The fixed answers contain no surrounding white space, so every answer
      is already trimmed. */
  lemma AnswerIsTrimmed(question: string, chunks: seq<Chunk>, backend: Backend)
    ensures Trim(GenerateRAGResponse(question, chunks, backend)) == GenerateRAGResponse(question, chunks, backend)
  {
    var attempt := backend.post(Request(question, chunks, backend.toFixed3));
    if attempt.Threw? {
      ApologyTrimmed();
    } else {
      AnswerFromTrimmed(attempt.value);
    }
  }

  lemma ApologyTrimmed()
    ensures Trim(Apology) == Apology
  {
    assert Apology[0] == 'D' && Apology[|Apology| - 1] == ApologyAdvice[|ApologyAdvice| - 1] == '.';
    FixedTextTrimmed(Apology);
  }

  /** Every answer drawn from a reply body is already trimmed. */
  lemma AnswerFromTrimmed(data: Value)
    ensures Trim(AnswerFrom(data)) == AnswerFrom(data)
  {
    var r := AnswerFrom(data);
    if r == NoAnswer {
      assert NoAnswer[0] == 'A' && NoAnswer[|NoAnswer| - 1] == '.';
      FixedTextTrimmed(NoAnswer);
    } else if r == Apology {
      ApologyTrimmed();
    } else {
      TrimIdempotent(Get(data.fields, "response").s);
    }
  }

  /** A string whose two ends are not white space is its own trim. */
  lemma FixedTextTrimmed(s: string)
    requires s != [] && !IsWhitespace(s[0]) && !IsWhitespace(s[|s| - 1])
    ensures Trim(s) == s
  {
  }
}
