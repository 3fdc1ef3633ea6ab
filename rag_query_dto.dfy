/** `RagQueryDto` (src/rag/dto/rag-query.dto.ts) as the RAG route receives it:
    class-transformer builds an instance whose field initialisers give
    `limit` 4 and `minSimilarity` 0.25, copies every property of the body
    over them, and the validation pipes check that instance. */
module RagQueryDto {
  import opened Wrappers
  import opened JsValues
  import opened ClassValidator

  const DefaultLimit: real := 4.0
  const DefaultMinSimilarity: real := 0.25

  const Schema: seq<Property> := [
    Property("q", false, [Plain(IsString)]),
    Property("limit", true, [Plain(IsNumber), Plain(Min(1.0)), Plain(Max(10.0))]),
    Property("minSimilarity", true, [Plain(IsNumber), Plain(Min(0.0)), Plain(Max(1.0))])
  ]

  /** The instance built from a request body: initialisers first, then the body's own properties. */
  function Instantiate(body: map<string, Value>): (dto: map<string, Value>)
    ensures dto.Keys == body.Keys + {"limit", "minSimilarity"}
    ensures forall k :: k in body ==> dto[k] == body[k]
    ensures "limit" !in body ==> dto["limit"] == Num(Finite(DefaultLimit))
    ensures "minSimilarity" !in body ==> dto["minSimilarity"] == Num(Finite(DefaultMinSimilarity))
  {
    map["limit" := Num(Finite(DefaultLimit)), "minSimilarity" := Num(Finite(DefaultMinSimilarity))] + body
  }

  /** A present number in `[lo, hi]`, or null or undefined. */
  predicate InRangeOrMissing(v: Value, lo: real, hi: real) {
    v == Undefined || v == Null || (v.Num? && v.n.Finite? && lo <= v.n.r <= hi)
  }

  lemma PropertyRules(dto: map<string, Value>, fmt: FormatCheckers)
    ensures Passes(Schema[0], dto, fmt) <==> Get(dto, "q").Str?
    ensures Passes(Schema[1], dto, fmt) <==> InRangeOrMissing(Get(dto, "limit"), 1.0, 10.0)
    ensures Passes(Schema[2], dto, fmt) <==> InRangeOrMissing(Get(dto, "minSimilarity"), 0.0, 1.0)
  {
    assert Schema[0].rules[0] in Schema[0].rules;
    var rs := Schema[1].rules;
    assert rs[0] in rs && rs[1] in rs && rs[2] in rs;
    var ts := Schema[2].rules;
    assert ts[0] in ts && ts[1] in ts && ts[2] in ts;
  }

  lemma Names()
    ensures NamesOf(Schema) == {"q", "limit", "minSimilarity"}
  {
    assert Schema[0] in Schema && Schema[1] in Schema && Schema[2] in Schema;
  }

  /** The instance agrees with the body on `q`, and on whether each bound is acceptable. */
  lemma InstanceFields(body: map<string, Value>)
    ensures var dto := Instantiate(body);
      && Get(dto, "q") == Get(body, "q")
      && (InRangeOrMissing(Get(dto, "limit"), 1.0, 10.0) <==> InRangeOrMissing(Get(body, "limit"), 1.0, 10.0))
      && (InRangeOrMissing(Get(dto, "minSimilarity"), 0.0, 1.0) <==> InRangeOrMissing(Get(body, "minSimilarity"), 0.0, 1.0))
  {
  }

  /** The body is accepted exactly when it has only the three declared
      properties, `q` is a string and each bound that is given lies in range. */
  lemma Accepted(body: map<string, Value>, fmt: FormatCheckers)
    ensures Valid(Schema, Instantiate(body), fmt) <==>
      && body.Keys <= {"q", "limit", "minSimilarity"}
      && Get(body, "q").Str?
      && InRangeOrMissing(Get(body, "limit"), 1.0, 10.0)
      && InRangeOrMissing(Get(body, "minSimilarity"), 0.0, 1.0)
  {
    var dto := Instantiate(body);
    ValidIff(Schema, dto, fmt);
    Names();
    assert dto.Keys <= NamesOf(Schema) <==> body.Keys <= {"q", "limit", "minSimilarity"};
    PropertyRules(dto, fmt);
    InstanceFields(body);
    assert (forall i :: 0 <= i < |Schema| ==> Passes(Schema[i], dto, fmt)) <==>
      Passes(Schema[0], dto, fmt) && Passes(Schema[1], dto, fmt) && Passes(Schema[2], dto, fmt);
  }

  /** With only a query, the instance carries the defaults 4 and 0.25 and is valid. */
  lemma QueryOnly(q: string, fmt: FormatCheckers)
    ensures Valid(Schema, Instantiate(map["q" := Str(q)]), fmt)
    ensures Instantiate(map["q" := Str(q)]) == map["q" := Str(q), "limit" := Num(Finite(4.0)), "minSimilarity" := Num(Finite(0.25))]
  {
    Accepted(map["q" := Str(q)], fmt);
  }

  /** A numeric `limit` is accepted exactly in `[1, 10]`: 0 and 11 are out, 1 and 10 are in. */
  lemma LimitBounds(q: string, r: real, fmt: FormatCheckers)
    ensures Valid(Schema, Instantiate(map["q" := Str(q), "limit" := Num(Finite(r))]), fmt) <==> 1.0 <= r <= 10.0
  {
    Accepted(map["q" := Str(q), "limit" := Num(Finite(r))], fmt);
  }

  /** A numeric `minSimilarity` is accepted exactly in `[0, 1]`. */
  lemma MinSimilarityBounds(q: string, r: real, fmt: FormatCheckers)
    ensures Valid(Schema, Instantiate(map["q" := Str(q), "minSimilarity" := Num(Finite(r))]), fmt) <==> 0.0 <= r <= 1.0
  {
    Accepted(map["q" := Str(q), "minSimilarity" := Num(Finite(r))], fmt);
  }

  /** A bound given as anything but a number (a numeric string included) is
      refused: the pipe performs no conversion. */
  lemma NonNumericRejected(body: map<string, Value>, key: string, fmt: FormatCheckers)
    requires key == "limit" || key == "minSimilarity"
    requires key in body && body[key] != Null && body[key] != Undefined && !body[key].Num?
    ensures !Valid(Schema, Instantiate(body), fmt)
  {
    Accepted(body, fmt);
  }

  /** `q` is required: without it the instance is refused. */
  lemma QueryRequired(body: map<string, Value>, fmt: FormatCheckers)
    requires "q" !in body
    ensures !Valid(Schema, Instantiate(body), fmt)
  {
    Accepted(body, fmt);
  }
}
