/** `CreateMediaDto` (src/media/dto/create-media.dto.ts). */
module CreateMediaDto {
  import opened Wrappers
  import opened JsValues
  import opened ClassValidator
  import Constants

  const Schema: seq<Property> := [
    Property("url", false, [Plain(IsUrl), Plain(IsNotEmpty)]),
    Property("filename", false, [Plain(IsString), Plain(IsNotEmpty)]),
    Property("mimetype", false, [Plain(IsString), Plain(IsNotEmpty)]),
    Property("type", true, [Plain(IsEnum(Constants.MediaTypeValues))]),
    Property("articleId", true, [Plain(IsInt)])
  ]

  predicate NonEmptyString(v: Value) {
    v.Str? && v.s != []
  }

  predicate Missing(v: Value) {
    v == Undefined || v == Null
  }

  lemma PropertyRules(body: map<string, Value>, fmt: FormatCheckers)
    ensures Passes(Schema[0], body, fmt) <==> NonEmptyString(Get(body, "url")) && fmt.isUrl(Get(body, "url").s)
    ensures Passes(Schema[1], body, fmt) <==> NonEmptyString(Get(body, "filename"))
    ensures Passes(Schema[2], body, fmt) <==> NonEmptyString(Get(body, "mimetype"))
    ensures Passes(Schema[3], body, fmt) <==>
      Missing(Get(body, "type")) || (Get(body, "type").Str? && Get(body, "type").s in Constants.MediaTypeValues)
    ensures Passes(Schema[4], body, fmt) <==>
      Missing(Get(body, "articleId")) || (Get(body, "articleId").Num? && IsInteger(Get(body, "articleId").n))
  {
    assert Schema[0].rules[0] in Schema[0].rules && Schema[0].rules[1] in Schema[0].rules;
    assert Schema[1].rules[0] in Schema[1].rules && Schema[1].rules[1] in Schema[1].rules;
    assert Schema[2].rules[0] in Schema[2].rules && Schema[2].rules[1] in Schema[2].rules;
    assert Schema[3].rules[0] in Schema[3].rules;
    assert Schema[4].rules[0] in Schema[4].rules;
  }

  lemma Names()
    ensures NamesOf(Schema) == {"url", "filename", "mimetype", "type", "articleId"}
  {
    assert Schema[0] in Schema && Schema[1] in Schema && Schema[2] in Schema;
    assert Schema[3] in Schema && Schema[4] in Schema;
  }

  lemma Accepted(body: map<string, Value>, fmt: FormatCheckers)
    ensures Valid(Schema, body, fmt) <==>
      && body.Keys <= {"url", "filename", "mimetype", "type", "articleId"}
      && NonEmptyString(Get(body, "url")) && fmt.isUrl(Get(body, "url").s)
      && NonEmptyString(Get(body, "filename"))
      && NonEmptyString(Get(body, "mimetype"))
      && (Missing(Get(body, "type")) || (Get(body, "type").Str? && Get(body, "type").s in Constants.MediaTypeValues))
      && (Missing(Get(body, "articleId")) || (Get(body, "articleId").Num? && IsInteger(Get(body, "articleId").n)))
  {
    ValidIff(Schema, body, fmt);
    Names();
    PropertyRules(body, fmt);
    assert (forall i :: 0 <= i < |Schema| ==> Passes(Schema[i], body, fmt)) <==>
      Passes(Schema[0], body, fmt) && Passes(Schema[1], body, fmt) && Passes(Schema[2], body, fmt) &&
      Passes(Schema[3], body, fmt) && Passes(Schema[4], body, fmt);
  }

  /** The wire values the `type` property accepts are exactly those of `MediaType`. */
  lemma TypeValues(t: Constants.MediaType, fmt: FormatCheckers)
    ensures Check(IsEnum(Constants.MediaTypeValues), Str(Constants.MediaTypeName(t)), fmt)
    ensures !Check(IsEnum(Constants.MediaTypeValues), Str("video"), fmt)
  {
  }
}
