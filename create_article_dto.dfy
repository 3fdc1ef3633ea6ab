/** `CreateArticleDto` (src/article/dto/create-article.dto.ts). */
module CreateArticleDto {
  import opened Wrappers
  import opened JsValues
  import opened ClassValidator
  import Constants

  const Schema: seq<Property> := [
    Property("title", false, [Plain(IsString), Plain(IsNotEmpty)]),
    Property("content", false, [Plain(IsString), Plain(IsNotEmpty)]),
    Property("status", true, [Plain(IsEnum(Constants.StatusValues))]),
    Property("categoryId", false, [Plain(IsInt)]),
    Property("tagIds", true, [Plain(IsArray)])
  ]

  predicate NonEmptyString(v: Value) {
    v.Str? && v.s != []
  }

  predicate Missing(v: Value) {
    v == Undefined || v == Null
  }

  lemma PropertyRules(body: map<string, Value>, fmt: FormatCheckers)
    ensures Passes(Schema[0], body, fmt) <==> NonEmptyString(Get(body, "title"))
    ensures Passes(Schema[1], body, fmt) <==> NonEmptyString(Get(body, "content"))
    ensures Passes(Schema[2], body, fmt) <==>
      Missing(Get(body, "status")) || (Get(body, "status").Str? && Get(body, "status").s in Constants.StatusValues)
    ensures Passes(Schema[3], body, fmt) <==> Get(body, "categoryId").Num? && IsInteger(Get(body, "categoryId").n)
    ensures Passes(Schema[4], body, fmt) <==> Missing(Get(body, "tagIds")) || Get(body, "tagIds").Arr?
  {
    assert Schema[0].rules[0] in Schema[0].rules && Schema[0].rules[1] in Schema[0].rules;
    assert Schema[1].rules[0] in Schema[1].rules && Schema[1].rules[1] in Schema[1].rules;
    assert Schema[2].rules[0] in Schema[2].rules;
    assert Schema[3].rules[0] in Schema[3].rules;
    assert Schema[4].rules[0] in Schema[4].rules;
  }

  lemma Names()
    ensures NamesOf(Schema) == {"title", "content", "status", "categoryId", "tagIds"}
  {
    assert Schema[0] in Schema && Schema[1] in Schema && Schema[2] in Schema;
    assert Schema[3] in Schema && Schema[4] in Schema;
  }

  lemma Accepted(body: map<string, Value>, fmt: FormatCheckers)
    ensures Valid(Schema, body, fmt) <==>
      && body.Keys <= {"title", "content", "status", "categoryId", "tagIds"}
      && NonEmptyString(Get(body, "title"))
      && NonEmptyString(Get(body, "content"))
      && (Missing(Get(body, "status")) || (Get(body, "status").Str? && Get(body, "status").s in Constants.StatusValues))
      && Get(body, "categoryId").Num? && IsInteger(Get(body, "categoryId").n)
      && (Missing(Get(body, "tagIds")) || Get(body, "tagIds").Arr?)
  {
    ValidIff(Schema, body, fmt);
    Names();
    PropertyRules(body, fmt);
    assert (forall i :: 0 <= i < |Schema| ==> Passes(Schema[i], body, fmt)) <==>
      Passes(Schema[0], body, fmt) && Passes(Schema[1], body, fmt) && Passes(Schema[2], body, fmt) &&
      Passes(Schema[3], body, fmt) && Passes(Schema[4], body, fmt);
  }

  /** Without `categoryId` the body is refused: the property is not optional. */
  lemma CategoryRequired(body: map<string, Value>, fmt: FormatCheckers)
    requires "categoryId" !in body
    ensures Violation("categoryId", IsInt, None) in Violations(Schema, body, fmt)
  {
    assert Plain(IsInt) in Schema[3].rules;
  }
}
