/** `CreateCommentDto` (src/comment/dto/create-comment.dto.ts). */
module CreateCommentDto {
  import opened Wrappers
  import opened JsValues
  import opened ClassValidator

  const Schema: seq<Property> := [
    Property("content", false, [Plain(IsString), Plain(IsNotEmpty)]),
    Property("articleId", false, [Plain(IsInt), Plain(IsNotEmpty)]),
    Property("parentId", true, [Plain(IsInt)])
  ]

  predicate IntValue(v: Value) {
    v.Num? && IsInteger(v.n)
  }

  lemma PropertyRules(body: map<string, Value>, fmt: FormatCheckers)
    ensures Passes(Schema[0], body, fmt) <==> Get(body, "content").Str? && Get(body, "content").s != []
    ensures Passes(Schema[1], body, fmt) <==> IntValue(Get(body, "articleId"))
    ensures Passes(Schema[2], body, fmt) <==> Get(body, "parentId") in {Undefined, Null} || IntValue(Get(body, "parentId"))
  {
    assert Schema[0].rules[0] in Schema[0].rules && Schema[0].rules[1] in Schema[0].rules;
    assert Schema[1].rules[0] in Schema[1].rules && Schema[1].rules[1] in Schema[1].rules;
    assert Schema[2].rules[0] in Schema[2].rules;
  }

  lemma Accepted(body: map<string, Value>, fmt: FormatCheckers)
    ensures Valid(Schema, body, fmt) <==>
      && body.Keys <= {"content", "articleId", "parentId"}
      && Get(body, "content").Str? && Get(body, "content").s != []
      && IntValue(Get(body, "articleId"))
      && (Get(body, "parentId") in {Undefined, Null} || IntValue(Get(body, "parentId")))
  {
    ValidIff(Schema, body, fmt);
    assert NamesOf(Schema) == {"content", "articleId", "parentId"} by {
      assert Schema[0] in Schema && Schema[1] in Schema && Schema[2] in Schema;
    }
    PropertyRules(body, fmt);
    assert (forall i :: 0 <= i < |Schema| ==> Passes(Schema[i], body, fmt)) <==>
      Passes(Schema[0], body, fmt) && Passes(Schema[1], body, fmt) && Passes(Schema[2], body, fmt);
  }
}
