/** `UpdateCommentDto` (src/comment/dto/update-comment.dto.ts): a required
    content of 1 to 1000 characters. */
module UpdateCommentDto {
  import opened Wrappers
  import opened JsValues
  import opened ClassValidator

  const Schema: seq<Property> := [
    Property("content", false, [Plain(IsString), Plain(MinLength(1)), Plain(MaxLength(1000))])
  ]

  lemma Accepted(body: map<string, Value>, fmt: FormatCheckers)
    ensures Valid(Schema, body, fmt) <==>
      body.Keys <= {"content"} && Get(body, "content").Str? && 1 <= LengthOf(Get(body, "content").s) <= 1000
  {
    ValidIff(Schema, body, fmt);
    assert NamesOf(Schema) == {"content"} by {
      assert Schema[0] in Schema;
    }
    var rs := Schema[0].rules;
    assert rs[0] in rs && rs[1] in rs && rs[2] in rs;
  }

  /** The content is required: a body without it is refused. */
  lemma ContentRequired(body: map<string, Value>, fmt: FormatCheckers)
    requires "content" !in body
    ensures Violation("content", IsString, None) in Violations(Schema, body, fmt)
  {
    assert Plain(IsString) in Schema[0].rules;
  }
}
