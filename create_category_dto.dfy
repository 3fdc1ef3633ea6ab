/** `CreateCategoryDto` (src/category/dto/create-category.dto.ts): a name of
    3 to 50 characters and an optional string description. */
module CreateCategoryDto {
  import opened Wrappers
  import opened JsValues
  import opened ClassValidator

  const NameRequired: string := "Le nom de la catégorie est obligatoire"

  const Schema: seq<Property> := [
    Property("name", false, [Plain(IsString), Rule(IsNotEmpty, Some(NameRequired)), Plain(Length(3, 50))]),
    Property("description", true, [Plain(IsString)])
  ]

  predicate GoodName(v: Value) {
    v.Str? && 3 <= LengthOf(v.s) <= 50
  }

  /** Absent, null, or a string. */
  predicate OptionalString(v: Value) {
    v == Undefined || v == Null || v.Str?
  }

  lemma NameRules(body: map<string, Value>, fmt: FormatCheckers)
    ensures Passes(Schema[0], body, fmt) <==> GoodName(Get(body, "name"))
  {
    var rs := Schema[0].rules;
    assert rs[0] in rs && rs[1] in rs && rs[2] in rs;
  }

  lemma Accepted(body: map<string, Value>, fmt: FormatCheckers)
    ensures Valid(Schema, body, fmt) <==>
      body.Keys <= {"name", "description"} && GoodName(Get(body, "name")) && OptionalString(Get(body, "description"))
  {
    ValidIff(Schema, body, fmt);
    assert NamesOf(Schema) == {"name", "description"} by {
      assert Schema[0] in Schema && Schema[1] in Schema;
    }
    NameRules(body, fmt);
    assert Passes(Schema[1], body, fmt) <==> OptionalString(Get(body, "description")) by {
      assert Schema[1].rules[0] in Schema[1].rules;
    }
    assert (forall i :: 0 <= i < |Schema| ==> Passes(Schema[i], body, fmt)) <==>
      Passes(Schema[0], body, fmt) && Passes(Schema[1], body, fmt);
  }

  /** An empty name fails with the custom 'obligatoire' message. */
  lemma EmptyNameMessage(fmt: FormatCheckers)
    ensures Violation("name", IsNotEmpty, Some(NameRequired)) in Violations(Schema, map["name" := Str("")], fmt)
  {
    assert Rule(IsNotEmpty, Some(NameRequired)) in Schema[0].rules;
  }
}
