/** `CreateTagDto` (src/tag/dto/create-tag.dto.ts): a tag name of 2 to 20
    ASCII letters, digits and hyphens. */
module CreateTagDto {
  import opened Wrappers
  import opened JsValues
  import opened ClassValidator

  const NameRequired: string := "Le nom du tag est obligatoire"
  const NameCharset: string := "Le tag ne doit contenir que des lettres, chiffres ou tirets"

  const Schema: seq<Property> := [
    Property("name", false, [
      Plain(IsString),
      Rule(IsNotEmpty, Some(NameRequired)),
      Plain(Length(2, 20)),
      Rule(Matches(LettersDigitsHyphens), Some(NameCharset))])
  ]

  predicate TagChar(c: char) {
    IsAsciiLetterOrDigit(c) || c == '-'
  }

  /** The tag names the DTO is meant to accept, stated independently of the decorators. */
  predicate GoodName(s: string) {
    2 <= LengthOf(s) <= 20 && forall i :: 0 <= i < |s| ==> TagChar(s[i])
  }

  /** A body is accepted exactly when its only property is a well-formed name. */
  lemma Accepted(body: map<string, Value>, fmt: FormatCheckers)
    ensures Valid(Schema, body, fmt) <==>
      body.Keys == {"name"} && body["name"].Str? && GoodName(body["name"].s)
  {
    if Valid(Schema, body, fmt) {
      assert Passes(Schema[0], body, fmt);
      assert Get(body, "name").Str?;
    }
  }

  /** An empty name fails with the custom 'obligatoire' message. */
  lemma EmptyNameMessage(fmt: FormatCheckers)
    ensures Violation("name", IsNotEmpty, Some(NameRequired)) in Violations(Schema, map["name" := Str("")], fmt)
  {
    assert Rule(IsNotEmpty, Some(NameRequired)) in Schema[0].rules;
  }

  /** A space, a '#' or an '_' in the name is refused by the pattern. */
  lemma RejectedCharacters(s: string, i: nat, fmt: FormatCheckers)
    requires i < |s| && s[i] in {' ', '#', '_'}
    ensures Violation("name", Matches(LettersDigitsHyphens), Some(NameCharset)) in Violations(Schema, map["name" := Str(s)], fmt)
  {
    assert Rule(Matches(LettersDigitsHyphens), Some(NameCharset)) in Schema[0].rules;
    assert !TagChar(s[i]);
  }
}
