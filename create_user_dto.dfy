/** `CreateUserDto` (src/users/dto/create-user.dto.ts), the registration body. */
module CreateUserDto {
  import opened Wrappers
  import opened JsValues
  import opened ClassValidator
  import LoginDto

  const Schema: seq<Property> := [
    Property("firstName", false, [Plain(IsString), Plain(IsNotEmpty)]),
    Property("lastName", false, [Plain(IsString), Plain(IsNotEmpty)]),
    Property("email", false, [Plain(IsEmail)]),
    Property("password", false, [Plain(IsString), Plain(MinLength(6))])
  ]

  predicate NonEmptyString(v: Value) {
    v.Str? && v.s != []
  }

  predicate GoodEmail(v: Value, fmt: FormatCheckers) {
    v.Str? && fmt.isEmail(v.s)
  }

  predicate GoodPassword(v: Value) {
    v.Str? && LengthOf(v.s) >= 6
  }

  lemma PropertyRules(body: map<string, Value>, fmt: FormatCheckers)
    ensures Passes(Schema[0], body, fmt) <==> NonEmptyString(Get(body, "firstName"))
    ensures Passes(Schema[1], body, fmt) <==> NonEmptyString(Get(body, "lastName"))
    ensures Passes(Schema[2], body, fmt) <==> GoodEmail(Get(body, "email"), fmt)
    ensures Passes(Schema[3], body, fmt) <==> GoodPassword(Get(body, "password"))
  {
    assert Schema[0].rules[0] in Schema[0].rules && Schema[0].rules[1] in Schema[0].rules;
    assert Schema[1].rules[0] in Schema[1].rules && Schema[1].rules[1] in Schema[1].rules;
    assert Schema[2].rules[0] in Schema[2].rules;
    assert Schema[3].rules[0] in Schema[3].rules && Schema[3].rules[1] in Schema[3].rules;
  }

  lemma Accepted(body: map<string, Value>, fmt: FormatCheckers)
    ensures Valid(Schema, body, fmt) <==>
      && body.Keys <= {"firstName", "lastName", "email", "password"}
      && NonEmptyString(Get(body, "firstName")) && NonEmptyString(Get(body, "lastName"))
      && GoodEmail(Get(body, "email"), fmt) && GoodPassword(Get(body, "password"))
  {
    ValidIff(Schema, body, fmt);
    assert NamesOf(Schema) == {"firstName", "lastName", "email", "password"} by {
      assert Schema[0] in Schema && Schema[1] in Schema && Schema[2] in Schema && Schema[3] in Schema;
    }
    PropertyRules(body, fmt);
    assert (forall i :: 0 <= i < |Schema| ==> Passes(Schema[i], body, fmt)) <==>
      Passes(Schema[0], body, fmt) && Passes(Schema[1], body, fmt) &&
      Passes(Schema[2], body, fmt) && Passes(Schema[3], body, fmt);
  }

  /** There is no role property: with the whitelist, a client-chosen role is refused. */
  lemma RoleRejected(body: map<string, Value>, fmt: FormatCheckers)
    requires "role" in body
    ensures Violation("role", Whitelisted, None) in Violations(Schema, body, fmt)
  {
  }

  /** A 6- or 7-character password passes registration but can never pass the login DTO. */
  lemma ShortPasswordGap(body: map<string, Value>, login: map<string, Value>, fmt: FormatCheckers)
    requires Valid(Schema, body, fmt)
    requires Get(body, "password").Str? && LengthOf(Get(body, "password").s) < 8
    requires Get(login, "password") == Get(body, "password")
    ensures !Valid(LoginDto.Schema, login, fmt)
  {
    LoginDto.Accepted(login, fmt);
  }
}
