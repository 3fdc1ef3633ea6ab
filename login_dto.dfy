/** `LoginDto` (src/users/dto/login.dto.ts). */
module LoginDto {
  import opened Wrappers
  import opened JsValues
  import opened ClassValidator

  const Schema: seq<Property> := [
    Property("email", false, [Plain(IsNotEmpty), Plain(IsEmail), Plain(MaxLength(250))]),
    Property("password", false, [Plain(IsString), Plain(MinLength(8)), Plain(IsNotEmpty)])
  ]

  predicate GoodEmail(v: Value, fmt: FormatCheckers) {
    v.Str? && v.s != [] && fmt.isEmail(v.s) && LengthOf(v.s) <= 250
  }

  predicate GoodPassword(v: Value) {
    v.Str? && LengthOf(v.s) >= 8
  }

  lemma EmailRules(body: map<string, Value>, fmt: FormatCheckers)
    ensures Passes(Schema[0], body, fmt) <==> GoodEmail(Get(body, "email"), fmt)
  {
    var rs := Schema[0].rules;
    assert rs[0] in rs && rs[1] in rs && rs[2] in rs;
  }

  lemma PasswordRules(body: map<string, Value>, fmt: FormatCheckers)
    ensures Passes(Schema[1], body, fmt) <==> GoodPassword(Get(body, "password"))
  {
    var rs := Schema[1].rules;
    assert rs[0] in rs && rs[1] in rs && rs[2] in rs;
  }

  /** A login body: a non-empty e-mail address of at most 250 characters and a
      password of at least 8 characters, nothing else. */
  lemma Accepted(body: map<string, Value>, fmt: FormatCheckers)
    ensures Valid(Schema, body, fmt) <==>
      body.Keys <= {"email", "password"} && GoodEmail(Get(body, "email"), fmt) && GoodPassword(Get(body, "password"))
  {
    ValidIff(Schema, body, fmt);
    assert NamesOf(Schema) == {"email", "password"} by {
      assert Schema[0] in Schema && Schema[1] in Schema;
    }
    EmailRules(body, fmt);
    PasswordRules(body, fmt);
    assert (forall i :: 0 <= i < |Schema| ==> Passes(Schema[i], body, fmt)) <==>
      Passes(Schema[0], body, fmt) && Passes(Schema[1], body, fmt);
  }
}
