/** `UpdateUserDto` (src/users/dto/update-user.dto.ts): every property is
    optional; present ones are checked. */
module UpdateUserDto {
  import opened Wrappers
  import opened JsValues
  import opened ClassValidator
  import Constants

  const OptionalStrings: seq<string> := [
    "phone", "bio", "country", "city", "state", "postalCode", "profileImage",
    "facebook", "twitter", "linkedin", "instagram"]

  function OptionalString(name: string): Property {
    Property(name, true, [Plain(IsString)])
  }

  const Schema: seq<Property> := [
    Property("firstName", true, [Plain(IsString), Plain(Length(1, 100))]),
    Property("lastName", true, [Plain(IsString), Plain(Length(1, 100))]),
    Property("email", true, [Plain(IsEmail)]),
    OptionalString("phone"), OptionalString("bio"), OptionalString("country"),
    OptionalString("city"), OptionalString("state"), OptionalString("postalCode"),
    OptionalString("profileImage"), OptionalString("facebook"), OptionalString("twitter"),
    OptionalString("linkedin"), OptionalString("instagram"),
    Property("role", true, [Plain(IsEnum(Constants.RoleValues))])
  ]

  predicate Missing(v: Value) {
    v == Undefined || v == Null
  }

  /** What each property must be when present, stated independently of the decorators. */
  predicate GoodField(name: string, v: Value, fmt: FormatCheckers) {
    Missing(v) ||
    if name == "firstName" || name == "lastName" then v.Str? && 1 <= LengthOf(v.s) <= 100
    else if name == "email" then v.Str? && fmt.isEmail(v.s)
    else if name == "role" then v.Str? && v.s in Constants.RoleValues
    else v.Str?
  }

  lemma PropertyRules(body: map<string, Value>, fmt: FormatCheckers, i: nat)
    requires i < |Schema|
    ensures Passes(Schema[i], body, fmt) <==> GoodField(Schema[i].name, Get(body, Schema[i].name), fmt)
  {
    var rs := Schema[i].rules;
    assert rs[0] in rs;
    if i < 2 {
      assert rs[1] in rs;
    }
  }

  /** An empty object is a valid update. */
  lemma EmptyBodyAccepted(fmt: FormatCheckers)
    ensures Valid(Schema, map[], fmt)
  {
    forall i | 0 <= i < |Schema| ensures Passes(Schema[i], map[], fmt) {
      PropertyRules(map[], fmt, i);
    }
    ValidIff(Schema, map[], fmt);
  }

  /** A body is accepted exactly when it names only declared properties and
      each present one has the right shape. */
  lemma Accepted(body: map<string, Value>, fmt: FormatCheckers)
    ensures Valid(Schema, body, fmt) <==>
      body.Keys <= NamesOf(Schema) && forall i :: 0 <= i < |Schema| ==> GoodField(Schema[i].name, Get(body, Schema[i].name), fmt)
  {
    ValidIff(Schema, body, fmt);
    forall i | 0 <= i < |Schema| {
      PropertyRules(body, fmt, i);
    }
  }

  /** A role outside the enumeration is refused. */
  lemma UnknownRoleRejected(body: map<string, Value>, fmt: FormatCheckers)
    requires Get(body, "role").Str? && Get(body, "role").s !in Constants.RoleValues
    ensures !Valid(Schema, body, fmt)
  {
    PropertyRules(body, fmt, 14);
    ValidIff(Schema, body, fmt);
  }
}
