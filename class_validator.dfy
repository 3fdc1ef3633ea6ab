/** The part of class-validator (as applied by the global NestJS
    `ValidationPipe` with `whitelist` and `forbidNonWhitelisted`) that the
    DTOs of the backend use: each DTO is a schema of decorated properties,
    and a request body is valid when it has no undeclared property and every
    property passes all of its decorators, except that `@IsOptional()` skips
    them all when the value is null or undefined.

    The e-mail and URL checks of the library are not re-specified: they are
    the two predicates of `FormatCheckers`.
 */
module ClassValidator {
  import opened Wrappers
  import opened JsValues

  /** The regular expressions used with `@Matches`. */
  datatype Pattern =
    | LettersDigitsHyphens   // /^[a-zA-Z0-9-]+$/

  /** The decorators, with their arguments. */
  datatype Constraint =
    | IsString
    | IsNotEmpty
    | IsNumber
    | IsInt
    | IsArray
    | IsEnum(values: seq<string>)
    | Min(least: real)
    | Max(most: real)
    | Length(min: nat, max: nat)
    | MinLength(min: nat)
    | MaxLength(max: nat)
    | Matches(pattern: Pattern)
    | IsEmail
    | IsUrl
    | Whitelisted   // the property is not declared by the DTO

  /** A decorator, with the custom `message` option when the source gives one. */
  datatype Rule = Rule(constraint: Constraint, message: Option<string>)

  datatype Property = Property(name: string, optional: bool, rules: seq<Rule>)

  datatype Violation = Violation(property: string, constraint: Constraint, message: Option<string>)

  /** The library's `isEmail` and `isURL`, left uninterpreted. */
  datatype FormatCheckers = FormatCheckers(isEmail: string -> bool, isUrl: string -> bool)

  function Plain(c: Constraint): Rule {
    Rule(c, None)
  }

  /** validator.js `isLength` counts code points, not counting the emoji
      presentation selectors U+FE0E and U+FE0F. */
  function LengthOf(s: string): (n: nat)
    ensures n <= |s|
  {
    if s == [] then 0
    else (if s[0] == '\U{FE0E}' || s[0] == '\U{FE0F}' then 0 else 1) + LengthOf(s[1..])
  }

  /** Without presentation selectors the counted length is the number of code points. */
  lemma {:induction false} LengthOfPlain(s: string)
    requires forall i :: 0 <= i < |s| ==> s[i] != '\U{FE0E}' && s[i] != '\U{FE0F}'
    ensures LengthOf(s) == |s|
  {
    if s != [] {
      LengthOfPlain(s[1..]);
    }
  }

  predicate IsAsciiLetterOrDigit(c: char) {
    ('a' <= c <= 'z') || ('A' <= c <= 'Z') || ('0' <= c <= '9')
  }

  predicate MatchesPattern(p: Pattern, s: string) {
    match p
    case LettersDigitsHyphens =>
      s != [] && forall i :: 0 <= i < |s| ==> IsAsciiLetterOrDigit(s[i]) || s[i] == '-'
  }

  /** Whether value `v` passes decorator `c`. */
  predicate Check(c: Constraint, v: Value, fmt: FormatCheckers) {
    match c
    case IsString => v.Str?
    case IsNotEmpty => v != Str([]) && v != Null && v != Undefined
    case IsNumber => v.Num? && v.n.Finite?
    case IsInt => v.Num? && IsInteger(v.n)
    case IsArray => v.Arr?
    case IsEnum(values) => v.Str? && v.s in values
    case Min(m) => v.Num? && AtLeast(v.n, m)
    case Max(m) => v.Num? && AtMost(v.n, m)
    case Length(lo, hi) => v.Str? && lo <= LengthOf(v.s) <= hi
    case MinLength(lo) => v.Str? && lo <= LengthOf(v.s)
    case MaxLength(hi) => v.Str? && LengthOf(v.s) <= hi
    case Matches(p) => v.Str? && MatchesPattern(p, v.s)
    case IsEmail => v.Str? && fmt.isEmail(v.s)
    case IsUrl => v.Str? && fmt.isUrl(v.s)
    case Whitelisted => false
  }

  /** `@IsOptional()` with a null or undefined value: no other decorator runs. */
  predicate Skipped(p: Property, obj: map<string, Value>) {
    p.optional && (Get(obj, p.name) == Undefined || Get(obj, p.name) == Null)
  }

  predicate Declared(schema: seq<Property>, key: string) {
    exists p :: p in schema && p.name == key
  }

  predicate Passes(p: Property, obj: map<string, Value>, fmt: FormatCheckers) {
    Skipped(p, obj) || forall r :: r in p.rules ==> Check(r.constraint, Get(obj, p.name), fmt)
  }

  /** The body is accepted by the validation pipe. */
  predicate Valid(schema: seq<Property>, obj: map<string, Value>, fmt: FormatCheckers) {
    && (forall k :: k in obj ==> Declared(schema, k))
    && (forall p :: p in schema ==> Passes(p, obj, fmt))
  }

  function NamesOf(schema: seq<Property>): set<string> {
    set p | p in schema :: p.name
  }

  /** Validity property by property: no undeclared key, and each declared property passes. */
  lemma ValidIff(schema: seq<Property>, obj: map<string, Value>, fmt: FormatCheckers)
    ensures Valid(schema, obj, fmt) <==>
      obj.Keys <= NamesOf(schema) && forall i :: 0 <= i < |schema| ==> Passes(schema[i], obj, fmt)
  {
    forall k | k in obj ensures Declared(schema, k) <==> k in NamesOf(schema) {
    }
    if forall i :: 0 <= i < |schema| ==> Passes(schema[i], obj, fmt) {
      forall p | p in schema ensures Passes(p, obj, fmt) {
        var i :| 0 <= i < |schema| && schema[i] == p;
      }
    }
  }

  /** The validation errors of a body: one per undeclared property and one per
      failed decorator of a property that is not skipped. */
  function Violations(schema: seq<Property>, obj: map<string, Value>, fmt: FormatCheckers): (errs: set<Violation>)
    ensures errs == {} <==> Valid(schema, obj, fmt)
    ensures forall k :: k in obj && !Declared(schema, k) ==> Violation(k, Whitelisted, None) in errs
    ensures forall p, r :: p in schema && r in p.rules && !Skipped(p, obj) && !Check(r.constraint, Get(obj, p.name), fmt)
              ==> Violation(p.name, r.constraint, r.message) in errs
    ensures forall e :: e in errs && e.constraint != Whitelisted ==>
              exists p :: p in schema && p.name == e.property && !Skipped(p, obj) &&
                Rule(e.constraint, e.message) in p.rules && !Check(e.constraint, Get(obj, p.name), fmt)
  {
    var unknown := set k | k in obj && !Declared(schema, k) :: Violation(k, Whitelisted, None);
    var failed := set p, r | p in schema && r in p.rules && !Skipped(p, obj) && !Check(r.constraint, Get(obj, p.name), fmt)
                    :: Violation(p.name, r.constraint, r.message);
    var errs := unknown + failed;
    assert !Valid(schema, obj, fmt) ==> errs != {} by {
      if !Valid(schema, obj, fmt) {
        if exists k :: k in obj && !Declared(schema, k) {
          var k :| k in obj && !Declared(schema, k);
          assert Violation(k, Whitelisted, None) in unknown;
        } else {
          var p :| p in schema && !Passes(p, obj, fmt);
          var r :| r in p.rules && !Check(r.constraint, Get(obj, p.name), fmt);
          assert Violation(p.name, r.constraint, r.message) in failed;
        }
      }
    }
    errs
  }
}
