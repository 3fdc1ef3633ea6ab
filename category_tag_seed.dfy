/** `seedCategoriesAndTags` (src/seeds/category-tag.seed.ts): fills the
    category table and the tag table with fixed rows, each only when that
    table is empty. */
module CategoryTagSeed {
  import opened Wrappers
  import opened JsValues
  import opened ClassValidator
  import CreateTagDto
  import CreateCategoryDto

  datatype Category = Category(name: string, description: string)

  /** The six categories, in the order they are saved. */
  const SeedCategories: seq<Category> := [
    Category("Développement", "Articles liés au développement logiciel"),
    Category("Design", "Articles sur le design et l'UX/UI"),
    Category("Marketing", "Stratégies marketing et communication"),
    Category("RH", "Ressources humaines et gestion d'équipe"),
    Category("Finance", "Gestion financière et comptabilité"),
    Category("Juridique", "Aspects juridiques et conformité")
  ]

  /** The twenty tag names, in the order they are saved. */
  const SeedTags: seq<string> := [
    "#React", "#TypeScript", "#Guide", "#Tutoriel", "#Best Practices",
    "#Nouveau", "#Important", "#Urgent", "#Node.js", "#Frontend",
    "#Backend", "#DevOps", "#Security", "#Performance", "#Testing",
    "#Architecture", "#Database", "#API", "#UI/UX", "#Mobile"
  ]

  /** The two tables the seed writes to. */
  class Database {
    var categories: seq<Category>
    var tags: seq<string>

    constructor(categories: seq<Category>, tags: seq<string>)
      ensures this.categories == categories && this.tags == tags
    {
      this.categories := categories;
      this.tags := tags;
    }

    /** Each table is filled only when it is empty, and then with exactly
        the listed rows; the two decisions are taken independently. */
    method SeedCategoriesAndTags()
      modifies this
      ensures categories == (if old(|categories|) == 0 then SeedCategories else old(categories))
      ensures tags == (if old(|tags|) == 0 then SeedTags else old(tags))
    {
      var existingCategories := |categories|;
      if existingCategories == 0 {
        categories := categories + SeedCategories;
      }
      var existingTags := |tags|;
      if existingTags == 0 {
        tags := tags + SeedTags;
      }
    }

    /** Seeding a second time changes nothing. */
    method SeedTwice()
      modifies this
      ensures categories == (if old(|categories|) == 0 then SeedCategories else old(categories))
      ensures tags == (if old(|tags|) == 0 then SeedTags else old(tags))
    {
      SeedCategoriesAndTags();
      SeedListsNonEmpty();
      SeedCategoriesAndTags();
    }
  }

  lemma SeedListsNonEmpty()
    ensures |SeedCategories| == 6 && |SeedTags| == 20
  {
  }

  /** Every seeded tag name is one the tag DTO refuses: each begins with '#'. */
  lemma SeededTagsRefusedByDto(i: nat, fmt: FormatCheckers)
    requires i < |SeedTags|
    ensures Violation("name", Matches(LettersDigitsHyphens), Some(CreateTagDto.NameCharset))
              in Violations(CreateTagDto.Schema, map["name" := Str(SeedTags[i])], fmt)
  {
    assert SeedTags[i][0] == '#';
    CreateTagDto.RejectedCharacters(SeedTags[i], 0, fmt);
  }

  /** A name without presentation selectors goes through the category DTO
      exactly when it has 3 to 50 code points. */
  lemma CategoryNameVersusDto(name: string, fmt: FormatCheckers)
    requires forall j :: 0 <= j < |name| ==> name[j] < '\U{FE00}'
    ensures Valid(CreateCategoryDto.Schema, map["name" := Str(name)], fmt) <==> 3 <= |name| <= 50
  {
    var body := map["name" := Str(name)];
    CreateCategoryDto.Accepted(body, fmt);
    assert Get(body, "description") == Undefined;
    LengthOfPlain(name);
  }

  /** The seeded category "RH" is shorter than the category DTO allows;
      the other five names are accepted by it. */
  lemma SeededCategoryNamesVersusDto(fmt: FormatCheckers)
    ensures !Valid(CreateCategoryDto.Schema, map["name" := Str(SeedCategories[3].name)], fmt)
    ensures forall i :: 0 <= i < |SeedCategories| && i != 3 ==>
              Valid(CreateCategoryDto.Schema, map["name" := Str(SeedCategories[i].name)], fmt)
  {
    forall i | 0 <= i < |SeedCategories|
      ensures Valid(CreateCategoryDto.Schema, map["name" := Str(SeedCategories[i].name)], fmt) <==> i != 3
    {
      var name := SeedCategories[i].name;
      assert forall j :: 0 <= j < |name| ==> name[j] < '\U{FE00}';
      CategoryNameVersusDto(name, fmt);
    }
  }
}
