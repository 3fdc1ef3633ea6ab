/** src/article/article.service.ts: articles with a category, tags, a
    status and a history of saved versions.

    The store holds the articles by id, the versions of each article in
    the order they were saved, and the ids of the existing categories and
    tags. `update` saves the content it is about to overwrite as a new
    version numbered one past the article's version count; `restoreVersion`
    copies a saved version's content back. Deleting an article deletes its
    versions (the `onDelete: 'CASCADE'` of the version entity). */
module ArticleService {
  import opened Wrappers
  import opened Constants
  import opened JsStrings

  datatype Article = Article(
    title: string,
    content: string,
    status: ArticleStatus,
    authorId: int,
    categoryId: int,
    tags: set<int>)

  datatype Version = Version(id: int, number: int, content: string)

  /** The fields an update body may set; an absent field keeps its value. */
  datatype Patch = Patch(title: Option<string>, content: Option<string>, status: Option<ArticleStatus>)

  const VersionNotFound: string := "Version introuvable"

  const CategoryHead: string := "Catégorie "
  const CategoryTail: string := " introuvable"
  const ArticleHead: string := "Article avec l'ID #"
  const ArticleTail: string := " non trouvé"

  /** The message of the NotFound thrown for an unknown category. */
  function CategoryNotFound(categoryId: int): (m: string)
    ensures StartsWith(m, CategoryHead) && EndsWith(m, CategoryTail)
  {
    var m := CategoryHead + IntToString(categoryId) + CategoryTail;
    assert m[..|CategoryHead|] == CategoryHead;
    assert m[|m| - |CategoryTail|..] == CategoryTail;
    m
  }

  /** The message of the NotFound thrown for an unknown article. */
  function ArticleNotFound(id: int): (m: string)
    ensures StartsWith(m, ArticleHead) && EndsWith(m, ArticleTail)
  {
    var m := ArticleHead + IntToString(id) + ArticleTail;
    assert m[..|ArticleHead|] == ArticleHead;
    assert m[|m| - |ArticleTail|..] == ArticleTail;
    m
  }

  /** Each message names its id: different ids give different messages. */
  lemma NotFoundMessagesInjective(m: int, n: int)
    ensures CategoryNotFound(m) == CategoryNotFound(n) ==> m == n
    ensures ArticleNotFound(m) == ArticleNotFound(n) ==> m == n
  {
    if CategoryNotFound(m) == CategoryNotFound(n) {
      FramedInjective(CategoryHead, IntToString(m), IntToString(n), CategoryTail);
      IntToStringInjective(m, n);
    }
    if ArticleNotFound(m) == ArticleNotFound(n) {
      FramedInjective(ArticleHead, IntToString(m), IntToString(n), ArticleTail);
      IntToStringInjective(m, n);
    }
  }

  /** `dto.status || ArticleStatus.DRAFT`. */
  function InitialStatus(status: Option<ArticleStatus>): (s: ArticleStatus)
    ensures status.Some? ==> s == status.value
    ensures status.None? ==> s == DRAFT
  {
    if status.Some? then status.value else DRAFT
  }

  /** The tags an article is created with: the existing tags among
      `tagIds`, none when `tagIds` is absent or empty. */
  function TagsFor(existing: set<int>, tagIds: Option<seq<int>>): (tags: set<int>)
    ensures tags <= existing
    ensures forall t :: t in tags <==> t in existing && tagIds.Some? && t in tagIds.value
  {
    if tagIds.Some? && |tagIds.value| > 0 then set t | t in existing && t in tagIds.value else {}
  }

  /** `Object.assign(article, updateDto)` restricted to the article's columns. */
  function Apply(a: Article, p: Patch): (r: Article)
    ensures r.authorId == a.authorId && r.categoryId == a.categoryId && r.tags == a.tags
    ensures p.title.Some? ==> r.title == p.title.value
    ensures p.content.Some? ==> r.content == p.content.value
    ensures p.status.Some? ==> r.status == p.status.value
    ensures p.title.None? ==> r.title == a.title
    ensures p.content.None? ==> r.content == a.content
    ensures p.status.None? ==> r.status == a.status
  {
    var a1 := if p.title.Some? then a.(title := p.title.value) else a;
    var a2 := if p.content.Some? then a1.(content := p.content.value) else a1;
    if p.status.Some? then a2.(status := p.status.value) else a2
  }

  /** Applying the same update twice is applying it once. */
  lemma ApplyIdempotent(a: Article, p: Patch)
    ensures Apply(Apply(a, p), p) == Apply(a, p)
  {
  }

  /** An empty update body changes nothing. */
  lemma ApplyEmpty(a: Article)
    ensures Apply(a, Patch(None, None, None)) == a
  {
  }

  /** A history is numbered 1, 2, 3, ... in the order the versions were saved. */
  predicate Numbered(history: seq<Version>) {
    forall i :: 0 <= i < |history| ==> history[i].number == i + 1
  }

  /** Every version id in the history is below `bound`. */
  predicate IdsBelow(history: seq<Version>, bound: int) {
    forall i :: 0 <= i < |history| ==> history[i].id < bound
  }

  /** The version saved by `update`: the current content, numbered one past
      the number of versions so far. */
  function NextVersion(history: seq<Version>, id: int, content: string): (v: Version)
    ensures v.id == id && v.content == content
    ensures Numbered(history) ==> Numbered(history + [v])
  {
    Version(id, |history| + 1, content)
  }

  /** `versionRepository.findOne({ where: { id: versionId, article: { id } } })`
      within the article's history. */
  function FindVersion(history: seq<Version>, versionId: int): (v: Option<Version>)
    ensures v.Some? ==> v.value in history && v.value.id == versionId
    ensures v.None? <==> forall i :: 0 <= i < |history| ==> history[i].id != versionId
  {
    if history == [] then None
    else if history[0].id == versionId then Some(history[0])
    else FindVersion(history[1..], versionId)
  }

  /** Update then restore: the version `update` saves can be found again by
      its fresh id, and restoring it brings back the content the update
      overwrote, keeping the other fields the update set. */
  lemma {:induction false} UpdateRestoreRoundTrip(a: Article, history: seq<Version>, versionId: int, p: Patch)
    requires IdsBelow(history, versionId)
    ensures var saved := history + [NextVersion(history, versionId, a.content)];
      && FindVersion(saved, versionId).Some?
      && Apply(a, p).(content := FindVersion(saved, versionId).value.content)
           == Apply(a, p.(content := None))
  {
    var v := NextVersion(history, versionId, a.content);
    FreshVersionFound(history, v);
  }

  /** A version whose id is above all ids of a history is found when appended. */
  lemma {:induction false} FreshVersionFound(history: seq<Version>, v: Version)
    requires IdsBelow(history, v.id)
    ensures FindVersion(history + [v], v.id) == Some(v)
  {
    if history != [] {
      assert (history + [v])[1..] == history[1..] + [v];
      FreshVersionFound(history[1..], v);
    }
  }

  class ArticleStore {
    var articles: map<int, Article>
    /** The versions of each article, oldest first. */
    var versions: map<int, seq<Version>>
    var categories: set<int>
    var tags: set<int>
    var nextArticleId: int
    var nextVersionId: int

    ghost predicate Valid()
      reads this
    {
      && versions.Keys == articles.Keys && 1 <= nextArticleId
      && (forall id :: id in articles ==> 1 <= id < nextArticleId)
      && (forall id :: id in versions ==> Numbered(versions[id]) && IdsBelow(versions[id], nextVersionId))
    }

    constructor(categories: set<int>, tags: set<int>)
      ensures Valid()
      ensures articles == map[] && versions == map[] && this.categories == categories && this.tags == tags
      ensures nextArticleId == 1 && nextVersionId == 1
    {
      articles := map[];
      versions := map[];
      this.categories := categories;
      this.tags := tags;
      nextArticleId := 1;
      nextVersionId := 1;
    }

    /** `create`: refused when the category does not exist; otherwise a new
        article with no versions. */
    method Create(title: string, content: string, status: Option<ArticleStatus>, categoryId: int,
                  tagIds: Option<seq<int>>, authorId: int) returns (r: Result<int>)
      requires Valid()
      modifies this
      ensures Valid()
      ensures categoryId !in categories ==> r == Err(NotFound(CategoryNotFound(categoryId)))
      ensures categoryId in categories ==> r == Ok(old(nextArticleId))
      ensures r.Err? ==> articles == old(articles) && nextArticleId == old(nextArticleId) && versions == old(versions)
      ensures r.Ok? ==>
        && articles == old(articles)[r.value := Article(title, content, InitialStatus(status), authorId, categoryId, TagsFor(tags, tagIds))]
        && versions == old(versions)[r.value := []]
        && nextArticleId == old(nextArticleId) + 1
      ensures categories == old(categories) && tags == old(tags) && nextVersionId == old(nextVersionId)
    {
      if categoryId !in categories {
        return Err(NotFound(CategoryNotFound(categoryId)));
      }
      var found: set<int> := {};
      if tagIds.Some? && |tagIds.value| > 0 {
        found := set t | t in tags && t in tagIds.value;
      }
      var article := Article(title, content, InitialStatus(status), authorId, categoryId, found);
      var id := nextArticleId;
      articles := articles[id := article];
      versions := versions[id := []];
      nextArticleId := nextArticleId + 1;
      r := Ok(id);
    }

    /** `findOne`. */
    method FindOne(id: int) returns (r: Result<Article>)
      ensures r.Ok? <==> id in articles
      ensures r.Ok? ==> r.value == articles[id]
      ensures r.Err? ==> r.error == NotFound(ArticleNotFound(id))
    {
      if id !in articles {
        return Err(NotFound(ArticleNotFound(id)));
      }
      r := Ok(articles[id]);
    }

    /** `update`: saves the current content as the next version, then
        applies the update. */
    method Update(id: int, patch: Patch) returns (r: Result<Article>)
      requires Valid()
      modifies this
      ensures Valid()
      ensures id !in old(articles) ==> r == Err(NotFound(ArticleNotFound(id))) && unchanged(this)
      ensures id in old(articles) ==>
        && r == Ok(Apply(old(articles[id]), patch))
        && articles == old(articles)[id := r.value]
        && versions == old(versions)[id := old(versions[id]) + [NextVersion(old(versions[id]), old(nextVersionId), old(articles[id].content))]]
        && nextVersionId == old(nextVersionId) + 1
        && categories == old(categories) && tags == old(tags) && nextArticleId == old(nextArticleId)
    {
      var found := FindOne(id);
      if found.Err? {
        return found;
      }
      var article := found.value;
      var version := NextVersion(versions[id], nextVersionId, article.content);
      versions := versions[id := versions[id] + [version]];
      nextVersionId := nextVersionId + 1;
      article := Apply(article, patch);
      articles := articles[id := article];
      r := Ok(article);
    }

    /** `publish` (with `PUBLISHED`) and `archive` (with `ARCHIVED`): only the status changes. */
    method SetStatus(id: int, status: ArticleStatus) returns (r: Result<Article>)
      requires Valid()
      modifies this
      ensures Valid()
      ensures id !in old(articles) ==> r == Err(NotFound(ArticleNotFound(id))) && unchanged(this)
      ensures id in old(articles) ==>
        && r == Ok(old(articles[id]).(status := status))
        && articles == old(articles)[id := r.value]
        && versions == old(versions) && categories == old(categories) && tags == old(tags)
        && nextArticleId == old(nextArticleId) && nextVersionId == old(nextVersionId)
    {
      var found := FindOne(id);
      if found.Err? {
        return found;
      }
      var article := found.value;
      article := article.(status := status);
      articles := articles[id := article];
      r := Ok(article);
    }

    method Publish(id: int) returns (r: Result<Article>)
      requires Valid()
      modifies this
      ensures Valid()
      ensures id !in old(articles) ==> r == Err(NotFound(ArticleNotFound(id))) && unchanged(this)
      ensures id in old(articles) ==>
        && r == Ok(old(articles[id]).(status := PUBLISHED))
        && articles == old(articles)[id := r.value]
        && versions == old(versions) && categories == old(categories) && tags == old(tags)
        && nextArticleId == old(nextArticleId) && nextVersionId == old(nextVersionId)
    {
      r := SetStatus(id, PUBLISHED);
    }

    method Archive(id: int) returns (r: Result<Article>)
      requires Valid()
      modifies this
      ensures Valid()
      ensures id !in old(articles) ==> r == Err(NotFound(ArticleNotFound(id))) && unchanged(this)
      ensures id in old(articles) ==>
        && r == Ok(old(articles[id]).(status := ARCHIVED))
        && articles == old(articles)[id := r.value]
        && versions == old(versions) && categories == old(categories) && tags == old(tags)
        && nextArticleId == old(nextArticleId) && nextVersionId == old(nextVersionId)
    {
      r := SetStatus(id, ARCHIVED);
    }

    /** `restoreVersion`: the version must belong to the article; only the
        content is replaced and no version is recorded. */
    method RestoreVersion(articleId: int, versionId: int) returns (r: Result<Article>)
      requires Valid()
      modifies this
      ensures Valid()
      ensures var v := if articleId in old(versions) then FindVersion(old(versions[articleId]), versionId) else None;
        && (v.None? ==> r == Err(NotFound(VersionNotFound)) && unchanged(this))
        && (v.Some? ==>
          && articleId in old(articles)
          && r == Ok(old(articles[articleId]).(content := v.value.content))
          && articles == old(articles)[articleId := r.value]
          && versions == old(versions) && categories == old(categories) && tags == old(tags)
          && nextArticleId == old(nextArticleId) && nextVersionId == old(nextVersionId))
    {
      if articleId !in versions {
        return Err(NotFound(VersionNotFound));
      }
      var version := FindVersion(versions[articleId], versionId);
      if version.None? {
        return Err(NotFound(VersionNotFound));
      }
      var found := FindOne(articleId);
      if found.Err? {
        assert false;
        return found;
      }
      var article := found.value;
      article := article.(content := version.value.content);
      articles := articles[articleId := article];
      r := Ok(article);
    }

    /** `remove`: deletes the article and, by cascade, its versions. */
    method Remove(id: int) returns (r: Result<()>)
      requires Valid()
      modifies this
      ensures Valid()
      ensures id !in old(articles) ==> r == Err(NotFound(ArticleNotFound(id))) && unchanged(this)
      ensures id in old(articles) ==>
        && r == Ok(())
        && articles == old(articles) - {id} && versions == old(versions) - {id}
        && categories == old(categories) && tags == old(tags)
        && nextArticleId == old(nextArticleId) && nextVersionId == old(nextVersionId)
    {
      var found := FindOne(id);
      if found.Err? {
        return Err(found.error);
      }
      articles := articles - {id};
      versions := versions - {id};
      r := Ok(());
    }
  }
}
