/**
 * `NewsServiceImpl`: each crawl keeps one representative article for each of the categories
 * 1 to 6 and the five latest articles under category 0. The fetched page is a parameter: an
 * `IOException` from fetching it is `None`, and each `.news-column` element is an `Article`
 * holding the texts the selectors pick out. `upsertNews` updates the row with the same
 * category and link, or inserts one when there is none.
 */
module NewsService {
  import opened Wrappers
  import opened JavaText
  import opened Sorting
  import opened Tables

  /** One `.news-column` element: the `h5 a` text and `href`, the `.info .mdate` text and the `.content a` text. */
  datatype Article = Article(title: string, link: string, date: string, summary: string)

  /** The `categoryKeywords` table; category 4's entries are regular expressions. */
  function Keywords(category: int): (r: seq<string>)
    ensures 1 <= category <= 6 <==> |r| > 0
  {
    if category == 1 then ["예금"]
    else if category == 2 then ["적금"]
    else if category == 3 then ["주택", "담보", "대출"]
    else if category == 4 then ["\\b금\\b", "순금", "골드바", "금 투자", "금 시세"]
    else if category == 5 then ["펀드"]
    else if category == 6 then ["신탁", "상속", "증여", "유언"]
    else []
  }

  /** Whether some keyword passes the test. */
  predicate AnyKeyword(keywords: seq<string>, test: string -> bool) {
    exists i | 0 <= i < |keywords| :: test(keywords[i])
  }

  function ContainedIn(title: string): string -> bool {
    (k: string) => Contains(title, k)
  }

  /** `title.matches(".*" + keyword + ".*")`, with the regular-expression matcher a parameter. */
  function MatchedIn(title: string, regexMatches: (string, string) -> bool): string -> bool {
    (k: string) => regexMatches(title, ".*" + k + ".*")
  }

  /** Whether a title belongs to a category: category 4 by its patterns, every other by containing a keyword. */
  predicate IsMatch(category: int, title: string, regexMatches: (string, string) -> bool) {
    if category == 4 then AnyKeyword(Keywords(4), MatchedIn(title, regexMatches))
    else AnyKeyword(Keywords(category), ContainedIn(title))
  }

  /** Category 3 counts the contained keywords; a count of at least one is containing any. */
  lemma CountMatchesAny(keywords: seq<string>, test: string -> bool)
    ensures |Filter(keywords, test)| >= 1 <==> AnyKeyword(keywords, test)
  {
    FilterMembers(keywords, test);
    if AnyKeyword(keywords, test) {
      var i :| 0 <= i < |keywords| && test(keywords[i]);
      assert keywords[i] in Filter(keywords, test);
    }
    if |Filter(keywords, test)| >= 1 {
      assert Filter(keywords, test)[0] in keywords;
    }
  }

  /** The `for (String keyword : keywords)` loops with their `break`: whether some keyword passes. */
  method AnyKeywordMatches(keywords: seq<string>, test: string -> bool) returns (isMatch: bool)
    ensures isMatch == AnyKeyword(keywords, test)
  {
    isMatch := false;
    var i := 0;
    while i < |keywords|
      invariant 0 <= i <= |keywords|
      invariant forall j | 0 <= j < i :: !test(keywords[j])
    {
      if test(keywords[i]) {
        isMatch := true;
        break;
      }
      i := i + 1;
    }
  }

  /** The `isMatch` computation of the crawl, branch by branch. */
  method TitleMatches(category: int, title: string, regexMatches: (string, string) -> bool) returns (isMatch: bool)
    ensures isMatch == IsMatch(category, title, regexMatches)
  {
    if category == 3 {
      var count := |Filter(Keywords(3), ContainedIn(title))|;
      CountMatchesAny(Keywords(3), ContainedIn(title));
      isMatch := count >= 1;
    } else if category == 4 {
      isMatch := AnyKeywordMatches(Keywords(4), MatchedIn(title, regexMatches));
    } else {
      isMatch := AnyKeywordMatches(Keywords(category), ContainedIn(title));
    }
  }

  // ------------------------------------------------------------------ the news table

  /** The key `upsertNews` writes by: the category and the link. */
  function SameKey(category: int, link: string): NewsVo -> bool {
    (n: NewsVo) => n.category == category && n.link == link
  }

  /** No two rows share a category and a link. */
  predicate NewsKeysDistinct(news: seq<NewsVo>) {
    forall i, j | 0 <= i < j < |news| :: !(news[i].category == news[j].category && news[i].link == news[j].link)
  }

  /** `findByCategory`: the first row of the category, or `null`. */
  function FindByCategory(news: seq<NewsVo>, category: int): (r: Option<NewsVo>)
    ensures r.Some? ==> r.value in news && r.value.category == category
    ensures r.None? <==> forall i | 0 <= i < |news| :: news[i].category != category
  {
    var i := IndexWhere(news, (n: NewsVo) => n.category == category);
    if i.None? then None else Some(news[i.value])
  }

  /** `upsertNews`: the row with the same category and link is overwritten, or the row is appended. */
  function Upsert(news: seq<NewsVo>, vo: NewsVo): (r: seq<NewsVo>)
    ensures vo in r
    ensures |news| <= |r| <= |news| + 1
    ensures forall i | 0 <= i < |news| && !SameKey(vo.category, vo.link)(news[i]) :: r[i] == news[i]
    ensures forall i | 0 <= i < |news| :: r[i].category == news[i].category && r[i].link == news[i].link
  {
    var i := IndexWhere(news, SameKey(vo.category, vo.link));
    if i.None? then
      assert (news + [vo])[|news|] == vo;
      news + [vo]
    else
      assert news[i.value := vo][i.value] == vo;
      news[i.value := vo]
  }

  /** An upsert keeps the keys distinct, and the written key is then held by the written row alone. */
  lemma UpsertKeepsKeysDistinct(news: seq<NewsVo>, vo: NewsVo)
    requires NewsKeysDistinct(news)
    ensures NewsKeysDistinct(Upsert(news, vo))
    ensures forall n | n in Upsert(news, vo) && n.category == vo.category && n.link == vo.link :: n == vo
  {
    var r := Upsert(news, vo);
    var i := IndexWhere(news, SameKey(vo.category, vo.link));
    forall n | n in r && n.category == vo.category && n.link == vo.link
      ensures n == vo
    {
      var k :| 0 <= k < |r| && r[k] == n;
    }
  }

  /** Every key of the table is still there after an upsert. */
  lemma UpsertKeepsKeys(news: seq<NewsVo>, vo: NewsVo, category: int, link: string)
    requires exists i | 0 <= i < |news| :: news[i].category == category && news[i].link == link
    ensures exists i | 0 <= i < |Upsert(news, vo)| :: Upsert(news, vo)[i].category == category && Upsert(news, vo)[i].link == link
  {
    var i :| 0 <= i < |news| && news[i].category == category && news[i].link == link;
    assert Upsert(news, vo)[i].category == category && Upsert(news, vo)[i].link == link;
  }

  // ------------------------------------------------------------------ the crawl, as functions

  /** The reported categories and the table after some steps of the crawl. */
  datatype Crawled = Crawled(reported: seq<int>, news: seq<NewsVo>)

  /** The row a matched article is written as. */
  function RowOf(category: int, a: Article): NewsVo {
    NewsVo(category, a.title, a.link, a.date, a.summary)
  }

  function Matching(category: int, regexMatches: (string, string) -> bool): Article -> bool {
    (a: Article) => IsMatch(category, a.title, regexMatches)
  }

  /**
   * One category of lines 73-123: the first matching article is inserted when the category has
   * no row, upserted when its row has another title, and left alone when the title is the same;
   * the category is reported in the first two cases.
   */
  function CategoryStep(news: seq<NewsVo>, articles: seq<Article>, category: int,
                        regexMatches: (string, string) -> bool): (r: Crawled)
    ensures r.reported == [] || r.reported == [category]
  {
    var i := IndexWhere(articles, Matching(category, regexMatches));
    if i.None? then Crawled([], news)
    else
      var newNews := RowOf(category, articles[i.value]);
      var existing := FindByCategory(news, category);
      if existing.None? then Crawled([category], news + [newNews])
      else if existing.value.title != newNews.title then Crawled([category], Upsert(news, newNews))
      else Crawled([], news)
  }

  /** The categories of a list processed in order. */
  function CategoriesOutcome(news: seq<NewsVo>, articles: seq<Article>, categories: seq<int>,
                             regexMatches: (string, string) -> bool): Crawled
    decreases |categories|
  {
    if categories == [] then Crawled([], news)
    else
      var before := CategoriesOutcome(news, articles, categories[..|categories| - 1], regexMatches);
      var step := CategoryStep(before.news, articles, categories[|categories| - 1], regexMatches);
      Crawled(before.reported + step.reported, step.news)
  }

  /** `Math.min(newsList.size(), 5)`: how many articles the category-0 loop writes. */
  function LatestCount(articles: seq<Article>): (r: nat)
    ensures r <= |articles| && r <= 5
    ensures r == 5 || r == |articles|
  {
    if |articles| < 5 then |articles| else 5
  }

  /** Lines 126-137: the first `k` articles upserted under category 0. */
  function Latest(news: seq<NewsVo>, articles: seq<Article>, k: nat): seq<NewsVo>
    requires k <= |articles|
  {
    if k == 0 then news else Upsert(Latest(news, articles, k - 1), RowOf(0, articles[k - 1]))
  }

  /** The categories in the order the crawl visits them. */
  const CATEGORIES: seq<int> := [1, 2, 3, 4, 5, 6]

  /** A successful crawl: categories 1 to 6, then the latest five under 0, which is always reported last. */
  function Crawl(news: seq<NewsVo>, articles: seq<Article>, regexMatches: (string, string) -> bool): Crawled {
    var categorized := CategoriesOutcome(news, articles, CATEGORIES, regexMatches);
    Crawled(categorized.reported + [0], Latest(categorized.news, articles, LatestCount(articles)))
  }

  // ------------------------------------------------------------------ the crawl, as written

  /**
   * One pass of the loop over `categoryKeywords`: the articles are tried in order, and the first
   * one that matches is written as `CategoryStep` says and ends the pass.
   */
  method SaveCategory(db: Database, newsList: seq<Article>, category: int, regexMatches: (string, string) -> bool)
    returns (reported: seq<int>)
    modifies db`news
    ensures Crawled(reported, db.news) == CategoryStep(old(db.news), newsList, category, regexMatches)
  {
    reported := [];
    var n := 0;
    while n < |newsList|
      invariant 0 <= n <= |newsList|
      invariant forall j | 0 <= j < n :: !Matching(category, regexMatches)(newsList[j])
      invariant reported == [] && db.news == old(db.news)
    {
      var title := newsList[n].title;
      var isMatch := TitleMatches(category, title, regexMatches);
      if !isMatch {
        n := n + 1;
        continue;
      }
      var newNews := RowOf(category, newsList[n]);
      var existing := FindByCategory(db.news, category);
      if existing.None? {
        db.news := db.news + [newNews];
        reported := [category];
      } else if existing.value.title != title {
        db.news := Upsert(db.news, newNews);
        reported := [category];
      }
      assert IndexWhere(newsList, Matching(category, regexMatches)) == Some(n);
      return;
    }
  }

  /** Lines 126-137: the first `min(n, 5)` articles are upserted under category 0. */
  method SaveLatest(db: Database, newsList: seq<Article>)
    modifies db`news
    ensures db.news == Latest(old(db.news), newsList, LatestCount(newsList))
  {
    var maxCount := LatestCount(newsList);
    var i := 0;
    while i < maxCount
      invariant 0 <= i <= maxCount
      invariant db.news == Latest(old(db.news), newsList, i)
    {
      var newNews := RowOf(0, newsList[i]);
      db.news := Upsert(db.news, newNews);
      i := i + 1;
    }
  }

  /**
   * `crawlAndSaveNews`: a failed fetch reports nothing and writes nothing; otherwise every
   * category is processed and the latest articles stored as `Crawl` says.
   */
  method CrawlAndSaveNews(db: Database, fetched: Option<seq<Article>>, regexMatches: (string, string) -> bool)
    returns (updatedCategories: seq<int>)
    requires NewsKeysDistinct(db.news)
    modifies db`news
    ensures NewsKeysDistinct(db.news)
    ensures fetched.None? ==> updatedCategories == [] && db.news == old(db.news)
    ensures fetched.Some? ==> Crawled(updatedCategories, db.news) == Crawl(old(db.news), fetched.value, regexMatches)
  {
    updatedCategories := [];
    if fetched.None? {
      return;
    }
    var newsList := fetched.value;
    var c := 0;
    while c < |CATEGORIES|
      invariant 0 <= c <= |CATEGORIES|
      invariant Crawled(updatedCategories, db.news) == CategoriesOutcome(old(db.news), newsList, CATEGORIES[..c], regexMatches)
    {
      assert CATEGORIES[..c + 1][..c] == CATEGORIES[..c];
      var reported := SaveCategory(db, newsList, CATEGORIES[c], regexMatches);
      updatedCategories := updatedCategories + reported;
      c := c + 1;
    }
    assert CATEGORIES[..6] == CATEGORIES;
    SaveLatest(db, newsList);
    updatedCategories := updatedCategories + [0];
    CrawlKeepsKeysDistinct(old(db.news), newsList, regexMatches);
  }

  // ------------------------------------------------------------------ what a crawl promises

  /**
   * A category is reported exactly when some article matches it and the category has no row or
   * a row with another title; the article acted on is the first matching one, and after an insert
   * it is the category's representative.
   */
  lemma CategoryStepActsOnFirstMatch(news: seq<NewsVo>, articles: seq<Article>, category: int,
                                     regexMatches: (string, string) -> bool, j: nat)
    requires j < |articles| && IsMatch(category, articles[j].title, regexMatches)
    requires forall k | 0 <= k < j :: !IsMatch(category, articles[k].title, regexMatches)
    ensures var step, row := CategoryStep(news, articles, category, regexMatches), RowOf(category, articles[j]);
      && (step.reported == [category] <==> FindByCategory(news, category).None? || FindByCategory(news, category).value.title != articles[j].title)
      && (step.reported != [category] ==> step.reported == [] && step.news == news)
      && (FindByCategory(news, category).None? ==> step.news == news + [row] && FindByCategory(step.news, category) == Some(row))
      && (step.reported == [category] ==> row in step.news)
  {
    var step := CategoryStep(news, articles, category, regexMatches);
    var row := RowOf(category, articles[j]);
    assert IndexWhere(articles, Matching(category, regexMatches)) == Some(j);
    var existing := FindByCategory(news, category);
    if existing.None? {
      assert step == Crawled([category], news + [row]);
      FindAppended(news, row, category);
    } else if existing.value.title != row.title {
      assert step == Crawled([category], Upsert(news, row));
    } else {
      assert step == Crawled([], news);
    }
  }

  /** A row appended to a table without its category is the one found for that category. */
  lemma FindAppended(news: seq<NewsVo>, row: NewsVo, category: int)
    requires forall i | 0 <= i < |news| :: news[i].category != category
    requires row.category == category
    ensures FindByCategory(news + [row], category) == Some(row)
    ensures row in news + [row]
  {
    var s := news + [row];
    assert s[|news|] == row;
    assert forall i | 0 <= i < |news| :: s[i] == news[i];
  }

  /** A category no article matches is neither reported nor written. */
  lemma CategoryStepWithoutMatch(news: seq<NewsVo>, articles: seq<Article>, category: int,
                                 regexMatches: (string, string) -> bool)
    requires forall k | 0 <= k < |articles| :: !IsMatch(category, articles[k].title, regexMatches)
    ensures CategoryStep(news, articles, category, regexMatches) == Crawled([], news)
  {
    assert IndexWhere(articles, Matching(category, regexMatches)).None?;
  }

  /** Every write of a category step keeps the keys distinct. */
  lemma CategoryStepKeepsKeysDistinct(news: seq<NewsVo>, articles: seq<Article>, category: int,
                                      regexMatches: (string, string) -> bool)
    requires NewsKeysDistinct(news)
    ensures NewsKeysDistinct(CategoryStep(news, articles, category, regexMatches).news)
  {
    var i := IndexWhere(articles, Matching(category, regexMatches));
    if i.Some? {
      var newNews := RowOf(category, articles[i.value]);
      if FindByCategory(news, category).None? {
        var s := news + [newNews];
        forall p, q | 0 <= p < q < |s|
          ensures !(s[p].category == s[q].category && s[p].link == s[q].link)
        {
          if q == |news| {
            assert s[p] == news[p];
          }
        }
      } else {
        UpsertKeepsKeysDistinct(news, newNews);
      }
    }
  }

  lemma {:induction false} CategoriesKeepKeysDistinct(news: seq<NewsVo>, articles: seq<Article>, categories: seq<int>,
                                                      regexMatches: (string, string) -> bool)
    requires NewsKeysDistinct(news)
    ensures NewsKeysDistinct(CategoriesOutcome(news, articles, categories, regexMatches).news)
    decreases |categories|
  {
    if categories != [] {
      var init := categories[..|categories| - 1];
      CategoriesKeepKeysDistinct(news, articles, init, regexMatches);
      CategoryStepKeepsKeysDistinct(CategoriesOutcome(news, articles, init, regexMatches).news, articles,
                                    categories[|categories| - 1], regexMatches);
    }
  }

  lemma {:induction false} LatestKeepsKeysDistinct(news: seq<NewsVo>, articles: seq<Article>, k: nat)
    requires k <= |articles| && NewsKeysDistinct(news)
    ensures NewsKeysDistinct(Latest(news, articles, k))
  {
    if k > 0 {
      LatestKeepsKeysDistinct(news, articles, k - 1);
      UpsertKeepsKeysDistinct(Latest(news, articles, k - 1), RowOf(0, articles[k - 1]));
    }
  }

  /** A crawl never stores two rows with one category and link. */
  lemma CrawlKeepsKeysDistinct(news: seq<NewsVo>, articles: seq<Article>, regexMatches: (string, string) -> bool)
    requires NewsKeysDistinct(news)
    ensures NewsKeysDistinct(Crawl(news, articles, regexMatches).news)
  {
    CategoriesKeepKeysDistinct(news, articles, CATEGORIES, regexMatches);
    LatestKeepsKeysDistinct(CategoriesOutcome(news, articles, CATEGORIES, regexMatches).news, articles,
                            LatestCount(articles));
  }

  /** The categories reported for a list are taken from it, in its order. */
  lemma {:induction false} ReportedInOrder(news: seq<NewsVo>, articles: seq<Article>, categories: seq<int>,
                                           regexMatches: (string, string) -> bool)
    requires forall p, q | 0 <= p < q < |categories| :: categories[p] < categories[q]
    ensures forall x | x in CategoriesOutcome(news, articles, categories, regexMatches).reported :: x in categories
    ensures forall p, q | 0 <= p < q < |CategoriesOutcome(news, articles, categories, regexMatches).reported| ::
              CategoriesOutcome(news, articles, categories, regexMatches).reported[p]
              < CategoriesOutcome(news, articles, categories, regexMatches).reported[q]
    decreases |categories|
  {
    if categories != [] {
      var init := categories[..|categories| - 1];
      var last := categories[|categories| - 1];
      ReportedInOrder(news, articles, init, regexMatches);
      var before := CategoriesOutcome(news, articles, init, regexMatches).reported;
      forall p | 0 <= p < |before|
        ensures before[p] < last
      {
        assert before[p] in before;
        var m :| 0 <= m < |init| && init[m] == before[p];
        assert categories[m] == init[m];
      }
    }
  }

  /** A list of categories taken in ascending order from 1 to 6, with 0 appended. */
  lemma ZeroAppended(categorized: seq<int>)
    requires forall x | x in categorized :: x in CATEGORIES
    requires forall p, q | 0 <= p < q < |categorized| :: categorized[p] < categorized[q]
    ensures var reported := categorized + [0];
      && reported[|reported| - 1] == 0
      && (forall p | 0 <= p < |reported| - 1 :: 1 <= reported[p] <= 6)
      && (forall p, q | 0 <= p < q < |reported| - 1 :: reported[p] < reported[q])
  {
    var reported := categorized + [0];
    forall p | 0 <= p < |categorized|
      ensures 1 <= reported[p] <= 6 && reported[p] == categorized[p]
    {
      assert categorized[p] in categorized;
    }
  }

  /**
   * A successful crawl reports each of the categories 1 to 6 at most once, in ascending order,
   * and then 0 once, last.
   */
  lemma CrawlReports(news: seq<NewsVo>, articles: seq<Article>, regexMatches: (string, string) -> bool)
    ensures var reported := Crawl(news, articles, regexMatches).reported;
      && |reported| >= 1 && reported[|reported| - 1] == 0
      && (forall p | 0 <= p < |reported| - 1 :: 1 <= reported[p] <= 6)
      && (forall p, q | 0 <= p < q < |reported| - 1 :: reported[p] < reported[q])
  {
    ReportedInOrder(news, articles, CATEGORIES, regexMatches);
    ZeroAppended(CategoriesOutcome(news, articles, CATEGORIES, regexMatches).reported);
  }

  /** After the category-0 loop, each of the first `k` articles has a category-0 row under its link. */
  lemma {:induction false} LatestStoresEach(news: seq<NewsVo>, articles: seq<Article>, k: nat)
    requires k <= |articles|
    ensures forall j | 0 <= j < k :: exists i | 0 <= i < |Latest(news, articles, k)| ::
              Latest(news, articles, k)[i].category == 0 && Latest(news, articles, k)[i].link == articles[j].link
  {
    if k > 0 {
      LatestStoresEach(news, articles, k - 1);
      var before := Latest(news, articles, k - 1);
      var row := RowOf(0, articles[k - 1]);
      assert Latest(news, articles, k) == Upsert(before, row);
      forall j | 0 <= j < k
        ensures exists i | 0 <= i < |Upsert(before, row)| :: Upsert(before, row)[i].category == 0 && Upsert(before, row)[i].link == articles[j].link
      {
        if j < k - 1 {
          UpsertKeepsKeys(before, row, 0, articles[j].link);
        } else {
          var i :| 0 <= i < |Upsert(before, row)| && Upsert(before, row)[i] == row;
        }
      }
    }
  }

  /** A successful crawl stores each of the first five articles (all, when fewer) under category 0. */
  lemma CrawlStoresLatest(news: seq<NewsVo>, articles: seq<Article>, regexMatches: (string, string) -> bool, j: nat)
    requires j < 5 && j < |articles|
    ensures exists i | 0 <= i < |Crawl(news, articles, regexMatches).news| ::
      Crawl(news, articles, regexMatches).news[i].category == 0 && Crawl(news, articles, regexMatches).news[i].link == articles[j].link
  {
    var categorized := CategoriesOutcome(news, articles, CATEGORIES, regexMatches).news;
    var k := LatestCount(articles);
    LatestStoresEach(categorized, articles, k);
    assert Crawl(news, articles, regexMatches).news == Latest(categorized, articles, k);
    assert j < k;
  }

  // ------------------------------------------------------------------ getAllNews

  /** `NewsDto`. */
  datatype NewsDto = NewsDto(category: int, title: string, link: string, date: string, summary: string)

  function DtoOf(n: NewsVo): NewsDto {
    NewsDto(n.category, n.title, n.link, n.date, n.summary)
  }

  /** `getAllNews`: every stored row, in table order, with its five fields. */
  function AllNews(news: seq<NewsVo>): (r: seq<NewsDto>)
    ensures |r| == |news|
    ensures forall i | 0 <= i < |news| ::
      r[i].category == news[i].category && r[i].title == news[i].title && r[i].link == news[i].link
      && r[i].date == news[i].date && r[i].summary == news[i].summary
  {
    MapAll(news, DtoOf)
  }

  /** The listing loses nothing: the listing of two tables is the same exactly when the tables are. */
  lemma AllNewsInjective(a: seq<NewsVo>, b: seq<NewsVo>)
    ensures AllNews(a) == AllNews(b) <==> a == b
  {
    if AllNews(a) == AllNews(b) {
      assert |a| == |b|;
      forall i | 0 <= i < |a| ensures a[i] == b[i] {
        assert AllNews(a)[i] == AllNews(b)[i];
      }
    }
  }
}
