/** The admin article list (src/app/admin/articles/page.tsx): a search over the
    fetched articles, a page of ten rows, Previous/Next buttons bounded by the
    server's page count, and deletion from the local list. */
module AdminArticles {

  import opened Types
  import opened Seqs
  import opened Text

  /** `articlesPerPage`. */
  const PageSize: nat := 10

  /** The search test: the lowercased title, or the lowercased content when
      there is one, includes the lowercased term. */
  function Matches(a: Article, term: string): (m: bool)
    ensures m <==> || OccursIn(Lower(term), Lower(a.title))
                   || (a.content.Some? && OccursIn(Lower(term), Lower(a.content.value)))
  {
    IncludesIffOccurs(Lower(a.title), Lower(term));
    IncludesIffOccurs(Lower(a.content.GetOr("")), Lower(term));
    || Includes(Lower(a.title), Lower(term))
    || (a.content.Some? && Includes(Lower(a.content.value), Lower(term)))
  }

  /** `filteredArticles`. */
  function SearchArticles(articles: seq<Article>, term: string): (r: seq<Article>)
    ensures |r| <= |articles|
    ensures forall a :: a in r <==> a in articles && Matches(a, term)
    ensures forall a :: multiset(r)[a] == if Matches(a, term) then multiset(articles)[a] else 0
  {
    forall a ensures multiset(Filter(articles, (x: Article) => Matches(x, term)))[a]
                     == if Matches(a, term) then multiset(articles)[a] else 0 {
      FilterMultiplicity(articles, (x: Article) => Matches(x, term), a);
    }
    Filter(articles, (a: Article) => Matches(a, term))
  }

  /** The list after `articles.filter(article => article.id !== id)`. */
  function WithoutId(articles: seq<Article>, id: string): (r: seq<Article>)
    ensures |r| <= |articles|
    ensures forall a :: a in r <==> a in articles && a.id != id
  {
    Filter(articles, (a: Article) => a.id != id)
  }

  /** `Math.ceil(total / limit)` for a positive limit. */
  function CeilDiv(total: nat, limit: nat): (pages: nat)
    requires limit > 0
    ensures pages * limit >= total
    ensures pages == 0 || (pages - 1) * limit < total
  {
    (total + limit - 1) / limit
  }

  /** The page count is the least count whose pages hold every article:
      any count that covers the total is at least `CeilDiv`. */
  lemma CeilDivIsLeast(total: nat, limit: nat, m: nat)
    requires limit > 0 && m * limit >= total
    ensures CeilDiv(total, limit) <= m
  {
  }

  /** `filtered.slice(startIndex, startIndex + articlesPerPage)` with
      `startIndex = (page - 1) * articlesPerPage`. */
  function PageRows<T>(items: seq<T>, page: int): (rows: seq<T>)
    requires page >= 1
    ensures |rows| <= PageSize
    ensures (page - 1) * PageSize >= |items| ==> rows == []
    ensures (page - 1) * PageSize < |items| ==>
              |rows| == (if page * PageSize <= |items| then PageSize else |items| - (page - 1) * PageSize)
    ensures forall k :: 0 <= k < |rows| ==>
              (page - 1) * PageSize + k < |items| && rows[k] == items[(page - 1) * PageSize + k]
  {
    var start := (page - 1) * PageSize;
    if start >= |items| then []
    else if start + PageSize <= |items| then items[start..start + PageSize]
    else items[start..]
  }

  /** `Math.max(prev - 1, 1)`. */
  function PreviousPage(page: int): (p: int)
    ensures p >= 1
    ensures page > 1 ==> p == page - 1
    ensures page <= 1 ==> p == 1
  {
    if page - 1 > 1 then page - 1 else 1
  }

  /** `Math.min(prev + 1, totalPages)`. */
  function NextPage(page: int, totalPages: nat): (p: int)
    ensures p <= totalPages
    ensures page < totalPages ==> p == page + 1
    ensures page >= totalPages ==> p == totalPages
  {
    if page + 1 < totalPages then page + 1 else totalPages
  }

  /** The pages 1..n of `items`, laid end to end. */
  function PagesUpTo<T>(items: seq<T>, n: nat): seq<T>
  {
    if n == 0 then [] else PagesUpTo(items, n - 1) + PageRows(items, n)
  }

  /** The first n pages are exactly the first n * 10 items: pages do not
      overlap and leave no gap. */
  lemma {:induction false} PagesUpToIsPrefix<T>(items: seq<T>, n: nat)
    ensures PagesUpTo(items, n) == items[..if n * PageSize <= |items| then n * PageSize else |items|]
  {
    if n > 0 {
      PagesUpToIsPrefix(items, n - 1);
      var start := (n - 1) * PageSize;
      var rows := PageRows(items, n);
      if start < |items| {
        var stop := if n * PageSize <= |items| then n * PageSize else |items|;
        assert rows == items[start..stop];
        assert items[..start] + items[start..stop] == items[..stop];
      } else {
        assert rows == [];
      }
    }
  }

  /** Pages 1..ceil(len / 10) reconstruct the whole list, in order. */
  lemma PagesCoverAll<T>(items: seq<T>)
    ensures PagesUpTo(items, CeilDiv(|items|, PageSize)) == items
  {
    var n := CeilDiv(|items|, PageSize);
    PagesUpToIsPrefix(items, n);
    assert items[..|items|] == items;
  }

  /** A corollary of `SearchArticles` and `Matches`, spelled out: an article
      is shown by the search exactly when its title, or its content when
      present, contains the term, both lowercased. */
  lemma SearchSelectsMatches(articles: seq<Article>, term: string, a: Article)
    ensures a in SearchArticles(articles, term) <==>
              && a in articles
              && (|| OccursIn(Lower(term), Lower(a.title))
                  || (a.content.Some? && OccursIn(Lower(term), Lower(a.content.value))))
  {
  }

  /** The search keeps the input order and only drops articles. */
  lemma SearchIsSubsequence(articles: seq<Article>, term: string)
    ensures IsSubsequence(SearchArticles(articles, term), articles)
  {
    FilterIsSubsequence(articles, (a: Article) => Matches(a, term));
  }

  /** Searching the search result again with the same term changes nothing. */
  lemma SearchIdempotent(articles: seq<Article>, term: string)
    ensures SearchArticles(SearchArticles(articles, term), term) == SearchArticles(articles, term)
  {
    FilterIdempotent(articles, (a: Article) => Matches(a, term));
  }

  /** An empty search box shows every article, in the original order. */
  lemma EmptySearchKeepsAll(articles: seq<Article>)
    ensures SearchArticles(articles, "") == articles
  {
    forall a | a in articles ensures Matches(a, "") {
      assert Includes(Lower(a.title), Lower(""));
    }
    FilterKeepsAll(articles, (a: Article) => Matches(a, ""));
  }

  /** Deleting drops every article with that id, keeps every other one with
      its multiplicity, and keeps their order. */
  lemma WithoutIdRemovesExactly(articles: seq<Article>, id: string, a: Article)
    ensures a !in WithoutId(articles, id) <==> a !in articles || a.id == id
    ensures multiset(WithoutId(articles, id))[a] == if a.id == id then 0 else multiset(articles)[a]
    ensures IsSubsequence(WithoutId(articles, id), articles)
  {
    FilterMultiplicity(articles, (x: Article) => x.id != id, a);
    FilterIsSubsequence(articles, (x: Article) => x.id != id);
  }

  /** The state of the page component. */
  class AdminArticlesPage {
    var articles: seq<Article>
    var categories: seq<Category>
    var searchTerm: string
    var selectedCategory: string
    var deleteOpen: bool
    var deleteId: Option<string>
    var page: int
    var loading: bool
    var total: nat
    var limit: nat

    /** The page number never drops below 1. */
    ghost predicate Valid()
      reads this
    {
      page >= 1
    }

    /** The initial `useState` values. */
    constructor ()
      ensures Valid()
      ensures articles == [] && categories == [] && searchTerm == "" && selectedCategory == ""
      ensures !deleteOpen && deleteId == None && page == 1 && !loading && total == 0 && limit == 0
    {
      articles, categories := [], [];
      searchTerm, selectedCategory := "", "";
      deleteOpen, deleteId := false, None;
      page, loading, total, limit := 1, false, 0, 0;
    }

    /** `filteredArticles`: recomputed from the full list on every render. */
    function Filtered(): (r: seq<Article>)
      reads this
      ensures forall a :: a in r <==> a in articles && Matches(a, searchTerm)
      ensures forall a :: multiset(r)[a] == if Matches(a, searchTerm) then multiset(articles)[a] else 0
      ensures IsSubsequence(r, articles)
    {
      SearchIsSubsequence(articles, searchTerm);
      SearchArticles(articles, searchTerm)
    }

    /** `displayedArticles`. */
    function Displayed(): (rows: seq<Article>)
      reads this
      requires Valid()
      ensures |rows| <= PageSize
      ensures (page - 1) * PageSize >= |Filtered()| ==> rows == []
      ensures (page - 1) * PageSize < |Filtered()| ==>
                |rows| == (if page * PageSize <= |Filtered()| then PageSize else |Filtered()| - (page - 1) * PageSize)
      ensures forall k :: 0 <= k < |rows| ==>
                (page - 1) * PageSize + k < |Filtered()| && rows[k] == Filtered()[(page - 1) * PageSize + k]
    {
      PageRows(Filtered(), page)
    }

    /** "Total Articles": the number of articles the search keeps. */
    function TotalLabel(): (n: nat)
      reads this
      ensures n == |Filtered()|
      ensures n <= |articles|
      ensures searchTerm == "" ==> n == |articles|
    {
      EmptySearchKeepsAll(articles);
      |Filtered()|
    }

    /** `totalPages`, from the server's figures rather than the filtered count;
        absent while `limit` is 0, where the code divides by zero. */
    function TotalPages(): (n: Option<nat>)
      reads this
      ensures n.Some? <==> limit > 0
      ensures n.Some? ==> n.value * limit >= total
      ensures n.Some? ==> n.value == 0 || (n.value - 1) * limit < total
    {
      if limit > 0 then Some(CeilDiv(total, limit)) else None
    }

    /** `fetchCategories`: the list, or [] when the body has none; a failure
        changes nothing. */
    method FetchCategories(res: Remote<Option<seq<Category>>>)
      modifies this
      ensures res.Done? ==> categories == res.response.GetOr([])
      ensures res.Failed? ==> categories == old(categories)
      ensures articles == old(articles) && searchTerm == old(searchTerm) && page == old(page)
      ensures selectedCategory == old(selectedCategory) && deleteOpen == old(deleteOpen)
      ensures deleteId == old(deleteId) && loading == old(loading)
      ensures total == old(total) && limit == old(limit)
    {
      if res.Done? {
        categories := res.response.GetOr([]);
      }
    }

    /** `fetchArticles`: sets loading, takes the body's list, total and limit
        (missing ones as [], 0, 0) and clears loading whatever happened. */
    method FetchArticles(res: Remote<ArticleResponse>)
      requires Valid()
      modifies this
      ensures Valid() && !loading
      ensures res.Done? ==> && articles == res.response.data.GetOr([])
                            && total == OrZero(res.response.total)
                            && limit == OrZero(res.response.limit)
      ensures res.Failed? ==> articles == old(articles) && total == old(total) && limit == old(limit)
      ensures categories == old(categories) && searchTerm == old(searchTerm) && page == old(page)
      ensures selectedCategory == old(selectedCategory)
      ensures deleteOpen == old(deleteOpen) && deleteId == old(deleteId)
    {
      loading := true;
      if res.Done? {
        articles := res.response.data.GetOr([]);
        total := OrZero(res.response.total);
        limit := OrZero(res.response.limit);
      }
      loading := false;
    }

    /** The search box's `onChange`: new term, back to page 1. */
    method SetSearchTerm(term: string)
      modifies this
      ensures Valid()
      ensures searchTerm == term && page == 1
      ensures articles == old(articles) && categories == old(categories)
      ensures selectedCategory == old(selectedCategory) && deleteOpen == old(deleteOpen)
      ensures deleteId == old(deleteId) && loading == old(loading)
      ensures total == old(total) && limit == old(limit)
    {
      searchTerm := term;
      page := 1;
    }

    /** The category select's `onChange`: the choice is stored and the page
        reset, but the choice takes no part in filtering. */
    method SelectCategory(categoryId: string)
      modifies this
      ensures Valid()
      ensures selectedCategory == categoryId && page == 1
      ensures Filtered() == old(Filtered())
      ensures articles == old(articles) && categories == old(categories)
      ensures searchTerm == old(searchTerm) && deleteOpen == old(deleteOpen)
      ensures deleteId == old(deleteId) && loading == old(loading)
      ensures total == old(total) && limit == old(limit)
    {
      selectedCategory := categoryId;
      page := 1;
    }

    /** The Previous button: disabled on page 1, otherwise one page back, never below 1. */
    method Previous()
      requires Valid()
      modifies this`page
      ensures Valid()
      ensures page == (if old(page) == 1 then old(page) else PreviousPage(old(page)))
      ensures page == (if old(page) > 1 then old(page) - 1 else 1)
    {
      if page != 1 {
        page := PreviousPage(page);
      }
    }

    /** The Next button: disabled on the last page and when there are no pages,
        otherwise one page on, never past `totalPages`. While `limit` is 0 the
        model leaves the page alone (see README). */
    method Next()
      requires Valid()
      modifies this`page
      ensures Valid()
      ensures TotalPages().None? ==> page == old(page)
      ensures TotalPages().Some? ==>
                var n := TotalPages().value;
                page == (if old(page) == n || n == 0 then old(page) else NextPage(old(page), n))
      ensures TotalPages().Some? && old(page) < TotalPages().value ==> page == old(page) + 1
      ensures TotalPages().Some? && old(page) <= TotalPages().value ==> page <= TotalPages().value
    {
      var n := TotalPages();
      if n.Some? && page != n.value && n.value != 0 {
        page := NextPage(page, n.value);
      }
    }

    /** A row's Delete button opens the confirmation for that article. */
    method OpenDelete(id: string)
      modifies this`deleteOpen, this`deleteId
      ensures deleteOpen && deleteId == Some(id)
    {
      deleteOpen, deleteId := true, Some(id);
    }

    /** Cancel closes the confirmation and forgets the article. */
    method CancelDelete()
      modifies this`deleteOpen, this`deleteId
      ensures !deleteOpen && deleteId == None
    {
      deleteOpen, deleteId := false, None;
    }

    /** Confirm: `deleteModal.id && handleDelete(deleteModal.id)`. */
    method ConfirmDelete(cookie: Option<string>, res: Remote<()>)
      modifies this`articles, this`deleteOpen, this`deleteId
      ensures old(deleteId).None? || old(deleteId) == Some("") ==>
                articles == old(articles) && deleteOpen == old(deleteOpen) && deleteId == old(deleteId)
      ensures old(deleteId).Some? && old(deleteId) != Some("") ==>
                var (a, o, i) := AfterDelete(old(articles), old(deleteOpen), old(deleteId), old(deleteId).value, cookie, res);
                articles == a && deleteOpen == o && deleteId == i
    {
      if deleteId.Some? && deleteId.value != "" {
        HandleDelete(deleteId.value, cookie, res);
      }
    }

    /** `handleDelete(id)`: without a token nothing changes; after the server
        deletes, the article leaves the local list and the dialog closes; a
        failed request changes nothing. */
    method HandleDelete(id: string, cookie: Option<string>, res: Remote<()>)
      modifies this`articles, this`deleteOpen, this`deleteId
      ensures (articles, deleteOpen, deleteId) == AfterDelete(old(articles), old(deleteOpen), old(deleteId), id, cookie, res)
    {
      var token := cookie.GetOr("");
      if token == "" {
        return;
      }
      if res.Failed? {
        return;
      }
      articles := WithoutId(articles, id);
      deleteOpen, deleteId := false, None;
    }
  }

  /** The list and dialog state after `handleDelete(id)`. */
  function AfterDelete(articles: seq<Article>, open: bool, openId: Option<string>, id: string,
                       cookie: Option<string>, res: Remote<()>): (r: (seq<Article>, bool, Option<string>))
    ensures cookie.GetOr("") == "" || res.Failed? ==> r == (articles, open, openId)
    ensures cookie.GetOr("") != "" && res.Done? ==>
              && !r.1 && r.2 == None
              && (forall a :: a in r.0 <==> a in articles && a.id != id)
              && (forall a :: multiset(r.0)[a] == if a.id == id then 0 else multiset(articles)[a])
    ensures IsSubsequence(r.0, articles)
  {
    forall a ensures multiset(WithoutId(articles, id))[a] == if a.id == id then 0 else multiset(articles)[a] {
      FilterMultiplicity(articles, (x: Article) => x.id != id, a);
    }
    FilterIsSubsequence(articles, (x: Article) => x.id != id);
    SubsequenceOfSelf(articles);
    if cookie.GetOr("") == "" || res.Failed? then (articles, open, openId)
    else (WithoutId(articles, id), false, None)
  }

  /** A corollary of `AfterDelete`, for one article: a delete without a token
      removes nothing; a confirmed one removes exactly the articles with that
      id and closes the dialog. */
  lemma DeleteOutcome(articles: seq<Article>, open: bool, openId: Option<string>, id: string,
                      cookie: Option<string>, res: Remote<()>, a: Article)
    ensures cookie.GetOr("") == "" ==> AfterDelete(articles, open, openId, id, cookie, res).0 == articles
    ensures cookie.GetOr("") != "" && res.Done? ==>
              var (after, o, i) := AfterDelete(articles, open, openId, id, cookie, res);
              && !o && i == None
              && (a in after <==> a in articles && a.id != id)
              && multiset(after)[a] == (if a.id == id then 0 else multiset(articles)[a])
              && IsSubsequence(after, articles)
  {
  }
}
