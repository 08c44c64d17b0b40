/** The reader-facing article list (src/app/articles/page.tsx): the fetched
    list shown as cards, the "Showing" line and the avatar in the header. */
module PublicArticles {

  import opened Types
  import opened Text

  /** The avatar letter: `username ? username.charAt(0).toUpperCase() : "?"`. */
  function Initial(username: string): (r: string)
    ensures |r| == 1
    ensures username == "" ==> r == "?"
    ensures username != "" ==> r[0] == UpperChar(username[0]) && !IsLower(r[0])
  {
    if username == "" then "?" else [UpperChar(username[0])]
  }

  /** The username after a fetch whose body held `data`: the first article's
      author when the list is non-empty. When that article has no author the
      code throws inside its `try`, so the name stays as it was. */
  function UsernameAfterFetch(current: string, data: Option<seq<Article>>): (name: string)
    ensures data.None? || data.value == [] ==> name == current
    ensures data.Some? && data.value != [] && data.value[0].user.Some? ==>
              name == data.value[0].user.value.username
    ensures data.Some? && data.value != [] && data.value[0].user.None? ==> name == current
  {
    if data.Some? && |data.value| > 0 then
      match data.value[0].user
      case Some(author) => author.username
      case None => current
    else current
  }

  /** `article.content?.slice(0, 100)`: the first 100 characters, or all of a
      shorter text; nothing when the article has no content. */
  function Excerpt(content: Option<string>): (e: Option<string>)
    ensures e.None? <==> content.None?
    ensures e.Some? ==> e.value <= content.value
    ensures e.Some? ==> |e.value| == if |content.value| < 100 then |content.value| else 100
  {
    match content
    case None => None
    case Some(text) => Some(Take(text, 100))
  }

  /** What one card shows and links to. */
  datatype Card = Card(href: string, image: Option<string>, title: string, excerpt: Option<string>, category: string)

  /** The card for one article; an empty category name reads "Unknown". */
  function CardOf(a: Article): (c: Card)
    ensures c.href == "/articles/" + a.id && c.image == a.imageUrl && c.title == a.title
    ensures c.excerpt == Excerpt(a.content)
    ensures c.category != ""
    ensures a.category.name != "" ==> c.category == a.category.name
    ensures a.category.name == "" ==> c.category == "Unknown"
  {
    Card("/articles/" + a.id, a.imageUrl, a.title, Excerpt(a.content),
         if a.category.name == "" then "Unknown" else a.category.name)
  }

  /** `articles.map(...)`: one card per article, in order. */
  function Cards(articles: seq<Article>): (cards: seq<Card>)
    ensures |cards| == |articles|
    ensures forall i :: 0 <= i < |articles| ==> cards[i] == CardOf(articles[i])
  {
    if articles == [] then [] else [CardOf(articles[0])] + Cards(articles[1..])
  }

  /** The state of the page component (the scroll flag is left out). */
  class ArticlesPage {
    var articles: seq<Article>
    var total: nat
    var limit: nat
    var username: string

    constructor ()
      ensures articles == [] && total == 0 && limit == 0 && username == ""
    {
      articles, total, limit, username := [], 0, 0, "";
    }

    /** The fetch effect: the list, total and limit with their defaults, then
        the username; a failed request changes nothing. */
    method FetchArticles(res: Remote<ArticleResponse>)
      modifies this
      ensures res.Failed? ==> articles == old(articles) && total == old(total) && limit == old(limit)
                              && username == old(username)
      ensures res.Done? ==> && articles == res.response.data.GetOr([])
                            && total == OrZero(res.response.total)
                            && limit == OrZero(res.response.limit)
                            && username == UsernameAfterFetch(old(username), res.response.data)
    {
      if res.Done? {
        var body := res.response;
        articles := body.data.GetOr([]);
        total := OrZero(body.total);
        limit := OrZero(body.limit);
        username := UsernameAfterFetch(username, body.data);
      }
    }

    /** "Showing : N of T articles", only while `limit` is positive. */
    function ShowingLine(): (line: Option<(nat, nat)>)
      reads this
      ensures line.Some? <==> limit > 0
      ensures line.Some? ==> line.value == (|articles|, total)
    {
      var shown: nat := |articles|;
      if limit > 0 then Some((shown, total)) else None
    }

    /** The grid: the category select and search box are not wired, so every
        fetched article gets a card, in order. */
    function Grid(): (cards: seq<Card>)
      reads this
      ensures |cards| == |articles|
      ensures forall i :: 0 <= i < |articles| ==> cards[i] == CardOf(articles[i])
      ensures forall i :: 0 <= i < |articles| ==> cards[i].href == "/articles/" + articles[i].id
    {
      Cards(articles)
    }
  }

  /** A corollary of `OrZero`, `GetOr` and `UsernameAfterFetch`: a body
      without a list leaves the page with no articles, no total and no
      "Showing" line, whatever it held before. */
  lemma MissingFieldsDefault(p: ArticlesPage, body: ArticleResponse)
    requires body.data.None? && body.total.None? && body.limit.None?
    ensures OrZero(body.total) == 0 && OrZero(body.limit) == 0 && body.data.GetOr([]) == []
    ensures UsernameAfterFetch(p.username, body.data) == p.username
  {
  }
}
