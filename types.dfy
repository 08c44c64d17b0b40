/** The records the frontend receives from the remote API (src/types/article.ts)
    and the small wrappers used for missing fields and remote outcomes. */
module Types {

  /** A field that a JSON response may leave out (`undefined`/`null`). */
  datatype Option<+T> = None | Some(value: T) {
    /** `x ?? d`, `x || d` for a value whose only falsy form is absence. */
    function GetOr(default: T): T {
      match this
      case Some(v) => v
      case None => default
    }
  }

  /** A value, or the message of the `Error` thrown instead. */
  datatype Result<+T> = Ok(value: T) | Err(message: string)

  /** The outcome of one awaited remote call: the response, or the exception it threw. */
  datatype Remote<+T> = Done(response: T) | Failed

  /** The author of an article, as the API embeds it (`User` in article.ts). */
  datatype Author = Author(id: string, username: string, email: Option<string>)

  datatype Category = Category(
    id: string,
    userId: string,
    name: string,
    createdAt: string,
    updatedAt: string)

  /** An article as listed by `GET /articles`. The code reads `content` with
      optional chaining, so it is modelled as possibly absent. */
  datatype Article = Article(
    id: string,
    userId: string,
    categoryId: string,
    title: string,
    content: Option<string>,
    imageUrl: Option<string>,
    createdAt: string,
    updatedAt: string,
    category: Category,
    user: Option<Author>)

  /** The body of `GET /articles`; every field may be missing. */
  datatype ArticleResponse = ArticleResponse(
    data: Option<seq<Article>>,
    total: Option<nat>,
    page: Option<nat>,
    limit: Option<nat>)

  /** `res.data.total || 0`: a missing figure and a zero both read as 0. */
  function OrZero(n: Option<nat>): (r: nat)
    ensures n.Some? ==> r == n.value
    ensures n.None? ==> r == 0
  {
    n.GetOr(0)
  }
}
