/** The profile page (src/app/user_profile/page.tsx): the username taken from
    the article list, its avatar letter, and two fixed fields. */
module UserProfile {

  import opened Types
  import opened PublicArticles

  /** What the profile card shows. */
  datatype ProfileCard = ProfileCard(initial: string, username: string, password: string, role: string)

  /** The username after the fetch effect: a failed request (or one whose first
      article has no author, which throws inside the `try`) keeps the old name. */
  function NameAfter(name: string, res: Remote<ArticleResponse>): (n: string)
    ensures res.Failed? ==> n == name
    ensures res.Done? && (res.response.data.None? || res.response.data.value == []) ==> n == name
    ensures res.Done? && res.response.data.Some? && res.response.data.value != [] ==>
              n == (match res.response.data.value[0].user
                    case Some(author) => author.username
                    case None => name)
  {
    if res.Failed? then name else UsernameAfterFetch(name, res.response.data)
  }

  class ProfilePage {
    var username: string

    constructor ()
      ensures username == ""
    {
      username := "";
    }

    /** The fetch effect: only the username is kept from the response. */
    method FetchArticles(res: Remote<ArticleResponse>)
      modifies this
      ensures username == NameAfter(old(username), res)
    {
      if res.Done? {
        username := UsernameAfterFetch(username, res.response.data);
      }
    }

    /** The rendered card: the password and role shown are constants. */
    function Card(): (c: ProfileCard)
      reads this
      ensures c.initial == Initial(username) && c.username == username
      ensures c.password == "user123" && c.role == "User"
    {
      ProfileCard(Initial(username), username, "user123", "User")
    }
  }

  /** A fresh page whose fetch failed, or returned no articles, still shows
      "?" as its avatar. */
  lemma FailedFetchShowsUnknown(res: Remote<ArticleResponse>)
    requires res.Failed? || res.response.data.None? || res.response.data.value == []
    ensures Initial(NameAfter("", res)) == "?"
  {
  }
}
