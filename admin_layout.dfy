/** The admin shell (src/app/admin/layout.tsx): the heading and the side
    navigation highlight, both read off the current pathname. */
module AdminLayout {

  import opened Text

  /** `pathname.includes(href)`: the test that highlights a side link (and
      picks the heading). */
  function LinkActive(pathname: string, href: string): (b: bool)
    ensures b <==> OccursIn(href, pathname)
  {
    IncludesIffOccurs(pathname, href);
    Includes(pathname, href)
  }

  const ArticlesHref := "/admin/articles"
  const CategoryHref := "/admin/category"

  /** `pageTitle`: the articles test wins over the category test. */
  function PageTitle(pathname: string): (title: string)
    ensures title in {"Articles", "Category", ""}
  {
    if LinkActive(pathname, ArticlesHref) then "Articles"
    else if LinkActive(pathname, CategoryHref) then "Category"
    else ""
  }

  /** Each title is chosen exactly under its condition, stated as substring occurrence. */
  lemma PageTitleCases(pathname: string)
    ensures PageTitle(pathname) == "Articles" <==> OccursIn("/admin/articles", pathname)
    ensures PageTitle(pathname) == "Category" <==>
              OccursIn("/admin/category", pathname) && !OccursIn("/admin/articles", pathname)
    ensures PageTitle(pathname) == "" <==>
              !OccursIn("/admin/category", pathname) && !OccursIn("/admin/articles", pathname)
  {
  }

  /** A heading always goes with the highlighted link of the same name. */
  lemma TitleMatchesHighlight(pathname: string)
    ensures PageTitle(pathname) == "Articles" ==> LinkActive(pathname, ArticlesHref)
    ensures PageTitle(pathname) == "Category" ==> LinkActive(pathname, CategoryHref) && !LinkActive(pathname, ArticlesHref)
  {
  }

  /** The list pages get their own heading and highlight. */
  lemma ListPagesTitled()
    ensures PageTitle("/admin/articles") == "Articles" && LinkActive("/admin/articles", ArticlesHref)
    ensures PageTitle("/admin/category") == "Category" && !LinkActive("/admin/category", ArticlesHref)
    ensures PageTitle("/admin/articles/add") == "Articles"
  {
    assert "/admin/articles" <= "/admin/articles/add";
    assert "/admin/category"[7] != "/admin/articles"[7];
    assert !Includes("/admin/category"[1..], "/admin/articles");
  }
}
