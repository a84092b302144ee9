/** The category cards of `app/page.tsx`: each card links to its category's shop page. */
module Home {

  /**
   * `title.replace(/ /g, "-")`: every space character becomes a hyphen. Only the ASCII
   * space is matched, not other whitespace.
   */
  function Slug(title: string): (slug: string)
    ensures |slug| == |title|
  {
    if title == [] then []
    else [if title[0] == ' ' then '-' else title[0]] + Slug(title[1..])
  }

  /** Each space is replaced by a hyphen, every other character is kept in place, and no space is left. */
  lemma {:induction false} SlugReplacesSpaces(title: string)
    ensures forall i :: 0 <= i < |title| ==> Slug(title)[i] == (if title[i] == ' ' then '-' else title[i])
    ensures forall i :: 0 <= i < |title| ==> Slug(title)[i] != ' '
  {
    if title != [] {
      SlugReplacesSpaces(title[1..]);
      var slug := Slug(title);
      assert slug[1..] == Slug(title[1..]);
      forall i | 1 <= i < |title|
        ensures slug[i] == (if title[i] == ' ' then '-' else title[i])
      {
        assert slug[i] == Slug(title[1..])[i - 1];
        assert title[i] == title[1..][i - 1];
      }
    }
  }

  /** The card's link target. */
  function CardHref(title: string): (href: string)
    ensures |href| == |"/shop/"| + |title|
    ensures href[..6] == "/shop/" && href[6..] == Slug(title)
  {
    "/shop/" + Slug(title)
  }

  /** A slug is its own slug, and a title without spaces is already a slug. */
  lemma SlugFixedPoints(title: string)
    ensures Slug(Slug(title)) == Slug(title)
    ensures (forall i :: 0 <= i < |title| ==> title[i] != ' ') ==> Slug(title) == title
  {
    SlugReplacesSpaces(title);
    SlugReplacesSpaces(Slug(title));
  }

  /** "Kits & Apparel" has the slug "Kits-&-Apparel", so its card links to "/shop/Kits-&-Apparel". */
  lemma KitsCardHref(title: string)
    requires title == "Kits & Apparel"
    ensures Slug(title) == "Kits-&-Apparel"
    ensures CardHref(title) == "/shop/" + "Kits-&-Apparel"
  {
    var expected := "Kits-&-Apparel";
    assert Slug(title) == expected by {
      SlugReplacesSpaces(title);
      forall i | 0 <= i < |title|
        ensures Slug(title)[i] == expected[i]
      {
      }
    }
  }
}
