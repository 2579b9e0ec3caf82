/**
 * The favourites store (lib/favorites.ts): the set of favourite slugs kept
 * under the `video_favorites` key. The field `stored` stands for the parsed
 * value of that key; nothing stored, or a value that does not parse, is the
 * empty set.
 */
module Favorites {
  import opened Text

  /** The set after toggling `slug`: removed when present, added when absent. */
  function Toggled(favorites: set<String>, slug: String): set<String> {
    if slug in favorites then favorites - {slug} else favorites + {slug}
  }

  /** After a toggle, `slug` is a favourite exactly when it was not one before. */
  lemma ToggledMember(favorites: set<String>, slug: String)
    ensures slug in Toggled(favorites, slug) <==> slug !in favorites
  {
  }

  /** A toggle changes the membership of `slug` and of no other slug. */
  lemma ToggleOnlyThat(favorites: set<String>, slug: String, other: String)
    requires other != slug
    ensures other in Toggled(favorites, slug) <==> other in favorites
  {
  }

  /** Toggling the same slug twice gives back the original set. */
  lemma ToggleTwice(favorites: set<String>, slug: String)
    ensures Toggled(Toggled(favorites, slug), slug) == favorites
  {
    if slug in favorites {
      assert Toggled(favorites, slug) == favorites - {slug};
      assert (favorites - {slug}) + {slug} == favorites;
    } else {
      assert Toggled(favorites, slug) == favorites + {slug};
      assert (favorites + {slug}) - {slug} == favorites;
    }
  }

  class FavoriteStore {
    var stored: set<String>

    /** Nothing stored yet: `getFavorites` gives the empty set. */
    constructor ()
      ensures stored == {}
    {
      stored := {};
    }

    function GetFavorites(): set<String>
      reads this
    {
      stored
    }

    function IsFavorite(slug: String): bool
      reads this
    {
      slug in GetFavorites()
    }

    /** `toggleFavorite(slug)`, with the save assumed to succeed. */
    method ToggleFavorite(slug: String) returns (isNowFavorite: bool)
      modifies this
      ensures isNowFavorite <==> slug !in old(stored)
      ensures stored == Toggled(old(stored), slug)
      ensures IsFavorite(slug) == isNowFavorite
    {
      var favorites := GetFavorites();
      isNowFavorite := slug !in favorites;
      if isNowFavorite {
        favorites := favorites + {slug};
      } else {
        favorites := favorites - {slug};
      }
      stored := favorites;
    }
  }
}
