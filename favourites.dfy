/** The favourites at the top of the menus (`build_menu` of both
    menus): with `-f` the five, with `-fn` the given number of, most
    launched commands, each shown as the first entry of `all_entries`
    that runs it and is not shown already. */
module MenuFavourites {
  import opened Wrappers
  import opened Seqs
  import opened Usage
  import opened Catalog

  function EntryExec(e: Entry): string { e.exec }

  /** The entries `to_prepend` holds for a cache and the entries read. */
  function FavouriteEntries(favourites: bool, fn: int, cache: seq<Click>, allEntries: seq<Entry>): seq<Entry> {
    var sorted := SortedCache(cache);
    FavouritesOf(sorted, MenuFavouriteCount(favourites, fn, |sorted|), allEntries, EntryExec)
  }

  /** The favourites part of `build_menu`. The menu builds them only
      when it shows its search item, that is without `-n` (`noMenu`); the
      sway menu has no such option and passes `false`. */
  method BuildFavourites(noMenu: bool, favourites: bool, fn: int, cache: seq<Click>, allEntries: seq<Entry>)
    returns (toPrepend: seq<Entry>)
    ensures noMenu ==> toPrepend == []
    ensures !noMenu ==> toPrepend == FavouriteEntries(favourites, fn, cache, allEntries)
    ensures |toPrepend| <= MenuFavouriteCount(favourites, fn, |cache|)
    ensures NoDup(toPrepend)
    ensures forall e :: e in toPrepend ==> e in allEntries
  {
    toPrepend := [];
    if noMenu {
      return;
    }
    var sorted := SortedCache(cache);
    var n := MenuFavouriteCount(favourites, fn, |sorted|);
    if n > 0 {
      toPrepend := SelectFavourites(sorted, n, allEntries, EntryExec);
    }
  }

  /** Every favourite runs one of the `n` most launched commands (which
      entry a command picks is stated by `FavouritesSnoc` and
      `FirstUnchosenIsFirst`). */
  lemma FavouriteEntriesMeaning(favourites: bool, fn: int, cache: seq<Click>, allEntries: seq<Entry>)
    ensures var sorted := SortedCache(cache);
            var n := MenuFavouriteCount(favourites, fn, |sorted|);
            forall e :: e in FavouriteEntries(favourites, fn, cache, allEntries) ==>
              exists i :: 0 <= i < n && sorted[i].command == e.exec
  {
    var sorted := SortedCache(cache);
    var n := MenuFavouriteCount(favourites, fn, |sorted|);
    var top := Commands(sorted[..n]);
    forall e | e in FavouriteEntries(favourites, fn, cache, allEntries) ensures exists i :: 0 <= i < n && sorted[i].command == e.exec {
      assert EntryExec(e) in top;
      var i :| 0 <= i < |top| && top[i] == EntryExec(e);
      assert sorted[..n][i] == sorted[i];
    }
  }
}
