/** The application grid (`sgtk-grid`): the button labels, the
    row-major placement of `ApplicationGrid`, the favourites row of
    `list_favs` and the type-to-search handler of the grid window. */
module Grid {
  import opened Wrappers
  import opened Search
  import opened Usage
  import opened GridApps
  import opened Strings

  function AppName(a: App): string { a.name }
  function AppExec(a: App): string { a.exec }

  /** The text on a button: a name longer than 25 characters is cut to
      its first 22 followed by `...`; the box keeps the full name. */
  function Label(name: string): (r: string)
    ensures |r| <= 25
    ensures |name| <= 25 ==> r == name
    ensures |name| > 25 ==> |r| == 25 && r[..22] == name[..22] && r[22..] == "..."
  {
    if |name| > 25 then name[..22] + "..." else name
  }

  /** A label is short enough already: labelling it again changes nothing. */
  lemma LabelStable(name: string)
    ensures Label(Label(name)) == Label(name)
  {
  }

  /** A button handed to a grid, and whether it is attached to a
      container already (`item.get_parent()`). */
  datatype Tile = Tile(app: App, parented: bool)

  /** A button attached to a grid at a column and a row. */
  datatype Cell = Cell(app: App, col: int, row: int)

  /** The buttons a grid attaches: those not attached elsewhere, in order. */
  function Unparented(items: seq<Tile>): (r: seq<App>)
    ensures |r| <= |items|
    ensures forall x :: x in r <==> exists i :: 0 <= i < |items| && items[i].app == x && !items[i].parented
  {
    if items == [] then []
    else
      var rest := Unparented(items[1..]);
      assert forall i :: 1 <= i < |items| ==> items[i] == items[1..][i - 1];
      if items[0].parented then rest else [items[0].app] + rest
  }

  /** Attaching a list in two pieces: the buttons of the first piece
      come first, each piece in its own order. */
  lemma {:induction false} UnparentedConcat(a: seq<Tile>, b: seq<Tile>)
    ensures Unparented(a + b) == Unparented(a) + Unparented(b)
    decreases |a|
  {
    if a == [] {
      assert a + b == b;
    } else {
      assert (a + b)[0] == a[0] && (a + b)[1..] == a[1..] + b;
      UnparentedConcat(a[1..], b);
    }
  }

  /** The cell after `(col, row)`: the next column, or the first column
      of the next row after the last one. */
  function Next(col: int, row: int, columns: int): (int, int) {
    if col < columns - 1 then (col + 1, row) else (0, row + 1)
  }

  /** The buttons attached one after the other from `(col, row)` on. */
  function Walk(apps: seq<App>, col: int, row: int, columns: int): (r: seq<Cell>)
    ensures |r| == |apps|
    decreases |apps|
  {
    if apps == [] then []
    else
      var (c, w) := Next(col, row, columns);
      [Cell(apps[0], col, row)] + Walk(apps[1..], c, w, columns)
  }

  /** The cells of a grid built from (or updated to) `items`. */
  function Layout(items: seq<Tile>, columns: int): seq<Cell> {
    Walk(Unparented(items), 0, 0, columns)
  }

  /** After the `m`-th cell comes the `m + 1`-th. */
  lemma NextCell(m: nat, c: int)
    requires c >= 1
    ensures Next(m % c, m / c, c) == ((m + 1) % c, (m + 1) / c)
  {
    var q, r := m / c, m % c;
    if r < c - 1 {
      DivModOf(m + 1, c, q, r + 1);
    } else {
      DivModOf(m + 1, c, q + 1, 0);
    }
  }

  /** Euclidean division has one quotient and one remainder. */
  lemma DivModOf(n: int, c: int, q: int, r: int)
    requires c >= 1 && 0 <= r < c && n == c * q + r
    ensures n / c == q && n % c == r
  {
    var q', r' := n / c, n % c;
    assert c * q + r == c * q' + r';
    if q' < q {
      MulMonotone(c, q - q');
    } else if q < q' {
      MulMonotone(c, q' - q);
    }
  }

  lemma {:induction false} MulMonotone(c: int, a: int)
    requires c >= 1 && a >= 1
    ensures c * a >= c
    decreases a
  {
    if a > 1 {
      MulMonotone(c, a - 1);
      assert c * a == c * (a - 1) + c;
    }
  }

  /** Walking from the `m`-th cell puts the `k`-th button in the
      `m + k`-th cell, counting row by row. */
  lemma {:induction false} WalkFrom(apps: seq<App>, m: nat, c: int)
    requires c >= 1
    ensures forall k :: 0 <= k < |apps| ==>
              Walk(apps, m % c, m / c, c)[k] == Cell(apps[k], (m + k) % c, (m + k) / c)
    decreases |apps|
  {
    if apps != [] {
      NextCell(m, c);
      WalkFrom(apps[1..], m + 1, c);
      var r := Walk(apps, m % c, m / c, c);
      forall k | 0 <= k < |apps| ensures r[k] == Cell(apps[k], (m + k) % c, (m + k) / c) {
        if k > 0 {
          assert r[k] == Walk(apps[1..], (m + 1) % c, (m + 1) / c, c)[k - 1];
          assert apps[1..][k - 1] == apps[k] && m + 1 + (k - 1) == m + k;
        }
      }
    }
  }

  /** With no positive column count every button starts a new row. */
  lemma {:induction false} WalkNoColumns(apps: seq<App>, row: int, c: int)
    requires c <= 0
    ensures forall k :: 0 <= k < |apps| ==> Walk(apps, 0, row, c)[k] == Cell(apps[k], 0, row + k)
    decreases |apps|
  {
    if apps != [] {
      WalkNoColumns(apps[1..], row + 1, c);
      var r := Walk(apps, 0, row, c);
      forall k | 0 <= k < |apps| ensures r[k] == Cell(apps[k], 0, row + k) {
        if k > 0 {
          assert r[k] == Walk(apps[1..], 0, row + 1, c)[k - 1];
          assert apps[1..][k - 1] == apps[k];
        }
      }
    }
  }

  /** The grid is filled row by row: the `k`-th button not attached
      elsewhere goes to column `k mod columns` of row `k div columns`,
      so every column is in range and no two buttons share a cell. */
  lemma LayoutRowMajor(items: seq<Tile>, columns: int)
    requires columns >= 1
    ensures var r := Layout(items, columns);
            && |r| == |Unparented(items)|
            && (forall k :: 0 <= k < |r| ==>
                  r[k] == Cell(Unparented(items)[k], k % columns, k / columns) && 0 <= r[k].col < columns)
            && (forall i, j :: 0 <= i < j < |r| ==> (r[i].col, r[i].row) != (r[j].col, r[j].row))
  {
    var apps := Unparented(items);
    WalkFrom(apps, 0, columns);
    var r := Layout(items, columns);
    forall i, j | 0 <= i < j < |r| ensures (r[i].col, r[i].row) != (r[j].col, r[j].row) {
      DistinctCells(i, j, columns);
    }
  }

  lemma DistinctCells(i: nat, j: nat, c: int)
    requires c >= 1 && i != j
    ensures (i % c, i / c) != (j % c, j / c)
  {
    assert i == c * (i / c) + i % c;
    assert j == c * (j / c) + j % c;
  }

  /** With `columns <= 0` the grid is a single column. */
  lemma LayoutNoColumns(items: seq<Tile>, columns: int)
    requires columns <= 0
    ensures forall k :: 0 <= k < |Layout(items, columns)| ==>
              Layout(items, columns)[k] == Cell(Unparented(items)[k], 0, k)
  {
    WalkNoColumns(Unparented(items), 0, columns);
  }

  /** The placement loop shared by `ApplicationGrid.__init__` and
      `update`, with its `col` and `row` counters. */
  method Place(items: seq<Tile>, columns: int) returns (cells: seq<Cell>)
    ensures cells == Layout(items, columns)
  {
    cells := [];
    var col, row := 0, 0;
    var i := 0;
    while i < |items|
      invariant 0 <= i <= |items|
      invariant cells + Walk(Unparented(items[i..]), col, row, columns) == Layout(items, columns)
    {
      var item := items[i];
      assert items[i..][1..] == items[i + 1..];
      if !item.parented {
        var rest := Walk(Unparented(items[i + 1..]), Next(col, row, columns).0, Next(col, row, columns).1, columns);
        assert Walk(Unparented(items[i..]), col, row, columns) == [Cell(item.app, col, row)] + rest;
        assert cells + ([Cell(item.app, col, row)] + rest) == (cells + [Cell(item.app, col, row)]) + rest;
        cells := cells + [Cell(item.app, col, row)];
        if col < columns - 1 {
          col := col + 1;
        } else {
          col := 0;
          row := row + 1;
        }
      }
      i := i + 1;
    }
    assert items[i..] == [];
    assert cells + [] == cells;
  }

  /** `ApplicationGrid`: a grid of buttons with a fixed column count. */
  class ApplicationGrid {
    const columns: int
    var cells: seq<Cell>

    constructor (items: seq<Tile>, columns: int)
      ensures this.columns == columns && cells == Layout(items, columns)
    {
      this.columns := columns;
      var placed := Place(items, columns);
      cells := placed;
    }

    /** `update`: every child is removed, then `items` are placed anew. */
    method Update(items: seq<Tile>)
      modifies this
      ensures cells == Layout(items, columns)
    {
      cells := [];
      cells := Place(items, columns);
    }
  }

  /** `list_favs`: the favourites row, a copy of the first app not
      chosen yet for each of the top commands of `sorted_cache`. */
  function GridFavourites(favourites: bool, fn: int, columns: int, cache: seq<Click>, allApps: seq<App>): (r: seq<App>)
  {
    var sorted := SortedCache(cache);
    FavouritesOf(sorted, GridFavouriteCount(favourites, fn, columns, |sorted|), allApps, AppExec)
  }

  method ListFavs(favourites: bool, fn: int, columns: int, cache: seq<Click>, allApps: seq<App>)
    returns (favs: seq<App>)
    ensures favs == GridFavourites(favourites, fn, columns, cache, allApps)
    ensures |favs| <= GridFavouriteCount(favourites, fn, columns, |cache|)
    ensures forall x :: x in favs ==> x in allApps
  {
    var sorted := SortedCache(cache);
    SortedCacheOrder(sorted, 0);
    assert |sorted| == |cache| by {
      assert |multiset(sorted)| == |multiset(cache)|;
    }
    var n := GridFavouriteCount(favourites, fn, columns, |sorted|);
    favs := [];
    if n > 0 {
      favs := SelectFavourites(sorted, n, allApps, AppExec);
    }
  }

  /** How many favourites the grid starts with: `list_favs` runs only
      with `-f` or a positive `-fn`, so none otherwise, whatever `-c` is. */
  function ShownFavouriteCount(favourites: bool, fn: int, columns: int, cacheSize: nat): (n: nat)
    ensures n <= cacheSize
    ensures !favourites && fn <= 0 ==> n == 0
    ensures favourites && 0 < columns <= cacheSize ==> n == columns
    ensures !favourites && fn > 0 && 0 < fn * columns <= cacheSize ==> n == fn * columns
    ensures n <= GridFavouriteCount(favourites, fn, columns, cacheSize)
  {
    if favourites || fn > 0 then GridFavouriteCount(favourites, fn, columns, cacheSize) else 0
  }

  /** The grid's start-up step `if args.f or args.fn > 0: list_favs()`. */
  method StartFavourites(favourites: bool, fn: int, columns: int, cache: seq<Click>, allApps: seq<App>)
    returns (favs: seq<App>)
    ensures favourites || fn > 0 ==> favs == GridFavourites(favourites, fn, columns, cache, allApps)
    ensures |favs| <= ShownFavouriteCount(favourites, fn, columns, |cache|)
    ensures forall x :: x in favs ==> x in allApps
  {
    favs := [];
    if favourites || fn > 0 {
      favs := ListFavs(favourites, fn, columns, cache, allApps);
    }
  }

  /** What the grid window shows: the phrase, `filtered_items_list`,
      the buttons of the apps grid and whether the favourites row is
      visible. */
  datatype GridState = GridState(phrase: string, filtered: seq<App>, shown: seq<App>, favsVisible: bool)

  /** The outcome of one key release: the new state, whether the window
      quits, and the button that gets the focus. */
  datatype GridOutcome = GridOutcome(state: GridState, quit: bool, focus: Option<App>)

  /** The intended `search_items` of the grid, with the favourites row
      touched only when there is one: an accepted key hides the
      favourites and extends the phrase, backspace shortens it, Escape
      clears a phrase or else quits; an empty phrase empties the results
      and shows the favourites again; after an edit a phrase shows its
      matches and an empty phrase shows every app; a single result
      gets the focus. */
  function Released(s: GridState, key: Key, allApps: seq<App>, hasFavs: bool): GridOutcome {
    var accepted := MenuAccepts(key.text);
    var back := !accepted && key.keyval == BackspaceKey;
    var escape := !accepted && !back && key.keyval == EscapeKey;
    var update := accepted || back || (escape && s.phrase != []);
    var phrase := if accepted then s.phrase + key.text else if back then DropLast(s.phrase) else if escape then [] else s.phrase;
    var filtered := if phrase == [] then []
                    else if update then FilterInto([], Matcher(phrase, AppName, AppExec), allApps, AppName)
                    else s.filtered;
    var favsVisible := hasFavs && (phrase == [] || (!accepted && s.favsVisible));
    var shown := if !update then s.shown else if phrase != [] then filtered else allApps;
    GridOutcome(GridState(phrase, filtered, shown, favsVisible), escape && s.phrase == [],
                if |filtered| == 1 then Some(filtered[0]) else None)
  }

  /** Escape clears a phrase and shows every app with the favourites,
      or quits when there is no phrase. */
  lemma EscapeMeaning(s: GridState, key: Key, allApps: seq<App>, hasFavs: bool)
    requires key.keyval == EscapeKey && !MenuAccepts(key.text)
    ensures var o := Released(s, key, allApps, hasFavs);
            && o.state.phrase == [] && o.state.filtered == [] && o.state.favsVisible == hasFavs
            && o.quit == (s.phrase == [])
            && (s.phrase != [] ==> o.state.shown == allApps)
  {
  }

  /** A typed character is kept and the grid shows the search results:
      apps matching the phrase, each one the first matching app of its
      name, every matching name present once; a single one is focused. */
  lemma TypingSearches(s: GridState, key: Key, allApps: seq<App>, hasFavs: bool)
    requires MenuAccepts(key.text)
    ensures var o := Released(s, key, allApps, hasFavs);
            var r := o.state.filtered;
            var hit := Matcher(o.state.phrase, AppName, AppExec);
            && o.state.phrase == s.phrase + key.text
            && o.state.shown == r && !o.state.favsVisible && !o.quit
            && Sound(r, hit, allApps)
            && DistinctNames(r, AppName)
            && Complete(r, hit, allApps, AppName)
            && FirstOfName(r, hit, allApps, AppName)
            && (o.focus.Some? <==> |r| == 1)
  {
    assert key.text != [];
    FilterMeaning(Matcher(s.phrase + key.text, AppName, AppExec), allApps, AppName);
  }

  /** Whether the handler as written reaches `self.grid_favs` (or
      `self.sep1`) when the window has none: an accepted key hides them
      first thing, and an empty phrase shows them again. */
  predicate RaisesAsWritten(s: GridState, key: Key, hasFavs: bool) {
    var accepted := MenuAccepts(key.text);
    var back := !accepted && key.keyval == BackspaceKey;
    var escape := !accepted && !back && key.keyval == EscapeKey;
    var phrase := if back then DropLast(s.phrase) else if escape then [] else s.phrase;
    !hasFavs && (accepted || phrase == [])
  }

  /** `search_items` of the grid as written. `grid_favs` and `sep1` are
      only created when there are favourites; without them the first
      access raises `AttributeError`, which ends the handler with what
      it has changed so far. */
  function ReleasedAsWritten(s: GridState, key: Key, allApps: seq<App>, hasFavs: bool): GridOutcome {
    var accepted := MenuAccepts(key.text);
    var back := !accepted && key.keyval == BackspaceKey;
    var escape := !accepted && !back && key.keyval == EscapeKey;
    if !RaisesAsWritten(s, key, hasFavs) then Released(s, key, allApps, hasFavs)
    else if accepted then GridOutcome(s, false, None)
    else
      var phrase := if back then DropLast(s.phrase) else [];
      GridOutcome(GridState(phrase, [], s.shown, s.favsVisible), escape && s.phrase == [], None)
  }

  /** Without favourites the grid as written never searches: from an
      empty phrase every key leaves the phrase empty and the apps shown
      unchanged; typing `a` is lost. */
  lemma AsWrittenIgnoresTyping(s: GridState, key: Key, allApps: seq<App>)
    requires s.phrase == []
    ensures RaisesAsWritten(s, key, false)
    ensures var o := ReleasedAsWritten(s, key, allApps, false);
            o.state.phrase == [] && o.state.shown == s.shown
    ensures ReleasedAsWritten(s, Key("a", 97), allApps, false).state.phrase == []
  {
    assert MenuAccepts("a") by {
      assert IsAlnumChar('a');
    }
  }

  /** With the favourites touched only when present, typing `a` without
      favourites starts the search, and with favourites the handler as
      written already behaves so. */
  lemma IntendedSearches(s: GridState, key: Key, allApps: seq<App>)
    ensures s.phrase == [] ==> Released(s, Key("a", 97), allApps, false).state.phrase == "a"
    ensures ReleasedAsWritten(s, key, allApps, true) == Released(s, key, allApps, true)
  {
    assert MenuAccepts("a") by {
      assert IsAlnumChar('a');
    }
  }

  /** The grid window's search state (`search_phrase`, the module's
      `filtered_items_list`, the apps grid and the favourites row). */
  class GridWindow {
    const hasFavs: bool
    var phrase: string
    var filtered: seq<App>
    var shown: seq<App>
    var favsVisible: bool

    function State(): GridState
      reads this
    {
      GridState(phrase, filtered, shown, favsVisible)
    }

    /** Only a window with favourites shows them. */
    predicate Valid()
      reads this
    {
      favsVisible ==> hasFavs
    }

    constructor (allApps: seq<App>, hasFavs: bool)
      ensures Valid() && this.hasFavs == hasFavs
      ensures State() == GridState([], [], allApps, hasFavs)
    {
      this.hasFavs := hasFavs;
      phrase := [];
      filtered := [];
      shown := allApps;
      favsVisible := hasFavs;
    }

    /** `search_items` with the favourites row touched only when there
        is one. */
    method KeyRelease(key: Key, allApps: seq<App>) returns (quit: bool, focus: Option<App>)
      requires Valid()
      modifies this
      ensures Valid()
      ensures var o := Released(old(State()), key, allApps, hasFavs);
              State() == o.state && quit == o.quit && focus == o.focus
    {
      var update := false;
      quit := false;
      if MenuAccepts(key.text) {
        if hasFavs {
          favsVisible := false;
        }
        update := true;
        phrase := phrase + key.text;
      } else if key.keyval == BackspaceKey {
        update := true;
        phrase := DropLast(phrase);
      } else if key.keyval == EscapeKey {
        if phrase != [] {
          phrase := [];
          update := true;
        } else {
          quit := true;
        }
      }
      if phrase == [] {
        filtered := [];
        if hasFavs {
          favsVisible := true;
        }
      }
      if update {
        if |phrase| > 0 {
          filtered := FilterItems([], Matcher(phrase, AppName, AppExec), allApps, AppName);
          shown := filtered;
        } else {
          shown := allApps;
        }
      }
      focus := if |filtered| == 1 then Some(filtered[0]) else None;
    }
  }
}
