/** The usage cache and the favourites built from it. The cache maps
    each launched command to its number of launches, in the order the
    commands were first stored (the order of the JSON object, which
    Python's dictionaries keep). The favourites are the first entries
    whose command is among the most launched ones. */
module Usage {
  import opened Wrappers
  import opened Seqs
  import opened Sorting

  /** One `(command, clicks)` item of the cache. */
  datatype Click = Click(command: string, count: int)

  function Commands(items: seq<Click>): (r: seq<string>)
    ensures |r| == |items|
    ensures forall i :: 0 <= i < |items| ==> r[i] == items[i].command
  {
    if items == [] then [] else [items[0].command] + Commands(items[1..])
  }

  /** The position of `command` in the cache, or the cache's length
      when it is not there. */
  function Find(items: seq<Click>, command: string): (i: nat)
    ensures i <= |items|
    ensures i < |items| ==> items[i].command == command
    ensures forall k :: 0 <= k < i ==> items[k].command != command
  {
    if items == [] then 0
    else if items[0].command == command then 0
    else 1 + Find(items[1..], command)
  }

  /** `cache.get(command, 0)`. */
  function CountOf(items: seq<Click>, command: string): int {
    var i := Find(items, command);
    if i < |items| then items[i].count else 0
  }

  /** The cache after one launch of `command`: 1 for a new command
      (stored last), one more for a known one (in its place). */
  function Bumped(items: seq<Click>, command: string): (r: seq<Click>) {
    var i := Find(items, command);
    if i < |items| then items[i := Click(command, items[i].count + 1)]
    else items + [Click(command, 1)]
  }

  /** A launch adds one click to its command and changes no other
      count. */
  lemma BumpedCounts(items: seq<Click>, command: string, other: string)
    requires other != command
    ensures CountOf(Bumped(items, command), command) == CountOf(items, command) + 1
    ensures CountOf(Bumped(items, command), other) == CountOf(items, other)
  {
    BumpedOwnCount(items, command);
    BumpedOtherCount(items, command, other);
  }

  /** The bumped cache holds the old commands in their places, and the
      launched one last when it is new. */
  lemma BumpedAt(items: seq<Click>, command: string)
    ensures var r := Bumped(items, command);
            && |r| == |items| + (if Find(items, command) < |items| then 0 else 1)
            && forall k :: 0 <= k < |r| ==> r[k].command == (if k < |items| then items[k].command else command)
  {
  }

  lemma BumpedOwnCount(items: seq<Click>, command: string)
    ensures CountOf(Bumped(items, command), command) == CountOf(items, command) + 1
  {
    var r := Bumped(items, command);
    var i := Find(items, command);
    BumpedAt(items, command);
    FindFirst(r, command, i);
  }

  lemma BumpedOtherCount(items: seq<Click>, command: string, other: string)
    requires other != command
    ensures CountOf(Bumped(items, command), other) == CountOf(items, other)
  {
    var r := Bumped(items, command);
    var j := Find(items, other);
    BumpedAt(items, command);
    if j < |items| {
      FindFirst(r, other, j);
    } else {
      FindFirst(r, other, |r|);
    }
  }

  /** A launch keeps the commands distinct; a known command keeps its
      place and a new one goes last. */
  lemma BumpedCommands(items: seq<Click>, command: string)
    requires NoDup(Commands(items))
    ensures Commands(Bumped(items, command))
         == Commands(items) + (if command in Commands(items) then [] else [command])
    ensures NoDup(Commands(Bumped(items, command)))
  {
    var r := Bumped(items, command);
    var i := Find(items, command);
    if i < |items| {
      assert Commands(r) == Commands(items);
      assert command in Commands(items);
    } else {
      assert command !in Commands(items);
      NoDupSnoc(Commands(items), command);
      assert Commands(r) == Commands(items) + [command];
    }
  }

  /** `Find` returns the first position holding the command. */
  lemma FindFirst(items: seq<Click>, command: string, i: nat)
    requires i <= |items|
    requires i < |items| ==> items[i].command == command
    requires forall k :: 0 <= k < i ==> items[k].command != command
    ensures Find(items, command) == i
  {
  }

  /** `cache[command] += 1` for a known command, `cache[command] = 1`
      for a new one. */
  method Bump(items: seq<Click>, command: string) returns (r: seq<Click>)
    ensures r == Bumped(items, command)
  {
    var i := Find(items, command);
    if i == |items| {
      r := items + [Click(command, 1)];
    } else {
      r := items[i := Click(command, items[i].count + 1)];
    }
  }

  /** The launch counter as a whole: `cache`, loaded from its file with
      each command once. */
  class UsageCache {
    var items: seq<Click>

    ghost predicate Valid()
      reads this
    {
      NoDup(Commands(items))
    }

    constructor (loaded: seq<Click>)
      requires NoDup(Commands(loaded))
      ensures Valid() && items == loaded
    {
      items := loaded;
    }

    /** `launch` of the menu and of the grid: the command's counter
        goes up by one unless the item comes from the appendix
        (`no_cache`), whose launches are never counted. */
    method Launch(command: string, noCache: bool)
      requires Valid()
      modifies this
      ensures Valid()
      ensures items == if noCache then old(items) else Bumped(old(items), command)
    {
      if !noCache {
        BumpedCommands(items, command);
        items := Bump(items, command);
      }
    }

    /** `launch` of the sway menu: every launch is counted, under the
        command with its double quotes removed. */
    method LaunchUnquoted(command: string)
      requires Valid()
      modifies this
      ensures Valid()
      ensures items == Bumped(old(items), Unquoted(command))
    {
      var key := RemoveQuotes(command);
      Launch(key, false);
    }
  }

  /** `command.replace('"', '')`. */
  function Unquoted(s: string): (r: string)
    ensures |r| <= |s|
  {
    if s == [] then []
    else (if s[0] == '"' then [] else [s[0]]) + Unquoted(s[1..])
  }

  /** The cache key has no double quote left and is shorter by exactly
      the number of quotes, so every other character is kept (in order,
      by `UnquotedConcat`); a command without quotes is its own key. */
  lemma {:induction false} UnquotedMeaning(s: string)
    ensures '"' !in Unquoted(s)
    ensures |Unquoted(s)| == |s| - multiset(s)['"']
    ensures '"' !in s ==> Unquoted(s) == s
    ensures Unquoted(Unquoted(s)) == Unquoted(s)
    decreases |s|
  {
    if s != [] {
      UnquotedMeaning(s[1..]);
      assert s == [s[0]] + s[1..];
      assert multiset(s) == multiset([s[0]]) + multiset(s[1..]);
      if '"' !in s {
        assert '"' !in s[1..];
        assert s == [s[0]] + s[1..];
      }
      UnquotedCons(s[0], Unquoted(s[1..]));
    }
  }

  /** Quotes are removed piece by piece: the characters kept from `a`
      come before those kept from `b`. */
  lemma {:induction false} UnquotedConcat(a: string, b: string)
    ensures Unquoted(a + b) == Unquoted(a) + Unquoted(b)
    decreases |a|
  {
    if a == [] {
      assert a + b == b;
    } else {
      assert (a + b)[0] == a[0] && (a + b)[1..] == a[1..] + b;
      UnquotedConcat(a[1..], b);
    }
  }

  lemma UnquotedCons(c: char, rest: string)
    requires '"' !in rest && Unquoted(rest) == rest
    ensures Unquoted((if c == '"' then [] else [c]) + rest) == (if c == '"' then [] else [c]) + rest
  {
    if c != '"' {
      var s := [c] + rest;
      assert s[0] == c && s[1..] == rest;
      assert Unquoted(s) == [c] + Unquoted(rest);
    } else {
      assert [] + rest == rest;
    }
  }

  /** The `replace` loop over the characters. */
  method RemoveQuotes(s: string) returns (r: string)
    ensures r == Unquoted(s)
  {
    r := "";
    var i := |s|;
    while i > 0
      invariant 0 <= i <= |s|
      invariant r == Unquoted(s[i..])
    {
      i := i - 1;
      DropNext(s, i);
      r := (if s[i] == '"' then "" else [s[i]]) + r;
    }
  }

  /** The sort key and order of `sorted(cache.items(), reverse=True,
      key=lambda x: x[1])`. */
  function CountKey(c: Click): int { c.count }

  predicate Greater(a: int, b: int) { a > b }

  /** `sorted_cache`. */
  function SortedCache(items: seq<Click>): seq<Click> {
    SortBy(items, CountKey, Greater)
  }

  /** `sorted_cache` lists the cache by count, largest first; it holds
      the same items, and items with equal counts keep their order in
      the cache (Python's sort is stable also with `reverse=True`). */
  lemma SortedCacheOrder(items: seq<Click>, k: int)
    ensures forall i, j :: 0 <= i < j < |SortedCache(items)| ==> SortedCache(items)[i].count >= SortedCache(items)[j].count
    ensures multiset(SortedCache(items)) == multiset(items)
    ensures WithKey(SortedCache(items), CountKey, k) == WithKey(items, CountKey, k)
  {
    assert StrictOrder(Greater);
    SortBySorted(items, CountKey, Greater);
    SortByStable(items, CountKey, Greater, k);
  }

  /** How many favourites the menus show: 5 with `-f`, else the `-fn`
      value, never more than the cache holds; none when not positive. */
  function MenuFavouriteCount(favourites: bool, fn: int, cacheSize: nat): (n: nat)
    ensures n <= cacheSize
    ensures favourites && cacheSize >= 5 ==> n == 5
    ensures !favourites && 0 < fn <= cacheSize ==> n == fn
    ensures !favourites && fn <= 0 ==> n == 0
  {
    Capped(if favourites then 5 else fn, cacheSize)
  }

  /** How many favourites `list_favs` selects when it is called: a row
      (`-c` columns) with `-f`, else `-fn` rows, never more than the
      cache holds. */
  function GridFavouriteCount(favourites: bool, fn: int, columns: int, cacheSize: nat): (n: nat)
    ensures n <= cacheSize
    ensures favourites && 0 < columns <= cacheSize ==> n == columns
    ensures !favourites && 0 < fn * columns <= cacheSize ==> n == fn * columns
    ensures (if favourites then columns else fn * columns) <= 0 ==> n == 0
  {
    Capped(if favourites then columns else fn * columns, cacheSize)
  }

  /** `if favs_number > 0: if len(sorted_cache) < favs_number:
      favs_number = len(sorted_cache)`. */
  function Capped(requested: int, cacheSize: nat): (n: nat)
    ensures n <= cacheSize && n <= (if requested > 0 then requested else 0)
    ensures requested > 0 && requested <= cacheSize ==> n == requested
    ensures requested > cacheSize ==> n == cacheSize
  {
    if requested <= 0 then 0
    else if cacheSize < requested then cacheSize
    else requested
  }

  /** The first item, in list order, whose command is `exec` and that
      is not chosen yet. */
  function FirstUnchosen<T(==)>(items: seq<T>, execOf: T -> string, exec: string, chosen: seq<T>): (r: Option<T>)
    ensures r.Some? ==> r.value in items && execOf(r.value) == exec && r.value !in chosen
  {
    if items == [] then None
    else if execOf(items[0]) == exec && items[0] !in chosen then Some(items[0])
    else FirstUnchosen(items[1..], execOf, exec, chosen)
  }

  /** `FirstUnchosen` finds a fitting item exactly when there is one,
      and no fitting item comes before the one it finds. */
  lemma {:induction false} FirstUnchosenIsFirst<T>(items: seq<T>, execOf: T -> string, exec: string, chosen: seq<T>)
    ensures var r := FirstUnchosen(items, execOf, exec, chosen);
            && (r.None? <==> forall k :: 0 <= k < |items| ==> !(execOf(items[k]) == exec && items[k] !in chosen))
            && (r.Some? ==> exists k :: 0 <= k < |items| && items[k] == r.value &&
                              forall j :: 0 <= j < k ==> !(execOf(items[j]) == exec && items[j] !in chosen))
    decreases |items|
  {
    if items != [] && !(execOf(items[0]) == exec && items[0] !in chosen) {
      var rest := items[1..];
      FirstUnchosenIsFirst(rest, execOf, exec, chosen);
      var r := FirstUnchosen(rest, execOf, exec, chosen);
      if r.Some? {
        var k :| 0 <= k < |rest| && rest[k] == r.value &&
                 forall j :: 0 <= j < k ==> !(execOf(rest[j]) == exec && rest[j] !in chosen);
        assert items[k + 1] == r.value;
        forall j | 0 <= j < k + 1 ensures !(execOf(items[j]) == exec && items[j] !in chosen) {
          if j > 0 {
            assert items[j] == rest[j - 1];
          }
        }
      } else {
        forall k | 0 <= k < |items| ensures !(execOf(items[k]) == exec && items[k] !in chosen) {
          if k > 0 {
            assert items[k] == rest[k - 1];
          }
        }
      }
    }
  }

  /** The favourites for the top commands, in their order: for each
      command, the first matching item not chosen yet, if any. */
  function Favourites<T(==)>(top: seq<string>, items: seq<T>, execOf: T -> string): (r: seq<T>)
    ensures |r| <= |top|
    ensures NoDup(r)
    ensures forall x :: x in r ==> x in items && execOf(x) in top
  {
    if top == [] then []
    else
      var init := Favourites(top[..|top| - 1], items, execOf);
      match FirstUnchosen(items, execOf, top[|top| - 1], init)
      case Some(x) =>
        NoDupSnoc(init, x);
        init + [x]
      case None => init
  }

  /** The favourites of `build_menu` and `list_favs`: the first `n`
      commands of `sorted_cache`. */
  function FavouritesOf<T(==)>(sortedCache: seq<Click>, n: nat, items: seq<T>, execOf: T -> string): seq<T>
    requires n <= |sortedCache|
  {
    Favourites(Commands(sortedCache[..n]), items, execOf)
  }

  /** The loop over the top commands with its inner search; the inner
      loop stops at the first fitting item. */
  method SelectFavourites<T(==)>(sortedCache: seq<Click>, n: nat, items: seq<T>, execOf: T -> string)
    returns (chosen: seq<T>)
    requires n <= |sortedCache|
    ensures chosen == FavouritesOf(sortedCache, n, items, execOf)
  {
    chosen := [];
    var i := 0;
    while i < n
      invariant 0 <= i <= n
      invariant chosen == Favourites(Commands(sortedCache[..i]), items, execOf)
    {
      var favExec := sortedCache[i].command;
      var pick := FindUnchosen(items, execOf, favExec, chosen);
      TopSnoc(sortedCache, i);
      if pick.Some? {
        chosen := chosen + [pick.value];
      }
      i := i + 1;
    }
  }

  lemma TopSnoc(sortedCache: seq<Click>, i: nat)
    requires i < |sortedCache|
    ensures var top := Commands(sortedCache[..i + 1]);
            top[..|top| - 1] == Commands(sortedCache[..i]) && top[|top| - 1] == sortedCache[i].command
  {
  }

  /** `for item in all_entries: if item.exec == fav_exec and item not
      in to_prepend: ... break`. */
  method FindUnchosen<T(==)>(items: seq<T>, execOf: T -> string, exec: string, chosen: seq<T>)
    returns (r: Option<T>)
    ensures r == FirstUnchosen(items, execOf, exec, chosen)
  {
    var i := 0;
    while i < |items|
      invariant 0 <= i <= |items|
      invariant FirstUnchosen(items[i..], execOf, exec, chosen) == FirstUnchosen(items, execOf, exec, chosen)
    {
      DropNext(items, i);
      if execOf(items[i]) == exec && items[i] !in chosen {
        return Some(items[i]);
      }
      i := i + 1;
    }
    return None;
  }

  /** Each command of the top `n` contributes at most one favourite,
      and exactly one when some item with that command is not chosen
      for an earlier command: the favourites are those first matches. */
  lemma FavouritesSnoc<T>(top: seq<string>, exec: string, items: seq<T>, execOf: T -> string)
    ensures var before := Favourites(top, items, execOf);
            Favourites(top + [exec], items, execOf)
            == before + (match FirstUnchosen(items, execOf, exec, before) case Some(x) => [x] case None => [])
  {
    SnocParts(top, exec);
  }
}
