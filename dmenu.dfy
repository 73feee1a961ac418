/** The command list of `sgtk-dmenu`: every name without a dot in the
    `$PATH` directories, sorted, of which the menu shows the first `t`
    lines while the search goes through all of them. */
module Dmenu {
  import opened Wrappers
  import opened Strings
  import opened Seqs
  import opened Sorting
  import opened Tools
  import opened Catalog

  /** The names of one directory that can be commands: those without a `.`. */
  function Dotless(names: seq<string>): (r: seq<string>)
    ensures |r| <= |names|
    ensures forall x :: x in r <==> x in names && '.' !in x
  {
    if names == [] then []
    else
      var init := Dotless(names[..|names| - 1]);
      var x := names[|names| - 1];
      assert names == names[..|names| - 1] + [x];
      init + (if '.' !in x then [x] else [])
  }

  /** `list_commands` over the directories `dirs`: a directory the
      listing lacks does not exist. The entries of each directory come
      in the order the listing gives them. */
  function Listed(dirs: seq<string>, listing: map<string, seq<string>>): (r: seq<string>)
    decreases |dirs|
  {
    if dirs == [] then []
    else
      var d := dirs[|dirs| - 1];
      Listed(dirs[..|dirs| - 1], listing) + (if d in listing then Dotless(listing[d]) else [])
  }

  /** A command is listed exactly when some existing directory holds a
      file of that name without a dot. */
  lemma {:induction false} ListedMeaning(dirs: seq<string>, listing: map<string, seq<string>>, x: string)
    ensures x in Listed(dirs, listing) <==>
            exists i :: 0 <= i < |dirs| && dirs[i] in listing && x in listing[dirs[i]] && '.' !in x
    decreases |dirs|
  {
    if dirs != [] {
      var init, d := dirs[..|dirs| - 1], dirs[|dirs| - 1];
      ListedMeaning(init, listing, x);
      if x in Listed(dirs, listing) && !(x in Listed(init, listing)) {
        assert dirs[|dirs| - 1] == d;
      }
      if exists i :: 0 <= i < |dirs| && dirs[i] in listing && x in listing[dirs[i]] && '.' !in x {
        var i :| 0 <= i < |dirs| && dirs[i] in listing && x in listing[dirs[i]] && '.' !in x;
        if i < |dirs| - 1 {
          assert init[i] == dirs[i];
        }
      }
    }
  }

  /** Names are not merged: the commands of every directory follow
      those of the directories before it, repeats included. */
  lemma ListedSnoc(dirs: seq<string>, d: string, listing: map<string, seq<string>>)
    ensures Listed(dirs + [d], listing) == Listed(dirs, listing) + (if d in listing then Dotless(listing[d]) else [])
  {
    SnocParts(dirs, d);
  }

  lemma ListedNext(dirs: seq<string>, i: nat, listing: map<string, seq<string>>)
    requires i < |dirs|
    ensures Listed(dirs[..i + 1], listing)
         == Listed(dirs[..i], listing) + (if dirs[i] in listing then Dotless(listing[dirs[i]]) else [])
  {
    assert dirs[..i + 1] == dirs[..i] + [dirs[i]];
    ListedSnoc(dirs[..i], dirs[i], listing);
  }

  /** The loop over one directory. */
  method ListDirectory(names: seq<string>) returns (commands: seq<string>)
    ensures commands == Dotless(names)
  {
    commands := [];
    var i := 0;
    while i < |names|
      invariant 0 <= i <= |names|
      invariant commands == Dotless(names[..i])
    {
      assert names[..i + 1][..i] == names[..i];
      if '.' !in names[i] {
        commands := commands + [names[i]];
      }
      i := i + 1;
    }
    assert names[..i] == names;
  }

  /** `list_commands`: the loop over the `$PATH` directories. */
  method ListCommands(path: Option<string>, listing: map<string, seq<string>>) returns (commands: seq<string>)
    ensures commands == Listed(FirstOccurrences(Components(path)), listing)
  {
    var dirs := PathDirs(path);
    commands := [];
    var i := 0;
    while i < |dirs|
      invariant 0 <= i <= |dirs|
      invariant commands == Listed(dirs[..i], listing)
    {
      ListedNext(dirs, i, listing);
      if dirs[i] in listing {
        var found := ListDirectory(listing[dirs[i]]);
        commands := commands + found;
      }
      i := i + 1;
    }
    assert dirs[..i] == dirs;
  }

  function Itself(s: string): string { s }

  /** `sorted(list_commands())`: Python compares strings character by
      character. */
  function AllCommands(path: Option<string>, listing: map<string, seq<string>>): seq<string> {
    SortBy(Listed(FirstOccurrences(Components(path)), listing), Itself, LexLt)
  }

  /** The command list is in order and holds every listed command as
      often as it is listed. */
  lemma AllCommandsOrdered(path: Option<string>, listing: map<string, seq<string>>)
    ensures var all := AllCommands(path, listing);
            && (forall i, j :: 0 <= i < j < |all| ==> !LexLt(all[j], all[i]))
            && multiset(all) == multiset(Listed(FirstOccurrences(Components(path)), listing))
  {
    NameOrderIsStrict();
    SortBySorted(Listed(FirstOccurrences(Components(path)), listing), Itself, LexLt);
  }

  /** Python's `s[:t]` for any integer `t`: the first `t` elements, or
      all but the last `-t` when `t` is negative. */
  function SliceTo<T>(s: seq<T>, t: int): (r: seq<T>)
    ensures t >= 0 ==> |r| == if t < |s| then t else |s|
    ensures t < 0 ==> |r| == if -t < |s| then |s| + t else 0
    ensures r == s[..|r|]
  {
    if t >= 0 then (if t < |s| then s[..t] else s)
    else if -t < |s| then s[..|s| + t] else []
  }

  /** The lists `build_menu` fills: every command is an item of both
      lists, and the menu gets the first `t` items. */
  method BuildMenu(commands: seq<string>, t: int) returns (allItems: seq<string>, allCopies: seq<string>, menu: seq<string>)
    ensures allItems == commands && allCopies == commands
    ensures menu == SliceTo(commands, t)
  {
    allItems, allCopies := [], [];
    var i := 0;
    while i < |commands|
      invariant 0 <= i <= |commands|
      invariant allItems == commands[..i] && allCopies == commands[..i]
    {
      assert commands[..i + 1] == commands[..i] + [commands[i]];
      allItems := allItems + [commands[i]];
      allCopies := allCopies + [commands[i]];
      i := i + 1;
    }
    assert commands[..i] == commands;
    var shown := SliceTo(allItems, t);
    menu := [];
    var k := 0;
    while k < |shown|
      invariant 0 <= k <= |shown|
      invariant menu == shown[..k]
    {
      assert shown[..k + 1] == shown[..k] + [shown[k]];
      menu := menu + [shown[k]];
      k := k + 1;
    }
    assert shown[..k] == shown;
  }

  /** The menu shows at most `t` commands, and all of them when there
      are no more than `t`; the search still sees every command. */
  lemma ShownCommands(commands: seq<string>, t: int)
    ensures t >= 0 ==> |SliceTo(commands, t)| <= t
    ensures 0 <= |commands| <= t ==> SliceTo(commands, t) == commands
    ensures forall x :: x in SliceTo(commands, t) ==> x in commands
  {
    var r := SliceTo(commands, t);
    forall x | x in r ensures x in commands {
      var i :| 0 <= i < |r| && r[i] == x;
      assert commands[i] == x;
    }
  }
}
