/** Type-to-search in the menus and the dmenu list (`search_items`).
    Each accepted key release extends the search phrase and backspace
    shortens it; a non-empty phrase replaces the menu by the items that
    match it, an empty one restores the menu as it was built. */
module Search {
  import opened Wrappers
  import opened Strings
  import opened Seqs

  /** A key release: `event.string` and `event.keyval`. */
  datatype Key = Key(text: string, keyval: int)

  const BackspaceKey := 65288
  const EnterKey := 65293
  const EscapeKey := 65307

  /** A menu item as the search sees it. */
  datatype Item = Item(name: string, exec: string)

  function ItemName(x: Item): string { x.name }
  function ItemExec(x: Item): string { x.exec }

  /** What the menu shows below the search box: the menu as built, or
      the search results with the item selected when it is the only one. */
  datatype View<T> = Original | Results(items: seq<T>, selected: Option<T>)

  /** `event.string and event.string.isalnum() or event.string == ' '`. */
  predicate MenuAccepts(text: string) {
    IsAlnum(text) || text == " "
  }

  /** The dmenu list also accepts `-`, `+` and `_`. */
  predicate DmenuAccepts(text: string) {
    IsAlnum(text) || text in [" ", "-", "+", "_"]
  }

  /** `phrase[:-1]`. */
  function DropLast(phrase: string): (r: string)
    ensures |r| == if phrase == [] then 0 else |phrase| - 1
  {
    if phrase == [] then [] else phrase[..|phrase| - 1]
  }

  /** The phrase after a key release: an accepted key's text is appended,
      backspace drops the last character, any other key leaves it. */
  function Edited(phrase: string, key: Key, accepted: bool): string {
    if accepted then phrase + key.text
    else if key.keyval == BackspaceKey then DropLast(phrase)
    else phrase
  }

  /** Typing a character and then backspace gives the phrase back;
      backspace on an empty phrase leaves it empty; an accepted key
      makes the phrase non-empty. */
  lemma EditedMeaning(phrase: string, c: Key, back: Key)
    requires |c.text| == 1 && back.keyval == BackspaceKey
    ensures Edited(Edited(phrase, c, true), back, false) == phrase
    ensures Edited([], back, false) == []
    ensures MenuAccepts(c.text) ==> Edited(phrase, c, true) != []
  {
    assert (phrase + c.text)[..|phrase|] == phrase;
  }

  /** `phrase.upper() in name.upper() or phrase.upper() in
      exec.split()[0].upper()`. */
  predicate Hit<T>(phrase: string, x: T, nameOf: T -> string, execOf: T -> string) {
    Contains(Upper(nameOf(x)), Upper(phrase)) || Contains(Upper(FirstToken(execOf(x))), Upper(phrase))
  }

  predicate NameTaken<T>(acc: seq<T>, name: string, nameOf: T -> string) {
    exists i :: 0 <= i < |acc| && nameOf(acc[i]) == name
  }

  /** The match test for a phrase, as a value the filter can apply. */
  function Matcher<T>(phrase: string, nameOf: T -> string, execOf: T -> string): (T -> bool) {
    x => Hit(phrase, x, nameOf, execOf)
  }

  /** The results after going through `items` with results `acc` so far:
      each item that matches is added unless one with its name is there. */
  function FilterInto<T>(acc: seq<T>, hit: T -> bool, items: seq<T>, nameOf: T -> string): seq<T>
    decreases |items|
  {
    if items == [] then acc
    else Added(FilterInto(acc, hit, items[..|items| - 1], nameOf), hit, items[|items| - 1], nameOf)
  }

  /** The results after looking at one more item. */
  function Added<T>(r: seq<T>, hit: T -> bool, x: T, nameOf: T -> string): seq<T> {
    if hit(x) && !NameTaken(r, nameOf(x), nameOf) then r + [x] else r
  }

  lemma FilterSnoc<T>(acc: seq<T>, hit: T -> bool, items: seq<T>, x: T, nameOf: T -> string)
    ensures FilterInto(acc, hit, items + [x], nameOf)
            == Added(FilterInto(acc, hit, items, nameOf), hit, x, nameOf)
  {
    SnocParts(items, x);
  }

  /** Going through two lists one after the other is going through
      their concatenation. */
  lemma {:induction false} FilterIntoAppend<T>(acc: seq<T>, hit: T -> bool, a: seq<T>, b: seq<T>,
                                               nameOf: T -> string)
    ensures FilterInto(FilterInto(acc, hit, a, nameOf), hit, b, nameOf)
         == FilterInto(acc, hit, a + b, nameOf)
    decreases |b|
  {
    if b == [] {
      assert a + b == a;
    } else {
      var init, x := b[..|b| - 1], b[|b| - 1];
      FilterIntoAppend(acc, hit, a, init, nameOf);
      FilterSnoc(FilterInto(acc, hit, a, nameOf), hit, init, x, nameOf);
      AppendAssoc(a, init, [x]);
      assert b == init + [x];
      FilterSnoc(acc, hit, a + init, x, nameOf);
    }
  }

  /** Every result matches and is one of the items. */
  ghost predicate Sound<T>(r: seq<T>, hit: T -> bool, items: seq<T>) {
    forall k :: 0 <= k < |r| ==> r[k] in items && hit(r[k])
  }

  /** No two results share a name. */
  predicate DistinctNames<T>(r: seq<T>, nameOf: T -> string) {
    forall i, j :: 0 <= i < j < |r| ==> nameOf(r[i]) != nameOf(r[j])
  }

  /** Every matching item has a result with its name. */
  ghost predicate Complete<T>(r: seq<T>, hit: T -> bool, items: seq<T>, nameOf: T -> string) {
    forall x :: x in items && hit(x) ==> NameTaken(r, nameOf(x), nameOf)
  }

  /** No item before position `j` has this name and matches. */
  predicate NoEarlierHit<T>(hit: T -> bool, items: seq<T>, j: int, name: string, nameOf: T -> string)
    requires 0 <= j <= |items|
  {
    forall i :: 0 <= i < j && nameOf(items[i]) == name ==> !hit(items[i])
  }

  /** Each result is the first matching item of its name. */
  ghost predicate FirstOfName<T>(r: seq<T>, hit: T -> bool, items: seq<T>, nameOf: T -> string) {
    forall k :: 0 <= k < |r| ==> FirstHit(hit, items, r[k], nameOf)
  }

  /** `y` is an item with no matching item of its name before it. */
  ghost predicate FirstHit<T>(hit: T -> bool, items: seq<T>, y: T, nameOf: T -> string) {
    exists j :: 0 <= j < |items| && items[j] == y && NoEarlierHit(hit, items, j, nameOf(y), nameOf)
  }

  /** The search results for a hit: every result matches and is one
      of the items, no two results share a name, every matching item
      has a result with its name, and that result is the first matching
      item of that name. */
  lemma FilterMeaning<T>(hit: T -> bool, items: seq<T>, nameOf: T -> string)
    ensures var r := FilterInto([], hit, items, nameOf);
            && Sound(r, hit, items)
            && DistinctNames(r, nameOf)
            && Complete(r, hit, items, nameOf)
            && FirstOfName(r, hit, items, nameOf)
  {
    FilterSound(hit, items, nameOf);
    FilterDistinct(hit, items, nameOf);
    FilterComplete(hit, items, nameOf);
    FilterFirst(hit, items, nameOf);
  }

  lemma {:induction false} FilterSound<T>(hit: T -> bool, items: seq<T>, nameOf: T -> string)
    ensures Sound(FilterInto([], hit, items, nameOf), hit, items)
    decreases |items|
  {
    if items != [] {
      var init, x := items[..|items| - 1], items[|items| - 1];
      FilterSound(hit, init, nameOf);
      assert items == init + [x];
      var r0 := FilterInto([], hit, init, nameOf);
      SoundStep(r0, FilterInto([], hit, items, nameOf), hit, init, x, nameOf);
    }
  }

  lemma {:induction false} FilterDistinct<T>(hit: T -> bool, items: seq<T>, nameOf: T -> string)
    ensures DistinctNames(FilterInto([], hit, items, nameOf), nameOf)
    decreases |items|
  {
    if items != [] {
      var init, x := items[..|items| - 1], items[|items| - 1];
      FilterDistinct(hit, init, nameOf);
      var r0 := FilterInto([], hit, init, nameOf);
      DistinctStep(r0, FilterInto([], hit, items, nameOf), hit, x, nameOf);
    }
  }

  lemma {:induction false} FilterComplete<T>(hit: T -> bool, items: seq<T>, nameOf: T -> string)
    ensures Complete(FilterInto([], hit, items, nameOf), hit, items, nameOf)
    decreases |items|
  {
    if items != [] {
      var init, x := items[..|items| - 1], items[|items| - 1];
      FilterComplete(hit, init, nameOf);
      assert items == init + [x];
      var r0 := FilterInto([], hit, init, nameOf);
      CompleteStep(r0, FilterInto([], hit, items, nameOf), hit, init, x, nameOf);
    }
  }

  lemma {:induction false} FilterFirst<T>(hit: T -> bool, items: seq<T>, nameOf: T -> string)
    ensures FirstOfName(FilterInto([], hit, items, nameOf), hit, items, nameOf)
    decreases |items|
  {
    if items != [] {
      var init, x := items[..|items| - 1], items[|items| - 1];
      FilterFirst(hit, init, nameOf);
      FilterSound(hit, init, nameOf);
      FilterComplete(hit, init, nameOf);
      assert items == init + [x];
      var r0 := FilterInto([], hit, init, nameOf);
      FirstStep(r0, FilterInto([], hit, items, nameOf), hit, init, x, nameOf);
    }
  }

  lemma SoundStep<T>(r0: seq<T>, r: seq<T>, hit: T -> bool, init: seq<T>, x: T, nameOf: T -> string)
    requires Sound(r0, hit, init)
    requires r == Added(r0, hit, x, nameOf)
    ensures Sound(r, hit, init + [x])
  {
    forall k | 0 <= k < |r| ensures r[k] in init + [x] && hit(r[k]) {
      if k < |r0| {
        assert r[k] == r0[k];
      }
    }
  }

  lemma DistinctStep<T>(r0: seq<T>, r: seq<T>, hit: T -> bool, x: T, nameOf: T -> string)
    requires DistinctNames(r0, nameOf)
    requires r == Added(r0, hit, x, nameOf)
    ensures DistinctNames(r, nameOf)
  {
    forall i, j | 0 <= i < j < |r| ensures nameOf(r[i]) != nameOf(r[j]) {
      assert r[i] == r0[i];
      if j < |r0| {
        assert r[j] == r0[j];
      }
    }
  }

  lemma CompleteStep<T>(r0: seq<T>, r: seq<T>, hit: T -> bool, init: seq<T>, x: T, nameOf: T -> string)
    requires Complete(r0, hit, init, nameOf)
    requires r == Added(r0, hit, x, nameOf)
    ensures Complete(r, hit, init + [x], nameOf)
  {
    forall y | y in init + [x] && hit(y) ensures NameTaken(r, nameOf(y), nameOf) {
      var i: nat;
      if y in init {
        i :| 0 <= i < |r0| && nameOf(r0[i]) == nameOf(y);
      } else if NameTaken(r0, nameOf(x), nameOf) {
        i :| 0 <= i < |r0| && nameOf(r0[i]) == nameOf(x);
      } else {
        i := |r0|;
      }
      assert nameOf(r[i]) == nameOf(y);
    }
  }

  lemma FirstStep<T>(r0: seq<T>, r: seq<T>, hit: T -> bool, init: seq<T>, x: T, nameOf: T -> string)
    requires Sound(r0, hit, init) && Complete(r0, hit, init, nameOf)
    requires FirstOfName(r0, hit, init, nameOf)
    requires r == Added(r0, hit, x, nameOf)
    ensures FirstOfName(r, hit, init + [x], nameOf)
  {
    var items := init + [x];
    forall k | 0 <= k < |r| ensures FirstHit(hit, items, r[k], nameOf) {
      if k < |r0| {
        assert r[k] == r0[k];
        assert FirstHit(hit, init, r0[k], nameOf);
        var j :| 0 <= j < |init| && init[j] == r0[k] && NoEarlierHit(hit, init, j, nameOf(r0[k]), nameOf);
        EarlierInPrefix(hit, init, x, j, nameOf(r0[k]), nameOf);
        assert items[j] == r[k];
      } else {
        assert r[k] == x && items[|init|] == x;
        forall i | 0 <= i < |init| && nameOf(items[i]) == nameOf(x) ensures !hit(items[i]) {
          assert items[i] == init[i] && init[i] in init;
        }
        assert NoEarlierHit(hit, items, |init|, nameOf(x), nameOf);
      }
    }
  }

  lemma EarlierInPrefix<T>(hit: T -> bool, init: seq<T>, x: T, j: nat, name: string, nameOf: T -> string)
    requires j < |init| && NoEarlierHit(hit, init, j, name, nameOf)
    ensures (init + [x])[j] == init[j] && NoEarlierHit(hit, init + [x], j, name, nameOf)
  {
    forall i | 0 <= i < j ensures (init + [x])[i] == init[i] {
    }
  }

  /** The name test of the search loop: `for i in filtered_items_list:
      if i.name == item.name: found = True`. */
  method FindName<T>(acc: seq<T>, name: string, nameOf: T -> string) returns (found: bool)
    ensures found <==> NameTaken(acc, name, nameOf)
  {
    found := false;
    var i := 0;
    while i < |acc|
      invariant 0 <= i <= |acc|
      invariant found <==> exists k :: 0 <= k < i && nameOf(acc[k]) == name
    {
      if nameOf(acc[i]) == name {
        found := true;
      }
      i := i + 1;
    }
  }

  /** One pass of the search loop over a list of items. */
  method FilterItems<T>(acc: seq<T>, hit: T -> bool, items: seq<T>, nameOf: T -> string)
    returns (r: seq<T>)
    ensures r == FilterInto(acc, hit, items, nameOf)
  {
    r := acc;
    var i := 0;
    while i < |items|
      invariant 0 <= i <= |items|
      invariant r == FilterInto(acc, hit, items[..i], nameOf)
    {
      var item := items[i];
      FilterSnoc(acc, hit, items[..i], item, nameOf);
      assert items[..i + 1] == items[..i] + [item];
      if hit(item) {
        var found := FindName(r, nameOf(item), nameOf);
        if !found {
          r := r + [item];
        }
      }
      i := i + 1;
    }
    assert items[..i] == items;
  }

  /** The results view for a list of matches. */
  function ResultsView<T>(filtered: seq<T>): View<T> {
    Results(filtered, if |filtered| == 1 then Some(filtered[0]) else None)
  }

  /** `MainWindow.search_items` of the menu. The pool searched is
      `all_copies_list` followed by `missing_copies_list` (the items the
      overflow workaround keeps out of the submenus). */
  class MenuSearch {
    const noMenu: bool
    var phrase: string
    var filtered: seq<Item>
    var view: View<Item>

    constructor (noMenu: bool)
      ensures this.noMenu == noMenu && phrase == [] && filtered == [] && view == Original
    {
      this.noMenu := noMenu;
      phrase := [];
      filtered := [];
      view := Original;
    }

    /** One key release. With `--no-menu` nothing is searched and the
        event is not handled. Enter with a single result activates it. */
    method KeyRelease(key: Key, allCopies: seq<Item>, missing: seq<Item>)
      returns (handled: bool, activated: Option<Item>)
      modifies this
      ensures handled == !noMenu
      ensures var update := !noMenu && (MenuAccepts(key.text) || key.keyval == BackspaceKey);
              && phrase == (if noMenu then old(phrase) else Edited(old(phrase), key, MenuAccepts(key.text)))
              && filtered == (if update && phrase != [] then FilterInto([], Matcher(phrase, ItemName, ItemExec), allCopies + missing, ItemName)
                              else old(filtered))
              && view == (if !update then old(view) else if phrase != [] then ResultsView(filtered) else Original)
              && activated == (if !noMenu && !update && key.keyval == EnterKey && |old(filtered)| == 1
                               then Some(old(filtered)[0]) else None)
    {
      activated := None;
      if noMenu {
        return false, None;
      }
      var update := false;
      if MenuAccepts(key.text) {
        update := true;
        phrase := phrase + key.text;
      } else if key.keyval == BackspaceKey {
        update := true;
        phrase := DropLast(phrase);
      } else if key.keyval == EnterKey && |filtered| == 1 {
        activated := Some(filtered[0]);
      }
      if update {
        if |phrase| > 0 {
          var r := FilterItems([], Matcher(phrase, ItemName, ItemExec), allCopies, ItemName);
          r := FilterItems(r, Matcher(phrase, ItemName, ItemExec), missing, ItemName);
          FilterIntoAppend([], Matcher(phrase, ItemName, ItemExec), allCopies, missing, ItemName);
          filtered := r;
          view := ResultsView(r);
        } else {
          view := Original;
        }
      }
      return true, activated;
    }
  }

  /** `MainWindow.search_items` of the sway menu: the pool is
      `all_copies_list` alone, nothing is selected and Enter does
      nothing. */
  class SwaySearch {
    var phrase: string
    var view: View<Item>

    constructor ()
      ensures phrase == [] && view == Original
    {
      phrase := [];
      view := Original;
    }

    method KeyRelease(key: Key, allCopies: seq<Item>)
      modifies this
      ensures var update := MenuAccepts(key.text) || key.keyval == BackspaceKey;
              && phrase == Edited(old(phrase), key, MenuAccepts(key.text))
              && view == (if !update then old(view)
                          else if phrase != [] then Results(FilterInto([], Matcher(phrase, ItemName, ItemExec), allCopies, ItemName), None)
                          else Original)
    {
      var update := false;
      if MenuAccepts(key.text) {
        update := true;
        phrase := phrase + key.text;
      } else if key.keyval == BackspaceKey {
        update := true;
        phrase := DropLast(phrase);
      }
      if update {
        if |phrase| > 0 {
          var r := FilterItems([], Matcher(phrase, ItemName, ItemExec), allCopies, ItemName);
          view := Results(r, None);
        } else {
          view := Original;
        }
      }
    }
  }

  /** The dmenu list's results: every label containing the phrase,
      ignoring case, in order, repeats kept. */
  function LabelsMatching(phrase: string, labels: seq<string>): (r: seq<string>)
    ensures |r| <= |labels|
    ensures forall x :: x in r <==> x in labels && Contains(Upper(x), Upper(phrase))
  {
    if labels == [] then []
    else
      var init := LabelsMatching(phrase, labels[..|labels| - 1]);
      var x := labels[|labels| - 1];
      assert labels == labels[..|labels| - 1] + [x];
      init + (if Contains(Upper(x), Upper(phrase)) then [x] else [])
  }

  /** Nothing is lost or merged: a label appears in the results as many
      times as it appears in the list when it matches, and not at all
      otherwise. */
  lemma {:induction false} LabelsMatchingCount(phrase: string, labels: seq<string>, x: string)
    ensures multiset(LabelsMatching(phrase, labels))[x]
         == if Contains(Upper(x), Upper(phrase)) then multiset(labels)[x] else 0
    decreases |labels|
  {
    if labels != [] {
      var init := labels[..|labels| - 1];
      LabelsMatchingCount(phrase, init, x);
      assert labels == init + [labels[|labels| - 1]];
    }
  }

  method FilterLabels(phrase: string, labels: seq<string>) returns (r: seq<string>)
    ensures r == LabelsMatching(phrase, labels)
  {
    r := [];
    var i := 0;
    while i < |labels|
      invariant 0 <= i <= |labels|
      invariant r == LabelsMatching(phrase, labels[..i])
    {
      assert labels[..i + 1][..i] == labels[..i];
      if Contains(Upper(labels[i]), Upper(phrase)) {
        r := r + [labels[i]];
      }
      i := i + 1;
    }
    assert labels[..i] == labels;
  }

  /** `MainWindow.search_items` of the dmenu list, over the labels of
      `all_copies_list`. */
  class DmenuSearch {
    var phrase: string
    var filtered: seq<string>
    var view: View<string>

    constructor ()
      ensures phrase == [] && filtered == [] && view == Original
    {
      phrase := [];
      filtered := [];
      view := Original;
    }

    method KeyRelease(key: Key, allCopies: seq<string>) returns (activated: Option<string>)
      modifies this
      ensures var update := DmenuAccepts(key.text) || key.keyval == BackspaceKey;
              && phrase == Edited(old(phrase), key, DmenuAccepts(key.text))
              && filtered == (if update && phrase != [] then LabelsMatching(phrase, allCopies) else old(filtered))
              && view == (if !update then old(view) else if phrase != [] then ResultsView(filtered) else Original)
              && activated == (if !update && key.keyval == EnterKey && |old(filtered)| == 1
                               then Some(old(filtered)[0]) else None)
    {
      activated := None;
      var update := false;
      if DmenuAccepts(key.text) {
        update := true;
        phrase := phrase + key.text;
      } else if key.keyval == BackspaceKey {
        update := true;
        phrase := DropLast(phrase);
      } else if key.keyval == EnterKey && |filtered| == 1 {
        activated := Some(filtered[0]);
      }
      if update {
        if |phrase| > 0 {
          var r := FilterLabels(phrase, allCopies);
          filtered := r;
          view := ResultsView(r);
        } else {
          view := Original;
        }
      }
    }
  }
}
