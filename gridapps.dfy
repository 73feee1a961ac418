/** The grid's application list (`list_entries` of the grid): every file
    with a name, a command and an icon gives an app, a later file with
    the same name and command as an app already kept is dropped, and
    the apps are sorted by their upper-cased names. */
module GridApps {
  import opened Wrappers
  import opened Strings
  import opened Seqs
  import opened Sorting
  import opened DesktopFile
  import opened Catalog

  /** One button of the grid: `AppBox(name, exec, icon, comment)`. */
  datatype App = App(name: string, exec: string, icon: string, comment: string)

  function AppOf(s: Scanned): App {
    App(s.name, s.exec, s.icon, s.comment)
  }

  /** The duplicate test of the grid: same name and same command. */
  predicate SameKey(a: App, b: App) {
    a.name == b.name && a.exec == b.exec
  }

  predicate HasKey(apps: seq<App>, x: App) {
    exists i :: 0 <= i < |apps| && SameKey(apps[i], x)
  }

  /** The apps kept from the fields found, in reading order: each one
      unless an app with its name and command is kept already. */
  function Kept(found: seq<Scanned>): (r: seq<App>)
    ensures |r| <= |found|
  {
    if found == [] then []
    else
      var init := Kept(found[..|found| - 1]);
      var x := AppOf(found[|found| - 1]);
      if HasKey(init, x) then init else init + [x]
  }

  /** The sort key: `x[0].upper()`. */
  function UpperName(a: App): string {
    Upper(a.name)
  }

  /** `all_apps` after `list_entries`. */
  function AllApps(files: seq<seq<string>>, locale: Option<string>): seq<App> {
    SortBy(Kept(Found(files, locale, GridScan)), UpperName, LexLt)
  }

  /** The `for item in apps` loop: whether an app with this name and
      command is kept already (the loop does not stop at a match). */
  method FindKey(apps: seq<App>, x: App) returns (found: bool)
    ensures found <==> HasKey(apps, x)
  {
    found := false;
    var i := 0;
    while i < |apps|
      invariant 0 <= i <= |apps|
      invariant found <==> exists k :: 0 <= k < i && SameKey(apps[k], x)
    {
      if apps[i].name == x.name && apps[i].exec == x.exec {
        found := true;
      }
      i := i + 1;
    }
  }

  /** `list_entries` of the grid, over the files in reading order. */
  method ListEntries(files: seq<seq<string>>, locale: Option<string>) returns (allApps: seq<App>)
    ensures allApps == AllApps(files, locale)
  {
    var apps: seq<App> := [];
    var i := 0;
    while i < |files|
      invariant 0 <= i <= |files|
      invariant apps == Kept(Found(files[..i], locale, GridScan))
    {
      var r := ScanEntry(files[i], locale, GridScan);
      KeptNext(files, i, locale, r);
      if r.Some? {
        var app := AppOf(r.value);
        var found := FindKey(apps, app);
        if !found {
          apps := apps + [app];
        }
      }
      i := i + 1;
    }
    assert files[..i] == files;
    allApps := SortBy(apps, UpperName, LexLt);
  }

  lemma KeptNext(files: seq<seq<string>>, i: nat, locale: Option<string>, r: Option<Scanned>)
    requires i < |files| && r == ScanResult(files[i], locale, GridScan)
    ensures var before := Kept(Found(files[..i], locale, GridScan));
            Kept(Found(files[..i + 1], locale, GridScan))
            == if r.Some? && !HasKey(before, AppOf(r.value)) then before + [AppOf(r.value)] else before
  {
    var found := Found(files[..i], locale, GridScan);
    FoundStep(files, i, locale, GridScan);
    if r.Some? {
      assert Found(files[..i + 1], locale, GridScan) == found + [r.value];
      KeptSnoc(found, r.value);
    } else {
      assert Found(files[..i + 1], locale, GridScan) == found + [];
      assert found + [] == found;
    }
  }

  lemma KeptSnoc(found: seq<Scanned>, s: Scanned)
    ensures Kept(found + [s]) == if HasKey(Kept(found), AppOf(s)) then Kept(found) else Kept(found) + [AppOf(s)]
  {
    SnocParts(found, s);
  }

  /** No two kept apps share a name and a command. */
  predicate DistinctKeys(apps: seq<App>) {
    forall i, j :: 0 <= i < j < |apps| ==> !SameKey(apps[i], apps[j])
  }

  lemma {:induction false} KeptDistinct(found: seq<Scanned>)
    ensures DistinctKeys(Kept(found))
    decreases |found|
  {
    if found != [] {
      var init := Kept(found[..|found| - 1]);
      var x := AppOf(found[|found| - 1]);
      KeptDistinct(found[..|found| - 1]);
      if !HasKey(init, x) {
        var r := init + [x];
        forall i, j | 0 <= i < j < |r| ensures !SameKey(r[i], r[j]) {
          if j == |init| {
            assert r[i] == init[i];
          } else {
            assert r[i] == init[i] && r[j] == init[j];
          }
        }
      }
    }
  }

  /** Every file's app is represented: an app with its name and command
      is kept. */
  lemma {:induction false} KeptComplete(found: seq<Scanned>, k: nat)
    requires k < |found|
    ensures HasKey(Kept(found), AppOf(found[k]))
    decreases |found|
  {
    var init := Kept(found[..|found| - 1]);
    var x := AppOf(found[|found| - 1]);
    if k < |found| - 1 {
      KeptComplete(found[..|found| - 1], k);
      assert found[..|found| - 1][k] == found[k];
      var i :| 0 <= i < |init| && SameKey(init[i], AppOf(found[k]));
      assert Kept(found)[i] == init[i];
    } else if !HasKey(init, x) {
      assert Kept(found)[|init|] == x;
    }
  }

  /** Every kept app is the app of a file that was read. */
  lemma {:induction false} KeptSound(found: seq<Scanned>, k: nat)
    requires k < |Kept(found)|
    ensures exists j :: 0 <= j < |found| && Kept(found)[k] == AppOf(found[j])
    decreases |found|
  {
    var init := Kept(found[..|found| - 1]);
    if k < |init| {
      KeptSound(found[..|found| - 1], k);
      var j :| 0 <= j < |found| - 1 && init[k] == AppOf(found[..|found| - 1][j]);
      assert found[..|found| - 1][j] == found[j];
    } else {
      assert Kept(found)[k] == AppOf(found[|found| - 1]);
    }
  }

  lemma DistinctKeysNoDup(apps: seq<App>)
    requires DistinctKeys(apps)
    ensures NoDup(apps)
  {
  }

  /** The apps after `list_entries`: sorted by upper-cased name, a
      rearrangement of the kept apps, stable among equal sort keys, and
      with no two apps sharing a name and a command. */
  lemma AllAppsOrdered(files: seq<seq<string>>, locale: Option<string>, k: string)
    ensures var kept := Kept(Found(files, locale, GridScan));
            && SortedBy(AllApps(files, locale), UpperName, LexLt)
            && multiset(AllApps(files, locale)) == multiset(kept)
            && WithKey(AllApps(files, locale), UpperName, k) == WithKey(kept, UpperName, k)
            && DistinctKeys(AllApps(files, locale))
  {
    var kept := Kept(Found(files, locale, GridScan));
    var all := AllApps(files, locale);
    NameOrderIsStrict();
    SortBySorted(kept, UpperName, LexLt);
    SortByStable(kept, UpperName, LexLt, k);
    KeptDistinct(Found(files, locale, GridScan));
    DistinctKeysAfterPermutation(kept, all);
  }

  /** A rearrangement keeps names and commands distinct. */
  lemma DistinctKeysAfterPermutation(a: seq<App>, b: seq<App>)
    requires DistinctKeys(a) && multiset(a) == multiset(b)
    ensures DistinctKeys(b)
  {
    DistinctKeysNoDup(a);
    NoDupPermutation(a, b);
    forall i, j | 0 <= i < j < |b| ensures !SameKey(b[i], b[j]) {
      assert b[i] in multiset(a) && b[j] in multiset(a);
      var p :| 0 <= p < |a| && a[p] == b[i];
      var q :| 0 <= q < |a| && a[q] == b[j];
      if p < q {
        assert !SameKey(a[p], a[q]);
      } else if q < p {
        assert !SameKey(a[q], a[p]);
      }
    }
  }

  /** Every file read that makes an app is on the grid, under its own
      name and command; every app on the grid comes from a file. */
  lemma AllAppsCover(files: seq<seq<string>>, locale: Option<string>)
    ensures var found := Found(files, locale, GridScan);
            && (forall k :: 0 <= k < |found| ==> HasKey(AllApps(files, locale), AppOf(found[k])))
            && (forall x :: x in AllApps(files, locale) ==> exists j :: 0 <= j < |found| && x == AppOf(found[j]))
  {
    var found := Found(files, locale, GridScan);
    var kept := Kept(found);
    var all := AllApps(files, locale);
    forall k | 0 <= k < |found| ensures HasKey(all, AppOf(found[k])) {
      KeptComplete(found, k);
      var i :| 0 <= i < |kept| && SameKey(kept[i], AppOf(found[k]));
      assert kept[i] in multiset(all);
      var p :| 0 <= p < |all| && all[p] == kept[i];
    }
    forall x | x in all ensures exists j :: 0 <= j < |found| && x == AppOf(found[j]) {
      assert x in multiset(kept);
      var k :| 0 <= k < |kept| && kept[k] == x;
      KeptSound(found, k);
    }
  }
}
