/** The menu's catalog: every desktop entry read, and the eleven
    category lists it is filed under. Building an entry files it under
    each main bucket one of its tags classifies into (at most once per
    bucket), under `Other` when it lands in none of the ten, and keeps
    each of the ten lists sorted by name. */
module Catalog {
  import opened Wrappers
  import opened Strings
  import opened Seqs
  import opened Sorting
  import opened Categories
  import opened DesktopFile

  /** A `DesktopEntry`. `id` stands for the object's identity: entries
      read from two files are two objects even when their fields agree. */
  datatype Entry = Entry(id: nat, name: string, exec: string, icon: string, categories: seq<string>)

  function NameOf(e: Entry): string { e.name }

  /** The bucket among the ten that one tag files an entry under. */
  function BucketOf(tag: string): (b: set<MainCategory>)
    ensures |b| <= 1 && Other !in b
    ensures forall m :: m in b <==> m != Other && AdditionalToMain(tag) == Some(m)
  {
    match AdditionalToMain(tag)
    case Some(m) => if m != Other then {m} else {}
    case None => {}
  }

  /** The buckets among the ten that some tag of the list files under. */
  function Buckets(tags: seq<string>): (b: set<MainCategory>)
    ensures Other !in b
  {
    if tags == [] then {} else Buckets(tags[..|tags| - 1]) + BucketOf(tags[|tags| - 1])
  }

  lemma {:induction false} BucketsMeaning(tags: seq<string>, m: MainCategory)
    ensures m in Buckets(tags) <==> m != Other && exists i :: 0 <= i < |tags| && AdditionalToMain(tags[i]) == Some(m)
    decreases |tags|
  {
    if tags != [] {
      var init, last := tags[..|tags| - 1], tags[|tags| - 1];
      assert tags == init + [last];
      BucketsMeaning(init, m);
      ExistsSnoc(tags, init, last, t => AdditionalToMain(t) == Some(m));
    }
  }

  /** Some element of a non-empty list satisfies `p` exactly when one
      before the last does or the last does. */
  lemma ExistsSnoc<T>(s: seq<T>, init: seq<T>, last: T, p: T -> bool)
    requires s == init + [last]
    ensures (exists i :: 0 <= i < |s| && p(s[i])) <==> (exists i :: 0 <= i < |init| && p(init[i])) || p(last)
  {
    if exists i :: 0 <= i < |s| && p(s[i]) {
      var i :| 0 <= i < |s| && p(s[i]);
      if i < |init| {
        assert init[i] == s[i];
      }
    }
    if exists i :: 0 <= i < |init| && p(init[i]) {
      var i :| 0 <= i < |init| && p(init[i]);
      assert s[i] == init[i];
    }
    if p(last) {
      assert s[|init|] == last;
    }
  }

  /** Where an entry with these tags belongs: each of the ten buckets
      its tags name, or `Other` when they name none. */
  predicate FiledUnder(tags: seq<string>, m: MainCategory) {
    if m == Other then Buckets(tags) == {} else m in Buckets(tags)
  }

  /** Python's `<` on names orders entries strictly. */
  lemma NameOrderIsStrict()
    ensures StrictOrder(LexLt)
  {
    forall a: string ensures !LexLt(a, a) {
      LexLtIrreflexive(a);
    }
    forall a: string, b: string, c: string | LexLt(a, b) && LexLt(b, c) ensures LexLt(a, c) {
      LexLtTransitive(a, b, c);
    }
  }

  /** The fields read from a file as the entry built from them. */
  function FromScan(id: nat, s: Scanned): Entry {
    Entry(id, s.name, s.exec, s.icon, CategoryTags(s.categories))
  }

  /** The results of the files that make an entry, in reading order. */
  function Found(files: seq<seq<string>>, locale: Option<string>, variant: Variant): (r: seq<Scanned>)
    ensures |r| <= |files|
  {
    if files == [] then []
    else
      var init := Found(files[..|files| - 1], locale, variant);
      match ScanResult(files[|files| - 1], locale, variant)
      case Some(s) => init + [s]
      case None => init
  }

  /** The entries built from the fields found, with identities counted
      up from `start`. */
  function Built(start: nat, found: seq<Scanned>): (r: seq<Entry>)
    ensures |r| == |found|
  {
    MapIndexed(start, found, FromScan)
  }

  lemma FoundStep(files: seq<seq<string>>, i: nat, locale: Option<string>, variant: Variant)
    requires i < |files|
    ensures Found(files[..i + 1], locale, variant)
         == Found(files[..i], locale, variant)
            + (match ScanResult(files[i], locale, variant) case Some(s) => [s] case None => [])
  {
    assert files[..i + 1][..i] == files[..i];
  }

  lemma BuiltSnoc(start: nat, found: seq<Scanned>, s: Scanned, id: nat)
    requires id == start + |found|
    ensures Built(start, found + [s]) == Built(start, found) + [FromScan(id, s)]
  {
    MapIndexedSnoc(start, found, s, FromScan, id);
  }

  /** The eleven lists in the order the source keeps them: the ten
      main buckets, then `Other`. */
  const AllBuckets: seq<MainCategory> := MainTen + [Other]

  /** The position of a bucket's list. */
  function Index(m: MainCategory): (j: nat)
    ensures j < |AllBuckets| && AllBuckets[j] == m
    ensures j == 10 <==> m == Other
  {
    match m
    case AudioVideo => 0
    case Development => 1
    case Game => 2
    case Graphics => 3
    case Network => 4
    case Office => 5
    case Science => 6
    case Settings => 7
    case System => 8
    case Utility => 9
    case Other => 10
  }

  lemma IndexOfBucket(j: nat)
    requires j < |AllBuckets|
    ensures Index(AllBuckets[j]) == j
  {
    if j == 0 {} else if j == 1 {} else if j == 2 {} else if j == 3 {} else if j == 4 {}
    else if j == 5 {} else if j == 6 {} else if j == 7 {} else if j == 8 {} else if j == 9 {} else {}
  }

  /** The lists after an entry is filed, before they are sorted again. */
  function Filed(groups: seq<seq<Entry>>, e: Entry): (r: seq<seq<Entry>>)
    requires |groups| == |AllBuckets|
    ensures |r| == |groups|
  {
    seq(|groups|, j requires 0 <= j < |groups| =>
      groups[j] + (if FiledUnder(e.categories, AllBuckets[j]) then [e] else []))
  }

  /** The lists after the ten are sorted by name; `Other` is not sorted. */
  function Resorted(groups: seq<seq<Entry>>): (r: seq<seq<Entry>>)
    requires |groups| == |AllBuckets|
    ensures |r| == |groups|
  {
    seq(|groups|, j requires 0 <= j < |groups| =>
      if j < |MainTen| then SortBy(groups[j], NameOf, LexLt) else groups[j])
  }

  /** The lists hold only entries of `all_entries`. */
  ghost predicate Listed(groups: seq<seq<Entry>>, allEntries: seq<Entry>) {
    forall j, i :: 0 <= j < |groups| && 0 <= i < |groups[j]| ==> groups[j][i] in allEntries
  }

  /** Entries have distinct identities, all below `nextId`. */
  ghost predicate Identified(allEntries: seq<Entry>, nextId: nat) {
    && (forall i :: 0 <= i < |allEntries| ==> allEntries[i].id < nextId)
    && (forall i, j :: 0 <= i < j < |allEntries| ==> allEntries[i].id != allEntries[j].id)
  }

  /** Each entry is in exactly the lists of the buckets its tags name. */
  ghost predicate Placed(groups: seq<seq<Entry>>, allEntries: seq<Entry>)
    requires |groups| == |AllBuckets|
  {
    forall j, e :: 0 <= j < |groups| && e in allEntries ==> (e in groups[j] <==> FiledUnder(e.categories, AllBuckets[j]))
  }

  /** No list holds an entry twice, and the ten are sorted by name. */
  ghost predicate Ordered(groups: seq<seq<Entry>>) {
    forall j :: 0 <= j < |groups| ==> NoDup(groups[j]) && (j < |MainTen| ==> SortedBy(groups[j], NameOf, LexLt))
  }

  /** The catalog's invariant: one list per bucket; the lists hold only
      entries of `all_entries`, each at most once, exactly under the
      buckets its tags name; entries have distinct identities below the
      next one; the ten lists are sorted by name. */
  ghost predicate ValidState(groups: seq<seq<Entry>>, allEntries: seq<Entry>, nextId: nat) {
    && |groups| == |AllBuckets|
    && Listed(groups, allEntries)
    && Identified(allEntries, nextId)
    && Placed(groups, allEntries)
    && Ordered(groups)
  }

  class Menu {
    /** `c_audio_video` … `c_utility`, then `c_other`. */
    var groups: seq<seq<Entry>>
    /** `all_entries`, the list the favourites are looked up in. */
    var allEntries: seq<Entry>
    /** The identity the next entry gets. */
    var nextId: nat

    ghost predicate Valid()
      reads this
    {
      ValidState(groups, allEntries, nextId)
    }

    /** The list of one bucket. */
    function Group(m: MainCategory): seq<Entry>
      requires Valid()
      reads this
    {
      groups[Index(m)]
    }

    constructor ()
      ensures Valid() && allEntries == [] && nextId == 0
      ensures forall m :: Group(m) == []
    {
      groups := seq(|AllBuckets|, j => []);
      allEntries := [];
      nextId := 0;
    }

    /** `DesktopEntry(name, exec, icon, categories)` followed by
        `all_entries.append(entry)`: the new entry is filed under the
        buckets its tags name (or `Other`), each of the ten lists is
        sorted again by name, and it is appended to `all_entries`. */
    method AddEntry(s: Scanned) returns (e: Entry)
      requires Valid()
      modifies this
      ensures Valid()
      ensures e == FromScan(old(nextId), s) && nextId == old(nextId) + 1
      ensures allEntries == old(allEntries) + [e]
      ensures groups == Resorted(Filed(old(groups), e))
    {
      e := FromScan(nextId, s);
      EntryIsFresh(groups, allEntries, nextId, e);
      nextId := nextId + 1;
      FileEntry(e);
      SortGroups();
      allEntries := allEntries + [e];
      AddEntryKeepsValid(old(groups), old(allEntries), old(nextId), e);
    }

    /** The loop over the entry's tags (each bucket gets the entry at most
        once) and the `Other` test after it. */
    method FileEntry(e: Entry)
      requires |groups| == |AllBuckets|
      requires forall j :: 0 <= j < |groups| ==> e !in groups[j]
      modifies this
      ensures groups == Filed(old(groups), e)
      ensures allEntries == old(allEntries) && nextId == old(nextId)
    {
      var tags := e.categories;
      var i := 0;
      while i < |tags|
        invariant 0 <= i <= |tags|
        invariant |groups| == |AllBuckets|
        invariant forall j :: 0 <= j < |MainTen| ==>
                    groups[j] == old(groups[j]) + (if AllBuckets[j] in Buckets(tags[..i]) then [e] else [])
        invariant groups[10] == old(groups[10])
        invariant allEntries == old(allEntries) && nextId == old(nextId)
      {
        ghost var before := groups;
        FileTag(e, tags[i]);
        FilingStep(old(groups), before, groups, e, Buckets(tags[..i]), BucketOf(tags[i]));
        BucketsSnoc(tags, i);
        i := i + 1;
      }
      assert tags[..i] == tags;
      OtherTest(e, groups);
      if forall j | 0 <= j < |MainTen| :: e !in groups[j] {
        groups := groups[10 := groups[10] + [e]];
      }
      FiledPointwise(old(groups), e, groups);
    }

    /** One turn of the loop over the tags: the `elif` chain appends the
        entry to the list of the tag's bucket unless it is there already. */
    method FileTag(e: Entry, tag: string)
      requires |groups| == |AllBuckets|
      modifies this
      ensures |groups| == |AllBuckets| && groups[10] == old(groups[10])
      ensures forall j :: 0 <= j < |MainTen| ==>
                groups[j] == old(groups[j]) + (if AllBuckets[j] in BucketOf(tag) && e !in old(groups[j]) then [e] else [])
      ensures allEntries == old(allEntries) && nextId == old(nextId)
    {
      var main := AdditionalToMain(tag);
      ghost var g0 := groups;
      if main.Some? && main.value != Other {
        var j := Index(main.value);
        if e !in groups[j] {
          groups := groups[j := groups[j] + [e]];
        }
      }
      TagStep(g0, groups, e, main, BucketOf(tag));
    }

    /** `for group in groups: group.sort(key=lambda x: x.name)`, over
        the ten main lists. */
    method SortGroups()
      requires |groups| == |AllBuckets|
      modifies this
      ensures groups == Resorted(old(groups))
      ensures allEntries == old(allEntries) && nextId == old(nextId)
    {
      var k := 0;
      while k < |MainTen|
        invariant 0 <= k <= |MainTen|
        invariant |groups| == |AllBuckets|
        invariant SortedBelow(old(groups), groups, k)
        invariant allEntries == old(allEntries) && nextId == old(nextId)
      {
        SortStep(old(groups), groups, k);
        groups := groups[k := SortBy(groups[k], NameOf, LexLt)];
        k := k + 1;
      }
      SortedAll(old(groups), groups);
    }

    /** `if _name and _exec and _categories:` the fields found make an
        entry. */
    method Keep(r: Option<Scanned>)
      requires Valid()
      modifies this
      ensures Valid()
      ensures r.Some? ==> allEntries == old(allEntries) + [FromScan(old(nextId), r.value)] && nextId == old(nextId) + 1
      ensures r.None? ==> allEntries == old(allEntries) && nextId == old(nextId)
    {
      if r.Some? {
        var _ := AddEntry(r.value);
      }
    }

    /** The body of `list_entries` for the file at position `i`: the
        entries read so far gain the file's entry, if it makes one. */
    method ReadFile(files: seq<seq<string>>, i: nat, locale: Option<string>,
                    ghost start: nat, ghost all0: seq<Entry>)
      requires i < |files| && Valid()
      requires nextId == start + |Found(files[..i], locale, MenuScan)|
      requires allEntries == all0 + Built(start, Found(files[..i], locale, MenuScan))
      modifies this
      ensures Valid()
      ensures nextId == start + |Found(files[..i + 1], locale, MenuScan)|
      ensures allEntries == all0 + Built(start, Found(files[..i + 1], locale, MenuScan))
    {
      ghost var found := Found(files[..i], locale, MenuScan);
      ghost var before := allEntries;
      var r := ScanEntry(files[i], locale, MenuScan);
      ghost var id := nextId;
      assert id == start + |found|;
      Keep(r);
      FoundNext(files, i, locale, r);
      BuiltNext(found, r, start, id, all0, before, allEntries);
    }

    /** `list_entries`: every file that makes an entry adds one, in
        reading order. */
    method ListEntries(files: seq<seq<string>>, locale: Option<string>)
      requires Valid()
      modifies this
      ensures Valid()
      ensures nextId == old(nextId) + |Found(files, locale, MenuScan)|
      ensures allEntries == old(allEntries) + Built(old(nextId), Found(files, locale, MenuScan))
    {
      var i := 0;
      assert files[..0] == [];
      while i < |files|
        invariant 0 <= i <= |files|
        invariant Valid()
        invariant nextId == old(nextId) + |Found(files[..i], locale, MenuScan)|
        invariant allEntries == old(allEntries) + Built(old(nextId), Found(files[..i], locale, MenuScan))
      {
        ReadFile(files, i, locale, old(nextId), old(allEntries));
        i := i + 1;
      }
      assert files[..i] == files;
    }
  }

  /** One more file read: the fields found gain the file's fields, if
      it makes an entry. */
  lemma FoundNext(files: seq<seq<string>>, i: nat, locale: Option<string>, r: Option<Scanned>)
    requires i < |files| && r == ScanResult(files[i], locale, MenuScan)
    ensures Found(files[..i + 1], locale, MenuScan)
         == Found(files[..i], locale, MenuScan) + (if r.Some? then [r.value] else [])
  {
    FoundStep(files, i, locale, MenuScan);
  }

  /** The entries built so far gain the entry of the new fields. */
  lemma BuiltNext(found: seq<Scanned>, r: Option<Scanned>, start: nat, id: nat,
                  all0: seq<Entry>, before: seq<Entry>, after: seq<Entry>)
    requires before == all0 + Built(start, found) && id == start + |found|
    requires r.Some? ==> after == before + [FromScan(id, r.value)]
    requires r.None? ==> after == before
    ensures after == all0 + Built(start, found + (if r.Some? then [r.value] else []))
  {
    if r.Some? {
      var b, x := Built(start, found), FromScan(id, r.value);
      BuiltSnoc(start, found, r.value, id);
      AppendAssoc(all0, b, [x]);
    } else {
      var same := found + [];
      assert same == found;
      assert after == all0 + Built(start, same);
    }
  }

  /** The lists with the first `k` sorted, as the sorting loop leaves
      them after `k` turns. */
  ghost predicate SortedBelow(g0: seq<seq<Entry>>, g: seq<seq<Entry>>, k: nat) {
    |g| == |g0| && forall j :: 0 <= j < |g| ==> g[j] == if j < k then SortBy(g0[j], NameOf, LexLt) else g0[j]
  }

  lemma SortStep(g0: seq<seq<Entry>>, g: seq<seq<Entry>>, k: nat)
    requires k < |g| && SortedBelow(g0, g, k)
    ensures SortedBelow(g0, g[k := SortBy(g[k], NameOf, LexLt)], k + 1)
  {
  }

  lemma SortedAll(g0: seq<seq<Entry>>, g: seq<seq<Entry>>)
    requires |g0| == |AllBuckets| && SortedBelow(g0, g, |MainTen|)
    ensures g == Resorted(g0)
  {
  }

  /** One turn of the loop over the tags, for a tag classified as
      `main`, whose buckets among the ten are `b`. */
  lemma TagStep(g0: seq<seq<Entry>>, g: seq<seq<Entry>>, e: Entry, main: Option<MainCategory>, b: set<MainCategory>)
    requires |g0| == |AllBuckets|
    requires b == if main.Some? && main.value != Other then {main.value} else {}
    requires g == if main.Some? && main.value != Other && e !in g0[Index(main.value)]
                  then g0[Index(main.value) := g0[Index(main.value)] + [e]] else g0
    ensures |g| == |AllBuckets| && g[10] == g0[10]
    ensures forall j :: 0 <= j < |MainTen| ==>
              g[j] == g0[j] + (if AllBuckets[j] in b && e !in g0[j] then [e] else [])
  {
    forall j | 0 <= j < |MainTen|
      ensures g[j] == g0[j] + (if AllBuckets[j] in b && e !in g0[j] then [e] else [])
    {
      IndexOfBucket(j);
    }
  }

  /** The tags up to `i` and the tag at `i` name the buckets of the tags
      up to `i + 1`. */
  lemma BucketsSnoc(tags: seq<string>, i: nat)
    requires i < |tags|
    ensures Buckets(tags[..i + 1]) == Buckets(tags[..i]) + BucketOf(tags[i])
  {
    assert tags[..i + 1][..i] == tags[..i];
  }

  /** One turn of the filing loop: a list that already holds the entry
      keeps it once; one that does not gains it when the tag names its
      bucket. */
  lemma FilingStep(g0: seq<seq<Entry>>, g1: seq<seq<Entry>>, g2: seq<seq<Entry>>, e: Entry,
                   before: set<MainCategory>, b: set<MainCategory>)
    requires |g0| == |AllBuckets| && |g1| == |AllBuckets| && |g2| == |AllBuckets|
    requires forall j :: 0 <= j < |g0| ==> e !in g0[j]
    requires forall j :: 0 <= j < |MainTen| ==> g1[j] == g0[j] + (if AllBuckets[j] in before then [e] else [])
    requires forall j :: 0 <= j < |MainTen| ==> g2[j] == g1[j] + (if AllBuckets[j] in b && e !in g1[j] then [e] else [])
    ensures forall j :: 0 <= j < |MainTen| ==> g2[j] == g0[j] + (if AllBuckets[j] in before + b then [e] else [])
  {
    forall j | 0 <= j < |MainTen|
      ensures g2[j] == g0[j] + (if AllBuckets[j] in before + b then [e] else [])
    {
      if AllBuckets[j] in before {
        assert e in g1[j];
      } else {
        assert g1[j] == g0[j] + [];
      }
    }
  }

  /** The filing loop's result, list by list, is `Filed`. */
  lemma FiledPointwise(g0: seq<seq<Entry>>, e: Entry, g: seq<seq<Entry>>)
    requires |g0| == |AllBuckets| && |g| == |AllBuckets|
    requires forall j :: 0 <= j < |MainTen| ==> g[j] == g0[j] + (if AllBuckets[j] in Buckets(e.categories) then [e] else [])
    requires g[10] == g0[10] + (if Buckets(e.categories) == {} then [e] else [])
    ensures g == Filed(g0, e)
  {
    var f := Filed(g0, e);
    forall j | 0 <= j < |g| ensures g[j] == f[j] {
      if j < |MainTen| {
        IndexOfBucket(j);
      } else {
        assert j == 10 && AllBuckets[j] == Other;
      }
    }
  }

  /** After the loop over the tags, the entry is in none of the ten
      lists exactly when its tags name none of the ten buckets. */
  lemma OtherTest(e: Entry, groups: seq<seq<Entry>>)
    requires |groups| == |AllBuckets|
    requires forall j :: 0 <= j < |MainTen| ==>
               (e in groups[j] <==> AllBuckets[j] in Buckets(e.categories))
    ensures (forall j | 0 <= j < |MainTen| :: e !in groups[j]) <==> Buckets(e.categories) == {}
  {
    if Buckets(e.categories) != {} {
      var m :| m in Buckets(e.categories);
      assert e in groups[Index(m)];
    }
  }

  /** A new entry's identity is above every identity in the catalog, so
      it is in no list yet. */
  lemma EntryIsFresh(groups: seq<seq<Entry>>, allEntries: seq<Entry>, nextId: nat, e: Entry)
    requires ValidState(groups, allEntries, nextId) && e.id == nextId
    ensures e !in allEntries
    ensures forall j :: 0 <= j < |groups| ==> e !in groups[j]
  {
    assert e !in allEntries by {
      forall i | 0 <= i < |allEntries| ensures allEntries[i] != e {
        assert allEntries[i].id < nextId;
      }
    }
    forall j, i | 0 <= j < |groups| && 0 <= i < |groups[j]| ensures groups[j][i] != e {
      assert groups[j][i] in allEntries;
    }
  }

  /** One list after filing and sorting: it gains the entry exactly when
      the entry is filed under it, stays free of repetitions, and is
      sorted when it is one of the ten. */
  lemma GroupAfterAdd(g0: seq<Entry>, e: Entry, m: MainCategory, g: seq<Entry>)
    requires NoDup(g0) && e !in g0
    requires m != Other ==> SortedBy(g0, NameOf, LexLt)
    requires var added := g0 + (if FiledUnder(e.categories, m) then [e] else []);
             g == if m == Other then added else SortBy(added, NameOf, LexLt)
    ensures forall x :: x in g <==> x in g0 || (x == e && FiledUnder(e.categories, m))
    ensures NoDup(g)
    ensures m != Other ==> SortedBy(g, NameOf, LexLt)
  {
    var added := g0 + (if FiledUnder(e.categories, m) then [e] else []);
    if FiledUnder(e.categories, m) {
      NoDupSnoc(g0, e);
    } else {
      assert added == g0;
    }
    if m != Other {
      NameOrderIsStrict();
      NoDupPermutation(added, g);
      SortBySorted(added, NameOf, LexLt);
      forall x ensures x in g <==> x in added {
        assert x in g <==> x in multiset(g);
        assert x in added <==> x in multiset(added);
      }
    }
  }

  /** One list of the catalog after filing and sorting. */
  lemma ResortedFiledAt(groups0: seq<seq<Entry>>, e: Entry, j: nat)
    requires |groups0| == |AllBuckets| && j < |AllBuckets|
    ensures j < |MainTen| <==> AllBuckets[j] != Other
    ensures var added := groups0[j] + (if FiledUnder(e.categories, AllBuckets[j]) then [e] else []);
            Resorted(Filed(groups0, e))[j]
            == if AllBuckets[j] == Other then added else SortBy(added, NameOf, LexLt)
  {
    IndexOfBucket(j);
  }

  /** Adding an entry with a fresh identity, filed and sorted as
      `AddEntry` does, keeps the catalog's invariant. */
  lemma AddEntryKeepsValid(groups0: seq<seq<Entry>>, all0: seq<Entry>, next0: nat, e: Entry)
    requires ValidState(groups0, all0, next0) && e.id == next0
    ensures ValidState(Resorted(Filed(groups0, e)), all0 + [e], next0 + 1)
  {
    var groups := Resorted(Filed(groups0, e));
    EntryIsFresh(groups0, all0, next0, e);
    forall j | 0 <= j < |groups|
      ensures forall x :: x in groups[j] <==> x in groups0[j] || (x == e && FiledUnder(e.categories, AllBuckets[j]))
      ensures NoDup(groups[j]) && (j < |MainTen| ==> SortedBy(groups[j], NameOf, LexLt))
    {
      ResortedFiledAt(groups0, e, j);
      GroupAfterAdd(groups0[j], e, AllBuckets[j], groups[j]);
    }
    ListedAfterAdd(groups0, all0, groups, e);
    PlacedAfterAdd(groups0, all0, groups, e);
  }

  lemma ListedAfterAdd(groups0: seq<seq<Entry>>, all0: seq<Entry>, groups: seq<seq<Entry>>, e: Entry)
    requires |groups| == |groups0| && Listed(groups0, all0)
    requires forall j :: 0 <= j < |groups| ==> forall x :: x in groups[j] ==> x in groups0[j] || x == e
    ensures Listed(groups, all0 + [e])
  {
    forall j, i | 0 <= j < |groups| && 0 <= i < |groups[j]| ensures groups[j][i] in all0 + [e] {
      var x := groups[j][i];
      if x != e {
        assert x in groups0[j];
        var k :| 0 <= k < |groups0[j]| && groups0[j][k] == x;
      }
    }
  }

  lemma PlacedAfterAdd(groups0: seq<seq<Entry>>, all0: seq<Entry>, groups: seq<seq<Entry>>, e: Entry)
    requires |groups0| == |AllBuckets| && |groups| == |AllBuckets| && Placed(groups0, all0)
    requires forall j :: 0 <= j < |groups0| ==> e !in groups0[j]
    requires forall j :: 0 <= j < |groups| ==>
               forall x :: x in groups[j] <==> x in groups0[j] || (x == e && FiledUnder(e.categories, AllBuckets[j]))
    ensures Placed(groups, all0 + [e])
  {
    forall j, x | 0 <= j < |groups| && x in all0 + [e] ensures x in groups[j] <==> FiledUnder(x.categories, AllBuckets[j]) {
      if x != e {
        assert x in all0;
      }
    }
  }
}
