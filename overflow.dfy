/** The long-submenu workaround of the menus (`sub_menu`, `cheat_sway`,
    `cheat_sway_on_exit`). On sway a popped-up menu taller than the
    screen cannot scroll, so a category with at least `t` entries is
    built with its first `t` items only; the rest are appended when the
    submenu pops up and removed again when it hides. The module-level
    item lists the search works on are a `Registry`. */
module Overflow {
  import opened Seqs
  import opened Search

  /** The module-level lists: `all_items_list`, `all_copies_list` and
      `missing_copies_list`. Only the `sgtk_menu` menu keeps the last
      one; the `sway-gtk-menu` menu has no such list. */
  class Registry {
    const storesMissing: bool
    var allItems: seq<Item>
    var allCopies: seq<Item>
    var missing: seq<Item>

    constructor (storesMissing: bool)
      ensures this.storesMissing == storesMissing
      ensures allItems == [] && allCopies == [] && missing == []
    {
      this.storesMissing := storesMissing;
      allItems := [];
      allCopies := [];
      missing := [];
    }

    /** `sub_menu`: the submenu of one category. When not on sway, or
        when the category has fewer than `t` entries, every entry becomes
        an item of the submenu and of both lists. Otherwise only the
        first `t` do, the submenu cheats, and (in `sgtk_menu`) the
        remaining entries go to `missing_copies_list` so that the search
        still finds them. */
    method AddSubMenu(entries: seq<Item>, onSway: bool, t: nat) returns (m: SubMenu)
      modifies this
      ensures fresh(m) && m.Valid()
      ensures m.entries == entries && m.t == t
      ensures var short := !onSway || |entries| < t;
              && m.cheating == !short
              && m.children == (if short then entries else entries[..t])
              && allItems == old(allItems) + m.children
              && allCopies == old(allCopies) + m.children
              && missing == old(missing) + (if short || !storesMissing then [] else entries[t..])
    {
      var short := !onSway || |entries| < t;
      m := new SubMenu(entries, t, !short);
      var n := if short then |entries| else t;
      var i := 0;
      while i < n
        invariant 0 <= i <= n <= |entries|
        invariant m.children == entries[..i]
        invariant allItems == old(allItems) + entries[..i]
        invariant allCopies == old(allCopies) + entries[..i]
        invariant missing == old(missing)
      {
        assert entries[..i + 1] == entries[..i] + [entries[i]];
        allItems := allItems + [entries[i]];
        allCopies := allCopies + [entries[i]];
        m.children := m.children + [entries[i]];
        i := i + 1;
      }
      if short {
        assert entries[..i] == entries;
      } else if storesMissing {
        var j := t;
        while j < |entries|
          invariant t <= j <= |entries|
          invariant missing == old(missing) + entries[t..j]
          invariant m.children == entries[..t]
          invariant allItems == old(allItems) + entries[..t]
          invariant allCopies == old(allCopies) + entries[..t]
        {
          assert entries[t..j + 1] == entries[t..j] + [entries[j]];
          missing := missing + [entries[j]];
          j := j + 1;
        }
        assert entries[t..j] == entries[t..];
      }
    }

    /** One entry appended by `cheat_sway`: it joins each list unless an
        item of its name is there already. */
    method Admit(e: Item)
      modifies this
      ensures allItems == Admitted(old(allItems), e)
      ensures allCopies == Admitted(old(allCopies), e)
      ensures missing == old(missing)
    {
      var found := FindName(allItems, e.name, ItemName);
      if !found {
        allItems := allItems + [e];
      }
      found := FindName(allCopies, e.name, ItemName);
      if !found {
        allCopies := allCopies + [e];
      }
    }
  }

  /** A list after `e` is offered to it: `e` is appended unless an item
      of its name is there already. */
  function Admitted(r: seq<Item>, e: Item): seq<Item> {
    if NameTaken(r, e.name, ItemName) then r else r + [e]
  }

  /** The pool after adding `xs` one by one, each unless an item with
      its name is there already (the `found` loops of `cheat_sway`). */
  function Merged(acc: seq<Item>, xs: seq<Item>): (r: seq<Item>)
    ensures |acc| <= |r| <= |acc| + |xs|
    decreases |xs|
  {
    if xs == [] then acc
    else
      Admitted(Merged(acc, xs[..|xs| - 1]), xs[|xs| - 1])
  }

  lemma MergedSnoc(acc: seq<Item>, xs: seq<Item>, x: Item)
    ensures Merged(acc, xs + [x]) == Admitted(Merged(acc, xs), x)
  {
    SnocParts(xs, x);
  }

  lemma MergedNext(acc: seq<Item>, s: seq<Item>, t: nat, i: nat)
    requires t <= i < |s|
    ensures Merged(acc, s[t..i + 1]) == Admitted(Merged(acc, s[t..i]), s[i])
  {
    assert s[t..i + 1] == s[t..i] + [s[i]];
    MergedSnoc(acc, s[t..i], s[i]);
  }

  lemma SliceNext(front: seq<Item>, s: seq<Item>, t: nat, i: nat)
    requires t <= i < |s|
    ensures front + s[t..i + 1] == front + s[t..i] + [s[i]]
  {
    assert s[t..i + 1] == s[t..i] + [s[i]];
  }

  /** Merging keeps the pool as it was in front, adds only items of
      `xs`, leaves every item of `xs` with a namesake in the pool, and
      adds no second item of a name. */
  lemma {:induction false} MergedMeaning(acc: seq<Item>, xs: seq<Item>)
    ensures var r := Merged(acc, xs);
            && r[..|acc|] == acc
            && (forall k :: |acc| <= k < |r| ==> r[k] in xs)
            && (forall x :: x in xs ==> NameTaken(r, x.name, ItemName))
            && (DistinctNames(acc, ItemName) ==> DistinctNames(r, ItemName))
    decreases |xs|
  {
    if xs != [] {
      var init, x := xs[..|xs| - 1], xs[|xs| - 1];
      assert xs == init + [x];
      MergedMeaning(acc, init);
      var r0 := Merged(acc, init);
      var r := Merged(acc, xs);
      MergedStep(acc, init, x, r0, r);
    }
  }

  lemma MergedStep(acc: seq<Item>, init: seq<Item>, x: Item, r0: seq<Item>, r: seq<Item>)
    requires |acc| <= |r0| && r0[..|acc|] == acc
    requires forall k :: |acc| <= k < |r0| ==> r0[k] in init
    requires forall y :: y in init ==> NameTaken(r0, y.name, ItemName)
    requires DistinctNames(acc, ItemName) ==> DistinctNames(r0, ItemName)
    requires r == if NameTaken(r0, x.name, ItemName) then r0 else r0 + [x]
    ensures r[..|acc|] == acc
    ensures forall k :: |acc| <= k < |r| ==> r[k] in init + [x]
    ensures forall y :: y in init + [x] ==> NameTaken(r, y.name, ItemName)
    ensures DistinctNames(acc, ItemName) ==> DistinctNames(r, ItemName)
  {
    forall k | 0 <= k < |r0| ensures r[k] == r0[k] {
    }
    assert r[..|acc|] == r0[..|acc|];
    forall y | y in init + [x] ensures NameTaken(r, y.name, ItemName) {
      if y in init {
        var i :| 0 <= i < |r0| && ItemName(r0[i]) == y.name;
        assert r[i] == r0[i];
      } else if !NameTaken(r0, x.name, ItemName) {
        assert r[|r0|] == x;
      }
    }
    if DistinctNames(acc, ItemName) && r != r0 {
      forall i, j | 0 <= i < j < |r| ensures ItemName(r[i]) != ItemName(r[j]) {
        if j < |r0| {
          assert r[i] == r0[i] && r[j] == r0[j];
        } else {
          assert r[i] == r0[i] && r[j] == x;
        }
      }
    }
  }

  /** The children after the submenu pops up (`cheat_sway`): when it
      has fewer children than entries, entries `t` onwards are appended. */
  function Popped(entries: seq<Item>, t: nat, children: seq<Item>): (r: seq<Item>)
    requires t <= |entries|
    ensures |r| >= |children| && r[..|children|] == children
  {
    if |children| < |entries| then children + entries[t..] else children
  }

  /** The children after the submenu hides (`cheat_sway_on_exit`):
      every child past position `t` is removed. */
  function Trimmed(t: nat, children: seq<Item>): (r: seq<Item>)
    ensures |r| <= t && |r| <= |children|
    ensures r == children[..|r|]
  {
    if |children| <= t then children else children[..t]
  }

  /** Popping up shows every entry; hiding goes back to the first `t`;
      popping up again, or hiding twice, changes nothing. */
  lemma {:induction false} PopupHideCycle(entries: seq<Item>, t: nat)
    requires t < |entries|
    ensures Popped(entries, t, entries[..t]) == entries
    ensures Trimmed(t, Popped(entries, t, entries[..t])) == entries[..t]
    ensures Popped(entries, t, entries) == entries
    ensures Trimmed(t, entries[..t]) == entries[..t]
  {
    assert entries[..t] + entries[t..] == entries;
  }

  /** A category's submenu. `cheating` says whether the pop-up and
      hide handlers are connected. */
  class SubMenu {
    const entries: seq<Item>
    const t: nat
    const cheating: bool
    var children: seq<Item>

    /** A cheating submenu shows its first `t` entries or all of them;
        any other shows all of them. */
    ghost predicate Valid()
      reads this
    {
      if cheating then t <= |entries| && (children == entries[..t] || children == entries)
      else children == entries
    }

    constructor (entries: seq<Item>, t: nat, cheating: bool)
      ensures this.entries == entries && this.t == t && this.cheating == cheating
      ensures children == []
    {
      this.entries := entries;
      this.t := t;
      this.cheating := cheating;
      children := [];
    }

    /** The `popped-up` signal. Only a cheating submenu has
        `cheat_sway` connected; each appended entry also joins both
        lists unless an item of its name is in the list already. */
    method PoppedUp(reg: Registry)
      requires Valid()
      modifies this, reg
      ensures Valid()
      ensures var grows := cheating && |old(children)| < |entries|;
              && children == (if cheating then Popped(entries, t, old(children)) else old(children))
              && reg.allItems == (if grows then Merged(old(reg.allItems), entries[t..]) else old(reg.allItems))
              && reg.allCopies == (if grows then Merged(old(reg.allCopies), entries[t..]) else old(reg.allCopies))
              && reg.missing == old(reg.missing)
    {
      if cheating && |children| < |entries| {
        AppendRest(reg);
        assert entries[..t] + entries[t..] == entries;
      }
    }

    /** The loop of `cheat_sway`: entries `t` onwards are appended to the
        submenu, and each joins both lists unless its name is there. */
    method AppendRest(reg: Registry)
      requires t <= |entries|
      modifies this, reg
      ensures children == old(children) + entries[t..]
      ensures reg.allItems == Merged(old(reg.allItems), entries[t..])
      ensures reg.allCopies == Merged(old(reg.allCopies), entries[t..])
      ensures reg.missing == old(reg.missing)
    {
      var i := t;
      while i < |entries|
        invariant t <= i <= |entries|
        invariant children == old(children) + entries[t..i]
        invariant reg.allItems == Merged(old(reg.allItems), entries[t..i])
        invariant reg.allCopies == Merged(old(reg.allCopies), entries[t..i])
        invariant reg.missing == old(reg.missing)
      {
        MergedNext(old(reg.allItems), entries, t, i);
        MergedNext(old(reg.allCopies), entries, t, i);
        SliceNext(old(children), entries, t, i);
        AppendOne(reg, entries[i]);
        i := i + 1;
      }
      assert entries[t..i] == entries[t..];
    }

    /** One pass of the loop: the entry becomes a child and is admitted
        to both lists. */
    method AppendOne(reg: Registry, e: Item)
      modifies this, reg
      ensures children == old(children) + [e]
      ensures reg.allItems == Admitted(old(reg.allItems), e)
      ensures reg.allCopies == Admitted(old(reg.allCopies), e)
      ensures reg.missing == old(reg.missing)
    {
      reg.Admit(e);
      children := children + [e];
    }

    /** The `hide` signal: `cheat_sway_on_exit` removes the children
        past position `t` one by one, in order. */
    method Hidden()
      requires Valid()
      modifies this
      ensures Valid()
      ensures children == if cheating then Trimmed(t, old(children)) else old(children)
      ensures cheating ==> children == entries[..t]
    {
      if cheating {
        var k := t;
        var n := |children|;
        while k < n
          invariant t <= k <= n
          invariant children == old(children)[..t] + old(children)[k..]
        {
          // the child removed next sits right after the first `t`
          children := children[..t] + children[t + 1..];
          k := k + 1;
          assert old(children)[k - 1..] == [old(children)[k - 1]] + old(children)[k..];
        }
        assert old(children)[n..] == [];
      }
    }
  }
}
