/** The line scanner that reads one `.desktop` file into the fields the
    launchers keep, after section 5 (localized values for keys) and
    section 7 (the `Exec` key and its field codes) of the freedesktop.org
    Desktop Entry Specification, as far as the launchers follow them.
    The menus read `Categories`; the grid reads `Comment` instead. */
module DesktopFile {
  import opened Wrappers
  import opened Strings
  import opened Tools
  import opened Seqs

  datatype Variant = MenuScan | GridScan

  /** The `Exec` value: everything after the first `=` (later `=` are
      kept), stripped, then cut before the first `%` field code and
      stripped again. */
  function ExecValue(line: string): (r: string)
    requires '=' in line
    ensures var rest := Strip(line[IndexOf(line, '=') + 1..]);
            r == if '%' in rest then Strip(rest[..IndexOf(rest, '%')]) else rest
    ensures '%' !in r
  {
    var c := Strip(Join(Split(line, '=')[1..], '='));
    JoinTail(line, '=');
    if '%' in c then
      var cut := Split(c, '%')[0];
      StripIsInfix(cut);
      Strip(cut)
    else c
  }

  /** `strip()` returns a slice of its argument. */
  lemma StripIsInfix(s: string)
    ensures exists i, j :: 0 <= i <= j <= |s| && Strip(s) == s[i..j]
  {
    var l := LStrip(s);
    var k := |s| - |l|;
    var r := RStrip(l);
    assert r == s[k..][..|r|];
    SliceOfSlice(s, k, |r|);
  }

  lemma SliceOfSlice(s: string, k: nat, n: nat)
    requires k + n <= |s|
    ensures s[k..][..n] == s[k..k + n]
  {
  }

  /** `'Name{}='.format(locale)` and its `Comment` twin: the localized key
      for a locale suffix. */
  function LocalizedKey(key: string, locale: Option<string>): (k: string)
    ensures |k| > |key| && StartsWith(k, key) && k[|k| - 1] == '='
  {
    key + locale.GetOr("None") + "="
  }

  /** `if line.startswith(key): v = line.split('=')[1].strip()` on a
      field that starts out empty. */
  function Take(v: string, line: string, key: string): (r: string)
    requires key != [] && key[|key| - 1] == '='
    ensures StartsWith(line, key) ==> '=' in line
    ensures StartsWith(line, key) ==>
              var rest := line[IndexOf(line, '=') + 1..];
              r == Strip(rest[..IndexOf(rest, '=')]) && '=' !in r
    ensures !StartsWith(line, key) ==> r == v
  {
    if StartsWith(line, key) then
      StartsWithKeepsEquals(line, key);
      var value := KeyValue(line);
      assert '=' !in value;
      value
    else v
  }

  /** The scanner's variables: the section flag (true before the first
      header), the last value of each field, and whether a line raised. */
  datatype EntryScan = EntryScan(
    readMe: bool,
    name: string,
    exec: string,
    icon: string,
    categories: string,
    comment: string,
    raised: bool)

  const EntryScanStart := EntryScan(true, "", "", "", "", "", false)

  /** One line inside `[Desktop Entry]`. A `Categories` line without any
      `=` raises `IndexError`, which abandons the file. */
  function FieldStep(st: EntryScan, line: string, locale: Option<string>, variant: Variant): EntryScan {
    var name := Take(Take(st.name, line, "Name="), line, LocalizedKey("Name", locale));
    var exec := if StartsWith(line, "Exec=") then
                  StartsWithKeepsEquals(line, "Exec="); ExecValue(line)
                else st.exec;
    var icon := Take(st.icon, line, "Icon=");
    match variant
    case MenuScan =>
      if StartsWith(line, "Categories") then
        if '=' in line then st.(name := name, exec := exec, icon := icon, categories := KeyValue(line))
        else st.(raised := true)
      else st.(name := name, exec := exec, icon := icon)
    case GridScan =>
      var comment := Take(Take(st.comment, line, "Comment="), line, LocalizedKey("Comment", locale));
      st.(name := name, exec := exec, icon := icon, comment := comment)
  }

  function EntryStep(st: EntryScan, line: string, locale: Option<string>, variant: Variant): EntryScan {
    if IsHeader(line) then st.(readMe := Strip(line) == "[Desktop Entry]")
    else if st.readMe then FieldStep(st, line, locale, variant)
    else st
  }

  function EntryRun(st: EntryScan, lines: seq<string>, locale: Option<string>, variant: Variant): EntryScan
    decreases |lines|
  {
    if lines == [] || st.raised then st
    else EntryRun(EntryStep(st, lines[0], locale, variant), lines[1..], locale, variant)
  }

  /** The fields one file yields, before the caller decides whether they
      make an entry. */
  datatype Scanned = Scanned(name: string, exec: string, icon: string, categories: string, comment: string)

  /** Whether a file makes an entry: the menus need a name, a command
      and categories; the grid needs a name, a command and an icon. */
  predicate Complete(st: EntryScan, variant: Variant) {
    && !st.raised && st.name != "" && st.exec != ""
    && (match variant
        case MenuScan => st.categories != ""
        case GridScan => st.icon != "")
  }

  function ScanResult(lines: seq<string>, locale: Option<string>, variant: Variant): Option<Scanned> {
    var st := EntryRun(EntryScanStart, lines, locale, variant);
    if Complete(st, variant) then Some(Scanned(st.name, st.exec, st.icon, st.categories, st.comment))
    else None
  }

  /** The per-file body of `list_entries`: the lines are read in order
      and the fields are kept when complete. */
  method ScanEntry(lines: seq<string>, locale: Option<string>, variant: Variant) returns (r: Option<Scanned>)
    ensures r == ScanResult(lines, locale, variant)
    ensures r.Some? ==> r.value.name != "" && r.value.exec != "" && '%' !in r.value.exec
    ensures r.Some? && variant == MenuScan ==> r.value.categories != ""
    ensures r.Some? && variant == GridScan ==> r.value.icon != ""
  {
    var readMe := true;
    var name, exec, icon, categories, comment := "", "", "", "", "";
    var i := 0;
    while i < |lines|
      invariant 0 <= i <= |lines|
      invariant EntryRun(EntryScan(readMe, name, exec, icon, categories, comment, false), lines[i..], locale, variant)
             == EntryRun(EntryScanStart, lines, locale, variant)
      invariant '%' !in exec
    {
      EntryRunNext(EntryScan(readMe, name, exec, icon, categories, comment, false), lines, i, locale, variant);
      var raised;
      readMe, name, exec, icon, categories, comment, raised :=
        ReadEntryLine(readMe, name, exec, icon, categories, comment, lines[i], locale, variant);
      if raised {
        // `line.split('=')[1]` raised on a `Categories` line: the file is abandoned
        EntryRunRaised(EntryScan(readMe, name, exec, icon, categories, comment, true), lines[i + 1..], locale, variant);
        return None;
      }
      i := i + 1;
    }
    assert lines[i..] == [];
    r := if name != "" && exec != "" && (if variant == MenuScan then categories != "" else icon != "")
         then Some(Scanned(name, exec, icon, categories, comment))
         else None;
  }

  lemma EntryRunNext(st: EntryScan, lines: seq<string>, i: nat, locale: Option<string>, variant: Variant)
    requires i < |lines| && !st.raised
    ensures EntryRun(st, lines[i..], locale, variant)
         == EntryRun(EntryStep(st, lines[i], locale, variant), lines[i + 1..], locale, variant)
  {
    DropNext(lines, i);
  }

  /** One pass of the line loop of `list_entries`: a section header
      sets `read_me`; inside `[Desktop Entry]` the keys are read. */
  method ReadEntryLine(readMe0: bool, name0: string, exec0: string, icon0: string, categories0: string, comment0: string,
                       line: string, locale: Option<string>, variant: Variant)
    returns (readMe: bool, name: string, exec: string, icon: string, categories: string, comment: string, raised: bool)
    requires '%' !in exec0
    ensures EntryStep(EntryScan(readMe0, name0, exec0, icon0, categories0, comment0, false), line, locale, variant)
         == EntryScan(readMe, name, exec, icon, categories, comment, raised)
    ensures '%' !in exec
  {
    readMe, name, exec, icon, categories, comment, raised := readMe0, name0, exec0, icon0, categories0, comment0, false;
    if StartsWith(line, "[") {
      readMe := Strip(line) == "[Desktop Entry]";
    } else if readMe0 {
      var n, e, ic, c, co, failed := ReadFields(name0, exec0, icon0, categories0, comment0, line, locale, variant);
      if failed {
        raised := true;
      } else {
        name, exec, icon, categories, comment := n, e, ic, c, co;
      }
    }
  }

  /** The key tests of one line inside `[Desktop Entry]`, in the order
      the scanner makes them; `raised` reports the `IndexError` of a
      `Categories` line without `=`. */
  method ReadFields(name0: string, exec0: string, icon0: string, categories0: string, comment0: string,
                    line: string, locale: Option<string>, variant: Variant)
    returns (name: string, exec: string, icon: string, categories: string, comment: string, raised: bool)
    requires '%' !in exec0
    ensures var st := FieldStep(EntryScan(true, name0, exec0, icon0, categories0, comment0, false), line, locale, variant);
            raised == st.raised &&
            (!raised ==> st == EntryScan(true, name, exec, icon, categories, comment, false))
    ensures '%' !in exec
  {
    var locName := LocalizedKey("Name", locale);
    name := TakeField(name0, line, "Name=");
    name := TakeField(name, line, locName);
    comment := comment0;
    if variant == GridScan {
      comment := TakeField(comment, line, "Comment=");
      comment := TakeField(comment, line, LocalizedKey("Comment", locale));
    }
    exec := exec0;
    if StartsWith(line, "Exec=") {
      StartsWithKeepsEquals(line, "Exec=");
      exec := ExecValue(line);
    }
    icon := TakeField(icon0, line, "Icon=");
    categories, raised := categories0, false;
    if variant == MenuScan && StartsWith(line, "Categories") {
      if '=' !in line {
        raised := true;
        return;
      }
      categories := KeyValue(line);
    }
  }

  /** One `if line.startswith(key): v = line.split('=')[1].strip()`. */
  method TakeField(v: string, line: string, key: string) returns (r: string)
    requires key != [] && key[|key| - 1] == '='
    ensures r == Take(v, line, key)
  {
    r := v;
    if StartsWith(line, key) {
      StartsWithKeepsEquals(line, key);
      r := KeyValue(line);
    }
  }

  lemma EntryRunRaised(st: EntryScan, lines: seq<string>, locale: Option<string>, variant: Variant)
    requires st.raised
    ensures EntryRun(st, lines, locale, variant) == st
  {
  }

  /** Whatever the lines, the command kept has no `%` field code left. */
  lemma {:induction false} ExecHasNoFieldCode(st: EntryScan, lines: seq<string>, locale: Option<string>, variant: Variant)
    requires '%' !in st.exec
    ensures '%' !in EntryRun(st, lines, locale, variant).exec
    decreases |lines|
  {
    if lines != [] && !st.raised {
      ExecHasNoFieldCode(EntryStep(st, lines[0], locale, variant), lines[1..], locale, variant);
    }
  }

  /** Lines of a section other than `[Desktop Entry]` change nothing. */
  lemma {:induction false} OtherSectionSkipped(st: EntryScan, body: seq<string>, locale: Option<string>, variant: Variant)
    requires !st.readMe
    requires forall i :: 0 <= i < |body| ==> !IsHeader(body[i])
    ensures EntryRun(st, body, locale, variant) == st
    decreases |body|
  {
    if body != [] && !st.raised {
      OtherSectionSkipped(st, body[1..], locale, variant);
    }
  }

  /** A later `Name=` or `Name[xx]=` line overwrites an earlier one. */
  lemma LaterNameWins(st: EntryScan, line: string, locale: Option<string>, variant: Variant)
    requires st.readMe && !st.raised
    requires StartsWith(line, "Name=") || StartsWith(line, LocalizedKey("Name", locale))
    requires !StartsWith(line, "Categories")
    ensures '=' in line
    ensures EntryStep(st, line, locale, variant).name == KeyValue(line)
  {
    if StartsWith(line, "Name=") {
      StartsWithKeepsEquals(line, "Name=");
      assert line[0] == 'N';
    } else {
      var k := LocalizedKey("Name", locale);
      StartsWithKeepsEquals(line, k);
      assert line[0] == k[0] == 'N';
    }
    assert !IsHeader(line);
  }

  /** In the menus, a `Categories` line without `=` loses the whole file. */
  lemma CategoriesWithoutValueLosesFile(st: EntryScan, line: string, rest: seq<string>, locale: Option<string>)
    requires st.readMe && !st.raised
    requires StartsWith(line, "Categories") && '=' !in line
    ensures EntryRun(st, [line] + rest, locale, MenuScan).raised
  {
    assert line[0] == 'C';
    assert !IsHeader(line);
    DropCons(line, rest);
  }

  /** `categories.split(';')[:-1]`: the tags of a `Categories` value; the
      text after the last `;` is dropped, so a value without a trailing
      `;` loses its last tag. */
  function CategoryTags(raw: string): seq<string> {
    var parts := Split(raw, ';');
    parts[..|parts| - 1]
  }

  /** One tag per `;` in the value, none holding a `;`; no `;`, no tags. */
  lemma CategoryTagsShape(raw: string)
    ensures |CategoryTags(raw)| == |Split(raw, ';')| - 1
    ensures forall i :: 0 <= i < |CategoryTags(raw)| ==> ';' !in CategoryTags(raw)[i]
    ensures ';' !in raw ==> CategoryTags(raw) == []
  {
    SplitPartsAvoidSep(raw, ';');
  }

  /** Joining the tags back with `;` after each gives the value up to
      and including its last `;`. */
  lemma CategoryTagsPrefix(raw: string)
    requires ';' in raw
    ensures var parts := Split(raw, ';');
            Join(CategoryTags(raw), ';') + [';'] + parts[|parts| - 1] == raw
  {
    var parts := Split(raw, ';');
    var tags := CategoryTags(raw);
    assert tags == parts[..|parts| - 1];
    var joined := Join(tags, ';');
    assert joined == Join(parts[..|parts| - 1], ';');
    calc {
      joined + [';'] + parts[|parts| - 1];
      { JoinInitLast(parts, ';'); }
      Join(parts, ';');
      { JoinSplit(raw, ';'); }
      raw;
    }
  }

  /** A list of two or more parts joins as its initial parts, the
      separator, and its last part. */
  lemma JoinInitLast(parts: seq<string>, sep: char)
    requires |parts| >= 2
    ensures Join(parts[..|parts| - 1], sep) + [sep] + parts[|parts| - 1] == Join(parts, sep)
  {
    var init, last := parts[..|parts| - 1], parts[|parts| - 1];
    JoinSnoc(init, last, sep);
    InitLast(parts);
  }

  lemma {:induction false} JoinSnoc(parts: seq<string>, last: string, sep: char)
    requires parts != []
    ensures Join(parts + [last], sep) == Join(parts, sep) + [sep] + last
    decreases |parts|
  {
    if |parts| == 1 {
      AppendDropHead(parts, [last]);
    } else {
      var rest := parts[1..];
      JoinSnoc(rest, last, sep);
      AppendDropHead(parts, [last]);
      assert Join(parts + [last], sep) == parts[0] + [sep] + Join(rest + [last], sep);
      AppendAssoc(parts[0] + [sep], Join(rest, sep) + [sep], last);
      AppendAssoc(parts[0] + [sep], Join(rest, sep), [sep]);
    }
  }
}
