/** Helpers shared by the launchers: the locale suffix used in
    localized keys, the XDG data and configuration directory lists, the
    `$PATH` directory list, the reader of `.directory` files and the
    table of translated category names. The environment, the home
    directory and the files on disk are parameters. */
module Tools {
  import opened Wrappers
  import opened Strings
  import opened Seqs
  import opened Categories

  /* ---------------------------------------------------------------- */
  /* Locale                                                            */
  /* ---------------------------------------------------------------- */

  /** Python truthiness of an optional string. */
  predicate Truthy(s: Option<string>) {
    s.Some? && s.value != ""
  }

  /** The locale name the suffix is taken from: the forced language when
      one is given, else the system locale, else `en_US`. */
  function LocaleSource(forced: Option<string>, system: Option<string>): string {
    if Truthy(forced) then forced.value
    else if Truthy(system) then system.value
    else "en_US"
  }

  /** `get_locale_string`: `de_DE` becomes `[de]`; a locale that starts
      with `_` gives `None`. */
  function LocaleString(forced: Option<string>, system: Option<string>): (r: Option<string>)
    ensures var src := LocaleSource(forced, system);
            r.None? <==> (src != "" && src[0] == '_')
    ensures r.Some? ==>
              var src := LocaleSource(forced, system);
              |r.value| >= 3 && r.value[0] == '[' && r.value[|r.value| - 1] == ']'
              && var p := r.value[1..|r.value| - 1];
              '_' !in p && StartsWith(src, p) && (|p| == |src| || src[|p|] == '_')
  {
    var language := if Truthy(forced) then Split(forced.value, '_')[0]
                    else if Truthy(system) then system.value
                    else "en_US";
    var lang := Split(language, '_')[0];
    assert lang == LocaleSource(forced, system)[..IndexOf(LocaleSource(forced, system), '_')] by {
      var src := LocaleSource(forced, system);
      var first := src[..IndexOf(src, '_')];
      if Truthy(forced) {
        assert IndexOf(first, '_') == |first|;
      }
      assert IndexOf(first, '_') == |first|;
    }
    if lang != "" then
      var r := "[" + lang + "]";
      assert r[1..|r| - 1] == lang;
      Some(r)
    else None
  }

  /** The locale of a typical German system gives the `[de]` suffix. */
  lemma GermanLocale()
    ensures LocaleString(None, Some("de_DE")) == Some("[de]")
  {
    var src := "de_DE";
    assert src[0] == 'd' && src[1] == 'e' && src[2] == '_';
    assert src[1..][1..][0] == '_';
    assert IndexOf(src[1..][1..], '_') == 0;
    assert IndexOf(src, '_') == 2;
    assert src[..2] == "de";
    assert Split(src, '_')[0] == "de";
    assert "[" + "de" + "]" == "[de]";
  }

  /* ---------------------------------------------------------------- */
  /* Directory lists                                                   */
  /* ---------------------------------------------------------------- */

  /** `os.path.expanduser('~' + rest)` for a `rest` starting with `/`:
      trailing slashes of the home directory are dropped first. */
  function ExpandUser(home: string, rest: string): string {
    TrimTrailing(home, '/') + rest
  }

  /** `os.path.join(a, b)` for a relative `b`. */
  function PathJoin(a: string, b: string): (r: string)
    ensures a == "" ==> r == b
    ensures a != "" && a[|a| - 1] == '/' ==> r == a + b
    ensures a != "" && a[|a| - 1] != '/' ==> r == a + "/" + b
  {
    if a == "" || a[|a| - 1] == '/' then a + b else a + "/" + b
  }

  /** Components of a colon-separated variable with every trailing `/`
      removed; nothing when the variable is unset or empty. */
  function Components(value: Option<string>): (r: seq<string>)
    ensures !Truthy(value) ==> r == []
    ensures Truthy(value) ==> |r| == |Split(value.value, ':')|
    ensures Truthy(value) ==> forall i :: 0 <= i < |r| ==>
              r[i] == TrimTrailing(Split(value.value, ':')[i], '/')
  {
    if Truthy(value) then Stripped(Split(value.value, ':')) else []
  }

  function Stripped(dirs: seq<string>): (r: seq<string>)
    ensures |r| == |dirs|
    ensures forall i :: 0 <= i < |dirs| ==> r[i] == TrimTrailing(dirs[i], '/')
  {
    seq(|dirs|, i requires 0 <= i < |dirs| => TrimTrailing(dirs[i], '/'))
  }

  /** The fixed start of the data directory list. */
  function DefaultDataDirs(home: string): seq<string> {
    [ExpandUser(home, "/.local/share"), "/usr/share", "/usr/local/share"]
  }

  lemma DefaultDataDirsDistinct(home: string)
    ensures NoDup(DefaultDataDirs(home))
  {
    var h := TrimTrailing(home, '/');
    var first := h + "/.local/share";
    assert |first| >= 13;
    if |first| == 16 {
      assert first[3] == '/';
      assert "/usr/local/share"[3] == 'r';
    }
  }

  /** The loop shared by `data_dirs`, `settings_dirs` and `path_dirs`:
      each component of the variable, with its trailing slashes removed,
      is appended unless the list already holds it. */
  method AppendComponents(start: seq<string>, value: Option<string>) returns (paths: seq<string>)
    requires NoDup(start)
    ensures paths == FirstOccurrences(start + Components(value))
  {
    if value.Some? && value.value != "" {
      var dirs := Split(value.value, ':');
      paths := AppendStripped(start, dirs);
    } else {
      FirstOccurrencesOfNoDup(start);
      paths := start;
      assert start + Components(value) == start;
    }
  }

  method AppendStripped(start: seq<string>, dirs: seq<string>) returns (paths: seq<string>)
    requires NoDup(start)
    ensures paths == FirstOccurrences(start + Stripped(dirs))
  {
    FirstOccurrencesOfNoDup(start);
    paths := start;
    ghost var comps := Stripped(dirs);
    var i := 0;
    assert start + comps[..0] == start;
    while i < |dirs|
      invariant 0 <= i <= |dirs|
      invariant paths == FirstOccurrences(start + comps[..i])
    {
      var d := StripSlashes(dirs[i]);
      AppendStep(start, comps, i, paths);
      if d !in paths {
        paths := paths + [d];
      }
      i := i + 1;
    }
    assert comps[..|dirs|] == comps;
  }

  lemma AppendStep(start: seq<string>, comps: seq<string>, i: nat, paths: seq<string>)
    requires i < |comps| && paths == FirstOccurrences(start + comps[..i])
    ensures (if comps[i] in paths then paths else paths + [comps[i]])
         == FirstOccurrences(start + comps[..i + 1])
  {
    assert start + comps[..i + 1] == (start + comps[..i]) + [comps[i]];
    FirstOccurrencesSnoc(start + comps[..i], comps[i]);
  }

  /** `while d.endswith("/"): d = d[:-1]`. */
  method StripSlashes(d0: string) returns (d: string)
    ensures d == TrimTrailing(d0, '/')
  {
    d := d0;
    while d != [] && d[|d| - 1] == '/'
      invariant TrimTrailing(d, '/') == TrimTrailing(d0, '/')
      decreases |d|
    {
      d := d[..|d| - 1];
    }
  }

  /** `data_dirs` (called `settings_dirs` in the older copies): the three
      defaults, then the new components of `$XDG_DATA_DIRS`. */
  method DataDirs(home: string, xdgDataDirs: Option<string>) returns (paths: seq<string>)
    ensures paths == FirstOccurrences(DefaultDataDirs(home) + Components(xdgDataDirs))
    ensures |paths| >= 3 && paths[..3] == DefaultDataDirs(home)
    ensures NoDup(paths)
    ensures forall i :: 3 <= i < |paths| ==>
              paths[i] in Components(xdgDataDirs) && paths[i] !in DefaultDataDirs(home)
    ensures forall d :: d in Components(xdgDataDirs) ==> d in paths
  {
    DefaultDataDirsDistinct(home);
    paths := AppendComponents(DefaultDataDirs(home), xdgDataDirs);
    FirstOccurrencesKeepsPrefix(DefaultDataDirs(home), Components(xdgDataDirs));
  }

  /** `path_dirs`: the components of `$PATH`, de-duplicated (each one
      once, in order of first occurrence, as `FirstOccurrences` states);
      empty when `$PATH` is unset or empty. */
  method PathDirs(path: Option<string>) returns (paths: seq<string>)
    ensures paths == FirstOccurrences(Components(path))
    ensures !Truthy(path) ==> paths == []
  {
    ghost var comps := Components(path);
    paths := AppendComponents([], path);
    assert [] + comps == comps;
  }

  /** `config_dirs`: `~/.config/sgtk-menu`, followed by
      `$XDG_CONFIG_HOME/sgtk-menu` when that variable is set (even to an
      empty value). */
  function ConfigDirs(home: string, xdgConfigHome: Option<string>): (r: seq<string>)
    ensures |r| == if xdgConfigHome.Some? then 2 else 1
    ensures r[0] == TrimTrailing(home, '/') + "/.config/sgtk-menu"
    ensures r[0] == PathJoin(ExpandUser(home, "/.config"), "sgtk-menu")
    ensures xdgConfigHome.Some? ==> r[1] == PathJoin(xdgConfigHome.value, "sgtk-menu")
    ensures xdgConfigHome.Some? ==>
              StartsWith(r[1], xdgConfigHome.value) && |r[1]| >= |"sgtk-menu"|
              && r[1][|r[1]| - |"sgtk-menu"|..] == "sgtk-menu"
  {
    var config := ExpandUser(home, "/.config");
    var first := PathJoin(config, "sgtk-menu");
    ConfigPath(TrimTrailing(home, '/'));
    if xdgConfigHome.Some? then
      var second := PathJoin(xdgConfigHome.value, "sgtk-menu");
      PathJoinParts(xdgConfigHome.value, "sgtk-menu");
      [first, second]
    else [first]
  }

  lemma ConfigPath(h: string)
    ensures PathJoin(h + "/.config", "sgtk-menu") == h + "/.config/sgtk-menu"
  {
    var c := h + "/.config";
    assert c[|c| - 1] == 'g';
    assert "/.config" + "/" + "sgtk-menu" == "/.config/sgtk-menu";
    AppendAssoc(h, "/.config", "/");
    AppendAssoc(h, "/.config" + "/", "sgtk-menu");
  }

  lemma PathJoinParts(a: string, b: string)
    ensures StartsWith(PathJoin(a, b), a)
    ensures |PathJoin(a, b)| >= |b| && PathJoin(a, b)[|PathJoin(a, b)| - |b|..] == b
  {
  }

  /* ---------------------------------------------------------------- */
  /* Reading the name of a .directory file                             */
  /* ---------------------------------------------------------------- */

  /** The `Name[xx]=` key for a locale suffix; Python formats a missing
      suffix as `None`. */
  function NameKey(lang: Option<string>): (k: string)
    ensures StartsWith(k, "Name") && k[|k| - 1] == '='
  {
    "Name" + lang.GetOr("None") + "="
  }

  lemma StartsWithKeepsEquals(line: string, key: string)
    requires StartsWith(line, key) && key != [] && key[|key| - 1] == '='
    ensures '=' in line
  {
    assert line[|key| - 1] == '=';
  }

  /** `line.split('=')[1].strip()`: the value of a `key=value` line,
      cut at a second `=`. */
  function KeyValue(line: string): (r: string)
    requires '=' in line
    ensures var rest := line[IndexOf(line, '=') + 1..];
            r == Strip(rest[..IndexOf(rest, '=')])
    ensures '=' !in r
  {
    StripAvoids(Field(line, '='), '=');
    Strip(Field(line, '='))
  }

  /** State of the `.directory` reader. `readMe` is `None` while the
      flag is still unbound (no section header seen yet); `raised` marks
      the exception the first unguarded line throws. */
  datatype NameScan = NameScan(
    readMe: Option<bool>,
    name: Option<string>,
    localized: Option<string>,
    raised: bool)

  const NameScanStart := NameScan(None, None, None, false)

  predicate IsHeader(line: string) {
    StartsWith(line, "[")
  }

  /** One line of `translate_name`. */
  function NameStep(st: NameScan, line: string, lang: Option<string>): NameScan
    requires !st.raised
  {
    if IsHeader(line) then st.(readMe := Some(Strip(line) == "[Desktop Entry]"))
    else if st.readMe.None? then st.(raised := true)
    else if st.readMe == Some(true) then
      var name := Assign(st.name, line, "Name=");
      var localized := if lang != Some("[en]") then Assign(st.localized, line, NameKey(lang)) else name;
      st.(name := name, localized := localized)
    else st
  }

  /** `if line.startswith(key): v = line.split('=')[1].strip()`, for a
      key ending in `=`. */
  function Assign(v: Option<string>, line: string, key: string): (r: Option<string>)
    requires key != [] && key[|key| - 1] == '='
    ensures StartsWith(line, key) ==> '=' in line && r.Some?
    ensures StartsWith(line, key) ==>
              var rest := line[IndexOf(line, '=') + 1..];
              r == Some(Strip(rest[..IndexOf(rest, '=')])) && '=' !in r.value
    ensures !StartsWith(line, key) ==> r == v
  {
    if StartsWith(line, key) then
      StartsWithKeepsEquals(line, key);
      var value := KeyValue(line);
      assert '=' !in value;
      Some(value)
    else v
  }

  /** The reader run over the remaining lines; an exception ends it. */
  function NameRun(st: NameScan, lines: seq<string>, lang: Option<string>): NameScan
    decreases |lines|
  {
    if lines == [] || st.raised then st
    else NameRun(NameStep(st, lines[0], lang), lines[1..], lang)
  }

  /** What `translate_name` returns for a file. */
  function TranslateResult(lines: seq<string>, lang: Option<string>): (Option<string>, Option<string>) {
    var st := NameRun(NameScanStart, lines, lang);
    (st.name, st.localized)
  }

  /** `translate_name` (called `read_entry` in one copy): the name and
      the localized name of a `.directory` file, as the loop reads it. */
  method TranslateName(lines: seq<string>, lang: Option<string>)
    returns (name: Option<string>, localized: Option<string>)
    ensures (name, localized) == TranslateResult(lines, lang)
  {
    var readMe: Option<bool> := None;
    name, localized := None, None;
    var i := 0;
    while i < |lines|
      invariant 0 <= i <= |lines|
      invariant NameRun(NameScan(readMe, name, localized, false), lines[i..], lang)
             == NameRun(NameScanStart, lines, lang)
    {
      NameRunNext(NameScan(readMe, name, localized, false), lines, i, lang);
      var raised;
      readMe, name, localized, raised := ReadLine(readMe, name, localized, lines[i], lang);
      if raised {
        // the unbound flag raised; the handler returns what was read
        NameRunRaised(NameScan(readMe, name, localized, true), lines[i + 1..], lang);
        return;
      }
      i := i + 1;
    }
    assert lines[i..] == [];
  }

  lemma NameRunNext(st: NameScan, lines: seq<string>, i: nat, lang: Option<string>)
    requires i < |lines| && !st.raised
    ensures NameRun(st, lines[i..], lang) == NameRun(NameStep(st, lines[i], lang), lines[i + 1..], lang)
  {
    DropNext(lines, i);
  }

  /** One pass of the line loop of `translate_name`: a section header
      sets `read_me`; reading `read_me` before any header raises. */
  method ReadLine(readMe0: Option<bool>, name0: Option<string>, localized0: Option<string>, line: string, lang: Option<string>)
    returns (readMe: Option<bool>, name: Option<string>, localized: Option<string>, raised: bool)
    ensures NameStep(NameScan(readMe0, name0, localized0, false), line, lang)
         == NameScan(readMe, name, localized, raised)
  {
    readMe, name, localized, raised := readMe0, name0, localized0, false;
    if StartsWith(line, "[") {
      readMe := Some(Strip(line) == "[Desktop Entry]");
    } else if readMe.None? {
      raised := true;
    } else if readMe == Some(true) {
      name, localized := ReadNameLine(name, localized, line, lang);
    }
  }

  /** The key tests of one line inside `[Desktop Entry]`. */
  method ReadNameLine(name0: Option<string>, localized0: Option<string>, line: string, lang: Option<string>)
    returns (name: Option<string>, localized: Option<string>)
    requires !IsHeader(line)
    ensures NameStep(NameScan(Some(true), name0, localized0, false), line, lang)
         == NameScan(Some(true), name, localized, false)
  {
    name, localized := name0, localized0;
    if StartsWith(line, "Name=") {
      StartsWithKeepsEquals(line, "Name=");
      name := Some(KeyValue(line));
    }
    if lang != Some("[en]") {
      var key := NameKey(lang);
      if StartsWith(line, key) {
        StartsWithKeepsEquals(line, key);
        localized := Some(KeyValue(line));
      }
    } else {
      localized := name;
    }
  }

  lemma NameRunRaised(st: NameScan, lines: seq<string>, lang: Option<string>)
    requires st.raised
    ensures NameRun(st, lines, lang) == st
  {
  }

  /** Running over two pieces is running over the first, then over the
      second from where the first stopped. */
  lemma {:induction false} NameRunAppend(st: NameScan, a: seq<string>, b: seq<string>, lang: Option<string>)
    ensures NameRun(st, a + b, lang) == NameRun(NameRun(st, a, lang), b, lang)
    decreases |a|
  {
    if a == [] {
      assert a + b == b;
    } else if !st.raised {
      AppendDropHead(a, b);
      NameRunAppend(NameStep(st, a[0], lang), a[1..], b, lang);
    } else {
      assert NameRun(st, b, lang) == st by {
        if b != [] {
          assert NameRun(st, b, lang) == st;
        }
      }
    }
  }

  /** With the `[en]` suffix, the localized name is the name. */
  lemma {:induction false} EnglishLocalizedIsName(st: NameScan, lines: seq<string>)
    requires st.localized == st.name
    ensures NameRun(st, lines, Some("[en]")).localized == NameRun(st, lines, Some("[en]")).name
    decreases |lines|
  {
    if lines != [] && !st.raised {
      EnglishLocalizedIsName(NameStep(st, lines[0], Some("[en]")), lines[1..]);
    }
  }

  /** `translate_name` with the `[en]` suffix returns the same value
      twice. */
  lemma EnglishTranslation(lines: seq<string>)
    ensures TranslateResult(lines, Some("[en]")).0 == TranslateResult(lines, Some("[en]")).1
  {
    EnglishLocalizedIsName(NameScanStart, lines);
  }

  /** A file whose first line is not a section header raises at once
      (the flag is unbound), and the handler returns `(None, None)`. */
  lemma NoHeaderFirst(lines: seq<string>, lang: Option<string>)
    requires lines != [] && !IsHeader(lines[0])
    ensures TranslateResult(lines, lang) == (None, None)
  {
    var st := NameStep(NameScanStart, lines[0], lang);
    assert st.raised && st.name.None? && st.localized.None?;
    assert NameRun(NameScanStart, lines, lang) == NameRun(st, lines[1..], lang);
    if lines[1..] != [] {
      assert NameRun(st, lines[1..], lang) == st;
    }
  }

  /** Lines of a section other than `[Desktop Entry]` are ignored: a
      header of another section followed by lines that are no headers
      changes nothing but the flag. */
  lemma {:induction false} OtherSectionIgnored(st: NameScan, body: seq<string>, lang: Option<string>)
    requires !st.raised && st.readMe == Some(false)
    requires forall i :: 0 <= i < |body| ==> !IsHeader(body[i])
    ensures NameRun(st, body, lang) == st
    decreases |body|
  {
    if body != [] {
      OtherSectionIgnored(st, body[1..], lang);
    }
  }

  /** Of two `Name=` lines in the `[Desktop Entry]` section, the later
      wins. */
  lemma LastNameWins(first: string, second: string, lang: Option<string>)
    requires StartsWith(first, "Name=") && StartsWith(second, "Name=")
    ensures '=' in second
    ensures TranslateResult(["[Desktop Entry]", first, second], lang).0 == Some(KeyValue(second))
  {
    StartsWithKeepsEquals(second, "Name=");
    var inSection := NameScan(Some(true), None, None, false);
    HeaderThenTwo(first, second, lang);
    TwoNameLines(inSection, first, second, lang);
  }

  lemma HeaderThenTwo(first: string, second: string, lang: Option<string>)
    ensures NameRun(NameScanStart, ["[Desktop Entry]", first, second], lang)
         == NameRun(NameScan(Some(true), None, None, false), [first, second], lang)
  {
    var header := "[Desktop Entry]";
    HeaderOpensSection(NameScanStart, lang);
    NameRunCons(NameScanStart, header, [first, second], lang);
    assert [header] + [first, second] == [header, first, second];
  }

  lemma TwoNameLines(st: NameScan, first: string, second: string, lang: Option<string>)
    requires !st.raised && st.readMe == Some(true)
    requires StartsWith(first, "Name=") && StartsWith(second, "Name=")
    ensures '=' in second
    ensures NameRun(st, [first, second], lang).name == Some(KeyValue(second))
  {
    NameLineSetsName(st, first, lang);
    var s2 := NameStep(st, first, lang);
    NameLineSetsName(s2, second, lang);
    NameRunPair(st, first, second, lang);
  }

  /** Two lines, neither raising, are read one after the other. */
  lemma NameRunPair(st: NameScan, first: string, second: string, lang: Option<string>)
    requires !st.raised && !NameStep(st, first, lang).raised
    ensures NameRun(st, [first, second], lang) == NameStep(NameStep(st, first, lang), second, lang)
  {
    var s2 := NameStep(st, first, lang);
    NameRunCons(st, first, [second], lang);
    NameRunCons(s2, second, [], lang);
    assert [first] + [second] == [first, second];
    assert [second] + [] == [second];
  }

  /** The reader takes the first line, then goes on with the rest. */
  lemma NameRunCons(st: NameScan, line: string, rest: seq<string>, lang: Option<string>)
    requires !st.raised
    ensures NameRun(st, [line] + rest, lang) == NameRun(NameStep(st, line, lang), rest, lang)
  {
    DropCons(line, rest);
  }

  /** The `[Desktop Entry]` header opens the section that is read. */
  lemma HeaderOpensSection(st: NameScan, lang: Option<string>)
    requires !st.raised
    ensures NameStep(st, "[Desktop Entry]", lang) == st.(readMe := Some(true))
  {
    SectionHeaderShape();
  }

  lemma SectionHeaderShape()
    ensures IsHeader("[Desktop Entry]")
    ensures Strip("[Desktop Entry]") == "[Desktop Entry]"
  {
    var h := "[Desktop Entry]";
    assert h[0] == '[' && h[|h| - 1] == ']';
    assert h[..1] == "[";
    StripKeepsTrimmed(h);
  }

  /** Inside `[Desktop Entry]`, a `Name=` line sets the name. */
  lemma NameLineSetsName(st: NameScan, line: string, lang: Option<string>)
    requires !st.raised && st.readMe == Some(true) && StartsWith(line, "Name=")
    ensures '=' in line
    ensures var st' := NameStep(st, line, lang);
            st'.name == Some(KeyValue(line)) && st'.readMe == Some(true) && !st'.raised
  {
    StartsWithKeepsEquals(line, "Name=");
    assert line[..5] == "Name=";
    assert line[0] == 'N';
    assert !IsHeader(line);
  }

  /* ---------------------------------------------------------------- */
  /* Translated category names                                         */
  /* ---------------------------------------------------------------- */

  /** The dictionary is keyed by a category name, or by what the
      classifier returns for one, which may be `None`. */
  type CategoryNames = map<Option<string>, string>

  /** One `.directory` file's contribution: a new name and its
      translation are recorded, and the translation is also given to the
      name's bucket when that has none yet. */
  function AddTranslation(d: CategoryNames, name: Option<string>, localized: Option<string>): CategoryNames {
    if Truthy(name) && Truthy(localized) && name !in d then
      var d1 := d[name := localized.value];
      if MainName(name.value) !in d1 then d1[MainName(name.value) := localized.value] else d1
    else d
  }

  function AddTranslations(d: CategoryNames, pairs: seq<(Option<string>, Option<string>)>): CategoryNames
    decreases |pairs|
  {
    if pairs == [] then d
    else AddTranslations(AddTranslation(d, pairs[0].0, pairs[0].1), pairs[1..])
  }

  /** What `localized_category_names` returns, given what each file
      yields. */
  function CategoryNamesOf(pairs: seq<(Option<string>, Option<string>)>): CategoryNames {
    var d := AddTranslations(map[], pairs);
    if Some("Other") in d then d else d[Some("Other") := "Other"]
  }

  /** An entry once made is never overwritten: the first file that
      defines a key wins. */
  lemma {:induction false} AddTranslationsKeeps(d: CategoryNames, pairs: seq<(Option<string>, Option<string>)>)
    ensures forall k :: k in d ==> k in AddTranslations(d, pairs) && AddTranslations(d, pairs)[k] == d[k]
    decreases |pairs|
  {
    if pairs != [] {
      AddTranslationsKeeps(AddTranslation(d, pairs[0].0, pairs[0].1), pairs[1..]);
    }
  }

  /** Every name read together with a translation ends up as a key. */
  lemma {:induction false} AddTranslationsDefines(d: CategoryNames, pairs: seq<(Option<string>, Option<string>)>)
    ensures forall i :: 0 <= i < |pairs| && Truthy(pairs[i].0) && Truthy(pairs[i].1) ==>
              pairs[i].0 in AddTranslations(d, pairs)
    decreases |pairs|
  {
    if pairs != [] {
      var d1 := AddTranslation(d, pairs[0].0, pairs[0].1);
      AddTranslationDefines(d, pairs[0].0, pairs[0].1);
      AddTranslationsDefines(d1, pairs[1..]);
      AddTranslationsKeeps(d1, pairs[1..]);
      forall i | 0 <= i < |pairs| && Truthy(pairs[i].0) && Truthy(pairs[i].1)
        ensures pairs[i].0 in AddTranslations(d, pairs)
      {
        if i > 0 {
          assert pairs[1..][i - 1] == pairs[i];
        }
      }
    }
  }

  /** A name read with a translation is a key after the file is read. */
  lemma AddTranslationDefines(d: CategoryNames, name: Option<string>, localized: Option<string>)
    ensures Truthy(name) && Truthy(localized) ==> name in AddTranslation(d, name, localized)
  {
  }

  /** The first file that yields a name with a translation gives that
      name its value, unless the key was already taken. */
  lemma FirstTranslationWins(d: CategoryNames, pairs: seq<(Option<string>, Option<string>)>)
    requires pairs != [] && Truthy(pairs[0].0) && Truthy(pairs[0].1) && pairs[0].0 !in d
    ensures pairs[0].0 in AddTranslations(d, pairs)
    ensures AddTranslations(d, pairs)[pairs[0].0] == pairs[0].1.value
  {
    AddTranslationsKeeps(AddTranslation(d, pairs[0].0, pairs[0].1), pairs[1..]);
  }

  /** `localized_category_names`: the files of every
      `desktop-directories` folder are read in order with
      `translate_name`. */
  method LocalizedCategoryNames(files: seq<seq<string>>, lang: Option<string>)
    returns (defined: CategoryNames)
    ensures defined == CategoryNamesOf(seq(|files|, i requires 0 <= i < |files| => TranslateResult(files[i], lang)))
    ensures Some("Other") in defined
  {
    ghost var pairs := seq(|files|, i requires 0 <= i < |files| => TranslateResult(files[i], lang));
    defined := map[];
    var i := 0;
    while i < |files|
      invariant 0 <= i <= |files|
      invariant AddTranslations(defined, pairs[i..]) == AddTranslations(map[], pairs)
    {
      var name, localized := TranslateName(files[i], lang);
      DropNext(pairs, i);
      if name.Some? && name.value != "" && localized.Some? && localized.value != "" && name !in defined {
        defined := defined[name := localized.value];
        if MainName(name.value) !in defined {
          defined := defined[MainName(name.value) := localized.value];
        }
      }
      i := i + 1;
    }
    if Some("Other") !in defined {
      defined := defined[Some("Other") := "Other"];
    }
  }

  /** The table always has an entry for `Other`: its own translation
      when a file gave one, `"Other"` otherwise. Names read with a
      translation are all keys of it. */
  lemma CategoryNamesComplete(pairs: seq<(Option<string>, Option<string>)>)
    ensures Some("Other") in CategoryNamesOf(pairs)
    ensures Some("Other") !in AddTranslations(map[], pairs) ==>
              CategoryNamesOf(pairs)[Some("Other")] == "Other"
    ensures Some("Other") in AddTranslations(map[], pairs) ==>
              CategoryNamesOf(pairs)[Some("Other")] == AddTranslations(map[], pairs)[Some("Other")]
    ensures forall i :: 0 <= i < |pairs| && Truthy(pairs[i].0) && Truthy(pairs[i].1) ==>
              pairs[i].0 in CategoryNamesOf(pairs)
  {
    AddTranslationsDefines(map[], pairs);
  }

  /** Reading the files in two runs is reading them all. */
  lemma {:induction false} AddTranslationsAppend(d: CategoryNames, a: seq<(Option<string>, Option<string>)>,
                                                 b: seq<(Option<string>, Option<string>)>)
    ensures AddTranslations(d, a + b) == AddTranslations(AddTranslations(d, a), b)
    decreases |a|
  {
    if a == [] {
      assert a + b == b;
    } else {
      assert (a + b)[0] == a[0] && (a + b)[1..] == a[1..] + b;
      AddTranslationsAppend(AddTranslation(d, a[0].0, a[0].1), a[1..], b);
    }
  }

  /** File `i` defines its name when no earlier file took that key: the
      name gets the file's translation, and so does the name's main
      category when that key was free too. */
  lemma TranslationRecorded(pairs: seq<(Option<string>, Option<string>)>, i: nat)
    requires i < |pairs| && Truthy(pairs[i].0) && Truthy(pairs[i].1)
    requires pairs[i].0 !in AddTranslations(map[], pairs[..i])
    ensures pairs[i].0 in CategoryNamesOf(pairs)
    ensures CategoryNamesOf(pairs)[pairs[i].0] == pairs[i].1.value
    ensures MainName(pairs[i].0.value) !in AddTranslations(map[], pairs[..i]) ==>
              MainName(pairs[i].0.value) in CategoryNamesOf(pairs)
              && CategoryNamesOf(pairs)[MainName(pairs[i].0.value)] == pairs[i].1.value
  {
    var name, localized := pairs[i].0, pairs[i].1;
    var before := AddTranslations(map[], pairs[..i]);
    var after := AddTranslation(before, name, localized);
    AddTranslationRecords(before, name, localized);
    AddTranslationsSplit(pairs, i);
    AddTranslationsKeeps(after, pairs[i + 1..]);
    CategoryNamesKeep(pairs);
  }

  /** One file's contribution when its name is still free. */
  lemma AddTranslationRecords(d: CategoryNames, name: Option<string>, localized: Option<string>)
    requires Truthy(name) && Truthy(localized) && name !in d
    ensures name in AddTranslation(d, name, localized)
    ensures AddTranslation(d, name, localized)[name] == localized.value
    ensures MainName(name.value) !in d ==>
              MainName(name.value) in AddTranslation(d, name, localized)
              && AddTranslation(d, name, localized)[MainName(name.value)] == localized.value
  {
  }

  /** The run over all files passes through the state after file `i`. */
  lemma AddTranslationsSplit(pairs: seq<(Option<string>, Option<string>)>, i: nat)
    requires i < |pairs|
    ensures AddTranslations(map[], pairs)
            == AddTranslations(AddTranslation(AddTranslations(map[], pairs[..i]), pairs[i].0, pairs[i].1), pairs[i + 1..])
  {
    var rest := pairs[i..];
    assert pairs == pairs[..i] + rest;
    AddTranslationsAppend(map[], pairs[..i], rest);
    assert rest[0] == pairs[i] && rest[1..] == pairs[i + 1..];
  }

  /** The `"Other"` default never overrides a key the files defined. */
  lemma CategoryNamesKeep(pairs: seq<(Option<string>, Option<string>)>)
    ensures forall k :: k in AddTranslations(map[], pairs) ==>
              k in CategoryNamesOf(pairs) && CategoryNamesOf(pairs)[k] == AddTranslations(map[], pairs)[k]
  {
  }
}
