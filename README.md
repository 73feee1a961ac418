# sgtk-menu launcher core in Dafny

sgtk-menu is a family of GTK application launchers for sway, i3 and other
window managers:
- `sgtk-menu` and its older `sway-gtk-menu` twin, a categorised menu;
- `sgtk-grid`, a grid of application buttons;
- `sgtk-dmenu`, a list of the commands found on `$PATH`.

Under the GTK code the launchers share a small, sequential core, and this
project models that core and proves its properties:

- **Categories**: the classifier that maps a raw `Categories=` tag to one of
  eleven main buckets (Appendix A, Registered Categories, of the freedesktop.org
  Desktop Menu Specification).
- **Tools**: the helpers of `tools.py`. These are the locale suffix, the
  data/`$PATH`/config directory lists, the `.directory` name reader
  (`translate_name`) and the translated category names dictionary.
- **DesktopFile**: the line scanner that reads a `.desktop` file. It models
  section 5 (localized values for keys) and section 7 (the `Exec` key and its
  field codes) of the freedesktop.org Desktop Entry Specification, as far as
  the launchers follow them.
- **Catalog**: the menu's entry list and its eleven per-category lists, which
  `DesktopEntry.__init__` fills and re-sorts.
- **GridApps**: the grid's list of apps, de-duplicated by name and command and
  sorted by upper-cased name.
- **Usage**: the launch counter (`cache`) and `sorted_cache`, plus the
  favourites selection shared by the menus and the grid.
- **MenuFavourites**: the favourites of the menus.
- **Search**: type-to-search of the menu, the sway menu and the dmenu list.
- **Overflow**: the long-submenu workaround of the menus, which covers
  `sub_menu`, `cheat_sway` and `cheat_sway_on_exit`.
- **Grid**: the grid's labels and row-major placement, its favourites row and
  its search handler.
- **Dmenu**: the `$PATH` command list and the rule that shows the first `t`
  commands.
- **IconSize**: the icon-size clamps.

Generic support lives in `Wrappers`, `Seqs`, `Strings` and `Sorting`. `Strings`
holds the Python string operations the source relies on: `strip`, `split`,
`join`, `upper`, `in` and `<`. `Sorting` is a stable insertion sort standing for
`list.sort` and `sorted`.

Widgets are abstract values: a menu item is its name and command, an app its
name, command, icon and comment. A `.desktop` file is its sequence of lines.
The environment (`$HOME`, `$XDG_DATA_DIRS`, `$PATH`, `$XDG_CONFIG_HOME`, the
system locale) and the command-line arguments are parameters.

The three `tools.py` copies are identical in the modelled functions, line for
line:
- `additional_to_main`: sgtk_menu/tools.py:181-238, sgtk-menu/tools.py:94-151
  and sway-gtk-menu/tools.py:82-139.
- `get_locale_string`: also sgtk-menu/tools.py:17-26 and
  sway-gtk-menu/tools.py:16-25.
- `settings_dirs`: the older name of `data_dirs`, at sgtk-menu/tools.py:73-84
  and sway-gtk-menu/tools.py:68-79.
- `read_entry`: the older name of `translate_name`, at
  sway-gtk-menu/tools.py:46-65; the other copy is sgtk-menu/tools.py:51-70.
- `localized_category_names`: also sgtk-menu/tools.py:29-48 and
  sway-gtk-menu/tools.py:28-43.

The sway menu's copies of the menu code correspond in the same way:
- `list_entries`: sway-gtk-menu/menu.py:293-332;
- `DesktopEntry`: sway-gtk-menu/menu.py:335-377;
- the favourites of `build_menu`: sway-gtk-menu/menu.py:389-405, which has no
  `-n` option, so `MenuFavourites.BuildFavourites` runs with `noMenu` false;
- `sub_menu`, `cheat_sway` and `cheat_sway_on_exit`: sway-gtk-menu/menu.py:518-619.

The sway menu differs in three places, each modelled separately:
- it has no `missing_copies_list` (`Overflow.Registry.storesMissing`);
- its search has a pool, selection and Enter handling of its own (`Search.SwaySearch`);
- its launch strips double quotes from the cache key (`Usage.UsageCache.LaunchUnquoted`).

## Model

| member | source | states |
|---|---|---|
| Categories.AdditionalToMain | sgtk_menu/tools.py:181-238 | total; a bucket is returned only for a tag that bucket lists, and `None` exactly when no bucket lists the tag |
| Categories.MainName | sgtk_menu/tools.py:181-238 | the string the source returns: a bucket name exactly when some bucket lists the tag, and that bucket lists it |
| Categories.MainNamesMapToThemselves | sgtk_menu/tools.py:185-235 | each of the eleven main names classifies as its own bucket |
| Categories.EducationIsScience | sgtk_menu/tools.py:213-219 | `Education` classifies as `Science`, so the extra `'Education'` test in `DesktopEntry.__init__` (sgtk_menu/menu.py:518) can never fire |
| Categories.ProgramsIsOther | sgtk_menu/tools.py:234-235 | the legacy tag `Programs` classifies as `Other` |
| Tools.LocaleString | sgtk_menu/tools.py:90-99 | `[p]` where p is the text before the first `_` of the forced language, else of the system locale, else of `en_US`; `None` exactly when p is empty |
| Tools.GermanLocale | sgtk_menu/tools.py:90-99 | a `de_DE` system locale gives `[de]` |
| Tools.PathJoin | sgtk_menu/tools.py:175-177 | `os.path.join` with a relative second part: no separator after an empty or `/`-terminated head, one `/` otherwise |
| Tools.PathJoinParts | sgtk_menu/tools.py:175-177 | a joined path starts with its head and ends with its tail |
| Tools.Components | sgtk_menu/tools.py:148-154 | no components for an unset or empty variable; otherwise one per `:`-separated field, each with every trailing `/` removed |
| Tools.DefaultDataDirsDistinct | sgtk_menu/tools.py:147 | the three default data directories are distinct |
| Tools.AppendComponents | sgtk_menu/tools.py:150-156 | the loop appends each component not already listed: the result is the first occurrences of defaults plus components |
| Tools.StripSlashes | sgtk_menu/tools.py:153-154 | the `while d.endswith("/")` loop removes exactly the trailing run of `/` |
| Tools.DataDirs | sgtk_menu/tools.py:146-157 | starts with the three defaults in order, then `XDG_DATA_DIRS` components stripped of trailing `/`; no duplicates; every component is present; first-occurrence order |
| Tools.PathDirs | sgtk_menu/tools.py:160-171 | empty for an unset or empty `PATH`; otherwise the stripped components, de-duplicated in first-occurrence order |
| Tools.ConfigDirs | sgtk_menu/tools.py:174-178 | one or two entries; first `os.path.join` of the expanded `~/.config` and `sgtk-menu`, which is `~/.config/sgtk-menu`; a second, `os.path.join(XDG_CONFIG_HOME, "sgtk-menu")`, only when that variable is set |
| Tools.ConfigPath | sgtk_menu/tools.py:175 | joining `~/.config` and `sgtk-menu` gives `~/.config/sgtk-menu` |
| Tools.NameKey | sgtk_menu/tools.py:137 | the localized key `Name[xx]=` starts with `Name` and ends with `=` |
| Tools.Assign | sgtk_menu/tools.py:134-138 | a line with the key sets the value to the text after the first `=` up to the next `=` (or the end), stripped, which holds no `=`; any other line keeps the old value |
| Tools.TranslateName | sgtk_menu/tools.py:124-143 | the line loop returns what the reader specification gives for the file |
| Tools.ReadLine | sgtk_menu/tools.py:130-140 | one pass of the line loop is one step of the reader: a header sets `read_me`, a line before any header raises, a line inside the section is read |
| Tools.ReadNameLine | sgtk_menu/tools.py:134-140 | the `Name=` and `Name[xx]=` tests of one line inside the section, as the reader step gives them |
| Tools.NameRunAppend | sgtk_menu/tools.py:129-140 | reading two pieces of a file in turn is reading the whole file |
| Tools.EnglishLocalizedIsName | sgtk_menu/tools.py:139-140 | with `[en]` the localized name tracks the name on every line |
| Tools.EnglishTranslation | sgtk_menu/tools.py:139-140 | with `[en]` the localized name returned equals the name returned |
| Tools.NoHeaderFirst | sgtk_menu/tools.py:129-143 | a first line that is not a `[` header leaves `read_me` unbound; the error is swallowed and the result is `(None, None)` |
| Tools.OtherSectionIgnored | sgtk_menu/tools.py:130-133 | lines of a section other than `[Desktop Entry]` change nothing |
| Tools.LastNameWins | sgtk_menu/tools.py:134-135 | of two `Name=` lines in `[Desktop Entry]` the later gives the name |
| Tools.TwoNameLines | sgtk_menu/tools.py:134-135 | inside the section, a second `Name=` line overrides the first |
| Tools.NameLineSetsName | sgtk_menu/tools.py:133-135 | inside the section, a `Name=` line sets the name to its value |
| Tools.HeaderOpensSection | sgtk_menu/tools.py:130-132 | the `[Desktop Entry]` header turns reading on |
| Tools.AddTranslationsKeeps | sgtk_menu/tools.py:113-116 | a key once defined keeps its first translation whatever files follow |
| Tools.AddTranslationsDefines | sgtk_menu/tools.py:113-114 | every name read together with a translation becomes a key |
| Tools.AddTranslationDefines | sgtk_menu/tools.py:113-114 | one file with a name and a translation defines that name |
| Tools.FirstTranslationWins | sgtk_menu/tools.py:113-114 | the first file to define a name gives its translation |
| Tools.LocalizedCategoryNames | sgtk_menu/tools.py:102-121 | the file loop builds the dictionary of the specification function, and `"Other"` is always a key |
| Tools.CategoryNamesComplete | sgtk_menu/tools.py:113-119 | `"Other"` is always a key: `"Other"` when no file defined it, the files' value otherwise; every name read with a translation is a key |
| Tools.AddTranslationsAppend | sgtk_menu/tools.py:105-114 | reading the files in two runs gives the dictionary of reading them all |
| Tools.TranslationRecorded | sgtk_menu/tools.py:111-114 | the first file to define a name gives it its translation, and gives the same translation to the name's main category when that key is still free |
| Tools.AddTranslationRecords | sgtk_menu/tools.py:112-114 | one file with a free name records the name and, when free, its main category, both with the file's translation |
| Tools.AddTranslationsSplit | sgtk_menu/tools.py:105-114 | the loop over all files passes through the state after file `i` |
| Tools.CategoryNamesKeep | sgtk_menu/tools.py:118-119 | the `"Other"` default never replaces a value the files defined |
| DesktopFile.ExecValue | sgtk_menu/menu.py:471-476 | everything after the first `=` (later `=` kept), stripped, cut before the first `%` and stripped again; holds no `%` |
| DesktopFile.StripIsInfix | sgtk_menu/menu.py:474-476 | `strip()` returns a slice of its argument |
| DesktopFile.LocalizedKey | sgtk_menu/menu.py:463 | `Name{locale}=` starts with the key and ends with `=` |
| DesktopFile.Take | sgtk_menu/menu.py:465-480 | a line with the key sets the field to the text after the first `=` up to the next `=` (or the end), stripped, which holds no `=`; others keep it |
| DesktopFile.ScanEntry | sgtk_menu/menu.py:453-482 | the per-file loop gives the scanner's result; an entry has a non-empty name and command with no `%`, non-empty categories in the menus, a non-empty icon in the grid |
| DesktopFile.ReadEntryLine | sgtk_menu/menu.py:458-480 | one pass of the line loop is one step of the scanner, and the command kept still has no `%` |
| DesktopFile.ReadFields | sgtk_menu/menu.py:462-480 | the key tests of one gated line, in the source's order, with `Categories` lacking `=` raising |
| DesktopFile.EntryRunRaised | sgtk_menu/menu.py:487-488 | after an exception the file's remaining lines are not read |
| DesktopFile.ExecHasNoFieldCode | sgtk_menu/menu.py:471-476 | whatever the lines, the command kept has no `%` field code |
| DesktopFile.OtherSectionSkipped | sgtk_menu/menu.py:459-462 | lines of another section change no field |
| DesktopFile.LaterNameWins | sgtk_menu/menu.py:465-469 | a later `Name=` or `Name[xx]=` line overwrites the name |
| DesktopFile.CategoriesWithoutValueLosesFile | sgtk_menu/menu.py:479-488 | in the menus a `Categories` line without `=` raises and the file makes no entry |
| DesktopFile.CategoryTagsShape | sgtk_menu/menu.py:500-501 | `split(';')[:-1]` gives one tag per `;`, none containing `;`; no `;` means no tags |
| DesktopFile.CategoryTagsPrefix | sgtk_menu/menu.py:500-501 | the tags, each followed by `;`, rebuild the value up to its last `;` |
| Catalog.BucketOf | sgtk_menu/menu.py:504-525 | a tag files an entry under at most one of the ten lists: its bucket, unless that is `Other` or none |
| Catalog.BucketsMeaning | sgtk_menu/menu.py:503-525 | an entry belongs in one of the ten lists exactly when one of its tags classifies there |
| Catalog.NameOrderIsStrict | sgtk_menu/menu.py:537 | Python's `<` on names is a strict total order |
| Catalog.Found | sgtk_menu/menu.py:450-488 | never more entries than files |
| Catalog.Index | sgtk_menu/menu.py:533-534 | each bucket's list has its fixed position; `c_other` is the eleventh |
| Catalog.Menu.constructor | sgtk_menu/menu.py:63-64 | eleven empty lists and an empty `all_entries` |
| Catalog.Menu.AddEntry | sgtk_menu/menu.py:496-537 | a fresh entry is filed, the lists re-sorted, the catalog invariant kept: each list sorted (but `Other`), no duplicates, each entry in exactly the lists its tags name, `Other` when none |
| Catalog.Menu.FileEntry | sgtk_menu/menu.py:503-531 | the tag loop and the `c_other` test produce the filed lists |
| Catalog.Menu.FileTag | sgtk_menu/menu.py:504-525 | one tag appends the entry to its bucket's list unless already there; the other lists are unchanged |
| Catalog.Menu.SortGroups | sgtk_menu/menu.py:536-537 | the ten lists are sorted by name; `c_other` is not |
| Catalog.Menu.Keep | sgtk_menu/menu.py:482-486 | a complete file adds one entry to `all_entries`; an incomplete one changes nothing |
| Catalog.Menu.ReadFile | sgtk_menu/menu.py:453-488 | one file's turn extends the entries by what the file makes |
| Catalog.Menu.ListEntries | sgtk_menu/menu.py:447-488 | `all_entries` gains one entry per complete file, in reading order, and the catalog invariant holds |
| Catalog.OtherTest | sgtk_menu/menu.py:527-531 | after the tag loop the entry is in none of the ten lists exactly when none of its tags names one of them |
| Catalog.EntryIsFresh | sgtk_menu/menu.py:506-525 | a new entry is in no list yet, so `self not in` never blocks its first filing |
| Catalog.GroupAfterAdd | sgtk_menu/menu.py:503-537 | one list after filing and sorting gains the entry exactly when its tags name the bucket, stays duplicate-free and sorted |
| Catalog.AddEntryKeepsValid | sgtk_menu/menu.py:496-537 | filing and sorting a fresh entry keeps the catalog invariant |
| GridApps.Kept | sgtk_menu/grid.py:395-402 | never more apps than files |
| GridApps.FindKey | sgtk_menu/grid.py:397-400 | the `found` loop is true exactly when an app with the same name and command is kept already |
| GridApps.ListEntries | sgtk_menu/grid.py:354-408 | the file loop, de-duplication and sort give `all_apps` |
| GridApps.KeptSnoc | sgtk_menu/grid.py:395-402 | a new file's app is appended unless an app with its name and command is kept |
| GridApps.KeptDistinct | sgtk_menu/grid.py:396-402 | no two kept apps share a name and a command |
| GridApps.KeptComplete | sgtk_menu/grid.py:395-402 | every complete file is represented by an app with its name and command |
| GridApps.KeptSound | sgtk_menu/grid.py:395-402 | every kept app is the app of a file read |
| GridApps.AllAppsOrdered | sgtk_menu/grid.py:406 | `all_apps` is sorted by upper-cased name, a permutation of the kept apps, and stable among equal keys |
| GridApps.DistinctKeysAfterPermutation | sgtk_menu/grid.py:406 | sorting keeps names and commands distinct |
| GridApps.AllAppsCover | sgtk_menu/grid.py:354-408 | every complete file's name and command is in `all_apps`, and every app of `all_apps` is the app of a complete file |
| Usage.Find | sgtk_menu/menu.py:849 | the first position of a command in the cache, or the cache's length when absent |
| Usage.BumpedCounts | sgtk_menu/menu.py:849-852 | a launch adds one to its command's count, 1 when new, and changes no other count |
| Usage.BumpedCommands | sgtk_menu/menu.py:849-852 | a known command keeps its place, a new one goes last, commands stay distinct |
| Usage.UsageCache.constructor | sgtk_menu/menu.py:181 | the loaded cache, each command once |
| Usage.UsageCache.Launch | sgtk_menu/menu.py:846-853 | the cache is bumped for the command unless the item is an appendix item (`no_cache`), which leaves it unchanged |
| Usage.Bump | sgtk_menu/menu.py:849-852 | the counter update computes the bumped cache |
| Usage.UsageCache.LaunchUnquoted | sway-gtk-menu/menu.py:650-657 | the sway menu counts every launch under the command with its double quotes removed |
| Usage.Unquoted | sway-gtk-menu/menu.py:652 | `replace('"', '')` never lengthens the command |
| Usage.UnquotedMeaning | sway-gtk-menu/menu.py:652 | no `"` is left; the key is shorter by exactly the number of `"`; a command without quotes is its own key; removing twice is removing once |
| Usage.UnquotedConcat | sway-gtk-menu/menu.py:652 | removal works piece by piece, so the kept characters stay in order |
| Usage.RemoveQuotes | sway-gtk-menu/menu.py:652 | the character loop computes `Unquoted` |
| Usage.SortedCacheOrder | sgtk_menu/menu.py:186 | counts are non-increasing, the items are the cache's items, and items with equal counts keep their cache order |
| Usage.MenuFavouriteCount | sgtk_menu/menu.py:551-559 | 5 with `-f`, else the `-fn` value, capped at the cache size; 0 when not positive |
| Usage.GridFavouriteCount | sgtk_menu/grid.py:413-421 | what `list_favs` selects when called: the column count with `-f`, else `fn * columns`, capped at the cache size; 0 when not positive |
| Usage.Capped | sgtk_menu/menu.py:556-559 | never above the cache size nor the (non-negative) request; the request when it fits, the cache size when it does not |
| Usage.FirstUnchosen | sgtk_menu/menu.py:564-567 | a found item is in the list, runs the command and is not chosen yet |
| Usage.FirstUnchosenIsFirst | sgtk_menu/menu.py:564-567 | nothing is found exactly when no fitting item exists, and no fitting item precedes the one found |
| Usage.Favourites | sgtk_menu/menu.py:561-567 | at most one favourite per top command, no duplicates, each an item running a top command |
| Usage.SelectFavourites | sgtk_menu/menu.py:561-567 | the nested loops give the favourites of the first `n` commands of `sorted_cache` |
| Usage.FindUnchosen | sgtk_menu/menu.py:564-567 | the inner loop with `break` returns the first fitting item |
| Usage.FavouritesSnoc | sgtk_menu/menu.py:562-567 | each further top command adds exactly its first unchosen fitting item, if any |
| MenuFavourites.BuildFavourites | sgtk_menu/menu.py:544-567 | no favourites with `-n` (`no_menu`); otherwise `to_prepend` is the favourites of the sorted cache, with at most n entries, no duplicates, all from `all_entries` |
| MenuFavourites.FavouriteEntriesMeaning | sgtk_menu/menu.py:562-567 | every favourite runs one of the n most launched commands |
| Search.DropLast | sgtk_menu/menu.py:337 | `phrase[:-1]` is one shorter, or empty for an empty phrase |
| Search.EditedMeaning | sgtk_menu/menu.py:325-338 | typing then backspace restores the phrase; backspace keeps an empty phrase empty; an accepted key makes it non-empty |
| Search.FilterSnoc | sgtk_menu/menu.py:348-359 | one more item is added exactly when it matches and its name is not among the results |
| Search.FilterIntoAppend | sgtk_menu/menu.py:347-374 | searching `all_copies_list` and then `missing_copies_list` is searching their concatenation |
| Search.FilterMeaning | sgtk_menu/menu.py:347-359 | the results match and come from the pool, have distinct names, cover every matching name, and each is the first matching item of its name |
| Search.FilterSound | sgtk_menu/menu.py:351-359 | every result matches and is an item of the pool |
| Search.FilterDistinct | sgtk_menu/menu.py:353-359 | no two results share a name |
| Search.FilterComplete | sgtk_menu/menu.py:351-359 | every matching item has a result of its name |
| Search.FilterFirst | sgtk_menu/menu.py:351-359 | each result is the first matching item of its name |
| Search.FindName | sgtk_menu/menu.py:354-357 | the `found` loop is true exactly when a result has the name |
| Search.FilterItems | sgtk_menu/menu.py:348-359 | the search loop computes the filter function |
| Search.MenuSearch.constructor | sgtk_menu/menu.py:279 | an empty phrase and the original menu |
| Search.MenuSearch.KeyRelease | sgtk_menu/menu.py:316-405 | nothing handled with `--no-menu`; accepted keys append, backspace shortens; after an edit a phrase shows the first match per name of `all_copies_list` then `missing_copies_list`, a single result selected, an empty phrase the original menu; Enter activates a single result |
| Search.SwaySearch.constructor | sway-gtk-menu/menu.py:96 | an empty phrase and the original menu |
| Search.SwaySearch.KeyRelease | sway-gtk-menu/menu.py:121-173 | the same editing; the results come from `all_copies_list` alone; nothing is selected or activated |
| Search.LabelsMatching | sgtk_menu/dmenu.py:276-282 | a label is a result exactly when it contains the phrase ignoring case |
| Search.LabelsMatchingCount | sgtk_menu/dmenu.py:278-282 | no de-duplication: a matching label appears as often as in the list |
| Search.FilterLabels | sgtk_menu/dmenu.py:277-282 | the loop computes the label filter |
| Search.DmenuSearch.constructor | sgtk_menu/dmenu.py:213 | an empty phrase and the original menu |
| Search.DmenuSearch.KeyRelease | sgtk_menu/dmenu.py:250-313 | alphanumerics, space, `-`, `+` and `_` append; backspace shortens; a phrase shows the matching labels with a single one selected; an empty phrase the original menu; Enter activates a single result |
| Overflow.Registry.constructor | sgtk_menu/menu.py:86-92 | empty `all_items_list`, `all_copies_list` and `missing_copies_list` |
| Overflow.Registry.AddSubMenu | sgtk_menu/menu.py:719-764 | off sway or with fewer than `t` entries every entry becomes a child and joins both lists; otherwise only the first `t`, the submenu cheats, and the rest go to `missing_copies_list` |
| Overflow.Registry.Admit | sgtk_menu/menu.py:782-798 | an appended entry joins each list only when no item of its name is there |
| Overflow.Merged | sgtk_menu/menu.py:777-798 | the list grows by at most the entries merged |
| Overflow.MergedSnoc | sgtk_menu/menu.py:782-798 | one more entry is added exactly when its name is new |
| Overflow.MergedMeaning | sgtk_menu/menu.py:777-798 | the old list is kept in front, only merged entries are added, every merged name is present, and distinct names stay distinct |
| Overflow.Popped | sgtk_menu/menu.py:775-800 | popping up keeps the children shown in front |
| Overflow.Trimmed | sgtk_menu/menu.py:805-807 | hiding keeps at most the first `t` children, in order |
| Overflow.PopupHideCycle | sgtk_menu/menu.py:769-807 | popping up shows every entry, hiding returns to the first `t`, and repeating either changes nothing |
| Overflow.SubMenu.constructor | sgtk_menu/menu.py:712-714 | a submenu with its entries and no children |
| Overflow.SubMenu.PoppedUp | sgtk_menu/menu.py:769-802 | a cheating submenu with missing children gets entries `t` on; both lists merge them by name; `missing_copies_list` is untouched; the submenu invariant holds |
| Overflow.SubMenu.AppendRest | sgtk_menu/menu.py:777-800 | the loop appends entries `t` on to the children and merges them into both lists |
| Overflow.SubMenu.AppendOne | sgtk_menu/menu.py:778-800 | one entry becomes a child and is offered to both lists, each taking it only when no item of its name is there |
| Overflow.SubMenu.Hidden | sgtk_menu/menu.py:805-807 | a cheating submenu is left with exactly its first `t` entries |
| Grid.Label | sgtk_menu/grid.py:441-442 | at most 25 characters; a name of up to 25 is kept; a longer one becomes its first 22 characters and `...` |
| Grid.LabelStable | sgtk_menu/grid.py:441-442 | labelling a label changes nothing |
| Grid.Unparented | sgtk_menu/grid.py:499-500 | the items attached are exactly those without a parent |
| Grid.UnparentedConcat | sgtk_menu/grid.py:499-500 | the items are attached in their order: a list taken in two pieces gives the first piece's buttons first |
| Grid.Walk | sgtk_menu/grid.py:498-506 | one cell per item attached |
| Grid.LayoutRowMajor | sgtk_menu/grid.py:498-506 | the k-th unparented item goes to column `k mod columns`, row `k div columns`; columns in range; no two items share a cell |
| Grid.LayoutNoColumns | sgtk_menu/grid.py:502-506 | with no positive column count every item starts a new row in column 0 |
| Grid.DistinctCells | sgtk_menu/grid.py:502-506 | different positions give different cells |
| Grid.Place | sgtk_menu/grid.py:498-506 | the `col`/`row` loop places the items as the layout says |
| Grid.ApplicationGrid.constructor | sgtk_menu/grid.py:492-506 | the grid holds the layout of its items |
| Grid.ApplicationGrid.Update | sgtk_menu/grid.py:508-525 | after removing every child the grid holds the layout of the new items |
| Grid.ListFavs | sgtk_menu/grid.py:411-431 | at most n favourites, all from `all_apps`, chosen as the menus choose |
| Grid.ShownFavouriteCount | sgtk_menu/grid.py:167-168 | no favourites without `-f` or a positive `-fn`, whatever `-c` is; otherwise the count `list_favs` selects |
| Grid.StartFavourites | sgtk_menu/grid.py:167-168 | `list_favs` runs only with `-f` or a positive `-fn`; the favourites number at most the shown count and all come from `all_apps` |
| Grid.EscapeMeaning | sgtk_menu/grid.py:301-311 | Escape clears a phrase and shows every app and the favourites, or quits on an empty phrase |
| Grid.TypingSearches | sgtk_menu/grid.py:289-327 | a typed character extends the phrase, hides the favourites and shows the matching apps, one per name and the first of each; a single result is focused |
| Grid.AsWrittenIgnoresTyping | sgtk_menu/grid.py:289-311 | without favourites the handler as written never leaves an empty phrase: typing `a` is lost |
| Grid.IntendedSearches | sgtk_menu/grid.py:284-337 | touching the favourites only when present, typing `a` starts a search; with favourites this is the handler as written |
| Grid.GridWindow.constructor | sgtk_menu/grid.py:223-255 | an empty phrase, every app shown, the favourites row shown when there is one |
| Grid.GridWindow.KeyRelease | sgtk_menu/grid.py:284-337 | one key release as `Released` states it, with the favourites shown only in a window that has them |
| Dmenu.Dotless | sgtk_menu/dmenu.py:359-361 | the names without a `.`, never more than the names |
| Dmenu.ListedMeaning | sgtk_menu/dmenu.py:355-362 | a command is listed exactly when some existing `$PATH` directory holds that name without a `.` |
| Dmenu.ListedSnoc | sgtk_menu/dmenu.py:357-361 | each directory's commands follow the previous ones, repeats kept |
| Dmenu.ListDirectory | sgtk_menu/dmenu.py:359-361 | the loop over one directory keeps the names without a `.` |
| Dmenu.ListCommands | sgtk_menu/dmenu.py:355-362 | the loop over `path_dirs()` lists the commands of every existing directory in order |
| Dmenu.AllCommandsOrdered | sgtk_menu/dmenu.py:141-143 | the sorted list is in order and holds every listed command as often as listed |
| Dmenu.SliceTo | sgtk_menu/dmenu.py:382 | Python's `[:t]`: the first `t` items, or all but the last `-t` for a negative `t` |
| Dmenu.BuildMenu | sgtk_menu/dmenu.py:375-383 | every command is an item of both lists; the menu gets the first `t` |
| Dmenu.ShownCommands | sgtk_menu/dmenu.py:382-383 | at most `t` commands shown, all of them when there are no more than `t`, each one listed |
| IconSize.Clamped | sgtk_menu/menu.py:153-156 | the size lies in the bounds, is kept when inside, and is the nearest bound otherwise |
| IconSize.MenuIconSize | sgtk_menu/dmenu.py:108-111 | the menus' and the dmenu list's icon size lies in 16..48 |
| IconSize.GridIconSize | sgtk_menu/grid.py:129-132 | the grid's icon size lies in 16..96 |
| IconSize.ClampedMeaning | sgtk_menu/grid.py:129-132 | clamping twice is clamping once, and a larger request never gives a smaller icon |
| Strings.Split | sgtk_menu/tools.py:151 | `str.split(sep)`: at least one part, exactly one when the separator is absent, the first part the text before the first separator |
| Strings.SplitPartsAvoidSep | sgtk_menu/tools.py:151 | no part holds the separator |
| Strings.JoinSplit | sgtk_menu/menu.py:472-473 | joining the parts of a split with the same separator gives the string back |
| Strings.Strip | sgtk_menu/tools.py:131 | `strip()` never lengthens, and its result neither starts nor ends with whitespace |
| Strings.StripMeaning | sgtk_menu/tools.py:131 | `strip()` gives a slice of the string, and only whitespace is cut off before and after it |
| Strings.StripAvoids | sgtk_menu/tools.py:135 | `strip()` adds no character, so a value cut at `=` still holds no `=` |
| Strings.TrimTrailing | sgtk_menu/tools.py:153-154 | removing trailing `/`: a prefix that does not end in `/`, everything removed being `/` |
| Strings.Upper | sgtk_menu/menu.py:351 | `upper()` keeps the length and changes only lower-case letters |
| Strings.LexLtTransitive | sgtk_menu/dmenu.py:143 | Python's string `<` is transitive |
| Strings.LexLtTotal | sgtk_menu/dmenu.py:143 | any two different strings are ordered one way |
| Sorting.SortBy | sgtk_menu/menu.py:537 | `list.sort(key=…)` keeps the length and the elements: a permutation |
| Sorting.SortBySorted | sgtk_menu/menu.py:537 | the sorted list is in key order |
| Sorting.SortByStable | sgtk_menu/menu.py:186 | the sort is stable: items with the same key keep their relative order |
| Seqs.FirstOccurrences | sgtk_menu/tools.py:155-156 | `if d not in paths: paths.append(d)`: no duplicates, the same elements, never longer |
| Seqs.FirstOccurrencesKeepsPrefix | sgtk_menu/tools.py:147-156 | a duplicate-free start is kept in front; what follows comes from the appended part and is new |

## Left out

- GTK: windows, menus, buttons, icons, CSS, pop-up placement and transparency
  drawing. Items are abstract (name, command) values. The widget tree a
  `Gtk.Menu` holds appears only as the `View` the search shows, or the children
  of an overflow submenu.
- Widget identity: `all_items_list` and `all_copies_list` hold two separate
  widgets per entry, but the model stores the same value in both. The menus'
  `DesktopEntry` identity is kept through the `Entry.id` counter.
- `subprocess` (launching, swaymsg/i3-msg, `check_wm`, `display_geometry`),
  `Gtk.main_quit` (a quit is an output flag), PID locks, timers and `argparse`.
  Arguments are parameters.
- The file system: `os.path.exists`, `os.listdir`, `os.walk`, `open`,
  `readlines`, and the JSON load and save of the cache and the appendix. Files
  are given as sequences of lines. A directory listing is a map from directory
  to names, and a missing directory is absent from the map. The cache is given
  as its items in dictionary order.
- The appendix menu of `build_menu`. It is GTK construction only; its launches
  reach the model as `Launch(command, noCache := true)`.
- `append_submenu` and the category labels of `build_menu`. They choose which
  non-empty category gets a GTK submenu and look up its translated label, which
  is widget construction.
- Python's Unicode `upper()` and `isalnum()` are modelled on ASCII: letters
  `a`–`z`/`A`–`Z` and digits. Whitespace for `strip()` and `split()` is the
  full set of Python's `str.isspace()`.
- Overflow.Registry.AddSubMenu: `-t` is a natural number. A negative `-t`
  reaching `range(args.t)` and Python's negative slicing of `entries_list` is
  not modelled.
- Strings.FirstToken: `exec.split()[0]` raises `IndexError` on a blank
  command. The model gives the empty token instead. Scanned commands are
  non-empty and stripped, so a blank one never reaches the search.
- Grid.ApplicationGrid.Update: GTK state flags (`unset_state_flags` on the
  favourites and the removed buttons) are not modelled.
- Whether an app button is already attached (`get_parent()`) is an input: a
  `Tile`'s `parented` flag.
- The sway menu's `main` translation of the category names (lines 228 on) is
  not modelled. It only copies dictionary entries for GTK labels.

## Findings

| source | as written | input that shows it | evidently intended | confidence | as-written member | corrected member |
|---|---|---|---|---|---|---|
| sgtk_menu/grid.py:289-311 | `search_items` calls `self.grid_favs.hide()` and `self.sep1.get_parent().hide()` on every accepted key, and `show()` whenever the phrase is empty. `grid_favs` and `sep1` are only created `if all_favs` (grid.py:251-257). Without favourites (no `-f`/`-fn`, or an empty cache) the first access raises `AttributeError` and the handler stops before updating the phrase. | `sgtk-grid` without `-f`, key `a` (keyval 97) on an empty phrase: the phrase stays empty and the grid is not filtered | touch the favourites row only when it exists (as `main` already does at grid.py:206-207), so typing searches with or without favourites | not executed | Grid.ReleasedAsWritten / Grid.AsWrittenIgnoresTyping | Grid.Released / Grid.IntendedSearches / Grid.GridWindow.KeyRelease |
