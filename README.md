# LXQt translator: catalog resolution and load caches

This project models `LXQt::Translator` from `lxqttranslator.cpp` in Dafny. The
translator finds and installs the translation catalog of an application, a
library or a plugin. It keeps three pieces of process-wide state:

- the **search-path list**, created on first use from the compiled-in
  translations directory and the XDG data directories, with duplicates
  removed (first occurrence kept); a caller may replace it as a whole;
- two **load caches**, `loadedLibs` and `loadedPlugins`, that only grow;
- the application's chain of **installed translators**.

`translate(name, owner)` walks the search paths in order. Under each path it
tries `path/owner/name` for a plugin, or `path/name` then `path` for a
library or an application. In each candidate directory it asks the loader
for the catalog `name_locale`. The first catalog that loads is installed and
the call succeeds. After a failed probe, a locale of `C` or one starting
with `en` ends the scan with success and nothing installed. When every
candidate fails, or when there is no candidate at all, the call fails.

The project has three modules:

- `StringLists` (`string_lists.dfy`): duplicate removal keeping first
  occurrences, as a specification function `Dedup` and the loop
  `RemoveDuplicates` proved against it, plus its properties.
- `Resolver` (`resolver.dfy`): the pure rules of a scan. `Candidates` gives
  the candidate directories in priority order. `Resolve` gives how a scan
  ends. `Probed` gives which directories it offers the loader. `Scan` gives
  the whole observable effect of `translate`. Lemmas cover first match wins,
  the English stop, failure, candidate shape and plugin scoping.
- `Translation` (`translator.dfy`): class `Translator`. Its fields are the
  static state of the source (`searchPaths` with `initialized`,
  `loadedLibs`, `loadedPlugins`, `installed`, and a ghost log `probes` of
  every loader call). Each entry point is a method. Each method's `ensures`
  ties its new state to `Scan` and to the old state.

The catalog loader is modelled by a set `loadable` of (catalog base name,
directory) pairs for which a load succeeds. The system locale is a
parameter of each call.

## Model

| member | source | states |
|---|---|---|
| StringLists.DedupFrom | lxqttranslator.cpp:56 | defines de-duplication past a set of strings already seen: a string is kept when it is neither seen nor earlier in the list |
| StringLists.Dedup | lxqttranslator.cpp:56 | defines the de-duplicated list: every string after its first occurrence is dropped |
| StringLists.RemoveDuplicates | lxqttranslator.cpp:56 | the de-duplication loop, which remembers the strings already kept, computes exactly `Dedup` of its input |
| StringLists.DedupProperties | lxqttranslator.cpp:53-56 | the de-duplicated list has no repeats, holds exactly the strings of the input, is no longer than it, and lists them in first-occurrence order |
| StringLists.DedupFromMembers | lxqttranslator.cpp:56 | de-duplication past a set of seen strings keeps exactly the unseen strings of the input and never grows |
| StringLists.DedupFromNoRepeats | lxqttranslator.cpp:56 | de-duplication never yields a repeated string |
| StringLists.DedupFromOrder | lxqttranslator.cpp:56 | de-duplication keeps strings in the order of their first occurrence |
| StringLists.OrderFromTail | lxqttranslator.cpp:56 | first-occurrence order in the tail carries over to the whole list, with the head in front |
| StringLists.FirstIndexTail | lxqttranslator.cpp:56 | past a different head, a string's first occurrence is one position further on |
| StringLists.DedupKeepsHead | lxqttranslator.cpp:53-56 | the first string of the seed (the compiled-in directory) always stays first |
| StringLists.DedupFromDistinct | lxqttranslator.cpp:56 | a list without repeats is left unchanged |
| StringLists.DedupIdempotent | lxqttranslator.cpp:56 | de-duplicating twice is the same as de-duplicating once |
| Translation.Translator.constructor | lxqttranslator.cpp:49-51 | the process starts with no search-path list (the null static pointer of lines 49-51), empty caches (the static sets of lines 159 and 171) and nothing installed |
| Translation.Translator.SeededPaths | lxqttranslator.cpp:53-56 | defines the list the first access creates: the compiled-in directory, then the XDG data directories, duplicates removed |
| Translation.Translator.GetSearchPaths | lxqttranslator.cpp:47-60 | the first access seeds the list with `Dedup([shareDir] + xdgDataDirs)`; later accesses hand back the list unchanged |
| Translation.Translator.TranslationSearchPaths | lxqttranslator.cpp:66-69 | returns the current list, seeding it first when there is none yet |
| Translation.Translator.SetTranslationSearchPaths | lxqttranslator.cpp:75-80 | afterwards the list is exactly the given paths, duplicates included, with nothing of the earlier list left |
| Translation.ReplaceThenRead | lxqttranslator.cpp:66-80 | a read after a replacement returns exactly the replacement, even when the replacement was the first access |
| Resolver.CatalogFile | lxqttranslator.cpp:108 | defines the catalog base name asked of the loader: `name_locale` |
| Resolver.NeedsNoCatalog | lxqttranslator.cpp:113-114 | defines the locales for which a failed probe still succeeds: exactly `C` and every locale starting with `en` |
| Resolver.SubPaths | lxqttranslator.cpp:94-104 | defines the directories tried under one search path: `path/owner/name` for a plugin, `path/name` then `path` otherwise |
| Resolver.Candidates | lxqttranslator.cpp:92-104 | defines all candidate directories in the order probed: search path by search path, each path's sub-paths in turn |
| Resolver.Scan | lxqttranslator.cpp:86-127 | defines the whole observable effect of `translate`: the boolean result, the catalog appended to the chain (only on a load) and the loader calls made, in order |
| Resolver.Resolve | lxqttranslator.cpp:106-121 | an installed directory is one of the candidates and its catalog loads; an English stop happens only for a locale that needs no catalog |
| Resolver.Probed | lxqttranslator.cpp:106-121 | the directories offered to the loader are a prefix of the candidates |
| Resolver.Attempts | lxqttranslator.cpp:108 | one loader call per probed directory, each asking for the same catalog file |
| Resolver.PluginCandidates | lxqttranslator.cpp:94-99 | with an owner, each search path gives exactly one candidate, `path/owner/name`, in search-path order |
| Resolver.LibraryCandidates | lxqttranslator.cpp:100-104 | without an owner, search path `i` gives candidates `2i` = `path/name` and `2i+1` = `path` |
| Resolver.CandidatesAppend | lxqttranslator.cpp:92-104 | the candidates of two search-path lists in turn are the candidates of the first followed by those of the second |
| Resolver.CandidatesSplit | lxqttranslator.cpp:92-104 | the candidates of search path `i` sit between those of the earlier and those of the later paths |
| Resolver.CandidatesStep | lxqttranslator.cpp:92-104 | one more search path appends its own candidates |
| Resolver.FirstMatchWins | lxqttranslator.cpp:106-111 | the earliest candidate that loads, reached with no English stop, is installed, and no later candidate is probed |
| Resolver.InstalledIsFirstMatch | lxqttranslator.cpp:106-111 | conversely, an installed catalog comes from the last probed directory, every earlier probe failed, and for an English locale it was the only probe |
| Resolver.EnglishAtMostOneProbe | lxqttranslator.cpp:113-120 | for a `C` or `en…` locale at most one probe is made; the scan succeeds exactly when there is a candidate, and installs exactly when the first candidate loads |
| Resolver.NotFoundExactly | lxqttranslator.cpp:92-126 | a scan fails if and only if there is no candidate, or the locale needs a catalog and no candidate loads |
| Resolver.ExhaustedScanProbesAll | lxqttranslator.cpp:106-126 | when nothing loads and the locale needs a catalog, every candidate is probed and the scan fails |
| Resolver.NotFoundProbedAll | lxqttranslator.cpp:106-126 | a failed scan has probed every candidate |
| Resolver.SkipFailedPrefix | lxqttranslator.cpp:106-121 | failed probes ahead of the rest, with no English stop, change only the probe log |
| Resolver.ResolveAppend | lxqttranslator.cpp:92-126 | a scan of the first part that ends ends the whole scan; one that fails has probed all of it and continues with the rest |
| Resolver.ProbeNext | lxqttranslator.cpp:108-120 | after `j` fruitless probes, probe `j` installs on a load, stops on a failure with an English locale, and otherwise leaves the scan going |
| Resolver.ScanStep | lxqttranslator.cpp:92-121 | one search path's turn, after the earlier ones found nothing, either ends the whole scan with its own outcome or passes on with all its candidates probed |
| Resolver.ScanEndsAt | lxqttranslator.cpp:92-121 | a scan ended by search path `i` succeeds with that path's outcome, after all probes of the earlier paths and its own |
| Resolver.ScanExhausted | lxqttranslator.cpp:92-126 | a scan no search path ends fails, installs nothing and probes every candidate |
| Resolver.PluginProbesOnlyScoped | lxqttranslator.cpp:94-99 | every directory probed for a plugin is some `path/owner/name` |
| Resolver.AttemptsAppend | lxqttranslator.cpp:108 | probing two directory lists in turn logs the calls for the first, then those for the second |
| Resolver.SingleSearchPathExample | lxqttranslator.cpp:92-126 | one search path and no catalogs: `de_DE` tries `path/myapp`, then `path`, and fails; `en_US` succeeds after the first probe |
| Translation.Translator.ProbeSubPaths | lxqttranslator.cpp:106-121 | the inner loop ends as `Resolve` says, installs exactly the catalog that loaded (if any), and logs exactly the probes of `Probed` |
| Translation.Translator.ScanSearchPaths | lxqttranslator.cpp:92-126 | the outer loop returns `Scan(...).ok`, appends exactly `Scan(...).installs` to the chain, and logs exactly `Scan(...).attempts` |
| Translation.Translator.Translate | lxqttranslator.cpp:86-127 | seeds the list if needed, then has exactly the effect `Scan` gives for the current list |
| Translation.Translator.TranslateApplication | lxqttranslator.cpp:133-151 | one best-effort probe of `qt_<locale>` that is installed if it loads, then exactly `translate` of the application name, or of the executable base name when that name is empty; the result is that of `translate` alone |
| Translation.Translator.TranslateLibrary | lxqttranslator.cpp:157-167 | the name is in the cache afterwards; a cached name succeeds with nothing probed or installed; otherwise the name is cached first and then resolved as `translate` does |
| Translation.Translator.TranslatePlugin | lxqttranslator.cpp:169-179 | `type/name` in the cache succeeds with nothing changed; otherwise the bare name is cached and the plugin is resolved under its type |
| Translation.Translator.TranslatePluginKeyed | lxqttranslator.cpp:169-179 | the corrected cache step: caches `type/name`, the key it tests, so that the key is always in the cache afterwards |
| Translation.Translator.LoadSelfTranslation | lxqttranslator.cpp:181-184 | the start-up hook is `translateLibrary("liblxqt")` |
| Translation.ClockPluginScan | lxqttranslator.cpp:92-111 | one search path holding the plugin catalog: the scan installs that catalog after a single probe |
| Translation.RepeatedPluginLoadsTwice | lxqttranslator.cpp:173-178 | two identical plugin calls on a fresh translator, as written, install the catalog twice |
| Translation.RepeatedPluginKeyedLoadsOnce | lxqttranslator.cpp:173-178 | two identical calls with the corrected cache step install the catalog once |

## Left out

- `QTranslator::load` is not modelled: its file lookup, its catalog parsing and Qt's own suffix and fallback search are foreign code. The loader is the set `loadable` of (catalog base name, directory) pairs for which a load succeeds.
- `QLocale::system().name()` is a parameter `locale` of each call. `translateApplication` and `translate` each read it in the source. The model passes one value to both, so it assumes the system locale does not change during one call.
- `XdgDirs::dataDirs` and the macros `LXQT_SHARE_TRANSLATIONS_DIR` and `LXQT_RELATIVE_SHARE_TRANSLATIONS_DIR` are the constructor arguments `shareDir` and `xdgDataDirs`. The model does not join the relative suffix itself.
- `QLibraryInfo::location(TranslationsPath)` and `QFileInfo(applicationFilePath()).baseName()` are the parameters `qtTranslationsDir` and `executableBaseName`.
- `new` and `delete` of translators and Qt parent ownership are memory management with no observable logic. Only installation into the chain is modelled.
- `QDebug` output is not modelled. Thread safety of the static singletons is also not modelled: calls are assumed sequential.
- `Q_COREAPP_STARTUP_FUNCTION` is not modelled as a hook. Its effect is the explicit call `LoadSelfTranslation`.
- `QStringList::removeDuplicates` is Qt code and is not shown. It is modelled by its documented behaviour, which is to keep the first occurrence of each string.
- The probe log `probes` is ghost. It only records loader calls so that "no later candidate was probed" can be stated.
- `translate` is one function with two nested loops in the source. The model splits it into `Translate`, `ScanSearchPaths` (the outer loop) and `ProbeSubPaths` (the inner loop). Together they behave as the single function does.

## Findings

| source | as written | input that shows it | evidently intended | confidence | as-written member | corrected member |
|---|---|---|---|---|---|---|
| lxqttranslator.cpp:173-178 | `translatePlugin` checks the cache for `type/pluginName` but inserts the bare `pluginName`, so the key it checks is never stored | `translatePlugin("clock", "lxqt-panel")` twice, with `clock_de_DE` loadable from `<share>/lxqt-panel/clock`: the second call misses the cache, probes again and installs a second translator | the cache stores the key it is checked against, so a repeat call succeeds without probing or installing | not executed | Translation.RepeatedPluginLoadsTwice | Translation.RepeatedPluginKeyedLoadsOnce |

The rest of the model keeps the source's behaviour in
`Translation.Translator.TranslatePlugin`. The corrected cache step is
`Translation.Translator.TranslatePluginKeyed`.
