/**
 * LXQt::Translator (lxqttranslator.cpp) with its process-wide state made
 * explicit: the lazily seeded search-path list, the two load caches and the
 * application's chain of installed translators are fields of one object.
 * The system locale and the catalog loader are parameters of every call that
 * reads them; the compiled-in translations directory and the XDG data
 * directories are fixed when the object is made.
 */
module Translation {
  import opened StringLists
  import opened Resolver

  /** Name of the toolkit's own library catalog, loaded at application start-up. */
  const SelfLibraryName: string := "liblxqt"

  class Translator {
    /** LXQT_SHARE_TRANSLATIONS_DIR, the compiled-in translations directory. */
    const shareDir: string
    /** What XdgDirs::dataDirs returns for the relative translations suffix. */
    const xdgDataDirs: seq<string>

    /** The search-path list; meaningful once `initialized`. */
    var searchPaths: seq<string>
    /** Whether the search-path list has been created (the static pointer is non-null). */
    var initialized: bool
    /** The `loadedLibs` cache of translateLibrary. */
    var loadedLibs: set<string>
    /** The `loadedPlugins` cache of translatePlugin. */
    var loadedPlugins: set<string>
    /** The application's translator chain: (catalog base name, directory) of each installed catalog, oldest first. */
    var installed: seq<(string, string)>
    /** Every loader call made so far, as (catalog base name, directory), oldest first. */
    ghost var probes: seq<(string, string)>

    /** The list the first access creates: the share directory, then the XDG directories, first occurrences kept. */
    function SeededPaths(): seq<string>
    {
      Dedup([shareDir] + xdgDataDirs)
    }

    /** The state at process start: no search-path list yet, empty caches, nothing installed. */
    constructor (shareDir: string, xdgDataDirs: seq<string>)
      ensures this.shareDir == shareDir && this.xdgDataDirs == xdgDataDirs
      ensures !initialized && searchPaths == []
      ensures loadedLibs == {} && loadedPlugins == {}
      ensures installed == [] && probes == []
    {
      this.shareDir := shareDir;
      this.xdgDataDirs := xdgDataDirs;
      searchPaths := [];
      initialized := false;
      loadedLibs := {};
      loadedPlugins := {};
      installed := [];
      probes := [];
    }

    /** After a call: the list exists, and it was seeded by this call exactly when it did not exist before. */
    twostate predicate PathsReady()
      reads this
    {
      initialized &&
      searchPaths == if old(initialized) then old(searchPaths) else SeededPaths()
    }

    /** getSearchPaths: create and seed the list on first use, then hand it out. */
    method GetSearchPaths() returns (paths: seq<string>)
      modifies this`searchPaths, this`initialized
      ensures PathsReady()
      ensures paths == searchPaths
    {
      if !initialized {
        initialized := true;
        searchPaths := [];
        searchPaths := searchPaths + [shareDir];
        searchPaths := searchPaths + xdgDataDirs;
        searchPaths := RemoveDuplicates(searchPaths);
      }
      paths := searchPaths;
    }

    /** Translator::translationSearchPaths: a copy of the current list. */
    method TranslationSearchPaths() returns (paths: seq<string>)
      modifies this`searchPaths, this`initialized
      ensures PathsReady()
      ensures paths == searchPaths
    {
      paths := GetSearchPaths();
    }

    /** Translator::setTranslationSearchPaths: replace the whole list, duplicates and all. */
    method SetTranslationSearchPaths(paths: seq<string>)
      modifies this`searchPaths, this`initialized
      ensures initialized && searchPaths == paths
    {
      var _ := GetSearchPaths();
      searchPaths := [];
      searchPaths := searchPaths + paths;
    }

    /**
     * The inner loop of translate: offer the candidate directories `subPaths`
     * of one search path to the loader in order, installing the first catalog
     * that loads; the scan stops there, or at the first failure when the
     * locale needs no catalog.
     */
    method ProbeSubPaths(subPaths: seq<string>, file: string, english: bool, loadable: set<(string, string)>) returns (o: Outcome)
      modifies this`installed, this`probes
      ensures o == Resolve(subPaths, file, english, loadable)
      ensures installed == old(installed) + (if o.Installed? then [(file, o.dir)] else [])
      ensures probes == old(probes) + Attempts(file, Probed(subPaths, file, english, loadable))
    {
      var j := 0;
      while j < |subPaths|
        invariant 0 <= j <= |subPaths|
        invariant Resolve(subPaths[..j], file, english, loadable) == NotFound
        invariant installed == old(installed)
        invariant probes == old(probes) + Attempts(file, subPaths[..j])
      {
        var p := subPaths[j];
        ProbeNext(subPaths, j, file, english, loadable);
        AttemptsAppend(file, subPaths[..j], [p]);
        assert Attempts(file, [p]) == [(file, p)];
        LogAppend(old(probes), Attempts(file, subPaths[..j]), Attempts(file, [p]));
        probes := probes + [(file, p)];
        if Loads(loadable, file, p) {
          installed := installed + [(file, p)];
          return Installed(p);
        } else if english {
          return EnglishDefault;
        }
        j := j + 1;
      }
      assert subPaths[..j] == subPaths;
      NotFoundProbedAll(subPaths, file, english, loadable);
      return NotFound;
    }

    /**
     * The outer loop of translate: the candidates of each search path in
     * turn, until one of them ends the scan.
     */
    method ScanSearchPaths(paths: seq<string>, name: string, owner: string, locale: string, loadable: set<(string, string)>)
      returns (ok: bool)
      modifies this`installed, this`probes
      ensures (var r := Scan(paths, name, owner, locale, loadable);
        ok == r.ok && installed == old(installed) + r.installs && probes == old(probes) + r.attempts)
    {
      var file := CatalogFile(name, locale);
      var english := NeedsNoCatalog(locale);
      var i := 0;
      while i < |paths|
        invariant 0 <= i <= |paths|
        invariant Resolve(Candidates(paths[..i], name, owner), file, english, loadable) == NotFound
        invariant installed == old(installed)
        invariant probes == old(probes) + Attempts(file, Candidates(paths[..i], name, owner))
      {
        ScanStep(paths, i, name, owner, file, english, loadable);
        var subPaths := SubPaths(paths[i], name, owner);
        var o := ProbeSubPaths(subPaths, file, english, loadable);
        LogAppend(old(probes), Attempts(file, Candidates(paths[..i], name, owner)), Attempts(file, Probed(subPaths, file, english, loadable)));
        if o.Succeeded() {
          ScanEndsAt(paths, i, name, owner, locale, loadable);
          return true;
        }
        i := i + 1;
      }
      assert paths[..i] == paths;
      ScanExhausted(paths, name, owner, locale, loadable);
      return false;
    }

    /** translate(name, owner): probe the candidates in order and install the first catalog that loads. */
    method Translate(name: string, owner: string, locale: string, loadable: set<(string, string)>) returns (ok: bool)
      modifies this`searchPaths, this`initialized, this`installed, this`probes
      ensures PathsReady()
      ensures (var r := Scan(searchPaths, name, owner, locale, loadable);
        ok == r.ok && installed == old(installed) + r.installs && probes == old(probes) + r.attempts)
    {
      var paths := GetSearchPaths();
      ok := ScanSearchPaths(paths, name, owner, locale, loadable);
    }

    /**
     * Translator::translateApplication: a best-effort load of the toolkit
     * catalog `qt_<locale>` from `qtTranslationsDir`, whose outcome is
     * ignored, then the application's own catalog under `applicationName`,
     * or under the executable's base name when that is empty.
     */
    method TranslateApplication(applicationName: string, locale: string, loadable: set<(string, string)>,
                                qtTranslationsDir: string, executableBaseName: string) returns (ok: bool)
      modifies this`searchPaths, this`initialized, this`installed, this`probes
      ensures PathsReady()
      ensures var qtFile := "qt_" + locale;
        var qtInstalled := if Loads(loadable, qtFile, qtTranslationsDir) then [(qtFile, qtTranslationsDir)] else [];
        var name := if applicationName != "" then applicationName else executableBaseName;
        (var r := Scan(searchPaths, name, "", locale, loadable);
        ok == r.ok && installed == old(installed) + qtInstalled + r.installs && probes == old(probes) + [(qtFile, qtTranslationsDir)] + r.attempts)
    {
      var qtFile := "qt_" + locale;
      probes := probes + [(qtFile, qtTranslationsDir)];
      if Loads(loadable, qtFile, qtTranslationsDir) {
        installed := installed + [(qtFile, qtTranslationsDir)];
      }
      if applicationName != "" {
        ok := Translate(applicationName, "", locale, loadable);
      } else {
        ok := Translate(executableBaseName, "", locale, loadable);
      }
    }

    /**
     * Translator::translateLibrary: a name already in the cache succeeds
     * without probing; otherwise the name is cached first and then resolved.
     */
    method TranslateLibrary(libraryName: string, locale: string, loadable: set<(string, string)>) returns (ok: bool)
      modifies this`searchPaths, this`initialized, this`installed, this`probes, this`loadedLibs
      ensures loadedLibs == old(loadedLibs) + {libraryName}
      ensures libraryName in old(loadedLibs) ==>
        ok && unchanged(this`searchPaths, this`initialized, this`installed, this`probes)
      ensures libraryName !in old(loadedLibs) ==>
        PathsReady() && (var r := Scan(searchPaths, libraryName, "", locale, loadable);
        ok == r.ok && installed == old(installed) + r.installs && probes == old(probes) + r.attempts)
    {
      if libraryName in loadedLibs {
        return true;
      }
      loadedLibs := loadedLibs + {libraryName};
      ok := Translate(libraryName, "", locale, loadable);
    }

    /**
     * Translator::translatePlugin: succeeds without probing when
     * `pluginType/pluginName` is in the cache; otherwise caches the bare
     * `pluginName` (not the key it tested) and resolves under `pluginType`.
     */
    method TranslatePlugin(pluginName: string, pluginType: string, locale: string, loadable: set<(string, string)>) returns (ok: bool)
      modifies this`searchPaths, this`initialized, this`installed, this`probes, this`loadedPlugins
      ensures pluginType + "/" + pluginName in old(loadedPlugins) ==>
        ok && unchanged(this`searchPaths, this`initialized, this`installed, this`probes, this`loadedPlugins)
      ensures pluginType + "/" + pluginName !in old(loadedPlugins) ==>
        loadedPlugins == old(loadedPlugins) + {pluginName} &&
        PathsReady() && (var r := Scan(searchPaths, pluginName, pluginType, locale, loadable);
        ok == r.ok && installed == old(installed) + r.installs && probes == old(probes) + r.attempts)
    {
      var fullName := pluginType + "/" + pluginName;
      if fullName in loadedPlugins {
        return true;
      }
      loadedPlugins := loadedPlugins + {pluginName};
      ok := Translate(pluginName, pluginType, locale, loadable);
    }

    /**
     * The same cache step keyed the way it is tested: caches
     * `pluginType/pluginName`, so that an identical later call is answered
     * from the cache.
     */
    method TranslatePluginKeyed(pluginName: string, pluginType: string, locale: string, loadable: set<(string, string)>) returns (ok: bool)
      modifies this`searchPaths, this`initialized, this`installed, this`probes, this`loadedPlugins
      ensures pluginType + "/" + pluginName in loadedPlugins
      ensures pluginType + "/" + pluginName in old(loadedPlugins) ==>
        ok && unchanged(this`searchPaths, this`initialized, this`installed, this`probes, this`loadedPlugins)
      ensures pluginType + "/" + pluginName !in old(loadedPlugins) ==>
        loadedPlugins == old(loadedPlugins) + {pluginType + "/" + pluginName} &&
        PathsReady() && (var r := Scan(searchPaths, pluginName, pluginType, locale, loadable);
        ok == r.ok && installed == old(installed) + r.installs && probes == old(probes) + r.attempts)
    {
      var fullName := pluginType + "/" + pluginName;
      if fullName in loadedPlugins {
        return true;
      }
      loadedPlugins := loadedPlugins + {fullName};
      ok := Translate(pluginName, pluginType, locale, loadable);
    }

    /** loadSelfTranslation: the start-up hook, as an explicit call. */
    method LoadSelfTranslation(locale: string, loadable: set<(string, string)>) returns (ok: bool)
      modifies this`searchPaths, this`initialized, this`installed, this`probes, this`loadedLibs
      ensures loadedLibs == old(loadedLibs) + {SelfLibraryName}
      ensures SelfLibraryName in old(loadedLibs) ==>
        ok && unchanged(this`searchPaths, this`initialized, this`installed, this`probes)
      ensures SelfLibraryName !in old(loadedLibs) ==>
        PathsReady() && (var r := Scan(searchPaths, SelfLibraryName, "", locale, loadable);
        ok == r.ok && installed == old(installed) + r.installs && probes == old(probes) + r.attempts)
    {
      ok := TranslateLibrary(SelfLibraryName, locale, loadable);
    }
  }
  /**
   * Wholesale replacement: a read after setTranslationSearchPaths hands back
   * exactly the list given, duplicates included, even when the set call was
   * the first access and seeded the list.
   */
  method ReplaceThenRead(t: Translator, paths: seq<string>) returns (r: seq<string>)
    modifies t`searchPaths, t`initialized
    ensures r == paths
  {
    t.SetTranslationSearchPaths(paths);
    r := t.TranslationSearchPaths();
  }

  /** The share directory and the plugin catalog of the repeated-call examples below. */
  const ExampleShareDir: string := "/usr/share/lxqt/translations"
  const ExamplePluginDir: string := "/usr/share/lxqt/translations/lxqt-panel/clock"

  /**
   * With the share directory as the only search path and the catalog
   * `clock_de_DE` present in the plugin's directory, the scan for plugin
   * "clock" of type "lxqt-panel" installs that catalog after one probe.
   */
  lemma ClockPluginScan(loadable: set<(string, string)>)
    requires loadable == {("clock_de_DE", ExamplePluginDir)}
    ensures Dedup([ExampleShareDir] + []) == [ExampleShareDir]
    ensures Scan([ExampleShareDir], "clock", "lxqt-panel", "de_DE", loadable) ==
      ScanResult(true, [("clock_de_DE", ExamplePluginDir)], [("clock_de_DE", ExamplePluginDir)])
  {
    assert [ExampleShareDir] + [] == [ExampleShareDir];
    DedupFromDistinct([ExampleShareDir], {});
    assert CatalogFile("clock", "de_DE") == "clock_de_DE";
    assert "de_DE"[..2] == "de";
    PluginCandidates([ExampleShareDir], "clock", "lxqt-panel");
    assert ExampleShareDir + "/" + "lxqt-panel" + "/" + "clock" == ExamplePluginDir;
    var cands := Candidates([ExampleShareDir], "clock", "lxqt-panel");
    FirstMatchWins(cands, "clock_de_DE", false, loadable, 0);
    assert cands[..1] == [ExamplePluginDir];
    assert Attempts("clock_de_DE", [ExamplePluginDir])[0] == ("clock_de_DE", ExamplePluginDir);
  }

  /**
   * translatePlugin as written, called twice with the same plugin on a fresh
   * translator: the second call misses the cache and installs the catalog a
   * second time.
   */
  method RepeatedPluginLoadsTwice() returns (installs: nat)
    ensures installs == 2
  {
    var loadable := {("clock_de_DE", ExamplePluginDir)};
    var t := new Translator(ExampleShareDir, []);
    ClockPluginScan(loadable);
    var first := t.TranslatePlugin("clock", "lxqt-panel", "de_DE", loadable);
    assert "lxqt-panel/clock" !in t.loadedPlugins;
    var second := t.TranslatePlugin("clock", "lxqt-panel", "de_DE", loadable);
    installs := |t.installed|;
  }

  /** The keyed cache step, called twice the same way: the catalog is installed once. */
  method RepeatedPluginKeyedLoadsOnce() returns (installs: nat)
    ensures installs == 1
  {
    var loadable := {("clock_de_DE", ExamplePluginDir)};
    var t := new Translator(ExampleShareDir, []);
    ClockPluginScan(loadable);
    var first := t.TranslatePluginKeyed("clock", "lxqt-panel", "de_DE", loadable);
    var second := t.TranslatePluginKeyed("clock", "lxqt-panel", "de_DE", loadable);
    installs := |t.installed|;
  }
}
