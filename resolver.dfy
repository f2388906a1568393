/**
 * The catalog resolution rules of lxqttranslator.cpp:86-127 as pure
 * definitions: which directories are tried for a component, in which order,
 * which catalog file is asked for, and what a scan of the candidates ends in.
 * The catalog loader (QTranslator::load) is given by the set `loadable` of
 * (catalog base name, directory) pairs for which a load succeeds.
 */
module Resolver {

  /** How a scan of the candidates ends. */
  datatype Outcome =
    | Installed(dir: string)  // a catalog loaded from `dir` and was installed
    | EnglishDefault          // a probe failed, but the locale needs no catalog
    | NotFound                // nothing loaded; the locale needs a catalog
  {
    /** The boolean the resolver reports. */
    predicate Succeeded()
    {
      !NotFound?
    }
  }

  /** Whether the loader succeeds for catalog base name `file` in directory `dir`. */
  predicate Loads(loadable: set<(string, string)>, file: string, dir: string)
  {
    (file, dir) in loadable
  }

  /** Base name of the catalog asked for: `name_locale`. */
  function CatalogFile(name: string, locale: string): string
  {
    name + "_" + locale
  }

  /** The locales for which a missing catalog is no failure: "C" and every locale starting with "en". */
  predicate NeedsNoCatalog(locale: string)
  {
    locale == "C" || (|locale| >= 2 && locale[..2] == "en")
  }

  /**
   * The directories tried under one search path: `path/owner/name` for a
   * plugin (non-empty owner), `path/name` then `path` otherwise.
   */
  function SubPaths(path: string, name: string, owner: string): seq<string>
  {
    if owner != "" then [path + "/" + owner + "/" + name]
    else [path + "/" + name, path]
  }

  /** All candidate directories, search path by search path, in priority order. */
  function Candidates(paths: seq<string>, name: string, owner: string): seq<string>
  {
    if paths == [] then []
    else Candidates(paths[..|paths| - 1], name, owner) + SubPaths(paths[|paths| - 1], name, owner)
  }

  /** What scanning `cands` in order ends in: the first loadable one, or the English stop after a failure. */
  function Resolve(cands: seq<string>, file: string, english: bool, loadable: set<(string, string)>): (o: Outcome)
    ensures o.Installed? ==> o.dir in cands && Loads(loadable, file, o.dir)
    ensures o.EnglishDefault? ==> english
  {
    if cands == [] then NotFound
    else if Loads(loadable, file, cands[0]) then Installed(cands[0])
    else if english then EnglishDefault
    else Resolve(cands[1..], file, english, loadable)
  }

  /** The candidates that the scan actually offers to the loader. */
  function Probed(cands: seq<string>, file: string, english: bool, loadable: set<(string, string)>): (r: seq<string>)
    ensures |r| <= |cands| && r == cands[..|r|]
  {
    if cands == [] then []
    else if Loads(loadable, file, cands[0]) || english then [cands[0]]
    else [cands[0]] + Probed(cands[1..], file, english, loadable)
  }

  /** What one run of the resolver amounts to: its boolean, the translators it installs and the loader calls it makes. */
  datatype ScanResult = ScanResult(ok: bool, installs: seq<(string, string)>, attempts: seq<(string, string)>)

  /**
   * The resolver for component `name` (with plugin type `owner`, empty for
   * libraries and applications) over the search paths `paths`, with the
   * system locale `locale` and the loader `loadable`.
   */
  function Scan(paths: seq<string>, name: string, owner: string, locale: string, loadable: set<(string, string)>): ScanResult
  {
    var cands := Candidates(paths, name, owner);
    var file := CatalogFile(name, locale);
    var english := NeedsNoCatalog(locale);
    var o := Resolve(cands, file, english, loadable);
    ScanResult(o.Succeeded(),
               if o.Installed? then [(file, o.dir)] else [],
               Attempts(file, Probed(cands, file, english, loadable)))
  }

  /** The loader calls made for `file` in the directories `dirs`, as (file, directory) pairs. */
  function Attempts(file: string, dirs: seq<string>): (r: seq<(string, string)>)
    ensures |r| == |dirs|
  {
    seq(|dirs|, i requires 0 <= i < |dirs| => (file, dirs[i]))
  }

  /** Probing two lists of directories in turn logs the calls of the first, then those of the second. */
  lemma AttemptsAppend(file: string, a: seq<string>, b: seq<string>)
    ensures Attempts(file, a + b) == Attempts(file, a) + Attempts(file, b)
  {
  }

  /**
   * Appending to the probe log in two steps is appending both parts at once;
   * stated apart so that the loop proofs of the scan need not rediscover it.
   */
  lemma LogAppend(log: seq<(string, string)>, a: seq<(string, string)>, b: seq<(string, string)>)
    ensures (log + a) + b == log + (a + b)
  {
  }

  /** Candidates of a concatenation of search-path lists is the concatenation of their candidates. */
  lemma {:induction false} CandidatesAppend(a: seq<string>, b: seq<string>, name: string, owner: string)
    ensures Candidates(a + b, name, owner) == Candidates(a, name, owner) + Candidates(b, name, owner)
    decreases |b|
  {
    if b != [] {
      var b' := b[..|b| - 1];
      assert (a + b)[..|a + b| - 1] == a + b';
      assert (a + b)[|a + b| - 1] == b[|b| - 1];
      CandidatesAppend(a, b', name, owner);
    } else {
      assert a + b == a;
    }
  }

  /** The candidates of search path `i` sit between those of the earlier and of the later paths. */
  lemma CandidatesSplit(paths: seq<string>, i: nat, name: string, owner: string)
    requires i < |paths|
    ensures Candidates(paths, name, owner) ==
      Candidates(paths[..i], name, owner) + SubPaths(paths[i], name, owner) + Candidates(paths[i + 1..], name, owner)
  {
    assert paths == paths[..i + 1] + paths[i + 1..];
    CandidatesAppend(paths[..i + 1], paths[i + 1..], name, owner);
    assert paths[..i + 1][..i] == paths[..i];
  }

  /** One more search path adds its own candidates at the end. */
  lemma CandidatesStep(paths: seq<string>, i: nat, name: string, owner: string)
    requires i < |paths|
    ensures Candidates(paths[..i + 1], name, owner) == Candidates(paths[..i], name, owner) + SubPaths(paths[i], name, owner)
  {
    assert paths[..i + 1][..i] == paths[..i];
  }

  /** A plugin gets exactly one candidate per search path: `path/owner/name`. */
  lemma {:induction false} PluginCandidates(paths: seq<string>, name: string, owner: string)
    requires owner != ""
    ensures |Candidates(paths, name, owner)| == |paths|
    ensures forall i :: 0 <= i < |paths| ==> Candidates(paths, name, owner)[i] == paths[i] + "/" + owner + "/" + name
  {
    if paths != [] {
      PluginCandidates(paths[..|paths| - 1], name, owner);
    }
  }

  /** A library or application gets two candidates per search path: `path/name`, then `path`. */
  lemma {:induction false} LibraryCandidates(paths: seq<string>, name: string)
    ensures |Candidates(paths, name, "")| == 2 * |paths|
    ensures forall i :: 0 <= i < |paths| ==>
      Candidates(paths, name, "")[2 * i] == paths[i] + "/" + name &&
      Candidates(paths, name, "")[2 * i + 1] == paths[i]
  {
    if paths != [] {
      LibraryCandidates(paths[..|paths| - 1], name);
    }
  }

  /** Failed probes ahead of `rest`, with no English stop among them, change nothing but the probe log. */
  lemma {:induction false} SkipFailedPrefix(failed: seq<string>, rest: seq<string>, file: string, english: bool, loadable: set<(string, string)>)
    requires forall j :: 0 <= j < |failed| ==> !Loads(loadable, file, failed[j])
    requires failed == [] || !english
    ensures Resolve(failed + rest, file, english, loadable) == Resolve(rest, file, english, loadable)
    ensures Probed(failed + rest, file, english, loadable) == failed + Probed(rest, file, english, loadable)
  {
    if failed != [] {
      assert (failed + rest)[0] == failed[0];
      assert (failed + rest)[1..] == failed[1..] + rest;
      SkipFailedPrefix(failed[1..], rest, file, english, loadable);
    } else {
      assert failed + rest == rest;
    }
  }

  /**
   * Scanning a concatenation: a scan of `a` that ends (in an install or an
   * English stop) ends the whole scan; a scan of `a` that finds nothing has
   * probed all of `a` and goes on with `b`.
   */
  lemma {:induction false} ResolveAppend(a: seq<string>, b: seq<string>, file: string, english: bool, loadable: set<(string, string)>)
    ensures Resolve(a, file, english, loadable).NotFound? ==>
      Resolve(a + b, file, english, loadable) == Resolve(b, file, english, loadable) &&
      Probed(a + b, file, english, loadable) == a + Probed(b, file, english, loadable)
    ensures !Resolve(a, file, english, loadable).NotFound? ==>
      Resolve(a + b, file, english, loadable) == Resolve(a, file, english, loadable) &&
      Probed(a + b, file, english, loadable) == Probed(a, file, english, loadable)
  {
    if a == [] {
      assert a + b == b;
    } else {
      assert (a + b)[0] == a[0];
      assert (a + b)[1..] == a[1..] + b;
      ResolveAppend(a[1..], b, file, english, loadable);
    }
  }

  /** A scan that finds nothing has probed every candidate. */
  lemma {:induction false} NotFoundProbedAll(cands: seq<string>, file: string, english: bool, loadable: set<(string, string)>)
    requires Resolve(cands, file, english, loadable) == NotFound
    ensures Probed(cands, file, english, loadable) == cands
  {
    if cands != [] {
      NotFoundProbedAll(cands[1..], file, english, loadable);
    }
  }

  /**
   * The next probe, after the first `j` candidates found nothing: a load of
   * candidate `j` installs it, a failure with an English locale stops the
   * scan there, and any other failure leaves the first `j + 1` with nothing.
   */
  lemma ProbeNext(cands: seq<string>, j: nat, file: string, english: bool, loadable: set<(string, string)>)
    requires j < |cands|
    requires Resolve(cands[..j], file, english, loadable) == NotFound
    ensures cands[..j + 1] == cands[..j] + [cands[j]]
    ensures Loads(loadable, file, cands[j]) ==>
      Resolve(cands, file, english, loadable) == Installed(cands[j]) &&
      Probed(cands, file, english, loadable) == cands[..j + 1]
    ensures !Loads(loadable, file, cands[j]) && english ==>
      Resolve(cands, file, english, loadable) == EnglishDefault &&
      Probed(cands, file, english, loadable) == cands[..j + 1]
    ensures !Loads(loadable, file, cands[j]) && !english ==>
      Resolve(cands[..j + 1], file, english, loadable) == NotFound
  {
    assert cands[..j + 1] == cands[..j] + [cands[j]];
    assert cands == cands[..j + 1] + cands[j + 1..];
    NotFoundProbedAll(cands[..j], file, english, loadable);
    ResolveAppend(cands[..j], [cands[j]], file, english, loadable);
    ResolveAppend(cands[..j + 1], cands[j + 1..], file, english, loadable);
  }

  /**
   * One search path's turn in the scan, after the earlier paths found
   * nothing: if its candidates end the scan, that ends the whole scan with
   * the probes so far followed by its own; otherwise all of them were probed
   * and the scan goes on with the next path.
   */
  lemma ScanStep(paths: seq<string>, i: nat, name: string, owner: string, file: string, english: bool, loadable: set<(string, string)>)
    requires i < |paths|
    requires Resolve(Candidates(paths[..i], name, owner), file, english, loadable) == NotFound
    ensures var done := Candidates(paths[..i], name, owner);
      var seg := SubPaths(paths[i], name, owner);
      var all := Candidates(paths, name, owner);
      && Probed(done, file, english, loadable) == done
      && (Resolve(seg, file, english, loadable).NotFound? ==>
            Resolve(Candidates(paths[..i + 1], name, owner), file, english, loadable) == NotFound &&
            Attempts(file, Candidates(paths[..i + 1], name, owner)) == Attempts(file, done) + Attempts(file, Probed(seg, file, english, loadable)))
      && (!Resolve(seg, file, english, loadable).NotFound? ==>
            Resolve(all, file, english, loadable) == Resolve(seg, file, english, loadable) &&
            Attempts(file, Probed(all, file, english, loadable)) == Attempts(file, done) + Attempts(file, Probed(seg, file, english, loadable)))
  {
    var done := Candidates(paths[..i], name, owner);
    var seg := SubPaths(paths[i], name, owner);
    var rest := Candidates(paths[i + 1..], name, owner);
    CandidatesSplit(paths, i, name, owner);
    CandidatesStep(paths, i, name, owner);
    NotFoundProbedAll(done, file, english, loadable);
    assert done + seg + rest == done + (seg + rest);
    ResolveAppend(done, seg + rest, file, english, loadable);
    ResolveAppend(seg, rest, file, english, loadable);
    ResolveAppend(done, seg, file, english, loadable);
    if Resolve(seg, file, english, loadable).NotFound? {
      NotFoundProbedAll(seg, file, english, loadable);
    }
    AttemptsAppend(file, done, Probed(seg, file, english, loadable));
  }

  /** A scan that a search path's candidates end: that path's outcome, after every probe of the earlier paths. */
  lemma ScanEndsAt(paths: seq<string>, i: nat, name: string, owner: string, locale: string, loadable: set<(string, string)>)
    requires i < |paths|
    requires Resolve(Candidates(paths[..i], name, owner), CatalogFile(name, locale), NeedsNoCatalog(locale), loadable) == NotFound
    requires Resolve(SubPaths(paths[i], name, owner), CatalogFile(name, locale), NeedsNoCatalog(locale), loadable).Succeeded()
    ensures var file := CatalogFile(name, locale);
      var seg := SubPaths(paths[i], name, owner);
      var o := Resolve(seg, file, NeedsNoCatalog(locale), loadable);
      Scan(paths, name, owner, locale, loadable) ==
        ScanResult(true, if o.Installed? then [(file, o.dir)] else [],
                   Attempts(file, Candidates(paths[..i], name, owner)) + Attempts(file, Probed(seg, file, NeedsNoCatalog(locale), loadable)))
  {
    ScanStep(paths, i, name, owner, CatalogFile(name, locale), NeedsNoCatalog(locale), loadable);
  }

  /** A scan that no search path ends: it fails, installs nothing, and probes every candidate. */
  lemma ScanExhausted(paths: seq<string>, name: string, owner: string, locale: string, loadable: set<(string, string)>)
    requires Resolve(Candidates(paths, name, owner), CatalogFile(name, locale), NeedsNoCatalog(locale), loadable) == NotFound
    ensures Scan(paths, name, owner, locale, loadable) ==
      ScanResult(false, [], Attempts(CatalogFile(name, locale), Candidates(paths, name, owner)))
  {
    NotFoundProbedAll(Candidates(paths, name, owner), CatalogFile(name, locale), NeedsNoCatalog(locale), loadable);
  }

  /**
   * First match wins: the earliest loadable candidate, reached without an
   * English stop, is the one installed, and nothing after it is probed.
   */
  lemma FirstMatchWins(cands: seq<string>, file: string, english: bool, loadable: set<(string, string)>, k: nat)
    requires k < |cands| && Loads(loadable, file, cands[k])
    requires forall j :: 0 <= j < k ==> !Loads(loadable, file, cands[j])
    requires k == 0 || !english
    ensures Resolve(cands, file, english, loadable) == Installed(cands[k])
    ensures Probed(cands, file, english, loadable) == cands[..k + 1]
  {
    assert cands == cands[..k] + cands[k..];
    SkipFailedPrefix(cands[..k], cands[k..], file, english, loadable);
    assert cands[..k + 1] == cands[..k] + [cands[k]];
  }

  /**
   * Conversely, an installed catalog comes from the last probed candidate,
   * every earlier probe failed, and with an English locale it was the first.
   */
  lemma {:induction false} InstalledIsFirstMatch(cands: seq<string>, file: string, english: bool, loadable: set<(string, string)>)
    requires Resolve(cands, file, english, loadable).Installed?
    ensures var p := Probed(cands, file, english, loadable);
      && 0 < |p|
      && Resolve(cands, file, english, loadable).dir == cands[|p| - 1]
      && Loads(loadable, file, cands[|p| - 1])
      && (forall j :: 0 <= j < |p| - 1 ==> !Loads(loadable, file, cands[j]))
      && (english ==> |p| == 1)
  {
    if !Loads(loadable, file, cands[0]) {
      InstalledIsFirstMatch(cands[1..], file, english, loadable);
    }
  }

  /** With an English or "C" locale, at most one probe is made and the scan succeeds unless there is no candidate. */
  lemma EnglishAtMostOneProbe(cands: seq<string>, file: string, loadable: set<(string, string)>)
    ensures Probed(cands, file, true, loadable) == if cands == [] then [] else [cands[0]]
    ensures Resolve(cands, file, true, loadable).Succeeded() <==> cands != []
    ensures Resolve(cands, file, true, loadable).Installed? <==> cands != [] && Loads(loadable, file, cands[0])
  {
  }

  /**
   * The scan fails exactly when there is no candidate, or when the locale
   * needs a catalog and no candidate loads.
   */
  lemma {:induction false} NotFoundExactly(cands: seq<string>, file: string, english: bool, loadable: set<(string, string)>)
    ensures Resolve(cands, file, english, loadable) == NotFound <==>
      cands == [] || (!english && forall j :: 0 <= j < |cands| ==> !Loads(loadable, file, cands[j]))
  {
    if cands != [] && !Loads(loadable, file, cands[0]) && !english {
      NotFoundExactly(cands[1..], file, english, loadable);
      assert forall j :: 1 <= j < |cands| ==> cands[j] == cands[1..][j - 1];
    }
  }

  /** A failing scan for a locale that needs a catalog probes every candidate. */
  lemma ExhaustedScanProbesAll(cands: seq<string>, file: string, loadable: set<(string, string)>)
    requires forall j :: 0 <= j < |cands| ==> !Loads(loadable, file, cands[j])
    ensures Probed(cands, file, false, loadable) == cands
    ensures Resolve(cands, file, false, loadable) == NotFound
  {
    SkipFailedPrefix(cands, [], file, false, loadable);
    assert cands + [] == cands;
  }

  /** Plugin scoping: every directory probed for plugin `name` of type `owner` is some `path/owner/name`. */
  lemma PluginProbesOnlyScoped(paths: seq<string>, name: string, owner: string, file: string, english: bool, loadable: set<(string, string)>)
    requires owner != ""
    ensures forall d :: d in Probed(Candidates(paths, name, owner), file, english, loadable) ==>
      exists i :: 0 <= i < |paths| && d == paths[i] + "/" + owner + "/" + name
  {
    var cands := Candidates(paths, name, owner);
    PluginCandidates(paths, name, owner);
    var p := Probed(cands, file, english, loadable);
    forall d | d in p
      ensures exists i :: 0 <= i < |paths| && d == paths[i] + "/" + owner + "/" + name
    {
      var k :| 0 <= k < |p| && p[k] == d;
      assert d == cands[k];
    }
  }

  /**
   * With one search path "/usr/share/app/translations", component "myapp"
   * and locale "de_DE", the scan asks for "myapp_de_DE" first in
   * ".../translations/myapp", then in ".../translations", and fails when
   * neither holds the catalog; with "en_US" it succeeds all the same,
   * after a single probe.
   */
  lemma SingleSearchPathExample(loadable: set<(string, string)>)
    requires loadable == {}
    ensures var cands := Candidates(["/usr/share/app/translations"], "myapp", "");
      && cands == ["/usr/share/app/translations/myapp", "/usr/share/app/translations"]
      && CatalogFile("myapp", "de_DE") == "myapp_de_DE"
      && !NeedsNoCatalog("de_DE")
      && Probed(cands, "myapp_de_DE", false, loadable) == cands
      && Resolve(cands, "myapp_de_DE", false, loadable) == NotFound
      && NeedsNoCatalog("en_US")
      && Resolve(cands, "myapp_en_US", true, loadable) == EnglishDefault
      && Probed(cands, "myapp_en_US", true, loadable) == ["/usr/share/app/translations/myapp"]
  {
    var cands := Candidates(["/usr/share/app/translations"], "myapp", "");
    assert ["/usr/share/app/translations"][..0] == [];
    assert "/usr/share/app/translations" + "/" + "myapp" == "/usr/share/app/translations/myapp";
    assert SubPaths("/usr/share/app/translations", "myapp", "") == ["/usr/share/app/translations/myapp", "/usr/share/app/translations"];
    assert cands == ["/usr/share/app/translations/myapp", "/usr/share/app/translations"];
    assert "de_DE"[..2] == "de";
    assert "en_US"[..2] == "en";
    assert cands[1..][1..] == [];
  }
}
