/** Downloading the plugin jars from their GitHub releases (`download_jar` in
    workbench.py; `download_plugin_assets` in lib/utils.py is a copy). The
    organisation's repositories, their releases and the assets' bytes are
    given as values; the network calls that fetch them are not modelled. What
    is modelled is which release of which repository is chosen, where each
    asset is written, and how a failure ends the run. */
module Releases {
  import opened Wrappers
  import opened Text
  import opened Paths
  import opened Files
  import opened Archives

  datatype Asset = Asset(name: string, content: Content)

  datatype Release = Release(tag: string, assets: seq<Asset>)

  /** A repository of the organisation, as the GitHub API would report it: its
      name, its latest release (if it has one), and its releases by tag. */
  datatype Repo = Repo(name: string, latest: Option<Release>, releases: seq<Release>)

  /** Why a download run stops: a release lookup raised `GithubException`, which
      the program turns into a `ClickException`, or writing an asset failed. */
  datatype Failure = ReleaseNotFound(repo: string, version: string) | WriteFailed(error: OsError)

  /** The `plugin_versions` dictionary of `download_jar`. */
  function PluginVersions(illuminaVersion: string, nanoporeVersion: string): seq<(string, string)>
  {
    [("irida-plugin-sars-cov-2-illumina", illuminaVersion),
     ("irida-plugin-sars-cov-2-nanopore", nanoporeVersion)]
  }

  /** `plugin_versions.get(name, None)` */
  function Lookup(versions: seq<(string, string)>, name: string): Option<string>
  {
    if versions == [] then None
    else if versions[0].0 == name then Some(versions[0].1)
    else Lookup(versions[1..], name)
  }

  /** The version asked for a repository, when it is asked for at all: the
      repository is mapped, and to a non-empty (truthy) version. */
  function Wanted(versions: seq<(string, string)>, name: string): Option<string>
  {
    match Lookup(versions, name)
    case None => None
    case Some(v) => if v == "" then None else Some(v)
  }

  /** `repo.get_release(tag)`: the release with that tag. */
  function Tagged(releases: seq<Release>, tag: string): Option<Release>
  {
    if releases == [] then None
    else if releases[0].tag == tag then Some(releases[0])
    else Tagged(releases[1..], tag)
  }

  /** `repo.get_latest_release()` for "latest", `repo.get_release(version)`
      otherwise; a lookup that finds nothing raises. */
  function Select(repo: Repo, version: string): Result<Release, Failure>
  {
    var found := if version == "latest" then repo.latest else Tagged(repo.releases, version);
    match found
    case None => Err(ReleaseNotFound(repo.name, version))
    case Some(r) => Ok(r)
  }

  /** "latest" gives the latest release; any other version gives a release
      carrying exactly that tag, and fails exactly when the repository has no
      release with that tag. */
  lemma {:induction false} SelectSpec(repo: Repo, version: string)
    ensures version == "latest" ==>
      (Select(repo, version).Ok? <==> repo.latest.Some?) &&
      (Select(repo, version).Ok? ==> Select(repo, version).value == repo.latest.value)
    ensures version != "latest" ==>
      (Select(repo, version).Ok? <==> exists r :: r in repo.releases && r.tag == version) &&
      (Select(repo, version).Ok? ==> Select(repo, version).value in repo.releases &&
                                     Select(repo, version).value.tag == version)
    ensures Select(repo, version).Err? ==> Select(repo, version).error == ReleaseNotFound(repo.name, version)
  {
    if version != "latest" {
      TaggedSpec(repo.releases, version);
    }
  }

  lemma {:induction false} TaggedSpec(releases: seq<Release>, tag: string)
    ensures Tagged(releases, tag).Some? <==> exists r :: r in releases && r.tag == tag
    ensures Tagged(releases, tag).Some? ==> Tagged(releases, tag).value in releases &&
                                            Tagged(releases, tag).value.tag == tag
  {
    if releases != [] && releases[0].tag != tag {
      TaggedSpec(releases[1..], tag);
      if exists r :: r in releases && r.tag == tag {
        var r :| r in releases && r.tag == tag;
        assert r in releases[1..];
      }
    }
  }

  /** `os.path.join(CURRENT_DIR, f"sources/plugins/{asset.name}")` */
  function Target(currentDir: Path, name: string): Path
  {
    JoinPath(currentDir, "sources/plugins/" + name)
  }

  /** Every asset is written directly under `PATH_TO_PLUGINS`, whatever its
      name. */
  lemma TargetInPlugins(currentDir: Path, name: string)
    ensures Target(currentDir, name) == PathToPlugins(currentDir) + name
  {
    var rel := "sources/plugins/" + name;
    assert rel[0] == 's';
    if currentDir == [] || currentDir[|currentDir| - 1] == '/' {
      assert currentDir + rel == currentDir + "sources/plugins/" + name;
    } else {
      assert currentDir + "/" + rel == currentDir + "/" + "sources/plugins/" + name;
    }
  }

  /** Where a run stands: the tree, the paths written so far, in order, and
      whether the run ended normally. */
  datatype Download = Download(fs: FileSystem, saved: seq<Path>, outcome: Result<(), Failure>)

  /** The decision part of the run: the assets to fetch, repository by
      repository, and the lookup failure that ends it, if any. Repositories
      that are not asked for are passed over. */
  datatype Plan = Plan(assets: seq<Asset>, failure: Option<Failure>)

  function PlanFor(versions: seq<(string, string)>, repos: seq<Repo>): Plan
  {
    if repos == [] then Plan([], None)
    else match Wanted(versions, repos[0].name)
      case None => PlanFor(versions, repos[1..])
      case Some(version) =>
        match Select(repos[0], version)
        case Err(e) => Plan([], Some(e))
        case Ok(release) =>
          var rest := PlanFor(versions, repos[1..]);
          Plan(release.assets + rest.assets, rest.failure)
  }

  /** A repository that is not in the version map, or is mapped to an empty
      version, contributes nothing; one whose release cannot be found ends the
      plan, and nothing after it is fetched. */
  lemma PlanSkips(versions: seq<(string, string)>, repo: Repo, rest: seq<Repo>)
    ensures Wanted(versions, repo.name).None? ==> PlanFor(versions, [repo] + rest) == PlanFor(versions, rest)
    ensures Wanted(versions, repo.name).Some? && Select(repo, Wanted(versions, repo.name).value).Err? ==>
      PlanFor(versions, [repo] + rest) == Plan([], Some(Select(repo, Wanted(versions, repo.name).value).error))
  {
    assert ([repo] + rest)[1..] == rest;
  }

  /** The two repositories `plugin_versions` names. */
  predicate IsPlugin(name: string)
  {
    name == "irida-plugin-sars-cov-2-illumina" || name == "irida-plugin-sars-cov-2-nanopore"
  }

  /** With both versions left at "latest", exactly the two plugin
      repositories are asked for, each at "latest". */
  lemma WantedDefault(name: string)
    ensures Wanted(PluginVersions("latest", "latest"), name) == if IsPlugin(name) then Some("latest") else None
  {
    var v := PluginVersions("latest", "latest");
    assert v[1..] == [("irida-plugin-sars-cov-2-nanopore", "latest")] && v[1..][1..] == [];
    assert Lookup(v[1..][1..], name) == None;
    assert Lookup(v, name) == if IsPlugin(name) then Some("latest") else None;
  }

  /** The assets of the latest releases of the plugin repositories among
      `repos`, in order. */
  function LatestPluginAssets(repos: seq<Repo>): seq<Asset>
    requires forall k :: 0 <= k < |repos| && IsPlugin(repos[k].name) ==> repos[k].latest.Some?
  {
    if repos == [] then []
    else if IsPlugin(repos[0].name) then repos[0].latest.value.assets + LatestPluginAssets(repos[1..])
    else LatestPluginAssets(repos[1..])
  }

  /** With the two plugin versions both left at "latest", and each plugin
      repository having a latest release, the plan fetches the latest
      release of each plugin repository, in the organisation's order, passes
      over every other repository and does not fail. */
  lemma {:induction false} LatestByDefault(repos: seq<Repo>)
    requires forall k :: 0 <= k < |repos| && IsPlugin(repos[k].name) ==> repos[k].latest.Some?
    ensures PlanFor(PluginVersions("latest", "latest"), repos) == Plan(LatestPluginAssets(repos), None)
  {
    if repos != [] {
      var v := PluginVersions("latest", "latest");
      assert repos == [repos[0]] + repos[1..];
      WantedDefault(repos[0].name);
      PlanSkips(v, repos[0], repos[1..]);
      LatestByDefault(repos[1..]);
    }
  }

  /** With both versions at "latest", a plugin repository without a latest
      release ends the plan with `ReleaseNotFound` for it, once every
      repository before it has been planned. */
  lemma {:induction false} NoLatestFails(repos: seq<Repo>, k: nat)
    requires k < |repos| && IsPlugin(repos[k].name) && repos[k].latest.None?
    requires forall j :: 0 <= j < k && IsPlugin(repos[j].name) ==> repos[j].latest.Some?
    ensures PlanFor(PluginVersions("latest", "latest"), repos).failure == Some(ReleaseNotFound(repos[k].name, "latest"))
  {
    var v := PluginVersions("latest", "latest");
    assert repos == [repos[0]] + repos[1..];
    WantedDefault(repos[0].name);
    PlanSkips(v, repos[0], repos[1..]);
    if k > 0 {
      NoLatestFails(repos[1..], k - 1);
    }
  }

  /** The tree after one step, and the error that ended the step, if any. */
  datatype Saved = Saved(fs: FileSystem, error: Option<OsError>)

  /** Fetching one asset: `ensure_dir` on its target, then writing it. The
      directories `ensure_dir` made stay when the write fails. */
  function SaveAsset(fs: FileSystem, currentDir: Path, asset: Asset): Saved
  {
    var target := Target(currentDir, asset.name);
    match EnsureDir(fs, target)
    case Err(e) => Saved(fs, Some(e))
    case Ok(fs1) =>
      match Create(fs1, target, asset.content)
      case Err(e) => Saved(fs1, Some(e))
      case Ok(fs2) => Saved(fs2, None)
  }

  /** Fetching one asset with a plain file name succeeds exactly when
      looking up its directory does not stop at a regular file and no
      directory stands at its target; it then holds the asset's bytes. A
      failure is `NotADirectoryError` or `IsADirectoryError`. */
  lemma SaveAssetSpec(fs: FileSystem, currentDir: Path, asset: Asset)
    requires asset.name != [] && Lacks(asset.name, '/')
    ensures var target := Target(currentDir, asset.name);
      SaveAsset(fs, currentDir, asset).error.None? <==> !MeetsFile(fs, Dirname(target)) && !IsDir(fs, target)
    ensures SaveAsset(fs, currentDir, asset).error.None? ==>
      Find(SaveAsset(fs, currentDir, asset).fs, Target(currentDir, asset.name)) == Some(File(asset.content))
    ensures SaveAsset(fs, currentDir, asset).error.Some? ==>
      SaveAsset(fs, currentDir, asset).error.value.NotADirectory? || SaveAsset(fs, currentDir, asset).error.value.IsADirectory?
  {
    var target := Target(currentDir, asset.name);
    var root := PathToPlugins(currentDir);
    TargetInPlugins(currentDir, asset.name);
    assert target[|root| - 1] == '/';
    assert target[|target| - 1] == asset.name[|asset.name| - 1];
    EnsureDirThenCreate(fs, target, asset.content);
    EnsureDirSpec(fs, target);
    if EnsureDir(fs, target).Ok? {
      var fs1 := EnsureDir(fs, target).value;
      CreateSpec(fs1, target, asset.content, target);
    }
  }

  /** Fetching assets in order, stopping at the first that cannot be written. */
  function SaveAssets(fs: FileSystem, currentDir: Path, assets: seq<Asset>): Download
    decreases assets
  {
    if assets == [] then Download(fs, [], Ok(()))
    else
      var step := SaveAsset(fs, currentDir, assets[0]);
      if step.error.Some? then Download(step.fs, [], Err(WriteFailed(step.error.value)))
      else
        var rest := SaveAssets(step.fs, currentDir, assets[1..]);
        Download(rest.fs, [Target(currentDir, assets[0].name)] + rest.saved, rest.outcome)
  }

  /** The download run over the organisation's repositories, in order. */
  function DownloadRepos(fs: FileSystem, currentDir: Path, versions: seq<(string, string)>, repos: seq<Repo>): Download
    decreases repos
  {
    if repos == [] then Download(fs, [], Ok(()))
    else match Wanted(versions, repos[0].name)
      case None => DownloadRepos(fs, currentDir, versions, repos[1..])
      case Some(version) =>
        match Select(repos[0], version)
        case Err(e) => Download(fs, [], Err(e))
        case Ok(release) =>
          var here := SaveAssets(fs, currentDir, release.assets);
          if here.outcome.Err? then here
          else
            var rest := DownloadRepos(here.fs, currentDir, versions, repos[1..]);
            Download(rest.fs, here.saved + rest.saved, rest.outcome)
  }

  /** Saving two runs of assets: the first run, then, unless it failed, the
      second from where the first left the tree. */
  lemma {:induction false} SaveAssetsAppend(fs: FileSystem, currentDir: Path, xs: seq<Asset>, ys: seq<Asset>)
    ensures AppendSaves(fs, currentDir, xs, ys)
    decreases xs
  {
    if xs == [] {
      assert xs + ys == ys;
    } else {
      var step := SaveAsset(fs, currentDir, xs[0]);
      if step.error.None? {
        SaveAssetsAppend(step.fs, currentDir, xs[1..], ys);
      }
      AppendSavesStep(fs, currentDir, xs, ys);
    }
  }

  /** Saving `xs + ys` is saving `xs`, then, unless that failed, saving `ys`
      from where `xs` left the tree. */
  ghost predicate AppendSaves(fs: FileSystem, currentDir: Path, xs: seq<Asset>, ys: seq<Asset>)
  {
    var first := SaveAssets(fs, currentDir, xs);
    SaveAssets(fs, currentDir, xs + ys) ==
      if first.outcome.Err? then first
      else
        var second := SaveAssets(first.fs, currentDir, ys);
        Download(second.fs, first.saved + second.saved, second.outcome)
  }

  /** The inductive step of `SaveAssetsAppend`. */
  lemma AppendSavesStep(fs: FileSystem, currentDir: Path, xs: seq<Asset>, ys: seq<Asset>)
    requires xs != []
    requires SaveAsset(fs, currentDir, xs[0]).error.None? ==>
               AppendSaves(SaveAsset(fs, currentDir, xs[0]).fs, currentDir, xs[1..], ys)
    ensures AppendSaves(fs, currentDir, xs, ys)
  {
    var step := SaveAsset(fs, currentDir, xs[0]);
    SaveAssetsAfter(fs, currentDir, xs, ys);
    if step.error.None? {
      var first := SaveAssets(step.fs, currentDir, xs[1..]);
      AppendAssoc([Target(currentDir, xs[0].name)], first.saved, SaveAssets(first.fs, currentDir, ys).saved);
    }
  }

  lemma AppendAssoc(a: seq<Path>, b: seq<Path>, c: seq<Path>)
    ensures a + (b + c) == a + b + c
  {
  }

  /** Saving `xs + ys` and saving `xs` both begin with the first asset of
      `xs`. */
  lemma SaveAssetsAfter(fs: FileSystem, currentDir: Path, xs: seq<Asset>, ys: seq<Asset>)
    requires xs != []
    ensures var step := SaveAsset(fs, currentDir, xs[0]);
      && (step.error.Some? ==>
            SaveAssets(fs, currentDir, xs + ys) == SaveAssets(fs, currentDir, xs) == Download(step.fs, [], Err(WriteFailed(step.error.value))))
      && (step.error.None? ==>
            var all, first := SaveAssets(step.fs, currentDir, xs[1..] + ys), SaveAssets(step.fs, currentDir, xs[1..]);
            var t := Target(currentDir, xs[0].name);
            && SaveAssets(fs, currentDir, xs + ys) == Download(all.fs, [t] + all.saved, all.outcome)
            && SaveAssets(fs, currentDir, xs) == Download(first.fs, [t] + first.saved, first.outcome))
  {
    assert (xs + ys)[0] == xs[0] && (xs + ys)[1..] == xs[1..] + ys;
  }

  /** The run is its plan carried out: the planned assets are saved in order,
      and a lookup failure ends the run only after every asset planned before
      it has been saved. Which release is chosen never depends on the tree. */
  lemma {:induction false} DownloadFollowsPlan(fs: FileSystem, currentDir: Path, versions: seq<(string, string)>, repos: seq<Repo>)
    ensures var plan := PlanFor(versions, repos);
      var saving := SaveAssets(fs, currentDir, plan.assets);
      DownloadRepos(fs, currentDir, versions, repos) ==
        if saving.outcome.Err? || plan.failure.None? then saving
        else Download(saving.fs, saving.saved, Err(plan.failure.value))
    decreases repos
  {
    if repos != [] {
      var rest := repos[1..];
      match Wanted(versions, repos[0].name)
      case None =>
        DownloadFollowsPlan(fs, currentDir, versions, rest);
      case Some(version) =>
        match Select(repos[0], version)
        case Err(e) =>
        case Ok(release) =>
          var here := SaveAssets(fs, currentDir, release.assets);
          SaveAssetsAppend(fs, currentDir, release.assets, PlanFor(versions, rest).assets);
          if here.outcome.Ok? {
            DownloadFollowsPlan(here.fs, currentDir, versions, rest);
          }
    }
  }

  /** Every asset that was fetched was written to its target, in order; a
      completed run wrote every asset it fetched. */
  lemma {:induction false} SaveAssetsSaved(fs: FileSystem, currentDir: Path, assets: seq<Asset>)
    ensures var r := SaveAssets(fs, currentDir, assets);
      |r.saved| <= |assets| &&
      (r.outcome.Ok? <==> |r.saved| == |assets|) &&
      forall k :: 0 <= k < |r.saved| ==> r.saved[k] == PathToPlugins(currentDir) + assets[k].name
    decreases assets
  {
    if assets != [] {
      TargetInPlugins(currentDir, assets[0].name);
      if SaveAsset(fs, currentDir, assets[0]).error.None? {
        var fs1 := SaveAsset(fs, currentDir, assets[0]).fs;
        SaveAssetsSaved(fs1, currentDir, assets[1..]);
        var rest := SaveAssets(fs1, currentDir, assets[1..]);
        forall k | 0 < k < |rest.saved| + 1
          ensures SaveAssets(fs, currentDir, assets).saved[k] == PathToPlugins(currentDir) + assets[k].name
        {
          assert assets[k] == assets[1..][k - 1];
        }
      }
    }
  }

  /** Saving assets leaves alone every file that is none of their targets. */
  lemma {:induction false} SaveAssetsFrame(fs: FileSystem, currentDir: Path, assets: seq<Asset>, q: Path)
    requires IsFile(fs, q)
    requires forall k :: 0 <= k < |assets| ==> Target(currentDir, assets[k].name) != q
    ensures Find(SaveAssets(fs, currentDir, assets).fs, q) == Find(fs, q)
    decreases assets
  {
    if assets != [] {
      var target := Target(currentDir, assets[0].name);
      assert target != q;
      if EnsureDir(fs, target).Ok? {
        var fs0 := EnsureDir(fs, target).value;
        EnsureDirKeepsFile(fs, target, q);
        CreateSpec(fs0, target, assets[0].content, q);
        var fs1 := SaveAsset(fs, currentDir, assets[0]).fs;
        assert Find(fs1, q) == Find(fs, q);
        if SaveAsset(fs, currentDir, assets[0]).error.None? {
          forall k | 0 <= k < |assets[1..]|
            ensures Target(currentDir, assets[1..][k].name) != q
          {
            assert assets[1..][k] == assets[k + 1];
          }
          SaveAssetsFrame(fs1, currentDir, assets[1..], q);
        }
      }
    }
  }

  /** Assets named apart from the first are saved at other targets. */
  lemma TargetsApart(currentDir: Path, assets: seq<Asset>)
    requires assets != []
    requires forall j :: 0 < j < |assets| ==> assets[j].name != assets[0].name
    ensures forall j :: 0 <= j < |assets[1..]| ==>
              Target(currentDir, assets[1..][j].name) != Target(currentDir, assets[0].name)
  {
    forall j | 0 <= j < |assets[1..]|
      ensures Target(currentDir, assets[1..][j].name) != Target(currentDir, assets[0].name)
    {
      assert assets[1..][j] == assets[j + 1];
      TargetInPlugins(currentDir, assets[0].name);
      TargetInPlugins(currentDir, assets[j + 1].name);
      var root := PathToPlugins(currentDir);
      assert (root + assets[j + 1].name)[|root|..] == assets[j + 1].name;
      assert (root + assets[0].name)[|root|..] == assets[0].name;
    }
  }

  /** After a completed run, each asset's target holds that asset's bytes,
      unless a later asset of the same name overwrote it. */
  lemma {:induction false} SaveAssetsContent(fs: FileSystem, currentDir: Path, assets: seq<Asset>, k: nat)
    requires k < |assets| && SaveAssets(fs, currentDir, assets).outcome.Ok?
    requires forall j :: k < j < |assets| ==> assets[j].name != assets[k].name
    ensures Find(SaveAssets(fs, currentDir, assets).fs, Target(currentDir, assets[k].name)) == Some(File(assets[k].content))
    decreases assets
  {
    var target := Target(currentDir, assets[0].name);
    var fs0 := EnsureDir(fs, target).value;
    var fs1 := SaveAsset(fs, currentDir, assets[0]).fs;
    if k == 0 {
      CreateSpec(fs0, target, assets[0].content, target);
      TargetsApart(currentDir, assets);
      SaveAssetsFrame(fs1, currentDir, assets[1..], target);
    } else {
      forall j | k - 1 < j < |assets[1..]|
        ensures assets[1..][j].name != assets[1..][k - 1].name
      {
        assert assets[1..][j] == assets[j + 1];
      }
      SaveAssetsContent(fs1, currentDir, assets[1..], k - 1);
    }
  }

  /** The run over `repos[i..]` begins with `repos[i]`. */
  lemma DownloadReposAt(fs: FileSystem, currentDir: Path, versions: seq<(string, string)>, repos: seq<Repo>, i: nat)
    requires i < |repos|
    ensures var version := Wanted(versions, repos[i].name);
      DownloadRepos(fs, currentDir, versions, repos[i..]) ==
        if version.None? then DownloadRepos(fs, currentDir, versions, repos[i + 1..])
        else if Select(repos[i], version.value).Err? then Download(fs, [], Err(Select(repos[i], version.value).error))
        else
          var here := SaveAssets(fs, currentDir, Select(repos[i], version.value).value.assets);
          if here.outcome.Err? then here
          else
            var rest := DownloadRepos(here.fs, currentDir, versions, repos[i + 1..]);
            Download(rest.fs, here.saved + rest.saved, rest.outcome)
  {
    assert repos[i..][0] == repos[i] && repos[i..][1..] == repos[i + 1..];
  }

  /** `download_jar`: for each repository of the organisation, choose the
      release asked for and write each of its assets under the plugin
      directory. */
  method DownloadJar(store: PluginStore, currentDir: Path, versions: seq<(string, string)>, repos: seq<Repo>)
    returns (saved: seq<Path>, outcome: Result<(), Failure>)
    modifies store
    ensures Download(store.fs, saved, outcome) == DownloadRepos(old(store.fs), currentDir, versions, repos)
  {
    saved := [];
    var i := 0;
    while i < |repos|
      invariant 0 <= i <= |repos|
      invariant DownloadRepos(old(store.fs), currentDir, versions, repos) ==
        var rest := DownloadRepos(store.fs, currentDir, versions, repos[i..]);
        Download(rest.fs, saved + rest.saved, rest.outcome)
    {
      var repo := repos[i];
      DownloadReposAt(store.fs, currentDir, versions, repos, i);
      var version := Wanted(versions, repo.name);
      if version.Some? {
        var release := Select(repo, version.value);
        if release.Err? {
          return saved, Err(release.error);
        }
        ghost var fs0 := store.fs;
        var more, result := SaveRelease(store, currentDir, release.value.assets);
        assert Download(store.fs, more, result) == SaveAssets(fs0, currentDir, release.value.assets);
        if result.Err? {
          return saved + more, result;
        }
        AppendAssoc(saved, more, DownloadRepos(store.fs, currentDir, versions, repos[i + 1..]).saved);
        saved := saved + more;
      }
      i := i + 1;
    }
    assert repos[i..] == [];
    outcome := Ok(());
  }

  /** The body of the inner loop of `download_jar`: `ensure_dir` on the
      asset's target, then writing the asset there. */
  method SaveOne(store: PluginStore, currentDir: Path, asset: Asset) returns (r: Result<Path, OsError>)
    modifies store
    ensures SaveAsset(old(store.fs), currentDir, asset).fs == store.fs
    ensures r.Ok? ==> SaveAsset(old(store.fs), currentDir, asset).error == None && r.value == Target(currentDir, asset.name)
    ensures r.Err? ==> SaveAsset(old(store.fs), currentDir, asset).error == Some(r.error)
  {
    var fileName := Target(currentDir, asset.name);
    var made := store.EnsureDir(fileName);
    if made.Err? {
      return Err(made.error);
    }
    var written := store.Save(fileName, asset.content);
    if written.Err? {
      return Err(written.error);
    }
    return Ok(fileName);
  }

  /** The inner loop of `download_jar`, over the assets of one release. */
  method SaveRelease(store: PluginStore, currentDir: Path, assets: seq<Asset>)
    returns (saved: seq<Path>, outcome: Result<(), Failure>)
    modifies store
    ensures Download(store.fs, saved, outcome) == SaveAssets(old(store.fs), currentDir, assets)
  {
    saved := [];
    var j := 0;
    while j < |assets|
      invariant 0 <= j <= |assets|
      invariant SaveAssets(old(store.fs), currentDir, assets) ==
        var rest := SaveAssets(store.fs, currentDir, assets[j..]);
        Download(rest.fs, saved + rest.saved, rest.outcome)
    {
      var asset := assets[j];
      assert assets[j..][0] == asset && assets[j..][1..] == assets[j + 1..];
      var r := SaveOne(store, currentDir, asset);
      if r.Err? {
        return saved, Err(WriteFailed(r.error));
      }
      assert saved + ([r.value] + SaveAssets(store.fs, currentDir, assets[j + 1..]).saved)
          == saved + [r.value] + SaveAssets(store.fs, currentDir, assets[j + 1..]).saved;
      saved := saved + [r.value];
      j := j + 1;
    }
    assert saved + [] == saved;
    outcome := Ok(());
  }
}
