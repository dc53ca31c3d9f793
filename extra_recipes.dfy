/**
 * The "extra_recipes" Project Browser source: the object that owns the
 * catalog cache entry and answers catalog requests. A cache miss scans
 * the filesystem, builds and sorts the entries and stores them; a hit
 * answers from the stored list.
 */
module ExtraRecipes {

  import opened Wrappers
  import opened PhpStrings
  import opened PhpArrays
  import opened Catalog
  import opened Query

  class ExtraRecipesSource {
    /** The application root the host passes in. */
    const appRoot: string
    /** The host's configured recipes directory, if any. */
    const recipesPath: Option<string>
    /** The shared logo every entry shows. */
    const logoUrl: string
    /** The URIs the host's `Url::fromUri` accepts; it throws on the others. */
    const validUri: string -> bool
    /** The cache bin's entry under this plugin's id: None is a miss. */
    var cached: Option<seq<Project>>

    /** Every list this plugin has cached is sorted and lists only prefixed recipes. */
    ghost predicate Valid()
      reads this
    {
      cached.Some? ==> WellFormedCatalog(cached.value)
    }

    constructor (appRoot: string, recipesPath: Option<string>, logoUrl: string, validUri: string -> bool,
                 cached: Option<seq<Project>>)
      requires cached.Some? ==> WellFormedCatalog(cached.value)
      ensures Valid()
      ensures this.appRoot == appRoot && this.recipesPath == recipesPath && this.logoUrl == logoUrl
      ensures this.validUri == validUri && this.cached == cached
    {
      this.appRoot := appRoot;
      this.recipesPath := recipesPath;
      this.logoUrl := logoUrl;
      this.validUri := validUri;
      this.cached := cached;
    }

    /** The directories the recipe.yml walk starts from. */
    method GetFinder(fs: Filesystem) returns (roots: seq<string>)
      ensures roots == SearchRoots(recipesPath, appRoot, fs.realpath)
    {
      var searchIn: seq<string> := [];
      var recipesDir := recipesPath;
      if recipesDir.Some? && IsTruthy(recipesDir.value) {
        var dir := recipesDir.value;
        if Basename(dir) == NamePlaceholder {
          dir := Dirname(dir);
        }
        var resolved := fs.realpath(dir);
        if resolved.Some? {
          searchIn := searchIn + [resolved.value];
        }
      }
      assert searchIn == OptionToSeq(ResolvedRecipesDir(recipesPath, fs.realpath));
      var projectRecipes := fs.realpath(appRoot + ProjectRecipesSuffix);
      if projectRecipes.Some? {
        searchIn := searchIn + [projectRecipes.value];
      }
      if searchIn == [] {
        searchIn := searchIn + [appRoot];
      }
      roots := ArrayUnique(searchIn);
    }

    /** The foreach over the walk's results, appending one entry per prefixed recipe. */
    method CollectProjects(files: seq<RecipeFile>) returns (r: Result<seq<Project>, Error>)
      ensures r == BuildEntries(files, logoUrl, validUri)
    {
      var projects: seq<Project> := [];
      var i := 0;
      while i < |files|
        invariant 0 <= i <= |files|
        invariant BuildEntries(files[..i], logoUrl, validUri) == Ok(projects)
      {
        var file := files[i];
        assert files[..i + 1][..i] == files[..i];
        var machineName := Basename(file.dir);
        if !StartsWith(machineName, RecipePrefix) {
          i := i + 1;
          continue;
        }
        if file.recipe.Malformed? {
          BuildEntriesAborts(files, i + 1, logoUrl, validUri);
          return Err(MalformedRecipe(file.dir));
        }
        var metadata := GetPackageMetadata(file.composer);
        if metadata.homepage.Some? && IsTruthy(metadata.homepage.value) && !validUri(metadata.homepage.value) {
          BuildEntriesAborts(files, i + 1, logoUrl, validUri);
          return Err(InvalidHomepage(file.dir));
        }
        projects := projects + [MakeProject(file, logoUrl)];
        i := i + 1;
      }
      assert files[..i] == files;
      r := Ok(projects);
    }

    /** usort($projects, strcasecmp on the titles), in place. */
    static method SortProjects(a: array<Project>)
      modifies a
      ensures a[..] == UsortByTitle(old(a[..]))
    {
      ghost var s := a[..];
      var i := 0;
      while i < a.Length
        invariant 0 <= i <= a.Length
        invariant a[..i] == UsortByTitle(s[..i])
        invariant a[i..] == s[i..]
      {
        assert s[..i + 1][..i] == s[..i];
        InsertNext(a, i);
        i := i + 1;
      }
      assert a[..a.Length] == a[..] && s[..a.Length] == s;
    }

    /** One pass of the sort: moves a[i] into place among a[..i], shifting larger titles up. */
    static method InsertNext(a: array<Project>, i: nat)
      requires i < a.Length
      modifies a
      ensures a[..i + 1] == InsertByTitle(old(a[..i]), old(a[i]))
      ensures a[i + 1..] == old(a[i + 1..])
    {
      var x := a[i];
      ghost var t := a[..i];
      ghost var rest := a[i + 1..];
      var j := i;
      assert t[..j] == t && t[j..] == [];
      assert InsertByTitle(t, x) + [] == InsertByTitle(t, x);
      while j > 0 && CompareTitles(a[j - 1], x) > 0
        invariant 0 <= j <= i
        invariant a[..j] == t[..j]
        invariant a[j + 1..i + 1] == t[j..]
        invariant a[i + 1..] == rest
        invariant InsertByTitle(t, x) == InsertByTitle(t[..j], x) + t[j..]
      {
        InsertByTitleShift(t, x, j);
        ghost var s := a[..];
        a[j] := a[j - 1];
        assert a[..] == s[j := s[j - 1]];
        ShiftRight(s, t, rest, j, i);
        j := j - 1;
      }
      InsertByTitleStop(t, x, j);
      ghost var s := a[..];
      a[j] := x;
      assert a[..] == s[j := x];
      FillHole(s, t, rest, x, j, i);
    }

    /** One step of the insertion loop: copying slot j - 1 into slot j moves the hole one place left. */
    static lemma ShiftRight(s: seq<Project>, t: seq<Project>, rest: seq<Project>, j: nat, i: nat)
      requires 0 < j <= i < |s| && |t| == i
      requires s[..j] == t[..j] && s[j + 1..i + 1] == t[j..] && s[i + 1..] == rest
      ensures s[j := s[j - 1]][..j - 1] == t[..j - 1]
      ensures s[j := s[j - 1]][j..i + 1] == t[j - 1..]
      ensures s[j := s[j - 1]][i + 1..] == rest
    {
      var u := s[j := s[j - 1]];
      assert u[j..i + 1] == [s[j - 1]] + s[j + 1..i + 1];
      assert t[j - 1..] == [t[j - 1]] + t[j..];
    }

    /** The end of the insertion loop: writing the saved element into the hole. */
    static lemma FillHole(s: seq<Project>, t: seq<Project>, rest: seq<Project>, x: Project, j: nat, i: nat)
      requires j <= i < |s| && |t| == i
      requires s[..j] == t[..j] && s[j + 1..i + 1] == t[j..] && s[i + 1..] == rest
      ensures s[j := x][..i + 1] == t[..j] + [x] + t[j..]
      ensures s[j := x][i + 1..] == rest
    {
      var u := s[j := x];
      assert u[..i + 1] == u[..j] + [u[j]] + u[j + 1..i + 1];
    }

    /** The cache-miss branch of getProjects: walk, build, sort. */
    method Scan(fs: Filesystem) returns (r: Result<seq<Project>, Error>)
      ensures r == ScanCatalog(recipesPath, appRoot, logoUrl, validUri, fs)
    {
      var roots := GetFinder(fs);
      var built := CollectProjects(fs.findRecipes(roots));
      if built.Err? {
        return Err(built.error);
      }
      var projects := built.value;
      var a := new Project[|projects|](k requires 0 <= k < |projects| => projects[k]);
      assert a[..] == projects;
      SortProjects(a);
      r := Ok(a[..]);
    }

    /**
     * getProjects: the cached catalog, or a fresh scan stored in the cache,
     * then the query stage.
     */
    method GetProjects(fs: Filesystem, query: Query) returns (r: Result<ResultsPage, Error>)
      requires Valid()
      modifies this
      ensures Valid()
      ensures old(cached).Some? ==> cached == old(cached) && r == RunQuery(old(cached).value, query)
      ensures old(cached).None? ==>
                match ScanCatalog(recipesPath, appRoot, logoUrl, validUri, fs)
                case Ok(catalog) => cached == Some(catalog) && r == RunQuery(catalog, query)
                case Err(e) => cached == None && r == Err(e)
    {
      var projects: seq<Project>;
      if cached.Some? {
        projects := cached.value;
      } else {
        var scanned := Scan(fs);
        if scanned.Err? {
          return Err(scanned.error);
        }
        ScanCatalogWellFormed(recipesPath, appRoot, logoUrl, validUri, fs);
        projects := scanned.value;
        cached := Some(projects);
      }
      r := RunQuery(projects, query);
    }

    /**
     * Two requests with the same query and an unchanged filesystem get the
     * same answer, and the second one does not rescan unless the first one
     * failed before caching.
     */
    method RepeatRequest(fs: Filesystem, query: Query) returns (first: Result<ResultsPage, Error>, second: Result<ResultsPage, Error>)
      requires Valid()
      modifies this
      ensures Valid()
      ensures first == second
      ensures first.Ok? ==> cached.Some?
    {
      first := GetProjects(fs, query);
      second := GetProjects(fs, query);
    }
  }
}
