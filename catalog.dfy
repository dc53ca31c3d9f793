/**
 * The catalog of "extra_" recipes: the entry built for each discovered
 * recipe.yml, the Composer metadata defaults, the search roots, and the
 * order the catalog is kept in (a stable sort on the case-folded title).
 *
 * Everything here is a pure specification; the plugin class in
 * extra_recipes.dfy computes the same values step by step.
 */
module Catalog {

  import opened Wrappers
  import opened PhpStrings
  import opened PhpArrays

  /** Only recipe directories whose name starts with this are listed. */
  const RecipePrefix: string := "extra_"
  /** Package name used when composer.json gives none. */
  const UnknownPackage: string := "extra/unknown"
  /** Placeholder a configured recipes path may end in. */
  const NamePlaceholder: string := "{$name}"
  /** Relative location of the project-level recipes directory. */
  const ProjectRecipesSuffix: string := "/../recipes"

  datatype ProjectType = Recipe

  /** One catalog entry; the translation layer is the identity and URLs are strings. */
  datatype Project = Project(
    logo: string,
    isCompatible: bool,
    machineName: string,
    summary: Option<string>,
    title: string,
    packageName: string,
    url: Option<string>,
    kind: ProjectType)

  /** What the YAML parser makes of a recipe.yml: a mapping, null, or a parse error. */
  datatype YamlDocument = Mapping(fields: map<string, string>) | Null | Malformed

  /** A sibling composer.json: missing, not valid JSON (decodes to null), or decoded. */
  datatype ComposerFile = Absent | Unparsable | Parsed(fields: map<string, string>)

  /** One recipe.yml found by the directory walk: its directory and the decoded files. */
  datatype RecipeFile = RecipeFile(dir: string, recipe: YamlDocument, composer: ComposerFile)

  /** The exceptions that escape a catalog request. */
  datatype Error =
    | MalformedRecipe(dir: string)   // thrown by the YAML parser, never caught
    | InvalidHomepage(dir: string)   // thrown by Url::fromUri for the composer.json homepage, never caught
    | InvalidChunkSize(size: int)    // array_chunk with a size below 1

  /** The host's filesystem: `realpath` and the recipe.yml walk over a list of roots. */
  datatype Filesystem = Filesystem(
    realpath: string -> Option<string>,
    findRecipes: seq<string> -> seq<RecipeFile>)

  /** PHP `$m[$key] ?? NULL` on a decoded mapping. */
  function Lookup(m: map<string, string>, key: string): (r: Option<string>)
    ensures r.Some? <==> key in m
    ensures r.Some? ==> r.value == m[key]
  {
    if key in m then Some(m[key]) else None
  }

  // ---------------------------------------------------------------------
  // getPackageMetadata
  // ---------------------------------------------------------------------

  datatype PackageMetadata = PackageMetadata(packageName: string, homepage: Option<string>)

  /**
   * Package name and homepage of a recipe: taken from composer.json when
   * it decodes and has the key, otherwise "extra/unknown" and none.
   */
  function GetPackageMetadata(composer: ComposerFile): PackageMetadata
  {
    match composer
    case Parsed(fields) =>
      var name := Lookup(fields, "name");
      PackageMetadata(if name.Some? then name.value else UnknownPackage, Lookup(fields, "homepage"))
    case _ => PackageMetadata(UnknownPackage, None)
  }

  /**
   * A key present in a decoded composer.json always wins over the
   * default; a missing or undecodable file gives "extra/unknown" and no
   * homepage.
   */
  lemma PackageMetadataDefaults(composer: ComposerFile)
    ensures var m := GetPackageMetadata(composer);
            && (composer.Parsed? && "name" in composer.fields ==> m.packageName == composer.fields["name"])
            && (!(composer.Parsed? && "name" in composer.fields) ==> m.packageName == UnknownPackage)
            && (composer.Parsed? && "homepage" in composer.fields ==> m.homepage == Some(composer.fields["homepage"]))
            && (!(composer.Parsed? && "homepage" in composer.fields) ==> m.homepage == None)
  {
  }

  // ---------------------------------------------------------------------
  // One entry per recipe directory
  // ---------------------------------------------------------------------

  function MachineName(file: RecipeFile): string
  {
    Basename(file.dir)
  }

  /** The prefix test that decides whether a recipe is listed at all. */
  predicate IsExtra(file: RecipeFile)
  {
    StartsWith(MachineName(file), RecipePrefix)
  }

  /** `Yaml::decode(...) ?? []`; a parse error never reaches here (see BuildEntries). */
  function RecipeFields(doc: YamlDocument): map<string, string>
  {
    if doc.Mapping? then doc.fields else map[]
  }

  /**
   * The entry for one recipe directory: the title falls back to the
   * machine name, the summary and the URL are set only from truthy
   * strings, and the package data comes from composer.json.
   */
  function MakeProject(file: RecipeFile, logo: string): Project
  {
    var machineName := MachineName(file);
    var metadata := GetPackageMetadata(file.composer);
    var recipe := RecipeFields(file.recipe);
    var name := Lookup(recipe, "name");
    var description := Lookup(recipe, "description");
    Project(
      logo := logo,
      isCompatible := true,
      machineName := machineName,
      summary := if description.Some? && IsTruthy(description.value) then description else None,
      title := if name.Some? then name.value else machineName,
      packageName := metadata.packageName,
      url := if metadata.homepage.Some? && IsTruthy(metadata.homepage.value) then metadata.homepage else None,
      kind := Recipe)
  }

  /**
   * The title falls back to the machine name, the summary and the URL
   * are set only from truthy strings, and the package data comes from
   * composer.json.
   */
  lemma EntryDefaults(file: RecipeFile, logo: string)
    ensures var p := MakeProject(file, logo);
            var recipe := file.recipe;
            var metadata := GetPackageMetadata(file.composer);
            && p.machineName == Basename(file.dir)
            && (recipe.Mapping? && "name" in recipe.fields ==> p.title == recipe.fields["name"])
            && (!(recipe.Mapping? && "name" in recipe.fields) ==> p.title == p.machineName)
            && (p.summary.Some? <==> recipe.Mapping? && "description" in recipe.fields
                                     && IsTruthy(recipe.fields["description"]))
            && (p.summary.Some? ==> p.summary.value == recipe.fields["description"])
            && p.packageName == metadata.packageName
            && (p.url.Some? <==> metadata.homepage.Some? && IsTruthy(metadata.homepage.value))
            && (p.url.Some? ==> p.url == metadata.homepage)
            && p.isCompatible && p.kind == Recipe && p.logo == logo
  {
  }

  /**
   * A truthy homepage that the host's URL factory refuses (`validUri` says
   * which URIs `Url::fromUri` accepts).
   */
  predicate BadHomepage(file: RecipeFile, validUri: string -> bool)
  {
    var homepage := GetPackageMetadata(file.composer).homepage;
    homepage.Some? && IsTruthy(homepage.value) && !validUri(homepage.value)
  }

  /**
   * The entries of the recipe files in walk order, skipping directories
   * without the prefix; the first listed recipe whose YAML does not
   * parse, or whose homepage is not a valid URI, aborts the whole build.
   * The YAML is decoded before the entry's URL is made, so a recipe with
   * both faults reports the YAML.
   */
  function BuildEntries(files: seq<RecipeFile>, logo: string, validUri: string -> bool): Result<seq<Project>, Error>
  {
    if files == [] then Ok([])
    else
      var file := files[|files| - 1];
      match BuildEntries(files[..|files| - 1], logo, validUri)
      case Err(e) => Err(e)
      case Ok(projects) =>
        if !IsExtra(file) then Ok(projects)
        else if file.recipe.Malformed? then Err(MalformedRecipe(file.dir))
        else if BadHomepage(file, validUri) then Err(InvalidHomepage(file.dir))
        else Ok(projects + [MakeProject(file, logo)])
  }

  function MakeProjects(files: seq<RecipeFile>, logo: string): (r: seq<Project>)
    ensures |r| == |files|
    ensures forall j :: 0 <= j < |files| ==> r[j] == MakeProject(files[j], logo)
  {
    seq(|files|, j requires 0 <= j < |files| => MakeProject(files[j], logo))
  }

  lemma MakeProjectsSnoc(files: seq<RecipeFile>, file: RecipeFile, logo: string)
    ensures MakeProjects(files + [file], logo) == MakeProjects(files, logo) + [MakeProject(file, logo)]
  {
  }

  /** A listed recipe whose recipe.yml does not parse or whose homepage is refused. */
  predicate Rejected(file: RecipeFile, validUri: string -> bool)
  {
    IsExtra(file) && (file.recipe.Malformed? || BadHomepage(file, validUri))
  }

  /** The exception a rejected recipe raises: the YAML parser's comes first. */
  function RejectionOf(file: RecipeFile): Error
  {
    if file.recipe.Malformed? then MalformedRecipe(file.dir) else InvalidHomepage(file.dir)
  }

  /** The build succeeds exactly when no listed recipe is rejected. */
  lemma {:induction false} BuildEntriesOk(files: seq<RecipeFile>, logo: string, validUri: string -> bool)
    ensures BuildEntries(files, logo, validUri).Ok? <==> forall i :: 0 <= i < |files| ==> !Rejected(files[i], validUri)
  {
    if files != [] {
      var front := files[..|files| - 1];
      BuildEntriesOk(front, logo, validUri);
      if !BuildEntries(front, logo, validUri).Ok? {
        var i :| 0 <= i < |front| && Rejected(front[i], validUri);
        assert Rejected(files[i], validUri);
      }
    }
  }

  /**
   * A successful build holds one entry per listed recipe, in walk order;
   * directories without the prefix contribute nothing.
   */
  lemma {:induction false} BuildEntriesContents(files: seq<RecipeFile>, logo: string, validUri: string -> bool)
    requires BuildEntries(files, logo, validUri).Ok?
    ensures BuildEntries(files, logo, validUri).value == MakeProjects(ArrayFilter(files, IsExtra), logo)
  {
    if files != [] {
      var front, file := files[..|files| - 1], files[|files| - 1];
      BuildEntriesContents(front, logo, validUri);
      ArrayFilterSnoc(files, IsExtra);
      var extras := ArrayFilter(front, IsExtra);
      if IsExtra(file) {
        MakeProjectsSnoc(extras, file, logo);
      } else {
        assert extras + [] == extras;
      }
    }
  }

  /** The first unreadable recipe aborts the build: nothing after it changes the outcome. */
  lemma {:induction false} BuildEntriesAborts(files: seq<RecipeFile>, k: nat, logo: string, validUri: string -> bool)
    requires k <= |files| && BuildEntries(files[..k], logo, validUri).Err?
    ensures BuildEntries(files, logo, validUri) == BuildEntries(files[..k], logo, validUri)
    decreases |files| - k
  {
    if k < |files| {
      assert files[..k + 1][..k] == files[..k];
      BuildEntriesAborts(files, k + 1, logo, validUri);
    } else {
      assert files[..k] == files;
    }
  }

  /**
   * A failed build reports the first rejected recipe of the walk: the
   * YAML error if its recipe.yml does not parse, else its homepage.
   */
  lemma {:induction false} BuildEntriesError(files: seq<RecipeFile>, logo: string, validUri: string -> bool)
    requires BuildEntries(files, logo, validUri).Err?
    ensures exists i :: 0 <= i < |files| && Rejected(files[i], validUri)
                        && (forall k :: 0 <= k < i ==> !Rejected(files[k], validUri))
                        && BuildEntries(files, logo, validUri).error == RejectionOf(files[i])
  {
    var front, file := files[..|files| - 1], files[|files| - 1];
    if BuildEntries(front, logo, validUri).Err? {
      BuildEntriesError(front, logo, validUri);
      var i :| 0 <= i < |front| && Rejected(front[i], validUri)
               && (forall k :: 0 <= k < i ==> !Rejected(front[k], validUri))
               && BuildEntries(front, logo, validUri).error == RejectionOf(front[i]);
      assert files[i] == front[i];
      assert forall k :: 0 <= k < i ==> files[k] == front[k];
    } else {
      BuildEntriesOk(front, logo, validUri);
      assert files[|files| - 1] == file;
      assert forall k :: 0 <= k < |front| ==> files[k] == front[k];
    }
  }

  /** Every entry of a successful build is named after its directory and carries the prefix. */
  lemma EntriesAreExtra(files: seq<RecipeFile>, logo: string, validUri: string -> bool)
    requires BuildEntries(files, logo, validUri).Ok?
    ensures forall p :: p in BuildEntries(files, logo, validUri).value ==> StartsWith(p.machineName, RecipePrefix)
    ensures forall p :: p in BuildEntries(files, logo, validUri).value ==>
              exists i :: 0 <= i < |files| && IsExtra(files[i]) && p == MakeProject(files[i], logo)
  {
    BuildEntriesContents(files, logo, validUri);
    var extras := ArrayFilter(files, IsExtra);
    ArrayFilterSubset(files, IsExtra);
    forall p | p in BuildEntries(files, logo, validUri).value
      ensures StartsWith(p.machineName, RecipePrefix)
      ensures exists i :: 0 <= i < |files| && IsExtra(files[i]) && p == MakeProject(files[i], logo)
    {
      var j :| 0 <= j < |extras| && p == MakeProject(extras[j], logo);
      assert extras[j] in multiset(extras);
      var i :| 0 <= i < |files| && files[i] == extras[j];
    }
  }

  // ---------------------------------------------------------------------
  // usort with strcasecmp on the title
  // ---------------------------------------------------------------------

  /** The comparison callback given to usort. */
  function CompareTitles(a: Project, b: Project): int
  {
    StrCaseCmp(a.title, b.title)
  }

  predicate SortedByTitle(s: seq<Project>)
  {
    forall i, j :: 0 <= i < j < |s| ==> CompareTitles(s[i], s[j]) <= 0
  }

  /**
   * Insert x after the last element of s that does not compare greater
   * than it; one step of a stable insertion sort.
   */
  function InsertByTitle(s: seq<Project>, x: Project): seq<Project>
  {
    if s == [] then [x]
    else if CompareTitles(s[|s| - 1], x) > 0 then InsertByTitle(s[..|s| - 1], x) + [s[|s| - 1]]
    else s + [x]
  }

  /** One shift of the insertion: t[j - 1] compares greater than x, so it ends up after x. */
  lemma InsertByTitleShift(t: seq<Project>, x: Project, j: nat)
    requires 0 < j <= |t| && CompareTitles(t[j - 1], x) > 0
    ensures InsertByTitle(t[..j], x) + t[j..] == InsertByTitle(t[..j - 1], x) + t[j - 1..]
  {
    assert t[..j][..j - 1] == t[..j - 1];
    assert t[j - 1..] == [t[j - 1]] + t[j..];
  }

  /** Where the insertion stops: x goes right after t[..j]. */
  lemma InsertByTitleStop(t: seq<Project>, x: Project, j: nat)
    requires j <= |t| && (j == 0 || CompareTitles(t[j - 1], x) <= 0)
    ensures InsertByTitle(t[..j], x) + t[j..] == t[..j] + [x] + t[j..]
  {
  }

  /** The outcome of PHP 8's stable usort with the title comparison. */
  function UsortByTitle(s: seq<Project>): seq<Project>
  {
    if s == [] then [] else InsertByTitle(UsortByTitle(s[..|s| - 1]), s[|s| - 1])
  }

  lemma CompareTitlesAntisymmetric(a: Project, b: Project)
    ensures CompareTitles(a, b) == -CompareTitles(b, a)
  {
    LexCompareAntisymmetric(FoldCase(a.title), FoldCase(b.title));
  }

  lemma CompareTitlesTransitive(a: Project, b: Project, c: Project)
    requires CompareTitles(a, b) <= 0 && CompareTitles(b, c) <= 0
    ensures CompareTitles(a, c) <= 0
  {
    LexCompareTransitive(FoldCase(a.title), FoldCase(b.title), FoldCase(c.title));
  }

  lemma {:induction false} InsertByTitlePermutes(s: seq<Project>, x: Project)
    ensures multiset(InsertByTitle(s, x)) == multiset(s) + multiset{x}
  {
    if s != [] && CompareTitles(s[|s| - 1], x) > 0 {
      InsertByTitlePermutes(s[..|s| - 1], x);
      MultisetOfLast(s);
    }
  }

  /** Inserting below a bound keeps every element below it. */
  lemma {:induction false} InsertByTitleBelow(s: seq<Project>, x: Project, bound: Project)
    requires forall i :: 0 <= i < |s| ==> CompareTitles(s[i], bound) <= 0
    requires CompareTitles(x, bound) <= 0
    ensures forall i :: 0 <= i < |InsertByTitle(s, x)| ==> CompareTitles(InsertByTitle(s, x)[i], bound) <= 0
  {
    if s != [] && CompareTitles(s[|s| - 1], x) > 0 {
      InsertByTitleBelow(s[..|s| - 1], x, bound);
    }
  }

  lemma {:induction false} InsertByTitleSorted(s: seq<Project>, x: Project)
    requires SortedByTitle(s)
    ensures SortedByTitle(InsertByTitle(s, x))
  {
    if s == [] {
    } else if CompareTitles(s[|s| - 1], x) > 0 {
      var front, last := s[..|s| - 1], s[|s| - 1];
      InsertByTitleSorted(front, x);
      CompareTitlesAntisymmetric(last, x);
      InsertByTitleBelow(front, x, last);
      var t := InsertByTitle(front, x);
      var r := t + [last];
      forall i, j | 0 <= i < j < |r|
        ensures CompareTitles(r[i], r[j]) <= 0
      {
        assert r[i] == t[i];
        if j < |r| - 1 {
          assert r[j] == t[j];
        }
      }
    } else {
      var last := s[|s| - 1];
      var r := s + [x];
      forall i, j | 0 <= i < j < |r|
        ensures CompareTitles(r[i], r[j]) <= 0
      {
        if j == |r| - 1 && i < |s| - 1 {
          CompareTitlesTransitive(s[i], last, x);
        }
      }
    }
  }

  /** The cached catalog order: sorted by case-insensitive title. */
  lemma {:induction false} UsortSortsByTitle(s: seq<Project>)
    ensures SortedByTitle(UsortByTitle(s))
  {
    if s != [] {
      UsortSortsByTitle(s[..|s| - 1]);
      InsertByTitleSorted(UsortByTitle(s[..|s| - 1]), s[|s| - 1]);
    }
  }

  /** The sort neither loses nor adds entries. */
  lemma {:induction false} UsortPermutes(s: seq<Project>)
    ensures multiset(UsortByTitle(s)) == multiset(s)
  {
    if s != [] {
      var front, last := s[..|s| - 1], s[|s| - 1];
      UsortPermutes(front);
      InsertByTitlePermutes(UsortByTitle(front), last);
      MultisetOfLast(s);
    }
  }

  /** Splitting off the last element of a list. */
  lemma SplitLast<T>(s: seq<T>)
    requires s != []
    ensures s == s[..|s| - 1] + [s[|s| - 1]]
  {
  }

  /** Splitting off the last element of a list, as a multiset. */
  lemma MultisetOfLast<T>(s: seq<T>)
    requires s != []
    ensures multiset(s) == multiset(s[..|s| - 1]) + multiset{s[|s| - 1]}
  {
    SplitLast(s);
  }

  /** Selects the projects whose title folds to `key`. */
  function HasTitleKey(key: string): Project -> bool
  {
    (p: Project) => FoldCase(p.title) == key
  }

  /** Filtering a one-element list. */
  lemma FilterSingleton(x: Project, key: string)
    ensures ArrayFilter([x], HasTitleKey(key)) == if HasTitleKey(key)(x) then [x] else []
  {
    assert [x][1..] == [];
  }

  lemma {:induction false} InsertByTitleStable(s: seq<Project>, x: Project, key: string)
    ensures ArrayFilter(InsertByTitle(s, x), HasTitleKey(key))
            == ArrayFilter(s, HasTitleKey(key)) + ArrayFilter([x], HasTitleKey(key))
  {
    var f := HasTitleKey(key);
    if s == [] {
      assert InsertByTitle(s, x) == [x];
    } else if CompareTitles(s[|s| - 1], x) > 0 {
      var front, last := s[..|s| - 1], s[|s| - 1];
      InsertByTitleStable(front, x, key);
      ArrayFilterConcat(InsertByTitle(front, x), [last], f);
      SplitLast(s);
      ArrayFilterConcat(front, [last], f);
      FilterSingleton(x, key);
      FilterSingleton(last, key);
      // last and x compare unequal, so at most one of them has the key
      assert FoldCase(last.title) != FoldCase(x.title);
    } else {
      ArrayFilterConcat(s, [x], f);
    }
  }

  /**
   * The sort is stable: the projects whose titles are equal ignoring
   * case keep their relative order.
   */
  lemma {:induction false} UsortIsStable(s: seq<Project>, key: string)
    ensures ArrayFilter(UsortByTitle(s), HasTitleKey(key)) == ArrayFilter(s, HasTitleKey(key))
  {
    if s != [] {
      var front := s[..|s| - 1];
      UsortIsStable(front, key);
      InsertByTitleStable(UsortByTitle(front), s[|s| - 1], key);
      SplitLast(s);
      ArrayFilterConcat(front, [s[|s| - 1]], HasTitleKey(key));
    }
  }

  // ---------------------------------------------------------------------
  // Search roots (getFinder)
  // ---------------------------------------------------------------------

  /**
   * The configured recipes directory to resolve, if the setting is truthy:
   * its parent when it ends in the "{$name}" placeholder.
   */
  function ConfiguredRecipesDir(recipesPath: Option<string>): Option<string>
  {
    if recipesPath.Some? && IsTruthy(recipesPath.value) then
      var dir := recipesPath.value;
      Some(if Basename(dir) == NamePlaceholder then Dirname(dir) else dir)
    else None
  }

  lemma PlaceholderUsesParent(dir: string)
    requires dir != [] && dir[|dir| - 1] != '/'
    ensures ConfiguredRecipesDir(Some(dir + "/" + NamePlaceholder)) == Some(dir)
  {
    SplitPath(dir, NamePlaceholder);
  }

  /** The configured recipes directory as `realpath` resolves it. */
  function ResolvedRecipesDir(recipesPath: Option<string>, realpath: string -> Option<string>): Option<string>
  {
    var dir := ConfiguredRecipesDir(recipesPath);
    if dir.Some? then realpath(dir.value) else None
  }

  /** `<appRoot>/../recipes` as `realpath` resolves it. */
  function ResolvedProjectRecipes(appRoot: string, realpath: string -> Option<string>): Option<string>
  {
    realpath(appRoot + ProjectRecipesSuffix)
  }

  function OptionToSeq(o: Option<string>): seq<string>
  {
    if o.Some? then [o.value] else []
  }

  /**
   * The directories searched for recipe.yml files: the resolved recipes
   * directory, then the resolved project-level recipes directory, the
   * application root only when neither resolved, without duplicates.
   */
  function SearchRoots(recipesPath: Option<string>, appRoot: string, realpath: string -> Option<string>): (roots: seq<string>)
    ensures |roots| >= 1 && NoDuplicates(roots)
    ensures var c := ResolvedRecipesDir(recipesPath, realpath);
            c.Some? ==> roots[0] == c.value
    ensures var p := ResolvedProjectRecipes(appRoot, realpath);
            p.Some? ==> roots[|roots| - 1] == p.value
    ensures var c, p := ResolvedRecipesDir(recipesPath, realpath), ResolvedProjectRecipes(appRoot, realpath);
            forall i :: 0 <= i < |roots| ==>
              Some(roots[i]) == c || Some(roots[i]) == p || (c.None? && p.None? && roots[i] == appRoot)
    ensures ResolvedRecipesDir(recipesPath, realpath).None? && ResolvedProjectRecipes(appRoot, realpath).None?
            ==> roots == [appRoot]
  {
    var found := OptionToSeq(ResolvedRecipesDir(recipesPath, realpath))
               + OptionToSeq(ResolvedProjectRecipes(appRoot, realpath));
    ArrayUnique(if found == [] then [appRoot] else found)
  }

  // ---------------------------------------------------------------------
  // The whole scan
  // ---------------------------------------------------------------------

  /** What a cache miss computes and stores: the sorted entries of every recipe found. */
  function ScanCatalog(recipesPath: Option<string>, appRoot: string, logo: string, validUri: string -> bool,
                       fs: Filesystem): Result<seq<Project>, Error>
  {
    var roots := SearchRoots(recipesPath, appRoot, fs.realpath);
    match BuildEntries(fs.findRecipes(roots), logo, validUri)
    case Ok(projects) => Ok(UsortByTitle(projects))
    case Err(e) => Err(e)
  }

  /** The invariant of every catalog the plugin caches. */
  predicate WellFormedCatalog(projects: seq<Project>)
  {
    SortedByTitle(projects) && forall p :: p in projects ==> StartsWith(p.machineName, RecipePrefix)
  }

  /**
   * A successful scan lists every prefixed recipe found, sorted by title,
   * each entry carrying the prefix.
   */
  lemma ScanCatalogWellFormed(recipesPath: Option<string>, appRoot: string, logo: string, validUri: string -> bool,
                              fs: Filesystem)
    requires ScanCatalog(recipesPath, appRoot, logo, validUri, fs).Ok?
    ensures var files := fs.findRecipes(SearchRoots(recipesPath, appRoot, fs.realpath));
            multiset(ScanCatalog(recipesPath, appRoot, logo, validUri, fs).value)
            == multiset(MakeProjects(ArrayFilter(files, IsExtra), logo))
    ensures WellFormedCatalog(ScanCatalog(recipesPath, appRoot, logo, validUri, fs).value)
  {
    var files := fs.findRecipes(SearchRoots(recipesPath, appRoot, fs.realpath));
    var built := BuildEntries(files, logo, validUri).value;
    BuildEntriesContents(files, logo, validUri);
    EntriesAreExtra(files, logo, validUri);
    UsortSortsByTitle(built);
    UsortPermutes(built);
    var sorted := UsortByTitle(built);
    forall p | p in sorted
      ensures StartsWith(p.machineName, RecipePrefix)
    {
      assert p in multiset(sorted);
    }
  }
}
