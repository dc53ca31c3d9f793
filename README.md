# Extra recipes catalog — a verified Dafny model

This project models the catalog pipeline of the `extra_recipes` Project Browser
source (`src/Plugin/ProjectBrowserSource/ExtraRecipes.php`). The plugin lists the
recipes of a Drupal codebase whose directory name starts with `extra_`. On a cache
miss it works out the search roots, walks them for `recipe.yml` files and builds one
catalog entry per prefixed recipe, with defaults taken from `recipe.yml` and
`composer.json`. It then sorts the entries by title, ignoring case, and stores the
list in the cache bin under its plugin id. Every request filters that list by
machine name and by a case-insensitive title search, counts the matches, and can
cut one page out of them.

Files:

- `wrappers.dfy`: `Option` and `Result`.
- `php_strings.dfy`: the PHP string functions used: `basename`, `dirname`,
  `str_starts_with`, `strcasecmp`, `stripos` and string truthiness (`if ($s)`,
  `empty()`). Case folding is ASCII only. Characters compare by code point, which
  is the same order as comparing their UTF-8 bytes.
- `php_arrays.dfy`: `array_filter`, `array_unique` and `array_chunk`.
- `catalog.dfy`: the entry record, the `getPackageMetadata` defaults, the
  entry-building specification, the stable title sort and the search roots, all as
  pure functions with lemmas.
- `query.dfy`: the query stage of `getProjects` (filters, `total`, paging).
- `extra_recipes.dfy`: the plugin as a class. It owns the cache entry as a field
  (`cached`). `GetFinder` builds the root list step by step. `CollectProjects` is
  the `foreach` loop. `SortProjects` sorts an array in place. `GetProjects` reads
  and writes the cache. Each method is proved equal to the specification function
  in `catalog.dfy` or `query.dfy`.

Host services appear as inputs. `realpath` and the Finder walk are the two
functions of a `Filesystem` value. The YAML and JSON parsers' outputs are given
already decoded (`YamlDocument`, `ComposerFile`). The logo URL is a string
parameter. Translation is the identity, and a URL is its string. Which URIs
`Url::fromUri` accepts is the predicate `validUri`, a constant of the plugin object.

Behaviour of the code worth noting:

- A `recipe.yml` that the YAML parser rejects is not skipped. `Yaml::decode` throws
  and line 96 does not catch it, so the whole `getProjects` call fails and nothing
  is cached (`MalformedRecipe`). Only directories with the prefix are parsed, so a
  broken file elsewhere is harmless.
- A truthy `composer.json` homepage that `Url::fromUri` refuses (a URI without a
  scheme, such as `example.com`) fails the call the same way at line 107
  (`InvalidHomepage`). The YAML is decoded first, so a recipe with both faults
  reports the YAML error.
- An empty `recipe.yml` decodes to null and counts as an empty mapping (`?? []`).
  An undecodable `composer.json` decodes to null as well, so it gets the defaults.
- The machine name is the whole directory name, prefix included (`extra_foo`).
- A page is cut only when the query has a `page` key and a non-empty `limit`.
  A negative `limit` makes `array_chunk` throw (`InvalidChunkSize`). By then a
  cache miss has already stored the catalog.

## Model

The functions that compute (`BuildEntries`, `MakeProject`, `GetPackageMetadata`,
`UsortByTitle`, `ConfiguredRecipesDir`, `ScanCatalog`, `Query.Filtered`,
`Query.RunQuery`, `Basename`, `Dirname`) have no rows of their own: the rows name
the lemmas and methods whose contracts state what those functions do.

| member | source | states |
|---|---|---|
| PhpStrings.SplitPath | src/Plugin/ProjectBrowserSource/ExtraRecipes.php:141-142 | `basename` of "dir/name" is name; `dirname` of it is dir when dir is non-empty and has no trailing slash |
| PhpStrings.StrCaseCmp | src/Plugin/ProjectBrowserSource/ExtraRecipes.php:112 | the comparison is -1, 0 or 1, and is 0 exactly when the titles are equal after ASCII case folding |
| PhpStrings.LexCompareAntisymmetric | src/Plugin/ProjectBrowserSource/ExtraRecipes.php:112 | swapping the arguments of the comparison negates it |
| PhpStrings.LexCompareTransitive | src/Plugin/ProjectBrowserSource/ExtraRecipes.php:112 | the comparison is transitive, so usort has a total preorder to sort by |
| PhpStrings.StrIPos | src/Plugin/ProjectBrowserSource/ExtraRecipes.php:121 | `stripos` finds a position exactly when the term occurs in the title ignoring case, and the position it gives is a match |
| PhpStrings.StrIPosFrom | src/Plugin/ProjectBrowserSource/ExtraRecipes.php:121 | the search returns the first match at or after the start, and None only when there is no match there |
| PhpArrays.ArrayFilterConcat | src/Plugin/ProjectBrowserSource/ExtraRecipes.php:117 | filtering a concatenation concatenates the filtered parts, so relative order is kept |
| PhpArrays.ArrayFilterSubset | src/Plugin/ProjectBrowserSource/ExtraRecipes.php:121 | a filter only removes elements (sub-multiset) |
| PhpArrays.ArrayFilterKeepsMatches | src/Plugin/ProjectBrowserSource/ExtraRecipes.php:117 | every element that passes the test survives the filter |
| PhpArrays.ArrayUnique | src/Plugin/ProjectBrowserSource/ExtraRecipes.php:161 | the result has no duplicates, the same members as the input, and keeps the input's first element first |
| PhpArrays.ArrayUniqueKeepsOrder | src/Plugin/ProjectBrowserSource/ExtraRecipes.php:161 | the kept values appear in the order of their first occurrences in the input |
| PhpArrays.ArrayChunk | src/Plugin/ProjectBrowserSource/ExtraRecipes.php:127 | chunks are non-empty, at most `size` long, and all but the last are exactly `size` long |
| PhpArrays.FlattenArrayChunk | src/Plugin/ProjectBrowserSource/ExtraRecipes.php:127 | concatenating the chunks gives back the list |
| PhpArrays.ArrayChunkCount | src/Plugin/ProjectBrowserSource/ExtraRecipes.php:127 | chunk k exists exactly when k * size is below the length |
| PhpArrays.ArrayChunkAt | src/Plugin/ProjectBrowserSource/ExtraRecipes.php:127 | chunk k is the slice from k * size to (k + 1) * size, cut at the end |
| Catalog.PackageMetadataDefaults | src/Plugin/ProjectBrowserSource/ExtraRecipes.php:170-182 | a decoded composer.json key wins; a missing or undecodable file or key gives `extra/unknown` and no homepage |
| Catalog.EntryDefaults | src/Plugin/ProjectBrowserSource/ExtraRecipes.php:95-109 | the machine name is the directory basename; the title is the YAML `name`, else the machine name; summary and URL are set only from truthy strings; the package comes from composer.json |
| Catalog.BuildEntriesOk | src/Plugin/ProjectBrowserSource/ExtraRecipes.php:88-110 | the build succeeds exactly when no prefixed recipe has an unparsable recipe.yml or a truthy homepage that `Url::fromUri` refuses |
| Catalog.BuildEntriesContents | src/Plugin/ProjectBrowserSource/ExtraRecipes.php:88-110 | a successful build is one entry per prefixed recipe, in walk order; other directories contribute nothing |
| Catalog.BuildEntriesError | src/Plugin/ProjectBrowserSource/ExtraRecipes.php:96-107 | a failed build reports the first rejected prefixed recipe of the walk: its YAML error if recipe.yml does not parse, else its refused homepage |
| Catalog.BuildEntriesAborts | src/Plugin/ProjectBrowserSource/ExtraRecipes.php:96-107 | once a prefix of the walk has failed, later files do not change the outcome |
| Catalog.EntriesAreExtra | src/Plugin/ProjectBrowserSource/ExtraRecipes.php:89-93 | every built entry starts with `extra_` and is the entry of a prefixed recipe file from the walk |
| Catalog.InsertByTitleSorted | src/Plugin/ProjectBrowserSource/ExtraRecipes.php:112 | one insertion step keeps a title-sorted list sorted |
| Catalog.InsertByTitlePermutes | src/Plugin/ProjectBrowserSource/ExtraRecipes.php:112 | one insertion step adds exactly the inserted entry |
| Catalog.InsertByTitleStable | src/Plugin/ProjectBrowserSource/ExtraRecipes.php:112 | the inserted entry lands after every entry whose title is equal ignoring case |
| Catalog.UsortSortsByTitle | src/Plugin/ProjectBrowserSource/ExtraRecipes.php:112 | the sorted catalog is non-decreasing by case-insensitive title |
| Catalog.UsortPermutes | src/Plugin/ProjectBrowserSource/ExtraRecipes.php:112 | the sorted catalog is a permutation of the built entries |
| Catalog.UsortIsStable | src/Plugin/ProjectBrowserSource/ExtraRecipes.php:112 | entries with titles equal ignoring case keep their walk order (PHP 8 usort is stable) |
| Catalog.PlaceholderUsesParent | src/Plugin/ProjectBrowserSource/ExtraRecipes.php:140-143 | a configured path "dir/{$name}" is searched as dir |
| Catalog.SearchRoots | src/Plugin/ProjectBrowserSource/ExtraRecipes.php:137-161 | the roots are never empty and have no duplicates; the resolved recipes dir comes first and the resolved `<appRoot>/../recipes` last; every root is one of those two, or appRoot only when neither resolved |
| Catalog.ScanCatalogWellFormed | src/Plugin/ProjectBrowserSource/ExtraRecipes.php:83-113 | a successful scan is a permutation of the prefixed recipes' entries, sorted by title, each starting with `extra_` |
| Query.FilteredMatches | src/Plugin/ProjectBrowserSource/ExtraRecipes.php:116-122 | the two filters in a row equal one filter by "machine name equals, and title contains the term ignoring case", where a "" or "0" value tests nothing |
| Query.UnfilteredIsCatalog | src/Plugin/ProjectBrowserSource/ExtraRecipes.php:116-122 | with both filter values empty, "" or "0", the catalog comes back unchanged |
| Query.FilteredKeepsOrder | src/Plugin/ProjectBrowserSource/ExtraRecipes.php:116-122 | the filters keep relative order and only remove entries |
| Query.FilteredMembership | src/Plugin/ProjectBrowserSource/ExtraRecipes.php:116-122 | a catalog entry is in the result exactly when it matches the query |
| Query.TotalIgnoresPaging | src/Plugin/ProjectBrowserSource/ExtraRecipes.php:124 | `total` is the number of matches and is the same whatever the page and limit |
| Query.NoPagingReturnsAll | src/Plugin/ProjectBrowserSource/ExtraRecipes.php:126 | without a page key, or with an empty limit, all matches are returned |
| Query.QueryFailsOnNegativeLimit | src/Plugin/ProjectBrowserSource/ExtraRecipes.php:127 | the query stage fails exactly when it pages with a negative limit |
| Query.PageIsSlice | src/Plugin/ProjectBrowserSource/ExtraRecipes.php:126-128 | a page is the slice of the matches from page * limit, at most limit long, and empty when out of range |
| Query.PagesReconstructMatches | src/Plugin/ProjectBrowserSource/ExtraRecipes.php:124-128 | concatenating pages 0, 1, ... for a fixed limit gives back exactly the matches |
| ExtraRecipes.ExtraRecipesSource.GetFinder | src/Plugin/ProjectBrowserSource/ExtraRecipes.php:136-165 | the roots built step by step are `SearchRoots` |
| ExtraRecipes.ExtraRecipesSource.CollectProjects | src/Plugin/ProjectBrowserSource/ExtraRecipes.php:83-110 | the loop's list, or the exception it stops at, is `BuildEntries` of the walk |
| ExtraRecipes.ExtraRecipesSource.SortProjects | src/Plugin/ProjectBrowserSource/ExtraRecipes.php:112 | the array sorted in place holds the stable title sort of its old contents |
| ExtraRecipes.ExtraRecipesSource.InsertNext | src/Plugin/ProjectBrowserSource/ExtraRecipes.php:112 | one pass moves a[i] into place in the sorted prefix and leaves the rest alone |
| ExtraRecipes.ExtraRecipesSource.Scan | src/Plugin/ProjectBrowserSource/ExtraRecipes.php:82-112 | the cache-miss branch computes `ScanCatalog`: roots, walk, build, sort |
| ExtraRecipes.ExtraRecipesSource.GetProjects | src/Plugin/ProjectBrowserSource/ExtraRecipes.php:77-131 | a hit answers from the stored list and leaves it alone; a miss stores the scanned catalog (nothing when the build throws) and answers from it; cached lists stay sorted and prefixed |
| ExtraRecipes.ExtraRecipesSource.RepeatRequest | src/Plugin/ProjectBrowserSource/ExtraRecipes.php:78-81 | two requests with the same query and filesystem give the same answer |

## Left out

- Plugin registration (the `ProjectBrowserSource` attribute), `create` and the constructor's service injection: framework wiring. The class constructor only takes the values the model needs.
- `getFilterDefinitions`: a constant filter declaration behind a translation call.
- The Symfony Finder walk (depth 1, following links, files named `recipe.yml`), `realpath`, `file_exists` and `file_get_contents`: filesystem I/O. They are the inputs `Filesystem.findRecipes` and `Filesystem.realpath`, and the walk's order is whatever that input gives.
- `Yaml::decode` and `Json::decode`: foreign parsers. Their results are the decoded `YamlDocument` and `ComposerFile`. Decoded values are modelled as string-to-string maps, so YAML or JSON values of other types are not modelled.
- Logo URL generation, `Url::fromUri`, `$this->t()` and `createResultsPage`: host services. The logo is a string parameter, URLs are strings, translation is the identity, and a results page is `(projects, total)`. `Url::fromUri`'s own URI parsing is not modelled: the predicate `validUri` says which homepages it accepts. The logo's `base:` URI is taken to be always accepted.
- The cache backend's TTL, invalidation and concurrent writers: the cache is the single `cached` field.
- PHP key preservation after `array_filter`: results are lists.
- Query values of unexpected types: `machine_name` and `search` are strings, and `page` and `limit` are integers. A `page` key present with a null value is not modelled.
