/**
 * The query stage of a catalog request: the `machine_name` and `search`
 * filters, the total count, and the optional page cut with array_chunk.
 * It works on the cached catalog and never changes it.
 */
module Query {

  import opened Wrappers
  import opened PhpStrings
  import opened PhpArrays
  import opened Catalog

  /** The request's query keys; a key the caller did not send is None. */
  datatype Query = Query(
    machineName: Option<string>,
    search: Option<string>,
    page: Option<int>,
    limit: Option<int>)

  /** What the request returns: the entries to show and how many matched. */
  datatype ResultsPage = ResultsPage(projects: seq<Project>, total: nat)

  /** `!empty($query[$key])` for a string key: present, not "" and not "0". */
  predicate IsFilled(value: Option<string>)
  {
    value.Some? && IsTruthy(value.value)
  }

  function NameIs(name: string): Project -> bool
  {
    (p: Project) => p.machineName == name
  }

  /** `stripos($title, $term) !== FALSE`. */
  function TitleContains(term: string): Project -> bool
  {
    (p: Project) => StrIPos(p.title, term).Some?
  }

  /** The catalog after the `machine_name` filter and then the `search` filter. */
  function Filtered(projects: seq<Project>, q: Query): seq<Project>
  {
    var byName := if IsFilled(q.machineName) then ArrayFilter(projects, NameIs(q.machineName.value)) else projects;
    if IsFilled(q.search) then ArrayFilter(byName, TitleContains(q.search.value)) else byName
  }

  /** `array_key_exists('page', $query) && !empty($query['limit'])`. */
  predicate Paginates(q: Query)
  {
    q.page.Some? && q.limit.Some? && q.limit.value != 0
  }

  /** Chunk `page` of `array_chunk($matches, $size)`, or [] when there is none (`?? []`). */
  function PageOf(matches: seq<Project>, size: nat, page: int): seq<Project>
    requires size > 0
  {
    var chunks := ArrayChunk(matches, size);
    if 0 <= page < |chunks| then chunks[page] else []
  }

  /**
   * The query stage of getProjects on a catalog; a negative limit makes
   * array_chunk throw.
   */
  function RunQuery(projects: seq<Project>, q: Query): Result<ResultsPage, Error>
  {
    var matches := Filtered(projects, q);
    if !Paginates(q) then Ok(ResultsPage(matches, |matches|))
    else if q.limit.value < 0 then Err(InvalidChunkSize(q.limit.value))
    else Ok(ResultsPage(PageOf(matches, q.limit.value, q.page.value), |matches|))
  }

  /** Whether a project passes both filters of q, stated as a single test. */
  predicate Matches(q: Query, p: Project)
  {
    && (IsFilled(q.machineName) ==> p.machineName == q.machineName.value)
    && (IsFilled(q.search) ==> StrIPos(p.title, q.search.value).Some?)
  }

  lemma {:induction false} ArrayFilterTwice(s: seq<Project>, first: Project -> bool, second: Project -> bool, q: Query)
    requires forall p :: Matches(q, p) <==> first(p) && second(p)
    ensures ArrayFilter(ArrayFilter(s, first), second) == ArrayFilter(s, p => Matches(q, p))
  {
    if s != [] {
      ArrayFilterTwice(s[1..], first, second, q);
    }
  }

  /**
   * The two filters together keep exactly the projects that match the
   * query, in catalog order; a "" or "0" filter value keeps everything.
   */
  lemma FilteredMatches(projects: seq<Project>, q: Query)
    ensures Filtered(projects, q) == ArrayFilter(projects, p => Matches(q, p))
  {
    var all := (p: Project) => true;
    var byName := if IsFilled(q.machineName) then NameIs(q.machineName.value) else all;
    var bySearch := if IsFilled(q.search) then TitleContains(q.search.value) else all;
    ArrayFilterKeepsAll(projects, all);
    ArrayFilterKeepsAll(ArrayFilter(projects, byName), all);
    ArrayFilterTwice(projects, byName, bySearch, q);
  }

  /** A query without filter values returns the catalog as it is. */
  lemma UnfilteredIsCatalog(projects: seq<Project>, q: Query)
    requires !IsFilled(q.machineName) && !IsFilled(q.search)
    ensures Filtered(projects, q) == projects
  {
  }

  /**
   * The filters only remove entries and keep their relative order: the
   * result of filtering a concatenation is the concatenation of the results.
   */
  lemma FilteredKeepsOrder(a: seq<Project>, b: seq<Project>, q: Query)
    ensures Filtered(a + b, q) == Filtered(a, q) + Filtered(b, q)
    ensures multiset(Filtered(a, q)) <= multiset(a)
  {
    FilteredMatches(a + b, q);
    FilteredMatches(a, q);
    FilteredMatches(b, q);
    ArrayFilterConcat(a, b, p => Matches(q, p));
    ArrayFilterSubset(a, p => Matches(q, p));
  }

  /** Every returned catalog entry matches, and every matching entry is returned. */
  lemma FilteredMembership(projects: seq<Project>, q: Query, i: nat)
    requires i < |projects|
    ensures Matches(q, projects[i]) <==> projects[i] in Filtered(projects, q)
  {
    FilteredMatches(projects, q);
    if Matches(q, projects[i]) {
      ArrayFilterKeepsMatches(projects, p => Matches(q, p), i);
    }
  }

  /** `total` counts the matches before any paging, so paging never changes it. */
  lemma TotalIgnoresPaging(projects: seq<Project>, q1: Query, q2: Query)
    requires q1.machineName == q2.machineName && q1.search == q2.search
    requires RunQuery(projects, q1).Ok? && RunQuery(projects, q2).Ok?
    ensures RunQuery(projects, q1).value.total == RunQuery(projects, q2).value.total
                                               == |Filtered(projects, q1)|
  {
  }

  /** Without a page key or with a zero limit, every match is returned. */
  lemma NoPagingReturnsAll(projects: seq<Project>, q: Query)
    requires !Paginates(q)
    ensures RunQuery(projects, q) == Ok(ResultsPage(Filtered(projects, q), |Filtered(projects, q)|))
  {
  }

  /** A negative limit with a page key is the only way the query stage fails. */
  lemma QueryFailsOnNegativeLimit(projects: seq<Project>, q: Query)
    ensures RunQuery(projects, q).Err? <==> Paginates(q) && q.limit.value < 0
    ensures RunQuery(projects, q).Err? ==> RunQuery(projects, q).error == InvalidChunkSize(q.limit.value)
  {
  }

  /**
   * A page is the slice of the matches starting at page * limit, at most
   * limit long; a page before the first or past the last is empty.
   */
  lemma PageIsSlice(projects: seq<Project>, q: Query)
    requires Paginates(q) && q.limit.value > 0
    ensures var matches, size, page := Filtered(projects, q), q.limit.value, q.page.value;
            RunQuery(projects, q).Ok?
            && RunQuery(projects, q).value.projects
               == if 0 <= page && page * size < |matches|
                  then matches[page * size .. if (page + 1) * size <= |matches| then (page + 1) * size else |matches|]
                  else []
  {
    var matches, size, page := Filtered(projects, q), q.limit.value, q.page.value;
    if 0 <= page {
      ArrayChunkCount(matches, size, page);
      if page * size < |matches| {
        ArrayChunkAt(matches, size, page);
      }
    }
  }

  /** The query with the same filters asking for page `page` of `size` entries. */
  function WithPage(q: Query, page: nat, size: nat): Query
  {
    q.(page := Some(page), limit := Some(size))
  }

  /** The entries of pages 0 .. count - 1 of the query, in page order. */
  function PagesUpTo(projects: seq<Project>, q: Query, size: nat, count: nat): seq<seq<Project>>
    requires size > 0
  {
    if count == 0 then []
    else PagesUpTo(projects, q, size, count - 1) + [RunQuery(projects, WithPage(q, count - 1, size)).value.projects]
  }

  /**
   * Pagination loses and repeats nothing: reading pages 0, 1, 2, ... with
   * a fixed positive limit until they run out and concatenating them gives
   * back exactly the filtered list.
   */
  lemma {:induction false} PagesReconstructMatches(projects: seq<Project>, q: Query, size: nat)
    requires size > 0
    ensures var chunks := ArrayChunk(Filtered(projects, q), size);
            Flatten(PagesUpTo(projects, q, size, |chunks|)) == Filtered(projects, q)
  {
    var matches := Filtered(projects, q);
    var chunks := ArrayChunk(matches, size);
    PagesAreChunks(projects, q, size, |chunks|);
    assert chunks[..|chunks|] == chunks;
    FlattenArrayChunk(matches, size);
  }

  lemma {:induction false} PagesAreChunks(projects: seq<Project>, q: Query, size: nat, count: nat)
    requires size > 0 && count <= |ArrayChunk(Filtered(projects, q), size)|
    ensures PagesUpTo(projects, q, size, count) == ArrayChunk(Filtered(projects, q), size)[..count]
  {
    if count > 0 {
      PagesAreChunks(projects, q, size, count - 1);
      var chunks := ArrayChunk(Filtered(projects, q), size);
      assert Filtered(projects, WithPage(q, count - 1, size)) == Filtered(projects, q);
      assert chunks[..count] == chunks[..count - 1] + [chunks[count - 1]];
    }
  }
}
