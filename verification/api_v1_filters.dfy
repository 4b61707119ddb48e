/**
 * The title filters of the versioned API: exact category and genre slugs,
 * the name as a substring, and the exact year. The declared
 * `CharFilter(field_name="category__slug")` and `CharFilter(field_name="genre__slug")`
 * are the same exact-slug lookups the top-level copy writes as filter methods,
 * and the generated `year` filter is the same exact match, so those three are
 * shared with module ApiFilters; only the name filter differs.
 */
module ApiV1Filters {
  import opened Wrappers
  import opened Seqs
  import opened Store
  import ApiFilters

  /** The same query parameters as the top-level filter set. */
  type TitleQuery = ApiFilters.TitleQuery

  /** `part` occurs in `s` starting at position `i`. */
  predicate OccursAt(s: string, part: string, i: nat)
  {
    i + |part| <= |s| && s[i..i + |part|] == part
  }

  /** `part` occurs in `s` at some position: the `contains` lookup. */
  predicate Contains(s: string, part: string)
  {
    exists i: nat | i <= |s| :: OccursAt(s, part, i)
  }

  function NameContains(part: string): TitleRow -> bool { (x: TitleRow) => Contains(x.title.name, part) }

  /** `name_filter`: `filter(name__contains=value)`. */
  function NameFilter(rows: seq<TitleRow>, value: string): (r: seq<TitleRow>)
    ensures forall x :: x in r <==> x in rows && (value == "" || Contains(x.title.name, value))
  {
    Narrow(rows, value, NameContains(value))
  }

  predicate Matches(x: TitleRow, q: TitleQuery)
  {
    && (q.category == "" || x.categorySlug == Some(q.category))
    && (q.genre == "" || q.genre in x.genreSlugs)
    && (q.name == "" || Contains(x.title.name, q.name))
    && (q.year.None? || x.title.year == q.year.value)
  }

  /** The filter set applied to the titles: the rows matching every filter set, and no others. */
  function FilterTitles(rows: seq<TitleRow>, q: TitleQuery): (r: seq<TitleRow>)
    ensures |r| <= |rows|
    ensures forall x :: x in r <==> x in rows && Matches(x, q)
  {
    ApiFilters.YearFilter(NameFilter(ApiFilters.GenreSlugFilter(ApiFilters.CategorySlugFilter(rows, q.category), q.genre), q.name), q.year)
  }

  /** Applying the whole filter set twice is applying it once. */
  lemma FilterTitlesIdempotent(rows: seq<TitleRow>, q: TitleQuery)
    ensures FilterTitles(FilterTitles(rows, q), q) == FilterTitles(rows, q)
  {
    var r := FilterTitles(rows, q);
    var a := ApiFilters.CategorySlugFilter(r, q.category);
    if q.category != "" { FilterKeepsWhenAllPass(r, ApiFilters.CategoryIs(q.category)); }
    var b := ApiFilters.GenreSlugFilter(a, q.genre);
    if q.genre != "" { FilterKeepsWhenAllPass(a, ApiFilters.GenreIs(q.genre)); }
    var c := NameFilter(b, q.name);
    if q.name != "" { FilterKeepsWhenAllPass(b, NameContains(q.name)); }
    if q.year.Some? { FilterKeepsWhenAllPass(c, ApiFilters.YearIs(q.year.value)); }
  }
}
