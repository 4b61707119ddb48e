/**
 * The title filters of the top-level API: `category_slug_filter` and
 * `genre_slug_filter` declared as methods, and the exact-match `name` and
 * `year` filters generated from the model fields.
 */
module ApiFilters {
  import opened Wrappers
  import opened Seqs
  import opened Store

  /** The query string: an empty text value, or no year, leaves that filter out. */
  datatype TitleQuery = TitleQuery(category: string, genre: string, name: string, year: Option<int>)

  function CategoryIs(slug: string): TitleRow -> bool { (x: TitleRow) => x.categorySlug == Some(slug) }
  function GenreIs(slug: string): TitleRow -> bool { (x: TitleRow) => slug in x.genreSlugs }
  function NameIs(name: string): TitleRow -> bool { (x: TitleRow) => x.title.name == name }
  function YearIs(year: int): TitleRow -> bool { (x: TitleRow) => x.title.year == year }

  /** `category_slug_filter`: `filter(category__slug=value)`; a title without a category never matches. */
  function CategorySlugFilter(rows: seq<TitleRow>, value: string): (r: seq<TitleRow>)
    ensures forall x :: x in r <==> x in rows && (value == "" || (x.categorySlug.Some? && x.categorySlug.value == value))
  {
    Narrow(rows, value, CategoryIs(value))
  }

  /** `genre_slug_filter`: `filter(genre__slug=value)`. */
  function GenreSlugFilter(rows: seq<TitleRow>, value: string): (r: seq<TitleRow>)
    ensures forall x :: x in r <==> x in rows && (value == "" || value in x.genreSlugs)
  {
    Narrow(rows, value, GenreIs(value))
  }

  /** The generated `name` filter: an exact match. */
  function NameFilter(rows: seq<TitleRow>, value: string): (r: seq<TitleRow>)
    ensures forall x :: x in r <==> x in rows && (value == "" || x.title.name == value)
  {
    Narrow(rows, value, NameIs(value))
  }

  /** The generated `year` filter: an exact match. */
  function YearFilter(rows: seq<TitleRow>, year: Option<int>): (r: seq<TitleRow>)
    ensures forall x :: x in r <==> x in rows && (year.None? || x.title.year == year.value)
  {
    if year.None? then rows else Filter(rows, YearIs(year.value))
  }

  /** A row satisfies every filter the query sets. */
  predicate Matches(x: TitleRow, q: TitleQuery)
  {
    && (q.category == "" || x.categorySlug == Some(q.category))
    && (q.genre == "" || q.genre in x.genreSlugs)
    && (q.name == "" || x.title.name == q.name)
    && (q.year.None? || x.title.year == q.year.value)
  }

  /** The filter set applied to the titles: the rows matching every filter set, and no others. */
  function FilterTitles(rows: seq<TitleRow>, q: TitleQuery): (r: seq<TitleRow>)
    ensures |r| <= |rows|
    ensures forall x :: x in r <==> x in rows && Matches(x, q)
  {
    YearFilter(NameFilter(GenreSlugFilter(CategorySlugFilter(rows, q.category), q.genre), q.name), q.year)
  }

  lemma CategorySlugFilterIdempotent(rows: seq<TitleRow>, value: string)
    ensures CategorySlugFilter(CategorySlugFilter(rows, value), value) == CategorySlugFilter(rows, value)
  {
    NarrowIdempotent(rows, value, CategoryIs(value));
  }

  lemma GenreSlugFilterIdempotent(rows: seq<TitleRow>, value: string)
    ensures GenreSlugFilter(GenreSlugFilter(rows, value), value) == GenreSlugFilter(rows, value)
  {
    NarrowIdempotent(rows, value, GenreIs(value));
  }

  /** Applying the whole filter set twice is applying it once. */
  lemma FilterTitlesIdempotent(rows: seq<TitleRow>, q: TitleQuery)
    ensures FilterTitles(FilterTitles(rows, q), q) == FilterTitles(rows, q)
  {
    var r := FilterTitles(rows, q);
    var a := CategorySlugFilter(r, q.category);
    if q.category != "" { FilterKeepsWhenAllPass(r, CategoryIs(q.category)); }
    var b := GenreSlugFilter(a, q.genre);
    if q.genre != "" { FilterKeepsWhenAllPass(a, GenreIs(q.genre)); }
    var c := NameFilter(b, q.name);
    if q.name != "" { FilterKeepsWhenAllPass(b, NameIs(q.name)); }
    if q.year.Some? { FilterKeepsWhenAllPass(c, YearIs(q.year.value)); }
  }
}
