/** The home page's list logic: the title search, the page-1-replaces /
    later-pages-append list update, the page and category state, and the
    section title. */
module HomePage {
  import opened Wrappers

  /** A catalogue entry; only the fields the list logic reads. */
  datatype Movie = Movie(id: int, title: string)

  // ---------------------------------------------------------------- search

  function LowerChar(c: char): (l: char)
    ensures 'A' <= c <= 'Z' ==> l as int == c as int + 32
    ensures !('A' <= c <= 'Z') ==> l == c
  {
    if 'A' <= c <= 'Z' then (c as int + 32) as char else c
  }

  function UpperChar(c: char): (u: char)
    ensures 'a' <= c <= 'z' ==> u as int == c as int - 32
    ensures !('a' <= c <= 'z') ==> u == c
  {
    if 'a' <= c <= 'z' then (c as int - 32) as char else c
  }

  /** `toLowerCase`, on the ASCII letters. */
  function Lower(s: string): (r: string)
    ensures |r| == |s| && forall k :: 0 <= k < |s| ==> r[k] == LowerChar(s[k])
  {
    seq(|s|, k requires 0 <= k < |s| => LowerChar(s[k]))
  }

  /** needle occurs in hay starting at position i. */
  predicate OccursAt(hay: string, needle: string, i: int)
  {
    0 <= i <= |hay| - |needle| && hay[i..i + |needle|] == needle
  }

  /** `includes`: needle occurs in hay at some position. */
  predicate Contains(hay: string, needle: string)
    ensures Contains(hay, needle) ==> |needle| <= |hay|
  {
    exists i | 0 <= i <= |hay| :: OccursAt(hay, needle, i)
  }

  /** Every string contains the empty string: it occurs at the very start. */
  lemma EmptyNeedleContained(hay: string)
    ensures Contains(hay, "")
  {
    assert OccursAt(hay, "", 0);
  }

  /** The search keeps a movie whose lower-cased title contains the lower-cased search text. */
  predicate Matches(m: Movie, search: string)
    // no title matches a longer search
    ensures Matches(m, search) ==> |search| <= |m.title|
  {
    Contains(Lower(m.title), Lower(search))
  }

  /** An empty search matches every title. */
  lemma EmptySearchMatches(m: Movie)
    ensures Matches(m, "")
  {
    EmptyNeedleContained(Lower(m.title));
  }

  /** s is an order-preserving subsequence of t. */
  ghost predicate Subsequence<T>(s: seq<T>, t: seq<T>)
    decreases |t|
  {
    s == [] || (t != [] && ((s[0] == t[0] && Subsequence(s[1..], t[1..])) || Subsequence(s, t[1..])))
  }

  /** `filteredMovies`. */
  function FilterMovies(movies: seq<Movie>, search: string): (r: seq<Movie>)
    ensures Subsequence(r, movies)
    ensures forall m :: m in r ==> m in movies && Matches(m, search)
    ensures forall m :: m in movies && Matches(m, search) ==> m in r
    decreases |movies|
  {
    if movies == [] then []
    else if Matches(movies[0], search) then [movies[0]] + FilterMovies(movies[1..], search)
    else FilterMovies(movies[1..], search)
  }

  /** Filtering works movie by movie: the filter of a concatenation is the concatenation of
      the filters, so each movie is kept or dropped on its own, in its original place. */
  lemma {:induction false} FilterAppend(a: seq<Movie>, b: seq<Movie>, search: string)
    ensures FilterMovies(a + b, search) == FilterMovies(a, search) + FilterMovies(b, search)
    decreases |a|
  {
    if a == [] {
      assert a + b == b;
    } else {
      assert (a + b)[0] == a[0] && (a + b)[1..] == a[1..] + b;
      FilterAppend(a[1..], b, search);
    }
  }

  /** An empty search keeps every movie. */
  lemma {:induction false} EmptySearchKeepsAll(movies: seq<Movie>)
    ensures FilterMovies(movies, "") == movies
    decreases |movies|
  {
    if movies != [] {
      EmptySearchMatches(movies[0]);
      EmptySearchKeepsAll(movies[1..]);
    }
  }

  // ---------------------------------------------------------------- list updates

  /** What the catalogue request came back with: it threw, or a body with or without `results`. */
  datatype Reply = Threw | Data(results: Option<seq<Movie>>)

  /** `data.results || []`. */
  function ResultsOf(reply: Reply): (r: seq<Movie>)
    requires reply.Data?
    ensures reply.results.None? ==> r == []
    ensures reply.results.Some? ==> r == reply.results.value
  {
    reply.results.GetOr([])
  }

  /** The list after page `pageNumber` has loaded: page 1 replaces it, any other page appends. */
  function MergeResults(prev: seq<Movie>, pageNumber: int, results: seq<Movie>): (r: seq<Movie>)
    ensures pageNumber == 1 ==> r == results
    ensures pageNumber != 1 ==> |r| == |prev| + |results| && r[..|prev|] == prev && r[|prev|..] == results
  {
    if pageNumber == 1 then results else prev + results
  }

  /** Loading page 1 and then pages 2..n in order gives the pages' results one after another. */
  lemma {:induction false} LoadedPagesConcatenate(pages: seq<seq<Movie>>)
    requires |pages| >= 1
    ensures LoadAll(pages) == Flatten(pages)
  {
    if |pages| > 1 {
      LoadedPagesConcatenate(pages[..|pages| - 1]);
      FlattenSnoc(pages[..|pages| - 1], pages[|pages| - 1]);
      assert pages[..|pages| - 1] + [pages[|pages| - 1]] == pages;
    }
  }

  /** The list after loading pages 1, 2, ..., |pages| in order, page k+1 returning pages[k]. */
  function LoadAll(pages: seq<seq<Movie>>): seq<Movie>
    requires |pages| >= 1
  {
    if |pages| == 1 then MergeResults([], 1, pages[0])
    else MergeResults(LoadAll(pages[..|pages| - 1]), |pages|, pages[|pages| - 1])
  }

  function Flatten(pages: seq<seq<Movie>>): seq<Movie>
  {
    if pages == [] then [] else pages[0] + Flatten(pages[1..])
  }

  lemma {:induction false} FlattenSnoc(pages: seq<seq<Movie>>, last: seq<Movie>)
    ensures Flatten(pages + [last]) == Flatten(pages) + last
    decreases |pages|
  {
    if pages != [] {
      assert (pages + [last])[1..] == pages[1..] + [last];
      FlattenSnoc(pages[1..], last);
    }
  }

  // ---------------------------------------------------------------- title

  /** The heading above the grid: "All Movies", or the category capitalised plus " Movies". */
  function SectionTitle(category: string): (title: string)
    ensures category == "all" ==> title == "All Movies"
    ensures category != "all" ==> |title| == |category| + 7 && title[|category|..] == " Movies"
    ensures category != "all" && category != "" ==>
      title[0] == UpperChar(category[0]) && title[1..|category|] == category[1..]
  {
    if category == "all" then "All Movies"
    else
      var first := if category == "" then "" else [UpperChar(category[0])];
      var rest := if category == "" then "" else category[1..];
      first + rest + " Movies"
  }

  // ---------------------------------------------------------------- page state

  /** The home page's state. */
  class HomeScreen {
    var search: string
    var movies: seq<Movie>
    var page: int
    var category: string

    ghost predicate Valid()
      reads this
    {
      page >= 1
    }

    constructor ()
      ensures Valid()
      ensures search == "" && movies == [] && page == 1 && category == "all"
    {
      search, movies, page, category := "", [], 1, "all";
    }

    /** The movies shown in the grid. */
    function Visible(): (v: seq<Movie>)
      reads this
      ensures Subsequence(v, movies)
      ensures forall m :: m in v <==> m in movies && Matches(m, search)
    {
      FilterMovies(movies, search)
    }

    /** Typing in the search box. */
    method SetSearch(text: string)
      modifies this`search
      ensures search == text
    {
      search := text;
    }

    /** `loadMovies` for `pageNumber` once its request has completed with `reply`; a request
        that threw leaves the list as it was. */
    method Load(pageNumber: int, reply: Reply)
      modifies this`movies
      ensures reply.Threw? ==> movies == old(movies)
      ensures reply.Data? ==> movies == MergeResults(old(movies), pageNumber, ResultsOf(reply))
      // a later page keeps what was visible and adds its own matching movies after it
      ensures reply.Data? && pageNumber != 1 ==> Visible() == old(Visible()) + FilterMovies(ResultsOf(reply), search)
    {
      if reply.Data? {
        var results := ResultsOf(reply);
        if pageNumber == 1 {
          movies := results;
        } else {
          FilterAppend(movies, results, search);
          movies := movies + results;
        }
      }
    }

    /** First render: the saved category (or "all" when none, or an empty one, is saved) is
        selected and its first page loaded. */
    method Mount(saved: Option<string>, reply: Reply)
      requires Valid()
      modifies this
      ensures Valid()
      ensures category == (if saved.Some? && saved.value != "" then saved.value else "all")
      ensures reply.Threw? ==> movies == old(movies)
      ensures reply.Data? ==> movies == ResultsOf(reply)
      ensures page == old(page) && search == old(search)
    {
      category := if saved.Some? && saved.value != "" then saved.value else "all";
      Load(1, reply);
    }

    /** A new category from the drop-down: its first page is loaded and the page counter goes
        back to 1. */
    method ChangeCategory(cat: string, reply: Reply)
      requires Valid()
      modifies this
      ensures Valid()
      ensures category == cat && page == 1 && search == old(search)
      ensures reply.Threw? ==> movies == old(movies)
      ensures reply.Data? ==> movies == ResultsOf(reply)
    {
      category := cat;
      Load(1, reply);
      page := 1;
    }

    /** The "Load More" button. */
    method LoadMore()
      requires Valid()
      modifies this`page
      ensures Valid() && page == old(page) + 1
    {
      page := page + 1;
    }

    /** The page effect: a page after the first is fetched and appended; page 1 fetches
        nothing here. */
    method PageChanged(reply: Reply) returns (fetched: bool)
      requires Valid()
      modifies this`movies
      ensures fetched <==> page > 1
      ensures !fetched || reply.Threw? ==> movies == old(movies)
      ensures fetched && reply.Data? ==> movies == old(movies) + ResultsOf(reply)
      ensures fetched && reply.Data? ==> Visible() == old(Visible()) + FilterMovies(ResultsOf(reply), search)
    {
      fetched := page > 1;
      if fetched {
        Load(page, reply);
      }
    }
  }
}
