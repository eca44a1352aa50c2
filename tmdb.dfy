/** The movie database request URLs: the category to language switch and the
    three URL templates (the requests themselves are not modelled). */
module Tmdb {
  import opened Wrappers

  const BaseUrl := "https://api.themoviedb.org/3"

  /** The original-language code for a catalogue category; "" means every language. */
  function Language(category: string): (lang: string)
    ensures lang == "en" <==> category == "hollywood"
    ensures lang == "hi" <==> category == "bollywood"
    ensures lang == "pa" <==> category == "punjabi"
    ensures lang == "" <==> category != "hollywood" && category != "bollywood" && category != "punjabi"
  {
    match category
    case "hollywood" => "en"
    case "bollywood" => "hi"
    case "punjabi" => "pa"
    case _ => ""
  }

  // ---------------------------------------------------------------- numbers in URLs

  predicate IsDigit(c: char)
  {
    '0' <= c <= '9'
  }

  function DigitChar(d: nat): (c: char)
    requires d < 10
    ensures IsDigit(c) && c as int - '0' as int == d
  {
    ('0' as int + d) as char
  }

  /** The decimal digits of n, without leading zeros. */
  function NatToString(n: nat): (s: string)
    ensures |s| >= 1 && forall k :: 0 <= k < |s| ==> IsDigit(s[k])
    ensures |s| > 1 ==> s[0] != '0'
    decreases n
  {
    if n < 10 then [DigitChar(n)] else NatToString(n / 10) + [DigitChar(n % 10)]
  }

  function DigitValue(c: char): nat
    requires IsDigit(c)
  {
    c as int - '0' as int
  }

  /** The number a string of decimal digits denotes. */
  function ParseNat(s: string): nat
    requires forall k :: 0 <= k < |s| ==> IsDigit(s[k])
    decreases |s|
  {
    if s == [] then 0
    else ParseNat(s[..|s| - 1]) * 10 + DigitValue(s[|s| - 1])
  }

  lemma {:induction false} ParseNatToString(n: nat)
    ensures ParseNat(NatToString(n)) == n
    decreases n
  {
    if n >= 10 {
      var s := NatToString(n);
      ParseNatToString(n / 10);
      assert s[..|s| - 1] == NatToString(n / 10);
    }
  }

  /** How a template literal prints an integer: decimal, with '-' for a negative number. */
  function IntToString(n: int): (s: string)
    ensures |s| >= 1
    ensures n < 0 <==> s[0] == '-'
  {
    if n < 0 then "-" + NatToString(-n) else NatToString(n)
  }

  lemma NatToStringInjective(m: nat, n: nat)
    requires NatToString(m) == NatToString(n)
    ensures m == n
  {
    ParseNatToString(m);
    ParseNatToString(n);
  }

  /** Distinct numbers print differently. */
  lemma IntToStringInjective(a: int, b: int)
    requires IntToString(a) == IntToString(b)
    ensures a == b
  {
    if a < 0 && b < 0 {
      var sa, sb := NatToString(-a), NatToString(-b);
      assert IntToString(a) == "-" + sa && IntToString(b) == "-" + sb;
      assert ("-" + sa)[1..] == sa && ("-" + sb)[1..] == sb;
      NatToStringInjective(-a, -b);
    } else if a >= 0 && b >= 0 {
      NatToStringInjective(a, b);
    }
  }

  /** Splitting two equal strings after the same head, at the same length, gives equal parts. */
  lemma SplitAfterHead(head: string, x: string, y: string, r1: string, r2: string)
    requires head + x + r1 == head + y + r2 && |x| == |y|
    ensures x == y && r1 == r2
  {
    var u := head + x + r1;
    assert x == u[|head|..|head| + |x|];
    assert y == (head + y + r2)[|head|..|head| + |y|];
    assert r1 == u[|head| + |x|..];
    assert r2 == (head + y + r2)[|head| + |y|..];
  }

  // ---------------------------------------------------------------- URLs

  /** The discover URL before the optional language parameter. */
  function DiscoverBase(apiKey: string, page: int): string
  {
    BaseUrl + "/discover/movie?api_key=" + apiKey + "&page=" + IntToString(page) + "&sort_by=popularity.desc"
  }

  /** A string is a prefix of its extensions, and what follows it is the extension. */
  lemma PrefixAndRest(a: string, b: string)
    ensures a <= a + b && (a + b)[|a|..] == b
  {
  }

  /** Every discover query goes to the discover endpoint with the key, and asks for the most
      popular movies first. */
  lemma DiscoverSortsByPopularity(apiKey: string, page: int)
    ensures BaseUrl + "/discover/movie?api_key=" + apiKey <= DiscoverBase(apiKey, page)
    ensures |DiscoverBase(apiKey, page)| >= 24
    ensures DiscoverBase(apiKey, page)[|DiscoverBase(apiKey, page)| - 24..] == "&sort_by=popularity.desc"
  {
    var front := BaseUrl + "/discover/movie?api_key=" + apiKey;
    var paged := front + "&page=" + IntToString(page);
    var tail := "&sort_by=popularity.desc";
    assert DiscoverBase(apiKey, page) == paged + tail;
    PrefixAndRest(paged, tail);
    PrefixAndRest(front, "&page=");
    PrefixAndRest(front + "&page=", IntToString(page));
  }

  const LanguageParam := "&with_original_language="

  /** The page argument, defaulting to 1 when absent. */
  function PageOrDefault(page: Option<int>): (p: int)
    ensures page.None? ==> p == 1
    ensures page.Some? ==> p == page.value
  {
    page.GetOr(1)
  }

  /** The optional language parameter of a category's discover URL. */
  function LanguageSuffix(category: string): string
  {
    if Language(category) != "" then LanguageParam + Language(category) else ""
  }

  /** The URL `fetchMoviesByCategory` requests. */
  function DiscoverUrl(apiKey: string, category: string, page: Option<int>): (url: string)
    // always the popularity-sorted page query ...
    ensures DiscoverBase(apiKey, PageOrDefault(page)) <= url
    // ... followed by the language parameter exactly when the category has a language
    ensures Language(category) == "" ==> url == DiscoverBase(apiKey, PageOrDefault(page))
    ensures Language(category) != "" ==>
      url[|DiscoverBase(apiKey, PageOrDefault(page))|..] == LanguageParam + Language(category)
  {
    var url := DiscoverBase(apiKey, PageOrDefault(page));
    url + LanguageSuffix(category)
  }

  lemma DiscoverUrlParts(apiKey: string, category: string, page: int)
    ensures DiscoverUrl(apiKey, category, Some(page)) ==
      (BaseUrl + "/discover/movie?api_key=" + apiKey + "&page=") + IntToString(page) +
      ("&sort_by=popularity.desc" + LanguageSuffix(category))
  {
  }

  /** Different pages of one category give different URLs. */
  lemma DiscoverPageInjective(apiKey: string, category: string, p1: int, p2: int)
    requires DiscoverUrl(apiKey, category, Some(p1)) == DiscoverUrl(apiKey, category, Some(p2))
    ensures p1 == p2
  {
    DiscoverUrlParts(apiKey, category, p1);
    DiscoverUrlParts(apiKey, category, p2);
    SplitAfterHead(BaseUrl + "/discover/movie?api_key=" + apiKey + "&page=", IntToString(p1), IntToString(p2),
      "&sort_by=popularity.desc" + LanguageSuffix(category), "&sort_by=popularity.desc" + LanguageSuffix(category));
    IntToStringInjective(p1, p2);
  }

  /** The same page of categories with different languages gives different URLs. */
  lemma DiscoverLanguageInjective(apiKey: string, c1: string, c2: string, page: int)
    requires DiscoverUrl(apiKey, c1, Some(page)) == DiscoverUrl(apiKey, c2, Some(page))
    ensures Language(c1) == Language(c2)
  {
    var tail := "&sort_by=popularity.desc";
    DiscoverUrlParts(apiKey, c1, page);
    DiscoverUrlParts(apiKey, c2, page);
    SplitAfterHead(BaseUrl + "/discover/movie?api_key=" + apiKey + "&page=" + IntToString(page), tail, tail,
      LanguageSuffix(c1), LanguageSuffix(c2));
    if Language(c1) != "" && Language(c2) != "" {
      SplitAfterHead(LanguageParam, Language(c1), Language(c2), "", "");
    }
  }

  /** The URL `fetchMovieDetails` requests. */
  function DetailsUrl(apiKey: string, id: int): (url: string)
    ensures BaseUrl + "/movie/" <= url
    ensures url[|BaseUrl + "/movie/"|..] == IntToString(id) + "?api_key=" + apiKey
  {
    BaseUrl + "/movie/" + IntToString(id) + "?api_key=" + apiKey
  }

  /** The URL `fetchMovieVideos` requests: the details path, then `/videos`, in US English. */
  function VideosUrl(apiKey: string, id: int): (url: string)
    ensures BaseUrl + "/movie/" + IntToString(id) <= url
    ensures url[|BaseUrl + "/movie/" + IntToString(id)|..] == "/videos?api_key=" + apiKey + "&language=en-US"
  {
    BaseUrl + "/movie/" + IntToString(id) + "/videos?api_key=" + apiKey + "&language=en-US"
  }

  /** Different movies have different details URLs. */
  lemma DetailsUrlInjective(apiKey: string, a: int, b: int)
    requires DetailsUrl(apiKey, a) == DetailsUrl(apiKey, b)
    ensures a == b
  {
    var tail := "?api_key=" + apiKey;
    assert DetailsUrl(apiKey, a) == BaseUrl + "/movie/" + IntToString(a) + tail;
    assert DetailsUrl(apiKey, b) == BaseUrl + "/movie/" + IntToString(b) + tail;
    SplitAfterHead(BaseUrl + "/movie/", IntToString(a), IntToString(b), tail, tail);
    IntToStringInjective(a, b);
  }

  /** Different movies have different videos URLs. */
  lemma VideosUrlInjective(apiKey: string, a: int, b: int)
    requires VideosUrl(apiKey, a) == VideosUrl(apiKey, b)
    ensures a == b
  {
    var head := BaseUrl + "/movie/";
    var tail := "/videos?api_key=" + apiKey + "&language=en-US";
    var sa, sb := IntToString(a), IntToString(b);
    assert VideosUrl(apiKey, a) == head + sa + tail;
    assert VideosUrl(apiKey, b) == head + sb + tail;
    assert |head + sa + tail| == |head| + |sa| + |tail|;
    assert |head + sb + tail| == |head| + |sb| + |tail|;
    SplitAfterHead(head, sa, sb, tail, tail);
    IntToStringInjective(a, b);
  }

  /** The default page is page 1, and page 2 of Hollywood asks for English originals. */
  lemma DiscoverExamples(apiKey: string)
    ensures DiscoverUrl(apiKey, "all", None) == DiscoverUrl(apiKey, "all", Some(1))
    ensures DiscoverUrl(apiKey, "all", None) == DiscoverBase(apiKey, 1)
    ensures DiscoverUrl(apiKey, "hollywood", Some(2)) == DiscoverBase(apiKey, 2) + LanguageParam + "en"
    ensures DiscoverBase(apiKey, 2) ==
      BaseUrl + "/discover/movie?api_key=" + apiKey + "&page=" + "2" + "&sort_by=popularity.desc"
  {
    assert IntToString(2) == "2";
  }
}
