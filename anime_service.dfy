/**
 * The metadata client (services/animeService.ts): the slug rewrite used for streaming
 * providers, the search request URL and the fallback for a search response without data.
 */
module AnimeService {
  import opened Types
  import opened Text

  // ---------------------------------------------------------------------------
  // generateSlug
  // ---------------------------------------------------------------------------

  /** `toLowerCase` on one character, for the ASCII letters. */
  function LowerChar(c: char): (r: char)
    ensures 'A' <= c <= 'Z' ==> 'a' <= r <= 'z' && r as int - c as int == 32
    ensures !('A' <= c <= 'Z') ==> r == c
  {
    if 'A' <= c <= 'Z' then (c as int + 32) as char else c
  }

  /** `toLowerCase`: every ASCII capital becomes its small letter, nothing else moves. */
  function ToLower(s: string): (r: string)
    ensures |r| == |s|
    ensures forall i :: 0 <= i < |s| ==> r[i] == LowerChar(s[i])
    ensures forall i :: 0 <= i < |r| ==> !('A' <= r[i] <= 'Z')
  {
    seq(|s|, i requires 0 <= i < |s| => LowerChar(s[i]))
  }

  predicate IsLowerAlnum(c: char) {
    'a' <= c <= 'z' || '0' <= c <= '9'
  }

  predicate IsHyphen(c: char) {
    c == '-'
  }

  /** The class `[\s-]`: what ends up as a hyphen in a slug. */
  predicate IsSeparator(c: char) {
    IsWhitespace(c) || c == '-'
  }

  /** The class `[a-z0-9\s-]` that survives the first `replace`. */
  predicate IsSlugSource(c: char) {
    IsLowerAlnum(c) || IsSeparator(c)
  }

  /** The alphabet of a slug. */
  predicate IsSlugChar(c: char) {
    IsLowerAlnum(c) || c == '-'
  }

  /**
   * `s.replace(/X+/g, by)` for a character class X (`inClass`): scanning from the left,
   * every maximal run of characters of the class is replaced by the one character `rep`.
   * `inRun` says that the character just before `s` belonged to a run already replaced.
   */
  function ReplaceRuns(s: string, inClass: char -> bool, rep: char, inRun: bool): (r: string)
    ensures |r| <= |s|
    ensures forall c :: c in r ==> c == rep || (c in s && !inClass(c))
  {
    if s == [] then []
    else if inClass(s[0]) then
      (if inRun then [] else [rep]) + ReplaceRuns(s[1..], inClass, rep, true)
    else [s[0]] + ReplaceRuns(s[1..], inClass, rep, false)
  }

  /** `generateSlug`: lower-case, drop characters outside `[a-z0-9\s-]`, whitespace runs to `-`, hyphen runs to `-`. */
  function GenerateSlug(title: string): (slug: string)
    ensures |slug| <= |title|
    ensures forall i :: 0 <= i < |slug| ==> IsSlugChar(slug[i])
    ensures NoTwoInARow(slug, '-')
  {
    var stripped := Filter(ToLower(title), IsSlugSource);
    var dashed := ReplaceRuns(stripped, IsWhitespace, '-', false);
    var slug := ReplaceRuns(dashed, IsHyphen, '-', false);
    NoAdjacentReplacement(dashed, IsHyphen, '-', false);
    assert forall i :: 0 <= i < |slug| ==> slug[i] in slug;
    slug
  }

  /** The reference reading of a slug: each maximal run of whitespace and hyphens becomes one hyphen. */
  function SeparatorRunsToHyphen(title: string): string {
    ReplaceRuns(Filter(ToLower(title), IsSlugSource), IsSeparator, '-', false)
  }

  /** `s` never holds `c` twice in a row. */
  predicate NoTwoInARow(s: string, c: char) {
    forall i :: 0 <= i < |s| - 1 ==> !(s[i] == c && s[i + 1] == c)
  }

  /**
   * When the replacement character belongs to the class, the output never holds two
   * replacements in a row; after a replaced run the output does not start with the class.
   */
  lemma {:induction false} NoAdjacentReplacement(s: string, inClass: char -> bool, rep: char, inRun: bool)
    requires inClass(rep)
    ensures NoTwoInARow(ReplaceRuns(s, inClass, rep, inRun), rep)
    ensures inRun && ReplaceRuns(s, inClass, rep, inRun) != [] ==> !inClass(ReplaceRuns(s, inClass, rep, inRun)[0])
  {
    if s != [] {
      var r := ReplaceRuns(s, inClass, rep, inRun);
      var next := inClass(s[0]);
      var rest := ReplaceRuns(s[1..], inClass, rep, next);
      NoAdjacentReplacement(s[1..], inClass, rep, next);
      var head := if next then (if inRun then [] else [rep]) else [s[0]];
      assert r == head + rest;
      if head != [] {
        assert head[0] == rep ==> rest == [] || rest[0] != rep;
        forall i | 0 <= i < |r| - 1 ensures !(r[i] == rep && r[i + 1] == rep) {
          if i == 0 {
            assert |head| == 1 && r[0] == head[0] && r[1] == rest[0];
          } else {
            assert r[i] == rest[i - 1] && r[i + 1] == rest[i];
          }
        }
      }
    }
  }

  /**
   * Replacing whitespace runs and then hyphen runs is the same as replacing runs of
   * `[\s-]` in one pass. `a`: inside a whitespace run; `b`: the last output was a hyphen.
   */
  lemma {:induction false} TwoPassesAreOne(t: string, a: bool, b: bool)
    requires a ==> b
    ensures ReplaceRuns(ReplaceRuns(t, IsWhitespace, '-', a), IsHyphen, '-', b)
         == ReplaceRuns(t, IsSeparator, '-', b)
  {
    if t != [] {
      var x, u := t[0], t[1..];
      var a' := IsWhitespace(x);
      var b' := IsSeparator(x);
      var inner := ReplaceRuns(u, IsWhitespace, '-', a');
      var head := if IsWhitespace(x) then (if a then [] else ['-']) else [x];
      assert ReplaceRuns(t, IsWhitespace, '-', a) == head + inner;
      TwoPassesAreOne(u, a', b');
      if head == [] {
        assert head + inner == inner;
      } else {
        assert (head + inner)[0] == head[0] && (head + inner)[1..] == inner;
      }
      assert ReplaceRuns(t, IsSeparator, '-', b)
          == (if b' then (if b then [] else ['-']) else [x]) + ReplaceRuns(u, IsSeparator, '-', b');
    }
  }

  /** Every maximal run of whitespace and hyphens of the lower-cased, stripped title becomes exactly one hyphen. */
  lemma SlugCollapsesSeparatorRuns(title: string)
    ensures GenerateSlug(title) == SeparatorRunsToHyphen(title)
  {
    TwoPassesAreOne(Filter(ToLower(title), IsSlugSource), false, false);
  }

  /** Characters outside the class pass through in order. */
  lemma {:induction false} ReplaceRunsKeepsOthers(s: string, inClass: char -> bool, rep: char, inRun: bool, keep: char -> bool)
    requires forall c :: keep(c) ==> !inClass(c)
    requires !keep(rep)
    ensures Filter(ReplaceRuns(s, inClass, rep, inRun), keep) == Filter(s, keep)
  {
    if s != [] {
      var r := ReplaceRuns(s, inClass, rep, inRun);
      if inClass(s[0]) {
        var rest := ReplaceRuns(s[1..], inClass, rep, true);
        ReplaceRunsKeepsOthers(s[1..], inClass, rep, true, keep);
        FilterAppend(if inRun then [] else [rep], rest, keep);
      } else {
        var rest := ReplaceRuns(s[1..], inClass, rep, false);
        ReplaceRunsKeepsOthers(s[1..], inClass, rep, false, keep);
        FilterAppend([s[0]], rest, keep);
      }
    }
  }

  /** The letters and digits of a slug, in order, are exactly those of the lower-cased title. */
  lemma SlugKeepsLettersAndDigits(title: string)
    ensures Filter(GenerateSlug(title), IsLowerAlnum) == Filter(ToLower(title), IsLowerAlnum)
  {
    SlugCollapsesSeparatorRuns(title);
    var stripped := Filter(ToLower(title), IsSlugSource);
    ReplaceRunsKeepsOthers(stripped, IsSeparator, '-', false, IsLowerAlnum);
    FilterNarrower(ToLower(title), IsSlugSource, IsLowerAlnum);
  }

  /** A string already in slug form is left unchanged by the replacement of separator runs. */
  lemma {:induction false} ReplaceRunsIdentity(s: string, inRun: bool)
    requires forall i :: 0 <= i < |s| ==> IsSlugChar(s[i])
    requires NoTwoInARow(s, '-')
    requires inRun ==> s == [] || s[0] != '-'
    ensures ReplaceRuns(s, IsSeparator, '-', inRun) == s
  {
    if s != [] {
      ReplaceRunsIdentity(s[1..], s[0] == '-');
      assert s == [s[0]] + s[1..];
    }
  }

  /** `generateSlug` is idempotent. */
  lemma SlugIdempotent(title: string)
    ensures GenerateSlug(GenerateSlug(title)) == GenerateSlug(title)
  {
    var w := GenerateSlug(title);
    assert ToLower(w) == w;
    FilterAllKept(w, IsSlugSource);
    SlugCollapsesSeparatorRuns(w);
    ReplaceRunsIdentity(w, false);
  }

  /** A run that ends the input leaves a trailing replacement (or nothing, inside a run). */
  lemma {:induction false} ReplaceRunsTrailing(s: string, inClass: char -> bool, rep: char, inRun: bool)
    requires s != [] && inClass(s[|s| - 1])
    ensures var r := ReplaceRuns(s, inClass, rep, inRun);
      (r != [] ==> r[|r| - 1] == rep) && (!inRun ==> r != [])
  {
    if |s| > 1 {
      ReplaceRunsTrailing(s[1..], inClass, rep, inClass(s[0]));
    }
  }

  lemma ConcatAssoc<T>(a: seq<T>, b: seq<T>, c: seq<T>)
    ensures a + (b + c) == (a + b) + c
  {
  }

  /** Inside a run already replaced, the rest of the run adds nothing. */
  lemma {:induction false} ReplaceRunsAbsorbs(run: string, y: string, inClass: char -> bool, rep: char)
    requires forall c :: c in run ==> inClass(c)
    ensures ReplaceRuns(run + y, inClass, rep, true) == ReplaceRuns(y, inClass, rep, true)
  {
    if run != [] {
      assert (run + y)[0] == run[0] && (run + y)[1..] == run[1..] + y;
      assert run[0] in run;
      ReplaceRunsAbsorbs(run[1..], y, inClass, rep);
    } else {
      assert run + y == y;
    }
  }

  /** After a character outside the class, the rest is replaced as if from the start. */
  lemma {:induction false} ReplaceRunsAfterBreak(x: string, z: string, inClass: char -> bool, rep: char, inRun: bool)
    requires x != [] && !inClass(x[|x| - 1])
    ensures ReplaceRuns(x + z, inClass, rep, inRun) == ReplaceRuns(x, inClass, rep, inRun) + ReplaceRuns(z, inClass, rep, false)
    decreases |x|
  {
    var a, x' := x[0], x[1..];
    var next := inClass(a);
    var head := if next then (if inRun then [] else [rep]) else [a];
    var rest, tail := ReplaceRuns(x' + z, inClass, rep, next), ReplaceRuns(z, inClass, rep, false);
    assert (x + z)[0] == a && (x + z)[1..] == x' + z;
    assert ReplaceRuns(x + z, inClass, rep, inRun) == head + rest;
    if x' == [] {
      assert !next && x' + z == z;
      assert ReplaceRuns(x, inClass, rep, inRun) == head;
    } else {
      assert x'[|x'| - 1] == x[|x| - 1];
      ReplaceRunsAfterBreak(x', z, inClass, rep, next);
      var mid := ReplaceRuns(x', inClass, rep, next);
      assert ReplaceRuns(x, inClass, rep, inRun) == head + mid;
      ConcatAssoc(head, mid, tail);
    }
  }

  /**
   * The defining property of `/X+/g`: a maximal run, with no class character just before
   * or just after it, becomes exactly one replacement and nothing around it changes.
   */
  lemma ReplaceRunsSplit(x: string, run: string, y: string, inClass: char -> bool, rep: char)
    requires x == [] || !inClass(x[|x| - 1])
    requires run != [] && forall c :: c in run ==> inClass(c)
    requires y == [] || !inClass(y[0])
    ensures ReplaceRuns(x + run + y, inClass, rep, false)
         == ReplaceRuns(x, inClass, rep, false) + [rep] + ReplaceRuns(y, inClass, rep, false)
  {
    var z := run + y;
    assert x + run + y == x + z;
    assert z[0] == run[0] && z[1..] == run[1..] + y;
    assert run[0] in run;
    ReplaceRunsAbsorbs(run[1..], y, inClass, rep);
    assert ReplaceRuns(y, inClass, rep, true) == ReplaceRuns(y, inClass, rep, false);
    assert ReplaceRuns(z, inClass, rep, false) == [rep] + ReplaceRuns(y, inClass, rep, false);
    if x == [] {
      assert x + z == z;
    } else {
      ReplaceRunsAfterBreak(x, z, inClass, rep, false);
    }
  }

  /** A separator at either end of the title survives lower-casing and stripping. */
  lemma StrippedEdges(title: string)
    requires title != []
    ensures var stripped := Filter(ToLower(title), IsSlugSource);
      && (IsSeparator(title[0]) ==> stripped != [] && IsSeparator(stripped[0]))
      && (IsSeparator(title[|title| - 1]) ==> stripped != [] && IsSeparator(stripped[|stripped| - 1]))
  {
    var lowered := ToLower(title);
    var n := |lowered| - 1;
    if IsSeparator(title[0]) {
      assert lowered[0] == title[0];
      FilterKeepsFirst(lowered, IsSlugSource);
    }
    if IsSeparator(title[n]) {
      assert lowered[n] == title[n];
      FilterKeepsLast(lowered, IsSlugSource);
    }
  }

  /** A title that starts with whitespace or a hyphen gives a slug that starts with `-`. */
  lemma SlugKeepsLeadingHyphen(title: string)
    requires title != [] && IsSeparator(title[0])
    ensures GenerateSlug(title) != [] && GenerateSlug(title)[0] == '-'
  {
    SlugCollapsesSeparatorRuns(title);
    StrippedEdges(title);
    var stripped := Filter(ToLower(title), IsSlugSource);
    assert ReplaceRuns(stripped, IsSeparator, '-', false) == ['-'] + ReplaceRuns(stripped[1..], IsSeparator, '-', true);
  }

  /** A title that ends with whitespace or a hyphen gives a slug that ends with `-`. */
  lemma SlugKeepsTrailingHyphen(title: string)
    requires title != [] && IsSeparator(title[|title| - 1])
    ensures GenerateSlug(title) != [] && GenerateSlug(title)[|GenerateSlug(title)| - 1] == '-'
  {
    SlugCollapsesSeparatorRuns(title);
    SeparatorRunsTrailing(title);
  }

  lemma SeparatorRunsTrailing(title: string)
    requires title != [] && IsSeparator(title[|title| - 1])
    ensures var r := SeparatorRunsToHyphen(title); r != [] && r[|r| - 1] == '-'
  {
    StrippedEdges(title);
    ReplaceRunsTrailing(Filter(ToLower(title), IsSlugSource), IsSeparator, '-', false);
  }

  // ---------------------------------------------------------------------------
  // searchAnime
  // ---------------------------------------------------------------------------

  const BaseUrl := "https://api.jikan.moe/v4"

  /** The fixed part of every search URL, around the encoded query. */
  function SearchPrefix(encodedQuery: string): string {
    BaseUrl + "/anime?q=" + encodedQuery + "&limit=24&order_by=score&sort=desc"
  }

  /** One `&name=value` pair appended to the search URL. */
  datatype QueryParam = QueryParam(name: string, value: string)

  function ParamIfSet(name: string, o: Option<string>): seq<QueryParam> {
    if Truthy(o) then [QueryParam(name, o.value)] else []
  }

  /** The filter parameters a search sends: the non-empty ones, in the order type, status, rating. */
  function ActiveParams(filters: Option<SearchFilters>): (ps: seq<QueryParam>)
    ensures |ps| <= 3
    ensures filters.None? ==> ps == []
    ensures forall p :: p in ps ==> p.value != ""
  {
    match filters
    case None => []
    case Some(f) => ParamIfSet("type", f.kind) + ParamIfSet("status", f.status) + ParamIfSet("rating", f.rating)
  }

  function RenderParams(ps: seq<QueryParam>): string {
    if ps == [] then "" else "&" + ps[0].name + "=" + ps[0].value + RenderParams(ps[1..])
  }

  /** The URL `searchAnime` fetches; `encode` stands for `encodeURIComponent`. */
  function SearchUrl(query: string, filters: Option<SearchFilters>, encode: string -> string): (url: string)
    ensures |SearchPrefix(encode(query))| <= |url| && url[..|SearchPrefix(encode(query))|] == SearchPrefix(encode(query))
  {
    SearchPrefix(encode(query)) + RenderParams(ActiveParams(filters))
  }

  function Rank(name: string): nat {
    if name == "type" then 0 else if name == "status" then 1 else 2
  }

  /**
   * A filter is sent exactly when it is set and non-empty, with its value unencoded, and the
   * parameters come in the fixed order type, status, rating.
   */
  lemma ActiveParamsExactly(filters: Option<SearchFilters>, v: string)
    ensures QueryParam("type", v) in ActiveParams(filters) <==> filters.Some? && filters.value.kind == Some(v) && v != ""
    ensures QueryParam("status", v) in ActiveParams(filters) <==> filters.Some? && filters.value.status == Some(v) && v != ""
    ensures QueryParam("rating", v) in ActiveParams(filters) <==> filters.Some? && filters.value.rating == Some(v) && v != ""
    ensures forall p :: p in ActiveParams(filters) ==> p.name in ["type", "status", "rating"]
    ensures var ps := ActiveParams(filters);
      forall i, j :: 0 <= i < j < |ps| ==> Rank(ps[i].name) < Rank(ps[j].name)
  {
    if filters.Some? {
      var f := filters.value;
      var a, b, c := ParamIfSet("type", f.kind), ParamIfSet("status", f.status), ParamIfSet("rating", f.rating);
      assert ActiveParams(filters) == a + b + c;
      assert forall p :: p in a + b + c <==> p in a || p in b || p in c;
      assert forall p :: p in a ==> p.name == "type";
      assert forall p :: p in b ==> p.name == "status";
      assert forall p :: p in c ==> p.name == "rating";
    }
  }

  /** Without a filters object, or with every filter empty, the URL is exactly the fixed prefix. */
  lemma NoFiltersNoParams(query: string, filters: Option<SearchFilters>, encode: string -> string)
    requires filters.Some? ==> !Truthy(filters.value.kind) && !Truthy(filters.value.status) && !Truthy(filters.value.rating)
    ensures SearchUrl(query, filters, encode) == SearchPrefix(encode(query))
  {
  }

  /** The URL construction of `searchAnime`: the prefix, then each filter appended when set. */
  method BuildSearchUrl(query: string, filters: Option<SearchFilters>, encode: string -> string) returns (url: string)
    ensures url == SearchUrl(query, filters, encode)
  {
    url := BaseUrl + "/anime?q=" + encode(query) + "&limit=24&order_by=score&sort=desc";
    ghost var sent: seq<QueryParam> := [];
    assert url == SearchPrefix(encode(query)) + RenderParams(sent);
    if filters.Some? {
      var f := filters.value;
      if Truthy(f.kind) {
        assert "&type=" == "&" + "type" + "=";
        url := url + "&type=" + f.kind.value;
        AppendParam(SearchPrefix(encode(query)), sent, "type", f.kind.value);
        sent := sent + [QueryParam("type", f.kind.value)];
        assert url == SearchPrefix(encode(query)) + RenderParams(sent);
      }
      if Truthy(f.status) {
        assert "&status=" == "&" + "status" + "=";
        url := url + "&status=" + f.status.value;
        AppendParam(SearchPrefix(encode(query)), sent, "status", f.status.value);
        sent := sent + [QueryParam("status", f.status.value)];
        assert url == SearchPrefix(encode(query)) + RenderParams(sent);
      }
      if Truthy(f.rating) {
        assert "&rating=" == "&" + "rating" + "=";
        url := url + "&rating=" + f.rating.value;
        AppendParam(SearchPrefix(encode(query)), sent, "rating", f.rating.value);
        sent := sent + [QueryParam("rating", f.rating.value)];
        assert url == SearchPrefix(encode(query)) + RenderParams(sent);
      }
      assert sent == ActiveParams(filters);
    }
  }

  /** Appending `&name=value` to a rendered URL renders one more parameter. */
  lemma AppendParam(prefix: string, sent: seq<QueryParam>, name: string, value: string)
    ensures prefix + RenderParams(sent) + ("&" + name + "=") + value
         == prefix + RenderParams(sent + [QueryParam(name, value)])
  {
    RenderAppend(sent, [QueryParam(name, value)]);
    RenderOne(name, value);
  }

  lemma RenderOne(name: string, value: string)
    ensures RenderParams([QueryParam(name, value)]) == ("&" + name + "=") + value
  {
    assert [QueryParam(name, value)][1..] == [];
  }

  lemma {:induction false} RenderAppend(a: seq<QueryParam>, b: seq<QueryParam>)
    ensures RenderParams(a + b) == RenderParams(a) + RenderParams(b)
  {
    if a == [] {
      assert a + b == b;
    } else {
      assert (a + b)[1..] == a[1..] + b;
      RenderAppend(a[1..], b);
    }
  }

  /** The body of a list response (search, top, trending): `data` may be missing. */
  datatype ListResponse = ListResponse(data: Option<seq<Anime>>)

  /** `data.data || []`: a response without data yields the empty list, otherwise its list unchanged. */
  function SearchResults(response: ListResponse): (results: seq<Anime>)
    ensures response.data.None? ==> results == []
    ensures response.data.Some? ==> results == response.data.value
  {
    match response.data
    case Some(list) => list
    case None => []
  }

  /** The body of a detail response: `getAnimeById` returns its `data` unchecked. */
  datatype DetailResponse = DetailResponse(data: Option<Anime>)

  // ---------------------------------------------------------------------------
  // The other fetchers: their URLs; their results are `data.data`, unchecked
  // ---------------------------------------------------------------------------

  /** The ranking endpoint both home lists are taken from. */
  const TopAnimeEndpoint := BaseUrl + "/top/anime?"

  /** `getTrendingAnime(page)`: the top list, one page of twenty. */
  function TrendingUrl(page: nat): (url: string)
    ensures |TopAnimeEndpoint| + 14 < |url| && url[..|TopAnimeEndpoint|] == TopAnimeEndpoint
    ensures url[|TopAnimeEndpoint|..|TopAnimeEndpoint| + 5] == "page="
    ensures url[|url| - 9..] == "&limit=20"
  {
    TopAnimeEndpoint + "page=" + DecimalText(page) + "&limit=20"
  }

  /** `getTopMovies()`: the five top movies. */
  function TopMoviesUrl(): (url: string)
    ensures |TopAnimeEndpoint| < |url| && url[..|TopAnimeEndpoint|] == TopAnimeEndpoint
    ensures url[|TopAnimeEndpoint|..] == "type=movie&limit=5"
  {
    TopAnimeEndpoint + "type=movie&limit=5"
  }

  /** `getAnimeById(id)`: the full record of one entry. */
  function DetailUrl(id: nat): (url: string)
    ensures |url| > |BaseUrl + "/anime/"| + 5 && url[..|BaseUrl + "/anime/"|] == BaseUrl + "/anime/"
    ensures url[|url| - 5..] == "/full"
  {
    BaseUrl + "/anime/" + DecimalText(id) + "/full"
  }

  /** The two home requests never coincide: no trending page is the movie list. */
  lemma HomeRequestsDiffer(page: nat)
    ensures TrendingUrl(page) != TopMoviesUrl()
  {
    var e := |TopAnimeEndpoint|;
    assert TrendingUrl(page)[e..e + 5][0] == 'p';
    assert TopMoviesUrl()[e..][0] == 't';
  }

  /** Different pages are different requests. */
  lemma TrendingUrlDeterminesPage(i: nat, j: nat)
    requires TrendingUrl(i) == TrendingUrl(j)
    ensures i == j
  {
    InfixDetermined(TopAnimeEndpoint + "page=", DecimalText(i), DecimalText(j), "&limit=20");
    DecimalTextInjective(i, j);
  }

  /** The detail request names the clicked entry: different ids are different requests. */
  lemma DetailUrlDeterminesId(i: nat, j: nat)
    requires DetailUrl(i) == DetailUrl(j)
    ensures i == j
  {
    InfixDetermined(BaseUrl + "/anime/", DecimalText(i), DecimalText(j), "/full");
    DecimalTextInjective(i, j);
  }
}
