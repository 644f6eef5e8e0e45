/**
 * The root component (App.tsx): the view, the selected entry, the fetched lists, the chat
 * log and the player settings, and the handlers that change them. Every awaited call into an
 * outside service is a parameter holding its outcome; a handler runs to completion in one step.
 */
module App {
  import opened Types
  import opened Text
  import AnimeService
  import GeminiService

  /** `anime.title_english || anime.title`: the title shown everywhere. */
  function DisplayTitle(a: Anime): (t: string)
    ensures Truthy(a.titleEnglish) ==> t == a.titleEnglish.value
    ensures !Truthy(a.titleEnglish) ==> t == a.title
  {
    if Truthy(a.titleEnglish) then a.titleEnglish.value else a.title
  }

  // ---------------------------------------------------------------------------
  // The video servers and getEmbedUrl
  // ---------------------------------------------------------------------------

  /** The four server buttons of the player. */
  datatype Server = HiAnime | Zoro | Consumet | Cloud

  /** The value each button stores in `activeServer`. */
  function ServerKey(s: Server): (key: string)
    ensures IsServerKey(key)
  {
    match s
    case HiAnime => "hianime"
    case Zoro => "zoro"
    case Consumet => "consumet"
    case Cloud => "cloud"
  }

  /** Each button stores its own key: different buttons select different servers. */
  lemma ServerKeysDistinct(a: Server, b: Server)
    ensures a != b ==> ServerKey(a) != ServerKey(b)
  {
  }

  predicate IsServerKey(key: string) {
    key == "hianime" || key == "zoro" || key == "consumet" || key == "cloud"
  }

  const DefaultServer := "hianime"
  const FallbackHost := "https://vidsrc.me/embed/anime/"

  /** The embed URL prefix the `switch` picks for a server key; any other key falls back to `vidsrc.me`. */
  function EmbedHost(server: string): (host: string)
    ensures host == FallbackHost <==> !IsServerKey(server)
    ensures |host| > 15
  {
    if server == "hianime" then "https://vidsrc.to/embed/anime/"
    else if server == "zoro" then "https://vidlink.pro/embed/anime/"
    else if server == "consumet" then "https://vidsrc.xyz/embed/anime/"
    else if server == "cloud" then "https://vidsrc.cc/v3/embed/anime/"
    else FallbackHost
  }

  /** `getEmbedUrl`: the host of the active server followed by the entry's id. */
  function EmbedUrl(server: string, id: nat): (url: string)
    ensures |EmbedHost(server)| < |url| && url[..|EmbedHost(server)|] == EmbedHost(server)
    ensures url[|EmbedHost(server)|..] == DecimalText(id)
  {
    EmbedHost(server) + DecimalText(id)
  }

  /** The characters at positions 11 and 15 of each host, which tell the five hosts apart. */
  function HostMark(server: string): (char, char) {
    if server == "hianime" then ('s', 't')
    else if server == "zoro" then ('l', '.')
    else if server == "consumet" then ('s', 'x')
    else if server == "cloud" then ('s', 'c')
    else ('s', 'm')
  }

  lemma HostMarks(server: string)
    ensures |EmbedHost(server)| > 15
    ensures EmbedHost(server)[11] == HostMark(server).0 && EmbedHost(server)[15] == HostMark(server).1
  {
  }

  /** Two different keys, one of them a server key, give hosts that differ at a position inside both. */
  lemma HostsDiffer(a: string, b: string)
    requires a != b && (IsServerKey(a) || IsServerKey(b))
    ensures exists k :: 0 <= k < |EmbedHost(a)| && k < |EmbedHost(b)| && EmbedHost(a)[k] != EmbedHost(b)[k]
  {
    HostMarks(a);
    HostMarks(b);
    assert HostMark(a) != HostMark(b);
    if HostMark(a).0 == HostMark(b).0 {
      assert EmbedHost(a)[15] != EmbedHost(b)[15];
    } else {
      assert EmbedHost(a)[11] != EmbedHost(b)[11];
    }
  }

  /** Different servers, or a server and any other key, give different URLs whatever the ids. */
  lemma EmbedUrlsDistinct(a: string, b: string, i: nat, j: nat)
    requires a != b && (IsServerKey(a) || IsServerKey(b))
    ensures EmbedUrl(a, i) != EmbedUrl(b, j)
  {
    HostsDiffer(a, b);
    var ha, hb := EmbedHost(a), EmbedHost(b);
    var k :| 0 <= k < |ha| && k < |hb| && ha[k] != hb[k];
    assert EmbedUrl(a, i)[k] == ha[k];
    assert EmbedUrl(b, j)[k] == hb[k];
  }

  /** The id is embedded: one server never gives the same URL for two ids. */
  lemma EmbedUrlDeterminesId(server: string, i: nat, j: nat)
    ensures EmbedUrl(server, i) == EmbedUrl(server, j) ==> i == j
  {
    if EmbedUrl(server, i) == EmbedUrl(server, j) {
      DecimalTextInjective(i, j);
    }
  }

  // ---------------------------------------------------------------------------
  // Messages and requests
  // ---------------------------------------------------------------------------

  const SenseiBusy := "Sensei is busy. Try again!"

  /** The assistant's chat entry: the answer, or the fixed apology when the call failed. */
  function SenseiReply(response: Outcome<string>): (reply: string)
    ensures response.Success? ==> reply == response.value
    ensures response.Failure? ==> reply == SenseiBusy
  {
    match response
    case Success(text) => text
    case Failure => SenseiBusy
  }

  /** The user's chat entry logged by a streaming lookup from the player. */
  function StreamRequestMessage(title: string): (msg: string)
    ensures |msg| == |title| + 57 && msg[23..|msg| - 34] == title
  {
    "Find live streams for \"" + title + "\" using HiAnime/Consumet protocol."
  }

  /** `trending.slice(0, 3).map(a => a.title)`: the native titles of the first three trending entries. */
  function LikedTitles(trending: seq<Anime>): (liked: seq<string>)
    ensures |liked| == (if |trending| < 3 then |trending| else 3)
    ensures forall i :: 0 <= i < |liked| ==> liked[i] == trending[i].title
  {
    var n := if |trending| < 3 then |trending| else 3;
    seq(n, i requires 0 <= i < n => trending[i].title)
  }

  /** The arguments of one recommendation request. */
  datatype RecRequest = RecRequest(mood: string, liked: seq<string>)

  /** `filters && (filters.type || filters.status)`: a rating alone is not a filter here. */
  predicate HasKindOrStatus(filters: Option<SearchFilters>)
    ensures HasKindOrStatus(filters) ==> AnimeService.ActiveParams(filters) != []
    ensures !HasKindOrStatus(filters) ==> forall p :: p in AnimeService.ActiveParams(filters) ==> p.name == "rating"
  {
    filters.Some? && (Truthy(filters.value.kind) || Truthy(filters.value.status))
  }

  // ---------------------------------------------------------------------------
  // The component
  // ---------------------------------------------------------------------------

  class AniWatchApp {
    var view: View
    /** The two home lists; `None` is the `undefined` stored from a response without `data`. */
    var trending: Option<seq<Anime>>
    var topMovies: Option<seq<Anime>>
    var searchResults: seq<Anime>
    var selectedAnime: Option<Anime>
    var loading: bool
    var searchQuery: string
    var activeServer: string
    var playerError: bool
    var aiInput: string
    var chatHistory: seq<ChatTurn>
    var isAiThinking: bool
    var aiRecs: Option<RecommendationResponse>
    var moodInput: string
    var streamingInfo: Option<GeminiService.StreamingInfo>

    /**
     * The active server is always one of the four button keys, so the `vidsrc.me` fallback is
     * never used, and the player view always has an entry to play.
     */
    ghost predicate Valid()
      reads this
    {
      IsServerKey(activeServer) && (view == Watch ==> selectedAnime.Some?)
    }

    constructor ()
      ensures Valid()
      ensures view == Home && trending == Some([]) && topMovies == Some([]) && searchResults == []
      ensures selectedAnime == None && loading && searchQuery == "" && activeServer == DefaultServer
      ensures !playerError && aiInput == "" && chatHistory == [] && !isAiThinking
      ensures aiRecs == None && moodInput == "" && streamingInfo == None
    {
      view := Home;
      trending, topMovies, searchResults := Some([]), Some([]), [];
      selectedAnime := None;
      loading := true;
      searchQuery := "";
      activeServer := DefaultServer;
      playerError := false;
      aiInput := "";
      chatHistory := [];
      isAiThinking := false;
      aiRecs := None;
      moodInput := "";
      streamingInfo := None;
    }

    /**
     * `fetchInitialData`: the two requests go out together, and both lists are stored, each as
     * its response's `data` unchecked, only when both succeed; the spinner ends either way.
     */
    method FetchInitialData(trendingResponse: Outcome<AnimeService.ListResponse>,
                            moviesResponse: Outcome<AnimeService.ListResponse>) returns (requests: (string, string))
      requires Valid()
      modifies this`trending, this`topMovies, this`loading
      ensures Valid() && !loading
      ensures requests == (AnimeService.TrendingUrl(1), AnimeService.TopMoviesUrl())
      ensures trendingResponse.Success? && moviesResponse.Success? ==>
        trending == trendingResponse.value.data && topMovies == moviesResponse.value.data
      ensures trendingResponse.Failure? || moviesResponse.Failure? ==>
        trending == old(trending) && topMovies == old(topMovies)
    {
      requests := (AnimeService.TrendingUrl(1), AnimeService.TopMoviesUrl());
      if trendingResponse.Success? && moviesResponse.Success? {
        trending := trendingResponse.value.data;
        topMovies := moviesResponse.value.data;
      }
      loading := false;
    }

    /**
     * `handleSearch`: always records the query and shows the search view; a blank query without
     * a type or status filter clears the results and sends nothing; otherwise one search is sent
     * and its results replace the list, which a failed search leaves as it was.
     */
    method HandleSearch(query: string, filters: Option<SearchFilters>, encode: string -> string,
                        response: Outcome<AnimeService.ListResponse>) returns (request: Option<string>)
      requires Valid()
      modifies this`searchQuery, this`view, this`searchResults
      ensures Valid()
      ensures searchQuery == query && view == Search
      ensures request.None? <==> AllWhitespace(query) && !HasKindOrStatus(filters)
      ensures request.Some? ==> request.value == AnimeService.SearchUrl(query, filters, encode)
      ensures request.None? ==> searchResults == []
      ensures request.Some? && response.Success? ==> searchResults == AnimeService.SearchResults(response.value)
      ensures request.Some? && response.Failure? ==> searchResults == old(searchResults)
    {
      searchQuery := query;
      view := Search;
      var hasFilters := HasKindOrStatus(filters);
      var blank := IsBlank(query);
      if blank && !hasFilters {
        searchResults := [];
        return None;
      }
      var url := AnimeService.BuildSearchUrl(query, filters, encode);
      request := Some(url);
      if response.Success? {
        searchResults := AnimeService.SearchResults(response.value);
      }
    }

    /**
     * `handleAnimeClick(id)`: the streaming lookup is cleared and the entry's detail record is
     * requested; a successful fetch selects the response's entry and opens the details view;
     * a failure changes neither. The spinner ends.
     */
    method HandleAnimeClick(id: nat, response: Outcome<AnimeService.DetailResponse>) returns (request: string)
      requires Valid()
      modifies this`loading, this`streamingInfo, this`selectedAnime, this`view
      ensures Valid()
      ensures request == AnimeService.DetailUrl(id)
      ensures streamingInfo == None && !loading
      ensures response.Success? ==> selectedAnime == response.value.data && view == Details
      ensures response.Failure? ==> selectedAnime == old(selectedAnime) && view == old(view)
    {
      loading := true;
      streamingInfo := None;
      request := AnimeService.DetailUrl(id);
      if response.Success? {
        selectedAnime := response.value.data;
        view := Details;
      }
      loading := false;
    }

    /** `handleWatchClick`: selects the entry, resets the player to the default server, opens the player. */
    method HandleWatchClick(anime: Anime)
      requires Valid()
      modifies this`selectedAnime, this`activeServer, this`playerError, this`view
      ensures Valid()
      ensures selectedAnime == Some(anime) && activeServer == DefaultServer && !playerError && view == Watch
    {
      selectedAnime := Some(anime);
      activeServer := DefaultServer;
      playerError := false;
      view := Watch;
    }

    /** A server button: switches the server and clears the playback-error flag. */
    method SelectServer(server: Server)
      requires Valid()
      modifies this`activeServer, this`playerError
      ensures Valid()
      ensures activeServer == ServerKey(server) && !playerError
    {
      activeServer := ServerKey(server);
      playerError := false;
    }

    /** The "RE-INIT" button. */
    method ResetPlayerError()
      requires Valid()
      modifies this`playerError
      ensures Valid() && !playerError
    {
      playerError := false;
    }

    /** The "Force Buffer Reset" button flips the playback-error flag. */
    method TogglePlayerError()
      requires Valid()
      modifies this`playerError
      ensures Valid() && playerError == !old(playerError)
    {
      playerError := !playerError;
    }

    /** The plain `setView` calls of the logo, menu, footer and back buttons; none of them targets the player. */
    method Navigate(target: View)
      requires Valid() && target != Watch
      modifies this`view
      ensures Valid() && view == target
    {
      view := target;
    }

    /** The chat box's `onChange`. */
    method EditAiInput(value: string)
      requires Valid()
      modifies this`aiInput
      ensures Valid() && aiInput == value
    {
      aiInput := value;
    }

    /** The mood box's `onChange`. */
    method EditMood(value: string)
      requires Valid()
      modifies this`moodInput
      ensures Valid() && moodInput == value
    {
      moodInput := value;
    }

    /**
     * `getEmbedUrl` inside the player view (which renders nothing without a selection). The slug
     * of the title is computed and then not used.
     */
    method GetEmbedUrl() returns (url: string)
      requires Valid() && selectedAnime.Some?
      ensures url == EmbedUrl(activeServer, selectedAnime.value.malId)
      ensures url != FallbackHost + DecimalText(selectedAnime.value.malId)
    {
      var id := selectedAnime.value.malId;
      var slug := AnimeService.GenerateSlug(DisplayTitle(selectedAnime.value));
      url := EmbedUrl(activeServer, id);
      EmbedUrlsDistinct(activeServer, "", id, id);
    }

    /**
     * `handleFindStreaming`: without a selection nothing happens. Otherwise the display title is
     * looked up; a result is stored and, when the player is showing, logged as one user entry
     * followed by one assistant entry. The thinking flag ends false.
     */
    method HandleFindStreaming(response: Outcome<GeminiService.GenerateResponse>) returns (asked: Option<string>)
      requires Valid()
      modifies this`isAiThinking, this`streamingInfo, this`chatHistory
      ensures Valid()
      ensures selectedAnime.None? ==>
        asked == None && isAiThinking == old(isAiThinking)
        && streamingInfo == old(streamingInfo) && chatHistory == old(chatHistory)
      ensures selectedAnime.Some? ==> asked == Some(DisplayTitle(selectedAnime.value)) && !isAiThinking
      ensures selectedAnime.Some? && response.Success? ==>
        streamingInfo == Some(GeminiService.FindStreamingSources(response.value))
      ensures selectedAnime.Some? && response.Success? && view == Watch ==>
        chatHistory == old(chatHistory) + [ChatTurn(User, StreamRequestMessage(DisplayTitle(selectedAnime.value))),
                                           ChatTurn(Ai, response.value.text)]
      ensures selectedAnime.Some? && response.Success? && view != Watch ==> chatHistory == old(chatHistory)
      ensures selectedAnime.Some? && response.Failure? ==>
        streamingInfo == old(streamingInfo) && chatHistory == old(chatHistory)
    {
      if selectedAnime.None? {
        return None;
      }
      isAiThinking := true;
      var title := DisplayTitle(selectedAnime.value);
      asked := Some(title);
      if response.Success? {
        var res := GeminiService.FindStreamingSources(response.value);
        streamingInfo := Some(res);
        if view == Watch {
          chatHistory := chatHistory + [ChatTurn(User, StreamRequestMessage(title))];
          chatHistory := chatHistory + [ChatTurn(Ai, res.text)];
        }
      }
      isAiThinking := false;
    }

    /**
     * `handleAskSensei`: a blank question does nothing. Otherwise the question is logged, the
     * box is emptied, and the answer, or the fixed apology on failure, is logged after it.
     */
    method HandleAskSensei(response: Outcome<string>) returns (asked: Option<string>)
      requires Valid()
      modifies this`chatHistory, this`aiInput, this`isAiThinking
      ensures Valid()
      ensures AllWhitespace(old(aiInput)) ==>
        asked == None && chatHistory == old(chatHistory)
        && aiInput == old(aiInput) && isAiThinking == old(isAiThinking)
      ensures !AllWhitespace(old(aiInput)) ==>
        asked == Some(old(aiInput)) && aiInput == "" && !isAiThinking
        && chatHistory == old(chatHistory) + [ChatTurn(User, old(aiInput)), ChatTurn(Ai, SenseiReply(response))]
    {
      var blank := IsBlank(aiInput);
      if blank {
        return None;
      }
      var userMsg := aiInput;
      asked := Some(userMsg);
      chatHistory := chatHistory + [ChatTurn(User, userMsg)];
      aiInput := "";
      isAiThinking := true;
      chatHistory := chatHistory + [ChatTurn(Ai, SenseiReply(response))];
      assert chatHistory == old(chatHistory) + [ChatTurn(User, userMsg), ChatTurn(Ai, SenseiReply(response))];
      isAiThinking := false;
    }

    /**
     * `handleGetRecs`: a blank mood does nothing. Otherwise the mood and the first three
     * trending titles are sent; a result replaces the recommendations, a failure keeps them.
     * When the trending list is `undefined`, `trending.slice` throws before anything is sent
     * and the catch leaves the recommendations as they were.
     */
    method HandleGetRecs(response: Outcome<RecommendationResponse>) returns (request: Option<RecRequest>)
      requires Valid()
      modifies this`aiRecs, this`isAiThinking
      ensures Valid()
      ensures AllWhitespace(moodInput) ==> request == None && aiRecs == old(aiRecs) && isAiThinking == old(isAiThinking)
      ensures !AllWhitespace(moodInput) ==> !isAiThinking
      ensures !AllWhitespace(moodInput) && trending.None? ==> request == None && aiRecs == old(aiRecs)
      ensures !AllWhitespace(moodInput) && trending.Some? ==> request == Some(RecRequest(moodInput, LikedTitles(trending.value)))
      ensures !AllWhitespace(moodInput) && trending.Some? && response.Success? ==> aiRecs == Some(response.value)
      ensures !AllWhitespace(moodInput) && trending.Some? && response.Failure? ==> aiRecs == old(aiRecs)
    {
      var blank := IsBlank(moodInput);
      if blank {
        return None;
      }
      isAiThinking := true;
      if trending.Some? {
        var liked := LikedTitles(trending.value);
        request := Some(RecRequest(moodInput, liked));
        if response.Success? {
          aiRecs := Some(response.value);
        }
      } else {
        request := None;
      }
      isAiThinking := false;
    }
  }
}
