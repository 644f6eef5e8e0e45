/** Records shared by the services, the search bar and the root component (types.ts). */
module Types {

  /** A value that may be absent: `undefined`, `null` or a missing field. */
  datatype Option<+T> = None | Some(value: T)

  /** The outcome of one awaited call into an outside service: its value, or a thrown error. */
  datatype Outcome<+T> = Success(value: T) | Failure

  /** One catalog entry as the metadata service returns it. Floating-point fields are kept as reals. */
  datatype Anime = Anime(
    malId: nat,
    title: string,
    titleEnglish: Option<string>,
    imageUrl: string,
    score: real,
    synopsis: string,
    episodes: Option<nat>,
    status: string,
    genres: seq<string>,
    trailerUrl: Option<string>,
    aired: string)

  /** The optional search filters; each field may be missing or the empty string. `kind` is the source's `type` field. */
  datatype SearchFilters = SearchFilters(kind: Option<string>, status: Option<string>, rating: Option<string>)

  /** JavaScript truthiness of an optional string: present and not empty. */
  predicate Truthy(o: Option<string>) {
    o.Some? && o.value != ""
  }

  /** The five top-level display modes of the application. */
  datatype View = Home | Details | Search | AiSensei | Watch

  datatype Role = User | Ai

  /** One entry of the chat log. */
  datatype ChatTurn = ChatTurn(role: Role, content: string)

  datatype Recommendation = Recommendation(title: string, reason: string, similarityScore: real)

  /** The structured answer of the recommendation request. */
  datatype RecommendationResponse = RecommendationResponse(recommendations: seq<Recommendation>)
}
