/** `EmbeddingService` (src/lib/embeddingService.js): embedding generation,
    the similarity search with its local fallback, and the conflict report.

    The network is not modelled. What the OpenAI endpoint and the Supabase
    client answer is passed in as data (`ProviderResponse`, `Store`), and
    what the service asks them is returned as data (`EmbeddingRequest`,
    `StoreCall`), so that the contracts can say which requests happen. A
    thrown JavaScript error is a `Failure` carrying an `Error`. */
module EmbeddingService {
  import opened Common
  import opened VectorMath

  // ---------------------------------------------------------------------
  // Errors

  /** The errors the service throws, by where they arise. */
  datatype Error =
    | MissingApiKey                              // no key configured (line 21)
    | ProviderStatus(status: nat, body: string)  // a non-ok HTTP response (line 43)
    | Thrown(message: string)                    // a rejected fetch/json, or a TypeError

  /** `error.message` of each error. */
  function Message(e: Error): string {
    match e
    case MissingApiKey => "OpenAI API key is not configured"
    case ProviderStatus(status, body) => ProviderErrorPrefix + NatToDecimal(status) + " - " + body
    case Thrown(m) => m
  }

  const ProviderErrorPrefix := "OpenAI API error: "

  /** Reads the status and the body back out of a provider error message. */
  function ParseProviderMessage(m: string): Option<(nat, string)> {
    if !StartsWith(m, ProviderErrorPrefix) then None
    else
      var rest := m[|ProviderErrorPrefix|..];
      var k := LeadingDigits(rest);
      if k == 0 || !StartsWith(rest[k..], " - ") then None
      else Some((ParseDecimal(rest[..k]), rest[k + 3..]))
  }

  /** The message of a provider error carries its status and its body text:
      both can be recovered from it. */
  lemma ProviderMessageRoundTrip(status: nat, body: string)
    ensures ParseProviderMessage(Message(ProviderStatus(status, body))) == Some((status, body))
  {
    var d := NatToDecimal(status);
    var m := Message(ProviderStatus(status, body));
    assert m == ProviderErrorPrefix + (d + (" - " + body));
    assert m[..|ProviderErrorPrefix|] == ProviderErrorPrefix;
    var rest := m[|ProviderErrorPrefix|..];
    assert rest == d + (" - " + body);
    LeadingDigitsOfDecimal(d, " - " + body);
    assert rest[..|d|] == d;
    assert rest[|d|..] == " - " + body;
    DecimalRoundTrip(status);
  }

  datatype Result<T> = Success(value: T) | Failure(error: Error)

  // ---------------------------------------------------------------------
  // generateEmbedding (lines 11-53)

  const EmbeddingsUrl := "https://api.openai.com/v1/embeddings"
  const EmbeddingModel := "text-embedding-ada-002"

  /** The POST that `generateEmbedding` sends. */
  datatype EmbeddingRequest = EmbeddingRequest(url: string, authorization: string, input: string, model: string)

  /** How the provider answered the request. */
  datatype ProviderResponse =
    | NotOk(status: nat, body: string)  // `response.ok` false; `body` is `await response.text()`
    | Ok(data: seq<Vector>)             // the `embedding` of each entry of `data.data`
    | Unreachable(message: string)      // `fetch` or `response.json()` rejected

  /** The message of the TypeError JavaScript throws for `null.substring`. */
  const NullTextMessage := "Cannot read properties of null (reading 'substring')"
  /** The message of the TypeError for `data.data[0].embedding` on an empty list. */
  const NoEmbeddingMessage := "Cannot read properties of undefined (reading 'embedding')"

  /** One call of `generateEmbedding`: the request it sent, if any, and what it
      returned (`Success(None)` is its `return null`). */
  datatype EmbeddingCall = EmbeddingCall(request: Option<EmbeddingRequest>, result: Result<Option<Vector>>)

  /** `generateEmbedding(text)` with the configured key `apiKey`. The guards
      run in the source's order: the logging line dereferences `text` first,
      then blank text, then a missing (or empty) key, and only then the
      request. */
  function GenerateEmbedding(text: Option<string>, apiKey: Option<string>, response: ProviderResponse): (c: EmbeddingCall)
    ensures c.request.Some? <==> text.Some? && !IsBlank(text.value) && apiKey.Some? && apiKey.value != ""
    ensures text.Some? && IsBlank(text.value) ==> c.result == Success(None)
    ensures text.Some? && !IsBlank(text.value) && (apiKey.None? || apiKey.value == "") ==>
      c.result == Failure(MissingApiKey)
    ensures c.request.Some? ==>
      c.request.value == EmbeddingRequest(EmbeddingsUrl, "Bearer " + apiKey.value, text.value, EmbeddingModel)
    ensures c.request.Some? && response.NotOk? ==> c.result == Failure(ProviderStatus(response.status, response.body))
    ensures c.result.Success? && c.result.value.Some? <==> c.request.Some? && response.Ok? && response.data != []
    ensures c.result.Success? && c.result.value.Some? ==> c.result.value.value == response.data[0]
    ensures c.result == Success(None) <==> text.Some? && IsBlank(text.value)
    ensures text.None? ==> c.result == Failure(Thrown(NullTextMessage))
    ensures c.request.Some? && response.Unreachable? ==> c.result == Failure(Thrown(response.message))
    ensures c.request.Some? && response == Ok([]) ==> c.result == Failure(Thrown(NoEmbeddingMessage))
  {
    if text.None? then EmbeddingCall(None, Failure(Thrown(NullTextMessage)))
    else if IsBlank(text.value) then EmbeddingCall(None, Success(None))
    else if apiKey.None? || apiKey.value == "" then EmbeddingCall(None, Failure(MissingApiKey))
    else
      var request := EmbeddingRequest(EmbeddingsUrl, "Bearer " + apiKey.value, text.value, EmbeddingModel);
      var result := match response
        case NotOk(status, body) => Failure(ProviderStatus(status, body))
        case Unreachable(m) => Failure(Thrown(m))
        case Ok(data) => if data == [] then Failure(Thrown(NoEmbeddingMessage)) else Success(Some(data[0]));
      EmbeddingCall(Some(request), result)
  }

  /** When no request is sent the provider's answer cannot matter: the blank
      and missing-key guards decide before anything leaves the client. */
  lemma NoRequestNoDependence(text: Option<string>, apiKey: Option<string>, r1: ProviderResponse, r2: ProviderResponse)
    requires GenerateEmbedding(text, apiKey, r1).request.None?
    ensures GenerateEmbedding(text, apiKey, r1) == GenerateEmbedding(text, apiKey, r2)
  {
  }

  // ---------------------------------------------------------------------
  // The store rows and matches

  /** A row of the `files` table as the select returns it. */
  datatype FileRow = FileRow(id: string, name: string, content: Option<string>, embedding: Option<Vector>)

  /** A similar document: what the RPC returns, and what the fallback builds. */
  datatype Match = Match(id: string, name: string, content: Option<string>, similarity: real)

  /** The RPC's `match_count`. */
  const MatchCount: nat := 5

  /** The calls the search makes on the Supabase client, in order. */
  datatype StoreCall =
    | ListFiles(userId: string)            // the preliminary select (lines 69-72)
    | FindSimilar(queryEmbedding: Vector, userId: string, threshold: real, matchCount: nat)  // the RPC (85-90)
    | ListEmbeddedFiles(userId: string)    // the fallback select (121-125)

  /** The preliminary select: `{data, error}`, or a rejected await. */
  datatype Listing = Listed(rows: Option<seq<FileRow>>, error: Option<string>) | ListingThrew(message: string)

  /** The RPC: `{data}` without error, `{error}`, or a rejected await. */
  datatype RpcOutcome = RpcOk(data: Option<seq<Match>>) | RpcErr(message: string) | RpcThrew(message: string)

  /** The fallback select: `data` (null when the select failed), or a rejected await. */
  datatype FallbackRead = Fetched(files: Option<seq<FileRow>>) | FetchThrew(message: string)

  /** What the Supabase client answers to each of the three calls for one owner. */
  datatype Store = Store(listing: Listing, rpc: RpcOutcome, fallback: FallbackRead)

  // ---------------------------------------------------------------------
  // manualSimilarityCheck (lines 119-150)

  /** A row the fallback keeps: it has an embedding and its score is a
      number strictly greater than the threshold. */
  predicate Qualifies(query: Vector, row: FileRow, threshold: real, quot: Quotient) {
    row.embedding.Some? && Exceeds(ScoreOf(CosineOf(Some(query), row.embedding), quot), threshold)
  }

  /** `NaN > threshold` is false for every threshold, so a stored row whose
      embedding is all zeros (or a query that is) is never kept, while a
      row of another length scores 0 and is kept exactly below a negative
      threshold. */
  lemma QualifiesOnDegenerateRows(query: Vector, row: FileRow, threshold: real, quot: Quotient)
    requires row.embedding.Some?
    ensures |row.embedding.value| == |query| && (SquaredNorm(query) == 0.0 || SquaredNorm(row.embedding.value) == 0.0) ==>
      !Qualifies(query, row, threshold, quot)
    ensures |row.embedding.value| != |query| ==> (Qualifies(query, row, threshold, quot) <==> threshold < 0.0)
  {
  }

  /** The entry the fallback pushes for a qualifying row. */
  function MatchOf(query: Vector, row: FileRow, quot: Quotient): Match
    requires row.embedding.Some?
  {
    var s := ScoreOf(CosineOf(Some(query), row.embedding), quot);
    Match(row.id, row.name, row.content, if s.Number? then s.value else 0.0)
  }

  /** The entries of the scan over `rows`, in row order. */
  function ManualMatches(query: Vector, rows: seq<FileRow>, threshold: real, quot: Quotient): (ms: seq<Match>)
    ensures |ms| <= |rows|
    ensures forall i :: 0 <= i < |ms| ==> ms[i].similarity > threshold
  {
    if rows == [] then []
    else
      var last := rows[|rows| - 1];
      ManualMatches(query, rows[..|rows| - 1], threshold, quot)
        + (if Qualifies(query, last, threshold, quot) then [MatchOf(query, last, quot)] else [])
  }

  /** What `manualSimilarityCheck` returns: the scan over `files || []`, or
      `[]` when the select threw. */
  function ManualResult(query: Vector, threshold: real, read: FallbackRead, quot: Quotient): seq<Match> {
    match read
    case FetchThrew(_) => []
    case Fetched(files) => ManualMatches(query, if files.Some? then files.value else [], threshold, quot)
  }

  /** The loop of `manualSimilarityCheck` over the rows the select returned. */
  method ManualSimilarityCheck(queryEmbedding: Vector, threshold: real, read: FallbackRead, quot: Quotient)
    returns (similarities: seq<Match>)
    ensures similarities == ManualResult(queryEmbedding, threshold, read, quot)
    ensures |similarities| <= (if read.Fetched? && read.files.Some? then |read.files.value| else 0)
    ensures forall i :: 0 <= i < |similarities| ==> similarities[i].similarity > threshold
  {
    if read.FetchThrew? {
      return [];
    }
    var files := if read.files.Some? then read.files.value else [];
    similarities := [];
    for i := 0 to |files|
      invariant similarities == ManualMatches(queryEmbedding, files[..i], threshold, quot)
      invariant |similarities| <= i
      invariant forall j :: 0 <= j < |similarities| ==> similarities[j].similarity > threshold
    {
      assert files[..i + 1][..i] == files[..i];
      var file := files[i];
      if file.embedding.Some? {
        var similarity := CosineSimilarity(Some(queryEmbedding), file.embedding, quot);
        if Exceeds(similarity, threshold) {
          similarities := similarities + [Match(file.id, file.name, file.content, similarity.value)];
        }
      }
    }
    assert files[..|files|] == files;
  }

  /** Scanning two runs of rows one after the other gives the two results one
      after the other: the scan keeps row order and does not sort. */
  lemma {:induction false} ManualMatchesAppend(query: Vector, a: seq<FileRow>, b: seq<FileRow>, threshold: real, quot: Quotient)
    ensures ManualMatches(query, a + b, threshold, quot)
         == ManualMatches(query, a, threshold, quot) + ManualMatches(query, b, threshold, quot)
    decreases |b|
  {
    if b == [] {
      assert a + b == a;
    } else {
      assert (a + b)[..|a + b| - 1] == a + b[..|b| - 1];
      ManualMatchesAppend(query, a, b[..|b| - 1], threshold, quot);
    }
  }

  /** Every entry comes from a qualifying row, and every qualifying row
      contributes its entry: the result is exactly the qualifying rows. */
  lemma {:induction false} ManualMatchesExact(query: Vector, rows: seq<FileRow>, threshold: real, quot: Quotient)
    ensures forall m :: m in ManualMatches(query, rows, threshold, quot) ==>
      exists i :: 0 <= i < |rows| && Qualifies(query, rows[i], threshold, quot) && m == MatchOf(query, rows[i], quot)
    ensures forall i :: 0 <= i < |rows| && Qualifies(query, rows[i], threshold, quot) ==>
      MatchOf(query, rows[i], quot) in ManualMatches(query, rows, threshold, quot)
  {
    if rows != [] {
      var init := rows[..|rows| - 1];
      ManualMatchesExact(query, init, threshold, quot);
      forall m | m in ManualMatches(query, rows, threshold, quot)
        ensures exists i :: 0 <= i < |rows| && Qualifies(query, rows[i], threshold, quot) && m == MatchOf(query, rows[i], quot)
      {
        if m in ManualMatches(query, init, threshold, quot) {
          var i :| 0 <= i < |init| && Qualifies(query, init[i], threshold, quot) && m == MatchOf(query, init[i], quot);
          assert rows[i] == init[i];
        } else {
          assert m == MatchOf(query, rows[|rows| - 1], quot);
        }
      }
      forall i | 0 <= i < |rows| && Qualifies(query, rows[i], threshold, quot)
        ensures MatchOf(query, rows[i], quot) in ManualMatches(query, rows, threshold, quot)
      {
        if i < |rows| - 1 {
          assert rows[i] == init[i];
        }
      }
    }
  }

  /** There is no count limit: when every row qualifies, all of them are
      returned, however many there are (the RPC's `match_count` of 5 does not
      apply to the fallback). */
  lemma {:induction false} ManualMatchesUnlimited(query: Vector, rows: seq<FileRow>, threshold: real, quot: Quotient)
    requires forall i :: 0 <= i < |rows| ==> Qualifies(query, rows[i], threshold, quot)
    ensures |ManualMatches(query, rows, threshold, quot)| == |rows|
  {
    if rows != [] {
      ManualMatchesUnlimited(query, rows[..|rows| - 1], threshold, quot);
    }
  }

  // ---------------------------------------------------------------------
  // findSimilarDocuments (lines 56-116)

  /** One call of `findSimilarDocuments`: the calls it made and the array it returned. */
  datatype Search = Search(calls: seq<StoreCall>, matches: seq<Match>)

  function FindSimilarDocuments(embedding: Option<Vector>, userId: string, threshold: real, store: Store, quot: Quotient): (s: Search)
    ensures embedding.None? ==> s == Search([], [])
    ensures embedding.Some? ==> |s.calls| >= 1 && s.calls[0] == ListFiles(userId)
    ensures embedding.Some? && store.listing.Listed? ==>
      |s.calls| >= 2 && s.calls[1] == FindSimilar(embedding.value, userId, threshold, MatchCount)
    ensures ListEmbeddedFiles(userId) in s.calls <==> embedding.Some? && store.listing.Listed? && store.rpc.RpcErr?
    ensures embedding.Some? && store.listing.Listed? && store.rpc.RpcErr? ==>
      s.matches == ManualResult(embedding.value, threshold, store.fallback, quot)
    ensures embedding.Some? && store.listing.Listed? && store.rpc.RpcOk? ==>
      s.matches == (if store.rpc.data.Some? then store.rpc.data.value else [])
    ensures store.listing.ListingThrew? || store.rpc.RpcThrew? ==> s.matches == []
    ensures embedding.Some? && store.listing.ListingThrew? ==> s.calls == [ListFiles(userId)]
    ensures embedding.Some? && store.listing.Listed? ==> |s.calls| == (if store.rpc.RpcErr? then 3 else 2)
  {
    if embedding.None? then Search([], [])
    else if store.listing.ListingThrew? then Search([ListFiles(userId)], [])
    else
      var calls := [ListFiles(userId), FindSimilar(embedding.value, userId, threshold, MatchCount)];
      match store.rpc
      case RpcThrew(_) => Search(calls, [])
      case RpcErr(_) =>
        Search(calls + [ListEmbeddedFiles(userId)], ManualResult(embedding.value, threshold, store.fallback, quot))
      case RpcOk(data) => Search(calls, if data.Some? then data.value else [])
  }

  /** The preliminary listing is only logged: its rows and its error never
      change what the search returns. */
  lemma ListingIsIgnored(embedding: Option<Vector>, userId: string, threshold: real, store: Store,
                         rows: Option<seq<FileRow>>, error: Option<string>, quot: Quotient)
    requires store.listing.Listed?
    ensures FindSimilarDocuments(embedding, userId, threshold, store.(listing := Listed(rows, error)), quot)
         == FindSimilarDocuments(embedding, userId, threshold, store, quot)
  {
  }

  /** On the fallback path every returned match scores strictly above the
      threshold and comes from a stored row with an embedding. */
  lemma FallbackMatchesQualify(embedding: Vector, userId: string, threshold: real, store: Store, quot: Quotient)
    requires store.listing.Listed? && store.rpc.RpcErr?
    ensures forall m :: m in FindSimilarDocuments(Some(embedding), userId, threshold, store, quot).matches ==>
      m.similarity > threshold
    ensures store.fallback.Fetched? && store.fallback.files.Some? ==>
      forall m :: m in FindSimilarDocuments(Some(embedding), userId, threshold, store, quot).matches ==>
        exists i :: 0 <= i < |store.fallback.files.value| &&
          Qualifies(embedding, store.fallback.files.value[i], threshold, quot) &&
          m == MatchOf(embedding, store.fallback.files.value[i], quot)
  {
    if store.fallback.Fetched? {
      var rows := if store.fallback.files.Some? then store.fallback.files.value else [];
      ManualMatchesExact(embedding, rows, threshold, quot);
    }
  }

  // ---------------------------------------------------------------------
  // detectConflicts (lines 170-212)

  /** The threshold `detectConflicts` searches with. */
  const ConflictThreshold: real := 0.85

  /** An entry of the report's `conflicts`. */
  datatype Conflict = Conflict(id: string, name: string, similarity: int, contentPreview: string)

  /** The object `detectConflicts` returns; `embedding` and `error` are the
      optional fields. */
  datatype Report = Report(hasConflicts: bool, conflicts: seq<Conflict>, embedding: Option<Vector>, error: Option<string>)

  /** `Math.round`: the nearest integer, halves rounded up. */
  function JsRound(x: real): (n: int)
    ensures n as real - 0.5 <= x < n as real + 0.5
  {
    (x + 0.5).Floor
  }

  /** `Math.round(similarity * 100)`. */
  function Percent(similarity: real): int {
    JsRound(similarity * 100.0)
  }

  const PreviewLength: nat := 100
  const NoPreview := "No preview available"

  /** `content ? content.substring(0, 100) + '...' : 'No preview available'`:
      null and the empty string are both falsy. */
  function Preview(content: Option<string>): (p: string)
    ensures content.None? || content.value == "" ==> p == NoPreview
    ensures content.Some? && content.value != "" ==>
      var n := if |content.value| < PreviewLength then |content.value| else PreviewLength;
      p == content.value[..n] + "..." && |p| <= PreviewLength + 3
  {
    if content.None? || content.value == "" then NoPreview
    else
      var s := content.value;
      s[..if |s| < PreviewLength then |s| else PreviewLength] + "..."
  }

  function ToConflict(m: Match): Conflict {
    Conflict(m.id, m.name, Percent(m.similarity), Preview(m.content))
  }

  function ToConflicts(docs: seq<Match>): (cs: seq<Conflict>)
    ensures |cs| == |docs|
    ensures forall i :: 0 <= i < |docs| ==> cs[i] == ToConflict(docs[i])
  {
    seq(|docs|, i requires 0 <= i < |docs| => ToConflict(docs[i]))
  }

  /** What the service is given: the configured key and the answers of the
      provider and of the store. */
  datatype Environment = Environment(apiKey: Option<string>, provider: ProviderResponse, store: Store)

  /** One call of `detectConflicts`: the embedding request and store calls it
      made, and the report it returned. */
  datatype Detection = Detection(request: Option<EmbeddingRequest>, calls: seq<StoreCall>, report: Report)

  /** `detectConflicts(fileContent, fileName, userId)`. The file name is only
      logged. Every failure becomes a report with `error`; nothing is thrown. */
  function DetectConflicts(fileContent: Option<string>, userId: string, env: Environment, quot: Quotient): (d: Detection)
    ensures d.request == GenerateEmbedding(fileContent, env.apiKey, env.provider).request
    ensures d.report.hasConflicts <==> |d.report.conflicts| > 0
    ensures d.report.error.Some? ==>
      d.report == Report(false, [], None, d.report.error) && d.calls == []
    ensures d.report.embedding.None? && d.report.error.None? ==> d.report == Report(false, [], None, None) && d.calls == []
    ensures GenerateEmbedding(fileContent, env.apiKey, env.provider).result == Success(None) ==>
      d.report == Report(false, [], None, None) && d.calls == []
  {
    var call := GenerateEmbedding(fileContent, env.apiKey, env.provider);
    match call.result
    case Failure(e) => Detection(call.request, [], Report(false, [], None, Some(Message(e))))
    case Success(None) => Detection(call.request, [], Report(false, [], None, None))
    case Success(Some(v)) =>
      var search := FindSimilarDocuments(Some(v), userId, ConflictThreshold, env.store, quot);
      if |search.matches| > 0 then
        Detection(call.request, search.calls, Report(true, ToConflicts(search.matches), Some(v), None))
      else
        Detection(call.request, search.calls, Report(false, [], Some(v), None))
  }

  /** When an embedding is computed, the report carries it, was produced by
      one search with threshold 0.85, and lists one conflict per match of that
      search, in the same order, with the rounded percentage and the preview. */
  lemma DetectConflictsReport(fileContent: Option<string>, userId: string, env: Environment, quot: Quotient)
    requires GenerateEmbedding(fileContent, env.apiKey, env.provider).result.Success?
    requires GenerateEmbedding(fileContent, env.apiKey, env.provider).result.value.Some?
    ensures var v := GenerateEmbedding(fileContent, env.apiKey, env.provider).result.value.value;
      var search := FindSimilarDocuments(Some(v), userId, ConflictThreshold, env.store, quot);
      var r := DetectConflicts(fileContent, userId, env, quot).report;
      && r.embedding == Some(v) && r.error.None?
      && DetectConflicts(fileContent, userId, env, quot).calls == search.calls
      && |r.conflicts| == |search.matches|
      && forall i :: 0 <= i < |r.conflicts| ==>
           && r.conflicts[i].id == search.matches[i].id
           && r.conflicts[i].name == search.matches[i].name
           && r.conflicts[i].similarity == Percent(search.matches[i].similarity)
           && r.conflicts[i].contentPreview == Preview(search.matches[i].content)
  {
  }

  /** A failing embedding (missing key, provider error, unreachable
      provider) yields the degraded report carrying the error's message. */
  lemma DetectConflictsDegrades(fileContent: Option<string>, userId: string, env: Environment, quot: Quotient)
    requires GenerateEmbedding(fileContent, env.apiKey, env.provider).result.Failure?
    ensures DetectConflicts(fileContent, userId, env, quot).report
         == Report(false, [], None, Some(Message(GenerateEmbedding(fileContent, env.apiKey, env.provider).result.error)))
  {
  }

  /** A similarity in [0, 1] is reported as an integer percentage in [0, 100]. */
  lemma PercentInRange(similarity: real)
    requires 0.0 <= similarity <= 1.0
    ensures 0 <= Percent(similarity) <= 100
  {
    var n := Percent(similarity);
    assert n as real - 0.5 <= similarity * 100.0 < n as real + 0.5;
  }

  /** Uploading text whose embedding equals that of a stored document is
      flagged with that document at 100%, whatever else the owner has
      stored, when the RPC reports an error, the fallback scan runs with the
      exact quotient, and its select returns the stored rows. */
  lemma IdenticalContentConflicts(text: string, userId: string, env: Environment, quot: Quotient,
                                  v: Vector, rows: seq<FileRow>, k: nat)
    requires ExactQuotient(quot)
    requires !IsBlank(text) && env.apiKey.Some? && env.apiKey.value != ""
    requires env.provider == Ok([v]) && SquaredNorm(v) != 0.0
    requires env.store.listing.Listed? && env.store.rpc.RpcErr?
    requires env.store.fallback == Fetched(Some(rows))
    requires k < |rows| && rows[k].embedding == Some(v)
    ensures DetectConflicts(Some(text), userId, env, quot).report.hasConflicts
    ensures Conflict(rows[k].id, rows[k].name, 100, Preview(rows[k].content))
         in DetectConflicts(Some(text), userId, env, quot).report.conflicts
  {
    SelfSimilarity(v, quot);
    assert Qualifies(v, rows[k], ConflictThreshold, quot);
    ManualMatchesExact(v, rows, ConflictThreshold, quot);
    var ms := ManualMatches(v, rows, ConflictThreshold, quot);
    var m := MatchOf(v, rows[k], quot);
    assert m == Match(rows[k].id, rows[k].name, rows[k].content, 1.0);
    assert m in ms;
    var i :| 0 <= i < |ms| && ms[i] == m;
    assert Percent(1.0) == 100;
    assert ToConflicts(ms)[i] == Conflict(rows[k].id, rows[k].name, 100, Preview(rows[k].content));
  }
}
