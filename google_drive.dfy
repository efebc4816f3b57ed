/**
 * lib/google-drive.ts: the rules of the Google Drive connector. The Drive API calls are
 * back ends passed as functions from the request to the response (or the message of the
 * error they throw); what is modelled is the request each operation builds, how the
 * answer or error is turned into its result, and the credential state of the service.
 */
module GoogleDrive {
  import opened Wrappers
  import opened JsText

  const SEARCH_FILES_PAGE_SIZE := 20
  const LIST_FILES_PAGE_SIZE := 50
  const SEARCH_FIELDS := "files(id, name, mimeType, size, modifiedTime, webViewLink)"
  const LIST_FIELDS := "files(id, name, mimeType, size, modifiedTime, webViewLink, parents)"
  const ORDER_BY := "modifiedTime desc"
  const NOT_TRASHED := "trashed=false"
  const QUOTE := "'"
  const NAME_CONTAINS := "name contains " + QUOTE
  const AND_NOT_TRASHED := QUOTE + " and " + NOT_TRASHED

  const SEARCH_FAILED := "Failed to search Google Drive files"
  const LIST_FAILED := "Failed to list Google Drive files"
  const CONTENT_FAILED := "Failed to retrieve file content from Google Drive"
  const METADATA_FAILED := "Failed to retrieve file metadata from Google Drive"
  const AUTH_FAILED := "Failed to authenticate with Google Drive"
  const UNSUPPORTED := "Unsupported file type: "

  const GOOGLE_DOC := "application/vnd.google-apps.document"
  const GOOGLE_SLIDES := "application/vnd.google-apps.presentation"
  const GOOGLE_SHEET := "application/vnd.google-apps.spreadsheet"
  const PDF := "application/pdf"
  const TEXT_PREFIX := "text/"
  const PLAIN_TEXT := "text/plain"
  const CSV := "text/csv"

  /** A file as `files.list` describes it; `size` is a decimal string that may be absent. */
  datatype DriveFile = DriveFile(
    id: string, name: string, mimeType: string, size: Option<string>,
    modifiedTime: string, webViewLink: string)

  /** The parameters of a `files.list` call. */
  datatype ListRequest = ListRequest(q: string, pageSize: int, fields: string, orderBy: string)

  /** `drive.files.list`: the `files` field of its answer (which may be absent), or an error. */
  type ListBackend = ListRequest -> Result<Option<seq<DriveFile>>, string>

  // ---------------------------------------------------------------------------
  // Listing and searching

  /** The `q` parameter of `listFiles`: a name filter when a query is given, and never trashed files. */
  function ListQuery(query: string): string {
    if query != "" then NAME_CONTAINS + query + AND_NOT_TRASHED else NOT_TRASHED
  }

  /** Every listing query excludes trashed files. */
  lemma ListQueryExcludesTrashed(query: string)
    ensures EndsWith(ListQuery(query), NOT_TRASHED)
    ensures query == "" ==> ListQuery(query) == NOT_TRASHED
  {
    var q := ListQuery(query);
    if query != "" {
      assert q == (NAME_CONTAINS + query + QUOTE + " and ") + NOT_TRASHED;
    }
  }

  predicate EndsWith(s: string, suffix: string) {
    |suffix| <= |s| && s[|s| - |suffix|..] == suffix
  }

  /**
   * The user's text is spliced in verbatim: it can be read back from the query between
   * the fixed prefix and suffix, with nothing escaped.
   */
  lemma ListQueryVerbatim(query: string)
    requires query != ""
    ensures var q := ListQuery(query);
            && |q| == |NAME_CONTAINS| + |query| + |AND_NOT_TRASHED|
            && q[|NAME_CONTAINS|..|NAME_CONTAINS| + |query|] == query
            && q[..|NAME_CONTAINS|] == NAME_CONTAINS
  {
  }

  /** The number of occurrences of `c` in `s`. */
  function Count(s: string, c: char): nat {
    if s == [] then 0 else Count(s[..|s| - 1], c) + (if s[|s| - 1] == c then 1 else 0)
  }

  lemma {:induction false} CountConcat(s: string, t: string, c: char)
    ensures Count(s + t, c) == Count(s, c) + Count(t, c)
    decreases |t|
  {
    if t != [] {
      assert (s + t)[..|s + t| - 1] == s + t[..|t| - 1];
      CountConcat(s, t[..|t| - 1], c);
    } else {
      assert s + t == s;
    }
  }

  lemma {:induction false} CountAbsent(s: string, c: char)
    requires c !in s
    ensures Count(s, c) == 0
  {
    if s != [] {
      assert s[..|s| - 1] + [s[|s| - 1]] == s;
      CountAbsent(s[..|s| - 1], c);
    }
  }

  /**
   * No escaping: the query has exactly two more single quotes than the user's text, so
   * a quote in the text ends the string literal early.
   */
  lemma ListQueryQuotes(query: string)
    requires query != ""
    ensures Count(ListQuery(query), '\'') == Count(query, '\'') + 2
  {
    CountConcat(NAME_CONTAINS, query, '\'');
    CountConcat(NAME_CONTAINS + query, AND_NOT_TRASHED, '\'');
    FixedPartsQuoteOnce();
  }

  /** The fixed prefix and suffix of a listing query hold one single quote each. */
  lemma FixedPartsQuoteOnce()
    ensures Count(NAME_CONTAINS, '\'') == 1
    ensures Count(AND_NOT_TRASHED, '\'') == 1
  {
    assert Count(QUOTE, '\'') == 1 by {
      assert QUOTE[..0] == [];
    }
    CountConcat("name contains ", QUOTE, '\'');
    CountAbsent("name contains ", '\'');
    CountConcat(QUOTE, " and " + NOT_TRASHED, '\'');
    CountAbsent(" and " + NOT_TRASHED, '\'');
    assert AND_NOT_TRASHED == QUOTE + (" and " + NOT_TRASHED);
  }

  /** The request `listFiles(maxResults = 50, query = '')` sends. */
  function ListFilesRequest(maxResults: Option<int>, query: Option<string>): (r: ListRequest)
    ensures r.pageSize == maxResults.GetOr(LIST_FILES_PAGE_SIZE)
    ensures r.q == ListQuery(query.GetOr(""))
  {
    ListRequest(ListQuery(query.GetOr("")), maxResults.GetOr(LIST_FILES_PAGE_SIZE), LIST_FIELDS, ORDER_BY)
  }

  /** `listFiles`: the files of the answer, none when absent; any error becomes the generic one. */
  function ListFiles(maxResults: Option<int>, query: Option<string>, backend: ListBackend): (r: Result<seq<DriveFile>, string>)
    ensures r.Failure? <==> backend(ListFilesRequest(maxResults, query)).Failure?
    ensures r.Failure? ==> r.error == LIST_FAILED
    ensures r.Success? ==> r.value == backend(ListFilesRequest(maxResults, query)).value.GetOr([])
  {
    match backend(ListFilesRequest(maxResults, query))
    case Success(files) => Success(files.GetOr([]))
    case Failure(_) => Failure(LIST_FAILED)
  }

  /** The request `searchFiles(query, maxResults = 20)` sends: the query as given. */
  function SearchFilesRequest(query: string, maxResults: Option<int>): (r: ListRequest)
    ensures r.q == query && r.pageSize == maxResults.GetOr(SEARCH_FILES_PAGE_SIZE)
  {
    ListRequest(query, maxResults.GetOr(SEARCH_FILES_PAGE_SIZE), SEARCH_FIELDS, ORDER_BY)
  }

  /** `searchFiles`: as `listFiles`, with its own error message. */
  function SearchFiles(query: string, maxResults: Option<int>, backend: ListBackend): (r: Result<seq<DriveFile>, string>)
    ensures r.Failure? <==> backend(SearchFilesRequest(query, maxResults)).Failure?
    ensures r.Failure? ==> r.error == SEARCH_FAILED
    ensures r.Success? ==> r.value == backend(SearchFilesRequest(query, maxResults)).value.GetOr([])
  {
    match backend(SearchFilesRequest(query, maxResults))
    case Success(files) => Success(files.GetOr([]))
    case Failure(_) => Failure(SEARCH_FAILED)
  }

  /** The full-text clause for one keyword, spliced in verbatim. */
  function KeywordClause(keyword: string): string {
    "fullText contains '" + keyword + "'"
  }

  /** The clauses of `keywords.map(...)`, one per keyword, in order. */
  function KeywordClauses(keywords: seq<string>): (cs: seq<string>)
    ensures |cs| == |keywords|
    ensures forall i :: 0 <= i < |cs| ==> cs[i] == KeywordClause(keywords[i])
  {
    if keywords == [] then [] else KeywordClauses(keywords[..|keywords| - 1]) + [KeywordClause(keywords[|keywords| - 1])]
  }

  /** The query `searchByKeywords` builds: the clauses joined by " or ". */
  function KeywordQuery(keywords: seq<string>): string {
    Join(KeywordClauses(keywords), " or ")
  }

  /**
   * No keyword gives the empty query; one more keyword appends " or " and its clause, so
   * the clauses come in input order.
   */
  lemma KeywordQueryAppend(keywords: seq<string>, k: string)
    ensures KeywordQuery([]) == ""
    ensures KeywordQuery(keywords + [k]) ==
              if keywords == [] then KeywordClause(k) else KeywordQuery(keywords) + " or " + KeywordClause(k)
  {
    var ks := keywords + [k];
    assert ks[..|ks| - 1] == keywords;
    JoinAppend(KeywordClauses(keywords), KeywordClause(k), " or ");
  }

  /** `searchByKeywords(keywords)`: a search with the keyword query and the default page size. */
  function SearchByKeywords(keywords: seq<string>, backend: ListBackend): (r: Result<seq<DriveFile>, string>)
    ensures var answer := backend(ListRequest(KeywordQuery(keywords), SEARCH_FILES_PAGE_SIZE, SEARCH_FIELDS, ORDER_BY));
            && (r.Failure? <==> answer.Failure?)
            && (r.Failure? ==> r.error == SEARCH_FAILED)
            && (r.Success? ==> r.value == answer.value.GetOr([]))
  {
    SearchFiles(KeywordQuery(keywords), None, backend)
  }

  /** `getFileMetadata(fileId)`: the file's description, or the generic metadata error. */
  function GetFileMetadata(fileId: string, backend: string -> Result<DriveFile, string>): (r: Result<DriveFile, string>)
    ensures r.Success? <==> backend(fileId).Success?
    ensures r.Success? ==> r.value == backend(fileId).value
    ensures r.Failure? ==> r.error == METADATA_FAILED
  {
    match backend(fileId)
    case Success(file) => Success(file)
    case Failure(_) => Failure(METADATA_FAILED)
  }

  // ---------------------------------------------------------------------------
  // File content

  /** How a file's content is fetched: exported to another type, or downloaded as is. */
  datatype ContentFetch = Export(fileId: string, exportMimeType: string) | Media(fileId: string)

  /** The metadata `files.get` returns; the MIME type may be missing. */
  datatype FileMetadata = FileMetadata(mimeType: Option<string>, name: Option<string>)

  /** The MIME types `getFileContent` accepts. */
  predicate Supported(mimeType: string) {
    mimeType in {GOOGLE_DOC, GOOGLE_SLIDES, GOOGLE_SHEET, PDF} || StartsWith(mimeType, TEXT_PREFIX)
  }

  /** The if-chain of `getFileContent` on a MIME type: the fetch to make, or the error it throws. */
  function ContentFetchFor(fileId: string, mimeType: string): (r: Result<ContentFetch, string>)
    ensures r.Success? <==> Supported(mimeType)
    ensures r.Failure? ==> r.error == UNSUPPORTED + mimeType
    ensures mimeType == GOOGLE_DOC || mimeType == GOOGLE_SLIDES ==> r == Success(Export(fileId, PLAIN_TEXT))
    ensures mimeType == GOOGLE_SHEET ==> r == Success(Export(fileId, CSV))
    ensures mimeType == PDF || StartsWith(mimeType, TEXT_PREFIX) ==> r == Success(Media(fileId))
  {
    NativeTypesAreNotText();
    if mimeType == GOOGLE_DOC then Success(Export(fileId, PLAIN_TEXT))
    else if mimeType == GOOGLE_SLIDES then Success(Export(fileId, PLAIN_TEXT))
    else if mimeType == GOOGLE_SHEET then Success(Export(fileId, CSV))
    else if mimeType == PDF then Success(Media(fileId))
    else if StartsWith(mimeType, TEXT_PREFIX) then Success(Media(fileId))
    else Failure(UNSUPPORTED + mimeType)
  }

  lemma NativeTypesAreNotText()
    ensures !StartsWith(GOOGLE_DOC, TEXT_PREFIX) && !StartsWith(GOOGLE_SLIDES, TEXT_PREFIX)
    ensures !StartsWith(GOOGLE_SHEET, TEXT_PREFIX) && !StartsWith(PDF, TEXT_PREFIX)
  {
    assert GOOGLE_DOC[0] == GOOGLE_SLIDES[0] == GOOGLE_SHEET[0] == PDF[0] == 'a' != TEXT_PREFIX[0];
  }

  /**
   * `getFileContent(fileId)`: read the file's metadata (`files.get` with the fields
   * "mimeType, name", answered by `getMetadata`), dispatch on its MIME type, fetch. Every
   * error on the way, the unsupported-type error and a missing MIME type (on which
   * `startsWith` throws) included, becomes the same generic error.
   */
  function GetFileContent(
    fileId: string, getMetadata: string -> Result<FileMetadata, string>,
    fetch: ContentFetch -> Result<string, string>)
    : (r: Result<string, string>)
    ensures r.Failure? ==> r.error == CONTENT_FAILED
    ensures var metadata := getMetadata(fileId);
            r.Success? <==>
              && metadata.Success? && metadata.value.mimeType.Some?
              && Supported(metadata.value.mimeType.value)
              && fetch(ContentFetchFor(fileId, metadata.value.mimeType.value).value).Success?
    ensures r.Success? ==>
              r.value == fetch(ContentFetchFor(fileId, getMetadata(fileId).value.mimeType.value).value).value
  {
    match getMetadata(fileId)
    case Failure(_) => Failure(CONTENT_FAILED)
    case Success(md) =>
      match md.mimeType
      case None => Failure(CONTENT_FAILED)
      case Some(mimeType) =>
        match ContentFetchFor(fileId, mimeType)
        case Failure(_) => Failure(CONTENT_FAILED)
        case Success(how) =>
          match fetch(how)
          case Failure(_) => Failure(CONTENT_FAILED)
          case Success(content) => Success(content)
  }

  /** Native Google formats are always exported, never downloaded as they are. */
  lemma NativeFormatsExported(fileId: string, mimeType: string)
    requires mimeType in {GOOGLE_DOC, GOOGLE_SLIDES, GOOGLE_SHEET}
    ensures ContentFetchFor(fileId, mimeType).Success? && ContentFetchFor(fileId, mimeType).value.Export?
    ensures StartsWith(ContentFetchFor(fileId, mimeType).value.exportMimeType, TEXT_PREFIX)
  {
  }

  /** An image is rejected, and the caller sees only the generic error. */
  lemma ImageRejected(
    fileId: string, getMetadata: string -> Result<FileMetadata, string>,
    fetch: ContentFetch -> Result<string, string>)
    requires getMetadata(fileId) == Success(FileMetadata(Some("image/png"), Some("scan.png")))
    ensures !Supported("image/png")
    ensures GetFileContent(fileId, getMetadata, fetch) == Failure(CONTENT_FAILED)
  {
    assert !StartsWith("image/png", TEXT_PREFIX) by {
      assert "image/png"[..5] != TEXT_PREFIX by { assert "image/png"[0] == 'i'; }
    }
  }

  // ---------------------------------------------------------------------------
  // Credentials

  /** OAuth tokens; only whether `access_token` is truthy matters here. */
  datatype Credentials = Credentials(accessToken: Option<string>, refreshToken: Option<string>, expiryDate: Option<int>)

  /** Credentials exist and carry a non-empty access token. */
  predicate HasAccessToken(c: Option<Credentials>) {
    c.Some? && c.value.accessToken.Some? && c.value.accessToken.value != ""
  }

  /**
   * `GoogleDriveService`: the credentials its OAuth2 client holds. A new client holds an
   * empty credentials object; `None` stands for `null`/`undefined` set by a caller.
   */
  class GoogleDriveService {
    var credentials: Option<Credentials>

    constructor ()
      ensures credentials == Some(Credentials(None, None, None))
      ensures !IsAuthenticated()
    {
      credentials := Some(Credentials(None, None, None));
    }

    /**
     * `setCredentials(code)`: `exchange` is the OAuth server's answer for the code. The
     * tokens it returns replace the credentials; on an error nothing changes and the
     * caller sees the generic authentication error.
     */
    method SetCredentials(exchange: Result<Credentials, string>) returns (r: Result<Credentials, string>)
      modifies this
      ensures exchange.Success? ==> r == exchange && credentials == Some(exchange.value)
      ensures exchange.Failure? ==> r == Failure(AUTH_FAILED) && credentials == old(credentials)
    {
      match exchange {
        case Success(tokens) =>
          credentials := Some(tokens);
          r := Success(tokens);
        case Failure(_) =>
          r := Failure(AUTH_FAILED);
      }
    }

    /** `setTokens(tokens)`: the tokens replace whatever credentials were held. */
    method SetTokens(tokens: Option<Credentials>)
      modifies this
      ensures credentials == tokens
      ensures IsAuthenticated() <==> HasAccessToken(tokens)
    {
      credentials := tokens;
    }

    /** `isAuthenticated()`: `!!(credentials && credentials.access_token)`. */
    predicate IsAuthenticated()
      reads this
    {
      HasAccessToken(credentials)
    }
  }
}
