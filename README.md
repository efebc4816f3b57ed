# Document Q&A chatbot: the ingestion and retrieval rules, in Dafny

This project models the rules that sit between the document Q&A chatbot's ingestion
pipeline and its external services, and proves what those rules promise:

- **Configuration** (`config.dfy`, module `Config`): the settings `lib/config.ts` derives
  from the process environment when it loads. These are the `USE_OLLAMA` flag, which SDK
  clients exist, the `||` fallbacks, the fixed models, the chunking constants, the start-up
  error lines and `getPineconeIndex`.
- **Vector-store adapter** (`pinecone_utils.dfy`, module `PineconeUtils`): how
  `storeDocumentChunks` turns chunks and embeddings into records and writes them in batches
  of 100, stopping at the first rejected batch. It also covers how `searchDocuments`
  projects matches into results, and how `getDocumentList` builds the document inventory
  from one probe query. The index is an abstract store, a map from record id to record
  that an upsert overwrites, held by the class `PineconeIndex`.
- **Google Drive connector** (`google_drive.dfy`, module `GoogleDrive`): the queries
  `listFiles` and `searchByKeywords` build, the default page sizes and error mapping, the
  MIME-type dispatch of `getFileContent`, and the credentials of `GoogleDriveService`.
- **Drive file picker** (`drive_file_browser.dfy`, module `DriveFileBrowser`): the search
  guard, the selection toggle, the size label, the icon classifier and the selection summary.
- **Upload widget** (`file_upload.dfy`, module `FileUpload`): the status message chosen
  after an upload, and the drop handler as a small state machine over `uploading` and
  `uploadStatus` (class `UploadWidget`).
- `js_text.dfy` (module `JsText`) gives the JavaScript built-ins these rules use:
  `includes`, `startsWith`, `trim`, `join`, `parseInt`, and number-to-string in template
  literals. `wrappers.dfy` holds `Option`, `Result` and `Outcome`.

The Pinecone and Drive back ends are parameters: a query back end is a function from the
request to the answer (or the message of the error it throws). The outcome of each upsert
is given by `rejected`, the 1-based label `floor(i/100) + 1` of the first batch the back
end refuses. Whether the index can be reached is `connects`. The OAuth server's answer to a
code is `exchange`, and the outcome of the upload POST is `outcome`. The environment is a
`map<string, string>`, where an unset variable has no key.

Safeguards the code does not have, which the model does not add:

- The inventory probe is always a 768-element zero vector (lib/pinecone-utils.ts:106). It
  does not follow the configured embedding provider's dimension.
- No dimension check and no chunk/embedding length check is made before writing.
- A failed batch is not reported with its index or the number of records already written.
  Every failure of `storeDocumentChunks` is the same generic error. The committed prefix is
  stated by the model (`CommittedRecords`, `CommittedBeforeFailure`), but the caller is not
  told about it.
- The chunking constants are plain constants with no validation. Their validity is proved
  (`ChunkParametersValid`), not checked at run time.
- A missing Google or Pinecone key only writes an error line at start-up. Loading never
  fails.

## Model

| member | source | states |
|---|---|---|
| Config.EnvOr | lib/config.ts:27 | `process.env[name] \|\| fallback`: the variable's value when it is set and non-empty, the fallback otherwise |
| Config.Load | lib/config.ts:5-52 | the flag is on iff `USE_OLLAMA` is exactly "true"; the Gemini client exists iff the flag is off; the Pinecone client exists iff its key is non-empty, and it carries that key; the index name, host and embedding model fall back to their defaults; the chat model is fixed; each start-up error line is written exactly when its key is missing |
| Config.UseOllamaIsExact | lib/config.ts:5 | "TRUE", "True", "1", "yes" and "true " do not turn the local provider on |
| Config.OneProviderClient | lib/config.ts:14 | exactly one embedding back end is set up: the local flag is on iff there is no Gemini client |
| Config.EmptyVariableFallsBack | lib/config.ts:19-50 | an empty variable gives the same settings as an unset one, for the index name, host, embedding model and Pinecone key |
| Config.ChatModelIgnoresEnvironment | lib/config.ts:51-52 | every environment gives the chat model "llama3:latest" |
| Config.ChunkParametersValid | lib/config.ts:55-56 | the chunk constants satisfy 0 <= overlap < size |
| Config.GetPineconeIndex | lib/config.ts:30-42 | with no client it fails with "Pinecone client not initialized…"; if the connection fails it fails with "Failed to connect to Pinecone index: " and the index name; otherwise it returns the named index of the client |
| Config.IndexNeedsPineconeKey | lib/config.ts:19-33 | under loaded settings an index is reachable iff the Pinecone key is set and the connection succeeds; without the key the error is "not initialized" |
| PineconeUtils.BuildRecords | lib/pinecone-utils.ts:35-47 | one record per chunk, in chunk order; record i has the chunk's id and embedding i, and its metadata gives back chunk i |
| PineconeUtils.RecordKeepsChunk | lib/pinecone-utils.ts:38-46 | text, filename, chunk index and total are copied unchanged; each optional field is present exactly when the chunk defines it |
| PineconeUtils.BatchesFlatten | lib/pinecone-utils.ts:52-54 | the batches, concatenated in order, give back the records |
| PineconeUtils.BatchesShape | lib/pinecone-utils.ts:52-54 | there are ceil(n/100) batches, each non-empty and of at most 100 records |
| PineconeUtils.BatchAt | lib/pinecone-utils.ts:53-54 | batch k is the slice `[100k, min(100k + 100, n))` that the loop takes when its counter is 100k |
| PineconeUtils.BatchesPrefix | lib/pinecone-utils.ts:53-54 | the first k batches hold exactly the first min(100k, n) records |
| PineconeUtils.WrittenConcat | lib/pinecone-utils.ts:53-56 | upserting a then b leaves the same store as upserting a + b |
| PineconeUtils.WrittenKeepsLast | lib/pinecone-utils.ts:56 | a record whose id no later record reuses is the one kept under that id |
| PineconeUtils.WrittenKeys | lib/pinecone-utils.ts:56 | an upsert adds exactly the ids of the records written |
| PineconeUtils.UpsertIdempotent | lib/pinecone-utils.ts:56 | upserting the same records twice leaves the store as upserting them once (writes overwrite by id) |
| PineconeUtils.PineconeIndex.Upsert | lib/pinecone-utils.ts:56 | each call is recorded; an accepted batch overwrites its ids; a rejected one changes nothing |
| PineconeUtils.SendBatch | lib/pinecone-utils.ts:54-59 | one pass of the loop at counter i = 100k sends batch k under the label floor(i/100) + 1; the call is accepted iff that label is not the rejected one, and only an accepted call adds the batch's records |
| PineconeUtils.UpsertInBatches | lib/pinecone-utils.ts:52-62 | the batches are sent in order up to and including the first rejected one and no later one; the store gains exactly the records of the earlier batches; it succeeds iff no batch is rejected |
| PineconeUtils.StoreDocumentChunks | lib/pinecone-utils.ts:19-69 | an unreachable index gives the generic error and writes nothing; empty chunks or embeddings write nothing and succeed; otherwise the batched upsert of the built records, with the generic error iff a batch is rejected |
| PineconeUtils.CommittedBeforeFailure | lib/pinecone-utils.ts:53-62 | when batch k is rejected, the batches before it are exactly the first 100(k-1) records, and batch k is the slice that follows them |
| PineconeUtils.StoredChunksReadable | lib/pinecone-utils.ts:35-56 | after a complete store with distinct chunk ids, every chunk can be read back under its id with its own embedding |
| PineconeUtils.SearchDocuments | lib/pinecone-utils.ts:72-97 | with default topK 5: one result per match in the back end's order, with the match's metadata fields and its score (0 when missing); any failure gives "Failed to search documents" |
| PineconeUtils.NoMatchesNoResults | lib/pinecone-utils.ts:85-92 | an answer without `matches` gives an empty result list, not an error |
| PineconeUtils.SearchRecoversChunk | lib/pinecone-utils.ts:85-91 | a match for a stored record gives back the chunk's text, filename, score and positions |
| PineconeUtils.ProbeRequest | lib/pinecone-utils.ts:106-112 | the inventory probe is 768 zeros with topK 10000 and metadata |
| PineconeUtils.DocumentListDistinct | lib/pinecone-utils.ts:115-126 | no filename appears twice in the inventory |
| PineconeUtils.DocumentListComplete | lib/pinecone-utils.ts:117-124 | a filename is listed iff some match carries it non-empty; matches with a missing or empty filename are skipped |
| PineconeUtils.DocumentListFirstWins | lib/pinecone-utils.ts:115-126 | each document's chunk count comes from the first match for its filename (0 when falsy), and documents come in first-appearance order |
| PineconeUtils.CollectDocuments | lib/pinecone-utils.ts:115-126 | the `forEach` over the matches, keeping `documentMap` and its insertion order, returns exactly the inventory of the matches (first match per non-empty filename wins, in order of first appearance) |
| PineconeUtils.GetDocumentList | lib/pinecone-utils.ts:100-131 | the loop over the probe's matches with `documentMap` returns the inventory of the matches; an unreachable index or failed probe gives "Failed to get document list" |
| GoogleDrive.ListQueryExcludesTrashed | lib/google-drive.ts:94-98 | every listing query ends with "trashed=false"; an empty query gives exactly "trashed=false" |
| GoogleDrive.ListQueryVerbatim | lib/google-drive.ts:95 | a non-empty query gives "name contains '" + query + "' and trashed=false", and the user's text is read back unchanged between the fixed parts |
| GoogleDrive.ListQueryQuotes | lib/google-drive.ts:95 | nothing is escaped: the query has exactly two more single quotes than the user's text |
| GoogleDrive.ListFilesRequest | lib/google-drive.ts:85-98 | page size defaults to 50; the `q` parameter is the listing query of the given text (empty by default) |
| GoogleDrive.ListFiles | lib/google-drive.ts:85-107 | the files of the answer, none when absent; any error becomes "Failed to list Google Drive files" |
| GoogleDrive.SearchFilesRequest | lib/google-drive.ts:66-73 | the query is passed unchanged; page size defaults to 20 |
| GoogleDrive.SearchFiles | lib/google-drive.ts:66-80 | the files of the answer, none when absent; any error becomes "Failed to search Google Drive files" |
| GoogleDrive.KeywordClauses | lib/google-drive.ts:175 | one `fullText contains '<k>'` clause per keyword, in input order |
| GoogleDrive.KeywordQueryAppend | lib/google-drive.ts:175-176 | no keyword gives the empty query; one more keyword appends " or " and its clause |
| GoogleDrive.SearchByKeywords | lib/google-drive.ts:174-179 | the back end is asked once, with the keyword query, page size 20, the search fields and newest first; the result is its files (none when absent), and any error becomes "Failed to search Google Drive files" |
| GoogleDrive.GetFileMetadata | lib/google-drive.ts:196-208 | the file's description, or "Failed to retrieve file metadata from Google Drive" on any error |
| GoogleDrive.ContentFetchFor | lib/google-drive.ts:125-162 | supported iff Docs, Slides, Sheets, PDF or a `text/` type; Docs and Slides are exported as text/plain, Sheets as text/csv; PDF and text types are downloaded; any other type fails with "Unsupported file type: " and the type |
| GoogleDrive.GetFileContent | lib/google-drive.ts:112-169 | succeeds iff the metadata the back end returns for this file id is read, has a supported MIME type and the fetch succeeds, returning the fetched content; every error, the unsupported type included, becomes "Failed to retrieve file content from Google Drive" |
| GoogleDrive.NativeFormatsExported | lib/google-drive.ts:125-145 | native Google formats are always exported, to a text type |
| GoogleDrive.ImageRejected | lib/google-drive.ts:160-167 | an image is unsupported and the caller sees only the generic error |
| GoogleDrive.GoogleDriveService.constructor | lib/google-drive.ts:19-27 | a new service holds empty credentials and is not authenticated |
| GoogleDrive.GoogleDriveService.SetCredentials | lib/google-drive.ts:45-54 | the exchanged tokens replace the credentials and are returned; on an error nothing changes and the error is "Failed to authenticate with Google Drive" |
| GoogleDrive.GoogleDriveService.SetTokens | lib/google-drive.ts:59-61 | the tokens replace the credentials; afterwards `isAuthenticated` (lib/google-drive.ts:213-216) holds iff they carry a non-empty access token |
| JsText.TrimEmptyIffBlank | components/DriveFileBrowser.tsx:54 | `trim()` gives the empty string iff the text is all whitespace |
| JsText.ParseIntOfIntToString | components/DriveFileBrowser.tsx:95 | `parseInt` reads back exactly the integer that a decimal rendering shows |
| DriveFileBrowser.SearchActionFor | components/DriveFileBrowser.tsx:53-70 | a blank query reloads the listing; any other query is searched for as typed, with page size 50 |
| DriveFileBrowser.Without | components/DriveFileBrowser.tsx:87 | the filter keeps every other id and drops every occurrence of the toggled one |
| DriveFileBrowser.ToggleMembership | components/DriveFileBrowser.tsx:85-88 | after a toggle the file is selected iff it was not before; every other id keeps its membership |
| DriveFileBrowser.ToggleKeepsOthers | components/DriveFileBrowser.tsx:86-88 | apart from the toggled id, the selection is unchanged, in order and multiplicity |
| DriveFileBrowser.ToggleTwiceRestores | components/DriveFileBrowser.tsx:85-88 | toggling an absent id twice restores the selection exactly |
| DriveFileBrowser.ToggleTwiceMovesToEnd | components/DriveFileBrowser.tsx:85-88 | toggling a selected id twice moves it to the end |
| DriveFileBrowser.ToggleKeepsDistinct | components/DriveFileBrowser.tsx:85-88 | a selection without duplicates stays without duplicates |
| DriveFileBrowser.Tenths | components/DriveFileBrowser.tsx:97-98 | `toFixed(1)` of bytes/unit picks the nearest tenth, the larger one on a tie |
| DriveFileBrowser.FixedOne | components/DriveFileBrowser.tsx:97-98 | the text ends in a point and one digit |
| DriveFileBrowser.FormatFileSize | components/DriveFileBrowser.tsx:93-99 | an absent or empty size is "Unknown size"; text that `parseInt` cannot read gives "NaN MB" |
| DriveFileBrowser.FormatFileSizeOfParsed | components/DriveFileBrowser.tsx:93-98 | a non-empty size text that `parseInt` reads as n bytes is labelled in B below 1024, in KB below 1024², and in MB from there on |
| DriveFileBrowser.FormatFileSizeOfCount | components/DriveFileBrowser.tsx:93-99 | for a decimal byte count: below 1024 the exact count with " B", below 1024² the KB branch, else the MB branch, each to the nearest tenth |
| DriveFileBrowser.KilobyteRange | components/DriveFileBrowser.tsx:97 | sizes from 1 KiB to one byte short of 1 MiB show in KB with one decimal, from "1.0 KB" up to "1024.0 KB"; exactly the sizes from 1048525 bytes on round up to "1024.0 KB" instead of moving to MB |
| DriveFileBrowser.UnreadableSizeLabel | components/DriveFileBrowser.tsx:95-98 | a size "large" is labelled "NaN MB" |
| DriveFileBrowser.FileIconFollowsRules | components/DriveFileBrowser.tsx:105-112 | the if-chain gives the same icon as the ordered keyword table document, presentation, spreadsheet, pdf, text, with 📄 as fallback |
| DriveFileBrowser.FirstMatchWins | components/DriveFileBrowser.tsx:105-110 | in a keyword table, the first rule whose keyword the MIME type contains decides the icon |
| DriveFileBrowser.NoMatchFallsBack | components/DriveFileBrowser.tsx:111 | when no keyword of the table matches, the fallback icon is used |
| DriveFileBrowser.FileIconFirstMatch | components/DriveFileBrowser.tsx:105-110 | if rule i is the first whose keyword the MIME type contains, `getFileIcon` returns that rule's icon |
| DriveFileBrowser.FileIconNoMatch | components/DriveFileBrowser.tsx:111 | a MIME type containing none of the five keywords gets 📄 |
| DriveFileBrowser.WorkbookGetsDocumentIcon | components/DriveFileBrowser.tsx:106-108 | an Excel workbook's type contains "spreadsheet" but gets 📄, because "officedocument" matches first |
| DriveFileBrowser.GoogleDocIcon | components/DriveFileBrowser.tsx:106 | a Google Docs file gets 📄 |
| DriveFileBrowser.SelectionSummary | components/DriveFileBrowser.tsx:214-217 | the summary is shown iff at least one file is selected |
| DriveFileBrowser.SelectionSummaryCount | components/DriveFileBrowser.tsx:217 | the summary starts with the selected count, which `parseInt` reads back |
| DriveFileBrowser.SelectionSummaryPlural | components/DriveFileBrowser.tsx:217 | "1 file" for exactly one selected file, "<n> files" otherwise |
| FileUpload.RateLimitTwoKeywords | components/FileUpload.tsx:37-41 | an error is a rate limit iff it contains "rate limit" or "Quota exceeded"; the "API rate limit" test adds nothing |
| FileUpload.RateLimitIsCaseSensitive | components/FileUpload.tsx:37-44 | "Rate Limit exceeded" is not a rate limit and is shown as "❌ Rate Limit exceeded" |
| FileUpload.MissingErrorShowsUndefined | components/FileUpload.tsx:44 | a failed answer without an error field shows "❌ undefined" |
| FileUpload.StatusMarksOutcome | components/FileUpload.tsx:32-49 | the status starts with "✅ " iff the answer was ok, and with "❌ " on every other path (error answer, rate limit, exception) |
| FileUpload.SuccessShowsMessage | components/FileUpload.tsx:33 | a success status starts with "✅ " and the route's message |
| FileUpload.UploadWidget.constructor | components/FileUpload.tsx:11-12 | the widget starts idle with an empty status |
| FileUpload.DropEvents | components/FileUpload.tsx:17-52 | the events of one drop start with `uploading` set true and end with it set false; they include the POST of the file and the final status, and a callback event exactly when the answer was ok |
| FileUpload.UploadingSpansRequest | components/FileUpload.tsx:18-52 | the POST comes after the flag is set and before any clearing of it; after the POST come only the status and the callback, and the flag is cleared last |
| FileUpload.UploadWidget.ShowOutcome | components/FileUpload.tsx:21-49 | the status becomes the outcome's status message, and the callback with the answer's filename follows exactly after a success; `uploading` is untouched |
| FileUpload.UploadWidget.OnDrop | components/FileUpload.tsx:14-53 | an empty drop changes nothing; otherwise the ordered trace grows by exactly the drop's events for the first file (flag on, status cleared, POST, status, callback on success, flag off), and the widget ends with the outcome's status and accepts drops again |

## Left out

- The Pinecone, Drive and OAuth network calls. Their answers are parameters; similarity scoring and match ranking belong to the back end, so match order is taken as given.
- The chunker and the embedding providers: they are not part of this model. Chunks and embeddings are inputs, and embedding values are opaque.
- `getRecentFiles` (lib/google-drive.ts:184-191), `formatDate` and the other date and locale handling: they depend on the clock, the time zone and the locale.
- `getAuthUrl` (lib/google-drive.ts:32-40): the URL is built by the OAuth library from constants.
- Logging through `console`, the React rendering, the dropzone's own filtering of drops (at most one file, of the four accepted types; the widget's handler takes whatever list it is given), and the server routes and pages.
- Concurrency: overlapping drops, or concurrent ingestions of the same file. Each call runs alone in the model.
- PineconeUtils.StoreDocumentChunks: requires at least as many embeddings as chunks when embeddings are given. With fewer, the source would build records whose values are `undefined`, and that is not modelled.
- PineconeUtils.PineconeIndex.Upsert: a rejected batch is modelled as writing nothing. The back end's behaviour inside a failed batch is not modelled.
- DriveFileBrowser.FormatFileSize: sizes are exact integers. `parseInt` loses precision above 2^53, and `toFixed` switches to exponent notation at 10^21; neither is modelled.
- JsText.IntToString: gives the plain decimal form. The exponent form JavaScript uses from 10^21 upwards is not modelled.
- JsText.ParseInt: reads code points. UTF-16 surrogate pairs are not modelled, and neither is the precision limit of JavaScript numbers.
- GoogleDrive.GetFileContent: the fetched content is one opaque string. Binary PDF bodies are not distinguished from text.
- FileUpload.UploadWidget.OnDrop: the `onUploadSuccess` callback is modelled as never throwing. If it threw, the source would overwrite the success status with the generic failure.
- FileUpload.RateLimited: `result.error` is taken to be a string or absent. A truthy value of another type would make `includes` throw, and that is not modelled.
