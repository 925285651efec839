# Dictionary API: a verified model of the `/define` handler

This project models the dictionary service in `index.js`. The service keeps a
two-entry word list in memory and answers three routes: a health check,
`GET /words`, and `GET /define?word=…`. The `/define` route looks the word up
in an external dictionary service and reduces that service's loosely shaped
JSON to `{ word, partOfSpeech, definition }`, or to one of its error answers.

The model has three modules:

- `Wrappers` defines `Option` and `Result`.
- `JsString` defines ECMAScript's `String.prototype.trim`. It strips the
  WhiteSpace and LineTerminator code points from both ends of the query.
- `DictionaryApi` models `index.js`:
  - the upstream payload and outcome as datatypes;
  - the normalisation (`Normalize`) and the handler (`Define`);
  - the seeded word list and the routes (`Handle`, `Serve`).

The upstream lookup is an input to `Define`, of type `UpstreamOutcome`:

- `Fetched(payload)`: the lookup returned a body.
- `HttpError(status, message)`: an axios rejection that carries an HTTP response.
- `OtherError(message)`: any other exception raised inside the handler's `try` block.

JavaScript truthiness is modelled where the handler relies on it:

- An empty-string `word` falls back to the trimmed query.
- An empty-string `definition` counts as absent.
- A null array element counts as absent (`xs[0] || null`).
- A missing or null `meanings` reads as an empty array.

`partOfSpeech` is passed on without a truthiness check. For that reason
`JsField` keeps `null` and `undefined` apart.

A transport or network failure carries no HTTP response, so the code answers
it 500 with `details` (`index.js:61-65`), not 404.

One thing the proofs show about the code: the `null` fallback for
`partOfSpeech` (`index.js:50`) never appears in a 200 answer. Without a first
meaning there is no definition, so the handler answers 404 instead
(`PartOfSpeechFromFirstMeaning`).

## Model

| member | source | states |
|---|---|---|
| `JsString.LeadingWhitespace` | index.js:32 | the count of code points trim drops at the front: all of them are whitespace and the next one, if any, is not |
| `JsString.TrailingWhitespace` | index.js:32 | the count of code points trim drops at the end: all of them are whitespace and the one before them, if any, is not |
| `JsString.Trim` | index.js:32 | the result is the input minus a whitespace prefix and suffix, has no whitespace at either end, and is empty exactly when the input is all whitespace |
| `JsString.TrimUnique` | index.js:32 | any stripping of whitespace from both ends that leaves no whitespace at the ends equals `Trim` (the reference definition of trim) |
| `JsString.TrimIdempotent` | index.js:32 | trimming an already trimmed query changes nothing |
| `DictionaryApi.QueryWord` | index.js:32 | an absent query reads as `''`; the trimmed word has no surrounding whitespace and is empty exactly when the raw query is absent, empty or whitespace-only |
| `DictionaryApi.Normalize` | index.js:41-56 | `NoEntry` exactly when the payload is absent, an empty array or an array whose first element is null; `NoDefinition` exactly when there is a candidate but its first meaning's first definition is missing, null or empty; every success carries that definition's text (so it is non-empty) and a non-empty word when the fallback word is non-empty |
| `DictionaryApi.Define` | index.js:31-67 | status is always 200, 400, 404 or 500; 400 `Please provide ?word=your_word` exactly for an absent or whitespace-only query; a 200 comes from a fetched payload and has a non-empty definition; every 404 carries one of the three not-found messages; an upstream 404 gives `Word not found`; 500 exactly for the other upstream failures, with `Failed to fetch definition` and the failure's message as `details` |
| `DictionaryApi.BlankQueryIgnoresUpstream` | index.js:32-35 | for a blank query every upstream outcome gives the same 400 answer |
| `DictionaryApi.SurroundingWhitespaceIgnored` | index.js:32 | whitespace around the query never changes the answer |
| `DictionaryApi.SuccessExactly` | index.js:41-58 | for a non-blank query and a fetched payload the answer is 200 if and only if there is a candidate entry whose first meaning's first definition object has a non-empty `definition` |
| `DictionaryApi.NoCandidateNotFound` | index.js:41-42 | an absent body, an empty array or a null first element gives 404 `No definition found` |
| `DictionaryApi.NoMeaningsNotFound` | index.js:44-56 | an entry with missing, null or empty `meanings` gives 404 `Definition not found for this word` |
| `DictionaryApi.UnusableDefinitionNotFound` | index.js:44-56 | a candidate entry without a first definition object, or whose first definition is missing, null or empty, gives 404 `Definition not found for this word` |
| `DictionaryApi.DefinitionFromFirstDefinition` | index.js:46-58 | in a 200 the `definition` is exactly the text of the first meaning's first definition object |
| `DictionaryApi.WordFallsBackToQuery` | index.js:49 | in a 200 the `word` is the entry's word when that is a non-empty string, otherwise the trimmed query |
| `DictionaryApi.PartOfSpeechFromFirstMeaning` | index.js:44-50 | a 200 always has a first meaning, and its `partOfSpeech` is that meaning's field as given (the `null` fallback never reaches a 200) |
| `DictionaryApi.PruningPreservesAnswer` | index.js:41-51 | dropping every entry after the first, every meaning after the first and every definition after the first leaves the answer unchanged |
| `DictionaryApi.OnlyFirstsConsulted` | index.js:45-46 | two payloads that differ only in later entries, meanings or definitions get the same answer |
| `DictionaryApi.TightQueryUnchanged` | index.js:32 | a query without surrounding whitespace is looked up as it is |
| `DictionaryApi.WellFormedAnswerPassedThrough` | index.js:41-58 | a trimmed query answered with one entry, one meaning and one non-empty definition gets 200 with that entry's word, part of speech and definition |
| `DictionaryApi.HelloExample` | index.js:31-58 | `word=hello` against `[{word:"hello", meanings:[{partOfSpeech:"exclamation", definitions:[{definition:"used as a greeting"}]}]}]` answers 200 with `hello`, `exclamation`, `used as a greeting` |
| `DictionaryApi.Handle` | index.js:17-31 | no route changes the word list; `/words` answers 200 with the list as it is; the health check answers 200 `{status:"ok", message:"Dictionary API is up"}`; `/define` answers what `Define` answers |
| `DictionaryApi.Serve` | index.js:11-24 | over any sequence of requests the word list is unchanged, and each answer is the one its request gets on its own |
| `DictionaryApi.WordsAlwaysSeed` | index.js:11-24 | after any earlier requests, `/words` lists `hello` then `code` with their seeded meanings |

## Left out

- Express app creation, the `express.json()` middleware, route registration, `app.listen` and the `PORT` lookup (`index.js:3-8`, `69-73`) are server plumbing. `Handle` stands in for the routing.
- The axios request and the `await` on it are not modelled. Their result is the `UpstreamOutcome` input to `Define`.
- The upstream URL built with `encodeURIComponent` is not modelled. It only feeds the network call. Its `URIError` on a lone surrogate would be an `OtherError`. Dafny strings hold Unicode scalar values, so such a query cannot be written in the model.
- `console.error` logging is a side effect with no effect on the answer.
- JSON serialisation is not modelled. A `JsUndefined` `partOfSpeech` is kept as a value, although `res.json` would omit the key.
- A `word` query that is an array or an object (repeated or bracketed keys) is not modelled. In the source, `.trim` then throws outside the `try` block, and the rejection escapes the async handler. What follows depends on versions the repository does not pin: Express 4 never answers the request; on Node 15 or later the unhandled rejection ends the process; Express 5 passes it to its default error handler, which answers 500.
- Upstream JSON shapes beyond the typed fields are not modelled:
  - numbers, booleans, objects or arrays where `word`, `partOfSpeech` or `definition` should be a string;
  - non-array `meanings` or `definitions`, and indexing into strings;
  - fields of a definition object other than `definition`.
- A thrown value without a `message` is not modelled. `details` is always a string here.
- Concurrency and the missing upstream timeout are not modelled. The model handles one request at a time.
