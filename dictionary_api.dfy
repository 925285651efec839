/**
 * The dictionary service of index.js: the seeded word list, the health and
 * `/words` routes, and the `/define` handler, which trims and checks the
 * `word` query, reads the upstream dictionary's answer and normalises it to
 * `{ word, partOfSpeech, definition }` or to one of its error responses.
 *
 * The upstream lookup is not performed here: its outcome is an input value.
 */
module DictionaryApi {
  import opened Wrappers
  import opened JsString

  // ---------------------------------------------------------------------------
  // The upstream payload, as loosely shaped JSON

  /** A string-valued JSON field: an explicit `null`, a missing key
      (`undefined` in JavaScript) or a string. */
  datatype JsField = JsNull | JsUndefined | JsStr(text: string)

  /** JavaScript truthiness of such a field: `null`, `undefined` and the empty
      string are falsy. */
  predicate Truthy(v: JsField) {
    v.JsStr? && v.text != ""
  }

  /** One definition object of a meaning; only its `definition` is read. */
  datatype DefinitionObject = DefinitionObject(definition: JsField)

  /** A part-of-speech group. `None` is a missing or null array, and a `None`
      element is a null array element. */
  datatype Meaning = Meaning(partOfSpeech: JsField, definitions: Option<seq<Option<DefinitionObject>>>)

  /** One upstream entry for a word. */
  datatype Entry = Entry(word: JsField, meanings: Option<seq<Option<Meaning>>>)

  /** The response body of the upstream lookup: absent (or another falsy
      value), a single entry object, or an array whose elements may be null. */
  datatype Payload = NoBody | Single(entry: Entry) | Many(entries: seq<Option<Entry>>)

  /** How the upstream lookup ended. `HttpError` is a rejection that carries
      an HTTP response; `OtherError` is any other exception raised in the
      handler's `try` block (a network failure, a malformed URI, ...). */
  datatype UpstreamOutcome =
    | Fetched(data: Payload)
    | HttpError(status: int, message: string)
    | OtherError(message: string)

  // ---------------------------------------------------------------------------
  // What the service answers

  /** The normalised answer of a successful `/define`. */
  datatype DefinitionResult = DefinitionResult(word: string, partOfSpeech: JsField, definition: string)

  /** The two reasons normalisation fails. */
  datatype NotFound = NoEntry | NoDefinition

  /** One seeded element of the in-memory word list. */
  datatype WordEntry = WordEntry(word: string, meaning: string)

  /** A JSON response body. */
  datatype Body =
    | Health(status: string, message: string)
    | WordList(entries: seq<WordEntry>)
    | Found(result: DefinitionResult)
    | Error(error: string)
    | ErrorWithDetails(error: string, details: string)

  datatype Response = Response(status: int, body: Body)

  const MissingWordMessage := "Please provide ?word=your_word"
  const NoEntryMessage := "No definition found"
  const NoDefinitionMessage := "Definition not found for this word"
  const WordNotFoundMessage := "Word not found"
  const FetchFailedMessage := "Failed to fetch definition"

  // ---------------------------------------------------------------------------
  // The `/define` handler

  /** `(req.query.word || '').trim()`: an absent query reads as the empty
      string. */
  function QueryWord(rawQuery: Option<string>): (q: string)
    ensures Tight(q)
    ensures q == [] <==> AllWhitespace(rawQuery.GetOr(""))
  {
    Trim(rawQuery.GetOr(""))
  }

  /** The candidate entry: the first element of an array payload, the payload
      itself otherwise; `None` when that is missing or null. */
  function Candidate(data: Payload): Option<Entry> {
    match data
    case NoBody => None
    case Single(e) => Some(e)
    case Many(es) => if |es| > 0 then es[0] else None
  }

  /** `(entry.meanings || [])[0] || null` */
  function FirstMeaning(e: Entry): Option<Meaning> {
    var meanings := e.meanings.GetOr([]);
    if |meanings| > 0 then meanings[0] else None
  }

  /** `firstMeaning && firstMeaning.definitions && firstMeaning.definitions[0] || null` */
  function FirstDefinition(m: Option<Meaning>): Option<DefinitionObject> {
    match m
    case None => None
    case Some(meaning) =>
      match meaning.definitions
      case None => None
      case Some(ds) => if |ds| > 0 then ds[0] else None
  }

  /** `firstDefObj ? firstDefObj.definition : null` */
  function DefinitionText(d: Option<DefinitionObject>): JsField {
    if d.Some? then d.value.definition else JsNull
  }

  /** Normalises the upstream payload, with `fallbackWord` standing in for a
      falsy `entry.word`. It reports `NoEntry` exactly when the payload is
      absent, an empty array or an array whose first element is null, and a
      success always carries a non-empty definition. */
  function Normalize(data: Payload, fallbackWord: string): (r: Result<DefinitionResult, NotFound>)
    ensures r == Failure(NoEntry) <==> data.NoBody? || (data.Many? && (data.entries == [] || data.entries[0] == None))
    ensures r.Success? ==> r.value.definition != []
    ensures r.Success? && fallbackWord != [] ==> r.value.word != []
    ensures r == Failure(NoDefinition) <==>
      Candidate(data).Some? && !Truthy(DefinitionText(FirstDefinition(FirstMeaning(Candidate(data).value))))
    ensures r.Success? ==>
      JsStr(r.value.definition) == DefinitionText(FirstDefinition(FirstMeaning(Candidate(data).value)))
  {
    match Candidate(data)
    case None => Failure(NoEntry)
    case Some(entry) =>
      var firstMeaning := FirstMeaning(entry);
      var firstDefObj := FirstDefinition(firstMeaning);
      var word := if Truthy(entry.word) then entry.word.text else fallbackWord;
      var partOfSpeech := if firstMeaning.Some? then firstMeaning.value.partOfSpeech else JsNull;
      var definition := if firstDefObj.Some? then firstDefObj.value.definition else JsNull;
      if Truthy(definition) then
        Success(DefinitionResult(word, partOfSpeech, definition.text))
      else
        Failure(NoDefinition)
  }

  /** The 500 answer to an upstream failure that is not a 404. */
  function FetchFailed(message: string): Response {
    Response(500, ErrorWithDetails(FetchFailedMessage, message))
  }

  /** GET /define. A blank query is answered 400 whatever the upstream would
      say; a 200 always carries a non-empty definition and comes from a
      fetched payload; an upstream 404 is `Word not found`; every other
      upstream failure is a 500 that passes the failure's message on. */
  function Define(rawQuery: Option<string>, upstream: UpstreamOutcome): (r: Response)
    ensures r.status in {200, 400, 404, 500}
    ensures r.status == 400 <==> AllWhitespace(rawQuery.GetOr(""))
    ensures r.status == 400 ==> r.body == Error(MissingWordMessage)
    ensures r.status == 200 ==> upstream.Fetched? && r.body.Found? && r.body.result.definition != []
    ensures r.status == 404 ==> r.body in {Error(WordNotFoundMessage), Error(NoEntryMessage), Error(NoDefinitionMessage)}
    ensures !AllWhitespace(rawQuery.GetOr("")) && upstream.HttpError? && upstream.status == 404 ==>
      r == Response(404, Error(WordNotFoundMessage))
    ensures r.status == 500 <==>
      !AllWhitespace(rawQuery.GetOr("")) && (upstream.OtherError? || (upstream.HttpError? && upstream.status != 404))
    ensures r.status == 500 ==> r.body == ErrorWithDetails(FetchFailedMessage, upstream.message)
  {
    var q := QueryWord(rawQuery);
    if q == [] then
      Response(400, Error(MissingWordMessage))
    else
      match upstream
      case Fetched(data) =>
        (match Normalize(data, q)
         case Success(result) => Response(200, Found(result))
         case Failure(NoEntry) => Response(404, Error(NoEntryMessage))
         case Failure(NoDefinition) => Response(404, Error(NoDefinitionMessage)))
      case HttpError(status, message) =>
        if status == 404 then Response(404, Error(WordNotFoundMessage)) else FetchFailed(message)
      case OtherError(message) =>
        FetchFailed(message)
  }

  // ---------------------------------------------------------------------------
  // Properties of `/define` that relate several calls or inputs

  /** A blank query gets the same 400 whatever the upstream outcome. */
  lemma BlankQueryIgnoresUpstream(rawQuery: Option<string>, u1: UpstreamOutcome, u2: UpstreamOutcome)
    requires AllWhitespace(rawQuery.GetOr(""))
    ensures Define(rawQuery, u1) == Define(rawQuery, u2) == Response(400, Error(MissingWordMessage))
  {
  }

  /** Whitespace around the query never changes the answer. */
  lemma SurroundingWhitespaceIgnored(s: string, upstream: UpstreamOutcome)
    ensures Define(Some(s), upstream) == Define(Some(Trim(s)), upstream)
  {
    TrimIdempotent(s);
  }

  /** With a non-blank query and a fetched payload, the answer is 200 exactly
      when there is a candidate entry whose first meaning's first definition
      object has a non-empty `definition`. */
  lemma SuccessExactly(rawQuery: Option<string>, data: Payload)
    requires !AllWhitespace(rawQuery.GetOr(""))
    ensures Define(rawQuery, Fetched(data)).status == 200 <==>
      && Candidate(data).Some?
      && FirstDefinition(FirstMeaning(Candidate(data).value)).Some?
      && Truthy(FirstDefinition(FirstMeaning(Candidate(data).value)).value.definition)
  {
  }

  /** A missing body, an empty array or a null first element gives
      `No definition found`. */
  lemma NoCandidateNotFound(rawQuery: Option<string>, data: Payload)
    requires !AllWhitespace(rawQuery.GetOr(""))
    requires Candidate(data).None?
    ensures Define(rawQuery, Fetched(data)) == Response(404, Error(NoEntryMessage))
  {
  }

  /** An entry without meanings (missing, null or empty) gives
      `Definition not found for this word`. */
  lemma NoMeaningsNotFound(rawQuery: Option<string>, data: Payload)
    requires !AllWhitespace(rawQuery.GetOr(""))
    requires Candidate(data).Some? && Candidate(data).value.meanings.GetOr([]) == []
    ensures Define(rawQuery, Fetched(data)) == Response(404, Error(NoDefinitionMessage))
  {
  }

  /** A candidate entry whose first meaning has no first definition object,
      or whose first definition is missing, null or empty, gives
      `Definition not found for this word`. */
  lemma UnusableDefinitionNotFound(rawQuery: Option<string>, data: Payload)
    requires !AllWhitespace(rawQuery.GetOr(""))
    requires Candidate(data).Some?
    requires var d := FirstDefinition(FirstMeaning(Candidate(data).value));
      d.None? || !Truthy(d.value.definition)
    ensures Define(rawQuery, Fetched(data)) == Response(404, Error(NoDefinitionMessage))
  {
  }

  /** In a 200, `definition` is the text of the first meaning's first
      definition object. */
  lemma DefinitionFromFirstDefinition(rawQuery: Option<string>, data: Payload)
    requires Define(rawQuery, Fetched(data)).status == 200
    ensures Candidate(data).Some?
    ensures var d := FirstDefinition(FirstMeaning(Candidate(data).value));
      d.Some? && d.value.definition == JsStr(Define(rawQuery, Fetched(data)).body.result.definition)
  {
  }

  /** In a 200, `word` is the entry's own word when that is a non-empty
      string, and otherwise the trimmed query. */
  lemma WordFallsBackToQuery(rawQuery: Option<string>, data: Payload)
    requires Define(rawQuery, Fetched(data)).status == 200
    ensures Candidate(data).Some?
    ensures var w := Candidate(data).value.word;
      Define(rawQuery, Fetched(data)).body.result.word == if Truthy(w) then w.text else QueryWord(rawQuery)
  {
  }

  /** In a 200, `partOfSpeech` is the first meaning's own field, passed on
      unchecked: the `null` fallback for a missing first meaning never reaches
      a 200, because without a first meaning there is no definition. */
  lemma PartOfSpeechFromFirstMeaning(rawQuery: Option<string>, data: Payload)
    requires Define(rawQuery, Fetched(data)).status == 200
    ensures Candidate(data).Some? && FirstMeaning(Candidate(data).value).Some?
    ensures Define(rawQuery, Fetched(data)).body.result.partOfSpeech ==
      FirstMeaning(Candidate(data).value).value.partOfSpeech
  {
  }

  /** The payload cut down to what the handler reads: the first array
      element, its first meaning and that meaning's first definition object. */
  function Pruned(data: Payload): Payload {
    match data
    case NoBody => NoBody
    case Single(e) => Single(PrunedEntry(e))
    case Many(es) => Many(if es == [] then [] else [if es[0].Some? then Some(PrunedEntry(es[0].value)) else None])
  }

  function PrunedEntry(e: Entry): Entry {
    e.(meanings :=
      match e.meanings
      case None => None
      case Some(ms) => Some(if ms == [] then [] else [if ms[0].Some? then Some(PrunedMeaning(ms[0].value)) else None]))
  }

  function PrunedMeaning(m: Meaning): Meaning {
    m.(definitions :=
      match m.definitions
      case None => None
      case Some(ds) => Some(if ds == [] then [] else [ds[0]]))
  }

  /** Later entries, later meanings and later definitions are never
      consulted: pruning them away leaves the answer unchanged. */
  lemma PruningPreservesAnswer(rawQuery: Option<string>, data: Payload)
    ensures Define(rawQuery, Fetched(data)) == Define(rawQuery, Fetched(Pruned(data)))
  {
  }

  /** Two payloads that differ only after the first entry, meaning or
      definition get the same answer. */
  lemma OnlyFirstsConsulted(rawQuery: Option<string>, d1: Payload, d2: Payload)
    requires Pruned(d1) == Pruned(d2)
    ensures Define(rawQuery, Fetched(d1)) == Define(rawQuery, Fetched(d2))
  {
    PruningPreservesAnswer(rawQuery, d1);
    PruningPreservesAnswer(rawQuery, d2);
  }

  /** A query with no surrounding whitespace is used as it is. */
  lemma TightQueryUnchanged(s: string)
    requires Tight(s)
    ensures QueryWord(Some(s)) == s
  {
    assert s[0..|s|] == s;
    assert Strips(s, s, 0);
    TrimUnique(s, s, 0);
  }

  /** A trimmed query answered with one entry holding one meaning with one
      non-empty definition is passed through as it is. */
  lemma WellFormedAnswerPassedThrough(w: string, pos: string, text: string)
    requires w != [] && Tight(w) && text != []
    ensures
      var meaning := Meaning(JsStr(pos), Some([Some(DefinitionObject(JsStr(text)))]));
      var data := Many([Some(Entry(JsStr(w), Some([Some(meaning)])))]);
      Define(Some(w), Fetched(data)) == Response(200, Found(DefinitionResult(w, JsStr(pos), text)))
  {
    TightQueryUnchanged(w);
  }

  /** The worked example: `word=hello` against the usual upstream array. */
  lemma HelloExample()
    ensures
      var meaning := Meaning(JsStr("exclamation"), Some([Some(DefinitionObject(JsStr("used as a greeting")))]));
      var data := Many([Some(Entry(JsStr("hello"), Some([Some(meaning)])))]);
      Define(Some("hello"), Fetched(data)) ==
        Response(200, Found(DefinitionResult("hello", JsStr("exclamation"), "used as a greeting")))
  {
    WellFormedAnswerPassedThrough("hello", "exclamation", "used as a greeting");
  }

  // ---------------------------------------------------------------------------
  // The server: the word list and the three routes

  /** The word list seeded at start-up, in display order. */
  const SeedDictionary: seq<WordEntry> := [
    WordEntry("hello", "a greeting or expression of goodwill"),
    WordEntry("code", "instructions for a computer")
  ]

  /** The only state the routes share: the word list. */
  datatype Server = Server(dictionary: seq<WordEntry>)

  const InitialServer := Server(SeedDictionary)

  datatype Request =
    | GetHealth
    | GetWords
    | GetDefine(rawQuery: Option<string>, upstream: UpstreamOutcome)

  /** Handles one request. No route changes the word list, `/words`
      returns it verbatim, the health check always answers the same, and
      `/define` answers as `Define` does. */
  function Handle(s: Server, req: Request): (out: (Server, Response))
    ensures out.0 == s
    ensures req.GetWords? ==> out.1 == Response(200, WordList(s.dictionary))
    ensures req.GetHealth? ==> out.1 == Response(200, Health("ok", "Dictionary API is up"))
    ensures req.GetDefine? ==> out.1 == Define(req.rawQuery, req.upstream)
  {
    match req
    case GetHealth => (s, Response(200, Health("ok", "Dictionary API is up")))
    case GetWords => (s, Response(200, WordList(s.dictionary)))
    case GetDefine(rawQuery, upstream) => (s, Define(rawQuery, upstream))
  }

  /** Handles requests one after another. The state comes out unchanged and
      each answer is the one its request gets on its own. */
  function Serve(s: Server, reqs: seq<Request>): (out: (Server, seq<Response>))
    ensures out.0 == s
    ensures |out.1| == |reqs|
    ensures forall i :: 0 <= i < |reqs| ==> out.1[i] == Handle(s, reqs[i]).1
    decreases |reqs|
  {
    if reqs == [] then
      (s, [])
    else
      var (s', r) := Handle(s, reqs[0]);
      var (s'', rs) := Serve(s', reqs[1..]);
      (s'', [r] + rs)
  }

  /** Whatever came before, `/words` lists the two seeded entries in order. */
  lemma WordsAlwaysSeed(reqs: seq<Request>, i: int)
    requires 0 <= i < |reqs| && reqs[i].GetWords?
    ensures Serve(InitialServer, reqs).1[i] == Response(200, WordList(SeedDictionary))
    ensures Serve(InitialServer, reqs).0 == InitialServer
  {
  }
}
