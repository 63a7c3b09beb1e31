/**
  The question-document endpoint: one document `{ questions, audioUrls }`
  kept in a single JSON file, read by GET (with an empty default while the
  file does not exist) and replaced wholesale by POST.

  The file system is the state of `QuestionStore`; what the file-system calls
  report on one request is the parameter `env`. Serialising with
  `JSON.stringify` and parsing it back with `JSON.parse` is the identity on
  the values modelled here, so the file holds the parsed value itself.
*/
module QuestionsRoute {
  import opened Wrappers
  import opened Http

  /**
    The stored document. `audioUrls` is None when the payload had no such
    member: the value is then `undefined`, and `JSON.stringify` leaves the key out.
  */
  datatype Document = Document(questions: seq<Json>, audioUrls: Option<Json>)

  /** What GET serves while nothing has been written. */
  const EmptyDocument: Document := Document([], Some(JArray([])))

  /** `{ questions, audioUrls }` as the object that is written to the file. */
  function DocumentJson(d: Document): (v: Json)
    ensures v.JObject? && v.members.Keys <= {"questions", "audioUrls"}
    ensures Field(v, "questions") == Some(JArray(d.questions))
    ensures Field(v, "audioUrls") == d.audioUrls
  {
    var audio := if d.audioUrls.Some? then map["audioUrls" := d.audioUrls.value] else map[];
    JObject(map["questions" := JArray(d.questions)] + audio)
  }

  /** The text in the file: a serialised value, or text that `JSON.parse` rejects. */
  datatype FileContent = Wellformed(value: Json) | Malformed

  /** A thrown error: a file-system error code, or the `SyntaxError` of `JSON.parse`. */
  datatype Failure = Errno(code: ErrCode) | ParseError

  const ReadFailedMessage: string := "Falha ao ler dados"
  const InvalidFormatMessage: string := "Formato de dados inválido"
  const SaveFailedMessage: string := "Falha ao salvar dados"

  /** `{ success: true }`. */
  const SuccessBody: Json := JObject(map["success" := JBool(true)])

  /**
    The result of `readData` on a file slot. Any ENOENT thrown inside its
    `try` (from `mkdir` or from `readFile`) turns into the empty document;
    every other error escapes.
  */
  function ReadOutcome(file: Option<FileContent>, env: FsEnv): (r: Result<Json, Failure>)
    ensures r.Failure? ==> r.error != Errno(ENOENT)
    ensures r.Success? ==> r.value == DocumentJson(EmptyDocument) || file == Some(Wellformed(r.value))
    ensures env == Healthy && file == None ==> r == Success(DocumentJson(EmptyDocument))
    ensures env == Healthy && file.Some? && file.value.Wellformed? ==> r == Success(file.value.value)
    ensures env == Healthy && file == Some(Malformed) ==> r == Failure(ParseError)
    ensures env.mkdirError.Some? && env.mkdirError.value !in {EEXIST, ENOENT} ==> r == Failure(Errno(env.mkdirError.value))
    ensures env.mkdirError == Some(ENOENT) ==> r == Success(DocumentJson(EmptyDocument))
    ensures EnsureDirResult(env.mkdirError).None? && env.readError.Some? && env.readError.value != ENOENT ==>
      r == Failure(Errno(env.readError.value))
    ensures EnsureDirResult(env.mkdirError).None? && env.readError == Some(ENOENT) ==> r == Success(DocumentJson(EmptyDocument))
    ensures EnsureDirResult(env.mkdirError).None? && env.readError.None? ==>
      r == match file
        case None => Success(DocumentJson(EmptyDocument))
        case Some(Malformed) => Failure(ParseError)
        case Some(Wellformed(v)) => Success(v)
  {
    var thrown := EnsureDirResult(env.mkdirError);
    var attempt: Result<Json, Failure> :=
      if thrown.Some? then Failure(Errno(thrown.value))
      else if env.readError.Some? then Failure(Errno(env.readError.value))
      else match file
        case None => Failure(Errno(ENOENT))
        case Some(Malformed) => Failure(ParseError)
        case Some(Wellformed(v)) => Success(v);
    if attempt == Failure(Errno(ENOENT)) then Success(DocumentJson(EmptyDocument)) else attempt
  }

  /** How POST treats its body, before anything is written. */
  datatype PostDecision =
    | Crash          // `request.json()` threw, or destructuring `null` threw: status 500
    | Reject         // `questions` is missing or not an array: status 400
    | Accept(doc: Document)

  /**
    `const { questions, audioUrls } = await request.json()` followed by
    `!questions || !Array.isArray(questions)`. `body` is None when the request
    body is not JSON. An array, even an empty one, is truthy, so the test is
    only whether `questions` is an array; `audioUrls` is taken as it is.
  */
  function DecidePost(body: Option<Json>): (d: PostDecision)
    ensures d == Crash <==> body == None || body == Some(JNull)
    ensures d.Accept? <==> body.Some? && Field(body.value, "questions").Some? && Field(body.value, "questions").value.JArray?
    ensures d.Accept? ==> d.doc == Document(Field(body.value, "questions").value.items, Field(body.value, "audioUrls"))
  {
    match body
    case None => Crash
    case Some(v) =>
      if v == JNull then Crash
      else
        var questions, audioUrls := Field(v, "questions"), Field(v, "audioUrls");
        if questions.None? || !questions.value.JArray? then Reject
        else Accept(Document(questions.value.items, audioUrls))
  }

  /**
    Whatever else the payload holds, a `questions` array is accepted: it may
    be empty, its items need not be strings, its length need not match
    `audioUrls`, and the document keeps only its two members.
  */
  lemma AnyQuestionsArrayAccepted(extra: map<string, Json>, questions: seq<Json>, audioUrls: Option<Json>)
    ensures
      var withAudio := if audioUrls.Some? then extra["audioUrls" := audioUrls.value] else extra - {"audioUrls"};
      DecidePost(Some(JObject(withAudio["questions" := JArray(questions)]))) == Accept(Document(questions, audioUrls))
  {
  }

  /** A document served by GET, posted back, is accepted as that same document. */
  lemma DocumentJsonRoundTrip(d: Document)
    ensures DecidePost(Some(DocumentJson(d))) == Accept(d)
  {
  }

  /** The file system as the route sees it: the data directory and the JSON file. */
  class QuestionStore {
    var dataDirExists: bool
    var file: Option<FileContent>

    /** The file can only exist inside its directory. */
    ghost predicate Valid()
      reads this
    {
      file.Some? ==> dataDirExists
    }

    constructor (dirExists: bool, content: Option<FileContent>)
      requires content.Some? ==> dirExists
      ensures Valid()
      ensures dataDirExists == dirExists && file == content
    {
      dataDirExists := dirExists;
      file := content;
    }

    /** `ensureDirectoryExists`: EEXIST is swallowed, any other error is thrown back. */
    method EnsureDirectoryExists(mkdirError: Option<ErrCode>) returns (thrown: Option<ErrCode>)
      modifies this`dataDirExists
      ensures thrown == EnsureDirResult(mkdirError)
      ensures dataDirExists == (old(dataDirExists) || thrown.None?)
    {
      thrown := None;
      if mkdirError.None? {
        dataDirExists := true;
      } else if mkdirError.value == EEXIST {
        dataDirExists := true;
      } else {
        thrown := mkdirError;
      }
    }

    /** `readData`: the current document, or the empty one while there is no file. */
    method ReadData(env: FsEnv) returns (r: Result<Json, Failure>)
      requires Valid()
      modifies this`dataDirExists
      ensures Valid()
      ensures file == old(file)
      ensures dataDirExists == (old(dataDirExists) || EnsureDirResult(env.mkdirError).None?)
      ensures r == ReadOutcome(file, env)
    {
      var caught: Failure;
      var thrown := EnsureDirectoryExists(env.mkdirError);
      if thrown.Some? {
        caught := Errno(thrown.value);
      } else if env.readError.Some? {
        caught := Errno(env.readError.value);
      } else if file.None? {
        caught := Errno(ENOENT);
      } else if file.value.Malformed? {
        caught := ParseError;
      } else {
        return Success(file.value.value);
      }
      if caught == Errno(ENOENT) {
        r := Success(DocumentJson(EmptyDocument));
      } else {
        r := Failure(caught);
      }
    }

    /** `writeData`: overwrites the whole file with `data`. */
    method WriteData(data: Json, env: FsEnv) returns (thrown: Option<ErrCode>)
      requires Valid()
      modifies this
      ensures Valid()
      ensures thrown == WriteOutcome(env)
      ensures file == if thrown.None? then Some(Wellformed(data)) else old(file)
      ensures dataDirExists == (old(dataDirExists) || EnsureDirResult(env.mkdirError).None?)
    {
      thrown := EnsureDirectoryExists(env.mkdirError);
      if thrown.None? {
        if env.writeError.Some? {
          thrown := env.writeError;
        } else {
          file := Some(Wellformed(data));
        }
      }
    }

    /** GET: the stored document with status 200, or status 500 when reading fails. */
    method Get(env: FsEnv) returns (resp: Response)
      requires Valid()
      modifies this`dataDirExists
      ensures Valid()
      ensures file == old(file)
      ensures dataDirExists == (old(dataDirExists) || EnsureDirResult(env.mkdirError).None?)
      ensures ReadOutcome(file, env).Success? ==> resp == Response(200, ReadOutcome(file, env).value)
      ensures ReadOutcome(file, env).Failure? ==> resp == ErrorResponse(500, ReadFailedMessage)
    {
      var data := ReadData(env);
      if data.Success? {
        resp := Response(200, data.value);
      } else {
        resp := ErrorResponse(500, ReadFailedMessage);
      }
    }

    /**
      POST: status 400 for a payload without a `questions` array, otherwise the
      whole document is replaced by `{ questions, audioUrls }`; status 500
      when the body cannot be read or the write fails.
    */
    method Post(body: Option<Json>, env: FsEnv) returns (resp: Response)
      requires Valid()
      modifies this
      ensures Valid()
      ensures DecidePost(body) == Crash ==> resp == ErrorResponse(500, SaveFailedMessage) && unchanged(this)
      ensures DecidePost(body) == Reject ==> resp == ErrorResponse(400, InvalidFormatMessage) && unchanged(this)
      ensures DecidePost(body).Accept? && WriteOutcome(env).None? ==>
        resp == Response(200, SuccessBody) && file == Some(Wellformed(DocumentJson(DecidePost(body).doc)))
      ensures DecidePost(body).Accept? && WriteOutcome(env).Some? ==>
        resp == ErrorResponse(500, SaveFailedMessage) && file == old(file)
      ensures DecidePost(body).Accept? ==> dataDirExists == (old(dataDirExists) || EnsureDirResult(env.mkdirError).None?)
    {
      if body.None? || body.value == JNull {
        return ErrorResponse(500, SaveFailedMessage);
      }
      var questions, audioUrls := Field(body.value, "questions"), Field(body.value, "audioUrls");
      if questions.None? || !questions.value.JArray? {
        return ErrorResponse(400, InvalidFormatMessage);
      }
      var thrown := WriteData(DocumentJson(Document(questions.value.items, audioUrls)), env);
      if thrown.None? {
        resp := Response(200, SuccessBody);
      } else {
        resp := ErrorResponse(500, SaveFailedMessage);
      }
    }
  }

  /** A read after a successful write returns exactly what was written. */
  method PostThenGet(store: QuestionStore, body: Json) returns (posted: Response, read: Response)
    requires store.Valid()
    requires DecidePost(Some(body)).Accept?
    modifies store
    ensures store.Valid()
    ensures posted == Response(200, SuccessBody)
    ensures read == Response(200, DocumentJson(DecidePost(Some(body)).doc))
  {
    posted := store.Post(Some(body), Healthy);
    read := store.Get(Healthy);
  }

  /**
    A fresh server serves the empty document; a two-question document is read
    back as written; a second, one-question document replaces it entirely.
  */
  method ReplaceScenario() returns (initial: Response, first: Response, second: Response)
    ensures initial == Response(200, JObject(map["questions" := JArray([]), "audioUrls" := JArray([])]))
    ensures first == Response(200, JObject(map[
      "questions" := JArray([JString("Q1"), JString("Q2")]),
      "audioUrls" := JArray([JString("/a1.mp3"), JString("/a2.mp3")])]))
    ensures second == Response(200, JObject(map[
      "questions" := JArray([JString("Q1")]),
      "audioUrls" := JArray([JString("/a1.mp3")])]))
  {
    var store := new QuestionStore(false, None);
    initial := store.Get(Healthy);
    var twoQuestions := Document([JString("Q1"), JString("Q2")], Some(JArray([JString("/a1.mp3"), JString("/a2.mp3")])));
    var ok := store.Post(Some(DocumentJson(twoQuestions)), Healthy);
    first := store.Get(Healthy);
    var oneQuestion := Document([JString("Q1")], Some(JArray([JString("/a1.mp3")])));
    ok := store.Post(Some(DocumentJson(oneQuestion)), Healthy);
    second := store.Get(Healthy);
  }
}
