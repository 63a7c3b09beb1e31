/**
  The audio upload endpoint: a multipart form with a `file` part and a
  `questionId` part; the bytes are written into the public upload directory
  under `question_<questionId>_<timestamp>.mp3` and the public path of the
  file is returned.

  The directory is the state of `UploadDir`, a map from file name to
  content. The clock (`Date.now()`) is the parameter `now`, and what the
  file-system calls report on the request is the parameter `env`.
*/
module UploadRoute {
  import opened Wrappers
  import opened Decimal
  import opened Http

  newtype byte = x: int | 0 <= x < 256

  /** A value of `formData.get(key)`: a File (its bytes) or a string. */
  datatype FormEntry = FileEntry(bytes: seq<byte>) | TextEntry(text: string)

  /** `formData.get(key)`: the entry, or `null` (None) when the form has none. */
  function FormGet(form: map<string, FormEntry>, key: string): Option<FormEntry> {
    if key in form then Some(form[key]) else None
  }

  /** Truthiness of a form value: `null` and `""` are falsy, every File is truthy. */
  predicate Truthy(e: Option<FormEntry>) {
    e.Some? && (e.value.FileEntry? || e.value.text != "")
  }

  /** `${questionId}`: a string as itself, a File as `[object File]`. */
  function TemplateText(e: FormEntry): (t: string)
    ensures e.TextEntry? ==> t == e.text
    ensures t != "" || e == TextEntry("")
  {
    match e
    case TextEntry(s) => s
    case FileEntry(_) => "[object File]"
  }

  const NamePrefix: string := "question_"
  const NameSuffix: string := ".mp3"
  const PublicDir: string := "/uploads/"

  /** `question_${questionId}_${Date.now()}.mp3`, taken apart again. */
  function FileName(questionId: string, timestamp: nat): (name: string)
    ensures |name| == |NamePrefix| + |questionId| + 1 + |NatToString(timestamp)| + |NameSuffix|
    ensures name[..|NamePrefix|] == NamePrefix
    ensures name[|NamePrefix|..|NamePrefix| + |questionId|] == questionId
    ensures name[|NamePrefix| + |questionId|] == '_'
    ensures name[|NamePrefix| + |questionId| + 1..|name| - |NameSuffix|] == NatToString(timestamp)
    ensures name[|name| - |NameSuffix|..] == NameSuffix
  {
    NamePrefix + questionId + "_" + NatToString(timestamp) + NameSuffix
  }

  /** `/uploads/${filename}`: the file name after the public directory. */
  function PublicPath(filename: string): (path: string)
    ensures |path| == |PublicDir| + |filename|
    ensures path[..|PublicDir|] == PublicDir
    ensures path[|PublicDir|..] == filename
  {
    PublicDir + filename
  }

  /** The `_` before the timestamp is the last `_` of a generated name: the timestamp has none. */
  lemma SeparatorIsLast(questionId: string, timestamp: nat, i: int)
    requires var name := FileName(questionId, timestamp);
      |NamePrefix| + |questionId| < i < |name| - |NameSuffix|
    ensures FileName(questionId, timestamp)[i] != '_'
  {
  }

  /**
    A generated name determines the question id and the timestamp: distinct
    ids or distinct milliseconds give distinct names, and only the same id in
    the same millisecond gives the same name.
  */
  lemma FileNameInjective(id1: string, t1: nat, id2: string, t2: nat)
    ensures FileName(id1, t1) == FileName(id2, t2) <==> id1 == id2 && t1 == t2
  {
    var n1, n2 := FileName(id1, t1), FileName(id2, t2);
    if n1 == n2 {
      var sep1, sep2 := |NamePrefix| + |id1|, |NamePrefix| + |id2|;
      if sep1 < sep2 {
        SeparatorIsLast(id1, t1, sep2);
        assert false;
      } else if sep2 < sep1 {
        SeparatorIsLast(id2, t2, sep1);
        assert false;
      }
      assert id1 == n1[|NamePrefix|..sep1];
      assert NatToString(t1) == n1[sep1 + 1..|n1| - |NameSuffix|];
      NatToStringInjective(t1, t2);
    }
  }

  const MissingInputMessage: string := "Arquivo ou ID da pergunta não fornecido"
  const UploadFailedMessage: string := "Falha ao fazer upload do arquivo"

  /** `{ success: true, filePath: publicPath }`. */
  function UploadedBody(publicPath: string): Json {
    JObject(map["success" := JBool(true), "filePath" := JString(publicPath)])
  }

  /** How POST treats its form, before anything is written. */
  datatype UploadDecision =
    | Crash    // `request.formData()` threw, or the `file` part is a string (no `arrayBuffer`): status 500
    | Reject   // `file` or `questionId` is missing or the empty string: status 400
    | Accept(content: seq<byte>, questionId: string)

  /**
    `!file || !questionId`, then `file.arrayBuffer()`. `form` is None when the
    body cannot be parsed as form data.
  */
  function DecideUpload(form: Option<map<string, FormEntry>>): (d: UploadDecision)
    ensures d == Reject <==> form.Some? && !(Truthy(FormGet(form.value, "file")) && Truthy(FormGet(form.value, "questionId")))
    ensures d.Accept? <==>
      form.Some? && Truthy(FormGet(form.value, "questionId")) && "file" in form.value && form.value["file"].FileEntry?
    ensures d.Accept? ==>
      d.content == form.value["file"].bytes && d.questionId == TemplateText(form.value["questionId"]) && d.questionId != ""
  {
    match form
    case None => Crash
    case Some(f) =>
      var file, questionId := FormGet(f, "file"), FormGet(f, "questionId");
      if !Truthy(file) || !Truthy(questionId) then Reject
      else if file.value.TextEntry? then Crash
      else Accept(file.value.bytes, TemplateText(questionId.value))
  }

  /** The public upload directory. */
  class UploadDir {
    var dirExists: bool
    var files: map<string, seq<byte>>

    /** Files exist only inside an existing directory. */
    ghost predicate Valid()
      reads this
    {
      files.Keys != {} ==> dirExists
    }

    constructor (present: bool, contents: map<string, seq<byte>>)
      requires contents.Keys != {} ==> present
      ensures Valid()
      ensures dirExists == present && files == contents
    {
      dirExists := present;
      files := contents;
    }

    /** `ensureDirectoryExists(uploadDir)`: EEXIST is swallowed, any other error is thrown back. */
    method EnsureDirectoryExists(mkdirError: Option<ErrCode>) returns (thrown: Option<ErrCode>)
      modifies this`dirExists
      ensures thrown == EnsureDirResult(mkdirError)
      ensures dirExists == (old(dirExists) || thrown.None?)
    {
      thrown := None;
      if mkdirError.None? {
        dirExists := true;
      } else if mkdirError.value == EEXIST {
        dirExists := true;
      } else {
        thrown := mkdirError;
      }
    }

    /**
      POST: status 400 without a file or a question id; otherwise the bytes
      are written under the generated name, replacing any file of that name,
      and the public path is returned; status 500 when the form cannot be
      read, the file part is not a file, or the directory or the write fails.
    */
    method Post(form: Option<map<string, FormEntry>>, now: nat, env: FsEnv) returns (resp: Response)
      requires Valid()
      modifies this
      ensures Valid()
      ensures DecideUpload(form) == Reject ==> resp == ErrorResponse(400, MissingInputMessage) && unchanged(this)
      ensures DecideUpload(form) == Crash ==> resp == ErrorResponse(500, UploadFailedMessage) && unchanged(this)
      ensures DecideUpload(form).Accept? ==> dirExists == (old(dirExists) || EnsureDirResult(env.mkdirError).None?)
      ensures DecideUpload(form).Accept? && WriteOutcome(env).None? ==>
        var name := FileName(DecideUpload(form).questionId, now);
        && resp == Response(200, UploadedBody(PublicPath(name)))
        && files == old(files)[name := DecideUpload(form).content]
      ensures DecideUpload(form).Accept? && WriteOutcome(env).Some? ==>
        resp == ErrorResponse(500, UploadFailedMessage) && files == old(files)
    {
      if form.None? {
        return ErrorResponse(500, UploadFailedMessage);
      }
      var file, questionId := FormGet(form.value, "file"), FormGet(form.value, "questionId");
      if !Truthy(file) || !Truthy(questionId) {
        return ErrorResponse(400, MissingInputMessage);
      }
      if file.value.TextEntry? {
        return ErrorResponse(500, UploadFailedMessage);
      }
      var buffer := file.value.bytes;
      var thrown := EnsureDirectoryExists(env.mkdirError);
      if thrown.Some? {
        return ErrorResponse(500, UploadFailedMessage);
      }
      var filename := FileName(TemplateText(questionId.value), now);
      if env.writeError.Some? {
        return ErrorResponse(500, UploadFailedMessage);
      }
      files := files[filename := buffer];
      var publicPath := PublicPath(filename);
      resp := Response(200, UploadedBody(publicPath));
    }
  }

  /** The form a client sends: the audio bytes and the question id. */
  function UploadForm(content: seq<byte>, questionId: string): map<string, FormEntry> {
    map["file" := FileEntry(content), "questionId" := TextEntry(questionId)]
  }

  /**
    Two uploads for one question in the same millisecond: both report the
    same path, and only the second content remains.
  */
  method SameMillisecondUploads(questionId: string, first: seq<byte>, second: seq<byte>, now: nat)
    returns (r1: Response, r2: Response, stored: map<string, seq<byte>>)
    requires questionId != ""
    ensures r1 == r2 == Response(200, UploadedBody(PublicPath(FileName(questionId, now))))
    ensures stored == map[FileName(questionId, now) := second]
  {
    var dir := new UploadDir(false, map[]);
    r1 := dir.Post(Some(UploadForm(first, questionId)), now, Healthy);
    r2 := dir.Post(Some(UploadForm(second, questionId)), now, Healthy);
    stored := dir.files;
  }

  /**
    Two uploads for one question in distinct milliseconds: distinct paths,
    and each name holds its own content.
  */
  method DistinctMillisecondUploads(questionId: string, first: seq<byte>, second: seq<byte>, t1: nat, t2: nat)
    returns (r1: Response, r2: Response, stored: map<string, seq<byte>>)
    requires questionId != "" && t1 != t2
    ensures r1 != r2
    ensures FileName(questionId, t1) in stored && stored[FileName(questionId, t1)] == first
    ensures FileName(questionId, t2) in stored && stored[FileName(questionId, t2)] == second
    ensures |stored| == 2
  {
    var dir := new UploadDir(false, map[]);
    r1 := dir.Post(Some(UploadForm(first, questionId)), t1, Healthy);
    r2 := dir.Post(Some(UploadForm(second, questionId)), t2, Healthy);
    stored := dir.files;
    FileNameInjective(questionId, t1, questionId, t2);
    var n1, n2 := FileName(questionId, t1), FileName(questionId, t2);
    assert PublicPath(n1) != PublicPath(n2) by {
      assert PublicPath(n1)[|PublicDir|..] == n1;
    }
    assert UploadedBody(PublicPath(n1)).members["filePath"] != UploadedBody(PublicPath(n2)).members["filePath"];
    assert stored.Keys == {n1, n2};
  }
}
