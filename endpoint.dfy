/** `generate_csv_endpoint`: save the upload, read it, ask the model for instructions, run the
    transform script, write the cleaned CSV and the suggestions file, answer the client, and
    remove the temp upload whatever happened. pandas, `exec` and base64 are parameters. */
module Endpoint {
  import opened Wrappers
  import opened PyStr
  import opened PyValues
  import opened OllamaHandler
  import opened Paths

  // ---------------------------------------------------------------------------------------
  // Choosing the table to save

  /** A value `exec` may leave in the script's local namespace. */
  datatype PyObject = DataFrame(table: Table) | OtherObject

  /** How `exec(script, safe_globals, local_vars)` ended: it raised, or it finished and left
      `local_vars` holding these bindings. */
  datatype ExecOutcome = ExecRaised(error: PyError) | Finished(locals: map<string, PyObject>)

  /** `exec` of the script value: anything but a str makes `exec` itself raise. */
  function RunScript(script: Json, exec: string -> ExecOutcome): ExecOutcome {
    if script.JString? then exec(script.text)
    else ExecRaised(TypeError("exec() arg 1 must be a string, bytes or code object"))
  }

  /** `processed_df`: the original unless the script value is truthy and running it binds
      `df_transformed` to a DataFrame. An `Exception` the script raises falls back silently to
      the original; a `BaseException` that is not an `Exception` passes the `except Exception`
      and leaves the `try` body. */
  function SelectTable(original: Table, script: Json, exec: string -> ExecOutcome): Result<Table, PyError> {
    if Truthy(script) then
      match RunScript(script, exec)
      case ExecRaised(e) => if e.BaseExceptionOnly? then Err(e) else Ok(original)
      case Finished(locals) =>
        if "df_transformed" in locals && locals["df_transformed"].DataFrame? then
          Ok(locals["df_transformed"].table)
        else Ok(original)
    else Ok(original)
  }

  /** The script replaces the table exactly when it is a non-empty str whose run binds
      `df_transformed` to a DataFrame, and then the table is that DataFrame; the selection fails
      exactly when such a run raises a `BaseException` that is not an `Exception`, and then with
      that exception; in every other case (no script, a falsy one, a non-str one, an `Exception`,
      a missing or mistyped binding) the original stays. */
  lemma SelectTableReplacesOnlyWhenBound(original: Table, script: Json, exec: string -> ExecOutcome)
    ensures var r := SelectTable(original, script, exec);
      var ran := script.JString? && script.text != "";
      var bound := ran && exec(script.text).Finished?
        && "df_transformed" in exec(script.text).locals
        && exec(script.text).locals["df_transformed"].DataFrame?;
      var escaped := ran && exec(script.text).ExecRaised?
        && exec(script.text).error.BaseExceptionOnly?;
      && (bound ==> r == Ok(exec(script.text).locals["df_transformed"].table))
      && (escaped ==> r == Err(exec(script.text).error))
      && (!bound && !escaped ==> r == Ok(original))
  {
  }

  // ---------------------------------------------------------------------------------------
  // The suggestions file

  const SuggestionsHeader := "Tableau Visualization Suggestions:\n\n"
  const NotesHeader := "Additional Notes:\n\n"

  /** What the `with open(...)` block leaves in the file: all of its text, or the part written
      before a `+` raised. */
  datatype FileWrite = Complete(text: string) | Partial(text: string, error: PyError)

  /** The TypeError of `v + "..."` for a value `v` that is not a str. */
  function LeftConcatError(v: Json): PyError {
    if v.JArray? then TypeError("can only concatenate list (not \"str\") to list")
    else TypeError("unsupported operand type(s) for +: '" + TypeName(v) + "' and 'str'")
  }

  /** The TypeError of `"..." + v` for a value `v` that is not a str. */
  function RightConcatError(v: Json): PyError {
    TypeError("can only concatenate str (not \"" + TypeName(v) + "\") to str")
  }

  /** The suggestions file: the header, the suggestions and a blank line, then the notes section
      only when the notes are truthy. The header is written before the suggestions are
      concatenated, so a suggestions value that is not a str leaves the header alone in the file. */
  function SuggestionsFile(suggestions: Json, notes: Json): FileWrite {
    if !suggestions.JString? then Partial(SuggestionsHeader, LeftConcatError(suggestions))
    else
      var body := SuggestionsHeader + suggestions.text + "\n\n";
      if !Truthy(notes) then Complete(body)
      else if !notes.JString? then Partial(body, RightConcatError(notes))
      else Complete(body + NotesHeader + notes.text + "\n")
  }

  /** With str values the file is complete: the header, the suggestions verbatim, a blank line,
      and the notes section exactly when the notes are non-empty, holding them verbatim. */
  lemma SuggestionsFileLayout(suggestions: string, notes: string)
    ensures var w := SuggestionsFile(JString(suggestions), JString(notes));
      var h := |SuggestionsHeader|;
      var n := h + |suggestions| + 2;
      && w.Complete?
      && |w.text| == n + (if notes == "" then 0 else |NotesHeader| + |notes| + 1)
      && w.text[..h] == SuggestionsHeader
      && w.text[h..h + |suggestions|] == suggestions
      && w.text[h + |suggestions|..n] == "\n\n"
      && (notes != "" ==>
            w.text[n..n + |NotesHeader|] == NotesHeader
            && w.text[n + |NotesHeader|..|w.text| - 1] == notes
            && w.text[|w.text| - 1] == '\n')
  {
    var h := SuggestionsHeader;
    var body := h + suggestions + "\n\n";
    assert body[..|h|] == h;
    assert body[|h|..|h| + |suggestions|] == suggestions;
    assert body[|h| + |suggestions|..] == "\n\n";
    if notes != "" {
      var t := body + NotesHeader + notes + "\n";
      assert t[..|body|] == body;
      assert t[|body|..|body| + |NotesHeader|] == NotesHeader;
      assert t[|body| + |NotesHeader|..|t| - 1] == notes;
    }
  }

  /** A value that is not a str cuts the file short: the header alone when the suggestions are
      not a str, everything but the notes section when truthy notes are not a str. */
  lemma SuggestionsFileCutShort(suggestions: Json, notes: Json)
    ensures var w := SuggestionsFile(suggestions, notes);
      && (!suggestions.JString? ==> w.Partial? && w.text == SuggestionsHeader && w.error.TypeError?)
      && (suggestions.JString? && Truthy(notes) && !notes.JString? ==>
            w.Partial? && w.text == SuggestionsHeader + suggestions.text + "\n\n" && w.error.TypeError?)
      && (w.Partial? <==> !suggestions.JString? || (Truthy(notes) && !notes.JString?))
  {
  }

  // ---------------------------------------------------------------------------------------
  // Responses

  datatype ResponseBody =
    | Success(status: string, message: string, csvData: string, filename: string,
              suggestions: Json, notes: Json)
    | Detail(detail: string)

  /** What the client gets: a response with a status and a JSON body, or nothing of the
      handler's own when an exception passes both `except` clauses and leaves the endpoint. */
  datatype Response =
    | Response(statusCode: nat, body: ResponseBody)
    | Escaped(error: PyError)

  const EmptyCsvDetail := "Uploaded CSV file is empty"
  const NoInstructionsDetail := "Ollama did not return valid instructions."
  const EmptyOrInvalidDetail := "Uploaded CSV file is empty or invalid"
  const InternalErrorPrefix := "Internal server error: "

  /** The two `except` clauses: pandas' EmptyDataError answers 400, any other `Exception` 500;
      a `BaseException` that is not an `Exception` is caught by neither. */
  function ErrorResponse(e: PyError): Response {
    if e.BaseExceptionOnly? then Escaped(e)
    else if e.EmptyDataError? then Response(400, Detail(EmptyOrInvalidDetail))
    else Response(500, Detail(InternalErrorPrefix + Str(e)))
  }

  /** 400 exactly for EmptyDataError; every other exception, an HTTPException included, is a
      500 whose detail is the prefix followed by `str(e)`. */
  lemma ErrorResponseStatus(e: PyError)
    ensures var r := ErrorResponse(e);
      && (r.Escaped? <==> e.BaseExceptionOnly?)
      && (r.Escaped? ==> r.error == e)
      && (r.Response? && r.statusCode == 400 <==> e.EmptyDataError?)
      && (r.Response? ==> r.statusCode == 400 || r.statusCode == 500)
      && (r.Response? && r.statusCode == 500 ==>
            r.body.Detail? && |InternalErrorPrefix| <= |r.body.detail|
            && r.body.detail[..|InternalErrorPrefix|] == InternalErrorPrefix
            && r.body.detail[|InternalErrorPrefix|..] == Str(e))
  {
    if !e.EmptyDataError? && !e.BaseExceptionOnly? {
      var d := InternalErrorPrefix + Str(e);
      assert d[..|InternalErrorPrefix|] == InternalErrorPrefix;
    }
  }

  lemma NatToString400()
    ensures NatToString(400) == "400"
  {
    assert NatToString(4) == "4";
    assert NatToString(40) == "40";
  }

  lemma NatToString500()
    ensures NatToString(500) == "500"
  {
    assert NatToString(5) == "5";
    assert NatToString(50) == "50";
  }

  /** An HTTPException raised inside the `try` is caught by `except Exception`, so it reaches
      the client as a 500 carrying its own status inside the detail. */
  lemma RaisedHttpExceptionBecomes500(code: nat, detail: string)
    ensures ErrorResponse(HttpException(code, detail))
      == Response(500, Detail(InternalErrorPrefix + (NatToString(code) + ": " + detail)))
    ensures DecimalValue(NatToString(code)) == code
  {
    NatToStringRoundTrip(code);
  }

  /** The empty-table 400 arrives as a 500. */
  lemma EmptyCsvBecomes500()
    ensures ErrorResponse(HttpException(400, EmptyCsvDetail))
      == Response(500, Detail(InternalErrorPrefix + ("400" + ": " + EmptyCsvDetail)))
  {
    NatToString400();
  }

  /** The falsy-instructions 500 arrives as a 500 with the prefix in front of its own. */
  lemma NoInstructionsBecomes500()
    ensures ErrorResponse(HttpException(500, NoInstructionsDetail))
      == Response(500, Detail(InternalErrorPrefix + ("500" + ": " + NoInstructionsDetail)))
  {
    NatToString500();
  }

  // ---------------------------------------------------------------------------------------
  // Saving the upload

  /** PATH_MAX on Linux: a path must take fewer bytes than this. */
  const PathMax := 4096

  /** The longest file name, in bytes, the usual Linux file systems accept. */
  const NameMax := 255

  /** `name` up to its first "/": the entry the kernel looks up first. */
  function FirstComponent(name: string): (c: string)
    ensures |c| <= |name| && c == name[..|c|] && '/' !in c
    ensures |c| < |name| ==> name[|c|] == '/'
  {
    if |name| == 0 || name[0] == '/' then "" else [name[0]] + FirstComponent(name[1..])
  }

  /** Every character from index `i` on is "/". */
  predicate SlashesFrom(s: string, i: nat) {
    forall k :: i <= k < |s| ==> s[k] == '/'
  }

  /** What `open(temp_csv_filepath, "wb")` raises on Linux, if anything. The path is checked for
      a NUL byte before it reaches the kernel, which then refuses a path or a name too long.
      The upload folder exists and holds no sub-folder (nothing creates one), so a "/" in the
      temp name points into a directory that is not there, unless the "/" characters only end
      the name, which asks for a directory. */
  function OpenUploadError(session: string, filename: string): Option<PyError> {
    var path := TempUploadPath(session, filename);
    var name := session + "_" + filename;
    var first := FirstComponent(name);
    if '\0' in path then Some(OtherError("embedded null byte"))
    else if Utf8Length(path) >= PathMax || Utf8Length(first) > NameMax then
      Some(OtherError("[Errno 36] File name too long: " + Repr(path)))
    else if first == name then None
    else if SlashesFrom(name, |first|) then Some(OtherError("[Errno 21] Is a directory: " + Repr(path)))
    else Some(OtherError("[Errno 2] No such file or directory: " + Repr(path)))
  }

  /** `filename` sits at the end of the temp name. */
  lemma FilenameEndsTempName(session: string, filename: string, k: int)
    requires 0 <= k < |filename|
    ensures (session + "_" + filename)[|session| + 1 + k] == filename[k]
  {
  }

  /** For a uuid session id, the upload is saved exactly when the file name holds no "/" and no
      NUL and the temp path and name are short enough; otherwise the request fails with the
      error `open` raises, which is never pandas' EmptyDataError. */
  lemma OpenUploadErrorCases(session: string, filename: string)
    requires IsUuidText(session)
    ensures var path := TempUploadPath(session, filename);
      var name := session + "_" + filename;
      && (OpenUploadError(session, filename).None? <==>
            '/' !in filename && '\0' !in filename && Utf8Length(path) < PathMax && Utf8Length(name) <= NameMax)
      && (OpenUploadError(session, filename).Some? ==> OpenUploadError(session, filename).value.OtherError?)
  {
    TempNameWholeIff(session, filename);
    TempPathNulIff(session, filename);
  }

  /** Under a uuid session id the temp name is one path component exactly when the file name
      holds no "/". */
  lemma TempNameWholeIff(session: string, filename: string)
    requires IsUuidText(session)
    ensures var name := session + "_" + filename;
      FirstComponent(name) == name <==> '/' !in filename
  {
    var name := session + "_" + filename;
    var first := FirstComponent(name);
    if '/' in filename {
      var k :| 0 <= k < |filename| && filename[k] == '/';
      FilenameEndsTempName(session, filename, k);
      assert '/' in name;
    } else {
      forall k | 0 <= k < |name| ensures name[k] != '/' {
        if k > |session| {
          FilenameEndsTempName(session, filename, k - |session| - 1);
        }
      }
    }
  }

  /** Under a uuid session id the temp path holds a NUL exactly when the file name does. */
  lemma TempPathNulIff(session: string, filename: string)
    requires IsUuidText(session)
    ensures '\0' in TempUploadPath(session, filename) <==> '\0' in filename
  {
    var name := session + "_" + filename;
    var path := TempUploadPath(session, filename);
    assert name[0] == session[0];
    assert path == UploadFolder + "/" + name;
    if '\0' in filename {
      var k :| 0 <= k < |filename| && filename[k] == '\0';
      FilenameEndsTempName(session, filename, k);
      assert path[10 + |session| + 1 + k] == '\0';
    }
    if '\0' in path {
      var k :| 0 <= k < |path| && path[k] == '\0';
      assert path[k] == name[k - 10];
      FilenameEndsTempName(session, filename, k - 10 - |session| - 1);
    }
  }

  // ---------------------------------------------------------------------------------------
  // The endpoint

  /** The external services one request talks to: pandas' `read_csv` of the saved upload, the
      model's chat call, `json.loads`, `exec` of the script and base64 encoding. */
  datatype Services = Services(
    readCsv: string -> Result<Table, PyError>,
    chat: string -> ChatReply,
    parse: string -> Decoding,
    exec: string -> ExecOutcome,
    base64: string -> string)

  /** What the `try` body has decided before it touches the output folder. */
  datatype Plan = Plan(processed: Table, suggestions: Json, notes: Json)

  /** The `try` body up to the first write to the output folder: read the upload, refuse an
      empty table, get the instructions (the handler reads the same file into the same table),
      refuse falsy instructions, then pick the table and the suggestion texts with `.get`. */
  function Prepare(upload: string, request: string, sv: Services): Result<Plan, PyError> {
    match sv.readCsv(upload)
    case Err(e) => Err(e)
    case Ok(df) =>
      if IsEmptyTable(df) then Err(HttpException(400, EmptyCsvDetail))
      else match GenerateInstructions(df, request, sv.chat, sv.parse)
        case Err(e) => Err(e)
        case Ok(ins) =>
          if !Truthy(ins) then Err(HttpException(500, NoInstructionsDetail))
          else if !ins.JObject? then Err(AttributeError("'" + TypeName(ins) + "' object has no attribute 'get'"))
          else
            var m := ins.fields;
            match SelectTable(df, Get(m, "data_transform_script", JString("")), sv.exec)
            case Err(e) => Err(e)
            case Ok(processed) =>
              Ok(Plan(processed, Get(m, "tableau_suggestions", JString("")), Get(m, "notes", JString(""))))
  }

  /** The client's answer to one request: the error `open` raised for the temp upload, or the
      outcome of the steps after it. */
  function EndpointResponse(session: string, filename: string, upload: string, request: string,
                            sv: Services): Response
  {
    if OpenUploadError(session, filename).Some? then ErrorResponse(OpenUploadError(session, filename).value)
    else SavedUploadResponse(filename, upload, request, sv)
  }

  /** The answer once the upload has been saved. */
  function SavedUploadResponse(filename: string, upload: string, request: string, sv: Services): Response {
    match Prepare(upload, request, sv)
    case Err(e) => ErrorResponse(e)
    case Ok(plan) =>
      match SuggestionsFile(plan.suggestions, plan.notes)
      case Partial(_, e) => ErrorResponse(e)
      case Complete(_) =>
        Response(200, Success("success", "CSV processed and suggestions generated.",
                              sv.base64(plan.processed.csv), CleanedName(Root(filename)),
                              plan.suggestions, plan.notes))
  }

  /** The output folder after one request: untouched unless the upload was saved and the steps
      before the first write succeeded. */
  function EndpointOutputs(outputs: map<string, string>, session: string, filename: string, upload: string,
                           request: string, sv: Services): map<string, string>
  {
    if OpenUploadError(session, filename).Some? then outputs
    else SavedUploadOutputs(outputs, filename, upload, request, sv)
  }

  /** The output folder once the upload has been saved. */
  function SavedUploadOutputs(outputs: map<string, string>, filename: string, upload: string,
                              request: string, sv: Services): map<string, string>
  {
    match Prepare(upload, request, sv)
    case Err(_) => outputs
    case Ok(plan) =>
      outputs[CleanedPath(filename) := plan.processed.csv]
             [SuggestionsPath(filename) := SuggestionsFile(plan.suggestions, plan.notes).text]
  }

  /** Falsy instructions stop the request before any transformation or output file: the output
      folder is untouched and the client gets the 500 that wraps the raised HTTPException. */
  lemma FalsyInstructionsAbort(outputs: map<string, string>, session: string, filename: string,
                               upload: string, request: string, sv: Services, df: Table)
    requires OpenUploadError(session, filename).None?
    requires sv.readCsv(upload) == Ok(df) && !IsEmptyTable(df)
    requires GenerateInstructions(df, request, sv.chat, sv.parse).Ok?
    requires !Truthy(GenerateInstructions(df, request, sv.chat, sv.parse).value)
    ensures EndpointOutputs(outputs, session, filename, upload, request, sv) == outputs
    ensures EndpointResponse(session, filename, upload, request, sv)
      == Response(500, Detail(InternalErrorPrefix + ("500" + ": " + NoInstructionsDetail)))
  {
    NoInstructionsBecomes500();
  }

  /** An exception `json.loads` raises other than a JSONDecodeError (a RecursionError, say) is
      re-raised by the handler: the client sees a 500 carrying that exception's own message,
      not the falsy-instructions one. */
  lemma ParserErrorBecomes500(session: string, filename: string, upload: string, request: string,
                              sv: Services, df: Table, raw: string, message: string)
    requires OpenUploadError(session, filename).None?
    requires sv.readCsv(upload) == Ok(df) && !IsEmptyTable(df)
    requires sv.chat(BuildPrompt(df.columns, df.head, df.info, request)) == Completion(raw)
    requires Candidate(raw).Some?
    requires sv.parse(Straighten(Candidate(raw).value)) == DecodeRaised(OtherError(message))
    ensures EndpointResponse(session, filename, upload, request, sv)
      == Response(500, Detail(InternalErrorPrefix + message))
  {
    ParserErrorStopsPrepare(upload, request, sv, df, raw, OtherError(message));
  }

  /** The same parser exception leaves the output folder untouched. */
  lemma ParserErrorWritesNothing(outputs: map<string, string>, session: string, filename: string,
                                 upload: string, request: string, sv: Services, df: Table,
                                 raw: string, e: PyError)
    requires sv.readCsv(upload) == Ok(df) && !IsEmptyTable(df)
    requires sv.chat(BuildPrompt(df.columns, df.head, df.info, request)) == Completion(raw)
    requires Candidate(raw).Some?
    requires sv.parse(Straighten(Candidate(raw).value)) == DecodeRaised(e)
    ensures EndpointOutputs(outputs, session, filename, upload, request, sv) == outputs
  {
    ParserErrorStopsPrepare(upload, request, sv, df, raw, e);
  }

  /** The parser's exception ends the `try` body before any write. */
  lemma ParserErrorStopsPrepare(upload: string, request: string, sv: Services, df: Table,
                                raw: string, e: PyError)
    requires sv.readCsv(upload) == Ok(df) && !IsEmptyTable(df)
    requires sv.chat(BuildPrompt(df.columns, df.head, df.info, request)) == Completion(raw)
    requires Candidate(raw).Some?
    requires sv.parse(Straighten(Candidate(raw).value)) == DecodeRaised(e)
    ensures Prepare(upload, request, sv) == Err(e)
  {
    assert InterpretCompletion(raw, sv.parse) == Err(e);
    assert GenerateInstructions(df, request, sv.chat, sv.parse) == Err(e);
  }

  /** A CSV with a header and no rows reads as an empty table: the 400 raised for it is caught
      as a generic exception, so the client sees a 500 and nothing is written. */
  lemma HeaderOnlyCsvIs500(outputs: map<string, string>, session: string, filename: string,
                           upload: string, request: string, sv: Services, df: Table)
    requires OpenUploadError(session, filename).None?
    requires sv.readCsv(upload) == Ok(df) && df.rowCount == 0
    ensures EndpointOutputs(outputs, session, filename, upload, request, sv) == outputs
    ensures EndpointResponse(session, filename, upload, request, sv)
      == Response(500, Detail(InternalErrorPrefix + ("400" + ": " + EmptyCsvDetail)))
  {
    EmptyCsvBecomes500();
  }

  /** An upload name holding "/" can never be saved under a uuid session id: the request
      answers 500 with `open`'s error, and the output folder is untouched. */
  lemma SlashInUploadNameIs500(outputs: map<string, string>, session: string, filename: string,
                               upload: string, request: string, sv: Services)
    requires IsUuidText(session) && '/' in filename
    ensures EndpointOutputs(outputs, session, filename, upload, request, sv) == outputs
    ensures var r := EndpointResponse(session, filename, upload, request, sv);
      r.Response? && r.statusCode == 500 && r.body.Detail?
  {
    OpenUploadErrorCases(session, filename);
  }

  /** Either an exception escapes the handler, exactly when a saved upload's steps raised a
      `BaseException` that is not an `Exception`, or the status is 200, 400 or 500. 400 exactly
      when pandas raised EmptyDataError on a saved upload; 200 exactly when every step
      succeeded, and then both artifacts are in the output folder with the processed CSV and
      the suggestions text, the CSV data is the encoded processed table, and the name returned
      is the cleaned CSV's, which is the last component of the path it was saved under. An
      escape or a 400 leaves the output folder as it was; a 500 changes it only when the
      suggestions file was cut short after the CSV was written. No other path ever changes. */
  lemma EndpointStatus(outputs: map<string, string>, session: string, filename: string,
                       upload: string, request: string, sv: Services)
    ensures var r := EndpointResponse(session, filename, upload, request, sv);
      var saved := OpenUploadError(session, filename).None?;
      var p := Prepare(upload, request, sv);
      var outs := EndpointOutputs(outputs, session, filename, upload, request, sv);
      && (r.Escaped? <==> saved && p.Err? && p.error.BaseExceptionOnly?)
      && (r.Response? ==> r.statusCode == 200 || r.statusCode == 400 || r.statusCode == 500)
      && (r.Response? && r.statusCode == 400 <==> saved && p.Err? && p.error.EmptyDataError?)
      && (r.Response? && r.statusCode == 200 <==>
            saved && p.Ok? && SuggestionsFile(p.value.suggestions, p.value.notes).Complete?)
      && (r.Escaped? || (r.Response? && r.statusCode == 400) ==> outs == outputs)
      && (r.Response? && r.statusCode == 500 && outs != outputs ==>
            saved && p.Ok? && SuggestionsFile(p.value.suggestions, p.value.notes).Partial?
            && outs[CleanedPath(filename)] == p.value.processed.csv
            && outs[SuggestionsPath(filename)] == SuggestionsFile(p.value.suggestions, p.value.notes).text)
      && (r.Response? && r.statusCode == 200 ==>
            && CleanedPath(filename) in outs && SuggestionsPath(filename) in outs
            && outs[CleanedPath(filename)] == p.value.processed.csv
            && outs[SuggestionsPath(filename)] == SuggestionsFile(p.value.suggestions, p.value.notes).text
            && r.body.csvData == sv.base64(p.value.processed.csv)
            && r.body.filename == CleanedName(Root(filename))
            && Basename(CleanedPath(filename)) == r.body.filename)
    ensures var outs := EndpointOutputs(outputs, session, filename, upload, request, sv);
      forall q :: q != CleanedPath(filename) && q != SuggestionsPath(filename) ==>
        (q in outs <==> q in outputs) && (q in outputs ==> outs[q] == outputs[q])
  {
    var open := OpenUploadError(session, filename);
    if open.Some? {
      ErrorResponseStatus(open.value);
      assert !open.value.EmptyDataError? && !open.value.BaseExceptionOnly?;
    } else {
      SavedUploadStatus(outputs, session, filename, upload, request, sv);
    }
  }

  /** `EndpointStatus` once the upload has been saved. */
  lemma SavedUploadStatus(outputs: map<string, string>, session: string, filename: string,
                          upload: string, request: string, sv: Services)
    requires OpenUploadError(session, filename).None?
    ensures var r := SavedUploadResponse(filename, upload, request, sv);
      var p := Prepare(upload, request, sv);
      var outs := SavedUploadOutputs(outputs, filename, upload, request, sv);
      && (r.Escaped? <==> p.Err? && p.error.BaseExceptionOnly?)
      && (r.Response? ==> r.statusCode == 200 || r.statusCode == 400 || r.statusCode == 500)
      && (r.Response? && r.statusCode == 400 <==> p.Err? && p.error.EmptyDataError?)
      && (r.Response? && r.statusCode == 200 <==>
            p.Ok? && SuggestionsFile(p.value.suggestions, p.value.notes).Complete?)
      && (r.Escaped? || (r.Response? && r.statusCode == 400) ==> outs == outputs)
      && (r.Response? && r.statusCode == 500 && outs != outputs ==>
            p.Ok? && SuggestionsFile(p.value.suggestions, p.value.notes).Partial?
            && outs[CleanedPath(filename)] == p.value.processed.csv
            && outs[SuggestionsPath(filename)] == SuggestionsFile(p.value.suggestions, p.value.notes).text)
      && (r.Response? && r.statusCode == 200 ==>
            && CleanedPath(filename) in outs && SuggestionsPath(filename) in outs
            && outs[CleanedPath(filename)] == p.value.processed.csv
            && outs[SuggestionsPath(filename)] == SuggestionsFile(p.value.suggestions, p.value.notes).text
            && r.body.csvData == sv.base64(p.value.processed.csv)
            && r.body.filename == CleanedName(Root(filename))
            && Basename(CleanedPath(filename)) == r.body.filename)
    ensures var outs := SavedUploadOutputs(outputs, filename, upload, request, sv);
      forall q :: q != CleanedPath(filename) && q != SuggestionsPath(filename) ==>
        (q in outs <==> q in outputs) && (q in outputs ==> outs[q] == outputs[q])
  {
    var p := Prepare(upload, request, sv);
    match p
    case Err(e) => ErrorResponseStatus(e);
    case Ok(plan) =>
      var w := SuggestionsFile(plan.suggestions, plan.notes);
      SuggestionsFileCutShort(plan.suggestions, plan.notes);
      CleanedAndSuggestionsPathsDiffer(filename);
      if w.Partial? {
        ErrorResponseStatus(w.error);
      } else {
        SavedNameHasNoSlash(session, filename);
        ReturnedNameIsSavedName(Root(filename));
      }
  }

  /** A saved upload's name holds no "/", and neither does its root. */
  lemma SavedNameHasNoSlash(session: string, filename: string)
    requires OpenUploadError(session, filename).None?
    ensures '/' !in filename && '/' !in Root(filename)
  {
    var name := session + "_" + filename;
    assert FirstComponent(name) == name;
    forall k | 0 <= k < |filename| ensures filename[k] != '/' {
      FilenameEndsTempName(session, filename, k);
    }
    var base := Root(filename);
    assert forall k :: 0 <= k < |base| ==> base[k] == filename[k];
  }

  /** The two artifacts never overwrite each other. */
  lemma CleanedAndSuggestionsPathsDiffer(filename: string)
    ensures CleanedPath(filename) != SuggestionsPath(filename)
  {
    var base := Root(filename);
    var c := CleanedName(base);
    var s := SuggestionsName(base);
    assert c[|base| + 1] == 'c' && s[|base| + 1] == 's';
    if |c| > 0 && c[0] == '/' {
      assert s[0] == '/';
    } else {
      assert PathJoin(OutputFolder, c) == OutputFolder + "/" + c;
      assert PathJoin(OutputFolder, s) == OutputFolder + "/" + s;
      assert (OutputFolder + "/" + c)[|OutputFolder| + 1 + |base| + 1] == 'c';
      assert (OutputFolder + "/" + s)[|OutputFolder| + 1 + |base| + 1] == 's';
    }
  }

  /** Removing a path just added leaves the folder as removing it from the start would. */
  lemma RemoveAfterAdd(files: map<string, string>, path: string, content: string)
    ensures files[path := content] - {path} == files - {path}
  {
  }

  lemma RemoveAbsent(files: map<string, string>, path: string)
    requires path !in files
    ensures files - {path} == files
  {
  }

  /** The backend's two folders: file path to content. */
  class Server {
    var uploads: map<string, string>
    var outputs: map<string, string>

    /** The folders as `os.makedirs(..., exist_ok=True)` leaves them: holding whatever earlier
        runs put there. */
    constructor(uploads0: map<string, string>, outputs0: map<string, string>)
      ensures uploads == uploads0 && outputs == outputs0
    {
      uploads := uploads0;
      outputs := outputs0;
    }

    /** One POST to /generate-csv/ with the upload `filename` holding `upload`, under the
        session id `session`. The temp upload is gone afterwards whatever happened, the rest of
        the upload folder is as it was, and the output folder and the answer are those the
        request's outcome determines. `os.path.exists` is membership in the folder map. */
    method GenerateCsv(session: string, filename: string, upload: string, request: string, sv: Services)
      returns (resp: Response)
      modifies this
      ensures uploads == old(uploads) - {TempUploadPath(session, filename)}
      ensures outputs == EndpointOutputs(old(outputs), session, filename, upload, request, sv)
      ensures resp == EndpointResponse(session, filename, upload, request, sv)
    {
      var tempPath := TempUploadPath(session, filename);
      var base, _ := SplitExt(filename);
      var cleanedPath := PathJoin(OutputFolder, CleanedName(base));
      var suggestionsPath := PathJoin(OutputFolder, SuggestionsName(base));

      var openError := OpenUploadError(session, filename);
      if openError.Some? {
        resp := ErrorResponse(openError.value);
      } else {
        uploads := uploads[tempPath := upload];
        resp := ProcessSavedUpload(filename, base, cleanedPath, suggestionsPath, upload, request, sv);
        RemoveAfterAdd(old(uploads), tempPath, upload);
      }
      if tempPath in uploads {
        uploads := uploads - {tempPath};
      } else {
        RemoveAbsent(uploads, tempPath);
      }
    }

    /** The `try` body after the upload was saved: read it, get the instructions, write the
        cleaned CSV, then the suggestions file, and build the answer. */
    method ProcessSavedUpload(filename: string, base: string, cleanedPath: string, suggestionsPath: string,
                              upload: string, request: string, sv: Services)
      returns (resp: Response)
      requires base == Root(filename)
      requires cleanedPath == PathJoin(OutputFolder, CleanedName(base))
      requires suggestionsPath == PathJoin(OutputFolder, SuggestionsName(base))
      modifies this
      ensures uploads == old(uploads)
      ensures outputs == SavedUploadOutputs(old(outputs), filename, upload, request, sv)
      ensures resp == SavedUploadResponse(filename, upload, request, sv)
    {
      match Prepare(upload, request, sv) {
        case Err(e) =>
          resp := ErrorResponse(e);
        case Ok(plan) =>
          outputs := outputs[cleanedPath := plan.processed.csv];
          var file := SuggestionsFile(plan.suggestions, plan.notes);
          outputs := outputs[suggestionsPath := file.text];
          match file {
            case Partial(_, e) =>
              resp := ErrorResponse(e);
            case Complete(_) =>
              resp := Response(200, Success("success", "CSV processed and suggestions generated.",
                                            sv.base64(plan.processed.csv), CleanedName(base),
                                            plan.suggestions, plan.notes));
          }
      }
    }
  }
}
