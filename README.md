# DataCraftAI backend, modelled in Dafny

DataCraftAI takes an uploaded CSV file and a request written in plain language. It shows the
table to a local Mistral model through Ollama. The model is asked for one JSON object with three
keys:

- `data_transform_script`: a pandas script;
- `tableau_suggestions`: text;
- `notes`: text.

The backend recovers that object from whatever the model wrote and runs the script on a copy of
the table. It then saves a cleaned CSV and a suggestions file, and answers the client.

This project models the two places where the backend makes decisions:

- **The instruction handler** (`generate_instructions_with_ollama`). It builds the prompt. It
  then extracts a JSON candidate from the raw completion:
  - strategy 1 takes the single fenced json block;
  - strategy 2 takes the span from the first `{` to the last `}`, and only this span is cleaned
    by the three regex substitutions and by blank-line removal.

  The handler then turns curly quotes into straight ones, decodes the text, and accepts the
  result only when all three keys are present.
- **The endpoint** (`generate_csv_endpoint`). Its decisions are:
  - the file names derived from the upload name (`os.path.splitext`, `os.path.join`);
  - whether the temp upload can be saved under the name the upload gives;
  - the choice between the transformed and the original table;
  - the text of the suggestions file;
  - the mapping from exception to HTTP status;
  - removing the temp upload on every path.

The endpoint is a `Server` class whose two fields are the upload folder and the output folder,
each a map from path to content. One request is the method `GenerateCsv`, proved against the pure
functions `EndpointResponse` and `EndpointOutputs`.

Python's string operations are modelled with their Python meaning in `PyStr`:

- `find` is leftmost, `count` does not count overlaps;
- `strip` removes the characters Python's `isspace` accepts;
- `splitlines` breaks on all of Python's line breaks.

The three `re.sub` calls are modelled in `Cleanup` as left-to-right scans. Each scan removes the
leftmost match and carries on after it, as `re.sub` does.

The model follows the code where a reading of the design might expect something else:

- A header-only CSV raises `HTTPException(400)` inside the `try`. `except Exception` catches it,
  so the client receives a 500 whose detail is `"Internal server error: 400: Uploaded CSV file is empty"`.
- When a key is missing, the handler's warning message calls `.keys()` on the decoded value. A
  decoded list or str therefore raises `AttributeError` instead of giving `{}`. A non-empty list
  or str that does pass the key check fails later on the endpoint's `.get`.
- The suggestions file is opened and its header written before `suggestions + "\n\n"` is
  evaluated. A non-str suggestions value therefore leaves a file holding only the header, after
  the cleaned CSV has already been saved, and the request answers 500.
- `str()` of an `HTTPException` is `"<status>: <detail>"`, which is how Starlette renders it.
- The temp upload is saved as `"<uuid>_" + filename` inside the upload folder. An upload name
  holding "/" therefore points into a sub-folder named after the fresh uuid, which does not
  exist, so `open` raises. Every such request answers 500 and writes nothing. The model spells
  out the Linux errors: ENOENT, or EISDIR when the "/" characters only end the name; ValueError
  for a NUL byte; ENAMETOOLONG for a path of 4096 bytes or more or a name over 255 bytes. The
  message shows the path through Python's `repr`.
- `except Exception` does not catch a `BaseException` that is not an `Exception`, such as the
  `SystemExit` or `KeyboardInterrupt` a generated script may raise. Such an exception leaves the
  endpoint with no response of its own (`Response.Escaped`), nothing is written to the output
  folder, and the `finally` clause still removes the temp upload.
- The folders are created with `exist_ok=True`, so a new `Server` starts from whatever files
  earlier runs left.

External services are parameters and are not implemented:

- the model's chat call is `chat: string -> ChatReply`; a failed call carries the text of the
  client library's exception, which the endpoint reports as an ordinary exception;
- `json.loads` is `parse: string -> Decoding`: the decoded value, `Malformed` for a
  `JSONDecodeError`, or `DecodeRaised` for any other exception it raises (a `RecursionError` on
  deep nesting, the `ValueError` for an over-long integer literal);
- pandas' `read_csv` is `readCsv`;
- `exec` of the script is `exec: string -> ExecOutcome`;
- base64 is `base64`;
- `uuid.uuid4()` is the `session` argument.

A pandas DataFrame is a `Table`. It records only what the backend reads from it: its column
names, its row count, and the strings it is rendered to (`head(3).to_string`, `info()`,
`to_csv`).

## Model

| member | source | states |
|---|---|---|
| PyStr.FindFrom | backend/ollama_handler.py:85-86 | `s.find(pat, start)` is the leftmost index at or after `start` where `pat` occurs, or -1 when there is none |
| PyStr.RFind | backend/ollama_handler.py:99 | `s.rfind(c)` is an index holding `c` with no `c` after it, or -1 when `c` is absent |
| PyStr.CountFrom | backend/ollama_handler.py:84 | `s.count(pat)` is positive exactly when `pat` occurs |
| PyStr.CountOneNoLaterOccurrence | backend/ollama_handler.py:84 | a count of one means there is an occurrence and none starts after the end of the first |
| PyStr.ContainsIffOccurs | backend/ollama_handler.py:84 | `pat in s` holds exactly when `pat` occurs at some index |
| PyStr.Strip | backend/ollama_handler.py:88-92 | `strip()` returns the slice of the input left once whitespace is removed from both ends; it does not start or end with whitespace; it is empty exactly when the input is all whitespace |
| PyStr.ReplaceChar | backend/ollama_handler.py:117 | `replace` of one character keeps the length and replaces that character at every position |
| PyStr.SplitLinesFrom | backend/ollama_handler.py:107 | `splitlines()` gives lines that hold no line break, and at least one line for a non-empty text |
| PyStr.JoinAppend | backend/ollama_handler.py:25 | `sep.join` keeps the order of the parts: one more part follows one more separator at the end |
| PyStr.SplitJoin | backend/ollama_handler.py:25 | `split(sep)` undoes `sep.join` when no part contains the separator's first character |
| PyStr.SplitLinesJoin | backend/ollama_handler.py:107 | joining `splitlines()` with "\n" gives the text back when "\n" is its only line break and it does not end in one |
| PyValues.Truthy | backend/main.py:65 | `not ollama_instructions`: Python truthiness of a decoded value; empty containers, "", zero, False and None are falsy |
| PyValues.Get | backend/main.py:71 | `dict.get(key, default)`: the bound value when the key is present, else the default |
| PyValues.TypeName | backend/main.py:121 | `type(v).__name__`, which the TypeError and AttributeError messages quote |
| PyValues.Str | backend/main.py:145 | `str(e)` of each exception; an HTTPException gives "<status>: <detail>" |
| PyValues.IsEmptyTable | backend/main.py:60 | `df.empty`: no rows or no columns |
| PyStr.Join | backend/ollama_handler.py:25 | `sep.join(xs)`; `SplitJoin` is its inverse |
| PyStr.SplitLines | backend/ollama_handler.py:107 | `s.splitlines()`; `SplitLinesFrom` and `SplitLinesJoin` state it |
| PyValues.NatToString | backend/main.py:145 | `str(n)` of a status code is a non-empty string of decimal digits |
| PyValues.NatToStringRoundTrip | backend/main.py:145 | `int(str(n)) == n`, so the status inside an error detail can be read back |
| PyStr.Repr | backend/main.py:50 | `repr` of a str, as it appears in an OSError message: quoted with the quote it picks, beginning and ending with it |
| PyStr.ReprRoundTrip | backend/main.py:50 | between its quotes, `repr(s)` reads back as `s` |
| PyStr.ReprPlain | backend/main.py:50 | a str of printable characters without quotes or backslashes is written as itself between single quotes |
| PyStr.Utf8Length | backend/main.py:50 | the UTF-8 length of a path is at least its number of characters and at most four times it |
| Cleanup.LeadingLetters | backend/ollama_handler.py:104 | `[a-zA-Z]*` consumes exactly the longest run of ASCII letters at the start |
| Cleanup.LineEnd | backend/ollama_handler.py:105 | `.*` in MULTILINE mode runs up to the first "\n", or to the end of the text |
| Cleanup.NonBlank | backend/ollama_handler.py:107 | the list comprehension keeps exactly the lines that are not all whitespace |
| Cleanup.NonBlankAppend | backend/ollama_handler.py:107 | filtering a concatenation filters each part, so the kept lines stay in order and keep their multiplicity |
| Cleanup.NonBlankSingle | backend/ollama_handler.py:107 | one line is kept exactly when it is not all whitespace |
| Cleanup.StripFences | backend/ollama_handler.py:104 | `re.sub` of "```[a-zA-Z]*" as a left-to-right scan; its properties are the `StripFences*` lemmas |
| Cleanup.StripLineComments | backend/ollama_handler.py:105 | `re.sub` of "//.*$" with MULTILINE as a scan; its properties are the `StripLineComments*` lemmas |
| Cleanup.StripBlockComments | backend/ollama_handler.py:106 | `re.sub` of the lazy block-comment pattern with DOTALL as a scan; its properties are the `StripBlockComments*` lemmas |
| Cleanup.RemoveBlankLines | backend/ollama_handler.py:107 | the blank-line removal; `RemoveBlankLinesLines` states its result |
| Cleanup.Sanitise | backend/ollama_handler.py:104-107 | the four clean-up steps in the handler's order; `SanitiseKeepsOpeningBrace` states what survives |
| Cleanup.StripFencesLeavesNoFence | backend/ollama_handler.py:104 | no "```" is left after the fence substitution |
| Cleanup.StripFencesWithoutFence | backend/ollama_handler.py:104 | text without "```" passes through unchanged |
| Cleanup.StripFencesIdempotent | backend/ollama_handler.py:104 | removing fences twice is the same as removing them once |
| Cleanup.StripFencesDropsTag | backend/ollama_handler.py:104 | a fence is removed together with the run of letters after it, and nothing more |
| Cleanup.StripLineCommentsLeavesNoSlashes | backend/ollama_handler.py:105 | no "//" is left after the line-comment substitution |
| Cleanup.StripLineCommentsKeepsNewlines | backend/ollama_handler.py:105 | the substitution keeps every "\n", so the line structure survives |
| Cleanup.StripLineCommentsAtComment | backend/ollama_handler.py:105 | at "//" the scan drops the rest of the line, and that part holds no "\n" |
| Cleanup.StripLineCommentsToEndOfLine | backend/ollama_handler.py:105 | a comment runs to the end of its line and no further |
| Cleanup.StripLineCommentsWithoutComment | backend/ollama_handler.py:105 | text without "//" passes through unchanged |
| Cleanup.StripLineCommentsIdempotent | backend/ollama_handler.py:105 | removing line comments twice is the same as removing them once |
| Cleanup.StripBlockCommentsLazy | backend/ollama_handler.py:106 | a block comment is removed up to the first close after its opening, across lines, and the text after it is kept |
| Cleanup.StripBlockCommentsWithoutClose | backend/ollama_handler.py:106 | with no closing marker, nothing is removed, including an unclosed opening |
| Cleanup.StripBlockCommentsWithoutOpen | backend/ollama_handler.py:106 | text without an opening marker passes through unchanged |
| Cleanup.RemoveBlankLinesLines | backend/ollama_handler.py:107 | after blank-line removal, splitting on "\n" gives exactly the non-blank lines in order; each holds a non-whitespace character and no line break; an all-blank text becomes "" |
| Cleanup.SanitiseKeepsOpeningBrace | backend/ollama_handler.py:102-107 | cleaning a span that starts with "{" gives a non-empty text that still starts with "{" |
| OllamaHandler.PromptEmbedsColumns | backend/ollama_handler.py:25-44 | the prompt holds the column list right after the template's opening |
| OllamaHandler.ColumnListAppend | backend/ollama_handler.py:25 | the column names appear in table order, separated by ", " |
| OllamaHandler.ColumnListRoundTrip | backend/ollama_handler.py:25 | splitting the column list on ", " gives the columns back when no name holds a comma |
| OllamaHandler.PromptEmbedsRequest | backend/ollama_handler.py:54 | the user's request appears verbatim between two double quotes |
| OllamaHandler.ColumnList | backend/ollama_handler.py:25 | `", ".join` of the column names; `ColumnListAppend` and `ColumnListRoundTrip` state it |
| OllamaHandler.BuildPrompt | backend/ollama_handler.py:34-65 | the f-string template filled in; `PromptEmbedsColumns` and `PromptEmbedsRequest` state where each value lands |
| OllamaHandler.MarkerNoOverlap | backend/ollama_handler.py:82-84 | two occurrences of "```json" never overlap |
| OllamaHandler.UniqueMarker | backend/ollama_handler.py:84 | a count of one means "```json" occurs at exactly one index |
| OllamaHandler.FencedCandidateNeedsOneMarker | backend/ollama_handler.py:84-92 | strategy 1 gives a candidate only when "```json" occurs at exactly one index |
| OllamaHandler.RepeatedMarkerDisablesFence | backend/ollama_handler.py:84 | two occurrences of the marker switch strategy 1 off |
| OllamaHandler.FencedCandidate | backend/ollama_handler.py:79-92 | strategy 1 gives a text that neither starts nor ends with whitespace, and a non-empty one only when "```json" is counted once |
| OllamaHandler.ClosedFenceCandidate | backend/ollama_handler.py:84-88 | when "```json" starts at `a` and nowhere else and `e` is the first "```" at or after its end, strategy 1 gives the stripped text between them, whatever else the completion holds |
| OllamaHandler.UnclosedFenceCandidate | backend/ollama_handler.py:84-92 | when "```json" starts at `a` and nowhere else and no "```" starts after its end, strategy 1 gives the stripped rest of the completion |
| OllamaHandler.FencedBlockTakenVerbatim | backend/ollama_handler.py:84-88 | a special case of `ClosedFenceCandidate`: for prose, marker, block, fence, prose with no other backtick, strategy 1 gives the stripped block verbatim; a blank block gives "" and hands over to strategy 2 |
| OllamaHandler.UnclosedFenceTakesRest | backend/ollama_handler.py:90-92 | a special case of `UnclosedFenceCandidate`: marker and rest with no backtick in the rest give the stripped rest |
| OllamaHandler.BraceSpanOutermost | backend/ollama_handler.py:98-102 | given the first "{" and the last "}" with the "}" later, strategy 2's span runs from one to the other inclusive, and stripping it changes nothing |
| OllamaHandler.BraceSpanNoneIff | backend/ollama_handler.py:101 | strategy 2 finds no span exactly when no "{" comes before a "}" |
| OllamaHandler.CandidateNoneIff | backend/ollama_handler.py:96-113 | there is nothing to parse exactly when strategy 1 gave "" and no "{" comes before a "}" |
| OllamaHandler.CandidateNeverEmpty | backend/ollama_handler.py:88-109 | the text handed to the parser is never empty |
| OllamaHandler.FencedBlockIsCandidate | backend/ollama_handler.py:88-96 | a special case of `ClosedFenceIsParsed` for a backtick-free layout |
| OllamaHandler.ClosedFenceIsParsed | backend/ollama_handler.py:84-96 | under the conditions of `ClosedFenceCandidate`, a non-blank block is what the handler parses, without fence or comment removal |
| OllamaHandler.BraceSpan | backend/ollama_handler.py:96-102 | strategy 2's span from the first "{" to the last "}"; `BraceSpanOutermost` and `BraceSpanNoneIff` state it |
| OllamaHandler.Candidate | backend/ollama_handler.py:79-113 | the text the handler parses: strategy 1's, else the sanitised brace span, else none; `CandidateNoneIff` and `CandidateNeverEmpty` state it |
| OllamaHandler.Straighten | backend/ollama_handler.py:117 | straightening keeps the length, maps each curly double quote to `"` and each curly single quote to `'`, changes nothing else, and leaves no curly quote |
| OllamaHandler.StraightenIdempotent | backend/ollama_handler.py:117 | straightening twice is the same as straightening once |
| OllamaHandler.AllInObject | backend/ollama_handler.py:122-123 | on a dict, the `all(k in ...)` check is key membership for every expected key |
| OllamaHandler.AllInErrors | backend/ollama_handler.py:123 | the key check raises only a TypeError, and only on a value that is not a dict, list or str |
| OllamaHandler.In | backend/ollama_handler.py:123 | `k in v` for each kind of decoded value: key of a dict, element of a list, substring of a str, TypeError otherwise |
| OllamaHandler.AllIn | backend/ollama_handler.py:123 | `all(...)` stops at the first False or exception; `AllInObject` and `AllInErrors` state it |
| OllamaHandler.CheckBundle | backend/ollama_handler.py:121-127 | the key check and its `.keys()` message; `DictAllOrNothing`, `CheckBundleOutcomes` and `CheckBundleTruthy` state it |
| OllamaHandler.InterpretCompletion | backend/ollama_handler.py:79-136 | the handler from the raw completion on; `InterpretCompletionOutcomes` and `NoCandidateNoParse` state it |
| OllamaHandler.GenerateInstructions | backend/ollama_handler.py:21-136 | the prompt, the chat call, whose failure propagates as an ordinary exception, and the interpretation of the completion |
| OllamaHandler.NoCandidateNoParse | backend/ollama_handler.py:111-113 | with no candidate the handler returns `{}` whatever the parser would say |
| OllamaHandler.DictAllOrNothing | backend/ollama_handler.py:122-127 | a decoded dict is returned whole when all three keys are in it, and as `{}` otherwise |
| OllamaHandler.CheckBundleOutcomes | backend/ollama_handler.py:122-127 | the key check returns `{}` only for a dict, or returns the value itself after it passed; it raises TypeError only for a non-container and AttributeError only for a list or str that lacks a key |
| OllamaHandler.InterpretCompletionOutcomes | backend/ollama_handler.py:79-136 | the handler returns either `{}` or exactly the parser's value for the straightened candidate, which then passed the key check; an exception is either one `json.loads` raised other than a JSONDecodeError, re-raised as it is, or comes from a decoded value that is not a dict |
| OllamaHandler.CheckBundleTruthy | backend/ollama_handler.py:123-127 | a result the key check accepted is never falsy, so the handler's result is falsy exactly when it is `{}` |
| Paths.Root | backend/main.py:43 | the root `splitext` returns is a prefix of the path |
| Paths.RootCutsAtExtension | backend/main.py:43 | the root ends exactly where the extension starts: at the last "." of the last component, with something other than dots before it in that component; the root is the whole path exactly when there is no such dot |
| Paths.SplitExt | backend/main.py:43 | the `splitext` loop over leading dots returns a root and an extension that concatenate to the path, and the root is `Root` |
| Paths.ExtensionShape | backend/main.py:43 | the extension is empty, or a "." followed by neither "." nor "/" |
| Paths.Basename | backend/main.py:129 | `os.path.basename` is the suffix of the path after its last "/": it holds no "/", and it is the whole path or is preceded by a "/" |
| Paths.PathJoin | backend/main.py:42-46 | `os.path.join` gives an absolute second argument unchanged; otherwise the first argument, then one "/" exactly when the first is non-empty and does not already end in "/", then the second, and nothing else |
| Paths.TempUploadPath | backend/main.py:42 | the temp upload is "<session>_<filename>" joined to the upload folder |
| Paths.CleanedPath | backend/main.py:43-45 | the cleaned CSV is "<root>_cleaned.csv" in the output folder; `CleanedAndSuggestionsPathsDiffer` and `SessionsSeparateUploadsNotOutputs` state its properties |
| Paths.SuggestionsPath | backend/main.py:43-46 | the suggestions file is "<root>_suggestions.txt" in the output folder |
| Paths.ReturnedNameIsSavedName | backend/main.py:45-129 | the name returned to the client is the last component of the saved cleaned-CSV path exactly when the base name holds no "/"; `Endpoint.EndpointStatus` shows that every 200 is in the first case |
| Paths.SessionsSeparateUploadsNotOutputs | backend/main.py:41-46 | different session ids never share a temp upload path, while uploads with the same base name share both output paths |
| Endpoint.SelectTableReplacesOnlyWhenBound | backend/main.py:71-100 | the script's table replaces the original exactly when the script is a non-empty str whose run binds `df_transformed` to a DataFrame; the selection fails, with that exception, exactly when the run raises a `BaseException` that is not an `Exception`; every other case keeps the original |
| Endpoint.RunScript | backend/main.py:74-88 | `exec` of the script value, with the TypeError `exec` raises for a value that is not a str |
| Endpoint.SelectTable | backend/main.py:71-100 | `processed_df`; `SelectTableReplacesOnlyWhenBound` states it |
| Endpoint.SuggestionsFile | backend/main.py:116-123 | what the `with open` block leaves in the file, and the TypeError that cuts it short; `SuggestionsFileLayout` and `SuggestionsFileCutShort` state it |
| Endpoint.SuggestionsFileLayout | backend/main.py:119-123 | with str values the file is the header, the suggestions verbatim and a blank line, then the notes section with the notes verbatim exactly when the notes are non-empty |
| Endpoint.SuggestionsFileCutShort | backend/main.py:119-123 | a non-str value cuts the file short with a TypeError: only the header when the suggestions are not a str, and no notes section when truthy notes are not a str |
| Endpoint.ErrorResponseStatus | backend/main.py:134-146 | a `BaseException` that is not an `Exception` escapes both clauses and gets no response of the handler's own; EmptyDataError answers 400, and only it does; every other exception answers 500 with "Internal server error: " followed by `str(e)` |
| Endpoint.LeftConcatError | backend/main.py:121 | the TypeError of `suggestions_text + "\n\n"` for a non-str value, list and other types each with its own message |
| Endpoint.RightConcatError | backend/main.py:123 | the TypeError of `"Additional Notes:\n\n" + notes_text` for a truthy non-str value |
| Endpoint.ErrorResponse | backend/main.py:134-146 | the two `except` clauses, and the exceptions that pass both; `ErrorResponseStatus` states them |
| Endpoint.RaisedHttpExceptionBecomes500 | backend/main.py:141-146 | an HTTPException raised in the `try` reaches the client as a 500 whose detail carries its own status, which can be read back |
| Endpoint.EmptyCsvBecomes500 | backend/main.py:60-61 | the empty-table HTTPException(400) reaches the client as a 500 |
| Endpoint.NoInstructionsBecomes500 | backend/main.py:65-66 | the falsy-instructions HTTPException(500) reaches the client as a 500 with the prefix in front |
| Endpoint.FalsyInstructionsAbort | backend/main.py:64-66 | falsy instructions stop the request before any transformation or output file, and the client receives the wrapped 500 |
| Endpoint.ParserErrorBecomes500 | backend/ollama_handler.py:128-136 | an exception from `json.loads` other than a JSONDecodeError reaches the client as a 500 with that exception's own message, not the falsy-instructions detail |
| Endpoint.ParserErrorWritesNothing | backend/ollama_handler.py:128-136 | such an exception leaves the output folder untouched |
| Endpoint.ParserErrorStopsPrepare | backend/ollama_handler.py:128-136 | such an exception ends the `try` body before the first write, unchanged |
| Endpoint.HeaderOnlyCsvIs500 | backend/main.py:55-61 | a table with no rows writes nothing and answers 500, not 400 |
| Endpoint.FirstComponent | backend/main.py:42-50 | the temp name up to its first "/", the entry the kernel looks up first: it holds no "/" and is followed by one when it is not the whole name |
| Endpoint.OpenUploadError | backend/main.py:48-51 | what `open(temp_csv_filepath, "wb")` raises on Linux: ValueError for a NUL byte, ENAMETOOLONG, then EISDIR or ENOENT for a "/" in the temp name; `OpenUploadErrorCases` states when it raises |
| Endpoint.OpenUploadErrorCases | backend/main.py:41-51 | under a uuid session id the upload is saved exactly when the file name holds no "/" and no NUL and the path and name are short enough; any failure is an ordinary exception, so never a 400 |
| Endpoint.SlashInUploadNameIs500 | backend/main.py:41-51 | an upload name holding "/" always answers 500 and writes nothing |
| Endpoint.Prepare | backend/main.py:55-117 | the `try` body up to the first write: read, refuse an empty table, get the instructions, refuse falsy ones, pick the table (passing on a `BaseException` the script raised that is not an `Exception`) and the texts with `.get` |
| Endpoint.EndpointResponse | backend/main.py:48-146 | the answer to one request; `EndpointStatus` states it |
| Endpoint.SavedUploadResponse | backend/main.py:55-146 | the answer once the upload was saved; `SavedUploadStatus` states it |
| Endpoint.EndpointOutputs | backend/main.py:48-123 | the output folder after one request; `EndpointStatus`, `FalsyInstructionsAbort`, `HeaderOnlyCsvIs500` and `SlashInUploadNameIs500` state it |
| Endpoint.SavedUploadOutputs | backend/main.py:55-123 | the output folder once the upload was saved |
| Endpoint.EndpointStatus | backend/main.py:48-146 | an exception escapes the handler exactly when a saved upload's steps raised a `BaseException` that is not an `Exception`; otherwise the status is 200, 400 or 500. It is 400 exactly on EmptyDataError after the upload was saved. It is 200 exactly when every step succeeded, and then the output folder holds the processed CSV and the suggestions text at their paths, the CSV data is the encoded processed table, and the name returned is the cleaned CSV's and the last component of its saved path. An escape or a 400 leaves the output folder unchanged; a 500 changes it only when the suggestions file was cut short, and then it holds the CSV and the partial text. No other output path is ever added, removed or changed |
| Endpoint.SavedUploadStatus | backend/main.py:55-146 | `EndpointStatus` once the upload was saved |
| Endpoint.SavedNameHasNoSlash | backend/main.py:41-50 | a saved upload's name, and so its root, holds no "/" |
| Endpoint.CleanedAndSuggestionsPathsDiffer | backend/main.py:45-46 | the cleaned CSV and the suggestions file never overwrite each other |
| Endpoint.Server.constructor | backend/main.py:31-34 | the two folders hold whatever earlier runs left in them, as `os.makedirs(..., exist_ok=True)` keeps it |
| Endpoint.Server.GenerateCsv | backend/main.py:41-150 | the temp upload is removed on every path and the rest of the upload folder is unchanged; the output folder and the response are those the request's outcome determines, an upload that `open` refuses included |
| Endpoint.Server.ProcessSavedUpload | backend/main.py:55-132 | after the upload was saved, the output folder and the answer are `SavedUploadOutputs` and `SavedUploadResponse`, and the upload folder is untouched |

## Left out

- The chat call to the model service is left out because it is a network call. It is the
  parameter `chat`, and its `response['message']['content']` is the completion text.
- pandas is left out because it is a library; a table is seen only through its columns, row
  count and renderings. The handler reads the saved file a second time; the model assumes that
  this gives the same table the endpoint read.
- The internals of `json.loads` are left out; it is the parameter `parse`.
- `exec` of the generated script and the builtins it may not use are left out because they run
  arbitrary code. Only the outcome is modelled: it raised (an `Exception`, or a `BaseException`
  that is not one), or it finished with some local bindings. Effects of the script on anything
  else are not modelled.
- What the web server does with an exception that escapes the handler (`Response.Escaped`) is
  left out because it happens outside the backend's code.
- Base64 encoding is left out; it is the parameter `base64`. `uuid.uuid4()` is left out; it is
  the parameter `session`.
- FastAPI routing, CORS, logging and the handler's `print` calls are left out because they
  produce no decision.
- The download route is left out because it is plain file serving.
- The frontend is left out because it is UI state with no logic.
- Filesystem failures other than those `open` raises for the temp upload's name are left out:
  a full disk or a permission error on either folder is not modelled, and every write to the
  output folder succeeds. The name limit of 255 bytes is that of the usual Linux file systems.
- `os.path.exists` is membership in the folder map. The map never holds a path that `open`
  refuses, since nothing can create such a file.
- PyStr.Repr: writes non-ASCII characters as themselves, while Python escapes the non-ASCII
  ones it does not consider printable.
- An upload without a file name (`filename` of None) is left out; it fails before the `try`,
  inside FastAPI.
- Paths are POSIX paths. Windows `ntpath` rules are not modelled.
- Requests running at the same time are not modelled; `GenerateCsv` is one request on its own.
- Decoded JSON floats are mathematical reals; NaN and infinities are not modelled.
- Decoded JSON strings are sequences of Unicode scalar values. A lone surrogate that
  `json.loads` keeps from an unpaired escape such as `"\ud800"` is not modelled, and neither is
  the UnicodeEncodeError that writing it to the UTF-8 suggestions file raises: for such a
  suggestions or truthy notes value the source answers 500 with the cleaned CSV saved and the
  suggestions file cut short, where `SuggestionsFile` gives `Complete`.
- The `session` argument stands for `str(uuid.uuid4())`; `OpenUploadError` assumes it holds no
  "/" and no NUL, which `OpenUploadErrorCases` makes explicit with `IsUuidText`.
