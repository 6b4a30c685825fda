/** `generate_instructions_with_ollama`: the prompt sent to the model, and the recovery of an
    instruction bundle from the model's raw completion. The model service and `json.loads`
    are parameters: `chat` maps a prompt to the completion (or the error it raised), `parse`
    maps a text to what `json.loads` does with it. */
module OllamaHandler {
  import opened Wrappers
  import opened PyStr
  import opened PyValues
  import opened Cleanup

  const StartMarker := "```json"
  const EndMarker := "```"

  /** The keys a bundle must carry, in the order `all(...)` tests them. */
  const ExpectedKeys: seq<string> := ["data_transform_script", "tableau_suggestions", "notes"]

  /** What the chat call gives back: the completion text, or `str()` of the exception it raised
      (a connection or response error of the client library, never a pandas error). */
  datatype ChatReply = Completion(content: string) | ChatFailed(message: string)

  // ---------------------------------------------------------------------------------------
  // The prompt

  /** The template up to the column list. */
  const PromptOpening: string :=
    "\n"
    + "**STRICT INSTRUCTIONS FOR AI:**\n"
    + "YOU ARE AN EXPERT AT GENERATING JSON FOR DATA PREPARATION AND VISUALIZATION SUGGESTIONS.\n"
    + "**YOUR ONLY OUTPUT MUST BE A SINGLE, PERFECTLY VALID JSON OBJECT.**\n"
    + "**DO NOT** include any conversational text, explanations, or comments (// or /* */) ANYWHERE in the output.\n"
    + "**DO NOT** include any Python code to generate the JSON. Just provide the JSON directly.\n"
    + "**DO NOT** add any extra characters, spaces, or newlines before or after the JSON block.\n"
    + "**ALL STRING VALUES IN THE JSON MUST USE STRAIGHT DOUBLE QUOTES (\"). NO CURLY/SMART QUOTES.**\n"
    + "\n"
    + "**CSV Data Context:**\n"
    + "- **Data Columns:** "

  /** Between the column list and the first rows. */
  const PromptBeforeHead: string :=
    "\n"
    + "- **First 3 Rows (for data context):**\n"
    + "```csv\n"

  /** Between the first rows and the `df.info()` text. */
  const PromptBeforeInfo: string :=
    "\n"
    + "```\n"
    + "- **Column Data Types and Non-Null Counts (from pandas df.info()):**\n"
    + "```\n"

  /** Between the `df.info()` text and the quoted request. */
  const PromptBeforeRequest: string :=
    "\n"
    + "```\n"
    + "\n"
    + "**User's Specific Request:** "

  /** After the quoted request: the required JSON shape and the closing instruction. */
  const PromptSchema: string :=
    "\n"
    + "\n"
    + "**JSON SCHEMA TO ADHERE TO (NO DEVIATIONS):**\n"
    + "```json\n"
    + "{\n"
    + "    \"data_transform_script\": \"Python script (using pandas) to clean, transform, or aggregate data. **The script MUST BEGIN EXACTLY AND ONLY WITH: `import pandas as pd\\ndf_transformed = df.copy()`**. After this line, implement *only* the specific transformation logic requested by the user. **Crucially, if a transformation involves operations like sorting or filtering that require certain columns, perform these operations on `df_transformed` FIRST, ensuring all necessary columns are available for those steps. The final selection of columns (if requested) MUST be the VERY LAST step, applied to the already transformed `df_transformed`.** For example, if the request is 'top 100 by Unit price, show only City and Gender', the script must be: `df_transformed = df_transformed.sort_values('Unit price', ascending=False).head(100)` THEN `df_transformed = df_transformed[['City', 'Gender']]`. **DO NOT simply leave `df_transformed = df.copy()` if changes are needed. The final `df_transformed` MUST reflect the user's prompt.** If the user's prompt implies no data transformation (e.g., \"just analyze the data\"), then the script should remain simply `import pandas as pd\\ndf_transformed = df.copy()`.\",\n"
    + "    \"tableau_suggestions\": \"Provide clear, concise suggestions for how the user can visualize this data in Tableau Desktop, based on their prompt and the *transformed* data. For example: 'To show total sales by product category, drag [Product Category] to Columns and SUM([Total]) to Rows, then select a Bar Chart. Use [Date] for filtering trends.' Be specific with field names exactly as they appear in the CSV (or the transformed DataFrame). If no specific visualization is requested, provide general tips like: 'Explore trends using Date, and breakdowns by Category and Gender.' If empty, use an empty string.\",\n"
    + "    \"notes\": \"Optional: Any brief, non-critical notes or advice regarding the data or visualization process. If empty, use an empty string.\"\n"
    + "}\n"
    + "```\n"
    + "**YOUR FINAL OUTPUT IS THE JSON OBJECT ABOVE, WRAPPED IN ```json AND ```. THIS IS THE ONLY CONTENT YOU SHOULD GENERATE.**\n"
    + "        "

  /** `", ".join(df.columns.tolist())` */
  function ColumnList(columns: seq<string>): string {
    Join(columns, ", ")
  }

  /** The template up to the opening quote of the request, filled with the column list, the
      first rows and the `df.info()` text. */
  function PromptPrefix(columns: seq<string>, head: string, info: string): string {
    PromptOpening + ColumnList(columns) + (PromptBeforeHead + head + PromptBeforeInfo + info + PromptBeforeRequest)
  }

  /** The f-string template filled with the column list, the first rows, the `df.info()` text
      and the user's request, which the template puts between double quotes. */
  function BuildPrompt(columns: seq<string>, head: string, info: string, request: string): string {
    PromptPrefix(columns, head, info) + ("\"" + request + "\"" + PromptSchema)
  }

  /** `x` sits at offset `|pre|` of `pre + x + post`. */
  lemma Embedded(pre: string, x: string, post: string)
    ensures |pre| + |x| <= |pre + x + post| && (pre + x + post)[|pre|..|pre| + |x|] == x
  {
  }

  /** `x`, quoted, starts at offset `|pre| + 1` of `pre + ("\"" + x + "\"" + post)`. */
  lemma QuotedAt(pre: string, x: string, post: string)
    ensures var p := pre + ("\"" + x + "\"" + post);
      && |pre| + |x| + 1 < |p|
      && p[|pre|] == '"' && p[|pre| + 1..|pre| + 1 + |x|] == x && p[|pre| + 1 + |x|] == '"'
  {
    var p := pre + ("\"" + x + "\"" + post);
    assert p[|pre|..] == "\"" + x + "\"" + post;
    assert p[|pre| + 1..|pre| + 1 + |x|] == (p[|pre|..])[1..1 + |x|];
  }

  /** The column list sits right after the template's opening. */
  lemma PromptEmbedsColumns(columns: seq<string>, head: string, info: string, request: string)
    ensures var p := BuildPrompt(columns, head, info, request);
      var c := ColumnList(columns);
      |PromptOpening| + |c| <= |p| && p[|PromptOpening|..|PromptOpening| + |c|] == c
  {
    var c := ColumnList(columns);
    var pre := PromptPrefix(columns, head, info);
    var o := PromptOpening;
    var mid := PromptBeforeHead + head + PromptBeforeInfo + info + PromptBeforeRequest;
    var post := "\"" + request + "\"" + PromptSchema;
    Embedded(o, c, mid);
    PrefixSlice(pre, post, |o|, |o| + |c|);
  }

  lemma PrefixSlice(a: string, b: string, i: nat, j: nat)
    requires i <= j <= |a|
    ensures (a + b)[i..j] == a[i..j]
  {
  }

  /** The user's request appears verbatim between two double quotes right after the prefix. */
  lemma PromptEmbedsRequest(columns: seq<string>, head: string, info: string, request: string)
    ensures var p := BuildPrompt(columns, head, info, request);
      var r := |PromptPrefix(columns, head, info)| + 1;
      && r + |request| < |p|
      && p[r - 1] == '"' && p[r..r + |request|] == request && p[r + |request|] == '"'
  {
    QuotedAt(PromptPrefix(columns, head, info), request, PromptSchema);
  }

  /** The column names appear in table order: one more column is one more ", " and that name
      at the end. */
  lemma ColumnListAppend(columns: seq<string>, name: string)
    requires |columns| > 0
    ensures ColumnList(columns + [name]) == ColumnList(columns) + ", " + name
  {
    JoinAppend(columns, name, ", ");
  }

  /** When no name holds a comma, splitting the list on ", " gives the names back. */
  lemma ColumnListRoundTrip(columns: seq<string>)
    requires |columns| > 0
    requires forall i, k :: 0 <= i < |columns| && 0 <= k < |columns[i]| ==> columns[i][k] != ','
    ensures Split(ColumnList(columns), ", ") == columns
  {
    SplitJoin(columns, ", ");
  }

  // ---------------------------------------------------------------------------------------
  // Strategy 1: the one fenced json block

  /** Strategy 1: the stripped text between the only "```json" and the next "```" after it, or
      everything after the marker when no "```" follows; "" when the marker is absent or
      occurs more than once. */
  function FencedCandidate(raw: string): (r: string)
    ensures r != "" ==> Count(raw, StartMarker) == 1 && !IsSpace(r[0]) && !IsSpace(r[|r| - 1])
  {
    if Contains(raw, StartMarker) && Count(raw, StartMarker) == 1 then
      var jsonStart := Find(raw, StartMarker) + |StartMarker|;
      var jsonEnd := FindFrom(raw, EndMarker, jsonStart);
      if jsonEnd != -1 then Strip(raw[jsonStart..jsonEnd]) else Strip(raw[jsonStart..])
    else ""
  }

  predicate NoBacktick(s: string) {
    forall k :: 0 <= k < |s| ==> s[k] != '`'
  }

  /** A pattern cannot start where the text has a character other than its first. */
  lemma NotStartingAt(s: string, pat: string, j: int)
    requires 0 <= j < |s| && |pat| > 0 && s[j] != pat[0]
    ensures !StartsAt(s, pat, j)
  {
    if j + |pat| <= |s| {
      assert s[j..j + |pat|][0] == s[j];
    }
  }

  /** Two occurrences of "```json" never overlap. */
  lemma MarkerNoOverlap(s: string, f: int)
    requires StartsAt(s, StartMarker, f)
    ensures forall j :: f < j < f + 7 ==> !StartsAt(s, StartMarker, j)
  {
    assert s[f..f + 7] == StartMarker;
    forall j | f < j < f + 7 ensures !StartsAt(s, StartMarker, j) {
      if j + 7 <= |s| {
        if j <= f + 2 {
          assert s[f + 3] == s[f..f + 7][3] == 'j';
          assert s[j..j + 7][f + 3 - j] == s[f + 3];
        } else {
          assert s[j] == s[f..f + 7][j - f];
          assert s[j..j + 7][0] == s[j];
        }
      }
    }
  }

  /** A pattern found at `a` and nowhere else is found once. */
  lemma OnlyOccurrence(s: string, pat: string, a: int)
    requires |pat| > 0 && StartsAt(s, pat, a)
    requires forall j :: 0 <= j <= |s| && j != a ==> !StartsAt(s, pat, j)
    ensures Find(s, pat) == a && Count(s, pat) == 1
  {
    assert FindFrom(s, pat, a + |pat|) == -1;
  }

  /** With a count of one, "```json" occurs at exactly one index. */
  lemma UniqueMarker(raw: string)
    requires Count(raw, StartMarker) == 1
    ensures Find(raw, StartMarker) != -1
    ensures forall j :: 0 <= j <= |raw| && StartsAt(raw, StartMarker, j) ==> j == Find(raw, StartMarker)
  {
    CountOneNoLaterOccurrence(raw, StartMarker);
    MarkerNoOverlap(raw, Find(raw, StartMarker));
  }

  /** Strategy 1 fires only when "```json" occurs at exactly one index. */
  lemma FencedCandidateNeedsOneMarker(raw: string)
    requires FencedCandidate(raw) != ""
    ensures Find(raw, StartMarker) != -1
    ensures forall j :: 0 <= j <= |raw| && StartsAt(raw, StartMarker, j) ==> j == Find(raw, StartMarker)
  {
    UniqueMarker(raw);
  }

  /** A repeated marker disables strategy 1. */
  lemma RepeatedMarkerDisablesFence(raw: string, i: int, j: int)
    requires i != j && StartsAt(raw, StartMarker, i) && StartsAt(raw, StartMarker, j)
    ensures Count(raw, StartMarker) != 1 && FencedCandidate(raw) == ""
  {
    if Count(raw, StartMarker) == 1 {
      UniqueMarker(raw);
    }
  }

  /** Strategy 1 with a closing fence: when "```json" starts at `a` and nowhere else, and `e` is
      the first "```" at or after the marker's end, the candidate is the stripped text between
      them, whatever else the completion holds. */
  lemma ClosedFenceCandidate(raw: string, a: int, e: int)
    requires StartsAt(raw, StartMarker, a)
    requires forall j :: 0 <= j <= |raw| && j != a ==> !StartsAt(raw, StartMarker, j)
    requires a + 7 <= e && StartsAt(raw, EndMarker, e)
    requires forall k :: a + 7 <= k < e ==> !StartsAt(raw, EndMarker, k)
    ensures FencedCandidate(raw) == Strip(raw[a + 7..e])
  {
    OnlyOccurrence(raw, StartMarker, a);
    FencedCandidateBetween(raw, a, e, raw[a + 7..e]);
  }

  /** Strategy 1 without a closing fence: when "```json" starts at `a` and nowhere else, and no
      "```" starts at or after the marker's end, the candidate is the stripped rest. */
  lemma UnclosedFenceCandidate(raw: string, a: int)
    requires StartsAt(raw, StartMarker, a)
    requires forall j :: 0 <= j <= |raw| && j != a ==> !StartsAt(raw, StartMarker, j)
    requires forall k :: a + 7 <= k <= |raw| ==> !StartsAt(raw, EndMarker, k)
    ensures FencedCandidate(raw) == Strip(raw[a + 7..])
  {
    OnlyOccurrence(raw, StartMarker, a);
  }

  /** A special case of `ClosedFenceCandidate`, for a completion laid out as prose, marker,
      block, fence, prose with no other backtick: the block is taken as it stands, neither
      comment- nor fence-stripped. A block of whitespace only gives "", which hands over to
      strategy 2. */
  lemma FencedBlockTakenVerbatim(before: string, block: string, after: string)
    requires NoBacktick(before) && NoBacktick(block) && NoBacktick(after)
    requires !(|after| >= 4 && after[..4] == "json")
    ensures FencedCandidate(before + StartMarker + block + EndMarker + after) == Strip(block)
  {
    var raw := before + StartMarker + block + EndMarker + after;
    var a := |before|;
    MarkerOnlyAtFence(before, block, after, raw);
    OnlyOccurrence(raw, StartMarker, a);
    CloseFenceAfterBlock(before, block, after, raw);
    FencedCandidateBetween(raw, a, a + 7 + |block|, block);
  }

  /** With the one marker at `a` and the next fence at `e`, strategy 1 takes what lies between. */
  lemma FencedCandidateBetween(raw: string, a: int, e: int, block: string)
    requires 0 <= a && a + 7 <= e <= |raw|
    requires Find(raw, StartMarker) == a && Count(raw, StartMarker) == 1
    requires FindFrom(raw, EndMarker, a + 7) == e
    requires raw[a + 7..e] == block
    ensures FencedCandidate(raw) == Strip(block)
  {
  }

  /** No backtick in `s[lo..hi]`, so no pattern opening with one starts there. */
  lemma NoBacktickNoPattern(s: string, lo: int, hi: int, pat: string)
    requires 0 <= lo <= hi <= |s| && |pat| > 0 && pat[0] == '`'
    requires forall k :: lo <= k < hi ==> s[k] != '`'
    ensures forall j :: lo <= j < hi ==> !StartsAt(s, pat, j)
  {
    forall j | lo <= j < hi ensures !StartsAt(s, pat, j) {
      NotStartingAt(s, pat, j);
    }
  }

  /** In a completion laid out as prose, marker, block, fence, prose, the marker occurs only
      where it was put. */
  lemma MarkerOnlyAtFence(before: string, block: string, after: string, raw: string)
    requires NoBacktick(before) && NoBacktick(block) && NoBacktick(after)
    requires !(|after| >= 4 && after[..4] == "json")
    requires raw == before + StartMarker + block + EndMarker + after
    ensures StartsAt(raw, StartMarker, |before|)
    ensures forall j :: 0 <= j <= |raw| && j != |before| ==> !StartsAt(raw, StartMarker, j)
  {
    var a := |before|;
    var e := a + 7 + |block|;
    assert raw[a..a + 7] == StartMarker;
    assert forall k :: 0 <= k < a ==> raw[k] == before[k];
    NoBacktickNoPattern(raw, 0, a, StartMarker);
    MarkerNoOverlap(raw, a);
    assert forall k :: a + 7 <= k < e ==> raw[k] == block[k - a - 7];
    NoBacktickNoPattern(raw, a + 7, e, StartMarker);
    assert forall k :: e + 3 <= k < |raw| ==> raw[k] == after[k - e - 3];
    NoBacktickNoPattern(raw, e + 3, |raw|, StartMarker);
    forall j | e <= j <= e + 2 ensures !StartsAt(raw, StartMarker, j) {
      if j + 7 <= |raw| {
        if j == e {
          assert raw[j..j + 7][3..] == after[..4];
        } else {
          assert raw[e + 3] == after[0];
          assert raw[j..j + 7][e + 3 - j] == raw[e + 3];
        }
      }
    }
  }

  /** The closing fence is the first "```" after the marker. */
  lemma CloseFenceAfterBlock(before: string, block: string, after: string, raw: string)
    requires NoBacktick(block)
    requires raw == before + StartMarker + block + EndMarker + after
    ensures FindFrom(raw, EndMarker, |before| + 7) == |before| + 7 + |block|
    ensures raw[|before| + 7..|before| + 7 + |block|] == block
  {
    var a := |before|;
    var e := a + 7 + |block|;
    assert raw[e..e + 3] == EndMarker;
    assert forall k :: a + 7 <= k < e ==> raw[k] == block[k - a - 7];
    NoBacktickNoPattern(raw, a + 7, e, EndMarker);
    assert StartsAt(raw, EndMarker, e);
  }

  /** A special case of `UnclosedFenceCandidate`: marker and rest with no other backtick. */
  lemma UnclosedFenceTakesRest(before: string, rest: string)
    requires NoBacktick(before) && NoBacktick(rest)
    ensures FencedCandidate(before + StartMarker + rest) == Strip(rest)
  {
    var raw := before + StartMarker + rest;
    var a := |before|;
    assert raw[a..a + 7] == StartMarker;
    assert raw[a + 7..] == rest;
    MarkerNoOverlap(raw, a);
    forall j | 0 <= j <= |raw| && j != a ensures !StartsAt(raw, StartMarker, j) {
      if j < a {
        assert raw[j] == before[j];
        NotStartingAt(raw, StartMarker, j);
      } else if a + 7 <= j < |raw| {
        assert raw[j] == rest[j - a - 7];
        NotStartingAt(raw, StartMarker, j);
      }
    }
    forall k | a + 7 <= k <= |raw| ensures !StartsAt(raw, EndMarker, k) {
      if k < |raw| {
        assert raw[k] == rest[k - a - 7];
        NotStartingAt(raw, EndMarker, k);
      }
    }
    UnclosedFenceCandidate(raw, a);
  }

  // ---------------------------------------------------------------------------------------
  // Strategy 2: from the first "{" to the last "}"

  /** Some "{" comes before some "}". */
  predicate HasBracePair(raw: string) {
    exists i, j :: 0 <= i < j < |raw| && raw[i] == '{' && raw[j] == '}'
  }

  /** Strategy 2's span: from the first "{" to the last "}", both included, then stripped;
      None unless both exist with the "}" after the "{". */
  function BraceSpan(raw: string): Option<string> {
    var first := Find(raw, "{");
    var last := RFind(raw, '}');
    if first != -1 && last != -1 && last > first then Some(Strip(raw[first..last + 1])) else None
  }

  /** Stripping a text that starts and ends with a non-space character changes nothing. */
  lemma StripUnchanged(s: string)
    requires |s| > 0 && !IsSpace(s[0]) && !IsSpace(s[|s| - 1])
    ensures Strip(s) == s
  {
    var r := Strip(s);
    assert LeadingSpace(s) == 0;
    assert |r| == |s|;
  }

  /** Strategy 2 finds a span exactly when some "{" precedes some "}"; the span is the one from
      the first "{" to the last "}" and the strip in between removes nothing. */
  lemma BraceSpanOutermost(raw: string, i: int, j: int)
    requires 0 <= i < j < |raw| && raw[i] == '{' && raw[j] == '}'
    requires forall k :: 0 <= k < i ==> raw[k] != '{'
    requires forall k :: j < k < |raw| ==> raw[k] != '}'
    ensures BraceSpan(raw) == Some(raw[i..j + 1])
  {
    FirstCharFound(raw, '{', i);
    assert RFind(raw, '}') == j;
    StripUnchanged(raw[i..j + 1]);
  }

  lemma BraceSpanNoneIff(raw: string)
    ensures BraceSpan(raw).None? <==> !HasBracePair(raw)
  {
    var first := Find(raw, "{");
    var last := RFind(raw, '}');
    if first != -1 && last != -1 && last > first {
      FoundCharIs(raw, '{');
      assert raw[first] == '{' && raw[last] == '}';
    }
    if HasBracePair(raw) {
      var i, j :| 0 <= i < j < |raw| && raw[i] == '{' && raw[j] == '}';
      CharFoundBy(raw, '{', i);
      assert last >= j;
    }
  }

  /** A character at `i` is found at `i` or earlier. */
  lemma CharFoundBy(s: string, c: char, i: int)
    requires 0 <= i < |s| && s[i] == c
    ensures Find(s, [c]) != -1 && Find(s, [c]) <= i
  {
    assert s[i..i + 1] == [c];
    assert StartsAt(s, [c], i);
  }

  /** The first occurrence of a character is where `find` finds it. */
  lemma FirstCharFound(s: string, c: char, i: int)
    requires 0 <= i < |s| && s[i] == c
    requires forall k :: 0 <= k < i ==> s[k] != c
    ensures Find(s, [c]) == i
  {
    CharFoundBy(s, c, i);
    FoundCharIs(s, c);
  }

  // ---------------------------------------------------------------------------------------
  // The candidate handed to the parser

  /** The text the handler will parse: strategy 1's block when that is non-empty, otherwise the
      sanitised brace span; None when the handler returns `{}` without parsing anything. */
  function Candidate(raw: string): Option<string> {
    var fenced := FencedCandidate(raw);
    if fenced != "" then Some(fenced)
    else match BraceSpan(raw)
      case None => None
      case Some(span) => Some(Sanitise(span))
  }

  /** There is nothing to parse exactly when strategy 1 found nothing and no "{" precedes a "}". */
  lemma CandidateNoneIff(raw: string)
    ensures Candidate(raw).None? <==> FencedCandidate(raw) == "" && !HasBracePair(raw)
  {
    BraceSpanNoneIff(raw);
  }

  /** The parser is never handed an empty text. */
  lemma CandidateNeverEmpty(raw: string)
    ensures Candidate(raw).Some? ==> Candidate(raw).value != ""
  {
    if FencedCandidate(raw) == "" && BraceSpan(raw).Some? {
      BraceCandidateNonEmpty(raw);
    }
  }

  /** The sanitised brace span still opens with its "{". */
  lemma BraceCandidateNonEmpty(raw: string)
    requires BraceSpan(raw).Some?
    ensures |Sanitise(BraceSpan(raw).value)| > 0
  {
    var first := Find(raw, "{");
    FoundCharIs(raw, '{');
    var span := raw[first..RFind(raw, '}') + 1];
    assert span[0] == '{';
    StripUnchanged(span);
    SanitiseKeepsOpeningBrace(span);
  }

  /** Where `find` of one character succeeds, that character is there. */
  lemma FoundCharIs(s: string, c: char)
    requires Find(s, [c]) != -1
    ensures s[Find(s, [c])] == c
  {
    var f := Find(s, [c]);
    assert StartsAt(s, [c], f);
    assert s[f..f + 1][0] == s[f];
  }

  /** A non-blank fenced block (the marker at `a` and nowhere else, the first fence after it at
      `e`) is parsed as it stands, comments and all; only the brace-scanned fallback is
      sanitised. */
  lemma ClosedFenceIsParsed(raw: string, a: int, e: int)
    requires StartsAt(raw, StartMarker, a)
    requires forall j :: 0 <= j <= |raw| && j != a ==> !StartsAt(raw, StartMarker, j)
    requires a + 7 <= e && StartsAt(raw, EndMarker, e)
    requires forall k :: a + 7 <= k < e ==> !StartsAt(raw, EndMarker, k)
    requires !IsBlank(raw[a + 7..e])
    ensures Candidate(raw) == Some(Strip(raw[a + 7..e]))
  {
    ClosedFenceCandidate(raw, a, e);
  }

  /** `ClosedFenceIsParsed` for prose, marker, block, fence, prose with no other backtick. */
  lemma FencedBlockIsCandidate(before: string, block: string, after: string)
    requires NoBacktick(before) && NoBacktick(block) && NoBacktick(after)
    requires !(|after| >= 4 && after[..4] == "json")
    requires !IsBlank(block)
    ensures Candidate(before + StartMarker + block + EndMarker + after) == Some(Strip(block))
  {
    FencedBlockTakenVerbatim(before, block, after);
  }

  // ---------------------------------------------------------------------------------------
  // Straight quotes

  predicate IsCurlyQuote(c: char) {
    c == '\U{201C}' || c == '\U{201D}' || c == '\U{2018}' || c == '\U{2019}'
  }

  /** The straight quote that stands for a curly one. */
  function StraightChar(c: char): char {
    if c == '\U{201C}' || c == '\U{201D}' then '"'
    else if c == '\U{2018}' || c == '\U{2019}' then '\''
    else c
  }

  /** `.replace('\U{201C}', '"').replace('\U{201D}', '"').replace('\U{2018}', "'").replace('\U{2019}', "'")` */
  function Straighten(s: string): (r: string)
    ensures |r| == |s|
    ensures forall k :: 0 <= k < |s| ==> r[k] == StraightChar(s[k])
    ensures forall k :: 0 <= k < |r| ==> !IsCurlyQuote(r[k])
  {
    ReplaceChar(ReplaceChar(ReplaceChar(ReplaceChar(s, '\U{201C}', '"'), '\U{201D}', '"'), '\U{2018}', '\''), '\U{2019}', '\'')
  }

  lemma StraightenIdempotent(s: string)
    ensures Straighten(Straighten(s)) == Straighten(s)
  {
    var t := Straighten(s);
    assert forall k :: 0 <= k < |t| ==> Straighten(t)[k] == t[k];
  }

  // ---------------------------------------------------------------------------------------
  // The key check and the handler's result

  /** `k in v`: a key of a dict, an element of a list, a substring of a str; other values raise
      TypeError. */
  function In(k: string, v: Json): Result<bool, PyError> {
    match v
    case JObject(m) => Ok(k in m)
    case JArray(xs) => Ok(JString(k) in xs)
    case JString(t) => Ok(Contains(t, k))
    case _ => Err(TypeError("argument of type '" + TypeName(v) + "' is not iterable"))
  }

  /** `all(k in v for k in keys)`: stops at the first False or the first exception. */
  function AllIn(keys: seq<string>, v: Json): Result<bool, PyError> {
    if |keys| == 0 then Ok(true)
    else match In(keys[0], v)
      case Err(e) => Err(e)
      case Ok(found) => if found then AllIn(keys[1..], v) else Ok(false)
  }

  /** On a dict the check is plain key membership, for every key. */
  lemma {:induction false} AllInObject(keys: seq<string>, m: map<string, Json>)
    ensures AllIn(keys, JObject(m)) == Ok(forall i :: 0 <= i < |keys| ==> keys[i] in m)
  {
    if |keys| > 0 {
      AllInObject(keys[1..], m);
      if keys[0] in m {
        assert forall i :: 1 <= i < |keys| ==> keys[i] == keys[1..][i - 1];
      }
    }
  }

  /** Only a number, a bool or None makes the key check raise, and then with a TypeError. */
  lemma {:induction false} AllInErrors(keys: seq<string>, v: Json)
    ensures AllIn(keys, v).Err? ==>
      AllIn(keys, v).error.TypeError? && !(v.JObject? || v.JArray? || v.JString?)
  {
    if |keys| > 0 && In(keys[0], v).Ok? {
      AllInErrors(keys[1..], v);
    }
  }

  /** The key check on a decoded value: the value itself when all three keys are in it; when
      one is missing, `{}` for a dict, while a list or str fails on the `.keys()` of the warning
      message; the TypeError of `in` when the value is not a container. */
  function CheckBundle(v: Json): Result<Json, PyError> {
    match AllIn(ExpectedKeys, v)
    case Err(e) => Err(e)
    case Ok(present) =>
      if present then Ok(v)
      else if v.JObject? then Ok(EmptyObject)
      else Err(AttributeError("'" + TypeName(v) + "' object has no attribute 'keys'"))
  }

  /** How `json.loads` ended: a decoded value, a JSONDecodeError, or another exception (a
      RecursionError on deep nesting, the ValueError for an over-long integer literal). */
  datatype Decoding = Decoded(value: Json) | Malformed | DecodeRaised(error: PyError)

  /** What the handler returns for the completion `raw`: `{}` when there is nothing to parse or
      the text is malformed JSON, the exception when `json.loads` raised anything else (the
      outer `except Exception` re-raises it), otherwise the key check's verdict on the decoded
      value. */
  function InterpretCompletion(raw: string, parse: string -> Decoding): Result<Json, PyError> {
    match Candidate(raw)
    case None => Ok(EmptyObject)
    case Some(text) =>
      match parse(Straighten(text))
      case Malformed => Ok(EmptyObject)
      case DecodeRaised(e) => Err(e)
      case Decoded(v) => CheckBundle(v)
  }

  /** Without a candidate the handler returns `{}` before the parser is consulted. */
  lemma NoCandidateNoParse(raw: string, parse1: string -> Decoding, parse2: string -> Decoding)
    requires Candidate(raw).None?
    ensures InterpretCompletion(raw, parse1) == InterpretCompletion(raw, parse2) == Ok(EmptyObject)
  {
  }

  /** All or nothing: a decoded dict is returned whole when it carries all three keys and is
      replaced by `{}` when any one is missing; no partial bundle is ever returned. */
  lemma DictAllOrNothing(m: map<string, Json>)
    ensures CheckBundle(JObject(m))
      == if "data_transform_script" in m && "tableau_suggestions" in m && "notes" in m
         then Ok(JObject(m)) else Ok(EmptyObject)
  {
    AllInObject(ExpectedKeys, m);
    var all := forall i :: 0 <= i < |ExpectedKeys| ==> ExpectedKeys[i] in m;
    assert all <==> "data_transform_script" in m && "tableau_suggestions" in m && "notes" in m by {
      if "data_transform_script" in m && "tableau_suggestions" in m && "notes" in m {
        forall i | 0 <= i < |ExpectedKeys| ensures ExpectedKeys[i] in m {
        }
      }
      if all {
        assert ExpectedKeys[0] in m && ExpectedKeys[1] in m && ExpectedKeys[2] in m;
      }
    }
  }

  /** The key check returns `{}` or the value it was given; it raises a TypeError only on a
      value that is not a container, and an AttributeError only on a list or str lacking a key. */
  lemma CheckBundleOutcomes(v: Json)
    ensures match CheckBundle(v)
      case Ok(w) => (w == EmptyObject && v.JObject?) || (w == v && AllIn(ExpectedKeys, v) == Ok(true))
      case Err(e) =>
        || (e.TypeError? && !(v.JObject? || v.JArray? || v.JString?))
        || (e.AttributeError? && (v.JArray? || v.JString?) && AllIn(ExpectedKeys, v) == Ok(false))
  {
    AllInErrors(ExpectedKeys, v);
  }

  /** A value the handler returns is either `{}` or exactly what the parser decoded from the
      straightened candidate, and then it passed the key check; an error is the parser's own
      exception other than a JSONDecodeError, or comes from a decoded value that is not a dict. */
  lemma InterpretCompletionOutcomes(raw: string, parse: string -> Decoding)
    ensures match InterpretCompletion(raw, parse)
      case Ok(v) =>
        v == EmptyObject
        || (Candidate(raw).Some? && parse(Straighten(Candidate(raw).value)) == Decoded(v)
            && AllIn(ExpectedKeys, v) == Ok(true))
      case Err(e) =>
        Candidate(raw).Some?
        && var d := parse(Straighten(Candidate(raw).value));
           || d == DecodeRaised(e)
           || ((e.TypeError? || e.AttributeError?) && d.Decoded? && !d.value.JObject?)
  {
    match Candidate(raw)
    case None =>
    case Some(text) =>
      match parse(Straighten(text))
      case Malformed =>
      case DecodeRaised(_) =>
      case Decoded(v) => CheckBundleOutcomes(v);
  }

  /** The handler's result is falsy exactly when it is the `{}` of failure: a bundle that passed
      the key check is never empty. */
  lemma CheckBundleTruthy(v: Json)
    requires CheckBundle(v).Ok?
    ensures Truthy(CheckBundle(v).value) <==> CheckBundle(v).value != EmptyObject
  {
    var w := CheckBundle(v).value;
    if w != EmptyObject {
      assert w == v;
      assert In(ExpectedKeys[0], v) == Ok(true);
      match v
      case JString(t) =>
        assert StartsAt(t, ExpectedKeys[0], Find(t, ExpectedKeys[0]));
      case _ =>
    }
  }

  /** `generate_instructions_with_ollama` once the CSV has been read: build the prompt from the
      table, ask the model, and interpret its completion. An exception from the model call
      propagates. */
  function GenerateInstructions(table: Table, request: string, chat: string -> ChatReply,
                                parse: string -> Decoding): Result<Json, PyError>
  {
    match chat(BuildPrompt(table.columns, table.head, table.info, request))
    case ChatFailed(message) => Err(OtherError(message))
    case Completion(raw) => InterpretCompletion(raw, parse)
  }
}
