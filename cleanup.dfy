/** The sanitising the handler applies to a candidate found by brace scanning: three regular
    expression substitutions (code fences, line comments, block comments) followed by the
    removal of blank lines. Each substitution is written as the left-to-right scan that
    `re.sub` performs for its pattern. */
module Cleanup {
  import opened PyStr

  const Fence := "```"
  const LineCommentStart := "//"
  const BlockCommentStart := "/*"
  const BlockCommentEnd := "*/"

  /** The class `[a-zA-Z]`. */
  predicate IsAsciiLetter(c: char) {
    'a' <= c <= 'z' || 'A' <= c <= 'Z'
  }

  /** How many characters `[a-zA-Z]*` consumes at the start of `s`. */
  function LeadingLetters(s: string): (n: nat)
    ensures n <= |s|
    ensures forall k :: 0 <= k < n ==> IsAsciiLetter(s[k])
    ensures n < |s| ==> !IsAsciiLetter(s[n])
  {
    if |s| == 0 || !IsAsciiLetter(s[0]) then 0 else 1 + LeadingLetters(s[1..])
  }

  /** `re.sub(r'```[a-zA-Z]*', '', s)` */
  function StripFences(s: string): string
    decreases |s|
  {
    if |s| < 3 then s
    else if s[..3] == Fence then StripFences(s[3 + LeadingLetters(s[3..])..])
    else [s[0]] + StripFences(s[1..])
  }

  /** How many characters `.*` consumes at the start of `s`: everything up to the next "\n". */
  function LineEnd(s: string): (n: nat)
    ensures n <= |s|
    ensures forall k :: 0 <= k < n ==> s[k] != '\n'
    ensures n < |s| ==> s[n] == '\n'
  {
    if |s| == 0 || s[0] == '\n' then 0 else 1 + LineEnd(s[1..])
  }

  /** `re.sub(r'//.*$', '', s, flags=re.MULTILINE)` */
  function StripLineComments(s: string): string
    decreases |s|
  {
    if |s| < 2 then s
    else if s[..2] == LineCommentStart then StripLineComments(s[2 + LineEnd(s[2..])..])
    else [s[0]] + StripLineComments(s[1..])
  }

  /** `re.sub` of a block comment with `flags=re.DOTALL`: from an opening BlockCommentStart,
      the lazy `.*?` stops at the first BlockCommentEnd after it, across line breaks; an
      opening with no close after it matches nothing. */
  function StripBlockComments(s: string): string
    decreases |s|
  {
    if |s| < 2 then s
    else if s[..2] == BlockCommentStart && FindFrom(s, BlockCommentEnd, 2) != -1 then
      StripBlockComments(s[FindFrom(s, BlockCommentEnd, 2) + 2..])
    else [s[0]] + StripBlockComments(s[1..])
  }

  /** The lines kept by `[line for line in lines if line.strip()]`. */
  function NonBlank(lines: seq<string>): (kept: seq<string>)
    ensures forall x :: x in kept <==> x in lines && !IsBlank(x)
  {
    if |lines| == 0 then []
    else (if Strip(lines[0]) != "" then [lines[0]] else []) + NonBlank(lines[1..])
  }

  /** The filter works line by line: filtering a concatenation filters each part, so the kept
      lines stay in their order and each occurs as often as it did. */
  lemma {:induction false} NonBlankAppend(a: seq<string>, b: seq<string>)
    ensures NonBlank(a + b) == NonBlank(a) + NonBlank(b)
  {
    if |a| == 0 {
      assert a + b == b;
    } else {
      assert (a + b)[1..] == a[1..] + b;
      NonBlankAppend(a[1..], b);
    }
  }

  /** One line is kept exactly when it is not blank. */
  lemma NonBlankSingle(x: string)
    ensures NonBlank([x]) == if IsBlank(x) then [] else [x]
  {
    assert [x][1..] == [];
  }

  /** `"\n".join([line for line in s.splitlines() if line.strip()])` */
  function RemoveBlankLines(s: string): string {
    Join(NonBlank(SplitLines(s)), "\n")
  }

  /** The whole clean-up of a brace-scanned candidate, in the handler's order. */
  function Sanitise(s: string): string {
    RemoveBlankLines(StripBlockComments(StripLineComments(StripFences(s))))
  }

  // ---------------------------------------------------------------------------------------
  // Occurrences in a string with one more character in front

  lemma AbsentCons(x: char, u: string, pat: string)
    requires |pat| > 0 && Absent(u, pat) && !StartsAt([x] + u, pat, 0)
    ensures Absent([x] + u, pat)
  {
    var s := [x] + u;
    forall k | 0 <= k <= |s| ensures !StartsAt(s, pat, k) {
      if k > 0 && k + |pat| <= |s| {
        assert s[k..k + |pat|] == u[k - 1..k - 1 + |pat|];
        assert !StartsAt(u, pat, k - 1);
      }
    }
  }

  lemma AbsentTail(s: string, pat: string)
    requires |s| > 0 && Absent(s, pat)
    ensures Absent(s[1..], pat)
  {
    forall k | 0 <= k <= |s[1..]| ensures !StartsAt(s[1..], pat, k) {
      if k + |pat| <= |s[1..]| {
        assert s[1..][k..k + |pat|] == s[k + 1..k + 1 + |pat|];
        assert !StartsAt(s, pat, k + 1);
      }
    }
  }

  // ---------------------------------------------------------------------------------------
  // Code fences

  /** Where no fence starts, the first character is kept and the scan moves on by one. */
  lemma StripFencesHead(s: string)
    requires |s| > 0 && !StartsAt(s, Fence, 0)
    ensures StripFences(s) == [s[0]] + StripFences(s[1..])
  {
  }

  /** No "```" survives the substitution. */
  lemma {:induction false} StripFencesLeavesNoFence(s: string)
    ensures Absent(StripFences(s), Fence)
    decreases |s|
  {
    if |s| < 3 {
    } else if s[..3] == Fence {
      StripFencesLeavesNoFence(s[3 + LeadingLetters(s[3..])..]);
    } else {
      var t := s[1..];
      StripFencesLeavesNoFence(t);
      var u := StripFences(t);
      if s[0] == '`' {
        StripFencesHead(t);
        if s[1] == '`' {
          assert s[2] != '`';
          StripFencesHead(t[1..]);
        }
      }
      AbsentCons(s[0], u, Fence);
    }
  }

  /** Text without a fence passes through unchanged. */
  lemma {:induction false} StripFencesWithoutFence(s: string)
    requires Absent(s, Fence)
    ensures StripFences(s) == s
    decreases |s|
  {
    if |s| >= 3 {
      assert !StartsAt(s, Fence, 0);
      AbsentTail(s, Fence);
      StripFencesWithoutFence(s[1..]);
    }
  }

  /** Stripping fences twice is stripping them once. */
  lemma StripFencesIdempotent(s: string)
    ensures StripFences(StripFences(s)) == StripFences(s)
  {
    StripFencesLeavesNoFence(s);
    StripFencesWithoutFence(StripFences(s));
  }

  /** A fence goes together with the run of letters right after it (the language tag). */
  lemma StripFencesDropsTag(tag: string, rest: string)
    requires forall k :: 0 <= k < |tag| ==> IsAsciiLetter(tag[k])
    requires |rest| == 0 || !IsAsciiLetter(rest[0])
    ensures StripFences(Fence + tag + rest) == StripFences(rest)
  {
    LeadingLettersOfTag(tag, rest);
    StripFencesSkipsTag(tag, rest, Fence + tag + rest);
  }

  lemma StripFencesSkipsTag(tag: string, rest: string, s: string)
    requires s == Fence + tag + rest
    requires LeadingLetters(tag + rest) == |tag|
    ensures StripFences(s) == StripFences(rest)
  {
    assert s == Fence + (tag + rest);
    DropConcat(Fence, tag + rest);
    assert StartsAt(s, Fence, 0);
    StripFencesAtFence(s);
    DropConcat(tag, rest);
    DropDrop(s, 3, |tag|);
  }

  /** Dropping the first part of a concatenation leaves the second. */
  lemma DropConcat(a: string, b: string)
    ensures (a + b)[|a|..] == b
  {
  }

  lemma DropDrop(s: string, i: nat, j: nat)
    requires i + j <= |s|
    ensures s[i..][j..] == s[i + j..]
  {
  }

  lemma StripFencesAtFence(s: string)
    requires StartsAt(s, Fence, 0)
    ensures StripFences(s) == StripFences(s[3 + LeadingLetters(s[3..])..])
  {
  }

  lemma {:induction false} LeadingLettersOfTag(tag: string, rest: string)
    requires forall k :: 0 <= k < |tag| ==> IsAsciiLetter(tag[k])
    requires |rest| == 0 || !IsAsciiLetter(rest[0])
    ensures LeadingLetters(tag + rest) == |tag|
  {
    if |tag| == 0 {
      assert tag + rest == rest;
    } else {
      assert (tag + rest)[1..] == tag[1..] + rest;
      LeadingLettersOfTag(tag[1..], rest);
    }
  }

  // ---------------------------------------------------------------------------------------
  // Line comments

  lemma StripLineCommentsHead(s: string)
    requires |s| > 0 && !StartsAt(s, LineCommentStart, 0)
    ensures StripLineComments(s) == [s[0]] + StripLineComments(s[1..])
  {
  }

  /** No "//" survives the substitution. */
  lemma {:induction false} StripLineCommentsLeavesNoSlashes(s: string)
    ensures Absent(StripLineComments(s), LineCommentStart)
    decreases |s|
  {
    if |s| < 2 {
    } else if s[..2] == LineCommentStart {
      StripLineCommentsLeavesNoSlashes(s[2 + LineEnd(s[2..])..]);
    } else {
      var t := s[1..];
      StripLineCommentsLeavesNoSlashes(t);
      if s[0] == '/' {
        StripLineCommentsHead(t);
      }
      AbsentCons(s[0], StripLineComments(t), LineCommentStart);
    }
  }

  /** Only the comment text goes: every "\n" stays, so the line structure is kept. */
  lemma {:induction false} StripLineCommentsKeepsNewlines(s: string)
    ensures multiset(StripLineComments(s))['\n'] == multiset(s)['\n']
    decreases |s|, 1
  {
    if |s| >= 2 {
      if s[..2] == LineCommentStart {
        KeepsNewlinesAtComment(s);
      } else {
        KeepsNewlinesElsewhere(s);
      }
    }
  }

  lemma {:induction false} KeepsNewlinesAtComment(s: string)
    requires |s| >= 2 && s[..2] == LineCommentStart
    ensures multiset(StripLineComments(s))['\n'] == multiset(s)['\n']
    decreases |s|, 0
  {
    StripLineCommentsAtComment(s);
    var n := 2 + LineEnd(s[2..]);
    StripLineCommentsKeepsNewlines(s[n..]);
    CountSplit(s, n, '\n');
    CountAbsent(s[..n], '\n');
  }

  lemma {:induction false} KeepsNewlinesElsewhere(s: string)
    requires |s| >= 2 && s[..2] != LineCommentStart
    ensures multiset(StripLineComments(s))['\n'] == multiset(s)['\n']
    decreases |s|, 0
  {
    StripLineCommentsHead(s);
    var r := StripLineComments(s[1..]);
    StripLineCommentsKeepsNewlines(s[1..]);
    CountSplit(s, 1, '\n');
    CountConcat([s[0]], r, '\n');
  }

  /** Occurrences of `c` in `s` are those before index `n` and those from `n` on. */
  lemma CountSplit(s: string, n: nat, c: char)
    requires n <= |s|
    ensures multiset(s)[c] == multiset(s[..n])[c] + multiset(s[n..])[c]
  {
    assert s == s[..n] + s[n..];
  }

  lemma CountAbsent(s: string, c: char)
    requires c !in s
    ensures multiset(s)[c] == 0
  {
  }

  lemma CountConcat(a: string, b: string, c: char)
    ensures multiset(a + b)[c] == multiset(a)[c] + multiset(b)[c]
  {
  }

  /** At "//" the scan drops the rest of the line, which holds no "\n". */
  lemma StripLineCommentsAtComment(s: string)
    requires StartsAt(s, LineCommentStart, 0)
    ensures StripLineComments(s) == StripLineComments(s[2 + LineEnd(s[2..])..])
    ensures '\n' !in s[..2 + LineEnd(s[2..])]
  {
    var n := 2 + LineEnd(s[2..]);
    forall k | 0 <= k < n ensures s[..n][k] != '\n' {
      if k >= 2 {
        assert s[..n][k] == s[2..][k - 2];
      } else {
        assert s[..2] == LineCommentStart;
      }
    }
  }

  /** A comment runs to the end of its line and no further. */
  lemma StripLineCommentsToEndOfLine(text: string, rest: string)
    requires forall k :: 0 <= k < |text| ==> text[k] != '\n'
    ensures StripLineComments(LineCommentStart + text + "\n" + rest) == "\n" + StripLineComments(rest)
  {
    var s := LineCommentStart + text + "\n" + rest;
    assert s[..2] == LineCommentStart;
    var t := s[2..];
    assert t == text + "\n" + rest;
    var n := LineEnd(t);
    assert forall k :: 0 <= k < |text| ==> t[k] == text[k];
    assert t[|text|] == '\n';
    assert s[2 + n..] == "\n" + rest;
    assert !StartsAt("\n" + rest, LineCommentStart, 0);
    StripLineCommentsHead("\n" + rest);
    assert ("\n" + rest)[1..] == rest;
  }

  /** Text without "//" passes through unchanged. */
  lemma {:induction false} StripLineCommentsWithoutComment(s: string)
    requires Absent(s, LineCommentStart)
    ensures StripLineComments(s) == s
    decreases |s|
  {
    if |s| >= 2 {
      assert !StartsAt(s, LineCommentStart, 0);
      AbsentTail(s, LineCommentStart);
      StripLineCommentsWithoutComment(s[1..]);
    }
  }

  /** Removing line comments twice is removing them once. */
  lemma StripLineCommentsIdempotent(s: string)
    ensures StripLineComments(StripLineComments(s)) == StripLineComments(s)
  {
    StripLineCommentsLeavesNoSlashes(s);
    StripLineCommentsWithoutComment(StripLineComments(s));
  }

  // ---------------------------------------------------------------------------------------
  // Block comments

  lemma StripBlockCommentsHead(s: string)
    requires |s| > 0 && !StartsAt(s, BlockCommentStart, 0)
    ensures StripBlockComments(s) == [s[0]] + StripBlockComments(s[1..])
  {
  }

  /** The match is lazy and spans lines: an opening with the first close after it, whatever lies
      between, goes, and the scan resumes right after that close. */
  lemma StripBlockCommentsLazy(body: string, rest: string)
    requires Absent(body, BlockCommentEnd)
    ensures StripBlockComments(BlockCommentStart + body + BlockCommentEnd + rest) == StripBlockComments(rest)
  {
    var s := BlockCommentStart + body + BlockCommentEnd + rest;
    var e := 2 + |body|;
    assert s[e..e + 2] == BlockCommentEnd;
    forall k | 2 <= k < e ensures !StartsAt(s, BlockCommentEnd, k) {
      if k + 2 <= e {
        assert s[k..k + 2] == body[k - 2..k];
        assert !StartsAt(body, BlockCommentEnd, k - 2);
      } else {
        assert s[k..k + 2][1] == s[k + 1] == '*';
      }
    }
    assert StartsAt(s, BlockCommentEnd, e);
    assert FindFrom(s, BlockCommentEnd, 2) == e;
    assert s[..2] == BlockCommentStart;
    assert s[e + 2..] == rest;
  }

  /** Once no close is left, nothing can be removed: an unclosed opening stays as it is. */
  lemma {:induction false} StripBlockCommentsWithoutClose(s: string)
    requires Absent(s, BlockCommentEnd)
    ensures StripBlockComments(s) == s
    decreases |s|
  {
    if |s| >= 2 {
      AbsentTail(s, BlockCommentEnd);
      StripBlockCommentsWithoutClose(s[1..]);
    }
  }

  /** Text without an opening passes through unchanged. */
  lemma {:induction false} StripBlockCommentsWithoutOpen(s: string)
    requires Absent(s, BlockCommentStart)
    ensures StripBlockComments(s) == s
    decreases |s|
  {
    if |s| >= 2 {
      assert !StartsAt(s, BlockCommentStart, 0);
      AbsentTail(s, BlockCommentStart);
      StripBlockCommentsWithoutOpen(s[1..]);
    }
  }

  // ---------------------------------------------------------------------------------------
  // Blank lines

  /** After blank-line removal, splitting on "\n" gives back exactly the non-blank lines, in order,
      so every line of the result has a non-whitespace character; only when no line of the input
      has one is the result empty. */
  lemma RemoveBlankLinesLines(s: string)
    ensures var kept := NonBlank(SplitLines(s));
      && (kept == [] ==> RemoveBlankLines(s) == "")
      && (kept != [] ==> Split(RemoveBlankLines(s), "\n") == kept)
      && (forall i :: 0 <= i < |kept| ==> !IsBlank(kept[i]) && NoLineBreak(kept[i]))
  {
    var lines := SplitLines(s);
    var kept := NonBlank(lines);
    forall i | 0 <= i < |kept| ensures !IsBlank(kept[i]) && NoLineBreak(kept[i]) {
      assert kept[i] in kept;
    }
    if kept != [] {
      forall i, k | 0 <= i < |kept| && 0 <= k < |kept[i]| ensures kept[i][k] != "\n"[0] {
        assert !IsLineBreak(kept[i][k]);
      }
      SplitJoin(kept, "\n");
    }
  }

  // ---------------------------------------------------------------------------------------
  // The whole clean-up

  lemma {:induction false} SplitLinesFromFirst(s: string, line: string)
    requires NoLineBreak(line) && |line| > 0
    ensures |SplitLinesFrom(s, line)| > 0
    ensures |SplitLinesFrom(s, line)[0]| > 0 && SplitLinesFrom(s, line)[0][0] == line[0]
    decreases |s|
  {
    if |s| > 0 && !IsLineBreak(s[0]) {
      SplitLinesFromFirst(s[1..], line + [s[0]]);
    }
  }

  /** A brace-scanned candidate opens with "{", and the clean-up keeps that "{" in front: the
      text handed to the parser is never empty. */
  lemma SanitiseKeepsOpeningBrace(s: string)
    requires |s| > 0 && s[0] == '{'
    ensures |Sanitise(s)| > 0 && Sanitise(s)[0] == '{'
  {
    StripFencesHead(s);
    var a := StripFences(s);
    assert a[0] == '{';
    StripLineCommentsHead(a);
    var b := StripLineComments(a);
    assert b[0] == '{';
    StripBlockCommentsHead(b);
    var c := StripBlockComments(b);
    assert c[0] == '{';
    var one := [c[0]];
    assert NoLineBreak(one);
    assert !IsLineBreak(c[0]) && "" + [c[0]] == one;
    assert SplitLines(c) == SplitLinesFrom(c[1..], one);
    SplitLinesFromFirst(c[1..], one);
    var lines := SplitLines(c);
    assert !IsSpace(lines[0][0]);
    assert !IsBlank(lines[0]);
    assert NonBlank(lines) == [lines[0]] + NonBlank(lines[1..]);
  }
}
