/**
 * `parseAIResponse` of the backend's model service: it cleans a completion
 * text step by step into a candidate JSON text and hands it to `JSON.parse`,
 * which is the parameter `parse` here (an `Err` stands for a `SyntaxError`).
 */
module ResponseRepair {
  import opened TextUtil
  import opened Json

  /** A ```` ```json ```` fence (the word in any letter case) at position `i`. */
  predicate JsonFenceAt(s: string, i: nat)
  {
    i + 7 <= |s| && s[i..i + 3] == "```" && Lower(s[i + 3..i + 7]) == "json"
  }

  /** `s.replace(/```json\s*\/gi, '')`: every fence with the word json and the white space after it goes. */
  function StripJsonFences(s: string): (r: string)
    ensures |r| <= |s|
    decreases |s|
  {
    if s == [] then []
    else if JsonFenceAt(s, 0) then StripJsonFences(s[7 + SpaceRun(s, 7)..])
    else [s[0]] + StripJsonFences(s[1..])
  }

  /** `s.replace(/```\s*\/g, '')`: every triple backtick and the white space after it goes. */
  function StripFences(s: string): (r: string)
    ensures |r| <= |s|
    decreases |s|
  {
    if s == [] then []
    else if |s| >= 3 && s[..3] == "```" then StripFences(s[3 + SpaceRun(s, 3)..])
    else [s[0]] + StripFences(s[1..])
  }

  /** Both fence removals leave a text without backticks as it is. */
  lemma {:induction false} FencesOnlyTouchBackticks(s: string)
    requires '`' !in s
    ensures StripJsonFences(s) == s && StripFences(s) == s
  {
    if s != [] {
      assert s[0] != '`';
      assert '`' !in s[1..];
      FencesOnlyTouchBackticks(s[1..]);
    }
  }

  /** The text left once the completion is trimmed and its Markdown fences removed. */
  function Unfenced(text: string): string
  {
    StripFences(StripJsonFences(Trim(text)))
  }

  /** Where the JSON text starts: the first `[` or `{`, whichever comes first. */
  function JsonStart(s: string): (r: Option<nat>)
    ensures r.Some? <==> ('[' in s || '{' in s)
    ensures r.Some? ==> r.value < |s| && (s[r.value] == '[' || s[r.value] == '{')
    ensures r.Some? ==> forall k :: 0 <= k < r.value ==> s[k] != '[' && s[k] != '{'
  {
    var a := IndexOfChar(s, '[');
    var o := IndexOfChar(s, '{');
    if a >= 0 && o >= 0 then Some(if a < o then a else o)
    else if a >= 0 then Some(a)
    else if o >= 0 then Some(o)
    else None
  }

  function Closer(open: char): char
  {
    if open == '[' then ']' else '}'
  }

  /**
   * The candidate between the start and the last matching closer; when no
   * closer follows the start, a newline and the closer are appended first.
   * The second failure message is the source's, behind a check that cannot fail.
   */
  function Candidate(s: string, start: nat): (r: Result<string>)
    requires start < |s|
  {
    var close := Closer(s[start]);
    var e := LastIndexOfChar(s, close);
    var t := if e == -1 || e <= start then s + ['\n', close] else s;
    var e2 := LastIndexOfChar(t, close);
    if e2 == -1 || e2 <= start then Err("No valid JSON end found even after repair attempt")
    else Ok(t[start..e2 + 1])
  }

  /**
   * The candidate always exists. It runs from the start to the LAST closer of
   * the same kind; a newline and the closer are appended exactly when no such
   * closer follows the start.
   */
  lemma CandidateFound(s: string, start: nat)
    requires start < |s| && (s[start] == '[' || s[start] == '{')
    ensures Candidate(s, start).Ok?
    ensures var c := Candidate(s, start).value;
      |c| >= 2 && c[0] == s[start] && c[|c| - 1] == Closer(s[start])
    ensures var c := Candidate(s, start).value; var close := Closer(s[start]);
      (forall k :: start < k < |s| ==> s[k] != close) ==> c == s[start..] + ['\n', close]
    ensures var c := Candidate(s, start).value; var close := Closer(s[start]);
      !(forall k :: start < k < |s| ==> s[k] != close) ==>
        start + |c| <= |s| && c == s[start..start + |c|]
        && forall k :: start + |c| <= k < |s| ==> s[k] != close
  {
    var close := Closer(s[start]);
    var e := LastIndexOfChar(s, close);
    if e == -1 || e <= start {
      var t := s + ['\n', close];
      assert t[|t| - 1] == close;
      assert LastIndexOfChar(t, close) == |t| - 1;
      assert t[start..] == s[start..] + ['\n', close];
      assert forall k :: start < k < |s| ==> s[k] != close;
    } else {
      assert Candidate(s, start).value == s[start..e + 1];
    }
  }

  /** A comma at position `i` that only white space separates from a `}` or `]`. */
  predicate TrailingCommaAt(s: string, i: nat)
    requires i < |s|
  {
    s[i] == ',' && var n := SpaceRun(s, i + 1); i + 1 + n < |s| && (s[i + 1 + n] == '}' || s[i + 1 + n] == ']')
  }

  /**
   * `s.replace(/,(\s*[}\]])/g, '$1')`: each match (a comma, white space and a
   * closer) is replaced by its white space and closer, and the scan goes on
   * after the closer.
   */
  function RemoveTrailingCommas(s: string): (r: string)
    decreases |s|
  {
    if s == [] then []
    else if TrailingCommaAt(s, 0) then
      var n := SpaceRun(s, 1);
      s[1..2 + n] + RemoveTrailingCommas(s[2 + n..])
    else [s[0]] + RemoveTrailingCommas(s[1..])
  }

  /** Independent reading of the comma repair: keep every character except the trailing commas. */
  function KeepNonTrailing(s: string): (r: string)
    decreases |s|
  {
    if s == [] then []
    else (if TrailingCommaAt(s, 0) then [] else [s[0]]) + KeepNonTrailing(s[1..])
  }

  lemma {:induction false} SpaceRunShift(s: string, i: nat)
    requires 0 < i <= |s|
    ensures SpaceRun(s, i) == SpaceRun(s[1..], i - 1)
    decreases |s| - i
  {
    if i < |s| && IsSpace(s[i]) {
      SpaceRunShift(s, i + 1);
    }
  }

  /** The characters after a trailing comma up to its closer are white space or the closer: all kept. */
  lemma {:induction false} KeepSkipsRun(s: string, m: nat)
    requires m < |s|
    requires forall k :: 0 <= k < m ==> IsSpace(s[k])
    requires s[m] == '}' || s[m] == ']'
    ensures KeepNonTrailing(s) == s[..m + 1] + KeepNonTrailing(s[m + 1..])
  {
    assert s[0] != ',';
    assert !TrailingCommaAt(s, 0);
    if m > 0 {
      KeepSkipsRun(s[1..], m - 1);
      assert s[1..][..m] == s[1..m + 1];
      assert s[1..][m..] == s[m + 1..];
    }
  }

  /** The regular-expression scan removes exactly the trailing commas and keeps everything else in order. */
  lemma {:induction false} RemoveTrailingCommasKeeps(s: string)
    ensures RemoveTrailingCommas(s) == KeepNonTrailing(s)
    decreases |s|
  {
    if s != [] {
      if TrailingCommaAt(s, 0) {
        var n := SpaceRun(s, 1);
        var t := s[1..];
        SpaceRunShift(s, 1);
        KeepSkipsRun(t, n);
        assert t[..n + 1] == s[1..2 + n];
        assert t[n + 1..] == s[2 + n..];
        RemoveTrailingCommasKeeps(s[2 + n..]);
      } else {
        RemoveTrailingCommasKeeps(s[1..]);
      }
    }
  }

  /** Removing trailing commas changes nothing in a text that has none. */
  lemma {:induction false} NoTrailingCommaUnchanged(s: string)
    requires forall i :: 0 <= i < |s| ==> !TrailingCommaAt(s, i)
    ensures RemoveTrailingCommas(s) == s
  {
    RemoveTrailingCommasKeeps(s);
    KeepAll(s);
  }

  lemma {:induction false} KeepAll(s: string)
    requires forall i :: 0 <= i < |s| ==> !TrailingCommaAt(s, i)
    ensures KeepNonTrailing(s) == s
    decreases |s|
  {
    if s != [] {
      assert !TrailingCommaAt(s, 0);
      forall i | 0 <= i < |s| - 1 ensures !TrailingCommaAt(s[1..], i) {
        SpaceRunShift(s, i + 2);
        assert !TrailingCommaAt(s, i + 1);
      }
      KeepAll(s[1..]);
    }
  }

  /** One pass is not enough for doubled commas: `,,]` keeps its first comma, which is then trailing. */
  lemma DoubledCommaSurvives()
    ensures RemoveTrailingCommas(",,]") == ",]"
  {
    var s := ",,]";
    assert SpaceRun(s, 1) == 0;
    assert !TrailingCommaAt(s, 0);
    var t := ",]";
    assert s[1..] == t;
    assert SpaceRun(t, 1) == 0;
    assert TrailingCommaAt(t, 0);
    assert t[1..2] == "]";
    assert t[2..] == [];
  }

  /** The condition under which the truncated last object is cut away. */
  predicate LooksTruncated(c: string)
  {
    '{' in c && !EndsWith(Trim(c), "}]") && !EndsWith(Trim(c), "}")
  }

  /**
   * The truncation repair: when the candidate contains `{` but does not end in
   * `}` or `}]`, and its last `{` is never closed, the text from that `{` on is
   * dropped and `\n]` appended unless the rest already ends with `]`.
   */
  function RepairTruncated(c: string): (r: string)
  {
    if LooksTruncated(c) then
      var open := LastIndexOfChar(c, '{');
      if open >= 0 && IndexOfCharFrom(c, '}', open) == -1 then
        var cut := c[..open];
        if EndsWith(Trim(cut), "]") then cut else cut + "\n]"
      else c
    else c
  }

  lemma TrimKeepsLast(r: string)
    requires r != [] && !IsSpace(r[|r| - 1])
    ensures Trim(r) != [] && Trim(r)[|Trim(r)| - 1] == r[|r| - 1]
  {
    var a := TrimStart(r);
    TrimStartSlice(r);
    assert a != [] && a[|a| - 1] == r[|r| - 1];
    TrimEndOfTrimmed(a);
  }

  /** When the repair changes the candidate, it cut at its last `{`, which nothing closes. */
  lemma RepairTruncatedCuts(c: string)
    requires RepairTruncated(c) != c
    ensures var open := LastIndexOfChar(c, '{');
      0 <= open < |c| && c[open] == '{'
      && (forall k :: open < k < |c| ==> c[k] != '{' && c[k] != '}')
      && (RepairTruncated(c) == c[..open] || RepairTruncated(c) == c[..open] + "\n]")
  {
  }

  /** When the repair changes the candidate, the result, trimmed, ends in `]`. */
  lemma RepairTruncatedCloses(c: string)
    requires RepairTruncated(c) != c
    ensures EndsWith(Trim(RepairTruncated(c)), "]")
  {
    var open := LastIndexOfChar(c, '{');
    var cut := c[..open];
    if !EndsWith(Trim(cut), "]") {
      var r := cut + "\n]";
      TrimKeepsLast(r);
    }
  }

  /** The text `JSON.parse` receives. */
  function Repaired(text: string): (r: Result<string>)
  {
    var cleaned := Unfenced(text);
    match JsonStart(cleaned)
    case None => Err("No JSON structure found in response")
    case Some(start) =>
      match Candidate(cleaned, start)
      case Err(e) => Err(e)
      case Ok(c) => Ok(RepairTruncated(RemoveTrailingCommas(c)))
  }

  lemma {:induction false} StripJsonFencesAppend(a: string, b: string)
    requires '`' !in a
    ensures StripJsonFences(a + b) == a + StripJsonFences(b)
  {
    if a != [] {
      assert (a + b)[0] == a[0] != '`';
      assert !JsonFenceAt(a + b, 0) by {
        if |a + b| >= 7 { assert (a + b)[0..3][0] == a[0]; }
      }
      assert (a + b)[1..] == a[1..] + b;
      StripJsonFencesAppend(a[1..], b);
    } else {
      assert a + b == b;
    }
  }

  lemma {:induction false} StripFencesAppend(a: string, b: string)
    requires '`' !in a
    ensures StripFences(a + b) == a + StripFences(b)
  {
    if a != [] {
      assert (a + b)[0] == a[0] != '`';
      assert |a + b| >= 3 ==> (a + b)[..3][0] == a[0];
      assert (a + b)[1..] == a[1..] + b;
      StripFencesAppend(a[1..], b);
    } else {
      assert a + b == b;
    }
  }

  /** The last `]` of `j + "\n"` is the last character of `j` when `j` ends with `]`. */
  lemma LastCloserOfFenced(pre: string, j: string)
    requires j != [] && j[|j| - 1] == ']'
    ensures LastIndexOfChar(pre + j + "\n", ']') == |pre| + |j| - 1
  {
    var t := pre + j + "\n";
    assert t[..|t| - 1] == pre + j;
    assert (pre + j)[|pre| + |j| - 1] == ']';
  }

  lemma ClosingFenceJson()
    ensures StripJsonFences("\n```") == "\n```"
  {
    var t := "\n```";
    assert !JsonFenceAt(t, 0);
    assert t[1..] == "```";
    assert StripJsonFences("```") == "```" by {
      assert !JsonFenceAt("```", 0);
      assert "```"[1..] == "``";
      assert StripJsonFences("``") == "``" by {
        assert !JsonFenceAt("``", 0);
        assert "``"[1..] == "`";
        assert StripJsonFences("`") == "`" by {
          assert "`"[1..] == [];
        }
      }
    }
  }

  lemma ClosingFence()
    ensures StripFences("\n```") == "\n"
  {
    var t := "\n```";
    assert t[..3][0] == '\n';
    assert t[1..] == "```";
    assert StripFences("```") == [] by {
      assert "```"[..3] == "```";
      assert SpaceRun("```", 3) == 0;
      assert "```"[3..] == [];
    }
  }

  lemma OpeningFenceJson(j: string)
    requires j != [] && j[0] == '['
    ensures StripJsonFences("```json\n" + j) == StripJsonFences(j)
  {
    var f := "```json\n" + j;
    assert f[..3] == "```";
    assert f[3..7] == "json";
    assert JsonFenceAt(f, 0);
    assert f[7] == '\n' && f[8] == '[';
    assert SpaceRun(f, 8) == 0;
    assert SpaceRun(f, 7) == 1;
    assert f[8..] == j;
  }

  lemma StripJsonOfFenced(pre: string, j: string)
    requires '`' !in pre && '`' !in j && j != [] && j[0] == '['
    ensures StripJsonFences(pre + ("```json\n" + j + "\n```")) == pre + (j + "\n```")
  {
    var fenced := "```json\n" + j + "\n```";
    StripJsonFencesAppend(pre, fenced);
    assert fenced == "```json\n" + (j + "\n```");
    OpeningFenceJson(j + "\n```");
    StripJsonFencesAppend(j, "\n```");
    ClosingFenceJson();
  }

  lemma StripOfFenced(pre: string, j: string)
    requires '`' !in pre && '`' !in j
    ensures StripFences(pre + (j + "\n```")) == pre + j + "\n"
  {
    StripFencesAppend(pre, j + "\n```");
    StripFencesAppend(j, "\n```");
    ClosingFence();
  }

  lemma UnfencedFenced(pre: string, j: string)
    requires pre == [] || !IsSpace(pre[0])
    requires '`' !in pre && '`' !in j && j != [] && j[0] == '['
    ensures Unfenced(pre + "```json\n" + j + "\n```") == pre + j + "\n"
  {
    var text := pre + "```json\n" + j + "\n```";
    assert text == pre + ("```json\n" + j + "\n```");
    assert text[|text| - 1] == '`';
    assert text[0] == (if pre == [] then '`' else pre[0]);
    TrimStartOfTrimmed(text);
    TrimEndOfTrimmed(text);
    assert Trim(text) == text;
    StripJsonOfFenced(pre, j);
    StripOfFenced(pre, j);
  }

  lemma CandidateOfFenced(pre: string, j: string)
    requires '[' !in pre && '{' !in pre
    requires |j| >= 2 && j[0] == '[' && j[|j| - 1] == ']'
    ensures JsonStart(pre + j + "\n") == Some(|pre|)
    ensures Candidate(pre + j + "\n", |pre|) == Ok(j)
  {
    var cleaned := pre + j + "\n";
    assert cleaned[|pre|] == '[';
    assert forall k :: 0 <= k < |pre| ==> cleaned[k] == pre[k];
    LastCloserOfFenced(pre, j);
    assert cleaned[|pre|..|pre| + |j|] == j;
  }

  /**
   * A completion made of a lead-in without backticks or brackets and a
   * ```` ```json ```` fenced array comes out as exactly the fenced array, when
   * that array has no trailing comma and does not look truncated.
   */
  lemma FencedArrayExtracted(pre: string, j: string)
    requires pre == [] || !IsSpace(pre[0])
    requires '`' !in pre && '[' !in pre && '{' !in pre
    requires '`' !in j && |j| >= 2 && j[0] == '[' && j[|j| - 1] == ']'
    requires forall i :: 0 <= i < |j| ==> !TrailingCommaAt(j, i)
    requires !LooksTruncated(j)
    ensures Repaired(pre + "```json\n" + j + "\n```") == Ok(j)
  {
    UnfencedFenced(pre, j);
    CandidateOfFenced(pre, j);
    NoTrailingCommaUnchanged(j);
  }

  lemma {:induction false} KeepLast(s: string)
    requires s != [] && s[|s| - 1] != ','
    ensures KeepNonTrailing(s) != [] && KeepNonTrailing(s)[|KeepNonTrailing(s)| - 1] == s[|s| - 1]
    decreases |s|
  {
    if |s| == 1 {
      assert !TrailingCommaAt(s, 0);
      assert s[1..] == [];
    } else {
      KeepLast(s[1..]);
    }
  }

  /** The text handed to `JSON.parse`, once trimmed, always ends in `]` or `}`. */
  lemma RepairedEndsWithCloser(text: string)
    requires Repaired(text).Ok?
    ensures var t := Trim(Repaired(text).value);
      t != [] && (t[|t| - 1] == ']' || t[|t| - 1] == '}')
  {
    var c := RepairedCandidate(text);
    CommaFreeEndsWithCloser(c);
  }

  /** A repaired text comes from a candidate of at least two characters that ends in a closer. */
  lemma RepairedCandidate(text: string) returns (c: string)
    requires Repaired(text).Ok?
    ensures |c| >= 2 && (c[|c| - 1] == ']' || c[|c| - 1] == '}')
    ensures Repaired(text).value == RepairTruncated(RemoveTrailingCommas(c))
  {
    var cleaned := Unfenced(text);
    var start := JsonStart(cleaned).value;
    CandidateCloses(cleaned, start);
    c := Candidate(cleaned, start).value;
  }

  /** The candidate ends in a closer and is at least two characters long. */
  lemma CandidateCloses(s: string, start: nat)
    requires start < |s| && (s[start] == '[' || s[start] == '{')
    ensures Candidate(s, start).Ok?
    ensures var c := Candidate(s, start).value; |c| >= 2 && (c[|c| - 1] == ']' || c[|c| - 1] == '}')
  {
    CandidateFound(s, start);
  }

  lemma CommaFreeEndsWithCloser(c: string)
    requires |c| >= 2 && (c[|c| - 1] == ']' || c[|c| - 1] == '}')
    ensures var t := Trim(RepairTruncated(RemoveTrailingCommas(c)));
      t != [] && (t[|t| - 1] == ']' || t[|t| - 1] == '}')
  {
    var d := RemoveTrailingCommas(c);
    CommaFreeKeepsLast(c);
    if RepairTruncated(d) == d {
      TrimKeepsLast(d);
    } else {
      RepairTruncatedCloses(d);
    }
  }

  /** Removing trailing commas keeps a final character that is not a comma. */
  lemma CommaFreeKeepsLast(c: string)
    requires c != [] && c[|c| - 1] != ','
    ensures var d := RemoveTrailingCommas(c);
      d != [] && d[|d| - 1] == c[|c| - 1]
  {
    RemoveTrailingCommasKeeps(c);
    KeepLast(c);
  }

  /**
   * The truncation repair runs after the comma repair, so the comma in front
   * of a dropped object stays: `[{"a":1},{"a":2` is handed to `JSON.parse` as
   * `[{"a":1},\n]`, whose comma is a trailing one.
   */
  lemma TruncationKeepsComma(text: string, fixed: string)
    requires text == "[{\"a\":1},{\"a\":2" && fixed == "[{\"a\":1},\n]"
    ensures Repaired(text) == Ok(fixed)
    ensures TrailingCommaAt(fixed, 8)
  {
    var t := text + "\n]";
    TruncatedUnfenced(text);
    TruncatedStart(text);
    TruncatedCandidate(text, t);
    RepairedVia(text, 0, t);
    TruncatedCommaKept(t);
    TruncatedCut(t, fixed);
    ExposedComma(fixed);
  }

  /** The repaired text is the candidate with both repairs applied. */
  lemma RepairedVia(text: string, start: nat, c: string)
    requires JsonStart(Unfenced(text)) == Some(start) && Candidate(Unfenced(text), start) == Ok(c)
    ensures Repaired(text) == Ok(RepairTruncated(RemoveTrailingCommas(c)))
  {
  }

  lemma ExposedComma(fixed: string)
    requires fixed == "[{\"a\":1},\n]"
    ensures TrailingCommaAt(fixed, 8)
  {
    assert SpaceRun(fixed, 10) == 0;
    assert SpaceRun(fixed, 9) == 1;
  }

  lemma TruncatedStart(text: string)
    requires text == "[{\"a\":1},{\"a\":2"
    ensures JsonStart(text) == Some(0)
  {
    assert IndexOfChar(text, '[') == 0;
    assert text[1] == '{';
  }

  /** No `]` follows the start, so the candidate is the whole text with `\n]` appended. */
  lemma TruncatedCandidate(text: string, t: string)
    requires text == "[{\"a\":1},{\"a\":2" && t == text + "\n]"
    ensures Candidate(text, 0) == Ok(t)
  {
    assert forall k :: 0 < k < |text| ==> text[k] != ']';
    CandidateFound(text, 0);
    assert text[0..] == text;
  }

  lemma TruncatedUnfenced(text: string)
    requires text == "[{\"a\":1},{\"a\":2"
    ensures Unfenced(text) == text
  {
    TrimStartOfTrimmed(text);
    TrimEndOfTrimmed(text);
    assert forall k :: 0 <= k < |text| ==> text[k] != '`';
    FencesOnlyTouchBackticks(text);
  }

  /** The only comma of the candidate is followed by `{`, so the comma repair leaves it. */
  lemma TruncatedCommaKept(t: string)
    requires t == "[{\"a\":1},{\"a\":2\n]"
    ensures RemoveTrailingCommas(t) == t
  {
    forall i | 0 <= i < |t| ensures !TrailingCommaAt(t, i) {
      if t[i] == ',' {
        assert i == 8 && SpaceRun(t, 9) == 0;
      }
    }
    NoTrailingCommaUnchanged(t);
  }

  /** The last `{` is never closed, so the text is cut there and `\n]` appended. */
  lemma TruncatedCut(t: string, fixed: string)
    requires t == "[{\"a\":1},{\"a\":2\n]" && fixed == "[{\"a\":1},\n]"
    ensures RepairTruncated(t) == fixed
  {
    TrimStartOfTrimmed(t);
    TrimEndOfTrimmed(t);
    assert t[1] == '{';
    assert t[|t| - 2..] != "}]" && t[|t| - 1..] != "}";
    assert LooksTruncated(t);
    assert LastIndexOfChar(t, '{') == 9 by {
      assert t[9] == '{' && forall k :: 9 < k < |t| ==> t[k] != '{';
    }
    assert forall k :: 9 <= k < |t| ==> t[k] != '}';
    var cut := t[..9];
    TrimStartOfTrimmed(cut);
    TrimEndOfTrimmed(cut);
    assert cut[|cut| - 1] == ',';
    assert !EndsWith(Trim(cut), "]");
    assert cut + "\n]" == fixed;
  }

  /** `parseAIResponse(text, context)`: every failure is rethrown with the context in front. */
  function ParseAIResponse(text: string, context: string, parse: string -> Result<JsonValue>): (r: Result<JsonValue>)
  {
    var prefix := "Invalid JSON in " + context + ": ";
    match Repaired(text)
    case Err(e) => Err(prefix + e)
    case Ok(c) =>
      match parse(c)
      case Err(e) => Err(prefix + e)
      case Ok(v) => Ok(v)
  }

  /** Every error names the context, and the only structural error is a missing `[`/`{`. */
  lemma ParseAIResponseErrors(text: string, context: string, parse: string -> Result<JsonValue>)
    ensures ParseAIResponse(text, context, parse).Err? ==>
      StartsWith(ParseAIResponse(text, context, parse).error, "Invalid JSON in " + context + ": ")
    ensures Repaired(text).Err? <==> ('[' !in Unfenced(text) && '{' !in Unfenced(text))
    ensures Repaired(text).Err? ==> Repaired(text).error == "No JSON structure found in response"
    ensures ParseAIResponse(text, context, parse).Ok? <==> (Repaired(text).Ok? && parse(Repaired(text).value).Ok?)
  {
    var cleaned := Unfenced(text);
    if JsonStart(cleaned).Some? {
      CandidateFound(cleaned, JsonStart(cleaned).value);
    }
    var prefix := "Invalid JSON in " + context + ": ";
    var r := ParseAIResponse(text, context, parse);
    if r.Err? {
      assert r.error[..|prefix|] == prefix;
    }
  }
}
