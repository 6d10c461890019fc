/** The frontend's search-highlighting helpers. A string argument may be
    missing (`null`/`undefined`, modelled as `None`); "falsy" means missing
    or empty. Case-insensitive matching folds ASCII letters only. The
    keyword is escaped before it becomes a regular expression, so it is
    matched literally. */
module Highlight {
  import opened Wrappers
  import opened Text
  import opened JsText

  /** A string argument that is neither missing nor empty. */
  predicate Truthy(s: Option<string>) {
    s.Some? && |s.value| > 0
  }

  // ---------------------------------------------------------------------------
  // Case-insensitive occurrences
  // ---------------------------------------------------------------------------

  /** `k` occurs in `t` at index `i`, ignoring case (the regex `i` flag,
      which compares upper-cased characters). */
  predicate MatchAt(t: string, k: string, i: int) {
    0 <= i && i + |k| <= |t| && forall j :: 0 <= j < |k| ==> UpperChar(t[i + j]) == UpperChar(k[j])
  }

  predicate HasMatch(t: string, k: string) {
    exists i :: 0 <= i <= |t| && MatchAt(t, k, i)
  }

  /** Folding to lower case and folding to upper case identify the same
      characters. */
  lemma FoldingAgrees(a: char, b: char)
    ensures LowerChar(a) == LowerChar(b) <==> UpperChar(a) == UpperChar(b)
  {
  }

  /** An occurrence in the lower-cased strings is a case-insensitive match
      in the originals. */
  lemma LowerOccursIffMatch(t: string, k: string, i: int)
    ensures OccursAt(ToLower(t), ToLower(k), i) <==> MatchAt(t, k, i)
  {
    if 0 <= i && i + |k| <= |t| {
      var lt, lk := ToLower(t)[i..i + |k|], ToLower(k);
      forall j | 0 <= j < |k|
        ensures lt[j] == lk[j] <==> UpperChar(t[i + j]) == UpperChar(k[j])
      {
        FoldingAgrees(t[i + j], k[j]);
      }
      if MatchAt(t, k, i) {
        assert lt == lk;
      }
    }
  }

  /** `text.toLowerCase().indexOf(keyword.toLowerCase())`: the first
      case-insensitive match, or -1. */
  function FirstMatch(t: string, k: string): (r: int)
    ensures r == -1 <==> !HasMatch(t, k)
    ensures r >= 0 ==> MatchAt(t, k, r) && forall j :: 0 <= j < r ==> !MatchAt(t, k, j)
  {
    var r := IndexOf(ToLower(t), ToLower(k));
    LowerOccursIffMatch(t, k, r);
    assert forall j :: 0 <= j < r ==> !MatchAt(t, k, j) by {
      forall j | 0 <= j < r ensures !MatchAt(t, k, j) {
        LowerOccursIffMatch(t, k, j);
      }
    }
    assert r == -1 ==> !HasMatch(t, k) by {
      if r == -1 {
        forall j | MatchAt(t, k, j) ensures false {
          LowerOccursIffMatch(t, k, j);
        }
      }
    }
    r
  }

  /** `containsKeyword(text, keyword)`. */
  function ContainsKeyword(text: Option<string>, keyword: Option<string>): (r: bool)
    ensures r <==> Truthy(text) && Truthy(keyword) && HasMatch(text.value, keyword.value)
  {
    Truthy(text) && Truthy(keyword) && FirstMatch(text.value, keyword.value) != -1
  }

  // ---------------------------------------------------------------------------
  // Tags
  // ---------------------------------------------------------------------------

  /** A string with no '<'. */
  predicate NoLt(s: string) {
    forall i :: 0 <= i < |s| ==> s[i] != '<'
  }

  /** A string with no '>'. */
  predicate NoGt(s: string) {
    forall i :: 0 <= i < |s| ==> s[i] != '>'
  }

  /** A single tag: '<', then anything but '>', then '>'. */
  predicate IsTag(s: string) {
    |s| >= 2 && s[0] == '<' && s[|s| - 1] == '>' && NoGt(s[..|s| - 1])
  }

  /** The markup placed around a match. */
  function OpenTag(className: string): string {
    "<span class=\"" + className + "\">"
  }

  const CloseTag: string := "</span>"

  /** Both tags are single tags when the class name holds no '>'. */
  lemma TagsAreTags(className: string)
    requires NoGt(className)
    ensures IsTag(OpenTag(className)) && IsTag(CloseTag)
  {
    var o := OpenTag(className);
    assert o[..|o| - 1] == "<span class=\"" + className + "\"";
  }

  /** No '<' anywhere is followed later by a '>': nothing the tag pattern
      `<[^>]*>` can match. */
  predicate NoTag(s: string) {
    forall i, j :: 0 <= i < j < |s| && s[i] == '<' ==> s[j] != '>'
  }

  /** The first '>' at or after `from`, or -1. */
  function NextGt(s: string, from: nat): (r: int)
    ensures r == -1 || (from <= r < |s| && s[r] == '>')
    ensures forall j :: from <= j < |s| && (r == -1 || j < r) ==> s[j] != '>'
    decreases |s| - from
  {
    if from >= |s| then -1
    else if s[from] == '>' then from
    else NextGt(s, from + 1)
  }

  /** `html.replace(/<[^>]*>/g, '')` on a string: scanning left to right,
      each '<' up to the next '>' is deleted; a '<' with no '>' after it is
      kept, together with the rest. */
  function StripTags(s: string): (r: string)
    decreases |s|
  {
    if |s| == 0 then ""
    else if s[0] != '<' then [s[0]] + StripTags(s[1..])
    else
      var j := NextGt(s, 1);
      if j < 0 then s else StripTags(s[j + 1..])
  }

  /** What remains holds no tag. */
  lemma {:induction false} StripLeavesNoTag(s: string)
    ensures NoTag(StripTags(s))
    decreases |s|
  {
    if |s| > 0 {
      if s[0] != '<' {
        StripLeavesNoTag(s[1..]);
        var r := StripTags(s);
        assert r[1..] == StripTags(s[1..]);
      } else {
        var j := NextGt(s, 1);
        if j >= 0 {
          StripLeavesNoTag(s[j + 1..]);
        }
      }
    }
  }

  /** A string holding no tag is left as it is; so stripping twice is
      stripping once. */
  lemma {:induction false} StripWithoutTags(s: string)
    requires NoTag(s)
    ensures StripTags(s) == s
    decreases |s|
  {
    if |s| > 0 {
      if s[0] != '<' {
        assert NoTag(s[1..]) by {
          forall i, j | 0 <= i < j < |s| - 1 && s[1..][i] == '<' ensures s[1..][j] != '>' {
            assert s[i + 1] == '<';
          }
        }
        StripWithoutTags(s[1..]);
      } else {
        assert NextGt(s, 1) == -1;
      }
    }
  }

  lemma StripIdempotent(s: string)
    ensures StripTags(StripTags(s)) == StripTags(s)
  {
    StripLeavesNoTag(s);
    StripWithoutTags(StripTags(s));
  }

  /** Text without '<' passes through. */
  lemma {:induction false} StripPlain(p: string, rest: string)
    requires NoLt(p)
    ensures StripTags(p + rest) == p + StripTags(rest)
    decreases |p|
  {
    if |p| > 0 {
      var s := p + rest;
      assert s[0] == p[0] && s[1..] == p[1..] + rest;
      StripPlain(p[1..], rest);
      assert [p[0]] + p[1..] == p;
    } else {
      assert p + rest == rest;
    }
  }

  /** A leading tag disappears. */
  lemma StripTag(tag: string, rest: string)
    requires IsTag(tag)
    ensures StripTags(tag + rest) == StripTags(rest)
  {
    var s := tag + rest;
    assert s[|tag| - 1] == '>';
    forall j | 1 <= j < |tag| - 1 ensures s[j] != '>' {
      assert s[j] == tag[..|tag| - 1][j];
    }
    assert NextGt(s, 1) == |tag| - 1;
    assert s[|tag|..] == rest;
  }

  /** `stripHtmlTags(html)`. */
  function StripHtmlTags(html: Option<string>): (r: string)
    ensures !Truthy(html) ==> r == ""
    ensures NoTag(r)
    ensures html.Some? && NoTag(html.value) ==> r == html.value
  {
    if !Truthy(html) then ""
    else
      StripLeavesNoTag(html.value);
      if NoTag(html.value) then StripWithoutTags(html.value); StripTags(html.value)
      else StripTags(html.value)
  }

  // ---------------------------------------------------------------------------
  // Highlighting one keyword
  // ---------------------------------------------------------------------------

  /** `text.replace(/(keyword)/gi, open + '$1' + close)`: scanning left to
      right, each case-insensitive match is wrapped, with its original
      casing, and the scan resumes after it. */
  function Mark(t: string, k: string, open: string): string
    requires |k| > 0
    decreases |t|
  {
    if |t| < |k| then t
    else if MatchAt(t, k, 0) then open + t[..|k|] + CloseTag + Mark(t[|k|..], k, open)
    else [t[0]] + Mark(t[1..], k, open)
  }

  /** A wrapped match strips down to the match. */
  lemma StripWrapped(open: string, w: string, rest: string)
    requires IsTag(open) && NoLt(w)
    ensures StripTags(open + w + CloseTag + rest) == w + StripTags(rest)
  {
    TagsAreTags("");
    assert open + w + CloseTag + rest == open + (w + (CloseTag + rest));
    StripTag(open, w + (CloseTag + rest));
    StripPlain(w, CloseTag + rest);
    StripTag(CloseTag, rest);
  }

  /** Stripping the markup gives back the text, when the text has no '<'
      of its own and the opening markup is a single tag. */
  lemma {:induction false} MarkStrip(t: string, k: string, open: string)
    requires |k| > 0 && NoLt(t) && IsTag(open)
    ensures StripTags(Mark(t, k, open)) == t
    decreases |t|
  {
    if |t| < |k| {
      StripPlain(t, "");
      assert t + "" == t;
    } else if MatchAt(t, k, 0) {
      NoLtSlices(t, |k|);
      MarkStrip(t[|k|..], k, open);
      StripWrappedStep(t, |k|, open, Mark(t[|k|..], k, open));
    } else {
      NoLtSlices(t, 1);
      MarkStrip(t[1..], k, open);
      StripPlainStep(t, Mark(t[1..], k, open));
    }
  }

  /** A match not at the front is a match in the tail. */
  lemma MatchInTail(t: string, k: string, i: int)
    requires MatchAt(t, k, i) && i > 0
    ensures MatchAt(t[1..], k, i - 1)
  {
  }

  /** Without a match the text is unchanged; with one it grows. */
  lemma {:induction false} MarkChangesIffMatch(t: string, k: string, open: string)
    requires |k| > 0
    ensures |Mark(t, k, open)| >= |t|
    ensures !HasMatch(t, k) ==> Mark(t, k, open) == t
    ensures HasMatch(t, k) ==> |Mark(t, k, open)| > |t|
    decreases |t|
  {
    if |t| >= |k| {
      if MatchAt(t, k, 0) {
        MarkChangesIffMatch(t[|k|..], k, open);
      } else {
        MarkChangesIffMatch(t[1..], k, open);
        if HasMatch(t, k) {
          var i :| MatchAt(t, k, i);
          assert i != 0;
          MatchInTail(t, k, i);
        } else {
          assert !HasMatch(t[1..], k) by {
            forall i | MatchAt(t[1..], k, i) ensures MatchAt(t, k, i + 1) {
            }
          }
          assert [t[0]] + t[1..] == t;
        }
      }
    } else {
      assert !HasMatch(t, k);
    }
  }

  /** `highlightText(text, keyword, className)`. */
  function HighlightText(text: Option<string>, keyword: Option<string>, className: string): (r: Option<string>)
    ensures !Truthy(text) || !Truthy(keyword) ==> r == text
    ensures r.Some? <==> text.Some?
    ensures Truthy(keyword) ==> (r == text <==> !ContainsKeyword(text, keyword))
    ensures text.Some? && NoLt(text.value) && NoGt(className) ==> StripTags(r.value) == text.value
  {
    if !Truthy(text) || !Truthy(keyword) then
      assert text.Some? && NoLt(text.value) ==> StripTags(text.value) == text.value by {
        if text.Some? && NoLt(text.value) {
          StripPlain(text.value, "");
          assert text.value + "" == text.value;
        }
      }
      text
    else
      var open := OpenTag(className);
      MarkChangesIffMatch(text.value, keyword.value, open);
      if NoLt(text.value) && NoGt(className) then
        TagsAreTags(className);
        MarkStrip(text.value, keyword.value, open);
        Some(Mark(text.value, keyword.value, open))
      else
        Some(Mark(text.value, keyword.value, open))
  }

  /** The worked example of the highlighting tests: every occurrence is
      wrapped, whatever its case. */
  lemma HighlightExample()
    ensures Mark("Tt", "t", "<b>") == "<b>T</span><b>t</span>"
  {
    assert MatchAt("Tt", "t", 0);
    assert "Tt"[1..] == "t";
    assert "t"[1..] == "";
  }

  // ---------------------------------------------------------------------------
  // Snippets and truncation
  // ---------------------------------------------------------------------------

  function Min(a: int, b: int): int {
    if a <= b then a else b
  }

  function Max(a: int, b: int): int {
    if a >= b then a else b
  }

  /** JavaScript's `s.substring(a, b)`: both ends are clamped to the string
      and swapped when out of order. */
  function Substring(s: string, a: int, b: int): (r: string)
    ensures 0 <= a <= b <= |s| ==> r == s[a..b]
    ensures |r| <= |s|
  {
    var lo := Max(0, Min(|s|, Min(a, b)));
    var hi := Max(0, Min(|s|, Max(a, b)));
    s[lo..hi]
  }

  /** The marker for a cut side. */
  function Ellipsis(cut: bool): string {
    if cut then "..." else ""
  }

  /** The window of `width` characters at `i` with up to `c` characters of
      context on each side, marked with "..." on each side that was cut. */
  function SnippetAround(t: string, i: int, width: int, c: int): (r: string)
    requires 0 <= i && 0 <= width && i + width <= |t|
    ensures c >= 0 ==>
      var start, end := Max(0, i - c), Min(|t|, i + width + c);
      0 <= start <= i && i + width <= end <= |t| &&
      r == Ellipsis(start > 0) + t[start..end] + Ellipsis(end < |t|)
  {
    var start := Max(0, i - c);
    var end := Min(|t|, i + width + c);
    var snippet := Substring(t, start, end);
    var front := if start > 0 then "..." + snippet else snippet;
    if end < |t| then front + "..." else front
  }

  /** Cutting a window adds no '<'. */
  lemma SnippetAroundPlain(t: string, i: int, width: int, c: int)
    requires 0 <= i && 0 <= width && i + width <= |t|
    ensures NoLt(t) ==> NoLt(SnippetAround(t, i, width, c))
  {
  }

  /** `extractSnippet(text, keyword, contextLength)`: the first match with
      its context. */
  function ExtractSnippet(text: Option<string>, keyword: Option<string>, contextLength: int): (r: Option<string>)
    ensures !ContainsKeyword(text, keyword) ==> r == text
    ensures r.Some? <==> text.Some?
    ensures ContainsKeyword(text, keyword) ==>
      r == Some(SnippetAround(text.value, FirstMatch(text.value, keyword.value), |keyword.value|, contextLength))
    ensures text.Some? && NoLt(text.value) ==> NoLt(r.value)
  {
    if !Truthy(text) || !Truthy(keyword) then text
    else
      var index := FirstMatch(text.value, keyword.value);
      if index == -1 then text
      else
        SnippetAroundPlain(text.value, index, |keyword.value|, contextLength);
        Some(SnippetAround(text.value, index, |keyword.value|, contextLength))
  }

  /** A snippet keeps the match it was cut around, is at most the keyword
      plus twice the context plus the two markers long, and is the whole
      text when the context reaches both ends. */
  lemma SnippetFacts(t: string, k: string, contextLength: int)
    requires |t| > 0 && |k| > 0 && HasMatch(t, k) && contextLength >= 0
    ensures var r := ExtractSnippet(Some(t), Some(k), contextLength).value;
      HasMatch(r, k) && |r| <= |k| + 2 * contextLength + 6
    ensures contextLength >= |t| ==> ExtractSnippet(Some(t), Some(k), contextLength) == Some(t)
  {
    var i := FirstMatch(t, k);
    SnippetKeepsMatch(t, k, i, contextLength);
    if contextLength >= |t| {
      assert t[0..|t|] == t;
    }
  }

  /** The window around a match holds that match. */
  lemma SnippetKeepsMatch(t: string, k: string, i: int, c: int)
    requires MatchAt(t, k, i) && c >= 0
    ensures MatchAt(SnippetAround(t, i, |k|, c), k, |Ellipsis(i - c > 0)| + (i - Max(0, i - c)))
  {
    var start, end := Max(0, i - c), Min(|t|, i + |k| + c);
    MatchInSlice(t, k, i, start, end);
    MatchInMiddle(Ellipsis(start > 0), t[start..end], Ellipsis(end < |t|), k, i - start);
  }

  /** A match inside a slice is a match in the slice. */
  lemma MatchInSlice(t: string, k: string, i: int, start: int, end: int)
    requires MatchAt(t, k, i) && 0 <= start <= i && i + |k| <= end <= |t|
    ensures MatchAt(t[start..end], k, i - start)
  {
    var m := t[start..end];
    forall x | 0 <= x < |k| ensures UpperChar(m[i - start + x]) == UpperChar(k[x]) {
      assert m[i - start + x] == t[i + x];
    }
  }

  /** A match inside the middle of three pieces is a match in the whole. */
  lemma MatchInMiddle(a: string, m: string, b: string, k: string, i: int)
    requires MatchAt(m, k, i)
    ensures MatchAt(a + m + b, k, |a| + i)
  {
    var r := a + m + b;
    forall x | 0 <= x < |k| ensures UpperChar(r[|a| + i + x]) == UpperChar(k[x]) {
      assert r[|a| + i + x] == m[i + x];
    }
  }

  /** The first `maxLength` characters and "..." when the text is longer. */
  function Truncate(t: string, maxLength: int): (r: string)
    ensures |t| <= maxLength ==> r == t
    ensures 0 <= maxLength < |t| ==> r == t[..maxLength] + "..."
  {
    if |t| > maxLength then Substring(t, 0, maxLength) + "..." else t
  }

  /** `highlightAndTruncate(text, keyword, maxLength, className)`. */
  function HighlightAndTruncate(text: Option<string>, keyword: Option<string>, maxLength: int, className: string): (r: string)
    ensures !Truthy(text) ==> r == ""
    ensures Truthy(text) && !Truthy(keyword) ==> r == Truncate(text.value, maxLength)
    ensures Truthy(text) && NoLt(text.value) && NoGt(className) ==>
      StripTags(r) == (if ContainsKeyword(text, keyword) then ExtractSnippet(text, keyword, maxLength / 2).value
                       else Truncate(text.value, maxLength))
  {
    if !Truthy(text) then ""
    else if !Truthy(keyword) then
      PlainTruncate(text.value, maxLength);
      Truncate(text.value, maxLength)
    else if ContainsKeyword(text, keyword) then
      HighlightText(ExtractSnippet(text, keyword, maxLength / 2), keyword, className).value
    else
      PlainTruncate(text.value, maxLength);
      HighlightText(Some(Truncate(text.value, maxLength)), keyword, className).value
  }

  /** Truncating adds no '<', so a plain text stays plain. */
  lemma PlainTruncate(t: string, maxLength: int)
    ensures NoLt(t) ==> NoLt(Truncate(t, maxLength)) && StripTags(Truncate(t, maxLength)) == Truncate(t, maxLength)
  {
    if NoLt(t) {
      StripPlain(Truncate(t, maxLength), "");
      assert Truncate(t, maxLength) + "" == Truncate(t, maxLength);
    }
  }

  /** Without the markup, what `highlightAndTruncate` shows is at most the
      keyword, the two halves of `maxLength` and two markers long. */
  lemma HighlightAndTruncateLength(t: string, keyword: Option<string>, maxLength: int, className: string)
    requires |t| > 0 && NoLt(t) && NoGt(className) && maxLength >= 0
    ensures var shown := StripTags(HighlightAndTruncate(Some(t), keyword, maxLength, className));
      ContainsKeyword(Some(t), keyword) ==> |shown| <= |keyword.value| + maxLength + 6
    ensures var shown := StripTags(HighlightAndTruncate(Some(t), keyword, maxLength, className));
      !ContainsKeyword(Some(t), keyword) ==> |shown| <= maxLength + 3
  {
    if ContainsKeyword(Some(t), keyword) {
      SnippetFacts(t, keyword.value, maxLength / 2);
    }
  }

  // ---------------------------------------------------------------------------
  // Several keywords
  // ---------------------------------------------------------------------------

  predicate NoSpace(s: string) {
    forall i :: 0 <= i < |s| ==> !IsJsSpace(s[i])
  }

  function TrimEnd(s: string): (r: string)
    ensures |r| <= |s| && r == s[..|r|]
    ensures |r| > 0 ==> !IsJsSpace(r[|r| - 1])
    decreases |s|
  {
    if |s| > 0 && IsJsSpace(s[|s| - 1]) then TrimEnd(s[..|s| - 1]) else s
  }

  /** `s.trim()`. */
  function Trim(s: string): (r: string)
    ensures |r| > 0 ==> !IsJsSpace(r[0]) && !IsJsSpace(r[|r| - 1])
    ensures NoSpace(s) ==> r == s
  {
    TrimEnd(TrimStart(s))
  }

  lemma {:induction false} TrimStartAllSpace(s: string)
    requires forall i :: 0 <= i < |s| ==> IsJsSpace(s[i])
    ensures TrimStart(s) == ""
    decreases |s|
  {
    if |s| > 0 {
      TrimStartAllSpace(s[1..]);
    }
  }

  /** The first white-space index at or after `from`, or `|s|`. */
  function NextSpace(s: string, from: nat): (r: nat)
    requires from <= |s|
    ensures from <= r <= |s| && (r < |s| ==> IsJsSpace(s[r]))
    ensures forall j :: from <= j < r ==> !IsJsSpace(s[j])
    decreases |s| - from
  {
    if from == |s| || IsJsSpace(s[from]) then from else NextSpace(s, from + 1)
  }

  /** The end of the white-space run starting at `from`. */
  function RunEnd(s: string, from: nat): (r: nat)
    requires from <= |s|
    ensures from <= r <= |s| && (r < |s| ==> !IsJsSpace(s[r]))
    decreases |s| - from
  {
    if from == |s| || !IsJsSpace(s[from]) then from else RunEnd(s, from + 1)
  }

  /** `s.split(/\s+/)`: the pieces between white-space runs, with an empty
      piece before a leading run and after a trailing one. */
  function SplitOnSpace(s: string): (r: seq<string>)
    ensures |r| >= 1
    ensures forall i :: 0 <= i < |r| ==> NoSpace(r[i])
    decreases |s|
  {
    var i := NextSpace(s, 0);
    if i == |s| then [s] else [s[..i]] + SplitOnSpace(s[RunEnd(s, i)..])
  }

  /** `.filter(word => word.length > 0)`. */
  function NonEmpty(ws: seq<string>): (r: seq<string>)
    ensures forall i :: 0 <= i < |r| ==> |r[i]| > 0 && r[i] in ws
    decreases |ws|
  {
    if |ws| == 0 then [] else (if |ws[0]| > 0 then [ws[0]] else []) + NonEmpty(ws[1..])
  }

  /** The keywords of a query: `query.trim().split(/\s+/).filter(...)`. */
  function Words(query: string): (r: seq<string>)
    ensures forall i :: 0 <= i < |r| ==> |r[i]| > 0 && NoSpace(r[i])
  {
    NonEmpty(SplitOnSpace(Trim(query)))
  }

  /** A blank query has no keywords. */
  lemma WordsOfBlank(query: string)
    requires forall i :: 0 <= i < |query| ==> IsJsSpace(query[i])
    ensures Words(query) == []
  {
    TrimStartAllSpace(query);
    assert Trim(query) == "";
    assert NextSpace("", 0) == 0;
    assert SplitOnSpace("") == [""];
    assert [""][1..] == [];
  }

  /** A query without white space is its own single keyword. */
  lemma WordsOfWord(query: string)
    requires |query| > 0 && NoSpace(query)
    ensures Words(query) == [query]
  {
    SplitWord(query);
    NonEmptyWord(query);
  }

  /** Splitting text without white space gives the text alone. */
  lemma SplitWord(w: string)
    requires NoSpace(w)
    ensures SplitOnSpace(w) == [w]
  {
    assert NextSpace(w, 0) == |w|;
  }

  /** A non-empty word survives the filter. */
  lemma NonEmptyWord(w: string)
    requires |w| > 0
    ensures NonEmpty([w]) == [w]
  {
    assert [w][1..] == [];
    assert NonEmpty([w]) == [w] + NonEmpty([]);
  }

  /** Highlighting each keyword in turn, as `highlightMultipleKeywords`
      does: each trimmed, non-blank keyword is applied to the result of the
      previous ones. */
  function MarkEach(t: string, keywords: seq<string>, open: string): string
    decreases |keywords|
  {
    if |keywords| == 0 then t
    else
      var w := Trim(keywords[0]);
      MarkEach(if |w| > 0 then Mark(t, w, open) else t, keywords[1..], open)
  }

  /** `highlightMultipleKeywords(text, keywords, className)`. */
  function HighlightMultipleKeywords(text: Option<string>, keywords: seq<string>, className: string): (r: Option<string>)
    ensures !Truthy(text) || |keywords| == 0 ==> r == text
    ensures r.Some? <==> text.Some?
  {
    if !Truthy(text) || |keywords| == 0 then text
    else Some(MarkEach(text.value, keywords, OpenTag(className)))
  }

  /** With one keyword it is `highlightText` with that keyword trimmed. */
  lemma MultipleWithOneKeyword(text: Option<string>, keyword: string, className: string)
    ensures HighlightMultipleKeywords(text, [keyword], className) == HighlightText(text, Some(Trim(keyword)), className)
  {
    if Truthy(text) {
      var w, open := Trim(keyword), OpenTag(className);
      var x := if |w| > 0 then Mark(text.value, w, open) else text.value;
      assert [keyword][1..] == [];
      assert MarkEach(text.value, [keyword], open) == MarkEach(x, [], open) == x;
    }
  }

  /** `smartHighlight(text, query, className)`. */
  function SmartHighlight(text: Option<string>, query: Option<string>, className: string): (r: Option<string>)
    ensures !Truthy(text) || !Truthy(query) || |Words(query.value)| == 0 ==> r == text
    ensures Truthy(query) && Words(query.value) == [query.value] ==> r == HighlightText(text, query, className)
  {
    if !Truthy(text) || !Truthy(query) then text
    else
      var keywords := Words(query.value);
      if |keywords| == 0 then text
      else if keywords == [query.value] then
        MultipleWithOneKeyword(text, query.value, className);
        HighlightMultipleKeywords(text, keywords, className)
      else HighlightMultipleKeywords(text, keywords, className)
  }

  /** Text with no match before `rest` is copied as it is. */
  lemma {:induction false} MarkSkip(p: string, rest: string, k: string, open: string)
    requires |k| > 0
    requires forall i :: 0 <= i < |p| ==> !MatchAt(p + rest, k, i)
    ensures Mark(p + rest, k, open) == p + Mark(rest, k, open)
    decreases |p|
  {
    var s := p + rest;
    if |p| == 0 {
      assert s == rest;
    } else if |s| < |k| {
      assert Mark(rest, k, open) == rest;
    } else {
      assert !MatchAt(s, k, 0);
      assert Mark(s, k, open) == [s[0]] + Mark(s[1..], k, open);
      assert s[1..] == p[1..] + rest;
      forall i | 0 <= i < |p| - 1 ensures !MatchAt(p[1..] + rest, k, i) {
        assert !MatchAt(s, k, i + 1);
      }
      MarkSkip(p[1..], rest, k, open);
      assert [p[0]] + p[1..] == p;
    }
  }

  /** A match at the front is wrapped. */
  lemma MarkFront(w: string, rest: string, k: string, open: string)
    requires |k| > 0 && |w| == |k| && MatchAt(w, k, 0)
    ensures Mark(w + rest, k, open) == open + w + CloseTag + Mark(rest, k, open)
  {
    var s := w + rest;
    assert MatchAt(s, k, 0);
    assert s[..|k|] == w && s[|k|..] == rest;
  }

  /** `p` holds no 'x' and no 'X'. */
  predicate NoXs(p: string) {
    forall i :: 0 <= i < |p| ==> p[i] != 'x' && p[i] != 'X'
  }

  /** No 'x' or 'X' in `p`, so "x" is never matched in it. */
  lemma NoX(p: string, rest: string)
    requires NoXs(p)
    ensures forall i :: 0 <= i < |p| ==> !MatchAt(p + rest, "x", i)
  {
    forall i | 0 <= i < |p| ensures !MatchAt(p + rest, "x", i) {
      assert (p + rest)[i] == p[i];
      assert "x"[0] == 'x';
    }
  }

  /** The query "x x" has the keywords "x" and "x". */
  lemma WordsXX()
    ensures Words("x x") == ["x", "x"]
  {
    var q := "x x";
    assert TrimStart(q) == q && TrimEnd(q) == q;
    assert NextSpace(q, 0) == 1 by {
      assert NextSpace(q, 1) == 1;
    }
    assert RunEnd(q, 1) == 2 by {
      assert RunEnd(q, 2) == 2;
    }
    assert q[2..] == "x" && q[..1] == "x";
    WordsOfWord("x");
    assert SplitOnSpace("x") == ["x"];
    assert SplitOnSpace(q) == ["x", "x"];
    assert NonEmpty(["x"]) == ["x"] by {
      assert ["x"][1..] == [];
    }
    assert ["x", "x"][1..] == ["x"];
  }

  /** The opening markup with class "x" splits as `p + "x" + q`. */
  const OpenX: string := "<span class=\"x\">"
  const BeforeX: string := "<span class=\""
  const AfterX: string := "\">"

  lemma OpenXParts()
    ensures OpenTag("x") == OpenX == BeforeX + "x" + AfterX
    ensures NoXs(BeforeX) && NoXs(AfterX) && NoXs(CloseTag)
    ensures IsTag(BeforeX + OpenX) && IsTag(CloseTag) && NoLt(AfterX) && NoLt("x")
  {
    TagsAreTags("");
    assert (BeforeX + OpenX)[..|BeforeX + OpenX| - 1] == BeforeX + OpenX[..|OpenX| - 1];
  }

  /** Marking "x" leaves text without 'x' or 'X' unchanged. */
  lemma MarkNoX(p: string, rest: string, open: string)
    requires NoXs(p)
    ensures Mark(p + rest, "x", open) == p + Mark(rest, "x", open)
  {
    NoX(p, rest);
    MarkSkip(p, rest, "x", open);
  }

  /** Marking "x" wraps a leading 'x'. */
  lemma MarkLeadingX(rest: string, open: string)
    ensures Mark("x" + rest, "x", open) == open + "x" + CloseTag + Mark(rest, "x", open)
  {
    assert MatchAt("x", "x", 0);
    MarkFront("x", rest, "x", open);
  }

  /** The tail of the second pass: `after + "x" + CloseTag`. */
  lemma SecondPassTail(after: string, open: string)
    requires NoXs(after) && NoXs(CloseTag)
    ensures Mark(after + ("x" + CloseTag), "x", open) == after + (open + "x" + CloseTag + CloseTag)
  {
    var c := CloseTag;
    MarkNoX(c, "", open);
    assert c + "" == c;
    assert Mark("", "x", open) == "";
    MarkLeadingX(c, open);
    MarkNoX(after, "x" + c, open);
  }

  /** The second pass over `open + "x" + CloseTag`, where `open` is
      `before + "x" + after`, also wraps the 'x' inside `open`. */
  lemma SecondPass(before: string, after: string, open: string)
    requires open == before + "x" + after
    requires NoXs(before) && NoXs(after) && NoXs(CloseTag)
    ensures Mark(open + "x" + CloseTag, "x", open)
         == before + (open + "x" + CloseTag + (after + (open + "x" + CloseTag + CloseTag)))
  {
    var s2 := after + ("x" + CloseTag);
    SecondPassTail(after, open);
    MarkLeadingX(s2, open);
    MarkNoX(before, "x" + s2, open);
    assert open + "x" + CloseTag == before + ("x" + s2);
  }

  /** `smartHighlight` with the query "x x" applies "x" twice. */
  lemma SmartHighlightXX(text: Option<string>, className: string)
    ensures SmartHighlight(text, Some("x x"), className) == HighlightMultipleKeywords(text, ["x", "x"], className)
  {
    WordsXX();
  }

  /** Highlighting "x" and then "x" again in the text "x" with the class
      name "x". */
  lemma MarkEachXX()
    ensures MarkEach("x", ["x", "x"], OpenTag("x"))
         == BeforeX + (OpenX + "x" + CloseTag + (AfterX + (OpenX + "x" + CloseTag + CloseTag)))
  {
    OpenXParts();
    assert Trim("x") == "x";
    assert MatchAt("x", "x", 0);
    MarkFront("x", "", "x", OpenX);
    assert "x" + "" == "x";
    assert Mark("x", "x", OpenX) == OpenX + "x" + CloseTag;
    SecondPass(BeforeX, AfterX, OpenX);
    assert ["x", "x"][1..] == ["x"];
    assert ["x"][1..] == [];
  }

  /** Applying the keywords one after another lets a later keyword match
      inside the markup an earlier one inserted: with the class name "x",
      the keywords "x" and "x" (the query "x x") on the text "x" (no '<',
      no '>') also highlight the 'x' of the class attribute, and the markup
      no longer strips back to the text: it strips to `x">x`. */
  lemma SequentialMarkingBreaksMarkup()
    ensures StripTags(HighlightMultipleKeywords(Some("x"), ["x", "x"], "x").value) != "x"
    ensures NoLt("x") && NoGt("x")
  {
    MarkEachXX();
    StripXX();
    PlainX();
  }

  lemma PlainX()
    ensures NoLt("x") && NoGt("x")
  {
    assert "x"[0] == 'x';
  }

  /** The output for "x" and "x x" strips to at least two characters. */
  lemma StripXX()
    ensures |StripTags(BeforeX + (OpenX + "x" + CloseTag + (AfterX + (OpenX + "x" + CloseTag + CloseTag))))| >= 2
  {
    OpenXParts();
    StripSecondPass(BeforeX, AfterX, OpenX, OpenX + "x" + CloseTag + CloseTag);
  }

  /** Stripping the second pass's output keeps the attribute's tail. */
  lemma StripSecondPass(before: string, after: string, open: string, tail: string)
    requires IsTag(before + open) && IsTag(CloseTag) && NoLt(after) && |after| > 0
    ensures |StripTags(before + (open + "x" + CloseTag + (after + tail)))| >= 2
  {
    var r := before + (open + "x" + CloseTag + (after + tail));
    assert r == (before + open) + ("x" + (CloseTag + (after + tail)));
    StripTag(before + open, "x" + (CloseTag + (after + tail)));
    StripPlain("x", CloseTag + (after + tail));
    StripTag(CloseTag, after + tail);
    StripPlain(after, tail);
  }

  // ---------------------------------------------------------------------------
  // One pass over the text
  // ---------------------------------------------------------------------------

  /** The first keyword, in list order, that matches at the front of `t`. */
  function FrontMatch(t: string, keywords: seq<string>): (r: Option<string>)
    ensures r.Some? ==> r.value in keywords && 0 < |r.value| && MatchAt(t, r.value, 0)
    decreases |keywords|
  {
    if |keywords| == 0 then None
    else
      var w := keywords[0];
      if 0 < |w| && MatchAt(t, w, 0) then Some(w)
      else FrontMatch(t, keywords[1..])
  }

  /** The length of the front match, 0 when there is none. */
  function FrontMatchLength(t: string, keywords: seq<string>): (n: nat)
    ensures n <= |t|
  {
    var m := FrontMatch(t, keywords);
    if m.Some? then |m.value| else 0
  }

  /** Highlighting all keywords in a single scan of the original text, so
      no keyword is ever looked for inside inserted markup. */
  function MarkAny(t: string, keywords: seq<string>, open: string): string
    decreases |t|
  {
    if |t| == 0 then ""
    else
      var n := FrontMatchLength(t, keywords);
      if n > 0 then open + t[..n] + CloseTag + MarkAny(t[n..], keywords, open)
      else [t[0]] + MarkAny(t[1..], keywords, open)
  }

  /** The single scan always strips back to the text. */
  lemma {:induction false} MarkAnyStrip(t: string, keywords: seq<string>, open: string)
    requires NoLt(t) && IsTag(open)
    ensures StripTags(MarkAny(t, keywords, open)) == t
    decreases |t|
  {
    if |t| > 0 {
      var n := FrontMatchLength(t, keywords);
      if n > 0 {
        NoLtSlices(t, n);
        MarkAnyStrip(t[n..], keywords, open);
        StripWrappedStep(t, n, open, MarkAny(t[n..], keywords, open));
      } else {
        NoLtSlices(t, 1);
        MarkAnyStrip(t[1..], keywords, open);
        StripPlainStep(t, MarkAny(t[1..], keywords, open));
      }
    }
  }

  /** The first `n` characters wrapped, followed by markup that strips to
      the rest, strip to the whole text. */
  lemma StripWrappedStep(t: string, n: int, open: string, m: string)
    requires NoLt(t) && IsTag(open) && 0 < n <= |t| && StripTags(m) == t[n..]
    ensures StripTags(open + t[..n] + CloseTag + m) == t
  {
    NoLtSlices(t, n);
    StripWrapped(open, t[..n], m);
    assert t[..n] + t[n..] == t;
  }

  /** The first character followed by markup that strips to the rest
      strips to the whole text. */
  lemma StripPlainStep(t: string, m: string)
    requires NoLt(t) && 0 < |t| && StripTags(m) == t[1..]
    ensures StripTags([t[0]] + m) == t
  {
    StripPlain([t[0]], m);
    assert [t[0]] + t[1..] == t;
  }

  /** Both parts of a text without '<' have none. */
  lemma NoLtSlices(t: string, n: int)
    requires NoLt(t) && 0 <= n <= |t|
    ensures NoLt(t[..n]) && NoLt(t[n..])
  {
    assert forall i :: 0 <= i < |t| - n ==> t[n..][i] == t[n + i];
  }

  /** With one keyword the single scan is `highlightText`'s scan. */
  lemma {:induction false} MarkAnySingle(t: string, k: string, open: string)
    requires |k| > 0
    ensures MarkAny(t, [k], open) == Mark(t, k, open)
    decreases |t|
  {
    if |t| > 0 {
      assert [k][1..] == [];
      if MatchAt(t, k, 0) {
        assert FrontMatchLength(t, [k]) == |k|;
        MarkAnySingle(t[|k|..], k, open);
      } else {
        assert FrontMatchLength(t, [k]) == 0;
        MarkAnySingle(t[1..], k, open);
        if |t| < |k| {
          assert Mark(t[1..], k, open) == t[1..];
          assert [t[0]] + t[1..] == t;
        }
      }
    }
  }

  /** The one-scan highlighting strips back to any text without '<'. */
  lemma OneScanStrip(t: string, keywords: seq<string>, className: string)
    ensures NoLt(t) && NoGt(className) ==> StripTags(MarkAny(t, keywords, OpenTag(className))) == t
  {
    if NoLt(t) && NoGt(className) {
      TagsAreTags(className);
      MarkAnyStrip(t, keywords, OpenTag(className));
    }
  }

  /** A text without '<' strips to itself. */
  lemma PlainStrip(t: string)
    ensures NoLt(t) ==> StripTags(t) == t
  {
    if NoLt(t) {
      StripPlain(t, "");
      assert t + "" == t;
    }
  }

  /** `smartHighlight` with the keywords applied in one scan. */
  function SmartHighlightOnePass(text: Option<string>, query: Option<string>, className: string): (r: Option<string>)
    ensures !Truthy(text) || !Truthy(query) || |Words(query.value)| == 0 ==> r == text
    ensures r.Some? <==> text.Some?
    ensures text.Some? && NoLt(text.value) && NoGt(className) ==> StripTags(r.value) == text.value
    ensures Truthy(query) && Words(query.value) == [query.value] ==> r == SmartHighlight(text, query, className)
  {
    if !Truthy(text) || !Truthy(query) || |Words(query.value)| == 0 then
      if text.Some? then PlainStrip(text.value); text else text
    else
      var open := OpenTag(className);
      var keywords := Words(query.value);
      OneScanStrip(text.value, keywords, className);
      if keywords == [query.value] then
        MarkAnySingle(text.value, query.value, open);
        Some(MarkAny(text.value, keywords, open))
      else
        Some(MarkAny(text.value, keywords, open))
  }
}
