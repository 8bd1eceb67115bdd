/**
 * The text assembly of ocr_utils.py's `extract_text`: the recognised line
 * strings of the first page, joined with newlines, then rewritten by the
 * ordered corrections table, one `str.replace` per entry.
 *
 * The PaddleOCR model and its inference are not modelled; the recognised
 * lines of the page are the input.
 */
module OcrText {

  /** One recognised line of a page: its box and its (text, score) pair. */
  datatype Detection = Detection(box: seq<(real, real)>, text: string, score: real)

  /** `[line[1][0] for line in page]`: the line strings in OCR order. */
  function LineTexts(page: seq<Detection>): (lines: seq<string>)
    ensures |lines| == |page|
    ensures forall i :: 0 <= i < |page| ==> lines[i] == page[i].text
  {
    seq(|page|, i requires 0 <= i < |page| => page[i].text)
  }

  /** `"\n".join(lines)`. */
  function JoinLines(lines: seq<string>): string {
    if lines == [] then ""
    else if |lines| == 1 then lines[0]
    else lines[0] + "\n" + JoinLines(lines[1..])
  }

  /** `s.split("\n")`: the pieces between newlines, at least one. */
  function SplitLines(s: string): (r: seq<string>)
    ensures |r| >= 1
  {
    if s == [] then [""]
    else if s[0] == '\n' then [""] + SplitLines(s[1..])
    else
      var rest := SplitLines(s[1..]);
      [[s[0]] + rest[0]] + rest[1..]
  }

  /** The number of newlines in `s`. */
  function NewlineCount(s: string): nat {
    if s == [] then 0 else (if s[0] == '\n' then 1 else 0) + NewlineCount(s[1..])
  }

  predicate NoNewline(s: string) {
    forall i :: 0 <= i < |s| ==> s[i] != '\n'
  }

  /** A piece without newlines splits to itself. */
  lemma {:induction false} SplitPlain(a: string)
    requires NoNewline(a)
    ensures SplitLines(a) == [a]
    decreases |a|
  {
    if a != [] {
      SplitPlain(a[1..]);
      assert [a[0]] + a[1..] == a;
    }
  }

  /** Splitting `a + "\n" + b` peels off `a` when `a` has no newline. */
  lemma {:induction false} SplitAfterLine(a: string, b: string)
    requires NoNewline(a)
    ensures SplitLines(a + "\n" + b) == [a] + SplitLines(b)
    decreases |a|
  {
    var s := a + "\n" + b;
    if a == [] {
      assert s == "\n" + b;
      assert s[1..] == b;
    } else {
      assert s[1..] == a[1..] + "\n" + b;
      SplitAfterLine(a[1..], b);
      assert [a[0]] + a[1..] == a;
    }
  }

  /**
   * The joined text is the lines in order with single newlines between
   * them: splitting it at its newlines gives the lines back, when there is
   * at least one line and no line holds a newline itself.
   */
  lemma {:induction false} SplitJoin(lines: seq<string>)
    requires lines != []
    requires forall i :: 0 <= i < |lines| ==> NoNewline(lines[i])
    ensures SplitLines(JoinLines(lines)) == lines
    decreases |lines|
  {
    if |lines| == 1 {
      SplitPlain(lines[0]);
    } else {
      SplitAfterLine(lines[0], JoinLines(lines[1..]));
      SplitJoin(lines[1..]);
    }
  }

  lemma {:induction false} NewlineCountAppend(a: string, b: string)
    ensures NewlineCount(a + b) == NewlineCount(a) + NewlineCount(b)
    decreases |a|
  {
    if a == [] {
      assert a + b == b;
    } else {
      assert (a + b)[0] == a[0];
      assert (a + b)[1..] == a[1..] + b;
      NewlineCountAppend(a[1..], b);
    }
  }

  lemma {:induction false} NoNewlineCount(a: string)
    requires NoNewline(a)
    ensures NewlineCount(a) == 0
    decreases |a|
  {
    if a != [] {
      NoNewlineCount(a[1..]);
    }
  }

  /** `n` lines without newlines join to a text with `n - 1` newlines. */
  lemma {:induction false} JoinNewlines(lines: seq<string>)
    requires lines != []
    requires forall i :: 0 <= i < |lines| ==> NoNewline(lines[i])
    ensures NewlineCount(JoinLines(lines)) == |lines| - 1
    decreases |lines|
  {
    NoNewlineCount(lines[0]);
    if |lines| > 1 {
      JoinNewlines(lines[1..]);
      NewlineCountAppend(lines[0], "\n");
      NewlineCountAppend(lines[0] + "\n", JoinLines(lines[1..]));
    }
  }

  // ---------------------------------------------------------------------
  // str.replace

  /** `pat` occurs in `s` at index `i`. */
  predicate OccursAt(pat: string, s: string, i: nat) {
    i + |pat| <= |s| && s[i..i + |pat|] == pat
  }

  /**
   * `s.replace(pat, repl)`: scanning left to right, every occurrence of `pat`
   * not overlapping an earlier replaced one becomes `repl`. An empty `pat`
   * puts `repl` before every character and at the end, as Python does.
   */
  function ReplaceAll(s: string, pat: string, repl: string): string
    decreases |s|
  {
    if pat == [] then
      (if s == [] then repl else repl + [s[0]] + ReplaceAll(s[1..], pat, repl))
    else if OccursAt(pat, s, 0) then repl + ReplaceAll(s[|pat|..], pat, repl)
    else if s == [] then []
    else [s[0]] + ReplaceAll(s[1..], pat, repl)
  }

  /** A text in which `pat` does not occur is left unchanged. */
  lemma {:induction false} ReplaceAbsent(s: string, pat: string, repl: string)
    requires pat != []
    requires forall i :: 0 <= i <= |s| ==> !OccursAt(pat, s, i)
    ensures ReplaceAll(s, pat, repl) == s
    decreases |s|
  {
    if s != [] {
      forall i | 0 <= i <= |s[1..]| ensures !OccursAt(pat, s[1..], i) {
        assert !OccursAt(pat, s, i + 1);
        if i + |pat| <= |s[1..]| {
          assert s[1..][i..i + |pat|] == s[i + 1..i + 1 + |pat|];
        }
      }
      ReplaceAbsent(s[1..], pat, repl);
      assert [s[0]] + s[1..] == s;
    }
  }

  /**
   * Left to right: when the first occurrence of `pat` is at `i`, the text
   * before it is kept, that occurrence becomes `repl`, and the scan resumes
   * right after it.
   */
  lemma ReplaceFirst(s: string, pat: string, repl: string, i: nat)
    requires pat != [] && OccursAt(pat, s, i)
    requires forall j :: 0 <= j < i ==> !OccursAt(pat, s, j)
    ensures ReplaceAll(s, pat, repl) == s[..i] + repl + ReplaceAll(s[i + |pat|..], pat, repl)
  {
    ReplaceKeepsPrefix(s, pat, repl, i);
    var u := s[i..];
    assert u[..|pat|] == s[i..i + |pat|];
    ReplaceAtStart(u, pat, repl);
    assert u[|pat|..] == s[i + |pat|..];
    ConcatAssoc(s[..i], repl, ReplaceAll(s[i + |pat|..], pat, repl));
  }

  /** The text before the first occurrence is copied unchanged. */
  lemma {:induction false} ReplaceKeepsPrefix(s: string, pat: string, repl: string, i: nat)
    requires pat != [] && i <= |s|
    requires forall j :: 0 <= j < i ==> !OccursAt(pat, s, j)
    ensures ReplaceAll(s, pat, repl) == s[..i] + ReplaceAll(s[i..], pat, repl)
    decreases i
  {
    if i == 0 {
      assert s[..0] + ReplaceAll(s[0..], pat, repl) == ReplaceAll(s, pat, repl);
    } else {
      var t := s[1..];
      forall j | 0 <= j < i - 1 ensures !OccursAt(pat, t, j) {
        OccursShift(pat, s, j);
      }
      ReplaceKeepsPrefix(t, pat, repl, i - 1);
      ReplaceKeepsHead(s, pat, repl);
      assert t[i - 1..] == s[i..];
      assert [s[0]] + t[..i - 1] == s[..i];
      ConcatAssoc([s[0]], t[..i - 1], ReplaceAll(s[i..], pat, repl));
    }
  }

  /** An occurrence at the start becomes `repl`, and the scan resumes after it. */
  lemma ReplaceAtStart(s: string, pat: string, repl: string)
    requires pat != [] && OccursAt(pat, s, 0)
    ensures ReplaceAll(s, pat, repl) == repl + ReplaceAll(s[|pat|..], pat, repl)
  {
  }

  lemma ConcatAssoc(a: string, b: string, c: string)
    ensures a + (b + c) == (a + b) + c
  {
  }

  /** An occurrence in `s[1..]` is an occurrence in `s` one place later. */
  lemma OccursShift(pat: string, s: string, j: nat)
    requires s != []
    ensures OccursAt(pat, s[1..], j) <==> OccursAt(pat, s, j + 1)
  {
    if j + |pat| <= |s[1..]| {
      assert s[1..][j..j + |pat|] == s[j + 1..j + 1 + |pat|];
    }
  }

  /** Without an occurrence at the start, the first character is kept. */
  lemma ReplaceKeepsHead(s: string, pat: string, repl: string)
    requires pat != [] && s != [] && !OccursAt(pat, s, 0)
    ensures ReplaceAll(s, pat, repl) == [s[0]] + ReplaceAll(s[1..], pat, repl)
  {
  }

  /** Replacing a string by itself changes nothing (the `"무료" -> "무료"` entry). */
  lemma {:induction false} ReplaceIdentity(s: string, pat: string)
    ensures ReplaceAll(s, pat, pat) == s
    decreases |s|
  {
    if pat == [] {
      if s != [] {
        ReplaceIdentity(s[1..], pat);
        assert [s[0]] + s[1..] == s;
      }
    } else if OccursAt(pat, s, 0) {
      ReplaceIdentity(s[|pat|..], pat);
      assert s[..|pat|] + s[|pat|..] == s;
    } else if s != [] {
      ReplaceIdentity(s[1..], pat);
      assert [s[0]] + s[1..] == s;
    }
  }

  /** Without newlines in `pat` and `repl`, a replacement keeps the number of newlines. */
  lemma {:induction false} ReplaceNewlines(s: string, pat: string, repl: string)
    requires NoNewline(pat) && NoNewline(repl)
    ensures NewlineCount(ReplaceAll(s, pat, repl)) == NewlineCount(s)
    decreases |s|
  {
    NoNewlineCount(repl);
    NoNewlineCount(pat);
    if pat == [] {
      if s != [] {
        ReplaceNewlines(s[1..], pat, repl);
        NewlineCountAppend(repl, [s[0]]);
        NewlineCountAppend(repl + [s[0]], ReplaceAll(s[1..], pat, repl));
        NewlineCountAppend([s[0]], s[1..]);
        assert [s[0]] + s[1..] == s;
      }
    } else if OccursAt(pat, s, 0) {
      ReplaceNewlines(s[|pat|..], pat, repl);
      NewlineCountAppend(repl, ReplaceAll(s[|pat|..], pat, repl));
      NewlineCountAppend(s[..|pat|], s[|pat|..]);
      assert s[..|pat|] + s[|pat|..] == s;
    } else if s != [] {
      ReplaceNewlines(s[1..], pat, repl);
      NewlineCountAppend([s[0]], ReplaceAll(s[1..], pat, repl));
      NewlineCountAppend([s[0]], s[1..]);
      assert [s[0]] + s[1..] == s;
    }
  }

  // ---------------------------------------------------------------------
  // The corrections table

  /** `corrections`, in insertion order: (misspelling, correction). */
  const Corrections: seq<(string, string)> := [
    ("똑똑케어", "펫케어"),
    ("WIFI (무료WIFI)가", "WIFI (무료WIFI)기가"),
    ("기기인터넷", "기가인터넷"),
    ("무료", "무료"),
    ("욜정", "요금제")
  ]

  /** The text after the replacements of `table`, applied first to last. */
  function Corrected(text: string, table: seq<(string, string)>): string
    decreases |table|
  {
    if table == [] then text
    else ReplaceAll(Corrected(text, table[..|table| - 1]), table[|table| - 1].0, table[|table| - 1].1)
  }

  /**
   * extract_text after OCR: join the page's line strings with newlines, then
   * apply each correction in table order to the text the previous one left.
   */
  method ExtractText(page: seq<Detection>) returns (text: string)
    ensures text == Corrected(JoinLines(LineTexts(page)), Corrections)
  {
    var lines := LineTexts(page);
    text := JoinLines(lines);
    ghost var joined := text;
    for k := 0 to |Corrections|
      invariant text == Corrected(joined, Corrections[..k])
    {
      var (wrong, right) := Corrections[k];
      assert Corrections[..k + 1][..k] == Corrections[..k];
      text := ReplaceAll(text, wrong, right);
    }
    assert Corrections[..|Corrections|] == Corrections;
  }

  /** A text in which no misspelling of the table occurs comes back unchanged. */
  lemma {:induction false} CorrectedAbsent(text: string, table: seq<(string, string)>)
    requires forall k :: 0 <= k < |table| ==> table[k].0 != []
    requires forall k, i :: 0 <= k < |table| && 0 <= i <= |text| ==> !OccursAt(table[k].0, text, i)
    ensures Corrected(text, table) == text
    decreases |table|
  {
    if table != [] {
      var init := table[..|table| - 1];
      assert forall k :: 0 <= k < |init| ==> init[k] == table[k];
      CorrectedAbsent(text, init);
      ReplaceAbsent(text, table[|table| - 1].0, table[|table| - 1].1);
    }
  }

  /** Corrections whose entries hold no newline keep the number of newlines, so the number of lines. */
  lemma {:induction false} CorrectedNewlines(text: string, table: seq<(string, string)>)
    requires forall k :: 0 <= k < |table| ==> NoNewline(table[k].0) && NoNewline(table[k].1)
    ensures NewlineCount(Corrected(text, table)) == NewlineCount(text)
    decreases |table|
  {
    if table != [] {
      var init := table[..|table| - 1];
      assert forall k :: 0 <= k < |init| ==> init[k] == table[k];
      CorrectedNewlines(text, init);
      ReplaceNewlines(Corrected(text, init), table[|table| - 1].0, table[|table| - 1].1);
    }
  }

  /** No misspelling of the table is empty, and no entry holds a newline. */
  lemma CorrectionsShape()
    ensures forall k :: 0 <= k < |Corrections| ==> Corrections[k].0 != []
    ensures forall k :: 0 <= k < |Corrections| ==> NoNewline(Corrections[k].0) && NoNewline(Corrections[k].1)
  {
  }

  /** The `"무료"` entry is an identity rewrite: that step never changes the text. */
  lemma FreeEntryIsIdentity(s: string)
    ensures Corrections[3].0 == Corrections[3].1 == "무료"
    ensures ReplaceAll(s, Corrections[3].0, Corrections[3].1) == s
  {
    ReplaceIdentity(s, "무료");
  }

  /** A joined text without any misspelling of the table is returned as joined. */
  lemma ExtractUnchanged(joined: string)
    requires forall k, i :: 0 <= k < |Corrections| && 0 <= i <= |joined| ==> !OccursAt(Corrections[k].0, joined, i)
    ensures Corrected(joined, Corrections) == joined
  {
    CorrectionsShape();
    CorrectedAbsent(joined, Corrections);
  }

  /**
   * The corrections keep the lines: the corrected text of `n` recognised
   * lines without newlines has `n - 1` newlines, as the joined text does.
   */
  lemma ExtractKeepsLines(page: seq<Detection>)
    requires page != []
    requires forall i :: 0 <= i < |page| ==> NoNewline(page[i].text)
    ensures NewlineCount(Corrected(JoinLines(LineTexts(page)), Corrections)) == |page| - 1
  {
    var lines := LineTexts(page);
    JoinNewlines(lines);
    CorrectionsShape();
    CorrectedNewlines(JoinLines(lines), Corrections);
  }
}
