/**
 * What `parse_all_fields` promises, field by field: leftmost matches, the
 * bounds of each capture class, the newline the address needs, the line
 * anchor of the shared-device field, section scoping and the contract
 * period's two dates.
 */
module FieldProps {
  import opened Wrappers
  import opened Chars
  import opened Matchers
  import opened FieldTable
  import opened Fields

  /**
   * A field is None exactly when its pattern matches at no position;
   * otherwise it is the stripped group 1 of the match that starts leftmost.
   */
  lemma FieldIsLeftmostMatch(pat: Pattern, text: string) returns (k: nat)
    ensures FieldValue(pat, text).None? ==> forall i :: 0 <= i <= |text| ==> MatchAt(pat, text, i).None?
    ensures (forall i :: 0 <= i <= |text| ==> MatchAt(pat, text, i).None?) ==> FieldValue(pat, text).None?
    ensures FieldValue(pat, text).Some? ==>
      && k <= |text| && MatchAt(pat, text, k).Some?
      && FieldValue(pat, text) == Some(Strip(MatchAt(pat, text, k).value))
      && forall m :: 0 <= m < k ==> MatchAt(pat, text, m).None?
  {
    k := SearchIsLeftmost(pat, text);
  }

  /** The first tail match at or after `e`, as a position `j`. */
  lemma FirstTailFrom(t: Tail, s: string, e: nat) returns (j: nat)
    requires e <= |s|
    ensures FirstFrom(TailStarts(t, s), e).None? ==> forall q :: e <= q <= |s| ==> TailAt(t, s, q).None?
    ensures (forall q :: e <= q <= |s| ==> TailAt(t, s, q).None?) ==> FirstFrom(TailStarts(t, s), e).None?
    ensures FirstFrom(TailStarts(t, s), e).Some? ==>
      && e <= j <= |s| && TailAt(t, s, j) == FirstFrom(TailStarts(t, s), e)
      && forall m :: e <= m < j ==> TailAt(t, s, m).None?
  {
    var ts := TailStarts(t, s);
    assert forall q :: 0 <= q <= |s| ==> ts[q] == TailAt(t, s, q);
    FirstFromNone(ts, e);
    if FirstFrom(ts, e).Some? {
      j := FirstFromWitness(ts, e);
    } else {
      j := e;
    }
  }

  /**
   * An unscoped pattern takes the first occurrence of its tail anywhere in
   * the text; so do the internet fields (요금제, 약정기간 and 단말 without a
   * header), inside a TV or smart-home section as well.
   */
  lemma PlainFieldFirstTail(t: Tail, text: string) returns (j: nat)
    ensures FieldValue(Plain(t), text).None? ==> forall q :: 0 <= q <= |text| ==> TailAt(t, text, q).None?
    ensures (forall q :: 0 <= q <= |text| ==> TailAt(t, text, q).None?) ==> FieldValue(Plain(t), text).None?
    ensures FieldValue(Plain(t), text).Some? ==>
      && j <= |text| && TailAt(t, text, j).Some?
      && FieldValue(Plain(t), text) == Some(Strip(TailAt(t, text, j).value))
      && forall m :: 0 <= m < j ==> TailAt(t, text, m).None?
  {
    PlainIsFirstTail(t, text);
    j := FirstTailFrom(t, text, 0);
  }

  /**
   * A section-scoped field (TV주_*, TV부_*, 스마트홈_*) is None when its
   * header occurs nowhere. Otherwise `h0` is where the first header starts
   * and the field is the first tail occurrence, at `j`, at or after the end
   * `e` of that header; it is None when the tail does not occur there.
   */
  lemma ScopedField(h: seq<Tok>, t: Tail, text: string) returns (h0: nat, e: nat, j: nat)
    requires IsSectionHeader(h)
    ensures (forall i :: 0 <= i <= |text| ==> HeadEnd(h, text, i).None?) ==> FieldValue(Scoped(h, t), text).None?
    ensures !(forall i :: 0 <= i <= |text| ==> HeadEnd(h, text, i).None?) ==>
        && h0 <= |text| && HeadEnd(h, text, h0) == Some(e)
        && (forall i :: 0 <= i < h0 ==> HeadEnd(h, text, i).None?)
        && (FieldValue(Scoped(h, t), text).None? ==> forall q :: e <= q <= |text| ==> TailAt(t, text, q).None?)
        && ((forall q :: e <= q <= |text| ==> TailAt(t, text, q).None?) ==> FieldValue(Scoped(h, t), text).None?)
        && (FieldValue(Scoped(h, t), text).Some? ==>
          && e <= j <= |text| && TailAt(t, text, j).Some?
          && FieldValue(Scoped(h, t), text) == Some(Strip(TailAt(t, text, j).value))
          && forall m :: e <= m < j ==> TailAt(t, text, m).None?)
  {
    if forall i :: 0 <= i <= |text| ==> HeadEnd(h, text, i).None? {
      ScopedWithoutHeader(h, t, text);
      h0, e, j := 0, 0, 0;
    } else {
      h0 := FirstHeader(h, text);
      e := HeadEnd(h, text, h0).value;
      SectionHeaderNoOverlap(h, text, h0);
      j := ScopedFromHeader(h, t, text, h0);
    }
  }

  /** Where the first occurrence of header `h` starts, when there is one. */
  lemma FirstHeader(h: seq<Tok>, text: string) returns (h0: nat)
    requires !(forall i :: 0 <= i <= |text| ==> HeadEnd(h, text, i).None?)
    ensures h0 <= |text| && HeadEnd(h, text, h0).Some?
    ensures forall i :: 0 <= i < h0 ==> HeadEnd(h, text, i).None?
  {
    var heads := seq(|text| + 1, i requires 0 <= i <= |text| => if HeadEnd(h, text, i).Some? then Some(i) else None);
    assert forall i :: 0 <= i <= |text| ==> heads[i] == (if HeadEnd(h, text, i).Some? then Some(i) else None);
    FirstFromNone(heads, 0);
    h0 := FirstFromWitness(heads, 0);
  }

  /** The scoped field once the first header, at `h0`, is known not to overlap another one. */
  lemma ScopedFromHeader(h: seq<Tok>, t: Tail, text: string, h0: nat) returns (j: nat)
    requires h0 <= |text| && HeadEnd(h, text, h0).Some?
    requires forall i :: 0 <= i < h0 ==> HeadEnd(h, text, i).None?
    requires forall i :: h0 < i < HeadEnd(h, text, h0).value ==> HeadEnd(h, text, i).None?
    ensures var e := HeadEnd(h, text, h0).value;
      && (FieldValue(Scoped(h, t), text).None? ==> forall q :: e <= q <= |text| ==> TailAt(t, text, q).None?)
      && ((forall q :: e <= q <= |text| ==> TailAt(t, text, q).None?) ==> FieldValue(Scoped(h, t), text).None?)
      && (FieldValue(Scoped(h, t), text).Some? ==>
        && e <= j <= |text| && TailAt(t, text, j).Some?
        && FieldValue(Scoped(h, t), text) == Some(Strip(TailAt(t, text, j).value))
        && forall m :: e <= m < j ==> TailAt(t, text, m).None?)
  {
    ScopedAfterFirstHeader(h, t, text, h0);
    j := FirstTailFrom(t, text, HeadEnd(h, text, h0).value);
  }

  /**
   * A field whose pattern is a label and one character-class run is, when
   * present, the strip of a run `g` of that class whose length is within the
   * repetition's bounds.
   */
  lemma RunFieldValue(head: seq<Tok>, cls: CharClass, least: nat, most: Bound, text: string) returns (g: string)
    requires most.AtMost? ==> least <= most.n
    ensures var v := FieldValue(Plain(Labelled(head, Run(cls, least, most))), text);
      v.Some? ==>
        && v == Some(Strip(g)) && least <= |g| && (most.AtMost? ==> |g| <= most.n)
        && forall i :: 0 <= i < |g| ==> InClass(g[i], cls)
  {
    var cap := Run(cls, least, most);
    var pat := Plain(Labelled(head, cap));
    var k := SearchIsLeftmost(pat, text);
    g := "";
    if Search(pat, text).Some? {
      var p := HeadEnd(head, text, k).value;
      var n := ClassRun(Separator, text, p);
      assert MatchAt(pat, text, k) == GiveBack(cap, text, p, n);
      var x := GiveBackLargest(cap, text, p, n);
      RunCapture(cap, text, x);
      g := CaptureAt(cap, text, x).value;
    }
  }

  /** A run of a class without whitespace characters is its own strip. */
  lemma StripRun(g: string, cls: CharClass)
    requires forall i :: 0 <= i < |g| ==> InClass(g[i], cls)
    requires forall c :: InClass(c, cls) ==> !IsSpace(c)
    ensures Strip(g) == g
  {
    if g != [] {
      assert InClass(g[0], cls) && InClass(g[|g| - 1], cls);
      StripUnchanged(g);
    }
  }

  /**
   * A label-and-run field over a class without whitespace is, when present,
   * the run itself: non-empty up to the lower bound, within the upper bound,
   * all of the class.
   */
  lemma RunFieldWithoutSpace(head: seq<Tok>, cls: CharClass, least: nat, most: Bound, text: string)
    requires most.AtMost? ==> least <= most.n
    requires forall c :: InClass(c, cls) ==> !IsSpace(c)
    ensures var v := FieldValue(Plain(Labelled(head, Run(cls, least, most))), text);
      v.Some? ==>
        && least <= |v.value| && (most.AtMost? ==> |v.value| <= most.n)
        && forall i :: 0 <= i < |v.value| ==> InClass(v.value[i], cls)
  {
    var g := RunFieldValue(head, cls, least, most, text);
    if FieldValue(Plain(Labelled(head, Run(cls, least, most))), text).Some? {
      StripRun(g, cls);
    }
  }

  /** 생년 is six to eight decimal digits when present. */
  lemma BirthDateDigits(text: string)
    ensures var v := FieldValue(BirthPattern, text);
      v.Some? ==> 6 <= |v.value| <= 8 && forall i :: 0 <= i < |v.value| ==> IsDecimal(v.value[i])
  {
    DecimalNotSpace();
    RunFieldWithoutSpace([Lit("생년")], Digit, 6, AtMost(8), text);
  }

  /**
   * The U+ line counts (`U+ 인터넷`, `U+ TV (주)`, `U+ TV (부)`, `U+ 스마트홈`)
   * are non-empty ASCII digit strings when present.
   */
  lemma CountDigits(head: seq<Tok>, text: string)
    ensures var v := FieldValue(Plain(Labelled(head, Digits)), text);
      v.Some? ==> v.value != [] && forall i :: 0 <= i < |v.value| ==> '0' <= v.value[i] <= '9'
  {
    DecimalNotSpace();
    RunFieldWithoutSpace(head, AsciiDigit, 1, Unbounded, text);
  }

  /** 고객희망일 is a non-empty string of ASCII digits and `-` when present. */
  lemma WishDateChars(text: string)
    ensures var v := FieldValue(WishDatePattern, text);
      v.Some? ==> v.value != [] && forall i :: 0 <= i < |v.value| ==> ('0' <= v.value[i] <= '9' || v.value[i] == '-')
  {
    DecimalNotSpace();
    RunFieldWithoutSpace([Lit("고객희망일")], DateChar, 1, Unbounded, text);
  }

  /**
   * 주소 needs a newline after its value: when every 주소 label lies on the
   * last line (from `q` on) and that line has no newline at its end, the
   * field is None.
   */
  lemma AddressOnLastLine(text: string, q: nat)
    requires q <= |text|
    requires forall i :: 0 <= i < q ==> !LitAt("주소", text, i)
    requires forall i :: q <= i < |text| ==> text[i] != '\n'
    ensures FieldValue(AddressPattern, text).None?
  {
    var pat := AddressPattern;
    forall i | 0 <= i <= |text| ensures MatchAt(pat, text, i).None? {
      if i < q {
        assert HeadEnd([Lit("주소")], text, i).None?;
      } else {
        LookaheadNeedsNewline([Lit("주소")], text, i);
      }
    }
    var k := SearchIsLeftmost(pat, text);
  }

  /**
   * `주소`, then separators (`:`, spaces, line breaks), then a value that a
   * newline ends: the field is that value, stripped, provided no `주소` starts
   * earlier and the value does not open with a separator.
   */
  lemma AddressFound(pre: string, sep: string, v: string, post: string)
    requires v != [] && '\n' !in v && !InClass(v[0], Separator)
    requires forall k :: 0 <= k < |sep| ==> InClass(sep[k], Separator)
    requires forall i :: 0 <= i < |pre| ==> !LitAt("주소", pre + "주소" + sep + v + "\n" + post, i)
    ensures FieldValue(AddressPattern, pre + "주소" + sep + v + "\n" + post) == Some(Strip(v))
  {
    var s := pre + "주소" + sep + v + "\n" + post;
    var q := |pre|;
    var c := q + 2 + |sep|;
    AddressLayout(pre, sep, v, post, s, q, c);
    AddressAt(s, q, c, v);
  }

  /** Where the pieces of `pre + 주소 + sep + v + "\n" + post` sit. */
  lemma AddressLayout(pre: string, sep: string, v: string, post: string, s: string, q: nat, c: nat)
    requires s == pre + "주소" + sep + v + "\n" + post && q == |pre| && c == q + 2 + |sep|
    requires forall k :: 0 <= k < |sep| ==> InClass(sep[k], Separator)
    ensures c + |v| < |s| && LitAt("주소", s, q) && s[c..c + |v|] == v && s[c + |v|] == '\n'
    ensures forall k :: q + 2 <= k < c ==> InClass(s[k], Separator)
  {
    assert s[q..q + 2] == "주소";
    assert forall k :: q + 2 <= k < c ==> s[k] == sep[k - q - 2];
    assert s[c..c + |v|] == v;
  }

  /**
   * `주소` at `q` with no `주소` starting before it, separators up to `c`, then the value
   * `v` and a newline: 주소 is `v`, stripped, when `v` is a non-empty piece of
   * one line that does not open with a separator.
   */
  lemma AddressAt(s: string, q: nat, c: nat, v: string)
    requires q + 2 <= c && c + |v| < |s| && LitAt("주소", s, q)
    requires forall i :: 0 <= i < q ==> !LitAt("주소", s, i)
    requires forall k :: q + 2 <= k < c ==> InClass(s[k], Separator)
    requires s[c..c + |v|] == v && s[c + |v|] == '\n'
    requires v != [] && '\n' !in v && !InClass(v[0], Separator)
    ensures FieldValue(AddressPattern, s) == Some(Strip(v))
  {
    var pat := AddressPattern;
    assert forall i :: 0 <= i < q ==> MatchAt(pat, s, i).None?;
    assert HeadEnd([Lit("주소")], s, q) == Some(q + 2);
    assert forall k :: c <= k < c + |v| ==> s[k] == v[k - c];
    LineAfterSeparators([Lit("주소")], s, q, q + 2, c, |v|);
    assert MatchAt(pat, s, q) == Some(v);
    SearchAt(pat, s, q);
  }

  /**
   * 공용단말 is found only at a position that starts a line, after spaces or
   * tabs alone; its value is the label match there.
   */
  lemma SharedDeviceAtLineStart(text: string) returns (p: nat)
    ensures var v := FieldValue(SharedDevicePattern, text);
      v.Some? ==> p <= |text| && StartsLine(text, p) && TailAt(SharedDevicePattern.tail, text, p).Some?
                  && v == Some(Strip(TailAt(SharedDevicePattern.tail, text, p).value))
                  && forall p' :: 0 <= p' < p && StartsLine(text, p') ==> TailAt(SharedDevicePattern.tail, text, p').None?
  {
    p := 0;
    if Search(SharedDevicePattern, text).Some? {
      assert OpensWithNonBlank(SharedDevicePattern.tail);
      p := LineStartFound(SharedDevicePattern.tail, text);
    }
  }

  /** Conversely, a 공용단말 match at the start of a line makes the field present. */
  lemma SharedDeviceFound(text: string, p: nat)
    requires p <= |text| && StartsLine(text, p) && TailAt(SharedDevicePattern.tail, text, p).Some?
    ensures FieldValue(SharedDevicePattern, text).Some?
  {
    LineStartFinds(SharedDevicePattern.tail, text, p);
  }

  /** A match whose group 1 is a date gives that date as the field. */
  lemma DateField(pat: Pattern, text: string, d: string)
    requires Search(pat, text) == Some(d) && IsDate(d)
    ensures FieldValue(pat, text) == Some(d)
  {
    DateStrip(d);
  }

  /** A date has no whitespace at either end. */
  lemma DateStrip(d: string)
    requires IsDate(d)
    ensures Strip(d) == d
  {
    assert IsDecimal(d[0]) && IsDecimal(d[9]);
    assert !IsSpace(d[0]) && !IsSpace(d[|d| - 1]);
    StripUnchanged(d);
  }

  /**
   * `약정기간 ... (start~end)` with no earlier `약정기간` in the text and no
   * `(` between the label and the parenthesis: 인터넷_약정시작 is the start
   * date and 인터넷_약정종료 the end date.
   */
  lemma InternetPeriodDates(pre: string, mid: string, d1: string, d2: string, post: string)
    requires '(' !in mid && IsDate(d1) && IsDate(d2)
    requires var text := pre + PeriodLabel + mid + "(" + d1 + "~" + d2 + ")" + post;
      forall i :: 0 <= i < |pre| ==> !LitAt(PeriodLabel, text, i)
    ensures var text := pre + PeriodLabel + mid + "(" + d1 + "~" + d2 + ")" + post;
      FieldValue(Plain(StartTail), text) == Some(d1) && FieldValue(Plain(EndTail), text) == Some(d2)
  {
    var text := pre + PeriodLabel + mid + "(" + d1 + "~" + d2 + ")" + post;
    PeriodDates(pre, mid, d1, d2, post);
    DateField(Plain(StartTail), text, d1);
    DateField(Plain(EndTail), text, d2);
  }

  /**
   * Only `약정기간 ... (start`, with no `~end)` after it and no other
   * `약정기간` in the text: the start is found and the end is None.
   */
  lemma InternetPeriodStartOnly(pre: string, mid: string, d1: string, post: string)
    requires '(' !in mid && IsDate(d1) && !ClosesPeriod(post)
    requires var text := pre + PeriodLabel + mid + "(" + d1 + post;
      forall i :: 0 <= i <= |text| && i != |pre| ==> !LitAt(PeriodLabel, text, i)
    ensures var text := pre + PeriodLabel + mid + "(" + d1 + post;
      FieldValue(Plain(StartTail), text) == Some(d1) && FieldValue(Plain(EndTail), text).None?
  {
    var text := pre + PeriodLabel + mid + "(" + d1 + post;
    PeriodStartOnly(pre, mid, d1, post);
    DateField(Plain(StartTail), text, d1);
  }

  /**
   * A section's `약정기간 ... (start~end)`: when the first occurrence of the
   * header `h`, at `h0`, ends at or before the label and no `약정기간` lies
   * between, the section's 약정시작 is the start date and its 약정종료 the end
   * date.
   */
  lemma ScopedPeriodDates(h: seq<Tok>, pre: string, mid: string, d1: string, d2: string, post: string,
                           text: string, h0: nat)
    requires IsSectionHeader(h) && '(' !in mid && IsDate(d1) && IsDate(d2)
    requires text == pre + PeriodLabel + mid + "(" + d1 + "~" + d2 + ")" + post
    requires h0 <= |text| && HeadEnd(h, text, h0).Some? && HeadEnd(h, text, h0).value <= |pre|
    requires forall i :: 0 <= i < h0 ==> HeadEnd(h, text, i).None?
    requires forall i :: HeadEnd(h, text, h0).value <= i < |pre| ==> !LitAt(PeriodLabel, text, i)
    ensures FieldValue(Scoped(h, StartTail), text) == Some(d1)
    ensures FieldValue(Scoped(h, EndTail), text) == Some(d2)
  {
    var e := HeadEnd(h, text, h0).value;
    SectionHeaderNoOverlap(h, text, h0);
    ScopedAfterFirstHeader(h, StartTail, text, h0);
    ScopedAfterFirstHeader(h, EndTail, text, h0);
    PeriodDatesFrom(pre, mid, d1, d2, post, e);
    DateField(Scoped(h, StartTail), text, d1);
    DateField(Scoped(h, EndTail), text, d2);
  }

  /**
   * A section's `약정기간 ... (start` with no `~end)` after it, the only
   * `약정기간` after the first header: the section's 약정시작 is the start date
   * and its 약정종료 is None.
   */
  lemma ScopedPeriodStartOnly(h: seq<Tok>, pre: string, mid: string, d1: string, post: string,
                               text: string, h0: nat)
    requires IsSectionHeader(h) && '(' !in mid && IsDate(d1) && !ClosesPeriod(post)
    requires text == pre + PeriodLabel + mid + "(" + d1 + post
    requires h0 <= |text| && HeadEnd(h, text, h0).Some? && HeadEnd(h, text, h0).value <= |pre|
    requires forall i :: 0 <= i < h0 ==> HeadEnd(h, text, i).None?
    requires forall i :: HeadEnd(h, text, h0).value <= i <= |text| && i != |pre| ==> !LitAt(PeriodLabel, text, i)
    ensures FieldValue(Scoped(h, StartTail), text) == Some(d1)
    ensures FieldValue(Scoped(h, EndTail), text).None?
  {
    var e := HeadEnd(h, text, h0).value;
    SectionHeaderNoOverlap(h, text, h0);
    ScopedAfterFirstHeader(h, StartTail, text, h0);
    ScopedAfterFirstHeader(h, EndTail, text, h0);
    PeriodStartOnlyFrom(pre, mid, d1, post, e);
    DateField(Scoped(h, StartTail), text, d1);
  }

  /** The parsed dict holds, under the name of table entry `k`, that entry's field value. */
  lemma FieldLookup(text: string, k: nat, name: string, pat: Pattern)
    requires k < |FieldPatterns| && FieldPatterns[k] == (name, pat)
    ensures Get(ParsedFields(text), name) == Some(FieldValue(pat, text))
  {
    ParsedFieldsLookup(text);
  }

  /** The parsed dict for `약정기간 (2024-01-01~2025-01-01)`: the start date... */
  lemma PeriodStartExample(text: string)
    requires text == "약정기간 (2024-01-01~2025-01-01)"
    ensures Get(ParsedFields(text), "인터넷_약정시작") == Some(Some("2024-01-01"))
  {
    FieldLookup(text, 7, "인터넷_약정시작", Plain(StartTail));
    PeriodExampleFields(text);
  }

  /** ... and the end date. */
  lemma PeriodEndExample(text: string)
    requires text == "약정기간 (2024-01-01~2025-01-01)"
    ensures Get(ParsedFields(text), "인터넷_약정종료") == Some(Some("2025-01-01"))
  {
    FieldLookup(text, 8, "인터넷_약정종료", Plain(EndTail));
    PeriodExampleFields(text);
  }

  lemma PeriodExampleFields(text: string)
    requires text == "약정기간 (2024-01-01~2025-01-01)"
    ensures FieldValue(Plain(StartTail), text) == Some("2024-01-01")
    ensures FieldValue(Plain(EndTail), text) == Some("2025-01-01")
  {
    assert IsDate("2024-01-01") && IsDate("2025-01-01");
    assert "" + PeriodLabel + " " + "(" + "2024-01-01" + "~" + "2025-01-01" + ")" + "" == text;
    InternetPeriodDates("", " ", "2024-01-01", "2025-01-01", "");
  }

  /** The parsed dict for `약정기간 (2024-01-01` with nothing after it: the start is found... */
  lemma PeriodStartOnlyExample(text: string)
    requires text == "약정기간 (2024-01-01"
    ensures Get(ParsedFields(text), "인터넷_약정시작") == Some(Some("2024-01-01"))
  {
    FieldLookup(text, 7, "인터넷_약정시작", Plain(StartTail));
    PeriodStartOnlyFields(text);
  }

  /** ... and the end is None. */
  lemma PeriodNoEndExample(text: string)
    requires text == "약정기간 (2024-01-01"
    ensures Get(ParsedFields(text), "인터넷_약정종료") == Some(None)
  {
    FieldLookup(text, 8, "인터넷_약정종료", Plain(EndTail));
    PeriodStartOnlyFields(text);
  }

  lemma PeriodStartOnlyFields(text: string)
    requires text == "약정기간 (2024-01-01"
    ensures FieldValue(Plain(StartTail), text) == Some("2024-01-01")
    ensures FieldValue(Plain(EndTail), text) == None
  {
    assert IsDate("2024-01-01") && !ClosesPeriod("");
    assert "" + PeriodLabel + " " + "(" + "2024-01-01" + "" == text;
    OnlyLabel("", " ", "2024-01-01", "");
    InternetPeriodStartOnly("", " ", "2024-01-01", "");
  }

  /** The parsed dict for `TV (주) 약정기간 (2024-01-01~2025-01-01)`: TV주_약정시작... */
  lemma TvPeriodStartExample(text: string)
    requires text == "TV (주) 약정기간 (2024-01-01~2025-01-01)"
    ensures Get(ParsedFields(text), "TV주_약정시작") == Some(Some("2024-01-01"))
  {
    FieldLookup(text, 12, "TV주_약정시작", Scoped(TvMainHeader, StartTail));
    TvPeriodExampleFields(text);
  }

  /** ... and TV주_약정종료. */
  lemma TvPeriodEndExample(text: string)
    requires text == "TV (주) 약정기간 (2024-01-01~2025-01-01)"
    ensures Get(ParsedFields(text), "TV주_약정종료") == Some(Some("2025-01-01"))
  {
    FieldLookup(text, 13, "TV주_약정종료", Scoped(TvMainHeader, EndTail));
    TvPeriodExampleFields(text);
  }

  lemma TvPeriodExampleFields(text: string)
    requires text == "TV (주) 약정기간 (2024-01-01~2025-01-01)"
    ensures FieldValue(Scoped(TvMainHeader, StartTail), text) == Some("2024-01-01")
    ensures FieldValue(Scoped(TvMainHeader, EndTail), text) == Some("2025-01-01")
  {
    ExampleDates();
    assert "TV (주) " + PeriodLabel + " " + "(" + "2024-01-01" + "~" + "2025-01-01" + ")" == text;
    TvPeriodFrom(text, " ", "2024-01-01", "2025-01-01");
  }

  /** `TV (주) 약정기간`, a blank run, then both dates in parentheses. */
  lemma TvPeriodFrom(text: string, mid: string, d1: string, d2: string)
    requires '(' !in mid && IsDate(d1) && IsDate(d2)
    requires text == "TV (주) " + PeriodLabel + mid + "(" + d1 + "~" + d2 + ")"
    ensures FieldValue(Scoped(TvMainHeader, StartTail), text) == Some(d1)
    ensures FieldValue(Scoped(TvMainHeader, EndTail), text) == Some(d2)
  {
    assert text[..7] == "TV (주) ";
    TvHeaderOpens(text);
    ScopedPeriodDates(TvMainHeader, "TV (주) ", mid, d1, d2, "", text, 0);
  }

  lemma ExampleDates()
    ensures IsDate("2024-01-01") && IsDate("2025-01-01")
  {
  }

  /** The TV (주) header opens the example text and ends at the blank before 약정기간. */
  lemma TvHeaderOpens(text: string)
    requires |text| > 10 && text[..7] == "TV (주) "
    ensures HeadEnd(TvMainHeader, text, 0) == Some(6)
    ensures !LitAt(PeriodLabel, text, 6)
  {
    assert text[..2] == "TV" && text[3..6] == "(주)";
    assert text[2] == text[..7][2] == ' ' && text[3] == text[..7][3] == '(';
    assert !IsSpace('(');
    assert ClassRun(Space, text, 3) == 0;
    assert ClassRun(Space, text, 2) == 1;
    assert HeadEnd(TvMainHeader[2..], text, 3) == Some(6);
    assert text[6] == ' ' && text[6..10][0] == text[6];
  }

  /**
   * The unscoped 인터넷_요금제 reads a 요금제 line inside the TV (주) section
   * when no other 요금제 comes before it.
   */
  lemma InternetPlanInTvExample(text: string)
    requires text == "TV (주)\n요금제: B\n"
    ensures Get(ParsedFields(text), "인터넷_요금제") == Some(Some("B"))
  {
    FieldLookup(text, 6, "인터넷_요금제", Plain(PlanTail));
    InternetPlanInTvField(text);
  }

  lemma InternetPlanInTvField(s: string)
    requires s == "TV (주)\n요금제: B\n"
    ensures FieldValue(Plain(PlanTail), s) == Some("B")
  {
    var pat := Plain(PlanTail);
    forall i | 0 <= i < 7 ensures MatchAt(pat, s, i).None? {
      assert s[i] != '요' && s[i..i + 3][0] == s[i];
      assert !LitAt("요금제", s, i);
    }
    assert s[7..10] == "요금제";
    assert HeadEnd([Lit("요금제")], s, 7) == Some(10);
    assert ClassRun(Separator, s, 12) == 0;
    assert ClassRun(Separator, s, 11) == 1;
    assert ClassRun(Separator, s, 10) == 2;
    assert ClassRun(NotNewline, s, 13) == 0;
    assert ClassRun(NotNewline, s, 12) == 1;
    assert s[12..13] == "B";
    assert CaptureAt(RestOfLine, s, 12) == Some("B");
    GiveBackKeepsAll(RestOfLine, s, 10, 2);
    assert MatchAt(pat, s, 7) == Some("B");
    SearchAt(pat, s, 7);
    StripUnchanged("B");
  }

  /** The parsed dict for `주소: 서울시` and a line break: 주소 is `서울시`. */
  lemma AddressExample(text: string)
    requires text == "주소: 서울시\n"
    ensures Get(ParsedFields(text), "주소") == Some(Some("서울시"))
  {
    FieldLookup(text, 4, "주소", AddressPattern);
    AddressExampleField(text);
  }

  lemma AddressExampleField(text: string)
    requires text == "주소: 서울시\n"
    ensures FieldValue(AddressPattern, text) == Some("서울시")
  {
    assert "" + "주소" + ": " + "서울시" + "\n" + "" == text;
    AddressFound("", ": ", "서울시", "");
    StripUnchanged("서울시");
  }

  /**
   * `이름: ` with nothing after it but the line break: `[:\s]*` gives the
   * space back to the name class, so 이름 is present and empty.
   */
  lemma EmptyNameExample(text: string)
    requires text == "이름: \n"
    ensures Get(ParsedFields(text), "이름") == Some(Some(""))
  {
    FieldLookup(text, 0, "이름", NamePattern);
    EmptyNameField(text);
  }

  lemma EmptyNameField(s: string)
    requires s == "이름: \n"
    ensures FieldValue(NamePattern, s) == Some("")
  {
    var pat := NamePattern;
    var cap := Run(NameChar, 1, Unbounded);
    assert LitAt("이름", s, 0);
    assert HeadEnd([Lit("이름")], s, 0) == Some(2);
    assert ClassRun(Separator, s, 5) == 0;
    assert ClassRun(Separator, s, 4) == 1;
    assert ClassRun(Separator, s, 3) == 2;
    assert ClassRun(Separator, s, 2) == 3;
    assert ClassRun(NameChar, s, 4) == 0;
    assert ClassRun(NameChar, s, 3) == 1;
    assert CaptureAt(cap, s, 5) == None;
    assert CaptureAt(cap, s, 4) == None;
    assert s[3..4] == " ";
    assert CaptureAt(cap, s, 3) == Some(" ");
    assert GiveBack(cap, s, 2, 3) == Some(" ");
    assert MatchAt(pat, s, 0) == Some(" ");
    SearchAt(pat, s, 0);
    assert AllSpace(" ");
  }

  /**
   * A label with nothing after it on its own line takes the next line:
   * `[:\s]*` crosses the line break.
   */
  lemma NextLineExample(text: string)
    requires text == "요금제\n5G"
    ensures Get(ParsedFields(text), "인터넷_요금제") == Some(Some("5G"))
  {
    FieldLookup(text, 6, "인터넷_요금제", Plain(PlanTail));
    NextLineField(text);
  }

  lemma NextLineField(s: string)
    requires s == "요금제\n5G"
    ensures FieldValue(Plain(PlanTail), s) == Some("5G")
  {
    var pat := Plain(PlanTail);
    assert LitAt("요금제", s, 0);
    assert HeadEnd([Lit("요금제")], s, 0) == Some(3);
    assert ClassRun(Separator, s, 4) == 0;
    assert ClassRun(Separator, s, 3) == 1;
    assert ClassRun(NotNewline, s, 6) == 0;
    assert ClassRun(NotNewline, s, 5) == 1;
    assert ClassRun(NotNewline, s, 4) == 2;
    assert s[4..6] == "5G";
    assert CaptureAt(RestOfLine, s, 4) == Some("5G");
    assert GiveBack(RestOfLine, s, 3, 1) == Some("5G");
    assert MatchAt(pat, s, 0) == Some("5G");
    SearchAt(pat, s, 0);
    assert !IsSpace('5') && !IsSpace('G');
    StripUnchanged("5G");
  }
}
