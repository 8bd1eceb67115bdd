/**
 * FIELD_PATTERNS of app.py: the ordered table from field name to pattern.
 * Each entry is written in the pattern datatype of module Matchers; the
 * comment beside it is the regular expression it stands for.
 */
module FieldTable {
  import opened Matchers

  /** `[^\n]+` */
  const RestOfLine: Capture := Run(NotNewline, 1, Unbounded)
  /** `[0-9]+` */
  const Digits: Capture := Run(AsciiDigit, 1, Unbounded)

  /** `TV\s*\(주\)`, `TV\s*\(부\)` and `스마트홈`: the section headers. */
  const TvMainHeader: seq<Tok> := [Lit("TV"), Spaces, Lit("(주)")]
  const TvSubHeader: seq<Tok> := [Lit("TV"), Spaces, Lit("(부)")]
  const SmartHomeHeader: seq<Tok> := [Lit("스마트홈")]

  const PlanTail: Tail := Labelled([Lit("요금제")], RestOfLine)      // 요금제[:\s]*([^\n]+)
  const DeviceTail: Tail := Labelled([Lit("단말")], RestOfLine)      // 단말[:\s]*([^\n]+)
  const StartTail: Tail := ContractPeriod(StartDate)                 // 약정기간[^(]*\((\d{4}-\d{2}-\d{2})
  const EndTail: Tail := ContractPeriod(EndDate)                     // 약정기간[^(]*\(\d{4}-\d{2}-\d{2}~(\d{4}-\d{2}-\d{2})\)

  // The label-family patterns, one per field.
  const NamePattern: Pattern := Plain(Labelled([Lit("이름")], Run(NameChar, 1, Unbounded)))          // 이름[:\s]*([가-힣A-Za-z· ]+)
  const PhonePattern: Pattern := Plain(Labelled([Lit("전번")], Run(PhoneChar, 1, Unbounded)))         // 전번[:\s]*([\d\s\-]+)
  const BirthPattern: Pattern := Plain(Labelled([Lit("생년")], Run(Digit, 6, AtMost(8))))             // 생년[:\s]*(\d{6,8})
  const CombinationPattern: Pattern := Plain(Labelled([Lit("결합")], Run(WordChar, 1, Unbounded)))    // 결합[:\s]*([가-힣A-Za-z0-9]+)
  const AddressPattern: Pattern := Plain(Labelled([Lit("주소")], LineBeforeNewline))                  // 주소[:\s]*(.+?)(?=\n)
  const InternetCountPattern: Pattern := Plain(Labelled([Lit("U+"), Spaces, Lit("인터넷")], Digits))  // U\+\s*인터넷[:\s]*([0-9]+)
  const TvMainCountPattern: Pattern := Plain(Labelled([Lit("U+"), Spaces] + TvMainHeader, Digits))    // U\+\s*TV\s*\(주\)[:\s]*([0-9]+)
  const TvSubCountPattern: Pattern := Plain(Labelled([Lit("U+"), Spaces] + TvSubHeader, Digits))      // U\+\s*TV\s*\(부\)[:\s]*([0-9]+)
  const SmartHomeCountPattern: Pattern := Plain(Labelled([Lit("U+"), Spaces] + SmartHomeHeader, Digits))  // U\+\s*스마트홈[:\s]*([0-9]+)
  const SharedDevicePattern: Pattern := LineStart(Labelled([Lit("공용단말")], RestOfLine))            // (?m)^[ \t]*공용단말[:\s]*([^\n]+)
  const WishDatePattern: Pattern := Plain(Labelled([Lit("고객희망일")], Run(DateChar, 1, Unbounded))) // 고객희망일[:\s]*([0-9\-]+)

  /**
   * The table in source order. The internet fields use the bare tails, so
   * they search the whole text; the TV and smart-home fields are scoped by
   * their section header (`header[\s\S]*?tail`).
   */
  const FieldPatterns: seq<(string, Pattern)> := [
    ("이름", NamePattern),
    ("전번", PhonePattern),
    ("생년", BirthPattern),
    ("결합", CombinationPattern),
    ("주소", AddressPattern),

    ("U+ 인터넷", InternetCountPattern),
    ("인터넷_요금제", Plain(PlanTail)),
    ("인터넷_약정시작", Plain(StartTail)),
    ("인터넷_약정종료", Plain(EndTail)),
    ("인터넷_단말", Plain(DeviceTail)),

    ("U+ TV (주)", TvMainCountPattern),
    ("TV주_요금제", Scoped(TvMainHeader, PlanTail)),
    ("TV주_약정시작", Scoped(TvMainHeader, StartTail)),
    ("TV주_약정종료", Scoped(TvMainHeader, EndTail)),
    ("TV주_단말", Scoped(TvMainHeader, DeviceTail)),

    ("U+ TV (부)", TvSubCountPattern),
    ("TV부_요금제", Scoped(TvSubHeader, PlanTail)),
    ("TV부_약정시작", Scoped(TvSubHeader, StartTail)),
    ("TV부_약정종료", Scoped(TvSubHeader, EndTail)),
    ("TV부_단말", Scoped(TvSubHeader, DeviceTail)),

    ("U+ 스마트홈", SmartHomeCountPattern),
    ("스마트홈_요금제", Scoped(SmartHomeHeader, PlanTail)),
    ("스마트홈_약정시작", Scoped(SmartHomeHeader, StartTail)),
    ("스마트홈_약정종료", Scoped(SmartHomeHeader, EndTail)),
    ("스마트홈_단말", Scoped(SmartHomeHeader, DeviceTail)),

    ("공용단말", SharedDevicePattern),

    ("고객희망일", WishDatePattern)
  ]

  /** The field names, in table order. */
  function FieldNames(): (names: seq<string>)
    ensures |names| == |FieldPatterns|
    ensures forall k :: 0 <= k < |names| ==> names[k] == FieldPatterns[k].0
  {
    seq(|FieldPatterns|, k requires 0 <= k < |FieldPatterns| => FieldPatterns[k].0)
  }

  lemma FieldNamesDistinct()
    ensures forall i, j :: 0 <= i < j < |FieldPatterns| ==> FieldPatterns[i].0 != FieldPatterns[j].0
  {
  }

  /** No occurrence of `TV\s*<close>` starts inside another one when `close` holds no `T`. */
  lemma TvHeaderNoOverlap(close: string, s: string, h0: nat, i: nat)
    requires 'T' !in close
    requires var h := [Lit("TV"), Spaces, Lit(close)];
      h0 <= |s| && HeadEnd(h, s, h0).Some? && h0 < i < HeadEnd(h, s, h0).value
    ensures HeadEnd([Lit("TV"), Spaces, Lit(close)], s, i).None?
  {
    var h := [Lit("TV"), Spaces, Lit(close)];
    assert LitAt("TV", s, h0);
    var w := ClassRun(Space, s, h0 + 2);
    var c := h0 + 2 + w;
    assert HeadEnd(h, s, h0) == HeadEnd(h[2..], s, c);
    assert LitAt(close, s, c);
    assert HeadEnd(h, s, h0).value == c + |close|;
    if i == h0 + 1 {
      assert s[i] == s[h0..h0 + 2][1] == 'V';
    } else if i < c {
      assert InClass(s[i], Space);
    } else {
      assert s[i] == s[c..c + |close|][i - c];
    }
    assert s[i] != 'T';
    assert !LitAt("TV", s, i);
  }

  /** No occurrence of `스마트홈` starts inside another one. */
  lemma SmartHomeHeaderNoOverlap(s: string, h0: nat, i: nat)
    requires h0 <= |s| && HeadEnd(SmartHomeHeader, s, h0).Some? && h0 < i < HeadEnd(SmartHomeHeader, s, h0).value
    ensures HeadEnd(SmartHomeHeader, s, i).None?
  {
    assert LitAt("스마트홈", s, h0);
    assert HeadEnd(SmartHomeHeader, s, h0).value == h0 + 4;
    assert s[i] == s[h0..h0 + 4][i - h0] != '스';
    assert !LitAt("스마트홈", s, i);
  }

  /** The headers of the section-scoped fields. */
  predicate IsSectionHeader(h: seq<Tok>) {
    h == TvMainHeader || h == TvSubHeader || h == SmartHomeHeader
  }

  /**
   * The TV주_*, TV부_* and 스마트홈_* entries, and only they, are scoped, each
   * by its own section header; the four internet fields are bare tails.
   */
  lemma ScopedEntries(k: nat)
    requires k < |FieldPatterns|
    ensures FieldPatterns[k].1.Scoped? <==> 11 <= k <= 14 || 16 <= k <= 19 || 21 <= k <= 24
    ensures FieldPatterns[k].1.Scoped? ==> IsSectionHeader(FieldPatterns[k].1.header)
    ensures 11 <= k <= 14 ==> FieldPatterns[k].1.header == TvMainHeader
    ensures 16 <= k <= 19 ==> FieldPatterns[k].1.header == TvSubHeader
    ensures 21 <= k <= 24 ==> FieldPatterns[k].1.header == SmartHomeHeader
    ensures 6 <= k <= 9 ==> FieldPatterns[k].1.Plain?
  {
  }

  lemma SectionHeaderNoOverlap(h: seq<Tok>, s: string, h0: nat)
    requires IsSectionHeader(h)
    requires h0 <= |s| && HeadEnd(h, s, h0).Some?
    ensures forall i :: h0 < i < HeadEnd(h, s, h0).value ==> HeadEnd(h, s, i).None?
  {
    forall i | h0 < i < HeadEnd(h, s, h0).value ensures HeadEnd(h, s, i).None? {
      if h == SmartHomeHeader {
        SmartHomeHeaderNoOverlap(s, h0, i);
      } else {
        TvHeaderNoOverlap(h[2].text, s, h0, i);
      }
    }
  }
}
