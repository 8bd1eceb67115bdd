/**
 * Hand-written matchers for the regular-expression shapes that occur in the
 * field table, with the search semantics of Python's `re.search`.
 *
 * `re.search` tries the start positions 0, 1, ..., |s| in turn and returns
 * the first start at which the pattern matches; at one start position the
 * backtracking engine takes the first alternative in priority order
 * (greedy repetitions longest first, lazy ones shortest first). Each matcher
 * below returns group 1 of that first match, unstripped, or None.
 */
module Matchers {
  import opened Wrappers
  import opened Chars

  /** The character classes that occur in the table. */
  datatype CharClass =
    | NameChar     // [가-힣A-Za-z· ]
    | PhoneChar    // [\d\s\-]
    | Digit        // \d
    | WordChar     // [가-힣A-Za-z0-9]
    | AsciiDigit   // [0-9]
    | DateChar     // [0-9\-]
    | NotNewline   // [^\n], and . without DOTALL
    | Separator    // [:\s]
    | Space        // \s
    | Blank        // [ \t]

  predicate InClass(c: char, cls: CharClass) {
    match cls
    case NameChar => IsHangulSyllable(c) || IsAsciiLetter(c) || c == '·' || c == ' '
    case PhoneChar => IsDecimal(c) || IsSpace(c) || c == '-'
    case Digit => IsDecimal(c)
    case WordChar => IsHangulSyllable(c) || IsAsciiLetter(c) || ('0' <= c <= '9')
    case AsciiDigit => '0' <= c <= '9'
    case DateChar => ('0' <= c <= '9') || c == '-'
    case NotNewline => c != '\n'
    case Separator => c == ':' || IsSpace(c)
    case Space => IsSpace(c)
    case Blank => c == ' ' || c == '\t'
  }

  /** One piece of a fixed pattern prefix: a literal, or `\s*`. */
  datatype Tok = Lit(text: string) | Spaces

  /** The upper bound of a repetition: `+` has none, `{6,8}` has 8. */
  datatype Bound = Unbounded | AtMost(n: nat)

  /** Group 1 of the label family. */
  datatype Capture =
    | Run(cls: CharClass, least: nat, most: Bound)  // ([cls]{least,most}), greedy
    | LineBeforeNewline                             // (.+?)(?=\n)

  datatype DatePart = StartDate | EndDate

  /** The part of a pattern that holds group 1. */
  datatype Tail =
    | Labelled(head: seq<Tok>, cap: Capture)   // head[:\s]*(cap)
    | ContractPeriod(part: DatePart)           // 약정기간[^(]*\((date) or 약정기간[^(]*\(date~(date)\)

  /** The pattern families of the table. */
  datatype Pattern =
    | Plain(tail: Tail)                     // tail
    | Scoped(header: seq<Tok>, tail: Tail)  // header[\s\S]*?tail
    | LineStart(tail: Tail)                 // (?m)^[ \t]*tail

  /** The literal that starts every contract-period pattern. */
  const PeriodLabel: string := "약정기간"

  predicate LitAt(t: string, s: string, i: nat) {
    i + |t| <= |s| && s[i..i + |t|] == t
  }

  /** The length of the longest run of `cls` characters starting at `i`. */
  function ClassRun(cls: CharClass, s: string, i: nat): (n: nat)
    requires i <= |s|
    ensures i + n <= |s|
    ensures forall k :: i <= k < i + n ==> InClass(s[k], cls)
    ensures i + n == |s| || !InClass(s[i + n], cls)
    decreases |s| - i
  {
    if i < |s| && InClass(s[i], cls) then 1 + ClassRun(cls, s, i + 1) else 0
  }

  /** The first position at or after `i` that holds `c`. */
  function IndexOf(c: char, s: string, i: nat): (r: Option<nat>)
    requires i <= |s|
    ensures r.Some? ==> i <= r.value < |s| && s[r.value] == c
    ensures r.Some? ==> forall k :: i <= k < r.value ==> s[k] != c
    ensures r.None? ==> forall k :: i <= k < |s| ==> s[k] != c
    decreases |s| - i
  {
    if i == |s| then None
    else if s[i] == c then Some(i)
    else IndexOf(c, s, i + 1)
  }

  /**
   * Where a fixed prefix starting at `i` ends, if it matches there. A `\s*`
   * takes the whole run of whitespace: every `\s*` in the table is followed
   * by a literal that starts with a non-whitespace character, so a shorter
   * run can never let the rest of the pattern match.
   */
  function HeadEnd(toks: seq<Tok>, s: string, i: nat): (r: Option<nat>)
    requires i <= |s|
    ensures r.Some? ==> i <= r.value <= |s|
    decreases |toks|
  {
    if toks == [] then Some(i)
    else match toks[0]
      case Lit(t) => if LitAt(t, s, i) then HeadEnd(toks[1..], s, i + |t|) else None
      case Spaces => HeadEnd(toks[1..], s, i + ClassRun(Space, s, i))
  }

  function Min(a: nat, b: nat): nat {
    if a <= b then a else b
  }

  /**
   * Group 1, tried at position `q` once `[:\s]*` has ended there. A run
   * capture is the longest run of its class (cut at the upper bound) and
   * fails when fewer than `least` class characters follow; the lookahead
   * capture is the non-empty rest of the line and needs a newline after it.
   */
  function CaptureAt(cap: Capture, s: string, q: nat): (r: Option<string>)
    requires q <= |s|
    ensures r.Some? ==> q + |r.value| <= |s| && r.value == s[q..q + |r.value|]
  {
    match cap
    case Run(cls, least, most) =>
      var n := ClassRun(cls, s, q);
      if n < least then None
      else Some(s[q..q + (if most.AtMost? then Min(n, most.n) else n)])
    case LineBeforeNewline =>
      // the lazy `.+?` grows until a newline follows; `.` cannot pass one
      var n := ClassRun(NotNewline, s, q);
      if 1 <= n && q + n < |s| then Some(s[q..q + n]) else None
  }

  /**
   * A run capture is a run of its class within the bounds, which stops at
   * the end of the text, at a character outside the class or at the upper
   * bound; it fails exactly when fewer than `least` class characters follow.
   */
  lemma RunCapture(cap: Capture, s: string, q: nat)
    requires cap.Run? && q <= |s|
    ensures var r := CaptureAt(cap, s, q);
      r.Some? ==>
        && (cap.most.AtMost? ==> |r.value| <= cap.most.n)
        && (forall k :: 0 <= k < |r.value| ==> InClass(r.value[k], cap.cls))
        && (q + |r.value| == |s| || !InClass(s[q + |r.value|], cap.cls) || cap.most == AtMost(|r.value|))
    ensures var r := CaptureAt(cap, s, q);
      r.Some? && (cap.most.AtMost? ==> cap.least <= cap.most.n) ==> cap.least <= |r.value|
    ensures CaptureAt(cap, s, q).None? ==>
      !(q + cap.least <= |s| && forall k :: q <= k < q + cap.least ==> InClass(s[k], cap.cls))
  {
    var r := CaptureAt(cap, s, q);
    if r.Some? {
      forall k | 0 <= k < |r.value| ensures InClass(r.value[k], cap.cls) {
        assert r.value[k] == s[q + k];
      }
    }
  }

  /**
   * The lookahead capture is a non-empty piece of one line that a newline
   * follows; it fails exactly at the end of the text, on an empty line, or
   * when no newline follows.
   */
  lemma LineCapture(s: string, q: nat)
    requires q <= |s|
    ensures var r := CaptureAt(LineBeforeNewline, s, q);
      r.Some? ==>
        && 1 <= |r.value|
        && (forall k :: 0 <= k < |r.value| ==> r.value[k] != '\n')
        && q + |r.value| < |s| && s[q + |r.value|] == '\n'
    ensures CaptureAt(LineBeforeNewline, s, q).None? <==>
      q == |s| || s[q] == '\n' || forall k :: q <= k < |s| ==> s[k] != '\n'
  {
    var n := ClassRun(NotNewline, s, q);
    assert q + n < |s| ==> s[q + n] == '\n';
    var r := CaptureAt(LineBeforeNewline, s, q);
    if r.Some? {
      forall k | 0 <= k < |r.value| ensures r.value[k] != '\n' {
        assert r.value[k] == s[q + k];
      }
    }
  }

  /** The last present entry of `xs` at index `j` or earlier. */
  function LastUpTo<T>(xs: seq<Option<T>>, j: nat): Option<T>
    requires j < |xs|
    decreases j
  {
    match xs[j]
    case Some(v) => Some(v)
    case None => if j == 0 then None else LastUpTo(xs, j - 1)
  }

  /** Group 1 tried after keeping `m` of the separators, for `m` from 0 to `j`. */
  function Captures(cap: Capture, s: string, p: nat, j: nat): (xs: seq<Option<string>>)
    requires p + j <= |s|
    ensures |xs| == j + 1 && forall m :: 0 <= m <= j ==> xs[m] == CaptureAt(cap, s, p + m)
  {
    seq(j + 1, m requires 0 <= m <= j => CaptureAt(cap, s, p + m))
  }

  /**
   * `[:\s]*` first takes all `j` separator characters after the label; when
   * group 1 cannot match after them it gives them back one at a time.
   */
  function GiveBack(cap: Capture, s: string, p: nat, j: nat): (r: Option<string>)
    requires p + j <= |s|
  {
    LastUpTo(Captures(cap, s, p, j), j)
  }

  /** `\d{4}-\d{2}-\d{2}` at position `o`. */
  predicate DateAt(s: string, o: nat) {
    && o + 10 <= |s|
    && IsDecimal(s[o]) && IsDecimal(s[o + 1]) && IsDecimal(s[o + 2]) && IsDecimal(s[o + 3])
    && s[o + 4] == '-'
    && IsDecimal(s[o + 5]) && IsDecimal(s[o + 6])
    && s[o + 7] == '-'
    && IsDecimal(s[o + 8]) && IsDecimal(s[o + 9])
  }

  /**
   * The contract-period tail at `q`. `[^(]*\(` can only stop at the first
   * `(` after the label, so the dates are looked for right after it.
   */
  function PeriodAt(part: DatePart, s: string, q: nat): (r: Option<string>)
    requires q <= |s|
  {
    if !LitAt(PeriodLabel, s, q) then None
    else match IndexOf('(', s, q + |PeriodLabel|)
      case None => None
      case Some(o) =>
        if !DateAt(s, o + 1) then None
        else if part == StartDate then Some(s[o + 1..o + 11])
        else if o + 22 < |s| && s[o + 11] == '~' && DateAt(s, o + 12) && s[o + 22] == ')' then
          Some(s[o + 12..o + 22])
        else None
  }

  function TailAt(t: Tail, s: string, q: nat): (r: Option<string>)
    requires q <= |s|
  {
    match t
    case Labelled(head, cap) =>
      (match HeadEnd(head, s, q)
       case None => None
       case Some(p) => GiveBack(cap, s, p, ClassRun(Separator, s, p)))
    case ContractPeriod(part) => PeriodAt(part, s, q)
  }

  /** `^` in MULTILINE mode: the start of the text or just after a newline. */
  predicate AtLineStart(s: string, i: nat)
    requires i <= |s|
  {
    i == 0 || s[i - 1] == '\n'
  }

  /** The first present entry of `xs` at index `i` or later. */
  function FirstFrom<T>(xs: seq<Option<T>>, i: nat): Option<T>
    requires i <= |xs|
    decreases |xs| - i
  {
    if i == |xs| then None
    else match xs[i]
      case Some(v) => Some(v)
      case None => FirstFrom(xs, i + 1)
  }

  /** The tail's result at each position 0, 1, ..., |s|. */
  function TailStarts(t: Tail, s: string): (r: seq<Option<string>>)
    ensures |r| == |s| + 1
  {
    seq(|s| + 1, q requires 0 <= q <= |s| => TailAt(t, s, q))
  }

  /** Group 1 of the first match of `pat` that starts exactly at `i`. */
  function MatchAt(pat: Pattern, s: string, i: nat): (r: Option<string>)
    requires i <= |s|
  {
    match pat
    case Plain(t) => TailAt(t, s, i)
    case Scoped(h, t) =>
      // the lazy `[\s\S]*?` tries the tail at e, e + 1, ... in turn
      (match HeadEnd(h, s, i)
       case None => None
       case Some(e) => FirstFrom(TailStarts(t, s), e))
    case LineStart(t) =>
      if AtLineStart(s, i) then TailAt(t, s, i + ClassRun(Blank, s, i)) else None
  }

  /** The pattern's result at each start position 0, 1, ..., |s|. */
  function Starts(pat: Pattern, s: string): (r: seq<Option<string>>)
    ensures |r| == |s| + 1
  {
    seq(|s| + 1, i requires 0 <= i <= |s| => MatchAt(pat, s, i))
  }

  /** `re.search(pat, s)`, reduced to group 1 of its match. */
  function Search(pat: Pattern, s: string): Option<string> {
    FirstFrom(Starts(pat, s), 0)
  }

  // ---------------------------------------------------------------------
  // What the matchers mean

  /** `FirstFrom` is None exactly when no entry from `i` on is present. */
  lemma {:induction false} FirstFromNone<T>(xs: seq<Option<T>>, i: nat)
    requires i <= |xs|
    ensures FirstFrom(xs, i).None? ==> forall k :: i <= k < |xs| ==> xs[k].None?
    ensures (forall k :: i <= k < |xs| ==> xs[k].None?) ==> FirstFrom(xs, i).None?
    decreases |xs| - i
  {
    if i < |xs| && xs[i].None? {
      FirstFromNone(xs, i + 1);
    }
  }

  /** `FirstFrom` is the leftmost present entry. */
  lemma {:induction false} FirstFromLeftmost<T>(xs: seq<Option<T>>, i: nat, k: nat)
    requires i <= k < |xs| && xs[k].Some?
    requires forall m :: i <= m < k ==> xs[m].None?
    ensures FirstFrom(xs, i) == xs[k]
    decreases k - i
  {
    if i < k {
      FirstFromLeftmost(xs, i + 1, k);
    }
  }

  /** A found entry sits at some index, and every earlier one is absent. */
  lemma {:induction false} FirstFromWitness<T>(xs: seq<Option<T>>, i: nat) returns (k: nat)
    requires i <= |xs| && FirstFrom(xs, i).Some?
    ensures i <= k < |xs| && xs[k] == FirstFrom(xs, i)
    ensures forall m :: i <= m < k ==> xs[m].None?
    decreases |xs| - i
  {
    if xs[i].Some? {
      k := i;
    } else {
      k := FirstFromWitness(xs, i + 1);
    }
  }

  /**
   * `re.search`: None exactly when the pattern matches at no start
   * position, and otherwise group 1 of the match with the leftmost start.
   */
  lemma SearchIsLeftmost(pat: Pattern, s: string) returns (k: nat)
    ensures Search(pat, s).None? ==> forall i :: 0 <= i <= |s| ==> MatchAt(pat, s, i).None?
    ensures (forall i :: 0 <= i <= |s| ==> MatchAt(pat, s, i).None?) ==> Search(pat, s).None?
    ensures Search(pat, s).Some? ==>
      k <= |s| && MatchAt(pat, s, k) == Search(pat, s) && forall m :: 0 <= m < k ==> MatchAt(pat, s, m).None?
  {
    var xs := Starts(pat, s);
    FirstFromNone(xs, 0);
    assert forall i :: 0 <= i <= |s| ==> xs[i] == MatchAt(pat, s, i);
    k := 0;
    if Search(pat, s).Some? {
      k := FirstFromWitness(xs, 0);
    }
  }

  /** The match at the leftmost matching start is what `re.search` returns. */
  lemma SearchAt(pat: Pattern, s: string, k: nat)
    requires k <= |s| && MatchAt(pat, s, k).Some?
    requires forall m :: 0 <= m < k ==> MatchAt(pat, s, m).None?
    ensures Search(pat, s) == MatchAt(pat, s, k)
  {
    var xs := Starts(pat, s);
    assert forall m :: 0 <= m <= |s| ==> xs[m] == MatchAt(pat, s, m);
    FirstFromLeftmost(xs, 0, k);
  }

  /** `LastUpTo` is None exactly when no entry up to `j` is present. */
  lemma {:induction false} LastUpToNone<T>(xs: seq<Option<T>>, j: nat)
    requires j < |xs|
    ensures LastUpTo(xs, j).None? <==> forall y :: 0 <= y <= j ==> xs[y].None?
    decreases j
  {
    if xs[j].None? && j > 0 {
      LastUpToNone(xs, j - 1);
    }
  }

  /** A found entry is the rightmost present one up to `j`. */
  lemma {:induction false} LastUpToWitness<T>(xs: seq<Option<T>>, j: nat) returns (m: nat)
    requires j < |xs| && LastUpTo(xs, j).Some?
    ensures m <= j && xs[m] == LastUpTo(xs, j)
    ensures forall y :: m < y <= j ==> xs[y].None?
    decreases j
  {
    if xs[j].Some? {
      m := j;
    } else {
      m := LastUpToWitness(xs, j - 1);
    }
  }

  /**
   * `[:\s]*` gives back separator characters from the right: the capture
   * comes from the largest number of kept separators that lets it match.
   */
  lemma GiveBackLargest(cap: Capture, s: string, p: nat, j: nat) returns (x: nat)
    requires p + j <= |s| && GiveBack(cap, s, p, j).Some?
    ensures p <= x <= p + j && GiveBack(cap, s, p, j) == CaptureAt(cap, s, x)
    ensures forall y :: x < y <= p + j ==> CaptureAt(cap, s, y).None?
  {
    var xs := Captures(cap, s, p, j);
    var m := LastUpToWitness(xs, j);
    x := p + m;
    forall y | x < y <= p + j ensures CaptureAt(cap, s, y).None? {
      assert xs[y - p].None?;
    }
  }

  /** When group 1 matches after all `j` separators, the give-back keeps them all. */
  lemma GiveBackKeepsAll(cap: Capture, s: string, p: nat, j: nat)
    requires p + j <= |s| && CaptureAt(cap, s, p + j).Some?
    ensures GiveBack(cap, s, p, j) == CaptureAt(cap, s, p + j)
  {
    var xs := Captures(cap, s, p, j);
    assert xs[j] == CaptureAt(cap, s, p + j);
  }

  /** The give-back fails exactly when the capture fails after every number of kept separators. */
  lemma GiveBackNone(cap: Capture, s: string, p: nat, j: nat)
    requires p + j <= |s|
    ensures GiveBack(cap, s, p, j).None? <==> forall y :: p <= y <= p + j ==> CaptureAt(cap, s, y).None?
  {
    var xs := Captures(cap, s, p, j);
    LastUpToNone(xs, j);
    if forall m :: 0 <= m <= j ==> xs[m].None? {
      forall y | p <= y <= p + j ensures CaptureAt(cap, s, y).None? {
        assert xs[y - p].None?;
      }
    } else {
      var m :| 0 <= m <= j && xs[m].Some?;
      assert CaptureAt(cap, s, p + m).Some?;
    }
  }

  // ---------------------------------------------------------------------
  // Section-scoped patterns

  /** A scoped pattern whose header never occurs matches nothing. */
  lemma ScopedWithoutHeader(h: seq<Tok>, t: Tail, s: string)
    requires forall i :: 0 <= i <= |s| ==> HeadEnd(h, s, i).None?
    ensures Search(Scoped(h, t), s).None?
  {
    var k := SearchIsLeftmost(Scoped(h, t), s);
  }

  /** Once no entry from `a` on is present, none from a later `b` is. */
  lemma FirstFromNoneLater<T>(xs: seq<Option<T>>, a: nat, b: nat)
    requires a <= b <= |xs|
    requires FirstFrom(xs, a).None?
    ensures FirstFrom(xs, b).None?
  {
    FirstFromNone(xs, a);
    FirstFromNone(xs, b);
  }

  /**
   * A scoped pattern takes the first tail match that starts at or after the
   * end of the FIRST header occurrence, provided no header occurrence starts
   * inside that first one. It is None when the tail never matches there.
   */
  lemma ScopedAfterFirstHeader(h: seq<Tok>, t: Tail, s: string, h0: nat)
    requires h0 <= |s| && HeadEnd(h, s, h0).Some?
    requires forall i :: 0 <= i < h0 ==> HeadEnd(h, s, i).None?
    requires forall i :: h0 < i < HeadEnd(h, s, h0).value ==> HeadEnd(h, s, i).None?
    ensures Search(Scoped(h, t), s) == FirstFrom(TailStarts(t, s), HeadEnd(h, s, h0).value)
  {
    if FirstFrom(TailStarts(t, s), HeadEnd(h, s, h0).value).Some? {
      ScopedFoundAfterHeader(h, t, s, h0);
    } else {
      ScopedMissingAfterHeader(h, t, s, h0);
    }
  }

  /** A tail match after the first header is the scoped match found at that header. */
  lemma ScopedFoundAfterHeader(h: seq<Tok>, t: Tail, s: string, h0: nat)
    requires h0 <= |s| && HeadEnd(h, s, h0).Some?
    requires forall i :: 0 <= i < h0 ==> HeadEnd(h, s, i).None?
    requires FirstFrom(TailStarts(t, s), HeadEnd(h, s, h0).value).Some?
    ensures Search(Scoped(h, t), s) == FirstFrom(TailStarts(t, s), HeadEnd(h, s, h0).value)
  {
    var pat := Scoped(h, t);
    assert forall i :: 0 <= i < h0 ==> MatchAt(pat, s, i).None?;
    SearchAt(pat, s, h0);
  }

  /**
   * No tail match after the first header: no header occurrence from there
   * on sees one either, and headers starting inside the first one do not
   * exist, so the scoped pattern matches nothing.
   */
  lemma ScopedMissingAfterHeader(h: seq<Tok>, t: Tail, s: string, h0: nat)
    requires h0 <= |s| && HeadEnd(h, s, h0).Some?
    requires forall i :: 0 <= i < h0 ==> HeadEnd(h, s, i).None?
    requires forall i :: h0 < i < HeadEnd(h, s, h0).value ==> HeadEnd(h, s, i).None?
    requires FirstFrom(TailStarts(t, s), HeadEnd(h, s, h0).value).None?
    ensures Search(Scoped(h, t), s).None?
  {
    var pat := Scoped(h, t);
    var e0 := HeadEnd(h, s, h0).value;
    var ts := TailStarts(t, s);
    forall i | 0 <= i <= |s| ensures MatchAt(pat, s, i).None? {
      if HeadEnd(h, s, i).Some? {
        assert i >= e0 || i == h0;
        FirstFromNoneLater(ts, e0, HeadEnd(h, s, i).value);
      }
    }
    var k := SearchIsLeftmost(pat, s);
  }

  /** An unscoped pattern is the first tail match anywhere in the text. */
  lemma PlainIsFirstTail(t: Tail, s: string)
    ensures Search(Plain(t), s) == FirstFrom(TailStarts(t, s), 0)
  {
    assert Starts(Plain(t), s) == TailStarts(t, s);
  }

  // ---------------------------------------------------------------------
  // Line-anchored patterns

  /** Position `p` is preceded on its line by spaces and tabs only. */
  predicate StartsLine(s: string, p: nat)
    requires p <= |s|
  {
    p == 0 || s[p - 1] == '\n' || ((s[p - 1] == ' ' || s[p - 1] == '\t') && StartsLine(s, p - 1))
  }

  lemma {:induction false} BlanksStartLine(s: string, i: nat, p: nat)
    requires i <= p <= |s| && AtLineStart(s, i)
    requires forall k :: i <= k < p ==> InClass(s[k], Blank)
    ensures StartsLine(s, p)
    decreases p - i
  {
    if p > i {
      BlanksStartLine(s, i, p - 1);
    }
  }

  lemma {:induction false} LineOf(s: string, p: nat) returns (i: nat)
    requires p <= |s| && StartsLine(s, p)
    ensures i <= p && AtLineStart(s, i)
    ensures forall k :: i <= k < p ==> InClass(s[k], Blank)
    decreases p
  {
    if p == 0 || s[p - 1] == '\n' {
      i := p;
    } else {
      i := LineOf(s, p - 1);
    }
  }

  lemma {:induction false} RunEndsAt(cls: CharClass, s: string, i: nat, p: nat)
    requires i <= p <= |s|
    requires forall k :: i <= k < p ==> InClass(s[k], cls)
    requires p == |s| || !InClass(s[p], cls)
    ensures ClassRun(cls, s, i) == p - i
    decreases p - i
  {
    if i < p {
      RunEndsAt(cls, s, i + 1, p);
    }
  }

  /** A tail that starts with a literal whose first character is not a space or tab. */
  predicate OpensWithNonBlank(t: Tail) {
    t.Labelled? && t.head != [] && t.head[0].Lit? && t.head[0].text != []
    && !InClass(t.head[0].text[0], Blank)
  }

  /**
   * `(?m)^[ \t]*tail`: a match found is a tail match at a position that only
   * spaces and tabs separate from the start of its line.
   */
  lemma LineStartFound(t: Tail, s: string) returns (p: nat)
    requires Search(LineStart(t), s).Some?
    ensures p <= |s| && StartsLine(s, p) && TailAt(t, s, p) == Search(LineStart(t), s)
    ensures OpensWithNonBlank(t) ==>
      forall p' :: 0 <= p' < p && StartsLine(s, p') ==> TailAt(t, s, p').None?
  {
    var i := SearchIsLeftmost(LineStart(t), s);
    p := i + ClassRun(Blank, s, i);
    BlanksStartLine(s, i, p);
    if OpensWithNonBlank(t) {
      forall p' | 0 <= p' < p && StartsLine(s, p') ensures TailAt(t, s, p').None? {
        if TailAt(t, s, p').Some? {
          var i' := EarlierLineStart(t, s, i, p');
          assert false;
        }
      }
    }
  }

  /**
   * A tail match at a line-start position `p'` left of where the line
   * starting at `i` leaves its blanks comes from a matching start before `i`.
   */
  lemma EarlierLineStart(t: Tail, s: string, i: nat, p': nat) returns (i': nat)
    requires OpensWithNonBlank(t) && i <= |s| && AtLineStart(s, i)
    requires p' < i + ClassRun(Blank, s, i) && StartsLine(s, p') && TailAt(t, s, p').Some?
    ensures i' < i && MatchAt(LineStart(t), s, i').Some?
  {
    i' := LineOf(s, p');
    OpeningChar(t, s, p');
    RunEndsAt(Blank, s, i', p');
    LineStartAt(t, s, i');
  }

  /** Conversely, such a tail match anywhere makes the search succeed. */
  lemma LineStartFinds(t: Tail, s: string, p: nat)
    requires OpensWithNonBlank(t)
    requires p <= |s| && StartsLine(s, p) && TailAt(t, s, p).Some?
    ensures Search(LineStart(t), s).Some?
  {
    var i := LineOf(s, p);
    OpeningChar(t, s, p);
    RunEndsAt(Blank, s, i, p);
    LineStartAt(t, s, i);
    SearchFinds(LineStart(t), s, i);
  }

  /** At the start of a line, `(?m)^[ \t]*tail` is the tail after the line's blanks. */
  lemma LineStartAt(t: Tail, s: string, i: nat)
    requires i <= |s| && AtLineStart(s, i)
    ensures MatchAt(LineStart(t), s, i) == TailAt(t, s, i + ClassRun(Blank, s, i))
  {
  }

  /** A tail of that kind matches only where its opening character is. */
  lemma OpeningChar(t: Tail, s: string, p: nat)
    requires OpensWithNonBlank(t)
    requires p <= |s| && TailAt(t, s, p).Some?
    ensures p < |s| && !InClass(s[p], Blank)
  {
    var lit := t.head[0].text;
    assert HeadEnd(t.head, s, p).Some?;
    assert LitAt(lit, s, p);
    assert s[p] == s[p..p + |lit|][0];
  }

  /** A match at any position makes the search succeed. */
  lemma SearchFinds(pat: Pattern, s: string, i: nat)
    requires i <= |s| && MatchAt(pat, s, i).Some?
    ensures Search(pat, s).Some?
  {
    var k := SearchIsLeftmost(pat, s);
  }

  // ---------------------------------------------------------------------
  // The lookahead capture and the contract-period tails

  /** `(.+?)(?=\n)` cannot match when no newline follows the label. */
  lemma LookaheadNeedsNewline(h: seq<Tok>, s: string, q: nat)
    requires q <= |s|
    requires forall k :: q <= k < |s| ==> s[k] != '\n'
    ensures TailAt(Labelled(h, LineBeforeNewline), s, q).None?
  {
    match HeadEnd(h, s, q)
    case None =>
    case Some(p) =>
      var j := ClassRun(Separator, s, p);
      GiveBackNone(LineBeforeNewline, s, p, j);
  }

  /**
   * A label ending at `p`, separators up to `c`, then a non-empty piece of a
   * line up to a newline at `c + n`: the lookahead tail captures that piece.
   */
  lemma LineAfterSeparators(h: seq<Tok>, s: string, q: nat, p: nat, c: nat, n: nat)
    requires q <= |s| && HeadEnd(h, s, q) == Some(p) && p <= c && 1 <= n && c + n < |s|
    requires forall k :: p <= k < c ==> InClass(s[k], Separator)
    requires !InClass(s[c], Separator) && s[c + n] == '\n'
    requires forall k :: c <= k < c + n ==> s[k] != '\n'
    ensures TailAt(Labelled(h, LineBeforeNewline), s, q) == Some(s[c..c + n])
  {
    RunEndsAt(Separator, s, p, c);
    LineCaptureAt(s, c, n);
    GiveBackKeepsAll(LineBeforeNewline, s, p, c - p);
  }

  /** A non-empty piece of a line up to a newline is what `(.+?)(?=\n)` captures there. */
  lemma LineCaptureAt(s: string, c: nat, n: nat)
    requires 1 <= n && c + n < |s| && s[c + n] == '\n'
    requires forall k :: c <= k < c + n ==> s[k] != '\n'
    ensures CaptureAt(LineBeforeNewline, s, c) == Some(s[c..c + n])
  {
    RunEndsAt(NotNewline, s, c, c + n);
  }

  /** A date `dddd-dd-dd`, as a string of its own. */
  predicate IsDate(d: string) {
    |d| == 10 && DateAt(d, 0)
  }

  /** What `\d{4}-\d{2}-\d{2}~` ... `\)` needs after the start date. */
  predicate ClosesPeriod(rest: string) {
    |rest| >= 12 && rest[0] == '~' && DateAt(rest, 1) && rest[11] == ')'
  }

  lemma DateAtShift(d: string, s: string, o: nat)
    requires o + |d| <= |s| && s[o..o + |d|] == d && |d| >= 10
    ensures DateAt(s, o) == DateAt(d, 0)
  {
    assert forall k :: 0 <= k < |d| ==> s[o + k] == d[k];
  }

  /** The contract-period tail at `q` when the first `(` after the label is at `o`. */
  lemma PeriodAtParen(part: DatePart, s: string, q: nat, o: nat)
    requires LitAt(PeriodLabel, s, q) && q + 4 <= o < |s| && s[o] == '('
    requires forall k :: q + 4 <= k < o ==> s[k] != '('
    ensures !DateAt(s, o + 1) ==> PeriodAt(part, s, q).None?
    ensures DateAt(s, o + 1) && part == StartDate ==> PeriodAt(part, s, q) == Some(s[o + 1..o + 11])
    ensures DateAt(s, o + 1) && part == EndDate ==>
      PeriodAt(part, s, q) ==
        if ClosesPeriod(s[o + 11..]) then Some(s[o + 12..o + 22]) else None
  {
    assert IndexOf('(', s, q + 4) == Some(o);
    if DateAt(s, o + 1) && o + 23 <= |s| {
      var d := s[o + 12..o + 22];
      DateAtShift(d, s, o + 12);
      assert s[o + 11..][1..11] == d;
      DateAtShift(d, s[o + 11..], 1);
    }
  }

  /** The facts about `pre + 약정기간 + mid + "(" + d1 + post` that both period lemmas use. */
  lemma PeriodLayout(pre: string, mid: string, d1: string, post: string)
    requires '(' !in mid && IsDate(d1)
    ensures var s := pre + PeriodLabel + mid + "(" + d1 + post;
      var q := |pre|;
      var o := q + 4 + |mid|;
      && LitAt(PeriodLabel, s, q) && s[o] == '(' && DateAt(s, o + 1)
      && s[o + 1..o + 11] == d1 && s[o + 11..] == post
      && (forall k :: q + 4 <= k < o ==> s[k] != '(')
  {
    var s := pre + PeriodLabel + mid + "(" + d1 + post;
    var q := |pre|;
    var o := q + 4 + |mid|;
    assert s[q..q + 4] == PeriodLabel;
    assert forall k :: q + 4 <= k < o ==> s[k] == mid[k - q - 4];
    assert s[o + 1..o + 11] == d1;
    DateAtShift(d1, s, o + 1);
  }

  /**
   * From `e` on, the first contract-period tail is the one at the first
   * `약정기간` at or after `e`, when that one matches.
   */
  lemma PeriodFromLabel(part: DatePart, s: string, e: nat, q: nat)
    requires e <= q <= |s| && PeriodAt(part, s, q).Some?
    requires forall i :: e <= i < q ==> !LitAt(PeriodLabel, s, i)
    ensures FirstFrom(TailStarts(ContractPeriod(part), s), e) == PeriodAt(part, s, q)
  {
    var ts := TailStarts(ContractPeriod(part), s);
    assert forall i :: e <= i < q ==> ts[i].None?;
    FirstFromLeftmost(ts, e, q);
  }

  /** With no `약정기간` from `e` on that matches, no contract-period tail is found there. */
  lemma NoPeriodFrom(part: DatePart, s: string, e: nat)
    requires e <= |s|
    requires forall i :: e <= i <= |s| ==> PeriodAt(part, s, i).None?
    ensures FirstFrom(TailStarts(ContractPeriod(part), s), e).None?
  {
    var ts := TailStarts(ContractPeriod(part), s);
    assert forall i :: e <= i <= |s| ==> ts[i].None?;
    FirstFromNone(ts, e);
  }

  /**
   * `약정기간 ... (d1` with no `(` between label and date: when no earlier
   * `약정기간` starts at or after `e`, the start tail found from `e` on is `d1`.
   */
  lemma PeriodStartFrom(pre: string, mid: string, d1: string, post: string, e: nat)
    requires e <= |pre| && '(' !in mid && IsDate(d1)
    requires forall i :: e <= i < |pre| ==> !LitAt(PeriodLabel, pre + PeriodLabel + mid + "(" + d1 + post, i)
    ensures FirstFrom(TailStarts(ContractPeriod(StartDate), pre + PeriodLabel + mid + "(" + d1 + post), e) == Some(d1)
  {
    var s := pre + PeriodLabel + mid + "(" + d1 + post;
    var q := |pre|;
    PeriodLayout(pre, mid, d1, post);
    PeriodAtParen(StartDate, s, q, q + 4 + |mid|);
    PeriodFromLabel(StartDate, s, e, q);
  }

  /** The same layout closed by `close` = `~d2)...`: the end tail found from `e` on is `d2`. */
  lemma PeriodEndFrom(pre: string, mid: string, d1: string, close: string, e: nat)
    requires e <= |pre| && '(' !in mid && IsDate(d1) && ClosesPeriod(close)
    requires forall i :: e <= i < |pre| ==> !LitAt(PeriodLabel, pre + PeriodLabel + mid + "(" + d1 + close, i)
    ensures FirstFrom(TailStarts(ContractPeriod(EndDate), pre + PeriodLabel + mid + "(" + d1 + close), e) == Some(close[1..11])
  {
    var s := pre + PeriodLabel + mid + "(" + d1 + close;
    var q := |pre|;
    var o := q + 4 + |mid|;
    PeriodLayout(pre, mid, d1, close);
    assert s[o + 11..] == close;
    assert s[o + 12..o + 22] == close[1..11];
    PeriodAtParen(EndDate, s, q, o);
    PeriodFromLabel(EndDate, s, e, q);
  }

  /**
   * `약정기간 ... (d1~d2)`, searched from `e` with no `약정기간` between `e`
   * and the label: the start tail is `d1` and the end tail is `d2`.
   */
  lemma PeriodDatesFrom(pre: string, mid: string, d1: string, d2: string, post: string, e: nat)
    requires e <= |pre| && '(' !in mid && IsDate(d1) && IsDate(d2)
    requires var s := pre + PeriodLabel + mid + "(" + d1 + "~" + d2 + ")" + post;
      forall i :: e <= i < |pre| ==> !LitAt(PeriodLabel, s, i)
    ensures var s := pre + PeriodLabel + mid + "(" + d1 + "~" + d2 + ")" + post;
      FirstFrom(TailStarts(ContractPeriod(StartDate), s), e) == Some(d1) &&
      FirstFrom(TailStarts(ContractPeriod(EndDate), s), e) == Some(d2)
  {
    var close := "~" + d2 + ")" + post;
    assert pre + PeriodLabel + mid + "(" + d1 + close == pre + PeriodLabel + mid + "(" + d1 + "~" + d2 + ")" + post;
    PeriodStartFrom(pre, mid, d1, close, e);
    assert close[1..11] == d2 && close[11] == ')';
    DateAtShift(d2, close, 1);
    PeriodEndFrom(pre, mid, d1, close, e);
  }

  /**
   * `약정기간 ... (d1` without `~date)` after it, searched from `e`, where the
   * only `약정기간` from `e` on is this one: the start tail is `d1` and the
   * end tail is found nowhere.
   */
  lemma PeriodStartOnlyFrom(pre: string, mid: string, d1: string, post: string, e: nat)
    requires e <= |pre| && '(' !in mid && IsDate(d1) && !ClosesPeriod(post)
    requires var s := pre + PeriodLabel + mid + "(" + d1 + post;
      forall i :: e <= i <= |s| && i != |pre| ==> !LitAt(PeriodLabel, s, i)
    ensures var s := pre + PeriodLabel + mid + "(" + d1 + post;
      FirstFrom(TailStarts(ContractPeriod(StartDate), s), e) == Some(d1) &&
      FirstFrom(TailStarts(ContractPeriod(EndDate), s), e).None?
  {
    var s := pre + PeriodLabel + mid + "(" + d1 + post;
    var q := |pre|;
    PeriodLayout(pre, mid, d1, post);
    PeriodStartFrom(pre, mid, d1, post, e);
    PeriodAtParen(EndDate, s, q, q + 4 + |mid|);
    NoPeriodFrom(EndDate, s, e);
  }

  /** Without any other `약` in the text, the label occurs only right after `pre`. */
  lemma OnlyLabel(pre: string, mid: string, d1: string, post: string)
    requires '약' !in pre && '약' !in mid && '약' !in post && IsDate(d1)
    ensures var s := pre + PeriodLabel + mid + "(" + d1 + post;
      forall i :: 0 <= i <= |s| && i != |pre| ==> !LitAt(PeriodLabel, s, i)
  {
    var s := pre + PeriodLabel + mid + "(" + d1 + post;
    var q := |pre|;
    var o := q + 4 + |mid|;
    forall i | 0 <= i <= |s| && i != q ensures !LitAt(PeriodLabel, s, i) {
      if i < q {
        assert s[i] == pre[i];
      } else if i < q + 4 {
        assert s[i] == PeriodLabel[i - q];
      } else if i < o {
        assert s[i] == mid[i - q - 4];
      } else if i == o {
        assert s[i] == '(';
      } else if i < o + 11 {
        assert s[i] == d1[i - o - 1];
      } else if i < |s| {
        assert s[i] == post[i - o - 11];
      }
      if i + 4 <= |s| {
        assert s[i..i + 4][0] == s[i];
      }
    }
  }

  /**
   * `약정기간 ... (d1~d2)` with no earlier `약정기간` in the text and no `(`
   * between the label and the dates: the start pattern captures `d1` and the
   * end pattern captures `d2`.
   */
  lemma PeriodDates(pre: string, mid: string, d1: string, d2: string, post: string)
    requires '(' !in mid && IsDate(d1) && IsDate(d2)
    requires var s := pre + PeriodLabel + mid + "(" + d1 + "~" + d2 + ")" + post;
      forall i :: 0 <= i < |pre| ==> !LitAt(PeriodLabel, s, i)
    ensures var s := pre + PeriodLabel + mid + "(" + d1 + "~" + d2 + ")" + post;
      Search(Plain(ContractPeriod(StartDate)), s) == Some(d1) &&
      Search(Plain(ContractPeriod(EndDate)), s) == Some(d2)
  {
    var s := pre + PeriodLabel + mid + "(" + d1 + "~" + d2 + ")" + post;
    PlainIsFirstTail(ContractPeriod(StartDate), s);
    PlainIsFirstTail(ContractPeriod(EndDate), s);
    PeriodDatesFrom(pre, mid, d1, d2, post, 0);
  }

  /**
   * `약정기간 ... (d1` without `~date)` after it, the only `약정기간` in the
   * text: the start is captured and the end pattern finds nothing.
   */
  lemma PeriodStartOnly(pre: string, mid: string, d1: string, post: string)
    requires '(' !in mid && IsDate(d1) && !ClosesPeriod(post)
    requires var s := pre + PeriodLabel + mid + "(" + d1 + post;
      forall i :: 0 <= i <= |s| && i != |pre| ==> !LitAt(PeriodLabel, s, i)
    ensures var s := pre + PeriodLabel + mid + "(" + d1 + post;
      Search(Plain(ContractPeriod(StartDate)), s) == Some(d1) &&
      Search(Plain(ContractPeriod(EndDate)), s).None?
  {
    var s := pre + PeriodLabel + mid + "(" + d1 + post;
    PlainIsFirstTail(ContractPeriod(StartDate), s);
    PlainIsFirstTail(ContractPeriod(EndDate), s);
    PeriodStartOnlyFrom(pre, mid, d1, post, 0);
  }
}
