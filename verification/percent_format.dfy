/**
 * Python's printf-style `template % {'state': state, 'year': year}`, restricted to the
 * conversions the query templates use.
 *
 * The operator is modelled in two steps: `Scan` reads the template into pieces (literal
 * characters, the `%%` escape and the three placeholders), and `Render` writes each piece's
 * value. Both walk the text once from left to right, so a substituted value is never read
 * again as template text.
 */
module PercentFormat {
  import opened Wrappers

  /** One unit of a template as the `%` operator reads it. */
  datatype Piece =
    | Char(c: char)  // a character other than '%', copied unchanged
    | Escape         // "%%", which yields one '%'
    | State          // "%(state)s", which yields the state text
    | YearD          // "%(year)d", which yields the year in decimal
    | YearS          // "%(year)s", which yields str(year), the same decimal text

  datatype FormatError =
    | IncompleteFormat  // a '%' that is the last character of the template (Python's ValueError)
    | UnmodelledSpec    // any other conversion specification

  const StateToken: string := "%(state)s"
  const YearDToken: string := "%(year)d"
  const YearSToken: string := "%(year)s"

  /** Every character that occurs in the spelling of a non-literal piece. */
  const TokenChars: string := "%()stateyrd"

  predicate IsPlaceholder(p: Piece) {
    p.State? || p.YearD? || p.YearS?
  }

  /** The text of the template that a piece was read from. */
  function Spelling(p: Piece): string {
    match p
    case Char(c) => [c]
    case Escape => "%%"
    case State => StateToken
    case YearD => YearDToken
    case YearS => YearSToken
  }

  /** The text a piece is replaced by. */
  function Value(p: Piece, state: string, yearText: string): string {
    match p
    case Char(c) => [c]
    case Escape => "%"
    case State => state
    case YearD => yearText
    case YearS => yearText
  }

  /** Piece sequences that a scan can produce: a '%' is never a literal character. */
  predicate Canonical(ps: seq<Piece>) {
    forall i :: 0 <= i < |ps| ==> ps[i] != Char('%')
  }

  function Unscan(ps: seq<Piece>): string {
    if |ps| == 0 then "" else Spelling(ps[0]) + Unscan(ps[1..])
  }

  function Render(ps: seq<Piece>, state: string, yearText: string): string {
    if |ps| == 0 then "" else Value(ps[0], state, yearText) + Render(ps[1..], state, yearText)
  }

  function Prepend(p: Piece, r: Result<seq<Piece>, FormatError>): Result<seq<Piece>, FormatError> {
    match r
    case Success(ps) => Success([p] + ps)
    case Failure(e) => Failure(e)
  }

  /** Reads a template into pieces, failing on a conversion the model does not cover. */
  function Scan(t: string): Result<seq<Piece>, FormatError>
    decreases |t|
  {
    if |t| == 0 then Success([])
    else if t[0] != '%' then Prepend(Char(t[0]), Scan(t[1..]))
    else if |t| == 1 then Failure(IncompleteFormat)
    else if t[1] == '%' then Prepend(Escape, Scan(t[2..]))
    else if StateToken <= t then Prepend(State, Scan(t[|StateToken|..]))
    else if YearDToken <= t then Prepend(YearD, Scan(t[|YearDToken|..]))
    else if YearSToken <= t then Prepend(YearS, Scan(t[|YearSToken|..]))
    else Failure(UnmodelledSpec)
  }

  /** `template % {'state': state, 'year': year}`: it fails exactly when the scan does, and a
      template without '%' comes back unchanged. */
  function Format(template: string, state: string, year: int): (r: Result<string, FormatError>)
    ensures r.Success? <==> Scan(template).Success?
    ensures r.Failure? ==> Scan(template) == Failure(r.error)
    ensures '%' !in template ==> r == Success(template)
  {
    PlainTextScans(template, state, DecimalText(year));
    match Scan(template)
    case Success(ps) => Success(Render(ps, state, DecimalText(year)))
    case Failure(e) => Failure(e)
  }

  // ---------------------------------------------------------------------------------------
  // Decimal text of an integer, as str(n) and '%d' % n write it

  predicate IsDigit(c: char) {
    '0' <= c <= '9'
  }

  predicate AllDigits(s: string) {
    forall i :: 0 <= i < |s| ==> IsDigit(s[i])
  }

  function DigitChar(d: nat): (c: char)
    requires d < 10
    ensures IsDigit(c) && c as int - '0' as int == d
  {
    ('0' as int + d) as char
  }

  /** The number a string of digits denotes, most significant digit first. */
  function DigitsValue(s: string): nat
    requires AllDigits(s)
    decreases |s|
  {
    if |s| == 0 then 0 else DigitsValue(s[..|s| - 1]) * 10 + (s[|s| - 1] as int - '0' as int)
  }

  /** The digits of n without leading zeros. */
  function Digits(n: nat): (r: string)
    ensures |r| >= 1 && AllDigits(r)
    ensures r[0] == '0' ==> n == 0
    ensures DigitsValue(r) == n
    decreases n
  {
    if n < 10 then [DigitChar(n)]
    else
      var front := Digits(n / 10);
      var r := front + [DigitChar(n % 10)];
      assert r[..|r| - 1] == front;
      r
  }

  /** Reads decimal text back: an optional '-' and at least one digit. */
  function DecimalValue(s: string): Option<int> {
    if |s| > 1 && s[0] == '-' && AllDigits(s[1..]) then Some(0 - DigitsValue(s[1..]))
    else if |s| > 0 && AllDigits(s) then Some(DigitsValue(s))
    else None
  }

  function DecimalText(n: int): (r: string)
    ensures DecimalValue(r) == Some(n)
    ensures '%' !in r && '\'' !in r
    ensures n >= 0 ==> AllDigits(r) && (r[0] == '0' ==> r == "0")
    ensures n < 0 ==> |r| > 1 && r[0] == '-' && AllDigits(r[1..]) && r[1] != '0'
  {
    if n < 0 then
      var r := "-" + Digits(-n);
      assert r[1..] == Digits(-n);
      r
    else Digits(n)
  }

  function Pow10(k: nat): nat {
    if k == 0 then 1 else 10 * Pow10(k - 1)
  }

  /** A number between 10^(k-1) and 10^k has exactly k digits. */
  lemma {:induction false} DigitsLength(n: nat, k: nat)
    requires 1 <= k && Pow10(k - 1) <= n < Pow10(k)
    ensures |Digits(n)| == k
  {
    if k > 1 {
      assert Pow10(k - 1) == 10 * Pow10(k - 2);
      assert Pow10(k - 2) <= n / 10 < Pow10(k - 1);
      DigitsLength(n / 10, k - 1);
    }
  }

  /** Every year from 1000 to 9999 is written with four digits. */
  lemma FourDigitYear(year: int)
    requires 1000 <= year <= 9999
    ensures |DecimalText(year)| == 4 && AllDigits(DecimalText(year))
  {
    assert Pow10(3) == 1000 && Pow10(4) == 10000;
    DigitsLength(year, 4);
  }

  // ---------------------------------------------------------------------------------------
  // Scan and Unscan are inverse to each other

  /** The first piece a successful scan reads, and the length of its spelling. */
  lemma FirstPiece(t: string) returns (k: nat, p: Piece)
    requires |t| > 0 && Scan(t).Success?
    ensures 1 <= k <= |t| && Spelling(p) == t[..k] && p != Char('%')
    ensures Scan(t) == Prepend(p, Scan(t[k..]))
  {
    if t[0] != '%' {
      k, p := 1, Char(t[0]);
    } else if t[1] == '%' {
      k, p := 2, Escape;
    } else if StateToken <= t {
      k, p := |StateToken|, State;
    } else if YearDToken <= t {
      k, p := |YearDToken|, YearD;
    } else {
      k, p := |YearSToken|, YearS;
    }
  }

  /** A successful scan never yields '%' as a literal character. */
  lemma {:induction false} ScanYieldsCanonical(t: string, ps: seq<Piece>)
    requires Scan(t) == Success(ps)
    ensures Canonical(ps)
    decreases |t|
  {
    if |t| > 0 {
      var k, p := FirstPiece(t);
      var rest := Scan(t[k..]).value;
      ScanYieldsCanonical(t[k..], rest);
      assert ps == [p] + rest;
      assert forall i :: 1 <= i < |ps| ==> ps[i] == rest[i - 1];
    }
  }

  /** What a successful scan returns spells the template back exactly, character for character. */
  lemma {:induction false} ScanYieldsSpelling(t: string, ps: seq<Piece>)
    requires Scan(t) == Success(ps)
    ensures Canonical(ps) && Unscan(ps) == t
    decreases |t|
  {
    ScanYieldsCanonical(t, ps);
    if |t| > 0 {
      var k, p := FirstPiece(t);
      var rest := Scan(t[k..]).value;
      ScanYieldsSpelling(t[k..], rest);
      assert ps[0] == p && ps[1..] == rest by {
        assert ps == [p] + rest;
      }
      assert Unscan(ps) == Spelling(p) + Unscan(rest);
      assert t == t[..k] + t[k..];
    }
  }

  /** A canonical piece sequence is read back from its spelling. */
  lemma {:induction false} SpellingScans(ps: seq<Piece>)
    requires Canonical(ps)
    ensures Scan(Unscan(ps)) == Success(ps)
  {
    if |ps| > 0 {
      var p, u := ps[0], Unscan(ps[1..]);
      var t := Spelling(p) + u;
      assert Unscan(ps) == t;
      assert Canonical(ps[1..]);
      SpellingScans(ps[1..]);
      var k := |Spelling(p)|;
      assert t[k..] == u;
      match p {
        case Char(c) =>
          assert t[0] == c && c != '%';
        case Escape =>
          assert t[0] == '%' && t[1] == '%';
        case State =>
          assert t[..|StateToken|] == StateToken;
        case YearD =>
          assert t[2] == 'y' && t[..|YearDToken|] == YearDToken;
        case YearS =>
          assert t[2] == 'y' && t[7] == 's' && t[..|YearSToken|] == YearSToken;
      }
      assert ps == [p] + ps[1..];
    }
  }

  /** A template scans exactly when it is the spelling of a canonical piece sequence. */
  lemma ScanCharacterization(t: string, ps: seq<Piece>)
    ensures Scan(t) == Success(ps) <==> Canonical(ps) && Unscan(ps) == t
  {
    if Scan(t) == Success(ps) {
      ScanYieldsSpelling(t, ps);
    }
    if Canonical(ps) && Unscan(ps) == t {
      SpellingScans(ps);
    }
  }

  // ---------------------------------------------------------------------------------------
  // Concatenation and single-pass substitution

  lemma {:induction false} UnscanAppend(ps: seq<Piece>, qs: seq<Piece>)
    ensures Unscan(ps + qs) == Unscan(ps) + Unscan(qs)
  {
    if |ps| > 0 {
      assert (ps + qs)[1..] == ps[1..] + qs;
      UnscanAppend(ps[1..], qs);
    } else {
      assert ps + qs == qs;
    }
  }

  lemma {:induction false} RenderAppend(ps: seq<Piece>, qs: seq<Piece>, state: string, yearText: string)
    ensures Render(ps + qs, state, yearText) == Render(ps, state, yearText) + Render(qs, state, yearText)
  {
    if |ps| > 0 {
      assert (ps + qs)[1..] == ps[1..] + qs;
      RenderAppend(ps[1..], qs, state, yearText);
    } else {
      assert ps + qs == qs;
    }
  }

  /** Scanning the concatenation of two templates that scan concatenates their pieces: no
      placeholder is formed across the seam. */
  lemma ScanAppend(a: string, b: string, ps: seq<Piece>, qs: seq<Piece>)
    requires Scan(a) == Success(ps) && Scan(b) == Success(qs)
    ensures Scan(a + b) == Success(ps + qs)
  {
    ScanYieldsSpelling(a, ps);
    ScanYieldsSpelling(b, qs);
    UnscanAppend(ps, qs);
    SpellingScans(ps + qs);
  }

  /** Formatting distributes over concatenation of templates that format. */
  lemma FormatAppend(a: string, b: string, state: string, year: int, ra: string, rb: string)
    requires Format(a, state, year) == Success(ra) && Format(b, state, year) == Success(rb)
    ensures Format(a + b, state, year) == Success(ra + rb)
  {
    var ps, qs := Scan(a).value, Scan(b).value;
    ScanAppend(a, b, ps, qs);
    RenderAppend(ps, qs, state, DecimalText(year));
  }

  /** The state text is inserted verbatim whatever it contains, placeholders included: the
      substituted text is never scanned again. */
  lemma InsertedStateIsNotRescanned(pre: string, post: string, state: string, year: int, rpre: string, rpost: string)
    requires Format(pre, state, year) == Success(rpre) && Format(post, state, year) == Success(rpost)
    ensures Format(pre + StateToken + post, state, year) == Success(rpre + state + rpost)
  {
    assert Unscan([State]) == StateToken;
    SpellingScans([State]);
    assert [State][1..] == [];
    assert Render([State], state, DecimalText(year)) == state + "" == state;
    assert Format(StateToken, state, year) == Success(state);
    FormatAppend(pre, StateToken, state, year, rpre, state);
    FormatAppend(pre + StateToken, post, state, year, rpre + state, rpost);
  }

  /** Likewise the year: both year placeholders yield its decimal text and nothing else. */
  lemma YearPlaceholdersYieldDecimal(state: string, year: int)
    ensures Format(YearDToken, state, year) == Success(DecimalText(year))
    ensures Format(YearSToken, state, year) == Success(DecimalText(year))
  {
    assert Unscan([YearD]) == YearDToken && Unscan([YearS]) == YearSToken;
    SpellingScans([YearD]);
    SpellingScans([YearS]);
    assert [YearD][1..] == [] && [YearS][1..] == [];
    assert Render([YearD], state, DecimalText(year)) == DecimalText(year) + "" == DecimalText(year);
    assert Render([YearS], state, DecimalText(year)) == DecimalText(year) + "" == DecimalText(year);
  }

  // ---------------------------------------------------------------------------------------
  // Templates without placeholders

  function Chars(s: string): (ps: seq<Piece>)
    ensures |ps| == |s| && forall i :: 0 <= i < |s| ==> ps[i] == Char(s[i])
  {
    seq(|s|, i requires 0 <= i < |s| => Char(s[i]))
  }

  lemma {:induction false} CharsSpellAndRender(s: string, state: string, yearText: string)
    ensures Unscan(Chars(s)) == s && Render(Chars(s), state, yearText) == s
  {
    if |s| > 0 {
      assert Chars(s)[1..] == Chars(s[1..]);
      CharsSpellAndRender(s[1..], state, yearText);
      assert s == [s[0]] + s[1..];
    }
  }

  /** A text with no '%' is read as its characters, which render back to it. */
  lemma PlainTextScans(t: string, state: string, yearText: string)
    ensures '%' !in t ==> Scan(t) == Success(Chars(t)) && Render(Chars(t), state, yearText) == t
  {
    if '%' !in t {
      CharsSpellAndRender(t, state, yearText);
      SpellingScans(Chars(t));
    }
  }

  /** A template with no '%' is read as its characters and returned unchanged. */
  lemma PlainTextIsUnchanged(t: string, state: string, year: int)
    requires '%' !in t
    ensures Scan(t) == Success(Chars(t))
    ensures Format(t, state, year) == Success(t)
  {
    CharsSpellAndRender(t, state, DecimalText(year));
    SpellingScans(Chars(t));
  }

  // ---------------------------------------------------------------------------------------
  // Length and character content of the result

  /** How much longer the value of each piece is than its spelling, summed over the pieces. */
  function Growth(ps: seq<Piece>, state: string, yearText: string): int {
    if |ps| == 0 then 0
    else |Value(ps[0], state, yearText)| - |Spelling(ps[0])| + Growth(ps[1..], state, yearText)
  }

  lemma {:induction false} RenderLengthByGrowth(ps: seq<Piece>, state: string, yearText: string)
    ensures |Render(ps, state, yearText)| == |Unscan(ps)| + Growth(ps, state, yearText)
  {
    if |ps| > 0 {
      RenderLengthByGrowth(ps[1..], state, yearText);
    }
  }

  /** How many times a piece occurs in a piece sequence. */
  function Count(ps: seq<Piece>, q: Piece): nat {
    if |ps| == 0 then 0 else (if ps[0] == q then 1 else 0) + Count(ps[1..], q)
  }

  lemma {:induction false} CountAppend(ps: seq<Piece>, qs: seq<Piece>, q: Piece)
    ensures Count(ps + qs, q) == Count(ps, q) + Count(qs, q)
  {
    if |ps| > 0 {
      assert (ps + qs)[1..] == ps[1..] + qs;
      CountAppend(ps[1..], qs, q);
    } else {
      assert ps + qs == qs;
    }
  }

  /** Count agrees with the multiplicity in the multiset of the pieces. */
  lemma {:induction false} CountIsMultiplicity(ps: seq<Piece>, q: Piece)
    ensures Count(ps, q) == multiset(ps)[q]
  {
    if |ps| > 0 {
      CountIsMultiplicity(ps[1..], q);
      assert ps == [ps[0]] + ps[1..];
      assert multiset(ps) == multiset([ps[0]]) + multiset(ps[1..]);
    }
  }

  /** A text read as literal characters holds no placeholder and no escape. */
  lemma CountChars(s: string, q: Piece)
    requires !q.Char?
    ensures Count(Chars(s), q) == 0
  {
    CountIsMultiplicity(Chars(s), q);
    assert q !in Chars(s);
  }

  lemma {:induction false} GrowthByCounts(ps: seq<Piece>, state: string, yearText: string)
    ensures Growth(ps, state, yearText)
         == (|state| - |StateToken|) * Count(ps, State)
            + (|yearText| - |YearDToken|) * (Count(ps, YearD) + Count(ps, YearS))
            - Count(ps, Escape)
  {
    if |ps| > 0 {
      var p, rest := ps[0], ps[1..];
      GrowthByCounts(rest, state, yearText);
      var a, b := |state| - |StateToken|, |yearText| - |YearDToken|;
      var nS, nY, nE := Count(rest, State), Count(rest, YearD) + Count(rest, YearS), Count(rest, Escape);
      var g := Growth(rest, state, yearText);
      assert g == a * nS + b * nY - nE;
      var v := |Value(p, state, yearText)| - |Spelling(p)|;
      assert Growth(ps, state, yearText) == v + g;
      var cS, cY, cE := Count(ps, State), Count(ps, YearD) + Count(ps, YearS), Count(ps, Escape);
      match p {
        case Char(_) =>
          assert v == 0 && cS == nS && cY == nY && cE == nE;
        case Escape =>
          assert v == -1 && cS == nS && cY == nY && cE == nE + 1;
        case State =>
          assert v == a && cS == nS + 1 && cY == nY && cE == nE;
          MulSucc(a, nS);
        case YearD =>
          assert v == b && cS == nS && cY == nY + 1 && cE == nE;
          MulSucc(b, nY);
        case YearS =>
          assert v == b && cS == nS && cY == nY + 1 && cE == nE;
          MulSucc(b, nY);
      }
    }
  }

  lemma MulSucc(a: int, n: int)
    ensures a * (n + 1) == a * n + a
  {
  }

  /** The result is as long as the template, less each placeholder's spelling, plus each
      placeholder's value; an escape "%%" shrinks to one character. */
  lemma RenderLength(ps: seq<Piece>, state: string, yearText: string)
    ensures |Render(ps, state, yearText)|
         == |Unscan(ps)|
            + (|state| - |StateToken|) * Count(ps, State)
            + (|yearText| - |YearDToken|) * (Count(ps, YearD) + Count(ps, YearS))
            - Count(ps, Escape)
  {
    RenderLengthByGrowth(ps, state, yearText);
    GrowthByCounts(ps, state, yearText);
  }

  /** The same, for a template the operator accepts. */
  lemma FormatLength(t: string, ps: seq<Piece>, state: string, year: int)
    requires Scan(t) == Success(ps)
    ensures Format(t, state, year).Success?
    ensures |Format(t, state, year).value|
         == |t|
            + (|state| - |StateToken|) * Count(ps, State)
            + (|DecimalText(year)| - |YearDToken|) * (Count(ps, YearD) + Count(ps, YearS))
            - Count(ps, Escape)
  {
    ScanYieldsSpelling(t, ps);
    RenderLength(ps, state, DecimalText(year));
  }

  /** With no escape and values free of '%', the result contains no '%' at all, so in
      particular no "%(" of an unresolved placeholder. */
  lemma {:induction false} RenderHasNoPercent(ps: seq<Piece>, state: string, yearText: string)
    requires Canonical(ps) && Escape !in ps
    requires '%' !in state && '%' !in yearText
    ensures '%' !in Render(ps, state, yearText)
  {
    if |ps| > 0 {
      assert ps[0] != Escape && ps[0] != Char('%');
      assert Canonical(ps[1..]) && Escape !in ps[1..] by {
        assert forall i :: 0 <= i < |ps[1..]| ==> ps[1..][i] == ps[i + 1];
      }
      RenderHasNoPercent(ps[1..], state, yearText);
    }
  }

  lemma PieceKeepsCharCount(p: Piece, state: string, yearText: string, c: char)
    requires c !in TokenChars && c !in state && c !in yearText
    ensures multiset(Value(p, state, yearText))[c] == multiset(Spelling(p))[c]
  {
    if !p.Char? {
      assert c != '%' && c != '(' && c != ')' && c != 's' && c != 't';
      assert c != 'a' && c != 'e' && c != 'y' && c != 'r' && c != 'd';
      assert c !in Spelling(p);
    }
  }

  /** A character that appears in no placeholder spelling and in neither value occurs in the
      result exactly as often as in the template: substitution adds or removes no quote. */
  lemma {:induction false} RenderKeepsCharCount(ps: seq<Piece>, state: string, yearText: string, c: char)
    requires c !in TokenChars && c !in state && c !in yearText
    ensures multiset(Render(ps, state, yearText))[c] == multiset(Unscan(ps))[c]
  {
    if |ps| > 0 {
      RenderKeepsCharCount(ps[1..], state, yearText, c);
      PieceKeepsCharCount(ps[0], state, yearText, c);
      assert multiset(Render(ps, state, yearText))
          == multiset(Value(ps[0], state, yearText)) + multiset(Render(ps[1..], state, yearText));
      assert multiset(Unscan(ps)) == multiset(Spelling(ps[0])) + multiset(Unscan(ps[1..]));
    }
  }
}
