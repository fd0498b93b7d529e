/**
 * A query template seen as the text between its placeholders:
 *   texts[0] holes[0] texts[1] holes[1] ... holes[n-1] texts[n]
 * The catalog writes each template in this form; `Compose` gives the template string the
 * `%` operator receives, and `Fill` gives the query it is expected to produce.
 */
module TemplateLayout {
  import opened Wrappers
  import opened PercentFormat

  datatype Layout = Layout(texts: seq<string>, holes: seq<Piece>)

  /** One more text than holes. */
  predicate Shaped(l: Layout) {
    |l.texts| == |l.holes| + 1
  }

  /** Texts free of '%' and every hole one of the three placeholders. */
  predicate WellFormed(l: Layout) {
    && Shaped(l)
    && (forall i :: 0 <= i < |l.texts| ==> '%' !in l.texts[i])
    && (forall i :: 0 <= i < |l.holes| ==> IsPlaceholder(l.holes[i]))
  }

  /** The layout without its first text and first hole. */
  function Rest(l: Layout): (r: Layout)
    requires Shaped(l) && |l.holes| > 0
    ensures Shaped(r) && |r.holes| < |l.holes|
  {
    Layout(l.texts[1..], l.holes[1..])
  }

  /** The template string. */
  function Compose(l: Layout): string
    requires Shaped(l)
    decreases |l.holes|
  {
    if |l.holes| == 0 then l.texts[0]
    else l.texts[0] + Spelling(l.holes[0]) + Compose(Rest(l))
  }

  /** The pieces a scan of the template yields. */
  function Expand(l: Layout): seq<Piece>
    requires Shaped(l)
    decreases |l.holes|
  {
    if |l.holes| == 0 then Chars(l.texts[0])
    else Chars(l.texts[0]) + [l.holes[0]] + Expand(Rest(l))
  }

  /** The query: every text kept, every hole replaced by its value. */
  function Fill(l: Layout, state: string, yearText: string): string
    requires Shaped(l)
    decreases |l.holes|
  {
    if |l.holes| == 0 then l.texts[0]
    else l.texts[0] + Value(l.holes[0], state, yearText) + Fill(Rest(l), state, yearText)
  }

  lemma {:induction false} ExpandSpellsTemplate(l: Layout)
    requires Shaped(l)
    ensures Unscan(Expand(l)) == Compose(l)
    decreases |l.holes|
  {
    CharsSpellAndRender(l.texts[0], "", "");
    if |l.holes| > 0 {
      ExpandSpellsTemplate(Rest(l));
      var h := l.holes[0];
      assert Unscan([h]) == Spelling(h) by {
        assert [h][1..] == [];
      }
      UnscanAppend(Chars(l.texts[0]), [h]);
      UnscanAppend(Chars(l.texts[0]) + [h], Expand(Rest(l)));
    }
  }

  lemma {:induction false} ExpandRendersFill(l: Layout, state: string, yearText: string)
    requires Shaped(l)
    ensures Render(Expand(l), state, yearText) == Fill(l, state, yearText)
    decreases |l.holes|
  {
    CharsSpellAndRender(l.texts[0], state, yearText);
    if |l.holes| > 0 {
      ExpandRendersFill(Rest(l), state, yearText);
      var h := l.holes[0];
      assert Render([h], state, yearText) == Value(h, state, yearText) by {
        assert [h][1..] == [];
      }
      RenderAppend(Chars(l.texts[0]), [h], state, yearText);
      RenderAppend(Chars(l.texts[0]) + [h], Expand(Rest(l)), state, yearText);
    }
  }

  lemma {:induction false} ExpandIsCanonical(l: Layout)
    requires WellFormed(l)
    ensures Canonical(Expand(l)) && Escape !in Expand(l)
    decreases |l.holes|
  {
    var cs := Chars(l.texts[0]);
    assert forall i :: 0 <= i < |cs| ==> cs[i] == Char(l.texts[0][i]) && l.texts[0][i] != '%';
    if |l.holes| > 0 {
      var r := Rest(l);
      assert WellFormed(r) by {
        assert forall i :: 0 <= i < |r.texts| ==> r.texts[i] == l.texts[i + 1];
        assert forall i :: 0 <= i < |r.holes| ==> r.holes[i] == l.holes[i + 1];
      }
      ExpandIsCanonical(r);
      var ps := cs + [l.holes[0]] + Expand(r);
      assert forall i :: 0 <= i < |ps| ==>
        ps[i] == (if i < |cs| then cs[i] else if i == |cs| then l.holes[0] else Expand(r)[i - |cs| - 1]);
    }
  }

  /** A well-formed layout's template scans to its expansion. */
  lemma ScanLayout(l: Layout)
    requires WellFormed(l)
    ensures Scan(Compose(l)) == Success(Expand(l))
  {
    ExpandIsCanonical(l);
    ExpandSpellsTemplate(l);
    SpellingScans(Expand(l));
  }

  /** Formatting a well-formed layout's template keeps every text and fills every hole. */
  lemma FormatLayout(l: Layout, state: string, year: int)
    requires WellFormed(l)
    ensures Format(Compose(l), state, year) == Success(Fill(l, state, DecimalText(year)))
  {
    ScanLayout(l);
    ExpandRendersFill(l, state, DecimalText(year));
  }

  /** The placeholders a scan of the template finds are exactly the layout's holes. */
  lemma {:induction false} ExpandCounts(l: Layout, q: Piece)
    requires Shaped(l) && !q.Char?
    ensures Count(Expand(l), q) == Count(l.holes, q)
    decreases |l.holes|
  {
    CountChars(l.texts[0], q);
    if |l.holes| > 0 {
      ExpandCounts(Rest(l), q);
      var h := l.holes[0];
      assert Count([h], q) == if h == q then 1 else 0 by {
        assert [h][1..] == [];
      }
      CountAppend(Chars(l.texts[0]), [h], q);
      CountAppend(Chars(l.texts[0]) + [h], Expand(Rest(l)), q);
      assert l.holes == [h] + l.holes[1..];
      CountAppend([h], l.holes[1..], q);
    }
  }

  /** With values free of '%', the query of a well-formed layout has no '%' left. */
  lemma FillHasNoPercent(l: Layout, state: string, yearText: string)
    requires WellFormed(l) && '%' !in state && '%' !in yearText
    ensures '%' !in Fill(l, state, yearText)
  {
    ExpandIsCanonical(l);
    ExpandRendersFill(l, state, yearText);
    RenderHasNoPercent(Expand(l), state, yearText);
  }

  /** A layout with two holes, written out. */
  lemma FillTwoHoles(a: string, b: string, c: string, h1: Piece, h2: Piece, state: string, yearText: string)
    ensures Fill(Layout([a, b, c], [h1, h2]), state, yearText)
         == a + Value(h1, state, yearText) + b + Value(h2, state, yearText) + c
  {
    var l := Layout([a, b, c], [h1, h2]);
    var v1, v2 := Value(h1, state, yearText), Value(h2, state, yearText);
    assert Rest(l) == Layout([b, c], [h2]);
    assert Rest(Rest(l)) == Layout([c], []);
    assert Fill(Rest(Rest(l)), state, yearText) == c;
    assert Fill(Rest(l), state, yearText) == b + v2 + c;
    assert Fill(l, state, yearText) == a + v1 + (b + v2 + c);
    assert a + v1 + (b + v2 + c) == a + v1 + b + v2 + c;
  }

  /** The query's length: the template's, less the spelling of each of its `states` state holes
      and `years` year holes, plus as many copies of the values. */
  lemma FillLength(l: Layout, state: string, year: int, states: nat, years: nat)
    requires WellFormed(l)
    requires Count(l.holes, State) == states && Count(l.holes, YearD) + Count(l.holes, YearS) == years
    ensures |Fill(l, state, DecimalText(year))|
         == |Compose(l)| + (|state| - |StateToken|) * states + (|DecimalText(year)| - |YearDToken|) * years
  {
    var ps, y := Expand(l), DecimalText(year);
    ExpandMeasures(l, state, y);
    RenderLength(ps, state, y);
  }

  /** The sizes and counts of a layout's pieces, in terms of the layout. */
  lemma ExpandMeasures(l: Layout, state: string, yearText: string)
    requires WellFormed(l)
    ensures var ps := Expand(l);
      && |Fill(l, state, yearText)| == |Render(ps, state, yearText)|
      && |Unscan(ps)| == |Compose(l)|
      && Count(ps, Escape) == 0
      && Count(ps, State) == Count(l.holes, State)
      && Count(ps, YearD) + Count(ps, YearS) == Count(l.holes, YearD) + Count(l.holes, YearS)
  {
    var ps := Expand(l);
    ExpandRendersFill(l, state, yearText);
    ExpandSpellsTemplate(l);
    ExpandIsCanonical(l);
    CountIsMultiplicity(ps, Escape);
    ExpandCounts(l, State);
    ExpandCounts(l, YearD);
    ExpandCounts(l, YearS);
  }
}
