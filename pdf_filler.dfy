/**
 * The overlay composer of pdf_filler.py: one overlay canvas per page of the
 * base document, created on first use, on which text strings and paragraphs
 * are recorded; saving walks the base pages in order and merges each page's
 * overlay, when it has one, on top of it.
 *
 * The base document is reduced to its page count; a canvas is the log of the
 * operations issued on it; the output document is the sequence of base pages,
 * each with the finalised overlay merged onto it or none.
 */
module Filler {
  import opened Common
  import opened Canvas

  /** What a composer is bound to: the base document's page count and the stylesheet's Normal style. */
  datatype Template = Template(numPages: nat, normal: Preset)

  /** A composer's state: the overlay canvases created so far, by page, and the derived-style counter. */
  datatype Composer = Composer(overlays: map<int, seq<Op>>, styleCount: nat)

  /** One output page: base page `index`, with the overlay log merged onto it, if any. */
  datatype OutPage = OutPage(index: nat, overlay: Option<seq<Op>>)

  /** An output document written to `path`. */
  datatype Document = Document(path: string, pages: seq<OutPage>)

  /** Whether the base document has a page with this index (getPage succeeds). */
  predicate HasPage(t: Template, page: int) {
    0 <= page < t.numPages
  }

  /** The canvas of `page`: the recorded one, or a blank one if none was created yet. */
  function CanvasOf(c: Composer, page: int): seq<Op> {
    if page in c.overlays then c.overlays[page] else []
  }

  /** The name add_para gives the paragraph style it derives while the counter is `n`. */
  function DerivedName(n: nat): string {
    "parastyle" + NatToString(n)
  }

  /** Derived paragraph-style names are pairwise distinct. */
  lemma DerivedNamesDistinct(n: nat, m: nat)
    requires n != m
    ensures DerivedName(n) != DerivedName(m)
  {
    if DerivedName(n) == DerivedName(m) {
      assert NatToString(n) == DerivedName(n)[9..] == DerivedName(m)[9..] == NatToString(m);
      NatToStringInjective(n, m);
    }
  }

  /**
   * The paragraph style add_para uses and the counter after it: a non-empty
   * style is derived from Normal under a fresh name and moves the counter by
   * one; an empty style is Normal itself and leaves the counter alone.
   */
  function DeriveStyle(count: nat, style: StyleMap): (r: (ParaStyle, nat))
    ensures style != map[] ==> r.0 == Derived(DerivedName(count), style) && r.1 == count + 1
    ensures style == map[] ==> r.0 == NormalStyle && r.1 == count
  {
    if style != map[] then (Derived(DerivedName(count), style), count + 1) else (NormalStyle, count)
  }

  /**
   * What add_para draws: the text laid out in a box `x1 - x0` wide and
   * `y0 - y1` high, drawn at (x0, y0).
   */
  function ParaOp(ps: ParaStyle, x0: real, y0: real, x1: real, y1: real, text: string): Op {
    DrawPara(ps, text, x1 - x0, y0 - y1, x0, y0)
  }

  /**
   * The composer state after add_text, or the error it raises: it fails
   * exactly when the base document has no such page, and otherwise creates
   * at most that page's canvas and leaves the style counter alone.
   */
  function AddTextSpec(t: Template, c: Composer, x: real, y: real, text: string, page: int, style: StyleMap): (r: Result<Composer>)
    ensures r.Ok? <==> HasPage(t, page)
    ensures r.Err? ==> r.error == PageIndexError(page)
    ensures r.Ok? ==> r.value.overlays.Keys == c.overlays.Keys + {page} && r.value.styleCount == c.styleCount
  {
    if HasPage(t, page) then
      Ok(c.(overlays := c.overlays[page := CanvasOf(c, page) + TextOps(t.normal, x, y, text, style)]))
    else
      Err(PageIndexError(page))
  }

  /**
   * The named arguments of ParagraphStyle, which add_para passes a non-empty
   * style beside: a style key among them is given twice.
   */
  const ParaStyleArgs: set<string> := {"name", "parent"}

  /**
   * The composer state after add_para, or the error it raises: a style key
   * that ParagraphStyle also takes as a named argument is a TypeError before
   * anything changes; otherwise a missing page is a PageIndexError, and a
   * page of the base document gets the paragraph, with the counter moved as
   * DeriveStyle says.
   */
  function AddParaSpec(t: Template, c: Composer, x0: real, y0: real, x1: real, y1: real, text: string, page: int, style: StyleMap): (r: Result<Composer>)
    ensures r.Ok? <==> HasPage(t, page) && style.Keys * ParaStyleArgs == {}
    ensures r.Err? ==> r.error == if style.Keys * ParaStyleArgs != {} then TypeError else PageIndexError(page)
    ensures r.Ok? ==> r.value.overlays.Keys == c.overlays.Keys + {page} && r.value.styleCount == DeriveStyle(c.styleCount, style).1
  {
    if style.Keys * ParaStyleArgs != {} then Err(TypeError)
    else
      var (ps, count) := DeriveStyle(c.styleCount, style);
      if HasPage(t, page) then
        Ok(Composer(c.overlays[page := CanvasOf(c, page) + [ParaOp(ps, x0, y0, x1, y1, text)]], count))
      else
        Err(PageIndexError(page))
  }

  /** add_text touches no page's canvas but its own. */
  lemma AddTextFrame(t: Template, c: Composer, x: real, y: real, text: string, page: int, style: StyleMap)
    ensures HasPage(t, page) ==>
      var c' := AddTextSpec(t, c, x, y, text, page, style).value;
      forall p :: p != page ==> CanvasOf(c', p) == CanvasOf(c, p)
  {
  }

  /**
   * On `page`, add_text keeps what was drawn before and appends a block that
   * leaves the graphics state balanced and whose last drawing is `text` at (x, y).
   */
  lemma AddTextBlock(t: Template, c: Composer, x: real, y: real, text: string, page: int, style: StyleMap)
    requires HasPage(t, page)
    ensures var canvas := CanvasOf(AddTextSpec(t, c, x, y, text, page, style).value, page);
      var block := canvas[|CanvasOf(c, page)|..];
      && canvas == CanvasOf(c, page) + block
      && Balanced(block)
      && block[0] == SaveState
      && block[|block| - 2] == DrawString(x, y, text)
      && block[|block| - 1] == RestoreState
  {
    var ops := TextOps(t.normal, x, y, text, style);
    var canvas := CanvasOf(AddTextSpec(t, c, x, y, text, page, style).value, page);
    assert canvas == CanvasOf(c, page) + ops;
    assert canvas[|CanvasOf(c, page)|..] == ops;
    TextOpsBalanced(t.normal, x, y, text, style);
  }

  /**
   * On a page of the base document and with no clashing style key, add_para
   * appends one paragraph to that page's canvas, drawn at (x0, y0) in a box
   * x1 - x0 wide and y0 - y1 high, in a derived style exactly when the style
   * is non-empty; every other page's canvas stays as it was.
   */
  lemma AddParaFrame(t: Template, c: Composer, x0: real, y0: real, x1: real, y1: real, text: string, page: int, style: StyleMap)
    ensures AddParaSpec(t, c, x0, y0, x1, y1, text, page, style).Ok? ==> (
      var c' := AddParaSpec(t, c, x0, y0, x1, y1, text, page, style).value;
      && (forall p :: p != page ==> CanvasOf(c', p) == CanvasOf(c, p))
      && |CanvasOf(c', page)| == |CanvasOf(c, page)| + 1
      && CanvasOf(c', page)[..|CanvasOf(c, page)|] == CanvasOf(c, page)
      && var op := CanvasOf(c', page)[|CanvasOf(c, page)|];
         op.DrawPara? && op.text == text && op.width == x1 - x0 && op.height == y0 - y1
         && op.x == x0 && op.y == y0 && (op.style.Derived? <==> style != map[]))
  {
    if AddParaSpec(t, c, x0, y0, x1, y1, text, page, style).Ok? {
      var c' := AddParaSpec(t, c, x0, y0, x1, y1, text, page, style).value;
      assert CanvasOf(c', page)[..|CanvasOf(c, page)|] == CanvasOf(c, page);
    }
  }

  /**
   * The pages save emits: every base page in order, each merged with its
   * finalised overlay exactly when an overlay was created for it.
   */
  function SavePages(c: Composer, numPages: nat): (pages: seq<OutPage>)
    ensures |pages| == numPages
    ensures forall i :: 0 <= i < numPages ==> pages[i].index == i
    ensures forall i :: 0 <= i < numPages ==> (pages[i].overlay.Some? <==> i in c.overlays)
    ensures forall i :: 0 <= i < numPages && i in c.overlays ==> pages[i].overlay == Some(c.overlays[i] + [Finalize])
  {
    seq(numPages, i requires 0 <= i < numPages =>
      OutPage(i, if i in c.overlays then Some(c.overlays[i] + [Finalize]) else None))
  }

  /** Every overlay canvas with one finalisation appended. */
  function Finalized(overlays: map<int, seq<Op>>): (r: map<int, seq<Op>>)
    ensures r.Keys == overlays.Keys
    ensures forall p :: p in r ==> r[p] == overlays[p] + [Finalize]
  {
    map p | p in overlays :: overlays[p] + [Finalize]
  }

  /** Every overlay canvas of a composer leaves the graphics state balanced. */
  predicate AllBalanced(overlays: map<int, seq<Op>>) {
    forall p :: p in overlays ==> Balanced(overlays[p])
  }

  /** add_text and add_para keep every canvas balanced. */
  lemma AddKeepsBalanced(t: Template, c: Composer, x0: real, y0: real, x1: real, y1: real, text: string, page: int, style: StyleMap)
    requires AllBalanced(c.overlays)
    ensures AddTextSpec(t, c, x0, y0, text, page, style).Ok? ==>
      AllBalanced(AddTextSpec(t, c, x0, y0, text, page, style).value.overlays)
    ensures AddParaSpec(t, c, x0, y0, x1, y1, text, page, style).Ok? ==>
      AllBalanced(AddParaSpec(t, c, x0, y0, x1, y1, text, page, style).value.overlays)
  {
    if HasPage(t, page) {
      assert Balanced(CanvasOf(c, page)) by {
        if page !in c.overlays {
          assert Depth([], 0) == Some(0);
        }
      }
      TextOpsBalanced(t.normal, x0, y0, text, style);
      BalancedConcat(CanvasOf(c, page), TextOps(t.normal, x0, y0, text, style));
      var ps := DeriveStyle(c.styleCount, style).0;
      AppendNeutralBalanced(CanvasOf(c, page), ParaOp(ps, x0, y0, x1, y1, text));
    }
  }

  /** Finalising keeps every canvas balanced. */
  lemma FinalizedBalanced(overlays: map<int, seq<Op>>)
    requires AllBalanced(overlays)
    ensures AllBalanced(Finalized(overlays))
  {
    forall p | p in overlays ensures Balanced(overlays[p] + [Finalize]) {
      AppendNeutralBalanced(overlays[p], Finalize);
    }
  }

  /** The name of the derived paragraph style drawn at position `i` of page `p`'s canvas, if one is drawn there. */
  function DerivedAt(c: Composer, p: int, i: int): Option<string> {
    if p in c.overlays && 0 <= i < |c.overlays[p]| && c.overlays[p][i].DrawPara? && c.overlays[p][i].style.Derived?
    then Some(c.overlays[p][i].style.name)
    else None
  }

  /**
   * Every derived paragraph style drawn on the composer's canvases was named
   * after a counter value below the current one, and no two drawings share
   * a name.
   */
  ghost predicate FreshNames(c: Composer) {
    && (forall p, i :: DerivedAt(c, p, i).Some? ==> exists k: nat :: k < c.styleCount && DerivedAt(c, p, i).value == DerivedName(k))
    && (forall p, i, q, j :: DerivedAt(c, p, i).Some? && DerivedAt(c, p, i) == DerivedAt(c, q, j) ==> p == q && i == j)
  }

  /** add_text draws no paragraph, so the derived names stay fresh. */
  lemma AddTextFresh(t: Template, c: Composer, x: real, y: real, text: string, page: int, style: StyleMap)
    requires FreshNames(c)
    ensures AddTextSpec(t, c, x, y, text, page, style).Ok? ==> FreshNames(AddTextSpec(t, c, x, y, text, page, style).value)
  {
    if HasPage(t, page) {
      var c' := AddTextSpec(t, c, x, y, text, page, style).value;
      var before := CanvasOf(c, page);
      var ops := TextOps(t.normal, x, y, text, style);
      assert forall i :: 0 <= i < |ops| ==> !ops[i].DrawPara? by {
        var setters := StyleOps(Resolve(t.normal, style));
        assert ops == [SaveState] + setters + [DrawString(x, y, text), RestoreState];
        forall i | 0 <= i < |ops| ensures !ops[i].DrawPara? {
          if 1 <= i <= |setters| {
            assert ops[i] == setters[i - 1] && ops[i] in setters;
          }
        }
      }
      forall p, i ensures DerivedAt(c', p, i) == DerivedAt(c, p, i) {
        if p == page && |before| <= i < |before| + |ops| {
          assert c'.overlays[p][i] == ops[i - |before|];
        }
      }
    }
  }

  /**
   * add_para draws its paragraph in a style named after the current
   * counter, which no earlier drawing used, and moves the counter past it;
   * so the derived names stay fresh.
   */
  lemma AddParaFresh(t: Template, c: Composer, x0: real, y0: real, x1: real, y1: real, text: string, page: int, style: StyleMap)
    requires FreshNames(c)
    ensures AddParaSpec(t, c, x0, y0, x1, y1, text, page, style).Ok? ==>
      FreshNames(AddParaSpec(t, c, x0, y0, x1, y1, text, page, style).value)
  {
    if AddParaSpec(t, c, x0, y0, x1, y1, text, page, style).Ok? {
      var c' := AddParaSpec(t, c, x0, y0, x1, y1, text, page, style).value;
      var n := |CanvasOf(c, page)|;
      var drawn := if style != map[] then Some(DerivedName(c.styleCount)) else None;
      forall p, i ensures DerivedAt(c', p, i) == if p == page && i == n then drawn else DerivedAt(c, p, i) {
      }
      forall p, i | DerivedAt(c, p, i).Some? ensures DerivedAt(c, p, i) != Some(DerivedName(c.styleCount)) {
        var k: nat :| k < c.styleCount && DerivedAt(c, p, i).value == DerivedName(k);
        DerivedNamesDistinct(k, c.styleCount);
      }
    }
  }

  /**
   * The composer of one output document. `overlays` maps a page index to its
   * canvas (the canvas and packet that pdf_filler.py keeps per page, reduced
   * to the canvas's operation log); `styleCount` numbers the derived paragraph styles.
   */
  class PDFFiller {
    const numPages: nat
    const normal: Preset
    var overlays: map<int, seq<Op>>
    var styleCount: nat

    /** Overlays exist only for pages of the base document. */
    ghost predicate Valid()
      reads this
    {
      forall p :: p in overlays ==> 0 <= p < numPages
    }

    function Tmpl(): Template {
      Template(numPages, normal)
    }

    function State(): Composer
      reads this
    {
      Composer(overlays, styleCount)
    }

    /** A composer over a base document of `numPages` pages; the sample stylesheet when none is given. */
    constructor (numPages: nat, styleSheet: Option<Preset>)
      ensures Valid()
      ensures Tmpl() == Template(numPages, styleSheet.GetOr(SampleNormal))
      ensures State() == Composer(map[], 0)
    {
      this.numPages := numPages;
      this.normal := styleSheet.GetOr(SampleNormal);
      overlays := map[];
      styleCount := 0;
    }

    /**
     * The overlay entry of `page`, created blank on first use. A page already
     * cached is returned as it is and nothing changes; otherwise exactly the
     * key `page` is added, which needs the base document to have that page.
     */
    method GetPage(page: int) returns (r: Result<seq<Op>>)
      requires Valid()
      modifies this
      ensures Valid() && styleCount == old(styleCount)
      ensures r.Ok? <==> page in old(overlays) || HasPage(Tmpl(), page)
      ensures r.Ok? ==> r.value == CanvasOf(old(State()), page) && overlays == old(overlays)[page := r.value]
      ensures page in old(overlays) ==> overlays == old(overlays)
      ensures r.Err? ==> overlays == old(overlays) && r.error == PageIndexError(page)
    {
      if page !in overlays {
        if !(0 <= page < numPages) {
          // sizing the canvas asks the base document for a page it does not have
          return Err(PageIndexError(page));
        }
        overlays := overlays[page := []];
      }
      r := Ok(overlays[page]);
    }

    /** apply_style: resolve the style against Normal, then issue the setters on the canvas. */
    method ApplyStyle(canvas: seq<Op>, style: StyleMap) returns (canvas': seq<Op>)
      ensures canvas' == canvas + StyleOps(Resolve(normal, style))
    {
      var eff := ResolveStyle(normal, style);
      canvas' := canvas;
      if eff["fontName"] != Null {
        canvas' := canvas' + [SetFont(eff["fontName"], eff["fontSize"])];
      }
      if eff["textColor"] != Null {
        canvas' := canvas' + [SetFillColor(eff["textColor"])];
      }
    }

    /** add_text: draw one line of text at (x, y) on `page`, inside a saved graphics state. */
    method AddText(x: real, y: real, text: string, page: int, style: StyleMap) returns (r: Outcome)
      requires Valid()
      modifies this
      ensures Valid()
      ensures r.Pass? <==> HasPage(Tmpl(), page)
      ensures r.Pass? ==> State() == AddTextSpec(Tmpl(), old(State()), x, y, text, page, style).value
      ensures r.Fail? ==> r.error == PageIndexError(page) && State() == old(State())
    {
      var entry := GetPage(page);
      if entry.Err? {
        return Fail(entry.error);
      }
      // the operations issued on the canvas, in order
      var block := [SaveState];
      block := ApplyStyle(block, style);
      block := block + [DrawString(x, y, text)];
      block := block + [RestoreState];
      assert block == TextOps(normal, x, y, text, style);
      overlays := overlays[page := entry.value + block];
      assert State() == AddTextSpec(Tmpl(), old(State()), x, y, text, page, style).value;
      r := Pass;
    }

    /**
     * add_para: derive the paragraph style (moving the counter even when the
     * page then turns out not to exist), lay the text out in the box and draw
     * it at (x0, y0) on `page`. A style key that ParagraphStyle takes as a
     * named argument raises before the counter moves.
     */
    method AddPara(x0: real, y0: real, x1: real, y1: real, text: string, page: int, style: StyleMap) returns (r: Outcome)
      requires Valid()
      modifies this
      ensures Valid()
      ensures r.Pass? <==> AddParaSpec(Tmpl(), old(State()), x0, y0, x1, y1, text, page, style).Ok?
      ensures r.Pass? ==> State() == AddParaSpec(Tmpl(), old(State()), x0, y0, x1, y1, text, page, style).value
      ensures r.Fail? ==> AddParaSpec(Tmpl(), old(State()), x0, y0, x1, y1, text, page, style) == Err(r.error)
      ensures r.Fail? ==> overlays == old(overlays)
      ensures styleCount == if style.Keys * ParaStyleArgs != {} then old(styleCount) else DeriveStyle(old(styleCount), style).1
    {
      var paraStyle: ParaStyle;
      if style != map[] {
        if style.Keys * ParaStyleArgs != {} {
          return Fail(TypeError);
        }
        paraStyle := Derived(DerivedName(styleCount), style);
        styleCount := styleCount + 1;
      } else {
        paraStyle := NormalStyle;
      }
      var width, height := x1 - x0, y0 - y1;
      var entry := GetPage(page);
      if entry.Err? {
        return Fail(entry.error);
      }
      overlays := overlays[page := overlays[page] + [DrawPara(paraStyle, text, width, height, x0, y0)]];
      r := Pass;
    }

    /**
     * save: every base page in order, each overlay canvas finalised once and
     * merged onto its page; pages without an overlay are copied as they are.
     */
    method Save(path: string) returns (doc: Document)
      requires Valid()
      modifies this
      ensures Valid()
      ensures doc == Document(path, SavePages(old(State()), numPages))
      ensures overlays == Finalized(old(overlays)) && styleCount == old(styleCount)
    {
      ghost var before := overlays;
      var pages: seq<OutPage> := [];
      for page := 0 to numPages
        invariant overlays.Keys == before.Keys && styleCount == old(styleCount)
        invariant forall p :: p in before ==> 0 <= p < numPages
        invariant forall p :: p in overlays && p < page ==> overlays[p] == before[p] + [Finalize]
        invariant forall p :: p in overlays && page <= p ==> overlays[p] == before[p]
        invariant |pages| == page
        invariant forall i :: 0 <= i < page ==> pages[i] == OutPage(i, if i in before then Some(before[i] + [Finalize]) else None)
      {
        if page in overlays {
          overlays := overlays[page := overlays[page] + [Finalize]];
          pages := pages + [OutPage(page, Some(overlays[page]))];
        } else {
          pages := pages + [OutPage(page, None)];
        }
      }
      assert pages == SavePages(old(State()), numPages);
      doc := Document(path, pages);
      assert overlays == Finalized(before);
    }
  }

  /** The loop of apply_style: start from the Normal preset, then visit every override key. */
  method ResolveStyle(normal: Preset, style: StyleMap) returns (base: map<string, Val>)
    ensures base == Resolve(normal, style)
  {
    base := BaseStyle(normal);
    var todo := style.Keys;
    while todo != {}
      invariant todo <= style.Keys
      invariant base == BaseStyle(normal) + Overrides(style, style.Keys - todo)
      decreases todo
    {
      var k :| k in todo;
      OverridesStep(style, style.Keys - todo, k);
      if style[k] != Null {
        base := base[k := style[k]];
      }
      todo := todo - {k};
      assert style.Keys - todo == (style.Keys - (todo + {k})) + {k};
    }
    assert style.Keys - todo == style.Keys;
  }
}
