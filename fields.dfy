/**
 * The two field kinds of pdf_form.py and what rendering one does: a line
 * field draws its value as one string at a point, a paragraph field lays its
 * value out in a box. A field's own style is merged over the form's global
 * style before the call reaches the composer.
 *
 * Also here: a field declaration of a parsed configuration, and the field it
 * declares or the exception reading it raises.
 */
module Fields {
  import opened Common
  import opened Canvas
  import opened Filler

  /** A form field: its page, its own style, its current value and its geometry. */
  datatype Field =
    | LineField(page: int, style: StyleMap, value: string, x: real, y: real)
    | ParaField(page: int, style: StyleMap, value: string, x0: real, y0: real, x1: real, y1: real)

  /** Two fields that differ at most in their value: same kind, page, style and geometry. */
  predicate SameShape(f: Field, g: Field) {
    f.(value := "") == g.(value := "")
  }

  /** The style a field is rendered with: the baseline, overridden key by key by the field's own style. */
  function Effective(f: Field, baseline: StyleMap): (s: StyleMap)
    ensures s.Keys == baseline.Keys + f.style.Keys
    ensures forall k :: k in f.style ==> s[k] == f.style[k]
    ensures forall k :: k in baseline && k !in f.style ==> s[k] == baseline[k]
  {
    Merge(baseline, f.style)
  }

  /**
   * The named arguments of the composer call that render makes, add_text
   * for a line field and add_para for a paragraph field; the effective style
   * is passed as keyword arguments beside them.
   */
  function CallArgs(f: Field): set<string> {
    if f.LineField? then {"self", "x", "y", "text", "page"}
    else {"self", "x0", "y0", "x1", "y1", "text", "page"}
  }

  /**
   * The style keys that make rendering `f` a TypeError: an argument name of
   * the composer call, and for a paragraph field also an argument name of
   * ParagraphStyle.
   */
  function RejectedKeys(f: Field): set<string> {
    if f.LineField? then CallArgs(f) else CallArgs(f) + ParaStyleArgs
  }

  /** Whether the effective style of `f` has a key that rendering it cannot pass on. */
  predicate Clashes(f: Field, baseline: StyleMap) {
    Effective(f, baseline).Keys * RejectedKeys(f) != {}
  }

  /**
   * The composer state after rendering `f` with baseline style `baseline`,
   * or the error it raises: a clashing style key is a TypeError, and
   * otherwise a page the base document lacks is a PageIndexError.
   */
  function RenderSpec(t: Template, c: Composer, f: Field, baseline: StyleMap): (r: Result<Composer>)
    ensures r.Ok? <==> HasPage(t, f.page) && !Clashes(f, baseline)
    ensures r.Err? ==> r.error == if Clashes(f, baseline) then TypeError else PageIndexError(f.page)
    ensures r.Ok? ==> r.value.overlays.Keys == c.overlays.Keys + {f.page}
    ensures r.Ok? ==> r.value.styleCount == c.styleCount + if f.ParaField? && (baseline != map[] || f.style != map[]) then 1 else 0
  {
    if Effective(f, baseline).Keys * CallArgs(f) != {} then Err(TypeError)
    else
      match f
      case LineField(page, _, value, x, y) =>
        AddTextSpec(t, c, x, y, value, page, Effective(f, baseline))
      case ParaField(page, _, value, x0, y0, x1, y1) =>
        AddParaSpec(t, c, x0, y0, x1, y1, value, page, Effective(f, baseline))
  }

  /**
   * The font and colour a line field is drawn in: the field's own non-None
   * value; failing that, the baseline's non-None value, unless the field
   * sets the key to None; failing that, the Normal preset. A None in the
   * field's own style hides the baseline's value, so the preset shows.
   */
  lemma RenderStylePrecedence(normal: Preset, f: Field, baseline: StyleMap, k: string)
    requires k in {"fontName", "fontSize", "textColor"}
    ensures Resolve(normal, Effective(f, baseline))[k] ==
      if k in f.style then (if f.style[k] != Null then f.style[k] else BaseStyle(normal)[k])
      else if k in baseline && baseline[k] != Null then baseline[k]
      else BaseStyle(normal)[k]
  {
    var eff := Effective(f, baseline);
    if k in f.style {
      assert eff[k] == f.style[k];
    } else if k in baseline {
      assert eff[k] == baseline[k];
    } else {
      assert k !in eff;
    }
  }

  /**
   * A rendering that succeeds appends to the field's page only. A line
   * field appends one text block: its value drawn at (x, y) in the effective
   * style. A paragraph field appends one paragraph: its value in the box
   * (x0, y0)-(x1, y1).
   */
  lemma RenderFrame(t: Template, c: Composer, f: Field, baseline: StyleMap)
    ensures RenderSpec(t, c, f, baseline).Ok? ==>
      var c' := RenderSpec(t, c, f, baseline).value;
      && (forall p :: p != f.page ==> CanvasOf(c', p) == CanvasOf(c, p))
      && (f.LineField? ==>
            CanvasOf(c', f.page) == CanvasOf(c, f.page) + TextOps(t.normal, f.x, f.y, f.value, Effective(f, baseline)))
      && (f.ParaField? ==>
            CanvasOf(c', f.page) == CanvasOf(c, f.page) +
              [DrawPara(DeriveStyle(c.styleCount, Effective(f, baseline)).0, f.value, f.x1 - f.x0, f.y0 - f.y1, f.x0, f.y0)])
  {
  }

  /** Rendering keeps every canvas's graphics state balanced. */
  lemma RenderKeepsBalanced(t: Template, c: Composer, f: Field, baseline: StyleMap)
    requires AllBalanced(c.overlays)
    ensures RenderSpec(t, c, f, baseline).Ok? ==> AllBalanced(RenderSpec(t, c, f, baseline).value.overlays)
  {
    match f
    case LineField(page, _, value, x, y) =>
      AddKeepsBalanced(t, c, x, y, x, y, value, page, Effective(f, baseline));
    case ParaField(page, _, value, x0, y0, x1, y1) =>
      AddKeepsBalanced(t, c, x0, y0, x1, y1, value, page, Effective(f, baseline));
  }

  /** Rendering a field keeps the derived paragraph-style names fresh. */
  lemma RenderFresh(t: Template, c: Composer, f: Field, baseline: StyleMap)
    requires FreshNames(c)
    ensures RenderSpec(t, c, f, baseline).Ok? ==> FreshNames(RenderSpec(t, c, f, baseline).value)
  {
    match f
    case LineField(page, _, value, x, y) =>
      AddTextFresh(t, c, x, y, value, page, Effective(f, baseline));
    case ParaField(page, _, value, x0, y0, x1, y1) =>
      AddParaFresh(t, c, x0, y0, x1, y1, value, page, Effective(f, baseline));
  }

  /**
   * render: forward the field to the composer with its effective style; a
   * clashing style key raises a TypeError and leaves the composer as it was.
   */
  method Render(f: Field, pdf: PDFFiller, baseline: StyleMap) returns (r: Outcome)
    requires pdf.Valid()
    modifies pdf
    ensures pdf.Valid()
    ensures r.Pass? <==> RenderSpec(pdf.Tmpl(), old(pdf.State()), f, baseline).Ok?
    ensures r.Pass? ==> pdf.State() == RenderSpec(pdf.Tmpl(), old(pdf.State()), f, baseline).value
    ensures r.Fail? ==> RenderSpec(pdf.Tmpl(), old(pdf.State()), f, baseline) == Err(r.error)
    ensures Clashes(f, baseline) ==> pdf.State() == old(pdf.State())
    ensures r.Fail? ==>
      && pdf.overlays == old(pdf.overlays)
      && pdf.styleCount == if f.ParaField? && !Clashes(f, baseline) then DeriveStyle(old(pdf.styleCount), Effective(f, baseline)).1 else old(pdf.styleCount)
  {
    var style := Effective(f, baseline);
    if style.Keys * CallArgs(f) != {} {
      return Fail(TypeError);
    }
    match f
    case LineField(page, _, value, x, y) =>
      r := pdf.AddText(x, y, value, page, style);
    case ParaField(page, _, value, x0, y0, x1, y1) =>
      r := pdf.AddPara(x0, y0, x1, y1, value, page, style);
  }

  /**
   * One entry of a configuration's field list, after parsing: each key may
   * be absent. `rect` and `point` are the coordinate lists as written.
   */
  datatype FieldDecl = FieldDecl(
    name: Option<string>,
    page: Option<int>,
    style: Option<StyleMap>,
    value: Option<string>,
    rect: Option<seq<real>>,
    point: Option<seq<real>>)

  /**
   * The field a declaration registers and its name. `Name` must be present;
   * `Page`, `Style` and `Value` default to 0, no style and the empty text. A
   * `Rect` makes a paragraph field from its first four numbers and is chosen
   * over a `Point`, which makes a line field from its first two; a list that
   * is too short is an IndexError, and neither key is a ValueError.
   */
  function DeclField(d: FieldDecl): (r: Result<(string, Field)>)
    ensures r.Ok? <==>
      d.name.Some? && (if d.rect.Some? then |d.rect.value| >= 4 else d.point.Some? && |d.point.value| >= 2)
    ensures r.Err? ==>
      r.error == if d.name.None? then KeyError("Name")
                 else if d.rect.None? && d.point.None? then ValueError
                 else IndexError
    ensures r.Ok? ==>
      && r.value.0 == d.name.value
      && r.value.1.page == d.page.GetOr(0)
      && r.value.1.style == d.style.GetOr(map[])
      && r.value.1.value == d.value.GetOr("")
    ensures r.Ok? && d.rect.Some? ==>
      var g := r.value.1;
      g.ParaField? && [g.x0, g.y0, g.x1, g.y1] == d.rect.value[..4]
    ensures r.Ok? && d.rect.None? ==>
      var g := r.value.1;
      g.LineField? && [g.x, g.y] == d.point.value[..2]
  {
    if d.name.None? then Err(KeyError("Name"))
    else
      var page, style, value := d.page.GetOr(0), d.style.GetOr(map[]), d.value.GetOr("");
      if d.rect.Some? then
        var q := d.rect.value;
        if |q| < 4 then Err(IndexError)
        else Ok((d.name.value, ParaField(page, style, value, q[0], q[1], q[2], q[3])))
      else if d.point.Some? then
        var q := d.point.value;
        if |q| < 2 then Err(IndexError)
        else Ok((d.name.value, LineField(page, style, value, q[0], q[1])))
      else Err(ValueError)
  }
}
