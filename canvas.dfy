/**
 * The drawing surface as a log of the operations issued on it, and the
 * style rules applied before drawing text (pdf_filler.py, apply_style).
 * Fonts, colours and text layout are opaque values here.
 */
module Canvas {
  import opened Common

  /** The stylesheet's "Normal" paragraph style: the base of every text style. */
  datatype Preset = Preset(fontName: Val, fontSize: Val, textColor: Val)

  /** The sample stylesheet used when the caller supplies none: Helvetica 10 in black. */
  const SampleNormal := Preset(Str("Helvetica"), Num(10.0), Str("black"))

  /** The paragraph style handed to the layout engine. */
  datatype ParaStyle =
    | NormalStyle                                 // the stylesheet's Normal style itself
    | Derived(name: string, overrides: StyleMap)  // a named style with Normal as parent

  /** One recorded operation on an overlay canvas. */
  datatype Op =
    | SaveState
    | SetFont(name: Val, size: Val)
    | SetFillColor(color: Val)
    | DrawString(x: real, y: real, text: string)
    | DrawPara(style: ParaStyle, text: string, width: real, height: real, x: real, y: real)
    | RestoreState
    | Finalize                                    // the canvas is saved into its packet

  /** The three properties apply_style starts from, taken from the Normal preset. */
  function BaseStyle(normal: Preset): map<string, Val> {
    map["fontName" := normal.fontName, "fontSize" := normal.fontSize, "textColor" := normal.textColor]
  }

  /**
   * The effective style of apply_style: the Normal preset's font name, size
   * and colour, where every override whose value is not None replaces the
   * base value; None overrides leave the base value in place.
   */
  function Resolve(normal: Preset, style: StyleMap): (r: map<string, Val>)
    ensures r.Keys == {"fontName", "fontSize", "textColor"} + (set k | k in style && style[k] != Null)
    ensures forall k :: k in style && style[k] != Null ==> r[k] == style[k]
    ensures forall k :: k in BaseStyle(normal) && (k !in style || style[k] == Null) ==> r[k] == BaseStyle(normal)[k]
  {
    BaseStyle(normal) + Overrides(style, style.Keys)
  }

  /** The overrides among `keys` whose value is not None. */
  function Overrides(style: StyleMap, keys: set<string>): map<string, Val>
    requires keys <= style.Keys
  {
    map k | k in keys && style[k] != Null :: style[k]
  }

  /** Visiting one more key adds its override when it is not None, and nothing otherwise. */
  lemma OverridesStep(style: StyleMap, done: set<string>, k: string)
    requires done <= style.Keys && k in style && k !in done
    ensures Overrides(style, done + {k}) ==
      if style[k] != Null then Overrides(style, done)[k := style[k]] else Overrides(style, done)
  {
  }

  /**
   * The canvas setters apply_style issues for an effective style: setFont
   * only when the font name is not None, then setFillColor only when the
   * colour is not None.
   */
  function StyleOps(eff: map<string, Val>): (ops: seq<Op>)
    requires "fontName" in eff && "fontSize" in eff && "textColor" in eff
    ensures |ops| <= 2
    ensures SetFont(eff["fontName"], eff["fontSize"]) in ops <==> eff["fontName"] != Null
    ensures SetFillColor(eff["textColor"]) in ops <==> eff["textColor"] != Null
    ensures forall op :: op in ops ==> op == SetFont(eff["fontName"], eff["fontSize"]) || op == SetFillColor(eff["textColor"])
    ensures |ops| == 2 ==> ops[0].SetFont? && ops[1].SetFillColor?
  {
    (if eff["fontName"] != Null then [SetFont(eff["fontName"], eff["fontSize"])] else [])
      + (if eff["textColor"] != Null then [SetFillColor(eff["textColor"])] else [])
  }

  /** With no overrides, text is drawn in exactly the Normal preset's font, size and colour. */
  lemma NormalPresetWithoutOverrides(normal: Preset)
    ensures Resolve(normal, map[]) == BaseStyle(normal)
    ensures StyleOps(Resolve(normal, map[])) ==
      (if normal.fontName != Null then [SetFont(normal.fontName, normal.fontSize)] else [])
        + (if normal.textColor != Null then [SetFillColor(normal.textColor)] else [])
  {
  }

  /** What add_text appends to a canvas: a save, the style setters, the string, a restore. */
  function TextOps(normal: Preset, x: real, y: real, text: string, style: StyleMap): seq<Op> {
    [SaveState] + StyleOps(Resolve(normal, style)) + [DrawString(x, y, text), RestoreState]
  }

  /** The change an operation makes to the depth of saved graphics states. */
  function Delta(op: Op): int {
    match op
    case SaveState => 1
    case RestoreState => -1
    case _ => 0
  }

  /**
   * The depth of saved graphics states after `ops`, starting at depth `d`;
   * None when a restore finds no saved state to restore.
   */
  function Depth(ops: seq<Op>, d: nat): Option<nat>
    decreases |ops|
  {
    if ops == [] then Some(d)
    else if d + Delta(ops[0]) < 0 then None
    else Depth(ops[1..], d + Delta(ops[0]))
  }

  /** Every restore matches an earlier save, and every save is restored. */
  predicate Balanced(ops: seq<Op>) {
    Depth(ops, 0) == Some(0)
  }

  lemma {:induction false} DepthConcat(a: seq<Op>, b: seq<Op>, d: nat)
    ensures Depth(a + b, d) == if Depth(a, d).None? then None else Depth(b, Depth(a, d).value)
    decreases |a|
  {
    if a == [] {
      assert a + b == b;
    } else {
      assert (a + b)[0] == a[0] && (a + b)[1..] == a[1..] + b;
      if d + Delta(a[0]) >= 0 {
        DepthConcat(a[1..], b, d + Delta(a[0]));
      }
    }
  }

  /** Appending a balanced block to a balanced log keeps it balanced. */
  lemma BalancedConcat(a: seq<Op>, b: seq<Op>)
    requires Balanced(a) && Balanced(b)
    ensures Balanced(a + b)
  {
    DepthConcat(a, b, 0);
  }

  lemma {:induction false} DepthNeutral(body: seq<Op>, d: nat)
    requires forall i :: 0 <= i < |body| ==> Delta(body[i]) == 0
    ensures Depth(body, d) == Some(d)
    decreases |body|
  {
    if body != [] {
      DepthNeutral(body[1..], d);
    }
  }

  /** A save, operations that neither save nor restore, then a restore: a balanced block. */
  lemma BracketBalanced(body: seq<Op>)
    requires forall i :: 0 <= i < |body| ==> Delta(body[i]) == 0
    ensures Balanced([SaveState] + body + [RestoreState])
  {
    var ops := [SaveState] + body + [RestoreState];
    assert ops[0] == SaveState && ops[1..] == body + [RestoreState];
    DepthConcat(body, [RestoreState], 1);
    DepthNeutral(body, 1);
    assert Depth([RestoreState], 1) == Some(0) by {
      assert [RestoreState][1..] == [];
    }
  }

  /** The block add_text appends leaves the canvas's graphics state as it found it. */
  lemma TextOpsBalanced(normal: Preset, x: real, y: real, text: string, style: StyleMap)
    ensures Balanced(TextOps(normal, x, y, text, style))
    ensures TextOps(normal, x, y, text, style)[0] == SaveState
    ensures var ops := TextOps(normal, x, y, text, style);
      ops[|ops| - 1] == RestoreState && ops[|ops| - 2] == DrawString(x, y, text)
  {
    var body := StyleOps(Resolve(normal, style)) + [DrawString(x, y, text)];
    assert TextOps(normal, x, y, text, style) == [SaveState] + body + [RestoreState];
    BracketBalanced(body);
  }

  /** An operation that does not touch the graphics-state stack keeps a balanced log balanced. */
  lemma AppendNeutralBalanced(ops: seq<Op>, op: Op)
    requires Balanced(ops) && Delta(op) == 0
    ensures Balanced(ops + [op])
  {
    assert Balanced([op]) by {
      assert [op][1..] == [];
    }
    BalancedConcat(ops, [op]);
  }
}
