/**
 * The form controller of pdf_form.py: a registry of named fields and a
 * global style, filled in and rendered onto a fresh composer over the base
 * document, once or once per record of a batch.
 *
 * Opening the base document is reduced to looking its path up in `docs`,
 * which maps every readable document to its page count.
 */
module Form {
  import opened Common
  import opened Canvas
  import opened Filler
  import opened FileNames
  import opened Fields
  import opened FieldRegistry

  /** A parsed configuration: each top-level key may be absent. */
  datatype Config = Config(basePdf: Option<string>, style: Option<StyleMap>, fields: Option<seq<FieldDecl>>)

  /**
   * The global style only grows: after set_style with `a` and then with
   * `b`, a key keeps the value it had before either call, else the value
   * `a` gave it, else the one `b` gave it. A field's own style, in contrast,
   * wins over the global one when rendering (Fields.Effective).
   */
  lemma SetStyleFirstWins(s: StyleMap, a: StyleMap, b: StyleMap)
    ensures Merge(b, Merge(a, s)).Keys == s.Keys + a.Keys + b.Keys
    ensures forall k :: k in Merge(b, Merge(a, s)) ==>
      Merge(b, Merge(a, s))[k] == if k in s then s[k] else if k in a then a[k] else b[k]
  {
  }

  /** Opening the base document: its page count, or FileError when there is no document at that path. */
  function OpenBase(docs: map<string, nat>, base: Option<string>): (r: Result<nat>)
    ensures r.Ok? <==> base.Some? && base.value in docs
    ensures r.Ok? ==> r.value == docs[base.value]
    ensures r.Err? ==> r.error == FileError
  {
    if base.Some? && base.value in docs then Ok(docs[base.value]) else Err(FileError)
  }

  /**
   * The composer state after rendering the fields `names` in turn, or the
   * first error. Rendering only adds: no overlay disappears and the style
   * counter never goes back.
   */
  function RenderAll(t: Template, c: Composer, fs: map<string, Field>, names: seq<string>, baseline: StyleMap): (r: Result<Composer>)
    requires forall i :: 0 <= i < |names| ==> names[i] in fs
    ensures r.Ok? ==> c.overlays.Keys <= r.value.overlays.Keys && c.styleCount <= r.value.styleCount
    ensures r.Err? ==> r.error == TypeError || r.error.PageIndexError?
  {
    if names == [] then Ok(c)
    else
      match RenderAll(t, c, fs, names[..|names| - 1], baseline)
      case Err(e) => Err(e)
      case Ok(c') => RenderSpec(t, c', fs[names[|names| - 1]], baseline)
  }

  /** The pages the fields `names` are on. */
  function PagesOf(fs: map<string, Field>, names: seq<string>): set<int>
    requires forall i :: 0 <= i < |names| ==> names[i] in fs
  {
    set i | 0 <= i < |names| :: fs[names[i]].page
  }

  lemma PagesOfStep(fs: map<string, Field>, names: seq<string>)
    requires names != [] && forall i :: 0 <= i < |names| ==> names[i] in fs
    ensures PagesOf(fs, names) == PagesOf(fs, names[..|names| - 1]) + {fs[names[|names| - 1]].page}
  {
    var front := names[..|names| - 1];
    forall p | p in PagesOf(fs, names) ensures p in PagesOf(fs, front) + {fs[names[|names| - 1]].page} {
      var i :| 0 <= i < |names| && fs[names[i]].page == p;
      if i < |front| {
        assert front[i] == names[i];
      }
    }
    forall p | p in PagesOf(fs, front) ensures p in PagesOf(fs, names) {
      var i :| 0 <= i < |front| && fs[front[i]].page == p;
      assert names[i] == front[i];
    }
  }

  /**
   * Rendering a list of fields succeeds exactly when every one of them is on
   * a page of the base document and has no style key its composer call
   * cannot take.
   */
  lemma {:induction false} RenderAllOutcome(t: Template, c: Composer, fs: map<string, Field>, names: seq<string>, baseline: StyleMap)
    requires forall i :: 0 <= i < |names| ==> names[i] in fs
    ensures RenderAll(t, c, fs, names, baseline).Ok? <==>
      forall i :: 0 <= i < |names| ==> HasPage(t, fs[names[i]].page) && !Clashes(fs[names[i]], baseline)
  {
    RenderAllOkAll(t, c, fs, names, baseline);
    AllRenderableEvery(t, fs, names, baseline);
  }

  /** Whether every field of `names` is on a base page and has no style key its composer call cannot take. */
  predicate AllRenderable(t: Template, fs: map<string, Field>, names: seq<string>, baseline: StyleMap)
    requires forall i :: 0 <= i < |names| ==> names[i] in fs
  {
    names != [] ==>
      && AllRenderable(t, fs, names[..|names| - 1], baseline)
      && HasPage(t, fs[names[|names| - 1]].page) && !Clashes(fs[names[|names| - 1]], baseline)
  }

  /** AllRenderable holds exactly when each field of `names` can be rendered. */
  lemma {:induction false} AllRenderableEvery(t: Template, fs: map<string, Field>, names: seq<string>, baseline: StyleMap)
    requires forall i :: 0 <= i < |names| ==> names[i] in fs
    ensures AllRenderable(t, fs, names, baseline) <==>
      forall i :: 0 <= i < |names| ==> HasPage(t, fs[names[i]].page) && !Clashes(fs[names[i]], baseline)
  {
    if names != [] {
      var front := names[..|names| - 1];
      AllRenderableEvery(t, fs, front, baseline);
      assert forall i :: 0 <= i < |front| ==> front[i] == names[i];
    }
  }

  /** Rendering the fields `names` succeeds exactly when they are AllRenderable. */
  lemma {:induction false} RenderAllOkAll(t: Template, c: Composer, fs: map<string, Field>, names: seq<string>, baseline: StyleMap)
    requires forall i :: 0 <= i < |names| ==> names[i] in fs
    ensures RenderAll(t, c, fs, names, baseline).Ok? <==> AllRenderable(t, fs, names, baseline)
  {
    if names != [] {
      RenderAllOkAll(t, c, fs, names[..|names| - 1], baseline);
      RenderAllOkStep(t, c, fs, names, baseline);
    }
  }

  /** Rendering one more field succeeds exactly when the fields before it did and it can be rendered. */
  lemma RenderAllOkStep(t: Template, c: Composer, fs: map<string, Field>, names: seq<string>, baseline: StyleMap)
    requires forall i :: 0 <= i < |names| ==> names[i] in fs
    requires names != []
    ensures RenderAll(t, c, fs, names, baseline).Ok? <==>
      && RenderAll(t, c, fs, names[..|names| - 1], baseline).Ok?
      && HasPage(t, fs[names[|names| - 1]].page) && !Clashes(fs[names[|names| - 1]], baseline)
  {
  }

  /**
   * A failed rendering is a TypeError for a field with a style key its
   * composer call cannot take, or a PageIndexError for a page the base
   * document does not have.
   */
  lemma {:induction false} RenderAllError(t: Template, c: Composer, fs: map<string, Field>, names: seq<string>, baseline: StyleMap)
    requires forall i :: 0 <= i < |names| ==> names[i] in fs
    ensures RenderAll(t, c, fs, names, baseline).Err? ==>
      var e := RenderAll(t, c, fs, names, baseline).error;
      || (e == TypeError && exists i :: 0 <= i < |names| && Clashes(fs[names[i]], baseline))
      || (e.PageIndexError? && !HasPage(t, e.page))
  {
    if names != [] {
      var front := names[..|names| - 1];
      RenderAllError(t, c, fs, front, baseline);
      var prev := RenderAll(t, c, fs, front, baseline);
      if prev.Err? && prev.error == TypeError {
        var i :| 0 <= i < |front| && Clashes(fs[front[i]], baseline);
        assert names[i] == front[i];
      }
    }
  }

  /** A successful rendering creates overlays for exactly the pages the fields are on. */
  lemma {:induction false} RenderAllPages(t: Template, c: Composer, fs: map<string, Field>, names: seq<string>, baseline: StyleMap)
    requires forall i :: 0 <= i < |names| ==> names[i] in fs
    ensures RenderAll(t, c, fs, names, baseline).Ok? ==>
      RenderAll(t, c, fs, names, baseline).value.overlays.Keys == c.overlays.Keys + PagesOf(fs, names)
  {
    if names != [] {
      var front := names[..|names| - 1];
      RenderAllPages(t, c, fs, front, baseline);
      PagesOfStep(fs, names);
      var prev := RenderAll(t, c, fs, front, baseline);
    }
  }

  /** A successful rendering keeps every canvas balanced. */
  lemma {:induction false} RenderAllBalanced(t: Template, c: Composer, fs: map<string, Field>, names: seq<string>, baseline: StyleMap)
    requires forall i :: 0 <= i < |names| ==> names[i] in fs
    requires AllBalanced(c.overlays)
    ensures RenderAll(t, c, fs, names, baseline).Ok? ==> AllBalanced(RenderAll(t, c, fs, names, baseline).value.overlays)
  {
    if names != [] {
      var front := names[..|names| - 1];
      RenderAllBalanced(t, c, fs, front, baseline);
      var prev := RenderAll(t, c, fs, front, baseline);
      if prev.Ok? {
        RenderKeepsBalanced(t, prev.value, fs[names[|names| - 1]], baseline);
      }
    }
  }

  /** Rendering fields in turn keeps the derived paragraph-style names fresh. */
  lemma {:induction false} RenderAllFresh(t: Template, c: Composer, fs: map<string, Field>, names: seq<string>, baseline: StyleMap)
    requires forall i :: 0 <= i < |names| ==> names[i] in fs
    requires FreshNames(c)
    ensures RenderAll(t, c, fs, names, baseline).Ok? ==> FreshNames(RenderAll(t, c, fs, names, baseline).value)
  {
    if names != [] {
      var front := names[..|names| - 1];
      RenderAllFresh(t, c, fs, front, baseline);
      var prev := RenderAll(t, c, fs, front, baseline);
      if prev.Ok? {
        RenderFresh(t, prev.value, fs[names[|names| - 1]], baseline);
      }
    }
  }

  /**
   * On the fresh composer generate and every batch round start from, the
   * paragraphs rendered in derived styles all have distinct style names,
   * each `parastyle{k}` for a k below the final counter.
   */
  lemma RenderAllDistinctNames(t: Template, fs: map<string, Field>, names: seq<string>, baseline: StyleMap)
    requires forall i :: 0 <= i < |names| ==> names[i] in fs
    ensures RenderAll(t, Composer(map[], 0), fs, names, baseline).Ok? ==>
      FreshNames(RenderAll(t, Composer(map[], 0), fs, names, baseline).value)
  {
    RenderAllFresh(t, Composer(map[], 0), fs, names, baseline);
  }

  /** Rendering one more field after a successful prefix. */
  lemma RenderAllStep(t: Template, c: Composer, fs: map<string, Field>, names: seq<string>, baseline: StyleMap, i: nat, mid: Composer)
    requires forall i :: 0 <= i < |names| ==> names[i] in fs
    requires i < |names| && RenderAll(t, c, fs, names[..i], baseline) == Ok(mid)
    ensures RenderAll(t, c, fs, names[..i + 1], baseline) == RenderSpec(t, mid, fs[names[i]], baseline)
  {
    assert names[..i + 1][..i] == names[..i];
  }

  /** Once rendering a prefix of the fields has failed, the rest changes nothing. */
  lemma {:induction false} RenderAllSticks(t: Template, c: Composer, fs: map<string, Field>, names: seq<string>, baseline: StyleMap, n: nat)
    requires forall i :: 0 <= i < |names| ==> names[i] in fs
    requires n <= |names| && RenderAll(t, c, fs, names[..n], baseline).Err?
    ensures RenderAll(t, c, fs, names, baseline) == RenderAll(t, c, fs, names[..n], baseline)
    decreases |names|
  {
    if n < |names| {
      var front := names[..|names| - 1];
      assert front[..n] == names[..n];
      RenderAllSticks(t, c, fs, front, baseline, n);
    } else {
      assert names[..n] == names;
    }
  }

  /** The template of a composer over a base document of `n` pages. */
  function TemplateOf(n: nat, styleSheet: Option<Preset>): Template {
    Template(n, styleSheet.GetOr(SampleNormal))
  }

  /**
   * generate: open the base document, render every field in the registry's
   * order with the global style, and save to `path`.
   */
  function GenerateSpec(docs: map<string, nat>, base: Option<string>, styleSheet: Option<Preset>,
                        reg: Registry, style: StyleMap, path: string): (r: Result<Document>)
    requires WellFormed(reg)
    ensures r.Ok? ==> OpenBase(docs, base).Ok? && r.value.path == path && |r.value.pages| == OpenBase(docs, base).value
    ensures r.Err? ==> r.error == FileError || r.error == TypeError || r.error.PageIndexError?
  {
    match OpenBase(docs, base)
    case Err(e) => Err(e)
    case Ok(n) =>
      match RenderAll(TemplateOf(n, styleSheet), Composer(map[], 0), reg.fields, reg.order, style)
      case Err(e) => Err(e)
      case Ok(c) => Ok(Document(path, SavePages(c, n)))
  }

  /**
   * In a well-formed registry, iterating the order visits exactly the
   * registered fields: every field in the order can be rendered exactly when
   * every field can, and the pages of the fields in the order are the pages
   * of all fields.
   */
  lemma OnPagesOfAll(reg: Registry, n: nat, style: StyleMap)
    requires WellFormed(reg)
    ensures (forall i :: 0 <= i < |reg.order| ==> 0 <= reg.fields[reg.order[i]].page < n && !Clashes(reg.fields[reg.order[i]], style)) <==>
            (forall k :: k in reg.fields ==> 0 <= reg.fields[k].page < n && !Clashes(reg.fields[k], style))
    ensures forall p :: p in PagesOf(reg.fields, reg.order) <==> exists k :: k in reg.fields && reg.fields[k].page == p
  {
    if forall i :: 0 <= i < |reg.order| ==> 0 <= reg.fields[reg.order[i]].page < n && !Clashes(reg.fields[reg.order[i]], style) {
      forall k | k in reg.fields ensures 0 <= reg.fields[k].page < n && !Clashes(reg.fields[k], style) {
        var i :| 0 <= i < |reg.order| && reg.order[i] == k;
      }
    }
    forall p ensures p in PagesOf(reg.fields, reg.order) <==> exists k :: k in reg.fields && reg.fields[k].page == p {
      if p in PagesOf(reg.fields, reg.order) {
        var j :| 0 <= j < |reg.order| && reg.fields[reg.order[j]].page == p;
        assert reg.order[j] in reg.fields;
      }
      if exists k :: k in reg.fields && reg.fields[k].page == p {
        var k :| k in reg.fields && reg.fields[k].page == p;
        var j :| 0 <= j < |reg.order| && reg.order[j] == k;
      }
    }
  }

  /**
   * generate succeeds exactly when the base document can be opened and every
   * field is on one of its pages, with no key of its effective style (the
   * global style merged with its own) among the named arguments of the
   * composer call that draws it.
   */
  lemma GenerateOutcome(docs: map<string, nat>, base: Option<string>, styleSheet: Option<Preset>,
                        reg: Registry, style: StyleMap, path: string)
    requires WellFormed(reg)
    ensures GenerateSpec(docs, base, styleSheet, reg, style, path).Ok? <==>
      && OpenBase(docs, base).Ok?
      && forall k :: k in reg.fields ==> 0 <= reg.fields[k].page < OpenBase(docs, base).value && !Clashes(reg.fields[k], style)
  {
    var open := OpenBase(docs, base);
    if open.Ok? {
      RenderAllOutcome(TemplateOf(open.value, styleSheet), Composer(map[], 0), reg.fields, reg.order, style);
      OnPagesOfAll(reg, open.value, style);
    }
  }

  /**
   * The document generate writes has every page of the base document in
   * order, and a page is merged with an overlay exactly when some field is
   * on it.
   */
  lemma GeneratePages(docs: map<string, nat>, base: Option<string>, styleSheet: Option<Preset>,
                      reg: Registry, style: StyleMap, path: string)
    requires WellFormed(reg)
    ensures GenerateSpec(docs, base, styleSheet, reg, style, path).Ok? ==>
      var doc := GenerateSpec(docs, base, styleSheet, reg, style, path).value;
      && doc.path == path
      && |doc.pages| == OpenBase(docs, base).value
      && (forall i :: 0 <= i < |doc.pages| ==> doc.pages[i].index == i)
      && (forall i :: 0 <= i < |doc.pages| ==>
            (doc.pages[i].overlay.Some? <==> exists k :: k in reg.fields && reg.fields[k].page == i))
  {
    var open := OpenBase(docs, base);
    if open.Ok? {
      var t := TemplateOf(open.value, styleSheet);
      var c0 := Composer(map[], 0);
      RenderAllPages(t, c0, reg.fields, reg.order, style);
      OnPagesOfAll(reg, open.value, style);
    }
  }

  /** Every overlay merged into the document generate writes leaves the graphics state balanced. */
  lemma GenerateBalanced(docs: map<string, nat>, base: Option<string>, styleSheet: Option<Preset>,
                         reg: Registry, style: StyleMap, path: string)
    requires WellFormed(reg)
    ensures GenerateSpec(docs, base, styleSheet, reg, style, path).Ok? ==>
      var doc := GenerateSpec(docs, base, styleSheet, reg, style, path).value;
      forall i :: 0 <= i < |doc.pages| && doc.pages[i].overlay.Some? ==> Balanced(doc.pages[i].overlay.value)
  {
    var open := OpenBase(docs, base);
    if open.Ok? {
      var t := TemplateOf(open.value, styleSheet);
      var c0 := Composer(map[], 0);
      var r := RenderAll(t, c0, reg.fields, reg.order, style);
      if r.Ok? {
        RenderAllBalanced(t, c0, reg.fields, reg.order, style);
        forall i | i in r.value.overlays ensures Balanced(r.value.overlays[i] + [Finalize]) {
          AppendNeutralBalanced(r.value.overlays[i], Finalize);
        }
      }
    }
  }

  /**
   * The document generate_batch writes for record `i`: the base document
   * opened afresh, the cleared fields set to the record's values, rendered,
   * and saved under the name the pattern gives for the record; or the
   * first error on the way.
   */
  function BatchDoc(docs: map<string, nat>, base: Option<string>, styleSheet: Option<Preset>,
                    reg: Registry, style: StyleMap, i: nat, rec: Record, pattern: string): (r: Result<Document>)
    requires WellFormed(reg)
    ensures r.Ok? ==> OpenBase(docs, base).Ok? && |r.value.pages| == OpenBase(docs, base).value
    ensures r.Err? ==> r.error == FileError || r.error == TypeError || r.error.PageIndexError? || r.error.KeyError?
  {
    match OpenBase(docs, base)
    case Err(e) => Err(e)
    case Ok(n) =>
      var applied := ApplyValues(Cleared(reg.fields), rec);
      if applied.1.Fail? then Err(applied.1.error)
      else
        match RenderAll(TemplateOf(n, styleSheet), Composer(map[], 0), applied.0, reg.order, style)
        case Err(e) => Err(e)
        case Ok(c) =>
          match Substitute(pattern, Replacement(i, rec))
          case Err(e) => Err(e)
          case Ok(name) => Ok(Document(name, SavePages(c, n)))
  }

  /**
   * The fields a round of generate_batch leaves in the form: cleared, and,
   * once the base document has opened, given the record's values up to the
   * first name that is not registered. The next round clears them again,
   * but get_field and generate see them.
   */
  function BatchFields(docs: map<string, nat>, base: Option<string>, fs: map<string, Field>, rec: Record): (r: map<string, Field>)
    ensures r.Keys == fs.Keys
    ensures forall k :: k in fs ==> SameShape(r[k], fs[k])
    ensures OpenBase(docs, base).Err? ==> forall k :: k in r ==> r[k].value == ""
  {
    if OpenBase(docs, base).Err? then Cleared(fs) else ApplyValues(Cleared(fs), rec).0
  }

  /** A round changes values only: clearing what it leaves is clearing what it found. */
  lemma BatchFieldsCleared(docs: map<string, nat>, base: Option<string>, fs: map<string, Field>, rec: Record)
    ensures Cleared(BatchFields(docs, base, fs, rec)) == Cleared(fs)
  {
    ClearedForgetsValues(BatchFields(docs, base, fs, rec), fs);
  }

  /** What a round leaves in the form does not depend on the values before it. */
  lemma BatchFieldsForget(docs: map<string, nat>, base: Option<string>, fs: map<string, Field>, gs: map<string, Field>, rec: Record)
    requires Cleared(fs) == Cleared(gs)
    ensures BatchFields(docs, base, fs, rec) == BatchFields(docs, base, gs, rec)
  {
  }

  /**
   * Record `i` is drawn with its own values and nothing else: every field it
   * names carries the record's (last) value for it, and every other field is
   * empty, whatever earlier records set. A record naming a field that is not
   * registered is a KeyError for that name.
   */
  lemma BatchRecordValues(fs: map<string, Field>, rec: Record)
    ensures ApplyValues(Cleared(fs), rec).1.Pass? <==> forall j :: 0 <= j < |rec| ==> rec[j].0 in fs
    ensures ApplyValues(Cleared(fs), rec).1.Fail? ==> ApplyValues(Cleared(fs), rec).1.error.key !in fs
    ensures ApplyValues(Cleared(fs), rec).1.Pass? ==>
      forall k :: k in fs ==>
        ApplyValues(Cleared(fs), rec).0[k] ==
          fs[k].(value := if k in LastWins(rec) then LastWins(rec)[k] else "")
  {
    ApplyValuesOutcome(Cleared(fs), rec);
    if forall j :: 0 <= j < |rec| ==> rec[j].0 in fs {
      ApplyValuesPass(Cleared(fs), rec);
    }
  }

  /**
   * The document of record `i` is written exactly when the base document
   * opens, every name of the record is a registered field, every field is
   * on a page of the base document with no effective style key its composer
   * call cannot take, and every token of the pattern has a value.
   */
  lemma BatchOutcome(docs: map<string, nat>, base: Option<string>, styleSheet: Option<Preset>,
                     reg: Registry, style: StyleMap, i: nat, rec: Record, pattern: string)
    requires WellFormed(reg)
    ensures BatchDoc(docs, base, styleSheet, reg, style, i, rec, pattern).Ok? <==>
      && OpenBase(docs, base).Ok?
      && (forall j :: 0 <= j < |rec| ==> rec[j].0 in reg.fields)
      && (forall k :: k in reg.fields ==> 0 <= reg.fields[k].page < OpenBase(docs, base).value && !Clashes(reg.fields[k], style))
      && Substitute(pattern, Replacement(i, rec)).Ok?
  {
    var open := OpenBase(docs, base);
    if open.Ok? {
      var fs := Cleared(reg.fields);
      ApplyValuesOutcome(fs, rec);
      var applied := ApplyValues(fs, rec);
      if applied.1.Pass? {
        RenderAllOutcome(TemplateOf(open.value, styleSheet), Composer(map[], 0), applied.0, reg.order, style);
        SameShapesRender(reg, applied.0, open.value, style);
      }
    }
  }

  /** Fields that differ from the registered ones only in their values can be rendered exactly when those can. */
  lemma SameShapesRender(reg: Registry, gs: map<string, Field>, n: nat, style: StyleMap)
    requires WellFormed(reg) && gs.Keys == reg.fields.Keys
    requires forall k :: k in gs ==> SameShape(gs[k], reg.fields[k])
    ensures (forall i :: 0 <= i < |reg.order| ==> 0 <= gs[reg.order[i]].page < n && !Clashes(gs[reg.order[i]], style)) <==>
            (forall k :: k in reg.fields ==> 0 <= reg.fields[k].page < n && !Clashes(reg.fields[k], style))
  {
    forall k | k in gs ensures gs[k].page == reg.fields[k].page && Clashes(gs[k], style) == Clashes(reg.fields[k], style) {
      assert gs[k].(value := "") == reg.fields[k].(value := "");
    }
    OnPagesOfAll(Registry(gs, reg.order), n, style);
  }

  /** The document of record `i` is named by the pattern, filled in from the record and its index. */
  lemma BatchPath(docs: map<string, nat>, base: Option<string>, styleSheet: Option<Preset>,
                  reg: Registry, style: StyleMap, i: nat, rec: Record, pattern: string)
    requires WellFormed(reg)
    ensures BatchDoc(docs, base, styleSheet, reg, style, i, rec, pattern).Ok? ==>
      && Substitute(pattern, Replacement(i, rec)).Ok?
      && BatchDoc(docs, base, styleSheet, reg, style, i, rec, pattern).value.path == Substitute(pattern, Replacement(i, rec)).value
  {
  }

  /**
   * What a round of a batch writes depends on the registry only through its
   * order and its cleared fields: values left over from an earlier record
   * make no difference.
   */
  lemma BatchNoLeak(docs: map<string, nat>, base: Option<string>, styleSheet: Option<Preset>,
                    reg: Registry, reg': Registry, style: StyleMap, i: nat, rec: Record, pattern: string)
    requires WellFormed(reg) && WellFormed(reg')
    requires reg.order == reg'.order && Cleared(reg.fields) == Cleared(reg'.fields)
    ensures BatchDoc(docs, base, styleSheet, reg, style, i, rec, pattern) ==
            BatchDoc(docs, base, styleSheet, reg', style, i, rec, pattern)
  {
  }

  /**
   * The rounds of a batch over `records`, each as it would go alone: round
   * `j` draws record `j` from the registry's cleared fields and names its
   * document with index `j`.
   */
  function Rounds(docs: map<string, nat>, base: Option<string>, styleSheet: Option<Preset>,
                  reg: Registry, style: StyleMap, records: seq<Record>, pattern: string): (rs: seq<Result<Document>>)
    requires WellFormed(reg)
    ensures |rs| == |records|
    ensures forall j :: 0 <= j < |records| ==> rs[j] == BatchDoc(docs, base, styleSheet, reg, style, j, records[j], pattern)
  {
    seq(|records|, j requires 0 <= j < |records| => BatchDoc(docs, base, styleSheet, reg, style, j, records[j], pattern))
  }

  /**
   * What a run of rounds writes and how it ends: the rounds go in order,
   * each written document is kept, and the first error ends the run.
   */
  function Run(rounds: seq<Result<Document>>): (r: (seq<Document>, Outcome))
    ensures |r.0| <= |rounds|
  {
    if rounds == [] then ([], Pass)
    else
      var prev := Run(rounds[..|rounds| - 1]);
      if prev.1.Fail? then prev
      else
        match rounds[|rounds| - 1]
        case Err(e) => (prev.0, Fail(e))
        case Ok(d) => (prev.0 + [d], Pass)
  }

  /**
   * A run writes the documents of its rounds in order, up to the first
   * round that fails: it passes exactly when every round wrote its
   * document, and otherwise ends with the error of the first that did not.
   */
  lemma {:induction false} RunWrites(rounds: seq<Result<Document>>)
    ensures Run(rounds).1.Pass? <==> |Run(rounds).0| == |rounds|
    ensures forall j :: 0 <= j < |Run(rounds).0| ==> rounds[j] == Ok(Run(rounds).0[j])
    ensures Run(rounds).1.Fail? ==> |Run(rounds).0| < |rounds| && rounds[|Run(rounds).0|] == Err(Run(rounds).1.error)
  {
    if rounds != [] {
      var front := rounds[..|rounds| - 1];
      RunWrites(front);
      assert forall j :: 0 <= j < |front| ==> front[j] == rounds[j];
    }
  }

  /** Once a run has failed, later rounds change nothing: they are never reached. */
  lemma {:induction false} RunStops(rounds: seq<Result<Document>>, n: nat)
    requires n <= |rounds| && Run(rounds[..n]).1.Fail?
    ensures Run(rounds) == Run(rounds[..n])
  {
    if n == |rounds| {
      assert rounds[..n] == rounds;
    } else {
      var front := rounds[..|rounds| - 1];
      assert front[..n] == rounds[..n];
      RunStops(front, n);
    }
  }

  /**
   * A batch writes document `j` exactly as round `j` would alone, for every
   * record up to the first that fails; it passes exactly when every record
   * was written, and otherwise ends with that first record's error.
   */
  lemma BatchWrites(docs: map<string, nat>, base: Option<string>, styleSheet: Option<Preset>,
                    reg: Registry, style: StyleMap, records: seq<Record>, pattern: string)
    requires WellFormed(reg)
    ensures var (written, r) := Run(Rounds(docs, base, styleSheet, reg, style, records, pattern));
      && (r.Pass? <==> |written| == |records|)
      && (forall j :: 0 <= j < |written| ==> BatchDoc(docs, base, styleSheet, reg, style, j, records[j], pattern) == Ok(written[j]))
      && (r.Fail? ==>
            && |written| < |records|
            && BatchDoc(docs, base, styleSheet, reg, style, |written|, records[|written|], pattern) == Err(r.error))
  {
    RunWrites(Rounds(docs, base, styleSheet, reg, style, records, pattern));
  }

  /**
   * A form: the base document's path, the stylesheet, the global style and
   * the registry of named fields (`fields`, iterated in `order`).
   */
  class PDFForm {
    var baseFile: Option<string>
    const styleSheet: Option<Preset>
    var style: StyleMap
    var fields: map<string, Field>
    var order: seq<string>

    ghost predicate Valid()
      reads this
    {
      WellFormed(Registry(fields, order))
    }

    function Reg(): Registry
      reads this
    {
      Registry(fields, order)
    }

    /** A form over `baseFile` with no global style and no fields. */
    constructor (baseFile: Option<string>, styleSheet: Option<Preset>)
      ensures Valid()
      ensures this.baseFile == baseFile && this.styleSheet == styleSheet
      ensures style == map[] && Reg() == Registry(map[], [])
    {
      this.baseFile := baseFile;
      this.styleSheet := styleSheet;
      style := map[];
      fields := map[];
      order := [];
    }

    /** `self.fields[name] = f`. */
    method Store(name: string, f: Field)
      requires Valid()
      modifies this
      ensures Valid() && Reg() == Put(old(Reg()), name, f)
      ensures style == old(style) && baseFile == old(baseFile)
    {
      PutFrame(Reg(), name, f);
      if name !in fields {
        order := order + [name];
      }
      fields := fields[name := f];
    }

    /** add_line_field: register an empty line field at (x, y), replacing any field of that name. */
    method AddLineField(name: string, x: real, y: real, page: int, fieldStyle: StyleMap)
      requires Valid()
      modifies this
      ensures Valid() && Reg() == Put(old(Reg()), name, LineField(page, fieldStyle, "", x, y))
      ensures style == old(style) && baseFile == old(baseFile)
    {
      Store(name, LineField(page, fieldStyle, "", x, y));
    }

    /** add_para_field: register an empty paragraph field in the box (x0, y0)-(x1, y1), replacing any field of that name. */
    method AddParaField(name: string, x0: real, y0: real, x1: real, y1: real, page: int, fieldStyle: StyleMap)
      requires Valid()
      modifies this
      ensures Valid() && Reg() == Put(old(Reg()), name, ParaField(page, fieldStyle, "", x0, y0, x1, y1))
      ensures style == old(style) && baseFile == old(baseFile)
    {
      Store(name, ParaField(page, fieldStyle, "", x0, y0, x1, y1));
    }

    /** clear_fields: every registered field's value becomes the empty text. */
    method ClearFields()
      requires Valid()
      modifies this
      ensures Valid() && fields == Cleared(old(fields)) && order == old(order)
      ensures style == old(style) && baseFile == old(baseFile)
    {
      ghost var before := fields;
      var names := order;
      for i := 0 to |names|
        invariant order == names && style == old(style) && baseFile == old(baseFile)
        invariant fields == ClearedAmong(before, names[..i])
      {
        ClearedAmongStep(before, names, i);
        fields := fields[names[i] := fields[names[i]].(value := "")];
      }
      ClearedAmongAll(before, names);
    }

    /** set_field: the value of a registered field; a KeyError, changing nothing, for any other name. */
    method SetField(name: string, value: string) returns (r: Outcome)
      requires Valid()
      modifies this
      ensures Valid() && order == old(order) && style == old(style) && baseFile == old(baseFile)
      ensures r.Pass? <==> name in old(fields)
      ensures r.Pass? ==> fields == old(fields)[name := old(fields)[name].(value := value)]
      ensures r.Fail? ==> r == Fail(KeyError(name)) && fields == old(fields)
    {
      if name !in fields {
        return Fail(KeyError(name));
      }
      fields := fields[name := fields[name].(value := value)];
      r := Pass;
    }

    /** get_field: the value of a registered field, or a KeyError. */
    method GetField(name: string) returns (r: Result<string>)
      ensures r.Ok? <==> name in fields
      ensures r.Ok? ==> r.value == fields[name].value
      ensures r.Err? ==> r.error == KeyError(name)
    {
      if name !in fields {
        return Err(KeyError(name));
      }
      r := Ok(fields[name].value);
    }

    /** `form[name]`: looks the value up and discards it, so it yields nothing, or raises a KeyError. */
    method GetItem(name: string) returns (r: Outcome)
      ensures r.Pass? <==> name in fields
      ensures r.Fail? ==> r.error == KeyError(name)
    {
      var v := GetField(name);
      r := if v.Ok? then Pass else Fail(v.error);
    }

    /** `form[name] = value`: set_field. */
    method SetItem(name: string, value: string) returns (r: Outcome)
      requires Valid()
      modifies this
      ensures Valid() && order == old(order) && style == old(style) && baseFile == old(baseFile)
      ensures r.Pass? <==> name in old(fields)
      ensures r.Pass? ==> fields == old(fields)[name := old(fields)[name].(value := value)]
      ensures r.Fail? ==> r == Fail(KeyError(name)) && fields == old(fields)
    {
      r := SetField(name, value);
    }

    /** set_values: set_field on every pair in turn, stopping at the first KeyError without undoing anything. */
    method SetValues(vs: Record) returns (r: Outcome)
      requires Valid()
      modifies this
      ensures Valid() && order == old(order) && style == old(style) && baseFile == old(baseFile)
      ensures (fields, r) == ApplyValues(old(fields), vs)
    {
      ghost var before := fields;
      r := Pass;
      for i := 0 to |vs|
        invariant Valid() && order == old(order) && style == old(style) && baseFile == old(baseFile)
        invariant ApplyValues(before, vs[..i]) == (fields, Pass) && r == Pass
      {
        assert vs[..i + 1][..i] == vs[..i];
        r := SetField(vs[i].0, vs[i].1);
        if r.Fail? {
          ApplyValuesSticks(before, vs, i + 1);
          return;
        }
      }
      assert vs[..|vs|] == vs;
    }

    /** set_style: add the given properties to the global style, keeping the value of every key it already has. */
    method SetStyle(newStyle: StyleMap)
      modifies this
      ensures style == Merge(newStyle, old(style))
      ensures fields == old(fields) && order == old(order) && baseFile == old(baseFile)
    {
      style := Merge(newStyle, style);
    }

    /**
     * from_yaml, after parsing: take the base document's path, merge the
     * style (keeping existing keys), then register the declared fields in
     * turn; the first declaration that cannot be read raises its error and
     * leaves the fields declared before it registered.
     */
    method FromYaml(conf: Config) returns (r: Outcome)
      requires Valid()
      modifies this
      ensures Valid()
      ensures baseFile == if conf.basePdf.Some? then conf.basePdf else old(baseFile)
      ensures style == if conf.style.Some? then Merge(conf.style.value, old(style)) else old(style)
      ensures conf.fields.None? ==> Reg() == old(Reg()) && r == Pass
      ensures conf.fields.Some? ==> (Reg(), r) == DeclareAll(old(Reg()), conf.fields.value)
    {
      if conf.basePdf.Some? {
        baseFile := conf.basePdf;
      }
      if conf.style.Some? {
        style := Merge(conf.style.value, style);
      }
      r := Pass;
      if conf.fields.Some? {
        r := DeclareFields(conf.fields.value);
      }
    }

    /** The field loop of from_yaml: register each declaration in turn, stopping at the first that cannot be read. */
    method DeclareFields(decls: seq<FieldDecl>) returns (r: Outcome)
      requires Valid()
      modifies this
      ensures Valid() && style == old(style) && baseFile == old(baseFile)
      ensures (Reg(), r) == DeclareAll(old(Reg()), decls)
    {
      ghost var reg0 := Reg();
      r := Pass;
      for i := 0 to |decls|
        invariant Valid() && style == old(style) && baseFile == old(baseFile)
        invariant DeclareAll(reg0, decls[..i]) == (Reg(), Pass) && r == Pass
      {
        assert decls[..i + 1][..i] == decls[..i];
        var d := DeclField(decls[i]);
        if d.Err? {
          r := Fail(d.error);
          DeclareAllSticks(reg0, decls, i + 1);
          return;
        }
        Store(d.value.0, d.value.1);
      }
      assert decls[..|decls|] == decls;
    }

    /** The loop of generate: render every field, in the registry's order, with the global style. */
    method RenderFields(pdf: PDFFiller) returns (r: Outcome)
      requires Valid() && pdf.Valid()
      modifies pdf
      ensures pdf.Valid()
      ensures r.Pass? <==> RenderAll(pdf.Tmpl(), old(pdf.State()), fields, order, style).Ok?
      ensures r.Pass? ==> pdf.State() == RenderAll(pdf.Tmpl(), old(pdf.State()), fields, order, style).value
      ensures r.Fail? ==> RenderAll(pdf.Tmpl(), old(pdf.State()), fields, order, style) == Err(r.error)
    {
      ghost var c0 := pdf.State();
      var names, fs, t := order, fields, pdf.Tmpl();
      r := Pass;
      for i := 0 to |names|
        invariant pdf.Valid() && pdf.Tmpl() == t
        invariant RenderAll(t, c0, fs, names[..i], style) == Ok(pdf.State()) && r == Pass
      {
        RenderAllStep(t, c0, fs, names, style, i, pdf.State());
        r := Render(fs[names[i]], pdf, style);
        if r.Fail? {
          RenderAllSticks(t, c0, fs, names, style, i + 1);
          return;
        }
      }
      assert names[..|names|] == names;
    }

    /** generate: fill a fresh composer over the base document with every field and save it to `path`. */
    method Generate(docs: map<string, nat>, path: string) returns (r: Result<Document>)
      requires Valid()
      ensures r == GenerateSpec(docs, baseFile, styleSheet, Reg(), style, path)
    {
      var open := OpenBase(docs, baseFile);
      if open.Err? {
        return Err(open.error);
      }
      var template := new PDFFiller(open.value, styleSheet);
      var o := RenderFields(template);
      if o.Fail? {
        return Err(o.error);
      }
      var doc := template.Save(path);
      r := Ok(doc);
    }

    /**
     * One round of generate_batch: clear the fields, open a fresh composer,
     * set the record's values, render, name the file from the pattern and
     * save it. The fields keep their shapes whatever happens.
     */
    method BatchOne(docs: map<string, nat>, i: nat, rec: Record, pattern: string) returns (r: Result<Document>)
      requires Valid()
      modifies this
      ensures Valid() && order == old(order) && style == old(style) && baseFile == old(baseFile)
      ensures Cleared(fields) == Cleared(old(fields))
      ensures fields == BatchFields(docs, baseFile, old(fields), rec)
      ensures r == BatchDoc(docs, baseFile, styleSheet, old(Reg()), style, i, rec, pattern)
    {
      ClearFields();
      ClearedIdempotent(old(fields));
      var open := OpenBase(docs, baseFile);
      if open.Err? {
        return Err(open.error);
      }
      var template := new PDFFiller(open.value, styleSheet);
      var o := SetValues(rec);
      ClearedAfterValues(Cleared(old(fields)), rec);
      if o.Fail? {
        return Err(o.error);
      }
      o := RenderFields(template);
      if o.Fail? {
        return Err(o.error);
      }
      var name := Substitute(pattern, Replacement(i, rec));
      if name.Err? {
        return Err(name.error);
      }
      var doc := template.Save(name.value);
      r := Ok(doc);
    }

    /**
     * generate_batch: one round per record, in order. The first error ends
     * the batch; the documents saved before it stay written. Each document
     * depends only on its own record and index, never on earlier records.
     */
    method GenerateBatch(docs: map<string, nat>, records: seq<Record>, pattern: string)
        returns (written: seq<Document>, r: Outcome)
      requires Valid()
      modifies this
      ensures Valid() && order == old(order) && style == old(style) && baseFile == old(baseFile)
      ensures (written, r) == Run(Rounds(docs, baseFile, styleSheet, old(Reg()), style, records, pattern))
      ensures records == [] ==> fields == old(fields)
      ensures r.Fail? ==> |written| < |records| && fields == BatchFields(docs, baseFile, old(fields), records[|written|])
      ensures r.Pass? && records != [] ==> fields == BatchFields(docs, baseFile, old(fields), records[|records| - 1])
    {
      ghost var reg0 := Reg();
      ghost var rounds := Rounds(docs, baseFile, styleSheet, reg0, style, records, pattern);
      written := [];
      r := Pass;
      for i := 0 to |records|
        invariant Valid() && order == reg0.order && style == old(style) && baseFile == old(baseFile)
        invariant (written, Pass) == Run(rounds[..i])
        invariant |written| == i
        invariant fields == if i == 0 then reg0.fields else BatchFields(docs, baseFile, reg0.fields, records[i - 1])
        invariant r == Pass
      {
        if 0 < i {
          BatchFieldsCleared(docs, baseFile, reg0.fields, records[i - 1]);
        }
        BatchNoLeak(docs, baseFile, styleSheet, Reg(), reg0, style, i, records[i], pattern);
        BatchFieldsForget(docs, baseFile, fields, reg0.fields, records[i]);
        assert rounds[..i + 1][..i] == rounds[..i];
        var doc := BatchOne(docs, i, records[i], pattern);
        if doc.Err? {
          RunStops(rounds, i + 1);
          return written, Fail(doc.error);
        }
        written := written + [doc.value];
      }
      assert rounds[..|records|] == rounds;
    }
  }
}
