/**
 * The field registry of pdf_form.py as values: the name-to-field dict in its
 * iteration order, and what registering, clearing, setting values and
 * reading a configuration's field list do to it.
 */
module FieldRegistry {
  import opened Common
  import opened Fields

  /**
   * The `fields` dict: the field of every name, and the names in the order
   * the dict iterates them (the order they were first stored in).
   */
  datatype Registry = Registry(fields: map<string, Field>, order: seq<string>)

  /** The order lists every registered name exactly once, and nothing else. */
  predicate WellFormed(reg: Registry) {
    && (forall i :: 0 <= i < |reg.order| ==> reg.order[i] in reg.fields)
    && (forall k :: k in reg.fields ==> k in reg.order)
    && (forall i, j :: 0 <= i < j < |reg.order| ==> reg.order[i] != reg.order[j])
  }

  /**
   * `fields[name] = f`: the name's field becomes `f` and every other field
   * stays; a new name goes last in the order, and a name already present
   * keeps its place.
   */
  function Put(reg: Registry, name: string, f: Field): (r: Registry)
    ensures r.fields.Keys == reg.fields.Keys + {name}
    ensures forall k :: k in r.fields ==> r.fields[k] == if k == name then f else reg.fields[k]
    ensures r.order == if name in reg.fields then reg.order else reg.order + [name]
  {
    Registry(reg.fields[name := f], if name in reg.fields then reg.order else reg.order + [name])
  }

  /** Storing a field keeps the order listing every registered name exactly once. */
  lemma PutFrame(reg: Registry, name: string, f: Field)
    requires WellFormed(reg)
    ensures WellFormed(Put(reg, name, f))
  {
    var r := Put(reg, name, f);
    if name !in reg.fields {
      forall k | k in r.fields ensures k in r.order {
        if k != name {
          var i :| 0 <= i < |reg.order| && reg.order[i] == k;
          assert r.order[i] == k;
        } else {
          assert r.order[|reg.order|] == name;
        }
      }
    }
  }

  /** Every field with its value set to the empty text. */
  function Cleared(fs: map<string, Field>): (r: map<string, Field>)
    ensures r.Keys == fs.Keys
    ensures forall k :: k in r ==> r[k].value == "" && SameShape(r[k], fs[k])
  {
    map k | k in fs :: fs[k].(value := "")
  }

  /** The fields with the values of the names in `names` cleared: clearing part way through. */
  function ClearedAmong(fs: map<string, Field>, names: seq<string>): map<string, Field> {
    map k | k in fs :: if k in names then fs[k].(value := "") else fs[k]
  }

  lemma ClearedAmongStep(fs: map<string, Field>, names: seq<string>, i: nat)
    requires i < |names| && names[i] in fs
    ensures var g := ClearedAmong(fs, names[..i]);
      ClearedAmong(fs, names[..i + 1]) == g[names[i] := g[names[i]].(value := "")]
  {
    assert forall k :: k in names[..i + 1] <==> k in names[..i] || k == names[i];
  }

  lemma ClearedAmongAll(fs: map<string, Field>, names: seq<string>)
    requires forall k :: k in fs ==> k in names
    ensures ClearedAmong(fs, names[..|names|]) == Cleared(fs)
  {
    assert names[..|names|] == names;
  }

  /** Two registries whose fields differ at most in their values clear to the same thing. */
  lemma ClearedForgetsValues(fs: map<string, Field>, gs: map<string, Field>)
    requires fs.Keys == gs.Keys
    requires forall k :: k in fs ==> SameShape(fs[k], gs[k])
    ensures Cleared(fs) == Cleared(gs)
  {
    forall k | k in fs ensures Cleared(fs)[k] == Cleared(gs)[k] {
      assert fs[k].(value := "") == gs[k].(value := "");
    }
  }

  /** Clearing twice is clearing once. */
  lemma ClearedIdempotent(fs: map<string, Field>)
    ensures Cleared(Cleared(fs)) == Cleared(fs)
  {
    ClearedForgetsValues(Cleared(fs), fs);
  }

  /**
   * The fields after `set_field` on each pair of `vs` in turn, and how it
   * ended: the first name that is not registered raises a KeyError and the
   * pairs after it are not applied; those before it stay applied.
   */
  function ApplyValues(fs: map<string, Field>, vs: Record): (res: (map<string, Field>, Outcome))
    ensures res.0.Keys == fs.Keys
    ensures forall k :: k in fs ==> SameShape(res.0[k], fs[k])
    ensures res.1.Fail? ==> res.1.error.KeyError? && res.1.error.key !in fs
  {
    if vs == [] then (fs, Pass)
    else
      var prev := ApplyValues(fs, vs[..|vs| - 1]);
      var (name, value) := vs[|vs| - 1];
      if prev.1.Fail? then prev
      else if name in prev.0 then (prev.0[name := prev.0[name].(value := value)], Pass)
      else (prev.0, Fail(KeyError(name)))
  }

  /** Every field whose name `vals` has, with that value; the others as they are. */
  function WithValues(fs: map<string, Field>, vals: map<string, string>): map<string, Field> {
    map k | k in fs :: if k in vals then fs[k].(value := vals[k]) else fs[k]
  }

  /**
   * When every name is registered, setting the values succeeds, and each
   * field gets the value of its name's last pair.
   */
  lemma {:induction false} ApplyValuesPass(fs: map<string, Field>, vs: Record)
    requires forall i :: 0 <= i < |vs| ==> vs[i].0 in fs
    ensures ApplyValues(fs, vs) == (WithValues(fs, LastWins(vs)), Pass)
  {
    if vs == [] {
      assert WithValues(fs, map[]) == fs;
    } else {
      var front := vs[..|vs| - 1];
      ApplyValuesPass(fs, front);
      var (name, value) := vs[|vs| - 1];
      assert LastWins(vs) == LastWins(front)[name := value];
      WithValuesStep(fs, LastWins(front), name, value);
    }
  }

  lemma WithValuesStep(fs: map<string, Field>, vals: map<string, string>, name: string, value: string)
    requires name in fs
    ensures var g := WithValues(fs, vals);
      g[name := g[name].(value := value)] == WithValues(fs, vals[name := value])
  {
  }

  /** Setting values succeeds exactly when every name among them is registered. */
  lemma {:induction false} ApplyValuesOutcome(fs: map<string, Field>, vs: Record)
    ensures ApplyValues(fs, vs).1.Pass? <==> forall i :: 0 <= i < |vs| ==> vs[i].0 in fs
  {
    if vs != [] {
      var front := vs[..|vs| - 1];
      ApplyValuesOutcome(fs, front);
      if forall i :: 0 <= i < |front| ==> front[i].0 in fs {
        assert forall i :: 0 <= i < |front| ==> vs[i].0 == front[i].0;
      } else {
        var i :| 0 <= i < |front| && front[i].0 !in fs;
        assert vs[i] == front[i];
      }
    }
  }

  /** Once setting a prefix of the values has failed, the rest changes nothing. */
  lemma {:induction false} ApplyValuesSticks(fs: map<string, Field>, vs: Record, n: nat)
    requires n <= |vs| && ApplyValues(fs, vs[..n]).1.Fail?
    ensures ApplyValues(fs, vs) == ApplyValues(fs, vs[..n])
    decreases |vs|
  {
    if n < |vs| {
      var front := vs[..|vs| - 1];
      assert front[..n] == vs[..n];
      ApplyValuesSticks(fs, front, n);
    } else {
      assert vs[..n] == vs;
    }
  }

  /**
   * set_values stops at the first name that is not registered with a
   * KeyError for it; the values before it stay set, and none after it is.
   */
  lemma ApplyValuesStops(fs: map<string, Field>, vs: Record, j: nat)
    requires j < |vs| && vs[j].0 !in fs
    requires forall i :: 0 <= i < j ==> vs[i].0 in fs
    ensures ApplyValues(fs, vs) == (WithValues(fs, LastWins(vs[..j])), Fail(KeyError(vs[j].0)))
  {
    ApplyValuesPass(fs, vs[..j]);
    assert vs[..j + 1][..j] == vs[..j];
    ApplyValuesSticks(fs, vs, j + 1);
  }

  /** Setting values changes values only, so clearing afterwards is clearing before. */
  lemma ClearedAfterValues(fs: map<string, Field>, vs: Record)
    ensures Cleared(ApplyValues(fs, vs).0) == Cleared(fs)
  {
    ClearedForgetsValues(ApplyValues(fs, vs).0, fs);
  }

  /**
   * The registry after registering each declaration in turn, and how it
   * ended: the first declaration that cannot be read raises its error and
   * the ones after it are not read; those before it stay registered.
   */
  function DeclareAll(reg: Registry, decls: seq<FieldDecl>): (r: (Registry, Outcome))
    ensures reg.fields.Keys <= r.0.fields.Keys
    ensures r.1.Fail? ==> exists i :: 0 <= i < |decls| && DeclField(decls[i]) == Err(r.1.error)
  {
    if decls == [] then (reg, Pass)
    else
      var front := decls[..|decls| - 1];
      var prev := DeclareAll(reg, front);
      if prev.1.Fail? then
        assert forall i :: 0 <= i < |front| ==> front[i] == decls[i];
        prev
      else
        match DeclField(decls[|decls| - 1])
        case Err(e) => (prev.0, Fail(e))
        case Ok((name, f)) => (Put(prev.0, name, f), Pass)
  }

  /** The (name, field) pairs of the declarations that can be read, in order. */
  function Declared(decls: seq<FieldDecl>): (ds: seq<(string, Field)>)
    ensures |ds| <= |decls|
    ensures (forall i :: 0 <= i < |decls| ==> DeclField(decls[i]).Ok?) ==>
      |ds| == |decls| && forall i :: 0 <= i < |ds| ==> ds[i] == DeclField(decls[i]).value
  {
    if decls == [] then []
    else
      var front := decls[..|decls| - 1];
      assert forall i :: 0 <= i < |front| ==> front[i] == decls[i];
      Declared(front) +
        match DeclField(decls[|decls| - 1]) case Ok(p) => [p] case Err(_) => []
  }

  /**
   * Declarations that can all be read register every field they declare;
   * where two declare the same name, the later one is kept.
   */
  lemma {:induction false} DeclareAllPass(reg: Registry, decls: seq<FieldDecl>)
    requires forall i :: 0 <= i < |decls| ==> DeclField(decls[i]).Ok?
    ensures DeclareAll(reg, decls).1 == Pass
    ensures DeclareAll(reg, decls).0.fields == reg.fields + LastWins(Declared(decls))
  {
    if decls != [] {
      var front := decls[..|decls| - 1];
      DeclareAllPass(reg, front);
      var (name, f) := DeclField(decls[|decls| - 1]).value;
      DeclaredStep(decls);
      UnionUpdate(reg.fields, LastWins(Declared(front)), name, f);
    }
  }

  lemma DeclaredStep(decls: seq<FieldDecl>)
    requires decls != [] && DeclField(decls[|decls| - 1]).Ok?
    ensures var last := DeclField(decls[|decls| - 1]).value;
      LastWins(Declared(decls)) == LastWins(Declared(decls[..|decls| - 1]))[last.0 := last.1]
  {
    var front := decls[..|decls| - 1];
    assert Declared(decls) == Declared(front) + [DeclField(decls[|decls| - 1]).value];
    LastWinsSnoc(Declared(front), DeclField(decls[|decls| - 1]).value);
  }

  lemma UnionUpdate<V>(a: map<string, V>, b: map<string, V>, k: string, v: V)
    ensures (a + b)[k := v] == a + b[k := v]
  {
  }

  /** Reading declarations keeps the order listing every registered name once. */
  lemma {:induction false} DeclareAllWellFormed(reg: Registry, decls: seq<FieldDecl>)
    requires WellFormed(reg)
    ensures WellFormed(DeclareAll(reg, decls).0)
  {
    if decls != [] {
      var front := decls[..|decls| - 1];
      DeclareAllWellFormed(reg, front);
      var prev := DeclareAll(reg, front);
      var d := DeclField(decls[|decls| - 1]);
      if prev.1.Pass? && d.Ok? {
        PutFrame(prev.0, d.value.0, d.value.1);
      }
    }
  }

  /** Once reading a prefix of the declarations has failed, the rest changes nothing. */
  lemma {:induction false} DeclareAllSticks(reg: Registry, decls: seq<FieldDecl>, n: nat)
    requires n <= |decls| && DeclareAll(reg, decls[..n]).1.Fail?
    ensures DeclareAll(reg, decls) == DeclareAll(reg, decls[..n])
    decreases |decls|
  {
    if n < |decls| {
      var front := decls[..|decls| - 1];
      assert front[..n] == decls[..n];
      DeclareAllSticks(reg, front, n);
    } else {
      assert decls[..n] == decls;
    }
  }

  /**
   * A declaration that cannot be read stops the reading with its error;
   * the fields declared before it stay registered.
   */
  lemma DeclareAllStops(reg: Registry, decls: seq<FieldDecl>, j: nat)
    requires j < |decls| && DeclField(decls[j]).Err?
    requires forall i :: 0 <= i < j ==> DeclField(decls[i]).Ok?
    ensures DeclareAll(reg, decls).1 == Fail(DeclField(decls[j]).error)
    ensures DeclareAll(reg, decls).0.fields == reg.fields + LastWins(Declared(decls[..j]))
  {
    DeclareAllPass(reg, decls[..j]);
    assert decls[..j + 1][..j] == decls[..j];
    DeclareAllSticks(reg, decls, j + 1);
  }
}
