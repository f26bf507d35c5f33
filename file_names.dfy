/**
 * The output file names of batch generation (pdf_form.py, generate_batch):
 * every `{word}` token of the pattern is replaced by the record's value for
 * `word`, with `_i` standing for the record's index; everything else in the
 * pattern is kept as it is, and a token with no value is a KeyError.
 *
 * The regular expression `\{(\w+)\}` is modelled as a left-to-right scan
 * that splits the pattern into literal characters and tokens.
 */
module FileNames {
  import opened Common

  /** A character `\w` matches: an ASCII letter, digit or underscore. */
  predicate IsWordChar(c: char) {
    'a' <= c <= 'z' || 'A' <= c <= 'Z' || '0' <= c <= '9' || c == '_'
  }

  /** A token name: one or more word characters. */
  predicate IsName(name: string) {
    |name| > 0 && forall i :: 0 <= i < |name| ==> IsWordChar(name[i])
  }

  /** The length of the longest run of word characters that `s` starts with. */
  function WordRun(s: string): (n: nat)
    ensures n <= |s|
    ensures forall i :: 0 <= i < n ==> IsWordChar(s[i])
    ensures n < |s| ==> !IsWordChar(s[n])
  {
    if s != [] && IsWordChar(s[0]) then 1 + WordRun(s[1..]) else 0
  }

  datatype Piece = Lit(c: char) | Token(name: string)

  /**
   * The pattern split as the substitution scans it: at a `{` followed by a
   * name and a `}` a token starts; anywhere else one character is kept and
   * the scan moves on by one. Every token found is a name.
   */
  function Tokenize(s: string): (ps: seq<Piece>)
    ensures forall j :: 0 <= j < |ps| && ps[j].Token? ==> IsName(ps[j].name)
    decreases |s|
  {
    if s == [] then []
    else
      var n := WordRun(s[1..]);
      if s[0] == '{' && 0 < n && n + 1 < |s| && s[n + 1] == '}' then
        assert s[1..n + 1] == s[1..][..n];
        [Token(s[1..n + 1])] + Tokenize(s[n + 2..])
      else
        [Lit(s[0])] + Tokenize(s[1..])
  }

  function PieceText(p: Piece): string {
    match p
    case Lit(c) => [c]
    case Token(name) => "{" + name + "}"
  }

  /** The text a sequence of pieces was read from. */
  function Unparse(ps: seq<Piece>): string {
    if ps == [] then "" else PieceText(ps[0]) + Unparse(ps[1..])
  }

  lemma UnparseCons(p: Piece, ps: seq<Piece>)
    ensures Unparse([p] + ps) == PieceText(p) + Unparse(ps)
  {
    assert ([p] + ps)[0] == p && ([p] + ps)[1..] == ps;
  }

  /** Splitting a pattern loses nothing: the pieces spell the pattern again. */
  lemma {:induction false} TokenizeRoundTrip(s: string)
    ensures Unparse(Tokenize(s)) == s
    decreases |s|
  {
    if s != [] {
      var n := WordRun(s[1..]);
      if s[0] == '{' && 0 < n && n + 1 < |s| && s[n + 1] == '}' {
        TokenizeRoundTrip(s[n + 2..]);
        TokenStep(s, n);
      } else {
        TokenizeRoundTrip(s[1..]);
        LiteralStep(s, n);
      }
    }
  }

  lemma TokenStep(s: string, n: nat)
    requires s != [] && n == WordRun(s[1..]) && s[0] == '{' && 0 < n && n + 1 < |s| && s[n + 1] == '}'
    requires Unparse(Tokenize(s[n + 2..])) == s[n + 2..]
    ensures Unparse(Tokenize(s)) == s
  {
    var name, rest := s[1..n + 1], s[n + 2..];
    assert Tokenize(s) == [Token(name)] + Tokenize(rest);
    UnparseCons(Token(name), Tokenize(rest));
    assert s[..n + 2] == [s[0]] + name + [s[n + 1]];
    assert s == s[..n + 2] + rest;
  }

  lemma LiteralStep(s: string, n: nat)
    requires s != [] && n == WordRun(s[1..])
    requires !(s[0] == '{' && 0 < n && n + 1 < |s| && s[n + 1] == '}')
    requires Unparse(Tokenize(s[1..])) == s[1..]
    ensures Unparse(Tokenize(s)) == s
  {
    assert Tokenize(s) == [Lit(s[0])] + Tokenize(s[1..]);
    UnparseCons(Lit(s[0]), Tokenize(s[1..]));
    assert s == [s[0]] + s[1..];
  }

  /** Put `prefix` in front of a successful result; keep an error. */
  function Prepend(prefix: string, r: Result<string>): Result<string> {
    if r.Ok? then Ok(prefix + r.value) else r
  }

  /** Every token among the pieces has a value. */
  predicate AllValued(ps: seq<Piece>, repl: map<string, string>) {
    forall j :: 0 <= j < |ps| && ps[j].Token? ==> ps[j].name in repl
  }

  /**
   * The pieces with every token replaced by its value, left to right; the
   * first token without a value raises a KeyError for its name.
   */
  function Fill(ps: seq<Piece>, repl: map<string, string>): (r: Result<string>)
    ensures r.Ok? <==> AllValued(ps, repl)
    ensures r.Err? ==> r.error.KeyError? && r.error.key !in repl
    ensures r.Err? ==> exists j :: 0 <= j < |ps| && ps[j] == Token(r.error.key)
  {
    if ps == [] then Ok("")
    else
      match ps[0]
      case Lit(c) => Prepend([c], Fill(ps[1..], repl))
      case Token(name) =>
        if name in repl then Prepend(repl[name], Fill(ps[1..], repl)) else Err(KeyError(name))
  }

  /**
   * `re.sub(r'\{(\w+)\}', lambda m: repl[m[1]], pattern)`: it succeeds
   * exactly when every token of the pattern has a value; otherwise it raises
   * a KeyError for a token name without one.
   */
  function Substitute(pattern: string, repl: map<string, string>): (r: Result<string>)
    ensures r.Ok? <==> AllValued(Tokenize(pattern), repl)
    ensures r.Err? ==> r.error.KeyError? && IsName(r.error.key) && r.error.key !in repl
  {
    Fill(Tokenize(pattern), repl)
  }

  /** Text without `{` is copied unchanged in front of whatever follows it. */
  lemma {:induction false} SubstituteKeepsLiteral(lit: string, rest: string, repl: map<string, string>)
    requires forall i :: 0 <= i < |lit| ==> lit[i] != '{'
    ensures Substitute(lit + rest, repl) == Prepend(lit, Substitute(rest, repl))
    decreases |lit|
  {
    if lit != [] {
      var s := lit + rest;
      assert s[0] == lit[0] && s[1..] == lit[1..] + rest;
      assert Tokenize(s) == [Lit(lit[0])] + Tokenize(lit[1..] + rest);
      assert ([Lit(lit[0])] + Tokenize(lit[1..] + rest))[1..] == Tokenize(lit[1..] + rest);
      assert Substitute(s, repl) == Prepend([lit[0]], Substitute(lit[1..] + rest, repl));
      SubstituteKeepsLiteral(lit[1..], rest, repl);
      var r := Substitute(rest, repl);
      if r.Ok? {
        assert [lit[0]] + (lit[1..] + r.value) == lit + r.value;
      }
    } else {
      assert lit + rest == rest;
      var r := Substitute(rest, repl);
      if r.Ok? {
        assert lit + r.value == r.value;
      }
    }
  }

  /** A `{name}` token is replaced by the value of `name`, or raises a KeyError when it has none. */
  lemma SubstituteToken(name: string, rest: string, repl: map<string, string>)
    requires IsName(name)
    ensures Substitute("{" + name + "}" + rest, repl) ==
      if name in repl then Prepend(repl[name], Substitute(rest, repl)) else Err(KeyError(name))
  {
    TokenizeToken(name, rest);
  }

  lemma {:induction false} WordRunOfName(name: string, rest: string)
    requires forall i :: 0 <= i < |name| ==> IsWordChar(name[i])
    requires rest != [] && !IsWordChar(rest[0])
    ensures WordRun(name + rest) == |name|
    decreases |name|
  {
    if name == [] {
      assert name + rest == rest;
    } else {
      assert (name + rest)[1..] == name[1..] + rest;
      WordRunOfName(name[1..], rest);
    }
  }

  /**
   * A token that the scan finds at the head of `pre + t`, where `t` starts
   * with `{`, lies inside `pre`: neither its word nor its `}` can be that `{`.
   */
  lemma TokenInside(pre: string, t: string)
    requires pre != [] && t != [] && t[0] == '{'
    requires var s := pre + t; var n := WordRun(s[1..]);
      s[0] == '{' && 0 < n && n + 1 < |s| && s[n + 1] == '}'
    ensures var n := WordRun((pre + t)[1..]);
      && n + 2 <= |pre|
      && Tokenize(pre + t) == [Token(pre[1..n + 1])] + Tokenize(pre[n + 2..] + t)
      && pre == PieceText(Token(pre[1..n + 1])) + pre[n + 2..]
  {
    var s := pre + t;
    var n := WordRun(s[1..]);
    assert s[|pre|] == '{' && s[1..][|pre| - 1] == '{';
    assert s[1..n + 1] == pre[1..n + 1];
    assert s[n + 2..] == pre[n + 2..] + t;
    assert pre == [pre[0]] + pre[1..n + 1] + [pre[n + 1]] + pre[n + 2..];
  }

  /** A character the scan keeps as a literal at the head of `pre + t` comes from `pre`. */
  lemma LiteralInside(pre: string, t: string)
    requires pre != []
    requires var s := pre + t; var n := WordRun(s[1..]);
      !(s[0] == '{' && 0 < n && n + 1 < |s| && s[n + 1] == '}')
    ensures Tokenize(pre + t) == [Lit(pre[0])] + Tokenize(pre[1..] + t)
  {
    var s := pre + t;
    TokenizeLiteralHead(s);
    assert s[0] == pre[0] && s[1..] == pre[1..] + t;
  }

  lemma TokenizeLiteralHead(s: string)
    requires s != []
    requires var n := WordRun(s[1..]); !(s[0] == '{' && 0 < n && n + 1 < |s| && s[n + 1] == '}')
    ensures Tokenize(s) == [Lit(s[0])] + Tokenize(s[1..])
  {
  }

  /**
   * The scan never runs across a `{`: whatever stands before it is split
   * into pieces of its own, and the scan resumes exactly at that `{`.
   */
  lemma {:induction false} TokenizeUpToBrace(pre: string, t: string) returns (ps: seq<Piece>)
    requires t != [] && t[0] == '{'
    ensures Unparse(ps) == pre && Tokenize(pre + t) == ps + Tokenize(t)
    decreases |pre|
  {
    if pre == [] {
      assert pre + t == t;
      ps := [];
    } else {
      var head, tail := FirstPiece(pre, t);
      var rs := TokenizeUpToBrace(tail, t);
      ps := [head] + rs;
      UnparseCons(head, rs);
      JoinAfter(head, rs, Tokenize(pre + t), Tokenize(tail + t), Tokenize(t));
    }
  }

  /** Glues a first element onto a sequence that is itself split in two. */
  lemma JoinAfter<T>(head: T, rs: seq<T>, all: seq<T>, after: seq<T>, ts: seq<T>)
    requires all == [head] + after && after == rs + ts
    ensures all == [head] + rs + ts
  {
  }

  /** The first piece the scan takes from `pre + t`, where `t` starts with `{`, lies inside `pre`. */
  lemma FirstPiece(pre: string, t: string) returns (head: Piece, tail: string)
    requires pre != [] && t != [] && t[0] == '{'
    ensures |tail| < |pre| && pre == PieceText(head) + tail
    ensures Tokenize(pre + t) == [head] + Tokenize(tail + t)
  {
    var s := pre + t;
    var n := WordRun(s[1..]);
    if s[0] == '{' && 0 < n && n + 1 < |s| && s[n + 1] == '}' {
      TokenInside(pre, t);
      head, tail := Token(pre[1..n + 1]), pre[n + 2..];
    } else {
      LiteralInside(pre, t);
      head, tail := Lit(pre[0]), pre[1..];
      assert pre == [pre[0]] + pre[1..];
    }
  }

  /**
   * Every `{word}` of a pattern is found as a token, wherever it stands:
   * the pieces before it spell what precedes it, and the scan goes on after
   * its `}`.
   */
  lemma TokenizeFindsEvery(pre: string, a: string, rest: string)
    requires IsName(a)
    ensures exists ps :: Unparse(ps) == pre && Tokenize(pre + "{" + a + "}" + rest) == ps + [Token(a)] + Tokenize(rest)
  {
    var t := "{" + a + "}" + rest;
    assert pre + "{" + a + "}" + rest == pre + t;
    var ps := TokenizeUpToBrace(pre, t);
    TokenizeToken(a, rest);
    assert ps + Tokenize(t) == ps + [Token(a)] + Tokenize(rest);
  }

  /** A `{word}` at the head of a pattern is one token, and the scan goes on after its `}`. */
  lemma TokenizeToken(name: string, rest: string)
    requires IsName(name)
    ensures Tokenize("{" + name + "}" + rest) == [Token(name)] + Tokenize(rest)
  {
    var s := "{" + name + "}" + rest;
    assert WordRun(s[1..]) == |name| by {
      WordRunOfName(name, "}" + rest);
      assert s[1..] == name + ("}" + rest);
    }
    assert s[|name| + 2..] == rest;
    assert s[1..|name| + 1] == name;
  }

  /** Every `{word}` in a pattern needs a value: substituting succeeds only if the word has one. */
  lemma SubstituteFindsEvery(pre: string, a: string, rest: string, repl: map<string, string>)
    requires IsName(a)
    ensures Substitute(pre + "{" + a + "}" + rest, repl).Ok? ==> a in repl
  {
    TokenizeFindsEvery(pre, a, rest);
    var ps :| Unparse(ps) == pre && Tokenize(pre + "{" + a + "}" + rest) == ps + [Token(a)] + Tokenize(rest);
    assert (ps + [Token(a)] + Tokenize(rest))[|ps|] == Token(a);
  }

  /** A doubled brace leaves one `{` in place: `{{a}}` becomes `{`, a's value and `}`, or a KeyError for a. */
  lemma SubstituteDoubledBrace()
    ensures Substitute("{{a}}", map["a" := "v"]) == Ok("{v}")
    ensures Substitute("{{a}}", map[]) == Err(KeyError("a"))
  {
    var s := "{{a}}";
    assert WordRun(s[1..]) == 0;
    var ps := Tokenize(s);
    assert ps == [Lit('{')] + Tokenize(s[1..]);
    assert ps[0] == Lit('{') && ps[1..] == Tokenize(s[1..]);
    var u, m := s[1..], map["a" := "v"];
    assert u == "{" + "a" + "}" + "}";
    assert IsName("a");
    SubstituteToken("a", "}", m);
    SubstituteToken("a", "}", map[]);
    SubstituteWithoutTokens("}", m);
    assert Substitute(u, m) == Prepend("v", Ok("}"));
    assert "v" + "}" == "v}";
    assert "{" + "v}" == "{v}";
  }

  /** A pattern without `{` is a file name as it stands. */
  lemma SubstituteWithoutTokens(pattern: string, repl: map<string, string>)
    requires forall i :: 0 <= i < |pattern| ==> pattern[i] != '{'
    ensures Substitute(pattern, repl) == Ok(pattern)
  {
    SubstituteKeepsLiteral(pattern, "", repl);
    assert pattern + "" == pattern;
  }

  /**
   * The values a record's file name is built from: the record's own values,
   * and `_i` as the index in decimal unless the record has an `_i` key.
   */
  function Replacement(i: nat, rec: Record): (m: map<string, string>)
    ensures m.Keys == {"_i"} + LastWins(rec).Keys
    ensures forall k :: k in LastWins(rec) ==> m[k] == LastWins(rec)[k]
    ensures "_i" !in LastWins(rec) ==> m["_i"] == NatToString(i)
  {
    map["_i" := NatToString(i)] + LastWins(rec)
  }

  /**
   * A pattern of the shape `pre{a}rest`, where `pre` holds no `{`, becomes
   * `pre`, the value of `a` and whatever `rest` becomes.
   */
  lemma SubstituteAfterLiteral(pre: string, a: string, rest: string, repl: map<string, string>)
    requires forall i :: 0 <= i < |pre| ==> pre[i] != '{'
    requires IsName(a)
    ensures Substitute(pre + "{" + a + "}" + rest, repl) ==
      if a !in repl then Err(KeyError(a)) else Prepend(pre + repl[a], Substitute(rest, repl))
  {
    var tail := "{" + a + "}" + rest;
    assert pre + "{" + a + "}" + rest == pre + tail;
    SubstituteToken(a, rest, repl);
    SubstituteKeepsLiteral(pre, tail, repl);
    var r := Substitute(rest, repl);
    if a in repl && r.Ok? {
      assert pre + (repl[a] + r.value) == (pre + repl[a]) + r.value;
    }
  }

  /**
   * A pattern of the shape `pre{a}mid{b}post`, where `pre`, `mid` and `post`
   * hold no `{`, becomes `pre`, the value of `a`, `mid`, the value of `b` and
   * `post`; the first of `a`, `b` without a value is the error.
   */
  lemma SubstituteTwoTokens(pre: string, a: string, mid: string, b: string, post: string, repl: map<string, string>)
    requires forall i :: 0 <= i < |pre| ==> pre[i] != '{'
    requires forall i :: 0 <= i < |mid| ==> mid[i] != '{'
    requires forall i :: 0 <= i < |post| ==> post[i] != '{'
    requires IsName(a) && IsName(b)
    ensures Substitute(pre + "{" + a + "}" + mid + "{" + b + "}" + post, repl) ==
      if a !in repl then Err(KeyError(a))
      else if b !in repl then Err(KeyError(b))
      else Ok(pre + repl[a] + mid + repl[b] + post)
  {
    var tail := mid + "{" + b + "}" + post;
    assert pre + "{" + a + "}" + mid + "{" + b + "}" + post == pre + "{" + a + "}" + tail;
    SubstituteWithoutTokens(post, repl);
    SubstituteAfterLiteral(mid, b, post, repl);
    SubstituteAfterLiteral(pre, a, tail, repl);
    if a in repl && b in repl {
      assert (pre + repl[a]) + ((mid + repl[b]) + post) == pre + repl[a] + mid + repl[b] + post;
    }
  }

  /**
   * The default pattern of a batch names each document after its index and
   * its record's `name`: record 0 for Alice is `out_0_Alice.pdf`; a pattern
   * naming a token the record lacks is a KeyError for that token.
   */
  lemma BatchFileNames(pattern: string, typo: string)
    requires pattern == "out_" + "{" + "_i" + "}" + "_" + "{" + "name" + "}" + ".pdf"
    requires typo == "out_" + "{" + "_i" + "}" + "_" + "{" + "nom" + "}" + ".pdf"
    ensures Substitute(pattern, Replacement(0, [("name", "Alice")])) == Ok("out_" + "0" + "_" + "Alice" + ".pdf")
    ensures Substitute(typo, Replacement(0, [("name", "Alice")])) == Err(KeyError("nom"))
  {
    var repl := Replacement(0, [("name", "Alice")]);
    assert LastWins([("name", "Alice")]) == map["name" := "Alice"];
    assert repl["_i"] == "0" && repl["name"] == "Alice" && "nom" !in repl;
    SubstituteTwoTokens("out_", "_i", "_", "name", ".pdf", repl);
    SubstituteTwoTokens("out_", "_i", "_", "nom", ".pdf", repl);
  }
}
