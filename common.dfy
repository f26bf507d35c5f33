/**
 * Values shared by the overlay composer (pdf_filler.py) and the form
 * controller (pdf_form.py): optional values, the exceptions the code raises,
 * style maps as passed through Python's `**style`, and dict merging.
 */
module Common {

  datatype Option<T> = None | Some(value: T) {
    /** `d.get(key, default)` for a key that may be absent. */
    function GetOr(default: T): T {
      if Some? then value else default
    }
  }

  /** The exceptions the modelled code raises, by kind. */
  datatype Error =
    | KeyError(key: string)      // missing dict key: field name, `Name`, or filename token
    | PageIndexError(page: int)  // the base document has no page with this index
    | IndexError                 // a `Rect` or `Point` list that is too short
    | ValueError                 // a field declaration with neither `Rect` nor `Point`
    | FileError                  // the base document cannot be opened
    | TypeError                  // a style key that is also a named argument of the call it is passed to

  datatype Result<T> = Ok(value: T) | Err(error: Error)

  /** The result of a call that returns nothing (Python's None) or raises. */
  datatype Outcome = Pass | Fail(error: Error)

  /** A style property value; `Null` is Python's None. */
  datatype Val = Null | Str(s: string) | Num(n: real)

  /** Keyword style arguments: property name to value. */
  type StyleMap = map<string, Val>

  /** A Python dict of string values, in its iteration order. */
  type Record = seq<(string, string)>

  /**
   * `{**lower, **upper}`: every key of either map; on a key both have,
   * the value of `upper` is kept.
   */
  function Merge(lower: StyleMap, upper: StyleMap): (r: StyleMap)
    ensures r.Keys == lower.Keys + upper.Keys
    ensures forall k :: k in upper ==> r[k] == upper[k]
    ensures forall k :: k in lower && k !in upper ==> r[k] == lower[k]
  {
    lower + upper
  }

  /** The dict that a sequence of key/value pairs builds, pair by pair. */
  function LastWins<V>(kvs: seq<(string, V)>): (m: map<string, V>)
    ensures m.Keys == set j | 0 <= j < |kvs| :: kvs[j].0
  {
    if kvs == [] then map[]
    else
      var front := kvs[..|kvs| - 1];
      var m := LastWins(front)[kvs[|kvs| - 1].0 := kvs[|kvs| - 1].1];
      assert m.Keys == set j | 0 <= j < |kvs| :: kvs[j].0 by {
        forall key | key in m.Keys ensures key in set j | 0 <= j < |kvs| :: kvs[j].0 {
          if key != kvs[|kvs| - 1].0 {
            var j :| 0 <= j < |front| && front[j].0 == key;
            assert kvs[j].0 == key;
          }
        }
        forall j | 0 <= j < |kvs| - 1 ensures kvs[j].0 in m.Keys {
          assert front[j] == kvs[j];
        }
      }
      m
  }

  /** A key's value in that dict is the one of the key's last pair: a later pair replaces an earlier one. */
  lemma {:induction false} LastWinsValue<V>(kvs: seq<(string, V)>, j: nat)
    requires j < |kvs|
    requires forall k :: j < k < |kvs| ==> kvs[k].0 != kvs[j].0
    ensures kvs[j].0 in LastWins(kvs) && LastWins(kvs)[kvs[j].0] == kvs[j].1
    decreases |kvs|
  {
    if j < |kvs| - 1 {
      var front := kvs[..|kvs| - 1];
      assert front[j] == kvs[j];
      LastWinsValue(front, j);
    }
  }

  /** Adding a pair at the end sets its key to its value. */
  lemma LastWinsSnoc<V>(kvs: seq<(string, V)>, kv: (string, V))
    ensures LastWins(kvs + [kv]) == LastWins(kvs)[kv.0 := kv.1]
  {
    assert (kvs + [kv])[..|kvs|] == kvs;
  }

  function Digit(d: nat): (c: char)
    requires d < 10
    ensures '0' <= c <= '9'
  {
    (48 + d) as char
  }

  /** `str(n)` for a natural number: its decimal digits, most significant first. */
  function NatToString(n: nat): (s: string)
    ensures 1 <= |s|
    ensures forall i :: 0 <= i < |s| ==> '0' <= s[i] <= '9'
    ensures n >= 10 <==> |s| >= 2
  {
    if n < 10 then [Digit(n)] else NatToString(n / 10) + [Digit(n % 10)]
  }

  /** The value of a decimal digit. */
  function DigitValue(c: char): (d: nat)
    requires '0' <= c <= '9'
    ensures d < 10
  {
    c as int - 48
  }

  /** The number a string of decimal digits denotes, read most significant digit first. */
  function DecimalValue(s: string): nat
    requires forall i :: 0 <= i < |s| ==> '0' <= s[i] <= '9'
  {
    if s == [] then 0 else 10 * DecimalValue(s[..|s| - 1]) + DigitValue(s[|s| - 1])
  }

  /** `str(n)` spells n: read back as a decimal numeral, it is n. */
  lemma {:induction false} NatToStringValue(n: nat)
    ensures DecimalValue(NatToString(n)) == n
  {
    var s := NatToString(n);
    if n >= 10 {
      assert s[..|s| - 1] == NatToString(n / 10);
      NatToStringValue(n / 10);
    }
  }

  /** Distinct numbers have distinct decimal strings. */
  lemma {:induction false} NatToStringInjective(n: nat, m: nat)
    requires NatToString(n) == NatToString(m)
    ensures n == m
  {
    var s := NatToString(n);
    if n >= 10 && m >= 10 {
      assert s[|s| - 1] == Digit(n % 10) == Digit(m % 10);
      assert NatToString(n / 10) == s[..|s| - 1] == NatToString(m / 10);
      NatToStringInjective(n / 10, m / 10);
    } else {
      assert s[0] == Digit(n) == Digit(m);
    }
  }
}
