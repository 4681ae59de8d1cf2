/**
 The Python values that reach the canonical printer, with the insertion order of
 dicts kept visible, and when two of them are the same JSON value.
 */
module Json {
  import opened Texts
  import opened Decimals
  import opened KeySort

  /** The floats that are no numbers to JSON. */
  datatype Special = NaN | Infinity | NegInfinity

  datatype Json =
    | Null
    | Bool(b: bool)
    | Int(n: int)
    | Float(d: Decimal)
    | NonFinite(f: Special)
    | Str(s: Text)
    | List(items: seq<Json>)
    | Tuple(items: seq<Json>)
    | Dict(entries: Entries)
    | Unsupported                      // any other Python type

  type Entries = seq<(Text, Json)>

  /** What Python guarantees of a dict: its keys are distinct, at every depth. */
  predicate WellFormed(v: Json) {
    match v
    case List(vs) => forall i | 0 <= i < |vs| :: WellFormed(vs[i])
    case Tuple(vs) => forall i | 0 <= i < |vs| :: WellFormed(vs[i])
    case Dict(es) => DistinctKeys(es) && forall i | 0 <= i < |es| :: WellFormed(es[i].1)
    case _ => true
  }

  predicate IsNumber(v: Json) {
    v.Int? || v.Float?
  }

  function NumberOf(v: Json): Decimal
    requires IsNumber(v)
  {
    match v
    case Int(n) => Decimal(n, 0)
    case Float(d) => d
  }

  predicate IsSequence(v: Json) {
    v.List? || v.Tuple?
  }

  /** The same JSON value: dicts as maps from keys to values, lists and tuples identified,
      integer-valued numbers identified. */
  ghost predicate SameValue(v: Json, w: Json)
    decreases v
  {
    match v
    case Int(_) => IsNumber(w) && NumberOf(v) == NumberOf(w)
    case Float(_) => IsNumber(w) && NumberOf(v) == NumberOf(w)
    case List(vs) => IsSequence(w) && |vs| == |w.items| &&
                     forall i | 0 <= i < |vs| :: SameValue(vs[i], w.items[i])
    case Tuple(vs) => IsSequence(w) && |vs| == |w.items| &&
                      forall i | 0 <= i < |vs| :: SameValue(vs[i], w.items[i])
    case Dict(es) => w.Dict? && (forall k :: HasKey(es, k) <==> HasKey(w.entries, k)) &&
                     forall i, j | 0 <= i < |es| && 0 <= j < |w.entries| && es[i].0 == w.entries[j].0 ::
                       SameValue(es[i].1, w.entries[j].1)
    case _ => v == w
  }

  /** `d.get(key)`: the value of the first entry with that key. */
  function Get(es: Entries, key: Text): Option<Json> {
    if es == [] then None
    else if es[0].0 == key then Some(es[0].1)
    else Get(es[1..], key)
  }

  /** `d.get(key, default)`. */
  function GetOr(es: Entries, key: Text, default: Json): Json {
    match Get(es, key)
    case Some(v) => v
    case None => default
  }

  /** With distinct keys every entry is found under its own. */
  lemma {:induction false} GetAt(es: Entries, i: nat)
    requires DistinctKeys(es) && i < |es|
    ensures Get(es, es[i].0) == Some(es[i].1)
  {
    if i > 0 {
      assert es[1..][i - 1] == es[i];
      GetAt(es[1..], i - 1);
    }
  }

  /** Python truth value. */
  predicate Truthy(v: Json) {
    match v
    case Null => false
    case Bool(b) => b
    case Int(n) => n != 0
    case Float(d) => d.m != 0
    case Str(s) => s != []
    case List(vs) => vs != []
    case Tuple(vs) => vs != []
    case Dict(es) => es != []
    case NonFinite(_) => true
    case Unsupported => true
  }
}
