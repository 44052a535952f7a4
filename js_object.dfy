/**
  JavaScript values and plain objects as the category repository sees them:
  request payloads built by callers and rows handed back by the database driver.

  An object is an ordered list of properties, because a JavaScript object keeps
  properties whose names are not array indices in insertion order, and the driver
  expands `SET ?` in that order. Property assignment `o.k = v` overwrites an
  existing property in place and appends a new one at the end; names that are
  array indices, which JavaScript lists first in ascending order, are not
  distinguished here.
 */
module JsObject {

  /** The primitive values a payload or a row can hold. */
  datatype Value = Undefined | Null | Bool(b: bool) | Num(n: int) | Str(s: string)

  /** JavaScript truthiness: `!v` holds exactly when this is false. */
  predicate Truthy(v: Value) {
    match v
    case Undefined => false
    case Null => false
    case Bool(b) => b
    case Num(n) => n != 0
    case Str(s) => s != ""
  }

  datatype Property = Property(key: string, value: Value)

  type Object = seq<Property>

  /** The property names of `o`, in order. */
  function Keys(o: Object): (ks: seq<string>) {
    seq(|o|, i requires 0 <= i < |o| => o[i].key)
  }

  /** A JavaScript object never holds two properties of the same name. */
  predicate UniqueKeys(o: Object) {
    Distinct(Keys(o))
  }

  predicate Distinct(ks: seq<string>) {
    forall i, j :: 0 <= i < j < |ks| ==> ks[i] != ks[j]
  }

  /** The names after the first property are the names of the remaining properties. */
  lemma KeysOfTail(o: Object)
    requires o != []
    ensures Keys(o) == [o[0].key] + Keys(o[1..])
    ensures UniqueKeys(o) ==> UniqueKeys(o[1..]) && o[0].key !in Keys(o[1..])
  {
    assert Keys(o[1..]) == Keys(o)[1..];
    if UniqueKeys(o) {
      forall j | 0 <= j < |o| - 1 ensures Keys(o[1..])[j] != o[0].key {
        assert Keys(o[1..])[j] == Keys(o)[j + 1];
        assert Keys(o)[0] == o[0].key;
        assert Keys(o)[0] != Keys(o)[j + 1];
      }
    }
  }


  /** Property read `o.k`: the value of the property named `k`, or `undefined` if there is none. */
  function Get(o: Object, k: string): (v: Value)
    ensures k !in Keys(o) ==> v == Undefined
    ensures k in Keys(o) ==> exists i :: 0 <= i < |o| && o[i].key == k && o[i].value == v
    ensures UniqueKeys(o) ==> forall i :: 0 <= i < |o| && o[i].key == k ==> o[i].value == v
  {
    if o == [] then Undefined
    else if o[0].key == k then
      assert Keys(o)[0] == k;
      assert forall i :: 0 <= i < |o| ==> Keys(o)[i] == o[i].key;
      assert UniqueKeys(o) ==> forall i :: 0 < i < |o| ==> Keys(o)[0] != Keys(o)[i];
      o[0].value
    else
      KeysOfTail(o);
      var v := Get(o[1..], k);
      assert k in Keys(o[1..]) ==> exists i :: 0 <= i < |o[1..]| && o[1..][i].key == k && o[1..][i].value == v;
      v
  }

  /**
    Property assignment `o.k = v`: an existing property named `k` keeps its place and
    takes the new value, otherwise a property is appended (the JavaScript order for a
    name that is not an array index). Every other property is left as it was.
   */
  function Put(o: Object, k: string, v: Value): (r: Object)
    ensures Keys(r) == if k in Keys(o) then Keys(o) else Keys(o) + [k]
    ensures Get(r, k) == v
    ensures forall k' :: k' != k ==> Get(r, k') == Get(o, k')
  {
    if o == [] then [Property(k, v)]
    else if o[0].key == k then
      assert Keys(o)[0] == k;
      assert Keys([Property(k, v)] + o[1..]) == Keys(o);
      [Property(k, v)] + o[1..]
    else
      KeysOfTail(o);
      var rest := Put(o[1..], k, v);
      assert Keys([o[0]] + rest) == [o[0].key] + Keys(rest);
      [o[0]] + rest
  }

  /** Assignment never gives an object two properties of the same name. */
  lemma PutKeepsUniqueKeys(o: Object, k: string, v: Value)
    requires UniqueKeys(o)
    ensures UniqueKeys(Put(o, k, v))
  {
  }

  /** Assigning the same property twice leaves only the second value. */
  lemma {:induction false} PutPut(o: Object, k: string, v: Value, w: Value)
    ensures Put(Put(o, k, v), k, w) == Put(o, k, w)
  {
    if o != [] && o[0].key != k {
      PutPut(o[1..], k, v, w);
      assert Put(o, k, v)[1..] == Put(o[1..], k, v);
    }
  }

  /** Assigning a property the value it already holds changes nothing. */
  lemma {:induction false} PutSame(o: Object, k: string)
    requires k in Keys(o)
    requires UniqueKeys(o)
    ensures Put(o, k, Get(o, k)) == o
  {
    if o[0].key != k {
      KeysOfTail(o);
      PutSame(o[1..], k);
    }
  }
}
