// JavaScript values as the front-end code handles them: plain objects are
// ordered lists of (key, value) pairs, arrays are sequences, numbers are
// integers.  Reading a missing property gives `undefined`; writing an existing
// key keeps its position and writing a new key appends it, as JavaScript's
// property order does for non-index keys.
module Json {
  import opened Strings

  datatype Value =
    | Undefined
    | Null
    | Bool(b: bool)
    | Num(n: int)
    | Str(s: string)
    | Arr(items: seq<Value>)
    | Obj(fields: seq<(string, Value)>)

  type Fields = seq<(string, Value)>

  /** JavaScript truthiness (numbers are integers here, so NaN does not arise). */
  predicate Truthy(v: Value)
  {
    match v
    case Undefined => false
    case Null => false
    case Bool(b) => b
    case Num(n) => n != 0
    case Str(s) => s != ""
    case Arr(_) => true
    case Obj(_) => true
  }

  /** `a || b`. */
  function Or(a: Value, b: Value): (r: Value)
    ensures Truthy(a) ==> r == a
    ensures !Truthy(a) ==> r == b
  {
    if Truthy(a) then a else b
  }

  /** `undefined` or `null`: the values `== null` accepts. */
  predicate IsNullish(v: Value) { v.Undefined? || v.Null? }

  /** `a ?? b`. */
  function Coalesce(a: Value, b: Value): Value
  {
    if IsNullish(a) then b else a
  }

  // ---------------------------------------------------------------- objects

  function Keys(o: Fields): (ks: seq<string>)
    ensures |ks| == |o|
    ensures forall i :: 0 <= i < |o| ==> ks[i] == o[i].0
  {
    seq(|o|, i requires 0 <= i < |o| => o[i].0)
  }

  predicate HasKey(o: Fields, k: string) { k in Keys(o) }

  /** `o[k]`: the value of the last pair with key `k`, else `undefined`. */
  function Get(o: Fields, k: string): Value
  {
    if o == [] then Undefined
    else if o[|o| - 1].0 == k then o[|o| - 1].1
    else Get(o[..|o| - 1], k)
  }

  lemma {:induction false} GetAbsent(o: Fields, k: string)
    requires !HasKey(o, k)
    ensures Get(o, k) == Undefined
  {
    if o != [] {
      assert Keys(o[..|o| - 1]) == Keys(o)[..|o| - 1];
      GetAbsent(o[..|o| - 1], k);
    }
  }

  lemma {:induction false} GetAppend(o: Fields, p: (string, Value), k: string)
    ensures Get(o + [p], k) == if p.0 == k then p.1 else Get(o, k)
  {
    assert (o + [p])[..|o|] == o;
  }

  lemma {:induction false} GetPrepend(p: (string, Value), o: Fields, k: string)
    ensures Get([p] + o, k) == if HasKey(o, k) then Get(o, k) else if p.0 == k then p.1 else Undefined
  {
    if o == [] {
      assert [p] + o == [p];
      assert Get([p], k) == if p.0 == k then p.1 else Get([], k);
    } else {
      var init := o[..|o| - 1];
      var last := o[|o| - 1];
      assert [p] + o == ([p] + init) + [last];
      GetAppend([p] + init, last, k);
      GetAppend(init, last, k);
      assert o == init + [last];
      GetPrepend(p, init, k);
      assert Keys(o) == Keys(init) + [last.0];
    }
  }

  /** `{...o, [k]: v}`: an existing key keeps its place, a new key goes last
    * (`SetKeys`). */
  function Set(o: Fields, k: string, v: Value): (r: Fields)
    ensures Get(r, k) == v
    ensures forall j :: j != k ==> Get(r, j) == Get(o, j)
  {
    if !HasKey(o, k) then
      var r := o + [(k, v)];
      forall j ensures Get(r, j) == if j == k then v else Get(o, j) {
        GetAppend(o, (k, v), j);
      }
      r
    else
      var init := o[..|o| - 1];
      var last := o[|o| - 1];
      assert o == init + [last];
      if last.0 == k then
        var r := init + [(k, v)];
        forall j ensures Get(r, j) == if j == k then v else Get(o, j) {
          GetAppend(init, (k, v), j);
          GetAppend(init, last, j);
        }
        r
      else
        var r := Set(init, k, v) + [last];
        forall j ensures Get(r, j) == if j == k then v else Get(o, j) {
          GetAppend(Set(init, k, v), last, j);
          GetAppend(init, last, j);
        }
        r
  }

  /** The keys after a write: in place for a key already there, appended
    * for a new one. */
  lemma {:induction false} SetKeys(o: Fields, k: string, v: Value)
    ensures HasKey(o, k) ==> Keys(Set(o, k, v)) == Keys(o)
    ensures !HasKey(o, k) ==> Keys(Set(o, k, v)) == Keys(o) + [k]
  {
    if !HasKey(o, k) {
      assert Keys(o + [(k, v)]) == Keys(o) + [k];
    } else {
      var init := o[..|o| - 1];
      var last := o[|o| - 1];
      assert o == init + [last];
      assert Keys(o) == Keys(init) + [last.0];
      if last.0 == k {
        assert Keys(init + [(k, v)]) == Keys(init) + [k];
      } else {
        SetKeys(init, k, v);
        assert Keys(Set(init, k, v) + [last]) == Keys(Set(init, k, v)) + [last.0];
      }
    }
  }

  /** The value of a pair whose key no later pair repeats. */
  lemma {:induction false} GetAt(o: Fields, i: int)
    requires 0 <= i < |o|
    requires forall j :: i < j < |o| ==> o[j].0 != o[i].0
    ensures Get(o, o[i].0) == o[i].1
  {
    if i < |o| - 1 {
      var init := o[..|o| - 1];
      assert init[i] == o[i];
      GetAt(init, i);
    }
  }

  /** The keys after a write: the old ones and the key written. */
  lemma SetHasKey(o: Fields, k: string, v: Value)
    ensures forall j :: HasKey(Set(o, k, v), j) <==> HasKey(o, j) || j == k
  {
    SetKeys(o, k, v);
  }

  /** Writing a key's own value back changes nothing. */
  lemma {:induction false} SetGetSame(o: Fields, k: string)
    requires HasKey(o, k)
    ensures Set(o, k, Get(o, k)) == o
  {
    var init := o[..|o| - 1];
    var last := o[|o| - 1];
    assert o == init + [last];
    assert Keys(o) == Keys(init) + [last.0];
    if last.0 != k {
      GetAppend(init, last, k);
      SetGetSame(init, k);
    }
  }

  /** A second write to a key wins over the first. */
  lemma {:induction false} SetTwice(o: Fields, k: string, a: Value, b: Value)
    ensures Set(Set(o, k, a), k, b) == Set(o, k, b)
  {
    if HasKey(o, k) {
      var init := o[..|o| - 1];
      var last := o[|o| - 1];
      assert o == init + [last];
      assert Keys(o) == Keys(init) + [last.0];
      if last.0 != k {
        SetTwice(init, k, a, b);
        var s := Set(init, k, a);
        assert Set(o, k, a) == s + [last];
        SetHasKey(init, k, a);
        assert HasKey(s, k);
        assert (s + [last])[..|s|] == s;
      } else {
        assert Set(o, k, a) == init + [(k, a)];
        assert (init + [(k, a)])[..|init|] == init;
      }
    } else {
      assert Set(o, k, a) == o + [(k, a)];
      assert (o + [(k, a)])[..|o|] == o;
      assert Keys(o + [(k, a)]) == Keys(o) + [k];
    }
  }

  /** `delete o[k]`: every pair with key `k` removed, the others kept in order. */
  function Delete(o: Fields, k: string): (r: Fields)
    ensures !HasKey(r, k) && Get(r, k) == Undefined
    ensures forall j :: j != k ==> Get(r, j) == Get(o, j)
    ensures forall j :: HasKey(r, j) <==> HasKey(o, j) && j != k
    ensures !HasKey(o, k) ==> r == o
  {
    if o == [] then []
    else
      var init := o[..|o| - 1];
      var last := o[|o| - 1];
      assert o == init + [last];
      assert Keys(o) == Keys(init) + [last.0];
      var d := Delete(init, k);
      var r := if last.0 == k then d else d + [last];
      assert Keys(d + [last]) == Keys(d) + [last.0];
      assert forall j :: HasKey(o, j) <==> HasKey(init, j) || j == last.0;
      assert forall j :: HasKey(d + [last], j) <==> HasKey(d, j) || j == last.0;
      forall j | j != k ensures Get(r, j) == Get(o, j) {
        GetAppend(d, last, j);
        GetAppend(init, last, j);
      }
      GetAbsent(r, k);
      r
  }

  /** `{...a, ...b}`: `b`'s pairs written over `a` in order. */
  function Merge(a: Fields, b: Fields): (r: Fields)
    ensures forall k :: Get(r, k) == if HasKey(b, k) then Get(b, k) else Get(a, k)
    ensures forall k :: HasKey(r, k) <==> HasKey(a, k) || HasKey(b, k)
    decreases |b|
  {
    if b == [] then a
    else
      var init := b[..|b| - 1];
      var last := b[|b| - 1];
      assert b == init + [last];
      assert Keys(b) == Keys(init) + [last.0];
      var m := Merge(a, init);
      var r := Set(m, last.0, last.1);
      SetHasKey(m, last.0, last.1);
      forall k ensures Get(r, k) == if HasKey(b, k) then Get(b, k) else Get(a, k) {
        GetAppend(init, last, k);
      }
      r
  }

  lemma {:induction false} MergeEmpty(a: Fields)
    ensures Merge(a, []) == a
  {
  }

  // ---------------------------------------------------------------- values

  /** The own properties object spread copies: those of a plain object, none otherwise. */
  function FieldsOf(v: Value): Fields
  {
    if v.Obj? then v.fields else []
  }

  /** `v[k]` on an object value; `undefined` on anything else. */
  function Prop(v: Value, k: string): Value
  {
    Get(FieldsOf(v), k)
  }

  /** `{...v, [k]: x}`. */
  function With(v: Value, k: string, x: Value): (r: Value)
    ensures r.Obj?
    ensures Prop(r, k) == x
    ensures forall j :: j != k ==> Prop(r, j) == Prop(v, j)
  {
    Obj(Set(FieldsOf(v), k, x))
  }

  /** `{...v, ...w}`. */
  function Spread(v: Value, w: Value): (r: Value)
    ensures r.Obj?
    ensures forall k :: Prop(r, k) == if HasKey(FieldsOf(w), k) then Prop(w, k) else Prop(v, k)
  {
    Obj(Merge(FieldsOf(v), FieldsOf(w)))
  }

  /** `Object.entries(v)`: an object's pairs, an array's or a string's
    * elements under their decimal indices, nothing for other values. */
  function Entries(v: Value): (r: Fields)
    ensures v.Obj? ==> r == v.fields
    ensures v.Arr? ==> |r| == |v.items| && forall i :: 0 <= i < |r| ==> r[i] == (NatToString(i), v.items[i])
    ensures !v.Obj? && !v.Arr? && !v.Str? ==> r == []
  {
    match v
    case Obj(fs) => fs
    case Arr(items) => seq(|items|, i requires 0 <= i < |items| => (NatToString(i), items[i]))
    case Str(s) => seq(|s|, i requires 0 <= i < |s| => (NatToString(i), Str([s[i]])))
    case _ => []
  }

  /** `Object.keys(v).length`. */
  function KeyCount(v: Value): nat { |Entries(v)| }

  /** An object built from the given pairs. */
  function ObjOf(ps: Fields): Value { Obj(ps) }

  /** JavaScript `String(v)`: arrays join their items' text with ',', null
    * and undefined items giving "". */
  function JsString(v: Value): string
    decreases v
  {
    match v
    case Undefined => "undefined"
    case Null => "null"
    case Bool(b) => if b then "true" else "false"
    case Num(n) => IntToString(n)
    case Str(s) => s
    case Arr(items) => Join(seq(|items|, i requires 0 <= i < |items| =>
                                  if IsNullish(items[i]) then "" else JsString(items[i])), ",")
    case Obj(_) => "[object Object]"
  }

  function StrOr(v: Value, default: string): string
  {
    if v.Str? then v.s else default
  }

  /** The elements of an array value, none for anything else (`Array.isArray` guard). */
  function ItemsOf(v: Value): seq<Value>
  {
    if v.Arr? then v.items else []
  }
}
