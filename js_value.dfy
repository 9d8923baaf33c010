/**
 * The JavaScript values the modelled code passes around: `null`, booleans,
 * integral numbers, strings, arrays and plain objects. Object fields are
 * listed in JavaScript's own-key order (section 10.1.11.1 of ECMA-262,
 * OrdinaryOwnPropertyKeys): array-index keys first, in ascending numeric
 * order, then every other key in insertion order. Spreads and JSON
 * documents can so be stated exactly.
 */
module JsValue {
  import opened JsString

  /** `undefined` / absent versus a present value. */
  datatype Option<+T> = None | Some(value: T) {
    function GetOr(default: T): T {
      match this
      case Some(v) => v
      case None => default
    }
  }

  /** A result that either returns a value or throws an `Error` with a message. */
  datatype Result<+T> = Ok(value: T) | Err(error: string)

  /** A JSON-like JavaScript value; numbers are integers in this model. */
  datatype Value =
    | Null
    | Bool(b: bool)
    | Num(n: int)
    | Str(s: string)
    | Arr(items: seq<Value>)
    | Obj(fields: seq<(string, Value)>)

  /** JavaScript truthiness of a value (`0`, `""`, `false`, `null` are falsy). */
  predicate Truthy(v: Value) {
    match v
    case Null => false
    case Bool(b) => b
    case Num(n) => n != 0
    case Str(s) => s != ""
    case Arr(_) => true
    case Obj(_) => true
  }

  /** Truthiness of an optional number such as `ttlMs?: number`. */
  predicate TruthyNum(x: Option<int>) {
    x.Some? && x.value != 0
  }

  /** `a ?? b` on a value: `null` is replaced by the default. */
  function Coalesce(v: Value, default: Value): (r: Value)
    ensures v != Null ==> r == v
    ensures v == Null ==> r == default
  {
    if v == Null then default else v
  }

  /** Looking up a property `o[k]` in an ordered field list. */
  function FieldGet(fields: seq<(string, Value)>, k: string): (r: Option<Value>)
    ensures r.None? <==> forall i :: 0 <= i < |fields| ==> fields[i].0 != k
    ensures r.Some? ==> exists i :: 0 <= i < |fields| && fields[i] == (k, r.value)
  {
    if |fields| == 0 then None
    else if fields[0].0 == k then Some(fields[0].1)
    else FieldGet(fields[1..], k)
  }

  /** Array indices are below 2^32 - 1. */
  const IndexLimit := 0xFFFF_FFFF

  predicate AllDigits(k: string) {
    forall i :: 0 <= i < |k| ==> '0' <= k[i] <= '9'
  }

  /** An array-index key: the canonical decimal form (no sign, no leading zero) of an integer below 2^32 - 1. */
  predicate IsIndexKey(k: string) {
    AllDigits(k) && ParseDigits(k) < IndexLimit && NatToString(ParseDigits(k)) == k
  }

  /** The number an array-index key stands for. */
  function IndexValue(k: string): nat
    requires IsIndexKey(k)
  {
    ParseDigits(k)
  }

  /** Both keys are array indices and `a` is the smaller one. */
  predicate IndexBefore(a: string, b: string) {
    IsIndexKey(a) && IsIndexKey(b) && IndexValue(a) < IndexValue(b)
  }

  /** A key with a character that is not a decimal digit is never an array index. */
  lemma NotIndexKey(k: string, i: nat)
    requires i < |k| && !('0' <= k[i] <= '9')
    ensures !IsIndexKey(k)
  {
  }

  /** Distinct array-index keys stand for distinct numbers. */
  lemma IndexKeyInjective(a: string, b: string)
    requires IsIndexKey(a) && IsIndexKey(b) && a != b
    ensures IndexValue(a) != IndexValue(b)
  {
  }

  /**
   * The own-key order of an object: every array-index key is preceded only
   * by array-index keys with smaller numbers.
   */
  predicate KeyOrdered(fields: seq<(string, Value)>) {
    forall i, j :: 0 <= i < j < |fields| && IsIndexKey(fields[j].0) ==> IndexBefore(fields[i].0, fields[j].0)
  }

  /** `FieldGet` on a list with one more field at the end. */
  lemma {:induction false} FieldGetAppend(fields: seq<(string, Value)>, x: (string, Value), k: string)
    ensures FieldGet(fields + [x], k) ==
            if FieldGet(fields, k).Some? then FieldGet(fields, k) else if x.0 == k then Some(x.1) else None
    decreases |fields|
  {
    if |fields| == 0 {
      assert fields + [x] == [x];
    } else {
      assert (fields + [x])[1..] == fields[1..] + [x];
      FieldGetAppend(fields[1..], x, k);
    }
  }

  /** The first field with key `k` takes the value `v`; every key stays where it is. */
  function Replace(fields: seq<(string, Value)>, k: string, v: Value): (r: seq<(string, Value)>)
    ensures |r| == |fields| && forall i :: 0 <= i < |r| ==> r[i].0 == fields[i].0
    ensures FieldGet(fields, k).Some? ==> FieldGet(r, k) == Some(v)
    ensures forall k' :: k' != k ==> FieldGet(r, k') == FieldGet(fields, k')
  {
    if |fields| == 0 then []
    else if fields[0].0 == k then [(k, v)] + fields[1..]
    else [fields[0]] + Replace(fields[1..], k, v)
  }

  /** A new array-index key, placed after the array-index keys smaller than it and before everything else. */
  function InsertIndex(fields: seq<(string, Value)>, k: string, v: Value): (r: seq<(string, Value)>)
    requires FieldGet(fields, k).None?
    ensures |r| == |fields| + 1
    ensures FieldGet(r, k) == Some(v)
    ensures forall k' :: k' != k ==> FieldGet(r, k') == FieldGet(fields, k')
    ensures forall i :: 0 <= i < |r| ==> r[i] == (k, v) || r[i] in fields
  {
    if |fields| == 0 || !IndexBefore(fields[0].0, k) then [(k, v)] + fields
    else [fields[0]] + InsertIndex(fields[1..], k, v)
  }

  /**
   * Property assignment `o[k] = v`: an existing key keeps its position and
   * takes the new value; a new array-index key goes after the smaller
   * array-index keys and before everything else; any other new key goes to
   * the end.
   */
  function FieldSet(fields: seq<(string, Value)>, k: string, v: Value): (r: seq<(string, Value)>)
    ensures FieldGet(r, k) == Some(v)
    ensures forall k' :: k' != k ==> FieldGet(r, k') == FieldGet(fields, k')
    ensures |r| == if FieldGet(fields, k).Some? then |fields| else |fields| + 1
    ensures FieldGet(fields, k).Some? || !IsIndexKey(k) ==>
              forall i :: 0 <= i < |fields| ==> r[i].0 == fields[i].0
  {
    if FieldGet(fields, k).Some? then Replace(fields, k, v)
    else if IsIndexKey(k) then InsertIndex(fields, k, v)
    else
      FieldGetAppendAll(fields, (k, v));
      fields + [(k, v)]
  }

  /** `FieldGetAppend` for every key. */
  lemma FieldGetAppendAll(fields: seq<(string, Value)>, x: (string, Value))
    ensures forall k :: FieldGet(fields + [x], k) ==
              (if FieldGet(fields, k).Some? then FieldGet(fields, k) else if x.0 == k then Some(x.1) else None)
  {
    forall k {
      FieldGetAppend(fields, x, k);
    }
  }

  /** Assignment keeps an object's own-key order. */
  lemma FieldSetKeepsOrder(fields: seq<(string, Value)>, k: string, v: Value)
    requires KeyOrdered(fields)
    ensures KeyOrdered(FieldSet(fields, k, v))
  {
    var r := FieldSet(fields, k, v);
    if FieldGet(fields, k).Some? {
      assert forall i :: 0 <= i < |r| ==> r[i].0 == fields[i].0;
    } else if IsIndexKey(k) {
      InsertIndexOrdered(fields, k, v);
    } else {
      assert forall j :: 0 <= j < |fields| ==> r[j] == fields[j];
    }
  }

  /** Inserting a new array-index key keeps the own-key order. */
  lemma {:induction false} InsertIndexOrdered(fields: seq<(string, Value)>, k: string, v: Value)
    requires KeyOrdered(fields) && IsIndexKey(k) && FieldGet(fields, k).None?
    ensures KeyOrdered(InsertIndex(fields, k, v))
    decreases |fields|
  {
    if |fields| == 0 {
    } else if !IndexBefore(fields[0].0, k) {
      FrontInsertOrdered(fields, k, v);
    } else {
      var rest := fields[1..];
      InsertIndexOrdered(rest, k, v);
      var tail := InsertIndex(rest, k, v);
      forall j | 0 <= j < |tail| && IsIndexKey(tail[j].0)
        ensures IndexBefore(fields[0].0, tail[j].0)
      {
        if tail[j] != (k, v) {
          var m :| 0 <= m < |rest| && rest[m] == tail[j];
          assert fields[m + 1] == tail[j];
        }
      }
      ConsOrdered(fields[0], tail);
    }
  }

  /** A new array-index key no larger than the first key goes in front, keeping the order. */
  lemma FrontInsertOrdered(fields: seq<(string, Value)>, k: string, v: Value)
    requires KeyOrdered(fields) && |fields| > 0 && fields[0].0 != k
    requires IsIndexKey(k) && !IndexBefore(fields[0].0, k)
    ensures KeyOrdered([(k, v)] + fields)
  {
    var r := [(k, v)] + fields;
    forall j | 0 < j < |r| && IsIndexKey(r[j].0)
      ensures IndexBefore(k, r[j].0)
    {
      assert r[j] == fields[j - 1];
      if j - 1 > 0 {
        assert IndexBefore(fields[0].0, fields[j - 1].0);
      }
      IndexKeyInjective(fields[0].0, k);
    }
    ConsOrdered((k, v), fields);
  }

  /** A field in front of an ordered list keeps the order when every later array index is larger. */
  lemma ConsOrdered(f: (string, Value), tail: seq<(string, Value)>)
    requires KeyOrdered(tail)
    requires forall j :: 0 <= j < |tail| && IsIndexKey(tail[j].0) ==> IndexBefore(f.0, tail[j].0)
    ensures KeyOrdered([f] + tail)
  {
    var r := [f] + tail;
    forall i, j | 0 <= i < j < |r| && IsIndexKey(r[j].0)
      ensures IndexBefore(r[i].0, r[j].0)
    {
      assert r[j] == tail[j - 1];
      if i > 0 {
        assert r[i] == tail[i - 1];
      }
    }
  }

  /** The fields whose keys are not array indices, in order. */
  function Named(fields: seq<(string, Value)>): (r: seq<(string, Value)>)
    ensures forall i :: 0 <= i < |r| ==> !IsIndexKey(r[i].0)
    ensures |r| <= |fields|
  {
    if |fields| == 0 then []
    else (if IsIndexKey(fields[0].0) then [] else [fields[0]]) + Named(fields[1..])
  }

  /** The fields whose keys are array indices, in order. */
  function Indexed(fields: seq<(string, Value)>): (r: seq<(string, Value)>)
    ensures forall i :: 0 <= i < |r| ==> IsIndexKey(r[i].0)
    ensures |r| <= |fields|
  {
    if |fields| == 0 then []
    else (if IsIndexKey(fields[0].0) then [fields[0]] else []) + Indexed(fields[1..])
  }

  /** Array-index fields in strictly ascending numeric order. */
  predicate IndexAscending(ix: seq<(string, Value)>) {
    forall i, j :: 0 <= i < j < |ix| ==> IndexBefore(ix[i].0, ix[j].0)
  }

  /** An object in own-key order lists its array-index fields, ascending, and then the others. */
  lemma {:induction false} OrderedLayout(fields: seq<(string, Value)>)
    requires KeyOrdered(fields)
    ensures fields == Indexed(fields) + Named(fields)
    ensures IndexAscending(Indexed(fields))
    decreases |fields|
  {
    if |fields| > 0 {
      if IsIndexKey(fields[0].0) {
        var rest := fields[1..];
        KeyOrderedTail(fields);
        OrderedLayout(rest);
        IndexedHead(fields);
        AscendingCons(fields[0], Indexed(rest));
        ConsLayout(fields, Indexed(rest), Named(rest));
      } else {
        NoIndexAfterNamed(fields);
      }
    }
  }

  /** A field in front of a list split into two parts joins the first part. */
  lemma ConsLayout(fields: seq<(string, Value)>, ix: seq<(string, Value)>, named: seq<(string, Value)>)
    requires |fields| > 0 && fields[1..] == ix + named
    ensures fields == ([fields[0]] + ix) + named
  {
    assert fields == [fields[0]] + fields[1..];
  }

  /** Dropping the first field keeps the own-key order. */
  lemma KeyOrderedTail(fields: seq<(string, Value)>)
    requires KeyOrdered(fields) && |fields| > 0
    ensures KeyOrdered(fields[1..])
  {
    var rest := fields[1..];
    forall i, j | 0 <= i < j < |rest| && IsIndexKey(rest[j].0)
      ensures IndexBefore(rest[i].0, rest[j].0)
    {
      assert rest[i] == fields[i + 1] && rest[j] == fields[j + 1];
    }
  }

  /** An array-index field below every field of an ascending list can go in front of it. */
  lemma AscendingCons(f: (string, Value), ix: seq<(string, Value)>)
    requires IndexAscending(ix)
    requires forall j :: 0 <= j < |ix| ==> IndexBefore(f.0, ix[j].0)
    ensures IndexAscending([f] + ix)
  {
    var r := [f] + ix;
    forall i, j | 0 <= i < j < |r|
      ensures IndexBefore(r[i].0, r[j].0)
    {
      assert r[j] == ix[j - 1];
      if i > 0 {
        assert r[i] == ix[i - 1];
      }
    }
  }

  /** A list in own-key order that starts with an array-index key: that key leads the indexed part and is below the rest of it. */
  lemma IndexedHead(fields: seq<(string, Value)>)
    requires KeyOrdered(fields) && |fields| > 0 && IsIndexKey(fields[0].0)
    ensures Indexed(fields) == [fields[0]] + Indexed(fields[1..])
    ensures Named(fields) == Named(fields[1..])
    ensures forall j :: 0 <= j < |Indexed(fields[1..])| ==> IndexBefore(fields[0].0, Indexed(fields[1..])[j].0)
  {
    var rest := fields[1..];
    assert Named(fields) == [] + Named(rest);
    forall j | 0 <= j < |Indexed(rest)|
      ensures IndexBefore(fields[0].0, Indexed(rest)[j].0)
    {
      var m := FieldIndex(Indexed(rest), rest, j);
      assert fields[m + 1] == rest[m];
    }
  }

  /** A field of `Indexed(fields)` sits somewhere in `fields`. */
  lemma {:induction false} FieldIndex(sub: seq<(string, Value)>, fields: seq<(string, Value)>, j: nat) returns (m: nat)
    requires sub == Indexed(fields) && j < |sub|
    ensures m < |fields| && fields[m] == sub[j]
    decreases |fields|
  {
    var rest := fields[1..];
    if IsIndexKey(fields[0].0) {
      if j == 0 {
        m := 0;
      } else {
        var m' := FieldIndex(Indexed(rest), rest, j - 1);
        m := m' + 1;
      }
    } else {
      var m' := FieldIndex(Indexed(rest), rest, j);
      m := m' + 1;
    }
  }

  /** In own-key order, nothing after a non-index key is an array index. */
  lemma NoIndexAfterNamed(fields: seq<(string, Value)>)
    requires KeyOrdered(fields) && |fields| > 0 && !IsIndexKey(fields[0].0)
    ensures Indexed(fields) == [] && Named(fields) == fields
  {
    NoIndexed(fields);
  }

  /** A list without array-index keys has no indexed part and is its own named part. */
  lemma {:induction false} NoIndexed(fields: seq<(string, Value)>)
    requires forall i :: 0 <= i < |fields| ==> !IsIndexKey(fields[i].0)
    ensures Indexed(fields) == [] && Named(fields) == fields
    decreases |fields|
  {
    if |fields| > 0 {
      NoIndexed(fields[1..]);
      assert [fields[0]] + fields[1..] == fields;
    }
  }

  /** `Named` on a list with a field in front. */
  lemma NamedCons(f: (string, Value), rest: seq<(string, Value)>)
    ensures Named([f] + rest) == (if IsIndexKey(f.0) then [] else [f]) + Named(rest)
  {
    assert ([f] + rest)[1..] == rest;
  }

  /** `Named` of a concatenation. */
  lemma {:induction false} NamedConcat(a: seq<(string, Value)>, b: seq<(string, Value)>)
    ensures Named(a + b) == Named(a) + Named(b)
    decreases |a|
  {
    if |a| == 0 {
      assert a + b == b;
    } else {
      var h: seq<(string, Value)> := if IsIndexKey(a[0].0) then [] else [a[0]];
      NamedConcat(a[1..], b);
      SplitHead(a, b);
      NamedCons(a[0], a[1..] + b);
      NamedCons(a[0], a[1..]);
      Regroup(Named(a + b), h, Named(a[1..]), Named(b), Named(a));
    }
  }

  /** A non-empty list is its head followed by its tail, also in front of another list. */
  lemma SplitHead<T>(a: seq<T>, b: seq<T>)
    requires |a| > 0
    ensures a == [a[0]] + a[1..] && a + b == [a[0]] + (a[1..] + b)
  {
  }

  /** Regrouping a concatenation of three parts. */
  lemma Regroup<T>(whole: seq<T>, h: seq<T>, x: seq<T>, y: seq<T>, hx: seq<T>)
    requires whole == h + (x + y) && hx == h + x
    ensures whole == hx + y
  {
  }

  /** A key that is not an array index reads the same in the named part as in the whole list. */
  lemma {:induction false} NamedFieldGet(fields: seq<(string, Value)>, k: string)
    requires !IsIndexKey(k)
    ensures FieldGet(Named(fields), k) == FieldGet(fields, k)
    decreases |fields|
  {
    if |fields| > 0 {
      var rest := fields[1..];
      NamedFieldGet(rest, k);
      NamedCons(fields[0], rest);
      assert fields == [fields[0]] + rest;
      if IsIndexKey(fields[0].0) {
        assert fields[0].0 != k;
        assert Named(fields) == Named(rest);
        assert FieldGet(fields, k) == FieldGet(rest, k);
      } else {
        var nf := Named(fields);
        assert nf[0] == fields[0] && nf[1..] == Named(rest);
        if fields[0].0 != k {
          assert FieldGet(nf, k) == FieldGet(nf[1..], k);
        }
      }
    }
  }

  /** Replacing a field acts on the named part as on the whole. */
  lemma {:induction false} NamedReplace(fields: seq<(string, Value)>, k: string, v: Value)
    ensures IsIndexKey(k) ==> Named(Replace(fields, k, v)) == Named(fields)
    ensures !IsIndexKey(k) ==> Named(Replace(fields, k, v)) == Replace(Named(fields), k, v)
    decreases |fields|
  {
    if |fields| > 0 {
      var rest := fields[1..];
      assert fields == [fields[0]] + rest;
      NamedCons(fields[0], rest);
      if fields[0].0 == k {
        NamedReplaceHead(fields, k, v);
      } else {
        NamedReplace(rest, k, v);
        NamedReplaceTail(fields, k, v);
      }
    }
  }

  /** `NamedReplace` when the first field has the key. */
  lemma NamedReplaceHead(fields: seq<(string, Value)>, k: string, v: Value)
    requires |fields| > 0 && fields[0].0 == k
    ensures IsIndexKey(k) ==> Named(Replace(fields, k, v)) == Named(fields)
    ensures !IsIndexKey(k) ==> Named(Replace(fields, k, v)) == Replace(Named(fields), k, v)
  {
    var rest := fields[1..];
    assert fields == [fields[0]] + rest;
    assert Replace(fields, k, v) == [(k, v)] + rest;
    NamedCons(fields[0], rest);
    NamedCons((k, v), rest);
    if !IsIndexKey(k) {
      var nf := Named(fields);
      assert nf[0] == fields[0] && nf[1..] == Named(rest);
      assert Replace(nf, k, v) == [(k, v)] + Named(rest);
    }
  }

  /** `NamedReplace` when the first field has another key, given the fact for the rest. */
  lemma NamedReplaceTail(fields: seq<(string, Value)>, k: string, v: Value)
    requires |fields| > 0 && fields[0].0 != k
    requires IsIndexKey(k) ==> Named(Replace(fields[1..], k, v)) == Named(fields[1..])
    requires !IsIndexKey(k) ==> Named(Replace(fields[1..], k, v)) == Replace(Named(fields[1..]), k, v)
    ensures IsIndexKey(k) ==> Named(Replace(fields, k, v)) == Named(fields)
    ensures !IsIndexKey(k) ==> Named(Replace(fields, k, v)) == Replace(Named(fields), k, v)
  {
    var rest := fields[1..];
    assert fields == [fields[0]] + rest;
    assert Replace(fields, k, v) == [fields[0]] + Replace(rest, k, v);
    NamedCons(fields[0], rest);
    NamedCons(fields[0], Replace(rest, k, v));
    if !IsIndexKey(fields[0].0) {
      var nf := Named(fields);
      assert nf[0] == fields[0] && nf[1..] == Named(rest);
      assert Replace(nf, k, v) == [fields[0]] + Replace(Named(rest), k, v);
    } else {
      assert Named(fields) == Named(rest);
      assert Named(Replace(fields, k, v)) == Named(Replace(rest, k, v));
    }
  }

  /** Inserting an array-index key leaves the named part as it was. */
  lemma {:induction false} NamedInsertIndex(fields: seq<(string, Value)>, k: string, v: Value)
    requires IsIndexKey(k) && FieldGet(fields, k).None?
    ensures Named(InsertIndex(fields, k, v)) == Named(fields)
    decreases |fields|
  {
    if |fields| == 0 || !IndexBefore(fields[0].0, k) {
      NamedCons((k, v), fields);
    } else {
      NamedInsertIndex(fields[1..], k, v);
      NamedCons(fields[0], InsertIndex(fields[1..], k, v));
      NamedCons(fields[0], fields[1..]);
      assert fields == [fields[0]] + fields[1..];
    }
  }

  /**
   * Assigning an array-index key leaves the other keys' fields as they were;
   * assigning any other key acts on them exactly as on an insertion-ordered list.
   */
  lemma NamedFieldSet(fields: seq<(string, Value)>, k: string, v: Value)
    ensures IsIndexKey(k) ==> Named(FieldSet(fields, k, v)) == Named(fields)
    ensures !IsIndexKey(k) ==> Named(FieldSet(fields, k, v)) == FieldSet(Named(fields), k, v)
  {
    if FieldGet(fields, k).Some? {
      NamedReplace(fields, k, v);
      if !IsIndexKey(k) {
        NamedFieldGet(fields, k);
      }
    } else if IsIndexKey(k) {
      NamedInsertIndex(fields, k, v);
    } else {
      NamedFieldGet(fields, k);
      NamedConcat(fields, [(k, v)]);
      NamedCons((k, v), []);
    }
  }

  /** A JavaScript object never holds the same key twice. */
  predicate DistinctKeys(fields: seq<(string, Value)>) {
    forall i, j :: 0 <= i < j < |fields| ==> fields[i].0 != fields[j].0
  }

  /** Object spread `{ ...target, ...source }`: assigns each field of `source` in order. */
  function Spread(target: seq<(string, Value)>, source: seq<(string, Value)>): (r: seq<(string, Value)>)
    decreases |source|
  {
    if |source| == 0 then target
    else Spread(FieldSet(target, source[0].0, source[0].1), source[1..])
  }

  /**
   * After a spread, a key of `source` reads as its value in `source`, every
   * other key reads as in `target`, and the keys are exactly those of both.
   */
  lemma {:induction false} SpreadGet(target: seq<(string, Value)>, source: seq<(string, Value)>, k: string)
    requires DistinctKeys(source)
    ensures FieldGet(Spread(target, source), k) ==
            if FieldGet(source, k).Some? then FieldGet(source, k) else FieldGet(target, k)
    decreases |source|
  {
    if |source| > 0 {
      var t' := FieldSet(target, source[0].0, source[0].1);
      SpreadGet(t', source[1..], k);
      assert forall i :: 0 <= i < |source[1..]| ==> source[1..][i] == source[i + 1];
    }
  }

  /** A spread keeps an object's own-key order. */
  lemma {:induction false} SpreadKeepsOrder(target: seq<(string, Value)>, source: seq<(string, Value)>)
    requires KeyOrdered(target)
    ensures KeyOrdered(Spread(target, source))
    decreases |source|
  {
    if |source| > 0 {
      FieldSetKeepsOrder(target, source[0].0, source[0].1);
      SpreadKeepsOrder(FieldSet(target, source[0].0, source[0].1), source[1..]);
    }
  }

  /** On the keys that are not array indices, a spread is the insertion-ordered spread of those keys. */
  lemma {:induction false} SpreadNamed(target: seq<(string, Value)>, source: seq<(string, Value)>)
    ensures Named(Spread(target, source)) == Spread(Named(target), Named(source))
    decreases |source|
  {
    if |source| > 0 {
      var x := source[0];
      var t' := FieldSet(target, x.0, x.1);
      SpreadNamed(t', source[1..]);
      NamedFieldSet(target, x.0, x.1);
      if IsIndexKey(x.0) {
        assert Named(source) == Named(source[1..]);
      } else {
        assert Named(source) == [x] + Named(source[1..]);
        assert Named(source)[1..] == Named(source[1..]);
      }
    }
  }

  /** Spreading keys that are not array indices never moves the keys already present. */
  lemma {:induction false} PlainSpreadKeepsPrefix(target: seq<(string, Value)>, source: seq<(string, Value)>)
    requires forall i :: 0 <= i < |source| ==> !IsIndexKey(source[i].0)
    ensures |target| <= |Spread(target, source)|
    ensures forall i :: 0 <= i < |target| ==> Spread(target, source)[i].0 == target[i].0
    decreases |source|
  {
    if |source| > 0 {
      var t' := FieldSet(target, source[0].0, source[0].1);
      assert forall i :: 0 <= i < |target| ==> t'[i].0 == target[i].0;
      PlainSpreadKeepsPrefix(t', source[1..]);
    }
  }

  /**
   * A spread never moves the keys of `target` that are not array indices:
   * they stay first among such keys, in order.
   */
  lemma SpreadKeepsPrefix(target: seq<(string, Value)>, source: seq<(string, Value)>)
    ensures var n := Named(Spread(target, source));
            |Named(target)| <= |n| && forall i :: 0 <= i < |Named(target)| ==> n[i].0 == Named(target)[i].0
  {
    SpreadNamed(target, source);
    PlainSpreadKeepsPrefix(Named(target), Named(source));
  }
}
