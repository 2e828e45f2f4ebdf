/**
 * JavaScript values as the frontend handles them: primitives, arrays and plain
 * objects whose properties keep their insertion order. Numbers are integers here.
 */
module Values {

  datatype Value =
    | Undefined
    | Null
    | Bool(b: bool)
    | Num(n: int)
    | Str(s: string)
    | Arr(items: seq<Value>)
    | Obj(fields: Record)

  datatype Field = Field(key: string, val: Value)

  /** A plain object: its own properties in insertion order. */
  type Record = seq<Field>

  /** JavaScript truthiness (no NaN among the modelled numbers). */
  predicate Truthy(v: Value) {
    match v
    case Undefined => false
    case Null => false
    case Bool(b) => b
    case Num(n) => n != 0
    case Str(s) => s != ""
    case _ => true
  }

  predicate Nullish(v: Value) {
    v == Undefined || v == Null
  }

  /** `a || b` */
  function Or(a: Value, b: Value): Value {
    if Truthy(a) then a else b
  }

  /** `Object.keys(r)` */
  function Keys(r: Record): (ks: seq<string>)
    ensures |ks| == |r| && forall i :: 0 <= i < |r| ==> ks[i] == r[i].key
  {
    if r == [] then [] else [r[0].key] + Keys(r[1..])
  }

  /** What every JavaScript object satisfies: no property name twice. */
  predicate DistinctKeys(r: Record) {
    r == [] || (r[0].key !in Keys(r[1..]) && DistinctKeys(r[1..]))
  }

  /** Keys that differ pairwise are distinct keys: the form in which a literal object is checked. */
  lemma {:induction false} PairwiseDistinctKeys(r: Record)
    requires forall i, j :: 0 <= i < j < |r| ==> r[i].key != r[j].key
    ensures DistinctKeys(r)
  {
    if r != [] {
      PairwiseDistinctKeys(r[1..]);
      assert forall j :: 0 <= j < |r[1..]| ==> Keys(r[1..])[j] == r[j + 1].key;
    }
  }

  /** `r[key]`: the property's value, or undefined when there is none. */
  function Lookup(r: Record, key: string): (v: Value)
    ensures key !in Keys(r) ==> v == Undefined
  {
    if r == [] then Undefined
    else if r[0].key == key then r[0].val
    else Lookup(r[1..], key)
  }

  /** In an object without repeated keys, each property is found under its own name. */
  lemma {:induction false} LookupAt(r: Record, i: int)
    requires DistinctKeys(r) && 0 <= i < |r|
    ensures Lookup(r, r[i].key) == r[i].val
  {
    if i > 0 {
      assert r[i] == r[1..][i - 1];
      assert Keys(r[1..])[i - 1] == r[i].key;
      LookupAt(r[1..], i - 1);
    }
  }

  /** An object literal `{f0: v0, f1: v1, ...}`. */
  function ObjectOf(fields: seq<string>, vals: seq<Value>): (r: Record)
    requires |vals| == |fields|
  {
    seq(|fields|, i requires 0 <= i < |fields| => Field(fields[i], vals[i]))
  }

  /** An object literal over distinct names has exactly those keys, and each name reads back its value. */
  lemma ObjectOfFields(fields: seq<string>, vals: seq<Value>)
    requires |vals| == |fields|
    requires forall i, j :: 0 <= i < j < |fields| ==> fields[i] != fields[j]
    ensures var r := ObjectOf(fields, vals);
            && Keys(r) == fields && DistinctKeys(r)
            && forall i :: 0 <= i < |fields| ==> Lookup(r, fields[i]) == vals[i]
  {
    var r := ObjectOf(fields, vals);
    PairwiseDistinctKeys(r);
    forall i | 0 <= i < |fields|
      ensures Lookup(r, fields[i]) == vals[i]
    {
      LookupAt(r, i);
    }
  }

  /** `r[key] = v`: an existing property keeps its place, a new one is appended. */
  function Put(r: Record, key: string, v: Value): (r': Record)
    ensures Lookup(r', key) == v
    ensures forall k :: k != key ==> Lookup(r', k) == Lookup(r, k)
    ensures key in Keys(r) ==> Keys(r') == Keys(r)
    ensures key !in Keys(r) ==> Keys(r') == Keys(r) + [key]
    ensures DistinctKeys(r) ==> DistinctKeys(r')
  {
    if r == [] then [Field(key, v)]
    else if r[0].key == key then [Field(key, v)] + r[1..]
    else
      var rest := Put(r[1..], key, v);
      assert ([r[0]] + rest)[1..] == rest;
      assert Keys(r) + [key] == [r[0].key] + (Keys(r[1..]) + [key]);
      [r[0]] + rest
  }

  /** `delete r[key]` */
  function Remove(r: Record, key: string): (r': Record)
    ensures Lookup(r', key) == Undefined && key !in Keys(r')
    ensures forall k :: k != key ==> Lookup(r', k) == Lookup(r, k)
    ensures forall k :: k in Keys(r') <==> k in Keys(r) && k != key
    ensures DistinctKeys(r) ==> DistinctKeys(r')
  {
    if r == [] then []
    else if r[0].key == key then Remove(r[1..], key)
    else [r[0]] + Remove(r[1..], key)
  }

  /** `v.key` on a value that is not null or undefined (where JavaScript would throw). */
  function Member(v: Value, key: string): Value {
    if v.Obj? then Lookup(v.fields, key) else Undefined
  }

  /** `v?.key` */
  function OptionalMember(v: Value, key: string): (r: Value)
    ensures Nullish(v) ==> r == Undefined
  {
    if Nullish(v) then Undefined else Member(v, key)
  }

  // ---------------------------------------------------------------------------
  // String conversion (`String(v)`, template literals, `+` with a string)

  function DigitChar(d: int): (c: char)
    requires 0 <= d < 10
    ensures '0' <= c <= '9' && c as int - '0' as int == d
  {
    ('0' as int + d) as char
  }

  /** The decimal numeral of a natural number, most significant digit first. */
  function Digits(n: nat): (r: string)
    ensures r != [] && forall i :: 0 <= i < |r| ==> '0' <= r[i] <= '9'
    ensures (n < 10) == (|r| == 1)
  {
    if n < 10 then [DigitChar(n)] else Digits(n / 10) + [DigitChar(n % 10)]
  }

  function Decimal(n: int): string {
    if n < 0 then "-" + Digits(-n) else Digits(n)
  }

  /** Different numbers have different numerals. */
  lemma {:induction false} DigitsInjective(a: nat, b: nat)
    requires Digits(a) == Digits(b)
    ensures a == b
  {
    if a >= 10 && b >= 10 {
      var da, db := Digits(a), Digits(b);
      assert da[|da| - 1] == db[|db| - 1];
      assert a % 10 == b % 10;
      assert da[..|da| - 1] == Digits(a / 10);
      assert db[..|db| - 1] == Digits(b / 10);
      DigitsInjective(a / 10, b / 10);
    }
  }

  lemma DecimalInjective(a: int, b: int)
    requires Decimal(a) == Decimal(b)
    ensures a == b
  {
    assert (Decimal(a)[0] == '-') == (a < 0);
    assert (Decimal(b)[0] == '-') == (b < 0);
    if a < 0 && b < 0 {
      assert Decimal(a)[1..] == Digits(-a);
      assert Decimal(b)[1..] == Digits(-b);
      DigitsInjective(-a, -b);
    } else if a >= 0 && b >= 0 {
      DigitsInjective(a, b);
    }
  }

  /** `String(v)` */
  function JsString(v: Value): string {
    match v
    case Undefined => "undefined"
    case Null => "null"
    case Bool(b) => if b then "true" else "false"
    case Num(n) => Decimal(n)
    case Str(s) => s
    case Arr(items) => Join(items)
    case Obj(_) => "[object Object]"
  }

  /** `items.join(',')`: null and undefined elements become empty. */
  function Join(items: seq<Value>): string {
    if items == [] then ""
    else
      (if Nullish(items[0]) then "" else JsString(items[0]))
      + (if |items| == 1 then "" else "," + Join(items[1..]))
  }

  // ---------------------------------------------------------------------------
  // JSON.parse(JSON.stringify(v))

  /** Nothing in `v` that `JSON.stringify` would drop or rewrite: no undefined anywhere. */
  predicate Clean(v: Value) {
    match v
    case Undefined => false
    case Arr(items) => forall i :: 0 <= i < |items| ==> Clean(items[i])
    case Obj(fs) => forall i :: 0 <= i < |fs| ==> Clean(fs[i].val)
    case _ => true
  }

  /**
   * The value read back after storing `v` as JSON: properties holding undefined
   * disappear and undefined array elements become null.
   */
  function JsonRoundTrip(v: Value): Value {
    match v
    case Arr(items) => Arr(RoundTripItems(items))
    case Obj(fs) => Obj(RoundTripFields(fs))
    case _ => v
  }

  function RoundTripItems(items: seq<Value>): (r: seq<Value>)
    ensures |r| == |items|
  {
    if items == [] then []
    else [if items[0] == Undefined then Null else JsonRoundTrip(items[0])] + RoundTripItems(items[1..])
  }

  function RoundTripFields(fs: Record): Record {
    if fs == [] then []
    else if fs[0].val == Undefined then RoundTripFields(fs[1..])
    else [Field(fs[0].key, JsonRoundTrip(fs[0].val))] + RoundTripFields(fs[1..])
  }

  /** A clean value survives the round trip unchanged. */
  lemma {:induction false} RoundTripKeepsClean(v: Value)
    requires Clean(v)
    ensures JsonRoundTrip(v) == v
  {
    match v
    case Arr(items) => RoundTripItemsKeep(items);
    case Obj(fs) => RoundTripFieldsKeep(fs);
    case _ =>
  }

  lemma {:induction false} RoundTripItemsKeep(items: seq<Value>)
    requires forall i :: 0 <= i < |items| ==> Clean(items[i])
    ensures RoundTripItems(items) == items
  {
    if items != [] {
      RoundTripKeepsClean(items[0]);
      RoundTripItemsKeep(items[1..]);
    }
  }

  lemma {:induction false} RoundTripFieldsKeep(fs: Record)
    requires forall i :: 0 <= i < |fs| ==> Clean(fs[i].val)
    ensures RoundTripFields(fs) == fs
  {
    if fs != [] {
      RoundTripKeepsClean(fs[0].val);
      RoundTripFieldsKeep(fs[1..]);
    }
  }

  /** What comes back from the round trip of a defined value is clean. */
  lemma {:induction false} RoundTripIsClean(v: Value)
    requires v != Undefined
    ensures Clean(JsonRoundTrip(v))
  {
    match v
    case Arr(items) => RoundTripItemsClean(items);
    case Obj(fs) => RoundTripFieldsClean(fs);
    case _ =>
  }

  lemma {:induction false} RoundTripItemsClean(items: seq<Value>)
    ensures forall i :: 0 <= i < |items| ==> Clean(RoundTripItems(items)[i])
  {
    if items != [] {
      if items[0] != Undefined {
        RoundTripIsClean(items[0]);
      }
      RoundTripItemsClean(items[1..]);
      var r := RoundTripItems(items);
      assert r[1..] == RoundTripItems(items[1..]);
      forall i | 1 <= i < |items| ensures Clean(r[i]) {
        assert r[i] == r[1..][i - 1];
      }
    }
  }

  lemma {:induction false} RoundTripFieldsClean(fs: Record)
    ensures forall i :: 0 <= i < |RoundTripFields(fs)| ==> Clean(RoundTripFields(fs)[i].val)
  {
    if fs != [] {
      RoundTripFieldsClean(fs[1..]);
      if fs[0].val != Undefined {
        RoundTripIsClean(fs[0].val);
        var r := RoundTripFields(fs);
        assert r[1..] == RoundTripFields(fs[1..]);
        forall i | 1 <= i < |r| ensures Clean(r[i].val) {
          assert r[i] == r[1..][i - 1];
        }
      }
    }
  }

  /** Storing and reading back twice is the same as doing it once. */
  lemma RoundTripIdempotent(v: Value)
    requires v != Undefined
    ensures JsonRoundTrip(JsonRoundTrip(v)) == JsonRoundTrip(v)
  {
    RoundTripIsClean(v);
    RoundTripKeepsClean(JsonRoundTrip(v));
  }

  /** A defined property of a stored object is read back as the round trip of its value. */
  lemma {:induction false} RoundTripLookup(fs: Record, key: string)
    requires Lookup(fs, key) != Undefined
    ensures Lookup(RoundTripFields(fs), key) == JsonRoundTrip(Lookup(fs, key))
  {
    if fs[0].key != key {
      RoundTripLookup(fs[1..], key);
    }
  }

  /** The round trip never changes truthiness. */
  lemma RoundTripTruthy(v: Value)
    ensures Truthy(JsonRoundTrip(v)) == Truthy(v)
  {
  }

  /** JavaScript number coercions, left abstract: `isNaN`, `parseFloat`, `parseInt`. */
  datatype Numerics = Numerics(isNaN: Value -> bool, parseFloat: Value -> Value, parseInt: Value -> Value)
}
