/** Values of a document: trees with map objects, so that the order of keys is not part of a value. */
module Json {
  datatype Number = NaN | Infinite(positive: bool) | Finite(value: real)

  /**
   * `Foreign` is an object of a class of its own with its properties: a date, which the loader makes of an unquoted
   * timestamp and which has none, or binary data, which has one for each byte.
   */
  datatype Json =
    | Undefined
    | Null
    | Bool(b: bool)
    | Num(n: Number)
    | Str(s: string)
    | Arr(items: seq<Json>)
    | Obj(fields: map<string, Json>)
    | Foreign(entries: map<string, Json>)

  /** What `!value` is false for. */
  predicate IsTruthy(v: Json) {
    match v
    case Undefined | Null => false
    case Bool(b) => b
    case Num(n) => !n.NaN? && n != Finite(0.0)
    case Str(s) => s != ""
    case Arr(_) | Obj(_) | Foreign(_) => true
  }

  /** Property access on a value that is neither null nor undefined. */
  function Field(v: Json, key: string): Json {
    if v.Obj? && key in v.fields then v.fields[key]
    else if v.Foreign? && key in v.entries then v.entries[key]
    else Undefined
  }

  predicate IsNullish(v: Json) {
    v.Undefined? || v.Null?
  }

  /** `v ?? w`. */
  function Coalesce(v: Json, w: Json): Json {
    if IsNullish(v) then w else v
  }

  /** A value that loading YAML can yield: nothing in it is undefined. */
  predicate IsYaml(v: Json) {
    match v
    case Undefined => false
    case Arr(items) => forall i :: 0 <= i < |items| ==> IsYaml(items[i])
    case Obj(fields) => forall k :: k in fields ==> IsYaml(fields[k])
    case Foreign(entries) => forall k :: k in entries ==> IsYaml(entries[k])
    case _ => true
  }

  /** No object of another class is in it. */
  predicate IsPlain(v: Json) {
    match v
    case Arr(items) => forall i :: 0 <= i < |items| ==> IsPlain(items[i])
    case Obj(fields) => forall k :: k in fields ==> IsPlain(fields[k])
    case Foreign(_) => false
    case _ => true
  }

  /**
   * `sortKeysDeep` up to the order of keys, then a dump and a load: undefined properties disappear, and of an object
   * of another class only its properties are left.
   */
  function Dump(v: Json): Json {
    match v
    case Arr(items) => Arr(seq(|items|, i requires 0 <= i < |items| => Dump(items[i])))
    case Obj(fields) => Obj(map k | k in fields && fields[k] != Undefined :: Dump(fields[k]))
    case Foreign(entries) => Obj(map k | k in entries && entries[k] != Undefined :: Dump(entries[k]))
    case _ => v
  }

  /** A loaded value survives exactly if no object of another class is in it. */
  lemma {:induction false} DumpIsIdentityIff(v: Json)
    requires IsYaml(v)
    ensures Dump(v) == v <==> IsPlain(v)
  {
    match v
    case Arr(items) =>
      forall i | 0 <= i < |items| ensures Dump(items[i]) == items[i] <==> IsPlain(items[i]) { DumpIsIdentityIff(items[i]); }
      if Dump(v) == v {
        forall i | 0 <= i < |items| ensures IsPlain(items[i]) { assert Dump(v).items[i] == items[i]; }
      }
    case Obj(fields) =>
      forall k | k in fields ensures Dump(fields[k]) == fields[k] <==> IsPlain(fields[k]) { DumpIsIdentityIff(fields[k]); }
      if Dump(v) == v {
        forall k | k in fields ensures IsPlain(fields[k]) { assert Dump(v).fields[k] == fields[k]; }
      }
    case Foreign(_) => assert Dump(v).Obj?;
    case _ =>
  }

  lemma {:induction false} DumpIsPlainYaml(v: Json)
    requires IsYaml(v)
    ensures IsYaml(Dump(v)) && IsPlain(Dump(v)) && (IsKept(Dump(v)) <==> IsKept(v)) && (IsTruthy(Dump(v)) <==> IsTruthy(v))
  {
    match v
    case Arr(items) =>
      forall i | 0 <= i < |items| ensures IsYaml(Dump(items[i])) && IsPlain(Dump(items[i])) { DumpIsPlainYaml(items[i]); }
    case Obj(fields) =>
      forall k | k in fields ensures IsYaml(Dump(fields[k])) && IsPlain(Dump(fields[k])) { DumpIsPlainYaml(fields[k]); }
    case Foreign(entries) =>
      forall k | k in entries ensures IsYaml(Dump(entries[k])) && IsPlain(Dump(entries[k])) { DumpIsPlainYaml(entries[k]); }
    case _ =>
  }

  lemma DumpKeepsFields(v: Json, key: string)
    ensures Field(Dump(v), key) == Dump(Field(v, key))
    ensures Dump(v).Undefined? <==> v.Undefined?
  {
  }

  function Digit(d: nat): char
    requires d < 10
  {
    "0123456789"[d]
  }

  function Decimal(n: nat): string {
    if n < 10 then [Digit(n)] else Decimal(n / 10) + [Digit(n % 10)]
  }

  /** An array seen as an object, keyed by position. */
  function ByPosition(items: seq<Json>): map<string, Json> {
    if items == [] then map[]
    else ByPosition(items[..|items| - 1])[Decimal(|items| - 1) := items[|items| - 1]]
  }

  /** The entries `cleanObject` keeps. */
  predicate IsKept(v: Json) {
    v != Undefined && v != Str("") && v != Arr([])
  }

  function CleanFields(fields: map<string, Json>): Json {
    var kept := map k | k in fields && IsKept(fields[k]) :: fields[k];
    if kept == map[] then Undefined else Obj(kept)
  }

  function CleanObject(v: Json): Json {
    match v
    case Obj(fields) => CleanFields(fields)
    case Arr(items) => CleanFields(ByPosition(items))
    case Foreign(entries) => CleanFields(entries)
    case _ => Undefined
  }

  /** What `cleanObject` answers: nothing, or an object with something in it and nothing to drop. */
  predicate IsClean(v: Json) {
    v.Undefined? || (v.Obj? && v.fields != map[] && forall k :: k in v.fields ==> IsKept(v.fields[k]))
  }

  lemma CleanObjectCleans(v: Json)
    ensures IsClean(CleanObject(v))
    ensures IsClean(v) ==> CleanObject(v) == v
  {
    if v.Obj? && IsClean(v) {
      assert (map k | k in v.fields && IsKept(v.fields[k]) :: v.fields[k]) == v.fields;
    }
  }

  lemma CleanedField(fields: map<string, Json>, key: string)
    ensures Field(CleanFields(fields), key) == if key in fields && IsKept(fields[key]) then fields[key] else Undefined
    ensures key in fields && IsKept(fields[key]) ==> CleanFields(fields).Obj?
  {
    var kept := map k | k in fields && IsKept(fields[k]) :: fields[k];
    if key in fields && IsKept(fields[key]) {
      assert key in kept;
    }
  }

  lemma {:induction false} ByPositionYaml(items: seq<Json>, k: string)
    requires IsYaml(Arr(items)) && k in ByPosition(items)
    ensures IsYaml(ByPosition(items)[k])
    decreases |items|
  {
    var n := |items| - 1;
    if k != Decimal(n) {
      assert forall i :: 0 <= i < n ==> items[..n][i] == items[i];
      ByPositionYaml(items[..n], k);
    }
  }

  lemma CleanObjectKeepsYaml(v: Json)
    requires IsYaml(v) && CleanObject(v) != Undefined
    ensures IsYaml(CleanObject(v))
  {
    if v.Arr? {
      forall k | k in ByPosition(v.items) ensures IsYaml(ByPosition(v.items)[k]) { ByPositionYaml(v.items, k); }
    }
  }

  /** Of an object of any class `cleanObject` keeps every property but undefined ones, empty texts and empty arrays. */
  lemma CleaningDrops(v: Json, key: string)
    requires v.Obj? || v.Foreign?
    ensures var w, e := CleanObject(v), Field(v, key);
            if e.Undefined? || e == Str("") || e == Arr([]) then w.Undefined? || (w.Obj? && key !in w.fields)
            else w.Obj? && key in w.fields && w.fields[key] == e
  {
    CleanedField(if v.Obj? then v.fields else v.entries, key);
  }

  /** The falsy values that a document can hold. */
  lemma FalsyValues(v: Json)
    ensures !IsTruthy(v) <==> v in {Undefined, Null, Bool(false), Num(Finite(0.0)), Num(NaN), Str("")}
  {
  }
}
