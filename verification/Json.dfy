/** Decoded JSON and YAML values, as the program holds them in interface{} variables. */
module Json {
  import opened GoText

  datatype Json =
    | Null
    | Bool(flag: bool)
    | Number(number: real)
    | String(text: Text)
    | Array(items: seq<Json>)
    | Object(fields: map<Text, Json>)
  {
    predicate IsScalar() {
      !Array? && !Object?
    }
  }

  /**
    True iff no node of `v` lies deeper than `limit` when `v` itself lies at
    depth `depth`.
   */
  predicate Fits(v: Json, depth: nat, limit: nat)
    decreases v
  {
    && depth <= limit
    && match v
       case Array(items) => forall i :: 0 <= i < |items| ==> Fits(items[i], depth + 1, limit)
       case Object(fields) => forall k :: k in fields ==> Fits(fields[k], depth + 1, limit)
       case _ => true
  }

  /** A value that fits below some depth also fits when it is placed higher up. */
  lemma {:induction false} FitsHigher(v: Json, high: nat, low: nat, limit: nat)
    requires high <= low && Fits(v, low, limit)
    ensures Fits(v, high, limit)
    decreases v
  {
    match v
    case Array(items) =>
      forall i | 0 <= i < |items|
        ensures Fits(items[i], high + 1, limit)
      {
        FitsHigher(items[i], high + 1, low + 1, limit);
      }
    case Object(fields) =>
      forall k | k in fields
        ensures Fits(fields[k], high + 1, limit)
      {
        FitsHigher(fields[k], high + 1, low + 1, limit);
      }
    case _ =>
  }

  /** float64(int64(number)) == number: integral and inside the int64 range. */
  predicate IsIntegral(n: real) {
    n.Floor as real == n && -0x8000_0000_0000_0000 <= n.Floor < 0x8000_0000_0000_0000
  }
}
