/** The JSON values the extension encodes for the ledger and the message queue. */
module Json {

  /** An object keeps its keys in insertion order, as `json_encode` writes them. */
  datatype Json =
    | JNull
    | JBool(b: bool)
    | JInt(i: int)
    | JNum(r: real)
    | JStr(s: string)
    | JArr(elems: seq<Json>)
    | JObj(fields: seq<(string, Json)>)

  /** The keys of an object, in order. */
  function Keys(fields: seq<(string, Json)>): (r: seq<string>)
    ensures |r| == |fields|
    ensures forall k :: 0 <= k < |fields| ==> r[k] == fields[k].0
  {
    if fields == [] then [] else [fields[0].0] + Keys(fields[1..])
  }

  /**
   * The entries of a list, one per element and in its order: what each loop that
   * fills a products array from an item list builds.
   */
  function EntriesOf<T>(xs: seq<T>, entry: T -> Json): (r: seq<Json>)
    ensures |r| == |xs|
    ensures forall j :: 0 <= j < |xs| ==> r[j] == entry(xs[j])
  {
    if xs == [] then [] else EntriesOf(xs[..|xs| - 1], entry) + [entry(xs[|xs| - 1])]
  }

  /** One more element adds its entry at the end. */
  lemma EntriesOfSnoc<T>(xs: seq<T>, x: T, entry: T -> Json)
    ensures EntriesOf(xs + [x], entry) == EntriesOf(xs, entry) + [entry(x)]
  {
    assert (xs + [x])[..|xs|] == xs;
  }

  /** The value stored under `key` in an object, if the key is present. */
  function Get(v: Json, key: string): (r: Json)
  {
    if v.JObj? then Lookup(v.fields, key) else JNull
  }

  /**
   * The value under `key`: the one stored at its last occurrence, as
   * `json_decode` keeps the last of duplicate keys (JNull when absent).
   */
  function Lookup(fields: seq<(string, Json)>, key: string): (r: Json)
    ensures r != JNull ==> exists k :: 0 <= k < |fields| && fields[k] == (key, r)
  {
    if fields == [] then JNull
    else if fields[|fields| - 1].0 == key then fields[|fields| - 1].1
    else Lookup(fields[..|fields| - 1], key)
  }

  /** The value under a key is the one stored at its last occurrence. */
  lemma {:induction false} LookupAt(fields: seq<(string, Json)>, k: nat)
    requires k < |fields|
    requires forall j :: k < j < |fields| ==> fields[j].0 != fields[k].0
    ensures Lookup(fields, fields[k].0) == fields[k].1
    decreases |fields|
  {
    if k < |fields| - 1 {
      var init := fields[..|fields| - 1];
      assert forall j :: k < j < |init| ==> init[j] == fields[j];
      LookupAt(init, k);
    }
  }

  /** A key that no pair carries reads as null. */
  lemma {:induction false} LookupAbsent(fields: seq<(string, Json)>, key: string)
    requires forall j :: 0 <= j < |fields| ==> fields[j].0 != key
    ensures Lookup(fields, key) == JNull
    decreases |fields|
  {
    if fields != [] {
      var init := fields[..|fields| - 1];
      assert forall j :: 0 <= j < |init| ==> init[j] == fields[j];
      LookupAbsent(init, key);
    }
  }

  /** PHP truthiness of a decoded JSON value: null, false, 0, 0.0, "", "0" and an empty array are false. */
  predicate JsonTruthy(v: Json) {
    match v
    case JNull => false
    case JBool(b) => b
    case JInt(i) => i != 0
    case JNum(r) => r != 0.0
    case JStr(s) => s != "" && s != "0"
    case JArr(elems) => elems != []
    case JObj(fields) => fields != []
  }
}
