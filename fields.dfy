/**
 * `parse_all_fields` of app.py and the ordered dictionary it fills.
 *
 * A Python dict keeps its keys in insertion order; `Dict` is that dict as a
 * sequence of (key, value) pairs with distinct keys. A field value is
 * Python's `None` or a string.
 */
module Fields {
  import opened Wrappers
  import opened Chars
  import opened Matchers
  import opened FieldTable

  type Value = Option<string>
  type Dict = seq<(string, Value)>

  function Keys(d: Dict): (ks: seq<string>)
    ensures |ks| == |d| && forall k :: 0 <= k < |d| ==> ks[k] == d[k].0
  {
    seq(|d|, k requires 0 <= k < |d| => d[k].0)
  }

  predicate Distinct(ks: seq<string>) {
    forall i, j :: 0 <= i < j < |ks| ==> ks[i] != ks[j]
  }

  /** Where `key` sits in the dict. */
  function KeyIndex(d: Dict, key: string): (i: nat)
    requires key in Keys(d)
    ensures i < |d| && d[i].0 == key
    ensures forall j :: 0 <= j < i ==> d[j].0 != key
  {
    if d[0].0 == key then 0
    else
      assert Keys(d) == [d[0].0] + Keys(d[1..]);
      1 + KeyIndex(d[1..], key)
  }

  /** `d.get(key)`, wrapped: None when the key is missing, else Some of its value. */
  function Get(d: Dict, key: string): Option<Value> {
    if key in Keys(d) then Some(d[KeyIndex(d, key)].1) else None
  }

  /**
   * `d[key] = v`: a key already present keeps its place and takes the new
   * value; a new key goes at the end.
   */
  function Put(d: Dict, key: string, v: Value): (r: Dict)
    ensures Keys(r) == if key in Keys(d) then Keys(d) else Keys(d) + [key]
  {
    if key in Keys(d) then d[KeyIndex(d, key) := (key, v)] else d + [(key, v)]
  }

  /** `d[key] = v` keeps the keys distinct. */
  lemma PutDistinct(d: Dict, key: string, v: Value)
    requires Distinct(Keys(d))
    ensures Distinct(Keys(Put(d, key, v)))
  {
  }

  /** After `d[key] = v`, `key` maps to `v`. */
  lemma PutGetSame(d: Dict, key: string, v: Value)
    requires Distinct(Keys(d))
    ensures Get(Put(d, key, v), key) == Some(v)
  {
    var r := Put(d, key, v);
    PutDistinct(d, key, v);
    if key in Keys(d) {
      DistinctIndex(r, KeyIndex(d, key));
    } else {
      DistinctIndex(r, |d|);
    }
  }

  /** After `d[key] = v`, every other key keeps its value, or stays missing. */
  lemma PutGetOther(d: Dict, key: string, v: Value, other: string)
    requires Distinct(Keys(d)) && other != key
    ensures Get(Put(d, key, v), other) == Get(d, other)
  {
    var r := Put(d, key, v);
    PutDistinct(d, key, v);
    if other in Keys(d) {
      var i := KeyIndex(d, other);
      assert r[i] == d[i];
      DistinctIndex(r, i);
    } else {
      assert other !in Keys(r);
    }
  }

  /** With distinct keys, the key at index `i` is found at `i`. */
  lemma DistinctIndex(d: Dict, i: nat)
    requires i < |d| && Distinct(Keys(d))
    ensures KeyIndex(d, d[i].0) == i
  {
    var j := KeyIndex(d, d[i].0);
    assert Keys(d)[j] == Keys(d)[i];
  }

  /** `m.group(1).strip() if m else None` for `m = re.search(pat, text)`. */
  function FieldValue(pat: Pattern, text: string): Value {
    match Search(pat, text)
    case None => None
    case Some(g) => Some(Strip(g))
  }

  /** The dict built by running every entry of `table` over `text`, in table order. */
  function Parse(table: seq<(string, Pattern)>, text: string): Dict {
    seq(|table|, k requires 0 <= k < |table| => (table[k].0, FieldValue(table[k].1, text)))
  }

  /** The dict `parse_all_fields(text)` returns. */
  function ParsedFields(text: string): Dict {
    Parse(FieldPatterns, text)
  }

  /**
   * The loop of parse_all_fields over the items of a table with distinct
   * names: each pattern runs once, and its field's name is stored with the
   * stripped group 1 of the leftmost match, or None.
   */
  method FillFields(table: seq<(string, Pattern)>, rawText: string) returns (data: Dict)
    requires forall i, j :: 0 <= i < j < |table| ==> table[i].0 != table[j].0
    ensures data == Parse(table, rawText)
  {
    data := [];
    for k := 0 to |table|
      invariant |data| == k
      invariant forall j :: 0 <= j < k ==> data[j] == (table[j].0, FieldValue(table[j].1, rawText))
    {
      var (field, pat) := table[k];
      assert field !in Keys(data);
      data := Put(data, field, FieldValue(pat, rawText));
    }
  }

  /**
   * parse_all_fields: the dict holds, under every name of the table and in
   * table order, the value of that name's pattern on the text.
   */
  method ParseAllFields(rawText: string) returns (data: Dict)
    ensures data == ParsedFields(rawText)
  {
    FieldNamesDistinct();
    data := FillFields(FieldPatterns, rawText);
  }

  /**
   * The parsed dict has exactly the table's names as keys, in table order,
   * and looking a field up by name gives that field's value.
   */
  lemma ParsedFieldsLookup(text: string)
    ensures Keys(ParsedFields(text)) == FieldNames() && Distinct(FieldNames())
    ensures forall k :: 0 <= k < |FieldPatterns| ==>
      Get(ParsedFields(text), FieldPatterns[k].0) == Some(FieldValue(FieldPatterns[k].1, text))
  {
    FieldNamesDistinct();
    var d := ParsedFields(text);
    assert Distinct(Keys(d));
    forall k | 0 <= k < |FieldPatterns|
      ensures Get(d, FieldPatterns[k].0) == Some(FieldValue(FieldPatterns[k].1, text))
    {
      DistinctIndex(d, k);
    }
  }
}
