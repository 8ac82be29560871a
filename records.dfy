/** A listing record as the feed delivers it: field names to text, with
    `null` for a missing or empty value, and the `a || b || ''` field
    fallbacks read over it. */
module Records {
  import opened Js

  type Record = map<string, Option<string>>

  /** `rec[key] || ''`: the text of a field, "" when it is absent, null or empty. */
  function Get(rec: Record, key: string): (v: string)
    ensures v != "" <==> key in rec && rec[key].Some? && rec[key].value != ""
    ensures v != "" ==> v == rec[key].value
  {
    if key in rec && rec[key].Some? then rec[key].value else ""
  }

  /** `rec[k1] || rec[k2] || ... || ''`: the first truthy field, or "". */
  function FirstOf(rec: Record, keys: seq<string>): (v: string)
    ensures v == "" <==> forall i :: 0 <= i < |keys| ==> Get(rec, keys[i]) == ""
    ensures v != "" ==> exists i :: FirstFilledAt(rec, keys, i, v)
  {
    if keys == [] then ""
    else if Get(rec, keys[0]) != "" then
      assert FirstFilledAt(rec, keys, 0, Get(rec, keys[0]));
      Get(rec, keys[0])
    else
      var rest := FirstOf(rec, keys[1..]);
      if rest != "" then
        var i :| FirstFilledAt(rec, keys[1..], i, rest);
        FirstFilledStep(rec, keys, i, rest);
        rest
      else rest
  }

  /** `v` is the field under `keys[i]`, and every earlier key is empty. */
  predicate FirstFilledAt(rec: Record, keys: seq<string>, i: int, v: string) {
    0 <= i < |keys| && v == Get(rec, keys[i]) && forall j :: 0 <= j < i ==> Get(rec, keys[j]) == ""
  }

  lemma FirstFilledStep(rec: Record, keys: seq<string>, i: int, v: string)
    requires keys != [] && Get(rec, keys[0]) == "" && FirstFilledAt(rec, keys[1..], i, v)
    ensures FirstFilledAt(rec, keys, i + 1, v)
  {
    forall j | 0 <= j < i + 1 ensures Get(rec, keys[j]) == "" {
      if j > 0 {
        assert keys[j] == keys[1..][j - 1];
      }
    }
  }

  /** `rec[k] || null` for a text field. */
  function OrNullText(rec: Record, key: string): (v: Option<string>)
    ensures v.Some? <==> Get(rec, key) != ""
    ensures v.Some? ==> v.value == Get(rec, key)
  {
    if Get(rec, key) != "" then Some(Get(rec, key)) else None
  }
}
