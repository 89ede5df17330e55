/** The cleaning pass of the `/data` endpoint: before the records are validated
    against the response schema, every integer field whose raw value is the empty
    string or `null` is set to `null`. The pass updates the loaded objects in place
    and collects them, in order, into the response list. */
module Routes {
  import opened Utils

  /** The schema's integer fields. */
  const IntFields: seq<string> := ["end_year", "start_year", "impact", "intensity", "relevance", "likelihood"]

  /** `item[field] == "" or item[field] is None`. */
  predicate IsBlank(v: Json)
  {
    PyEq(v, JStr("")) || v == JNull
  }

  /** `item` after the inner loop has visited the fields `fs`. */
  function CleanFields(item: Item, fs: seq<string>): Item
  {
    map k | k in item :: if k in fs && IsBlank(item[k]) then JNull else item[k]
  }

  /** One item after the inner loop. */
  function CleanItem(item: Item): Item
  {
    CleanFields(item, IntFields)
  }

  /** The inner loop's step: visiting `field` sets it to `null` when it is present and
      blank, and changes nothing otherwise. */
  lemma CleanFieldsStep(orig: Item, fs: seq<string>, field: string)
    ensures var cur := CleanFields(orig, fs);
      CleanFields(orig, fs + [field]) ==
        if field in cur && IsBlank(cur[field]) then cur[field := JNull] else cur
  {
    var cur := CleanFields(orig, fs);
    var next := CleanFields(orig, fs + [field]);
    var expected := if field in cur && IsBlank(cur[field]) then cur[field := JNull] else cur;
    assert forall k :: k in fs + [field] <==> k in fs || k == field;
    assert next.Keys == expected.Keys;
    forall k | k in next ensures next[k] == expected[k] {
      if k == field && field in cur && !IsBlank(cur[field]) {
        assert !IsBlank(orig[k]);
      }
    }
  }

  /** The loop of `get_data` over `raw_data`, with the inner loop over `int_fields`:
      every item is cleaned in place, and the returned list holds the same items in
      the same order. */
  method CleanData(raw: array<Item>) returns (cleaned: seq<Item>)
    modifies raw
    ensures |cleaned| == raw.Length
    ensures cleaned == raw[..]
    ensures forall i :: 0 <= i < raw.Length ==> raw[i] == CleanItem(old(raw[i]))
  {
    cleaned := [];
    for i := 0 to raw.Length
      invariant cleaned == raw[..i]
      invariant forall j :: 0 <= j < i ==> raw[j] == CleanItem(old(raw[j]))
      invariant forall j :: i <= j < raw.Length ==> raw[j] == old(raw[j])
    {
      var item := raw[i];
      ghost var orig := item;
      assert IntFields[..0] == [];
      assert CleanFields(orig, []) == orig;
      for f := 0 to |IntFields|
        invariant item == CleanFields(orig, IntFields[..f])
        modifies {}
      {
        var field := IntFields[f];
        CleanFieldsStep(orig, IntFields[..f], field);
        assert IntFields[..f + 1] == IntFields[..f] + [field];
        if field in item && (PyEq(item[field], JStr("")) || item[field] == JNull) {
          item := item[field := JNull];
        }
      }
      assert IntFields[..|IntFields|] == IntFields;
      raw[i] := item;
      cleaned := cleaned + [item];
    }
  }

  /** Cleaning adds no field and removes none. */
  lemma CleanItemKeepsKeys(item: Item)
    ensures CleanItem(item).Keys == item.Keys
  {
  }

  /** A blank integer field becomes `null`; any other field, and an integer field with
      a value other than `""` or `null`, is left as it was. */
  lemma CleanItemFields(item: Item, k: string)
    requires k in item
    ensures k in IntFields && IsBlank(item[k]) ==> CleanItem(item)[k] == JNull
    ensures !(k in IntFields && IsBlank(item[k])) ==> CleanItem(item)[k] == item[k]
  {
  }

  /** After cleaning no integer field holds the empty string. */
  lemma CleanItemLeavesNoEmptyInt(item: Item)
    ensures forall k :: k in IntFields && k in CleanItem(item) ==> CleanItem(item)[k] != JStr("")
  {
  }

  /** Cleaning an item twice is cleaning it once. */
  lemma CleanItemIdempotent(item: Item)
    ensures CleanItem(CleanItem(item)) == CleanItem(item)
  {
  }

  /** `item[field] == ""` holds only for the empty string itself. */
  lemma BlankValues(v: Json)
    ensures IsBlank(v) <==> v == JStr("") || v == JNull
  {
    PyEqString(v, "");
  }
}
