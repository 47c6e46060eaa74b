/** Skip conditions: predicates over the current in-memory values of a form's fields. */
module Skipping {
  import opened Wrappers
  import opened Extractors
  import opened Fields

  /** The stock skip condition: skip when the sibling field `name` holds the text `value`. */
  datatype SkipCondition = SkipOnFieldValue(name: string, value: string)

  /** Evaluate a skip condition against the fields as they are now. A missing sibling gives false;
      so does a sibling holding nil or a file. */
  function ShouldBeSkipped(c: SkipCondition, fs: seq<Field>): (r: bool)
    ensures (forall i :: 0 <= i < |fs| ==> fs[i].name != c.name) ==> !r
    ensures r <==> exists i :: 0 <= i < |fs| && fs[i].name == c.name && fs[i].data == Txt(c.value)
                               && forall j :: 0 <= j < i ==> fs[j].name != c.name
  {
    match FindField(fs, c.name)
    case None => false
    case Some(f) => f.data == Txt(c.value)
  }

  /** A condition that holds keeps holding while the form only fills in values: values are never
      overwritten and names never change, so the same first sibling still holds the same text. */
  lemma SkipIsStable(c: SkipCondition, a: seq<Field>, b: seq<Field>)
    requires Extends(a, b) && ShouldBeSkipped(c, a)
    ensures ShouldBeSkipped(c, b)
  {
    var i :| 0 <= i < |a| && a[i].name == c.name && a[i].data == Txt(c.value)
              && forall j :: 0 <= j < i ==> a[j].name != c.name;
    assert b[i].name == c.name && b[i].data == Txt(c.value);
    assert forall j :: 0 <= j < i ==> b[j].name != c.name;
  }

  /** A condition reads only names and values: the requested flags, types and extractors of the
      fields do not affect it. */
  lemma SkipReadsOnlyValues(c: SkipCondition, a: seq<Field>, b: seq<Field>)
    requires |a| == |b|
    requires forall i :: 0 <= i < |a| ==> a[i].name == b[i].name && a[i].data == b[i].data
    ensures ShouldBeSkipped(c, a) == ShouldBeSkipped(c, b)
  {
    if ShouldBeSkipped(c, a) {
      var i :| 0 <= i < |a| && a[i].name == c.name && a[i].data == Txt(c.value)
                && forall j :: 0 <= j < i ==> a[j].name != c.name;
      assert b[i].name == c.name && b[i].data == Txt(c.value);
    }
    if ShouldBeSkipped(c, b) {
      var i :| 0 <= i < |b| && b[i].name == c.name && b[i].data == Txt(c.value)
                && forall j :: 0 <= j < i ==> b[j].name != c.name;
      assert a[i].name == c.name && a[i].data == Txt(c.value);
    }
  }
}
