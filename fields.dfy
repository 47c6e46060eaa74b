/** Fields of a form: the stored part of each field plus its attached extractor. */
module Fields {
  import opened Wrappers
  import opened Seqs
  import opened Telegram
  import opened Extractors

  /** One field of a form. `extractor` is not persisted; it is re-derived after a restore. */
  datatype Field = Field(
    name: string,
    data: FieldValue,
    wasRequested: bool,
    fieldType: FieldType,
    extractor: Option<Extractor>)

  /** The first field called `name`, or None when there is none. */
  function FindField(fs: seq<Field>, name: string): (r: Option<Field>)
    ensures r.None? <==> forall i :: 0 <= i < |fs| ==> fs[i].name != name
    ensures r.Some? ==> exists i :: 0 <= i < |fs| && fs[i] == r.value && fs[i].name == name
                                    && forall j :: 0 <= j < i ==> fs[j].name != name
  {
    match FirstIndex(fs, (f: Field) => f.name == name)
    case None => None
    case Some(i) => Some(fs[i])
  }

  /** Attach the extractor for the field's type. An already attached extractor is kept; an `Auto`
      type is first replaced by the type detected on the message. */
  function RestoreExtractor(f: Field, m: Message): (g: Field)
    ensures g.name == f.name && g.data == f.data && g.wasRequested == f.wasRequested
    ensures f.extractor.Some? ==> g == f
    ensures f.extractor.None? && f.fieldType == Auto ==>
              g.fieldType == DetermineMessageType(m) && g.extractor == Some(ExtractorFor(g.fieldType))
    ensures f.extractor.None? && f.fieldType != Auto ==>
              g.fieldType == f.fieldType && g.extractor == Some(ExtractorFor(f.fieldType))
    decreases if f.extractor.Some? then 0 else if f.fieldType == Auto then 2 else 1
  {
    if f.extractor.Some? then f
    else if f.fieldType == Auto then RestoreExtractor(f.(fieldType := DetermineMessageType(m)), m)
    else f.(extractor := Some(ExtractorFor(f.fieldType)))
  }

  /** Once restored, a field keeps its resolved type: restoring it again after its extractor was
      dropped (a save and a reload) with any other message changes nothing. */
  lemma ResolvedTypeIsPermanent(f: Field, m1: Message, m2: Message)
    requires f.extractor.None?
    ensures var g := RestoreExtractor(f, m1);
            g.fieldType != Auto && RestoreExtractor(g.(extractor := None), m2) == g
  {
  }

  /** `b` is `a` after the engine ran: same names, types and extractors; every value that was set
      is kept; every field that was requested stays requested. */
  ghost predicate Extends(a: seq<Field>, b: seq<Field>) {
    && |a| == |b|
    && forall i :: 0 <= i < |a| ==>
         && b[i].name == a[i].name
         && b[i].fieldType == a[i].fieldType
         && b[i].extractor == a[i].extractor
         && (a[i].data != Nil ==> b[i].data == a[i].data)
         && (a[i].wasRequested ==> b[i].wasRequested)
  }

  /** Extending is transitive. */
  lemma ExtendsTrans(a: seq<Field>, b: seq<Field>, c: seq<Field>)
    requires Extends(a, b) && Extends(b, c)
    ensures Extends(a, c)
  {
  }

  /** Translate every entry of a list of keys. */
  function TranslateList(keys: seq<string>, lang: Lang): (r: seq<string>)
    ensures |r| == |keys|
    ensures forall i :: 0 <= i < |keys| ==> r[i] == lang(keys[i])
  {
    if keys == [] then [] else [lang(keys[0])] + TranslateList(keys[1..], lang)
  }
}
