/** The form engine: a per-user form whose cursor walks its fields, one inbound message at a time. */
module Forms {
  import opened Wrappers
  import opened Telegram
  import opened Extractors
  import opened Fields
  import opened Skipping
  import opened Descriptors
  import opened FieldLogic
  import opened Storage

  const InvalidFieldValueErrorTr := "wizard.errors.field.invalid.value"
  const InvalidFieldValueTypeErrorTr := "wizard.errors.field.invalid.type"
  const MissingStateErrorTr := "wizard.errors.state.missing"

  /** The resources a form sends and saves through. */
  datatype Env = Env(bot: Bot, stateStorage: StateStorage)

  /** How one call of the engine ended. */
  datatype Outcome =
    | ActionRun                   // the form's action was called with all the fields
    | MissingAction(reply: Sent)  // the form has no action: the "missing state" reply was sent
    | TypeMismatch(reply: Sent)   // the answer was of the wrong kind
    | Invalid(reply: Sent)        // the answer failed validation
    | Prompted(reply: Sent)       // a field was asked for and the form was saved

  /** What the bot sends for an outcome. */
  function Replies(o: Outcome): (r: seq<Sent>)
    ensures |r| == (if o.ActionRun? then 0 else 1)
  {
    if o.ActionRun? then [] else [o.reply]
  }

  /** Fields, cursor and outcome after one call of the engine. */
  datatype Transition = Transition(fields: seq<Field>, index: nat, outcome: Outcome)

  /** Whether a field is passed over because of its skip condition. */
  function SkipField(d: FieldDescriptor, fs: seq<Field>): (r: bool)
    reads d
    ensures d.skipIf.None? ==> !r
    ensures d.skipIf.Some? ==>
              (r <==> exists i :: 0 <= i < |fs| && fs[i].name == d.skipIf.value.name
                                  && fs[i].data == Txt(d.skipIf.value.value)
                                  && forall j :: 0 <= j < i ==> fs[j].name != d.skipIf.value.name)
  {
    d.skipIf.Some? && ShouldBeSkipped(d.skipIf.value, fs)
  }

  /** What the loop needs on the fields it reaches with message `m`: a descriptor for every field it
      finds without a value, and an extractor for every such field that was already asked for. A
      field the loop does not reach in this call (one after the field it stops on) needs neither. */
  ghost predicate Attached(fs: seq<Field>, ds: seq<FieldDescriptor?>, index: nat, env: RequestEnv, m: Message)
    reads ds
    decreases |fs| - index
  {
    && |ds| == |fs|
    && (index < |fs| ==>
          if fs[index].data != Nil then Attached(fs, ds, index + 1, env, m)
          else
            && ds[index] != null
            && (SkipField(ds[index], fs) ==> Attached(fs, ds, index + 1, env, m))
            && (!SkipField(ds[index], fs) && fs[index].wasRequested ==>
                  && fs[index].extractor.Some?
                  && var v := Extract(fs[index].extractor.value, m);
                     v != Nil && Validate(ds[index], env, m).None? ==>
                       Attached(fs[index := fs[index].(data := v)], ds, index + 1, env, m)))
  }

  /** A descriptor for every field from the cursor on that has no value, and an extractor for every
      such field already asked for: what a restored form has, whatever the message. */
  ghost predicate Described(fs: seq<Field>, ds: seq<FieldDescriptor?>, index: nat) {
    && |ds| == |fs|
    && forall i :: index <= i < |fs| && fs[i].data == Nil ==>
         ds[i] != null && (fs[i].wasRequested ==> fs[i].extractor.Some?)
  }

  /** A described form is ready for the loop whatever the message. */
  lemma {:induction false} DescribedIsAttached(fs: seq<Field>, ds: seq<FieldDescriptor?>, index: nat,
                                               env: RequestEnv, m: Message)
    requires Described(fs, ds, index)
    ensures Attached(fs, ds, index, env, m)
    decreases |fs| - index
  {
    if index < |fs| {
      if fs[index].data != Nil || SkipField(ds[index], fs) {
        DescribedIsAttached(fs, ds, index + 1, env, m);
      } else if fs[index].wasRequested {
        var v := Extract(fs[index].extractor.value, m);
        if v != Nil && Validate(ds[index], env, m).None? {
          DescribedIsAttached(fs[index := fs[index].(data := v)], ds, index + 1, env, m);
        }
      }
    }
  }

  /** The transition loop, one pass per field: past the end run the action; pass over a field that
      has a value or is skipped; take the answer to a field already asked for, or ask for it. */
  function Run(fs: seq<Field>, ds: seq<FieldDescriptor?>, index: nat, hasAction: bool,
               env: RequestEnv, m: Message): (r: Transition)
    requires Attached(fs, ds, index, env, m)
    reads ds
    ensures |r.fields| == |fs| && index <= r.index
    ensures r.outcome.ActionRun? ==> hasAction
    decreases |fs| - index
  {
    if index >= |fs| then
      Transition(fs, index, if hasAction then ActionRun else MissingAction(Plain(env.lang(MissingStateErrorTr))))
    else if fs[index].data != Nil || SkipField(ds[index], fs) then
      Run(fs, ds, index + 1, hasAction, env, m)
    else if fs[index].wasRequested then
      var f := fs[index];
      var v := Extract(f.extractor.value, m);
      if v == Nil then
        Transition(fs, index, TypeMismatch(Plain(env.lang(InvalidFieldValueTypeErrorTr) + env.lang(f.fieldType))))
      else
        match Validate(ds[index], env, m)
        case Some(err) =>
          Transition(fs, index, Invalid(Markdown(env.lang(InvalidFieldValueErrorTr) + env.lang(err))))
        case None =>
          Run(fs[index := f.(data := v)], ds, index + 1, hasAction, env, m)
    else
      Transition(fs[index := fs[index].(wasRequested := true)], index,
                 Prompted(Prompt(ds[index], fs[index], fs, env, m)))
  }

  /** Where one call leaves the cursor and how it ends. The cursor only moves forward and never
      past the end; the action runs, or its absence is reported, exactly when the cursor is past
      the end, and a call on a form already past the end changes nothing. */
  lemma {:induction false} RunOutcome(fs: seq<Field>, ds: seq<FieldDescriptor?>, index: nat, hasAction: bool,
                                      env: RequestEnv, m: Message)
    requires Attached(fs, ds, index, env, m)
    ensures var r := Run(fs, ds, index, hasAction, env, m);
      && |r.fields| == |fs|
      && index <= r.index
      && (index <= |fs| ==> r.index <= |fs|)
      && ((r.outcome.ActionRun? || r.outcome.MissingAction?) <==> r.index >= |fs|)
      && (r.outcome.ActionRun? <==> r.index >= |fs| && hasAction)
      && (index >= |fs| ==> r.fields == fs && r.index == index)
    decreases |fs| - index
  {
    if index >= |fs| {
    } else if fs[index].data != Nil || SkipField(ds[index], fs) {
      RunOutcome(fs, ds, index + 1, hasAction, env, m);
    } else if fs[index].wasRequested {
      var f := fs[index];
      var v := Extract(f.extractor.value, m);
      if v != Nil && Validate(ds[index], env, m).None? {
        RunOutcome(fs[index := f.(data := v)], ds, index + 1, hasAction, env, m);
      }
    }
  }

  /** Values are only filled in, never overwritten; names, types and extractors never change, and
      requested flags are never cleared. */
  lemma {:induction false} RunExtends(fs: seq<Field>, ds: seq<FieldDescriptor?>, index: nat, hasAction: bool,
                                      env: RequestEnv, m: Message)
    requires Attached(fs, ds, index, env, m)
    ensures Extends(fs, Run(fs, ds, index, hasAction, env, m).fields)
    decreases |fs| - index
  {
    if index >= |fs| {
    } else if fs[index].data != Nil || SkipField(ds[index], fs) {
      RunExtends(fs, ds, index + 1, hasAction, env, m);
    } else if fs[index].wasRequested {
      var f := fs[index];
      var v := Extract(f.extractor.value, m);
      if v != Nil && Validate(ds[index], env, m).None? {
        var fs' := fs[index := f.(data := v)];
        RunExtends(fs', ds, index + 1, hasAction, env, m);
        ExtendsTrans(fs, fs', Run(fs', ds, index + 1, hasAction, env, m).fields);
      }
    }
  }

  /** Only the fields between the old and the new cursor change, and only the field at the new
      cursor can become requested. */
  lemma RunTouches(fs: seq<Field>, ds: seq<FieldDescriptor?>, index: nat, hasAction: bool,
                   env: RequestEnv, m: Message)
    requires Attached(fs, ds, index, env, m)
    ensures var r := Run(fs, ds, index, hasAction, env, m);
      && |r.fields| == |fs|
      && (forall i :: 0 <= i < |fs| && (i < index || r.index < i) ==> r.fields[i] == fs[i])
      && (forall i :: 0 <= i < |fs| && i != r.index ==> r.fields[i].wasRequested == fs[i].wasRequested)
  {
    RunKeepsOutside(fs, ds, index, hasAction, env, m);
    RunKeepsRequested(fs, ds, index, hasAction, env, m);
  }

  /** The fields before the old cursor and after the new one are left as they were. */
  lemma {:induction false} RunKeepsOutside(fs: seq<Field>, ds: seq<FieldDescriptor?>, index: nat, hasAction: bool,
                                           env: RequestEnv, m: Message)
    requires Attached(fs, ds, index, env, m)
    ensures var r := Run(fs, ds, index, hasAction, env, m);
      forall i :: 0 <= i < |fs| && (i < index || r.index < i) ==> r.fields[i] == fs[i]
    decreases |fs| - index
  {
    if index >= |fs| {
    } else if fs[index].data != Nil || SkipField(ds[index], fs) {
      RunKeepsOutside(fs, ds, index + 1, hasAction, env, m);
    } else if fs[index].wasRequested {
      var f := fs[index];
      var v := Extract(f.extractor.value, m);
      if v != Nil && Validate(ds[index], env, m).None? {
        var fs' := fs[index := f.(data := v)];
        RunKeepsOutside(fs', ds, index + 1, hasAction, env, m);
      }
    }
  }

  /** Only the field at the new cursor can change whether it was asked for. */
  lemma {:induction false} RunKeepsRequested(fs: seq<Field>, ds: seq<FieldDescriptor?>, index: nat, hasAction: bool,
                                             env: RequestEnv, m: Message)
    requires Attached(fs, ds, index, env, m)
    ensures var r := Run(fs, ds, index, hasAction, env, m);
      forall i :: 0 <= i < |fs| && i != r.index ==> r.fields[i].wasRequested == fs[i].wasRequested
    decreases |fs| - index
  {
    if index >= |fs| {
    } else if fs[index].data != Nil || SkipField(ds[index], fs) {
      RunKeepsRequested(fs, ds, index + 1, hasAction, env, m);
    } else if fs[index].wasRequested {
      var f := fs[index];
      var v := Extract(f.extractor.value, m);
      if v != Nil && Validate(ds[index], env, m).None? {
        var fs' := fs[index := f.(data := v)];
        RunKeepsRequested(fs', ds, index + 1, hasAction, env, m);
      }
    }
  }

  /** A prompt leaves the cursor on an empty field that is now requested; a failed answer leaves
      the field it was for as it was. */
  lemma {:induction false} RunStops(fs: seq<Field>, ds: seq<FieldDescriptor?>, index: nat, hasAction: bool,
                                    env: RequestEnv, m: Message)
    requires Attached(fs, ds, index, env, m)
    ensures var r := Run(fs, ds, index, hasAction, env, m);
      && |r.fields| == |fs|
      && (r.outcome.Prompted? ==>
            r.index < |fs| && r.fields[r.index].data == Nil
            && r.fields[r.index].wasRequested && !fs[r.index].wasRequested)
      && (r.outcome.TypeMismatch? || r.outcome.Invalid? ==>
            r.index < |fs| && fs[r.index].wasRequested && fs[r.index].data == Nil
            && r.fields[r.index] == fs[r.index])
    decreases |fs| - index
  {
    RunOutcome(fs, ds, index, hasAction, env, m);
    if index >= |fs| {
    } else if fs[index].data != Nil || SkipField(ds[index], fs) {
      RunStops(fs, ds, index + 1, hasAction, env, m);
    } else if fs[index].wasRequested {
      var f := fs[index];
      var v := Extract(f.extractor.value, m);
      if v != Nil && Validate(ds[index], env, m).None? {
        var fs' := fs[index := f.(data := v)];
        RunOutcome(fs', ds, index + 1, hasAction, env, m);
        RunStops(fs', ds, index + 1, hasAction, env, m);
      }
    }
  }

  /** Everything one call can do to a form, in one statement. */
  lemma RunFrame(fs: seq<Field>, ds: seq<FieldDescriptor?>, index: nat, hasAction: bool,
                 env: RequestEnv, m: Message)
    requires Attached(fs, ds, index, env, m)
    ensures var r := Run(fs, ds, index, hasAction, env, m);
      && index <= r.index
      && (index <= |fs| ==> r.index <= |fs|)
      && ((r.outcome.ActionRun? || r.outcome.MissingAction?) <==> r.index >= |fs|)
      && Extends(fs, r.fields)
      && (forall i :: 0 <= i < |fs| && (i < index || r.index < i) ==> r.fields[i] == fs[i])
      && (forall i :: 0 <= i < |fs| && i != r.index ==> r.fields[i].wasRequested == fs[i].wasRequested)
      && (r.outcome.Prompted? ==>
            r.index < |fs| && r.fields[r.index].data == Nil
            && r.fields[r.index].wasRequested && !fs[r.index].wasRequested)
      && (r.outcome.TypeMismatch? || r.outcome.Invalid? ==>
            r.index < |fs| && fs[r.index].wasRequested && fs[r.index].data == Nil
            && r.fields[r.index] == fs[r.index])
  {
    RunOutcome(fs, ds, index, hasAction, env, m);
    RunExtends(fs, ds, index, hasAction, env, m);
    RunTouches(fs, ds, index, hasAction, env, m);
    RunStops(fs, ds, index, hasAction, env, m);
  }

  /** The fields after the cursor have not been asked for yet: true of a new form, and of every
      form the engine saves. */
  ghost predicate WellFormed(fs: seq<Field>, index: nat) {
    forall i :: index < i < |fs| ==> !fs[i].wasRequested
  }

  /** On a well-formed form, a failed answer changes nothing at all: the cursor stays where it was
      and no field changes, so no state needs saving. */
  lemma RunFailureChangesNothing(fs: seq<Field>, ds: seq<FieldDescriptor?>, index: nat, hasAction: bool,
                                 env: RequestEnv, m: Message)
    requires Attached(fs, ds, index, env, m) && WellFormed(fs, index)
    ensures var r := Run(fs, ds, index, hasAction, env, m);
            r.outcome.TypeMismatch? || r.outcome.Invalid? ==> r.index == index && r.fields == fs
  {
    var r := Run(fs, ds, index, hasAction, env, m);
    RunFrame(fs, ds, index, hasAction, env, m);
    if r.outcome.TypeMismatch? || r.outcome.Invalid? {
      assert r.index == index;
      assert forall i :: 0 <= i < |fs| ==> r.fields[i] == fs[i];
    }
  }

  /** The engine keeps forms well-formed, so what it saves is well-formed too. */
  lemma RunKeepsWellFormed(fs: seq<Field>, ds: seq<FieldDescriptor?>, index: nat, hasAction: bool,
                           env: RequestEnv, m: Message)
    requires Attached(fs, ds, index, env, m) && WellFormed(fs, index)
    ensures var r := Run(fs, ds, index, hasAction, env, m);
            WellFormed(r.fields, r.index)
  {
    RunFrame(fs, ds, index, hasAction, env, m);
  }

  /** Field `i` is resolved: it has a value, or its skip condition holds on the current values. */
  ghost predicate Passed(fs: seq<Field>, ds: seq<FieldDescriptor?>, i: nat)
    reads ds
    requires |ds| == |fs| && i < |fs|
  {
    fs[i].data != Nil || (ds[i] != null && SkipField(ds[i], fs))
  }

  /** Every field before the cursor is resolved. */
  ghost predicate CursorInvariant(fs: seq<Field>, ds: seq<FieldDescriptor?>, index: nat)
    reads ds
  {
    |ds| == |fs| && index <= |fs| && forall i :: 0 <= i < index ==> Passed(fs, ds, i)
  }

  /** Values only being filled in, a resolved field stays resolved. */
  lemma PassedIsStable(a: seq<Field>, b: seq<Field>, ds: seq<FieldDescriptor?>, i: nat)
    requires |ds| == |a| && i < |a| && Extends(a, b) && Passed(a, ds, i)
    ensures Passed(b, ds, i)
  {
    if a[i].data == Nil {
      SkipIsStable(ds[i].skipIf.value, a, b);
    }
  }

  /** Filling in the field under the cursor moves the cursor invariant one field on. */
  lemma FillKeepsCursor(fs: seq<Field>, ds: seq<FieldDescriptor?>, index: nat, v: FieldValue)
    requires CursorInvariant(fs, ds, index) && index < |fs| && fs[index].data == Nil && v != Nil
    ensures CursorInvariant(fs[index := fs[index].(data := v)], ds, index + 1)
  {
    var fs' := fs[index := fs[index].(data := v)];
    assert Extends(fs, fs');
    forall i | 0 <= i < index + 1 ensures Passed(fs', ds, i) {
      if i < index {
        PassedIsStable(fs, fs', ds, i);
      }
    }
  }

  /** Marking the field under the cursor requested keeps the cursor invariant, and the field stays
      unresolved. */
  lemma RequestKeepsCursor(fs: seq<Field>, ds: seq<FieldDescriptor?>, index: nat)
    requires CursorInvariant(fs, ds, index) && index < |fs| && !Passed(fs, ds, index)
    ensures CursorInvariant(fs[index := fs[index].(wasRequested := true)], ds, index)
    ensures !Passed(fs[index := fs[index].(wasRequested := true)], ds, index)
  {
    var fs' := fs[index := fs[index].(wasRequested := true)];
    assert Extends(fs, fs');
    forall i | 0 <= i < index ensures Passed(fs', ds, i) {
      PassedIsStable(fs, fs', ds, i);
    }
    if ds[index] != null && ds[index].skipIf.Some? {
      SkipReadsOnlyValues(ds[index].skipIf.value, fs, fs');
    }
  }

  /** After a call the cursor is on the first unresolved field, or past the end: every field before
      it is resolved and the one under it is not. In particular the action only ever runs on a form
      whose every field is filled in or skipped. */
  lemma {:induction false} RunAdvancesCursor(fs: seq<Field>, ds: seq<FieldDescriptor?>, index: nat, hasAction: bool,
                                             env: RequestEnv, m: Message)
    requires Attached(fs, ds, index, env, m) && CursorInvariant(fs, ds, index)
    ensures var r := Run(fs, ds, index, hasAction, env, m);
            && CursorInvariant(r.fields, ds, r.index)
            && (r.index < |fs| ==> !Passed(r.fields, ds, r.index))
            && (r.outcome.ActionRun? ==> forall i :: 0 <= i < |fs| ==> Passed(r.fields, ds, i))
    decreases |fs| - index
  {
    RunOutcome(fs, ds, index, hasAction, env, m);
    if index >= |fs| {
    } else if fs[index].data != Nil || SkipField(ds[index], fs) {
      RunAdvancesCursor(fs, ds, index + 1, hasAction, env, m);
    } else if fs[index].wasRequested {
      var f := fs[index];
      var v := Extract(f.extractor.value, m);
      if v != Nil && Validate(ds[index], env, m).None? {
        FillKeepsCursor(fs, ds, index, v);
        RunAdvancesCursor(fs[index := f.(data := v)], ds, index + 1, hasAction, env, m);
      }
    } else {
      RequestKeepsCursor(fs, ds, index);
    }
  }

  // The three-call scenario of the engine's own test: a prefilled field `n1`, a validated text
  // field `n2`, and a text field `n3` that is skipped when `n2` holds `value`.

  /** First call: the prefilled field is passed over (and stays unrequested); the second field is
      asked for and the cursor stops on it. */
  lemma ScenarioAsks(n1: string, n2: string, n3: string, value: string, d2: FieldDescriptor,
                     d3: FieldDescriptor, env: RequestEnv, m: Message)
    requires d2.skipIf.None?
    ensures var fs := [Field(n1, Txt(value), false, "", None), Field(n2, Nil, false, Text, None),
                       Field(n3, Nil, false, Text, None)];
            Run(fs, [null, d2, d3], 0, true, env, m)
            == Transition(fs[1 := fs[1].(wasRequested := true)], 1, Prompted(Prompt(d2, fs[1], fs, env, m)))
  {
    var fs := [Field(n1, Txt(value), false, "", None), Field(n2, Nil, false, Text, None),
               Field(n3, Nil, false, Text, None)];
    assert Run(fs, [null, d2, d3], 0, true, env, m) == Run(fs, [null, d2, d3], 1, true, env, m);
  }

  /** Second call, with an answer the validator rejects: an error reply and no change at all. */
  lemma ScenarioRejects(n1: string, n2: string, n3: string, value: string, d2: FieldDescriptor,
                        d3: FieldDescriptor, env: RequestEnv, m: Message)
    requires d2.validator.Some? && d2.skipIf.None? && !d2.disableKeyboardValidation
    requires d2.replyKeyboardBuilder.None? && d2.inlineKeyboardAnswers == []
    requires d2.validator.value(m, env.lang).Some?
    ensures var fs := [Field(n1, Txt(value), false, "", None), Field(n2, Nil, true, Text, Some(TextExtractor)),
                       Field(n3, Nil, false, Text, None)];
            var r := Run(fs, [null, d2, d3], 1, true, env, m);
            r.fields == fs && r.index == 1 && r.outcome.Invalid?
  {
  }

  /** Third call, with the expected answer: the second field is filled in, which makes the third
      field skip in the same call, and the action runs. */
  lemma ScenarioAccepts(n1: string, n2: string, n3: string, value: string, d2: FieldDescriptor,
                        d3: FieldDescriptor, env: RequestEnv, m: Message)
    requires n1 != n2 && d2.skipIf.None? && !d2.disableKeyboardValidation
    requires d2.replyKeyboardBuilder.None? && d2.inlineKeyboardAnswers == []
    requires d2.validator.None? || d2.validator.value(m, env.lang).None?
    requires d3.skipIf == Some(SkipOnFieldValue(n2, value)) && m.text == value
    ensures var fs := [Field(n1, Txt(value), false, "", None), Field(n2, Nil, true, Text, Some(TextExtractor)),
                       Field(n3, Nil, false, Text, None)];
            Run(fs, [null, d2, d3], 1, true, env, m) == Transition(fs[1 := fs[1].(data := Txt(value))], 3, ActionRun)
  {
    var fs := [Field(n1, Txt(value), false, "", None), Field(n2, Nil, true, Text, Some(TextExtractor)),
               Field(n3, Nil, false, Text, None)];
    var fs' := fs[1 := fs[1].(data := Txt(value))];
    assert FindField(fs', n2) == Some(fs'[1]);
    assert Run(fs', [null, d2, d3], 2, true, env, m) == Run(fs', [null, d2, d3], 3, true, env, m);
  }

  /** A field the loop does not reach needs no descriptor: a fresh form whose first field is asked
      for may be followed by a prefilled field with a nil value and no descriptor. */
  lemma UnreachedFieldNeedsNoDescriptor(a: string, b: string, d: FieldDescriptor, env: RequestEnv, m: Message)
    requires d.skipIf.None?
    ensures var fs := [Field(a, Nil, false, Text, Some(TextExtractor)), Field(b, Nil, false, "", None)];
            && Attached(fs, [d, null], 0, env, m)
            && !Described(fs, [d, null], 0)
            && Run(fs, [d, null], 0, true, env, m).outcome.Prompted?
            && Run(fs, [d, null], 0, true, env, m).index == 0
  {
    var fs := [Field(a, Nil, false, Text, Some(TextExtractor)), Field(b, Nil, false, "", None)];
    assert !SkipField(d, fs);
    assert fs[1].data == Nil;
  }

  /** The field loop of the engine: walk from the cursor, passing over resolved fields and taking
      answers, until the action is due, an answer fails, or a field must be asked for. */
  method Advance(fs0: seq<Field>, ds: seq<FieldDescriptor?>, index: nat, hasAction: bool,
                 env: RequestEnv, m: Message) returns (t: Transition)
    requires Attached(fs0, ds, index, env, m)
    ensures t == Run(fs0, ds, index, hasAction, env, m) && |t.fields| == |fs0|
  {
    var fs: seq<Field>, i: nat := fs0, index;
    var outcome: Outcome;
    while true
      invariant Attached(fs, ds, i, env, m) && |fs| == |fs0|
      invariant Run(fs, ds, i, hasAction, env, m) == Run(fs0, ds, index, hasAction, env, m)
      decreases |fs| - i
    {
      if i >= |fs| {
        outcome := if hasAction then ActionRun else MissingAction(Plain(env.lang(MissingStateErrorTr)));
        break;
      }
      if fs[i].data != Nil || SkipField(ds[i], fs) {
        assert Attached(fs, ds, i + 1, env, m);
        i := i + 1;
        continue;
      }
      var f := fs[i];
      if !f.wasRequested {
        outcome := Prompted(Prompt(ds[i], f, fs, env, m));
        fs := fs[i := f.(wasRequested := true)];
        break;
      }
      var v := Extract(f.extractor.value, m);
      if v == Nil {
        outcome := TypeMismatch(Plain(env.lang(InvalidFieldValueTypeErrorTr) + env.lang(f.fieldType)));
        break;
      }
      var err := Validate(ds[i], env, m);
      if err.Some? {
        outcome := Invalid(Markdown(env.lang(InvalidFieldValueErrorTr) + env.lang(err.value)));
        break;
      }
      assert Attached(fs[i := f.(data := v)], ds, i + 1, env, m);
      fs := fs[i := f.(data := v)];
      i := i + 1;
    }
    t := Transition(fs, i, outcome);
  }

  /** A form in progress. `fields`, `index` and `wizardType` are persisted; the resources, the
      form descriptor and the field descriptors (null for a prefilled field) are not. */
  class Form {
    var fields: seq<Field>
    var index: nat
    var wizardType: string
    var resources: Option<Env>
    var descriptor: FormDescriptor?
    var fieldDescriptors: seq<FieldDescriptor?>

    /** One descriptor slot per field. */
    ghost predicate Valid()
      reads this
    {
      |fieldDescriptors| == |fields|
    }

    /** A new, empty form for a handler type, linked to the form descriptor registered for it
        (null when none is). */
    constructor NewWizard(handlerTypeName: string, res: Env, registry: Registry)
      ensures Valid() && fields == [] && index == 0 && resources == Some(res)
      ensures wizardType == WizardName(handlerTypeName)
      ensures descriptor == registry.FindFormDescriptor(WizardName(handlerTypeName))
    {
      fields, index, fieldDescriptors := [], 0, [];
      wizardType := WizardName(handlerTypeName);
      resources := Some(res);
      descriptor := registry.FindFormDescriptor(WizardName(handlerTypeName));
    }

    /** A form decoded from a stored record: persisted parts only, nothing attached. */
    constructor FromRecord(rec: FormRecord)
      ensures Valid() && Record() == rec
      ensures fields == LoadAll(rec.fields) && index == rec.index && wizardType == rec.wizardType
      ensures resources.None? && descriptor == null
      ensures forall i :: 0 <= i < |fieldDescriptors| ==> fieldDescriptors[i] == null
    {
      fields := LoadAll(rec.fields);
      index := rec.index;
      wizardType := rec.wizardType;
      resources := None;
      descriptor := null;
      fieldDescriptors := seq(|rec.fields|, _ => null);
      FieldsRoundTrip(LoadAll(rec.fields), rec.fields);
    }

    /** What is saved for this form. */
    function Record(): (r: FormRecord)
      reads this
      ensures r.index == index && r.wizardType == wizardType
      ensures |LoadAll(r.fields)| == |fields|
      ensures forall i :: 0 <= i < |fields| ==> LoadAll(r.fields)[i] == fields[i].(extractor := None)
    {
      FieldsRoundTrip(fields, []);
      FormRecord(StoreAll(fields), index, wizardType)
    }

    /** Append an empty field of the given type. The form and the field must have descriptors:
        the source panics otherwise. */
    method AddEmptyField(name: string, fieldType: FieldType)
      requires Valid() && descriptor != null && name in descriptor.fields
      modifies this`fields, this`fieldDescriptors
      ensures Valid()
      ensures fields == old(fields) + [Field(name, Nil, false, fieldType, None)]
      ensures fieldDescriptors == old(fieldDescriptors) + [descriptor.fields[name]]
    {
      var d := descriptor.FindFieldDescriptor(name);
      fields := fields + [Field(name, Nil, false, fieldType, None)];
      fieldDescriptors := fieldDescriptors + [d];
    }

    /** Append a field that already has its value; it has the empty type and no descriptor. */
    method AddPrefilledField(name: string, value: FieldValue)
      requires Valid()
      modifies this`fields, this`fieldDescriptors
      ensures Valid()
      ensures fields == old(fields) + [Field(name, value, false, "", None)]
      ensures fieldDescriptors == old(fieldDescriptors) + [null]
    {
      fields := fields + [Field(name, value, false, "", None)];
      fieldDescriptors := fieldDescriptors + [null];
    }

    /** Re-attach what is not persisted to a form decoded from storage: the resources, the extractor
        of the field under the cursor, the form descriptor and every field's descriptor. The source
        indexes the field under the cursor, dereferences the form descriptor and panics on an
        unknown field name, hence the preconditions. */
    method PopulateRestored(m: Message, res: Env, registry: Registry)
      requires Valid() && index < |fields|
      requires wizardType in registry.descriptors
      requires forall i :: 0 <= i < |fields| ==> fields[i].name in registry.descriptors[wizardType].fields
      modifies this`resources, this`fields, this`descriptor, this`fieldDescriptors
      ensures Valid() && resources == Some(res)
      ensures descriptor == registry.descriptors[wizardType]
      ensures fields == old(fields)[index := RestoreExtractor(old(fields)[index], m)]
      ensures forall i :: 0 <= i < |fields| ==> fieldDescriptors[i] == descriptor.fields[fields[i].name]
    {
      resources := Some(res);
      fields := fields[index := RestoreExtractor(fields[index], m)];
      var fd := registry.FindFormDescriptor(wizardType);
      descriptor := fd;
      var ds := fieldDescriptors;
      var i := 0;
      while i < |fields|
        invariant i <= |fields| && |ds| == |fields|
        invariant forall j :: 0 <= j < i ==> ds[j] == fd.fields[fields[j].name]
      {
        ds := ds[i := fd.FindFieldDescriptor(fields[i].name)];
        i := i + 1;
      }
      fieldDescriptors := ds;
    }

    /** What ProcessNextField needs besides descriptors for the fields it reaches: resources and
        a form descriptor. */
    ghost predicate Ready()
      reads this
    {
      Valid() && resources.Some? && descriptor != null
    }

    /** Advance the form with one inbound message. The new fields, cursor and outcome are those of
        `Run`; the replies of the outcome are sent; the form is saved exactly when a field was
        asked for. */
    method ProcessNextField(env: RequestEnv, m: Message) returns (outcome: Outcome)
      requires Ready() && Attached(fields, fieldDescriptors, index, env, m)
      modifies this`fields, this`index, resources.value.bot, resources.value.stateStorage
      ensures Valid()
      ensures var r := old(Run(fields, fieldDescriptors, index, descriptor.action.Some?, env, m));
              fields == r.fields && index == r.index && outcome == r.outcome
      ensures resources.value.bot.sent == old(resources.value.bot.sent) + Replies(outcome)
      ensures outcome.Prompted? ==>
                resources.value.stateStorage.records
                == old(resources.value.stateStorage.records)[StateKey(m.fromId) := Record()]
      ensures !outcome.Prompted? ==>
                resources.value.stateStorage.records == old(resources.value.stateStorage.records)
    {
      var t := Advance(fields, fieldDescriptors, index, descriptor.action.Some?, env, m);
      fields, index, outcome := t.fields, t.index, t.outcome;
      if !outcome.ActionRun? {
        resources.value.bot.Send(outcome.reply);
      }
      if outcome.Prompted? {
        resources.value.stateStorage.SaveState(m.fromId, Record());
      }
    }
  }
}
