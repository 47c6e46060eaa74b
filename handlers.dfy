/** The router: which handler, stored form or default reply an inbound message goes to, and which
    handler a callback query goes to. */
module App {
  import opened Wrappers
  import opened Seqs
  import opened Telegram
  import opened Extractors
  import opened Fields
  import opened Descriptors
  import opened FieldLogic
  import opened Storage
  import opened Forms

  const DefaultMessageTr := "commands.default.message"
  const DefaultMessageOnCommandTr := "commands.default.message.on.command"

  // ---------------------------------------------------------------------------------------------
  // Messages

  /** Where a message goes. */
  datatype MessageRoute =
    | Handled(handler: nat)         // the first handler that claims it handles it
    | ResumeForm(record: FormRecord) // the user's stored form is restored and advanced
    | StateError(message: string)   // the store failed: logged, no reply
    | DefaultReply(key: string)     // nothing to do: the default reply is sent

  /** No handler claims the message. */
  predicate NoneCanHandle(hs: seq<MessageHandler>, m: Message) {
    forall i :: 0 <= i < |hs| ==> !hs[i].canHandle(m)
  }

  /** The routing decision for a message, given the result of looking up the user's stored form. */
  function RouteMessage(hs: seq<MessageHandler>, m: Message, state: Result<FormRecord, StorageError>)
    : (r: MessageRoute)
    ensures r.Handled? <==> !NoneCanHandle(hs, m)
    ensures r.Handled? ==>
              r.handler < |hs| && hs[r.handler].canHandle(m)
              && forall j :: 0 <= j < r.handler ==> !hs[j].canHandle(m)
    ensures r.ResumeForm? <==> NoneCanHandle(hs, m) && state.Success?
    ensures r.ResumeForm? ==> r.record == state.value
    ensures r.StateError? <==> NoneCanHandle(hs, m) && state.Failure? && state.error.Failed?
    ensures r.DefaultReply? <==> NoneCanHandle(hs, m) && state == Failure(NotFound)
    ensures r.DefaultReply? ==>
              r.key == (if m.isCommand then DefaultMessageOnCommandTr else DefaultMessageTr)
  {
    match FirstIndex(hs, (h: MessageHandler) => h.canHandle(m))
    case Some(i) => Handled(i)
    case None =>
      match state
      case Success(rec) => ResumeForm(rec)
      case Failure(Failed(msg)) => StateError(msg)
      case Failure(NotFound) =>
        DefaultReply(if m.isCommand then DefaultMessageOnCommandTr else DefaultMessageTr)
  }

  /** `names` lists, for some wizard types, field names the registry has descriptors for. */
  ghost predicate Covers(registry: Registry, names: map<string, set<string>>)
    reads registry, registry.descriptors.Values
  {
    forall t :: t in names ==> t in registry.descriptors && names[t] <= registry.descriptors[t].fields.Keys
  }

  /** A stored record the engine can resume: its wizard type is registered, every field name is
      registered for it, the cursor is on a field, and no field after the cursor was asked for. */
  ghost predicate Restorable(rec: FormRecord, names: map<string, set<string>>) {
    && rec.wizardType in names
    && rec.index < |rec.fields|
    && (forall i :: rec.index < i < |rec.fields| ==> !rec.fields[i].wasRequested)
    && (forall i :: 0 <= i < |rec.fields| ==> rec.fields[i].name in names[rec.wizardType])
  }

  /** Every record in a store is resumable. */
  ghost predicate AllRestorable(records: map<string, FormRecord>, names: map<string, set<string>>) {
    forall k :: k in records ==> Restorable(records[k], names)
  }

  /** What looking up a user's form gives on a store holding `records`. */
  function Lookup(records: map<string, FormRecord>, uid: int): Result<FormRecord, StorageError> {
    if StateKey(uid) in records then Success(records[StateKey(uid)]) else Failure(NotFound)
  }

  /** Handle one inbound message. A claiming handler is called out to (its effects are not part of
      this model); otherwise the stored form is restored and advanced, or the default reply is
      sent. The form engine only ever saves records it can resume later. */
  method ProcessMessage(hs: seq<MessageHandler>, env: RequestEnv, m: Message,
                        bot: Bot, storage: StateStorage, registry: Registry, ghost names: map<string, set<string>>)
    returns (route: MessageRoute, outcome: Option<Outcome>)
    requires Covers(registry, names) && AllRestorable(storage.records, names)
    modifies bot, storage
    ensures route == RouteMessage(hs, m, Lookup(old(storage.records), m.fromId))
    ensures AllRestorable(storage.records, names)
    ensures outcome.Some? <==> route.ResumeForm?
    ensures route.Handled? || route.StateError? ==> bot.sent == old(bot.sent)
    ensures route.DefaultReply? ==> bot.sent == old(bot.sent) + [Plain(env.lang(route.key))]
    ensures outcome.Some? ==> bot.sent == old(bot.sent) + Replies(outcome.value)
    ensures !(outcome.Some? && outcome.value.Prompted?) ==> storage.records == old(storage.records)
    ensures route.ResumeForm? ==>
              var t := old(ResumeRun(registry.descriptors[route.record.wizardType], route.record, env, m));
              && outcome == Some(t.outcome)
              && storage.records == StoreAfter(old(storage.records), m.fromId, t, route.record)
  {
    outcome := None;
    var found := FirstIndex(hs, (h: MessageHandler) => h.canHandle(m));
    if found.Some? {
      route := Handled(found.value);
      return;
    }
    var state;
    state, outcome := ProcessUnclaimed(env, m, bot, storage, registry, names);
    route := RouteMessage(hs, m, state);
  }

  /** The part of `ProcessMessage` after no handler claimed the message: resume the user's stored
      form, or send the default reply when there is none. */
  method ProcessUnclaimed(env: RequestEnv, m: Message, bot: Bot, storage: StateStorage, registry: Registry,
                          ghost names: map<string, set<string>>)
    returns (state: Result<FormRecord, StorageError>, outcome: Option<Outcome>)
    requires Covers(registry, names) && AllRestorable(storage.records, names)
    modifies bot, storage
    ensures state == Lookup(old(storage.records), m.fromId)
    ensures AllRestorable(storage.records, names)
    ensures outcome.Some? <==> state.Success?
    ensures state.Failure? ==>
              && storage.records == old(storage.records)
              && bot.sent == old(bot.sent) + [Plain(env.lang(if m.isCommand then DefaultMessageOnCommandTr else DefaultMessageTr))]
    ensures state.Success? ==>
              var t := old(ResumeRun(registry.descriptors[state.value.wizardType], state.value, env, m));
              && outcome == Some(t.outcome)
              && bot.sent == old(bot.sent) + Replies(t.outcome)
              && storage.records == StoreAfter(old(storage.records), m.fromId, t, state.value)
  {
    outcome := None;
    state := storage.GetCurrentState(m.fromId);
    if state.Success? {
      ghost var fd := registry.descriptors[state.value.wizardType];
      assert ResumeRun(fd, state.value, env, m) == old(ResumeRun(fd, state.value, env, m));
      var o := Resume(state.value, env, m, bot, storage, registry, names);
      outcome := Some(o);
    } else if state.error == NotFound {
      bot.Send(Plain(env.lang(if m.isCommand then DefaultMessageOnCommandTr else DefaultMessageTr)));
    }
  }

  /** Restore a stored form and advance it with the message: the outcome is the engine's on the
      restored form, only a prompt saves, and what it saves is resumable again. */
  method Resume(rec: FormRecord, env: RequestEnv, m: Message, bot: Bot, storage: StateStorage, registry: Registry,
                ghost names: map<string, set<string>>)
    returns (o: Outcome)
    requires Covers(registry, names) && Restorable(rec, names) && AllRestorable(storage.records, names)
    modifies bot, storage
    ensures AllRestorable(storage.records, names)
    ensures bot.sent == old(bot.sent) + Replies(o)
    ensures var t := old(ResumeRun(registry.descriptors[rec.wizardType], rec, env, m));
            && o == t.outcome
            && (o.Prompted? ==> storage.records == old(storage.records)[StateKey(m.fromId) := SavedRecord(t, rec)])
            && (!o.Prompted? ==> storage.records == old(storage.records))
            && storage.records == StoreAfter(old(storage.records), m.fromId, t, rec)
  {
    ghost var fd := registry.descriptors[rec.wizardType];
    ghost var t := ResumeRun(fd, rec, env, m);
    ResumeSavesRestorable(fd, rec, env, m, names);
    var form := Restore(rec, m, Env(bot, storage), registry, names);
    DescribedIsAttached(form.fields, form.fieldDescriptors, form.index, env, m);
    assert t == Run(form.fields, form.fieldDescriptors, form.index, form.descriptor.action.Some?, env, m);
    o := form.ProcessNextField(env, m);
    assert form.Record() == SavedRecord(t, rec);
    if o.Prompted? {
      SaveKeepsRestorable(old(storage.records), StateKey(m.fromId), SavedRecord(t, rec), names);
    }
  }

  /** The descriptors a restored form attaches to its fields: each field's by name. */
  ghost function FieldDescriptorsOf(fd: FormDescriptor, fs: seq<StoredField>): (ds: seq<FieldDescriptor?>)
    reads fd
    requires forall i :: 0 <= i < |fs| ==> fs[i].name in fd.fields
    ensures |ds| == |fs| && forall i :: 0 <= i < |fs| ==> ds[i] == fd.fields[fs[i].name]
  {
    if fs == [] then [] else FieldDescriptorsOf(fd, fs[..|fs| - 1]) + [fd.fields[fs[|fs| - 1].name]]
  }

  /** A record the form descriptor `fd` can resume: every field name has a descriptor, the cursor is
      on a field and no field after it was asked for. */
  ghost predicate ResumableBy(fd: FormDescriptor, rec: FormRecord)
    reads fd
  {
    && rec.index < |rec.fields|
    && (forall i :: rec.index < i < |rec.fields| ==> !rec.fields[i].wasRequested)
    && (forall i :: 0 <= i < |rec.fields| ==> rec.fields[i].name in fd.fields)
  }

  /** What the engine does to a stored form it resumes with message `m`: `Run` on the restored fields,
      with the descriptors attached by name and the action of `fd`. */
  ghost function ResumeRun(fd: FormDescriptor, rec: FormRecord, env: RequestEnv, m: Message): (t: Transition)
    reads fd, fd.fields.Values
    requires ResumableBy(fd, rec)
    ensures |t.fields| == |rec.fields| && rec.index <= t.index
  {
    var ds := FieldDescriptorsOf(fd, rec.fields);
    RestoredIsReady(rec, m, ds);
    DescribedIsAttached(Restored(rec, m), ds, rec.index, env, m);
    Run(Restored(rec, m), ds, rec.index, fd.action.Some?, env, m)
  }

  /** The record saved after a transition of a form of the same wizard type as `rec`. */
  function SavedRecord(t: Transition, rec: FormRecord): (saved: FormRecord)
    ensures saved.index == t.index && saved.wizardType == rec.wizardType
    ensures LoadAll(saved.fields) == seq(|t.fields|, i requires 0 <= i < |t.fields| => t.fields[i].(extractor := None))
  {
    FieldsRoundTrip(t.fields, []);
    FormRecord(StoreAll(t.fields), t.index, rec.wizardType)
  }

  /** When the engine prompts on a resumed form, the record it saves is resumable again. */
  lemma ResumeSavesRestorable(fd: FormDescriptor, rec: FormRecord, env: RequestEnv, m: Message,
                              names: map<string, set<string>>)
    requires ResumableBy(fd, rec) && Restorable(rec, names)
    ensures var t := ResumeRun(fd, rec, env, m);
            t.outcome.Prompted? ==> Restorable(SavedRecord(t, rec), names)
  {
    var fs := Restored(rec, m);
    var ds := FieldDescriptorsOf(fd, rec.fields);
    RestoredIsReady(rec, m, ds);
    DescribedIsAttached(fs, ds, rec.index, env, m);
    RunFrame(fs, ds, rec.index, fd.action.Some?, env, m);
    RunKeepsWellFormed(fs, ds, rec.index, fd.action.Some?, env, m);
    var r := Run(fs, ds, rec.index, fd.action.Some?, env, m);
    if r.outcome.Prompted? {
      SavedIsRestorable(rec, fs, r.fields, r.index, names);
    }
  }

  /** Decode a resumable record into a form ready for the engine, as the router does before
      advancing it. */
  method Restore(rec: FormRecord, m: Message, res: Env, registry: Registry, ghost names: map<string, set<string>>)
    returns (form: Form)
    requires Covers(registry, names) && Restorable(rec, names)
    ensures fresh(form) && form.Ready() && form.resources == Some(res)
    ensures form.fields == Restored(rec, m) && form.index == rec.index && form.wizardType == rec.wizardType
    ensures form.descriptor == registry.descriptors[rec.wizardType]
    ensures form.fieldDescriptors == FieldDescriptorsOf(form.descriptor, rec.fields)
    ensures Described(form.fields, form.fieldDescriptors, form.index) && WellFormed(form.fields, form.index)
  {
    form := new Form.FromRecord(rec);
    form.PopulateRestored(m, res, registry);
    RestoredIsReady(rec, m, form.fieldDescriptors);
    assert forall i :: 0 <= i < |rec.fields| ==> form.fields[i].name == rec.fields[i].name;
  }

  /** Saving a resumable record into a store of resumable records keeps every record resumable. */
  lemma SaveKeepsRestorable(records: map<string, FormRecord>, key: string, saved: FormRecord,
                            names: map<string, set<string>>)
    requires AllRestorable(records, names) && Restorable(saved, names)
    ensures AllRestorable(records[key := saved], names)
  {
  }

  /** The fields of a form restored from a resumable record: the field under the cursor gets its
      extractor back, and the engine can run on them. */
  function Restored(rec: FormRecord, m: Message): (fs: seq<Field>)
    requires rec.index < |rec.fields|
    ensures |fs| == |rec.fields|
  {
    LoadAll(rec.fields)[rec.index := RestoreExtractor(LoadAll(rec.fields)[rec.index], m)]
  }

  /** A resumable record, once restored with a descriptor for every field, is ready for the engine
      and well-formed. */
  lemma RestoredIsReady(rec: FormRecord, m: Message, ds: seq<FieldDescriptor?>)
    requires rec.index < |rec.fields|
    requires forall i :: rec.index < i < |rec.fields| ==> !rec.fields[i].wasRequested
    ensures |ds| == |rec.fields| && (forall i :: 0 <= i < |ds| ==> ds[i] != null) ==>
              Described(Restored(rec, m), ds, rec.index)
    ensures WellFormed(Restored(rec, m), rec.index)
  {
  }

  /** What the engine saves after a prompt on a restored form is resumable again: it only fills in
      values and sets requested flags, keeps the names, and leaves its cursor on a field. */
  lemma SavedIsRestorable(rec: FormRecord, fs: seq<Field>, fs': seq<Field>, index': nat,
                          names: map<string, set<string>>)
    requires Restorable(rec, names)
    requires |fs| == |rec.fields| && forall i :: 0 <= i < |fs| ==> fs[i].name == rec.fields[i].name
    requires Extends(fs, fs') && index' < |fs'| && WellFormed(fs', index')
    ensures Restorable(FormRecord(StoreAll(fs'), index', rec.wizardType), names)
  {
  }

  /** The store after the engine advanced the user's form `rec` to `t`, as the code does it: only a
      prompt saves; every other outcome leaves the store as it was. */
  function StoreAfter(records: map<string, FormRecord>, uid: int, t: Transition, rec: FormRecord)
    : map<string, FormRecord>
  {
    if t.outcome.Prompted? then records[StateKey(uid) := SavedRecord(t, rec)] else records
  }

  /** A failed answer saves nothing, so a field of automatic type stays automatic in the store and
      the user's next message, whatever its kind, is detected anew when the form is resumed. */
  lemma FailedAnswerRetypes(records: map<string, FormRecord>, fd: FormDescriptor, env: RequestEnv,
                            m1: Message, m2: Message)
    requires StateKey(m1.fromId) in records && m2.fromId == m1.fromId
    requires ResumableBy(fd, records[StateKey(m1.fromId)])
    requires var rec := records[StateKey(m1.fromId)]; rec.fields[rec.index].fieldType == Auto
    ensures var rec := records[StateKey(m1.fromId)];
            var t := ResumeRun(fd, rec, env, m1);
            t.outcome.TypeMismatch? || t.outcome.Invalid? ==>
              && Lookup(StoreAfter(records, m1.fromId, t, rec), m2.fromId) == Success(rec)
              && Restored(rec, m2)[rec.index].fieldType == DetermineMessageType(m2)
  {
  }

  /** As written, a form that completes is neither saved nor deleted: its last saved record stays in
      the store, so the same message sent again is taken as the answer to the last question once
      more and runs the action a second time. */
  lemma CompletedFormStaysStored(hs: seq<MessageHandler>, records: map<string, FormRecord>, fd: FormDescriptor,
                                 env: RequestEnv, m: Message)
    requires StateKey(m.fromId) in records && ResumableBy(fd, records[StateKey(m.fromId)])
    requires NoneCanHandle(hs, m)
    ensures var rec := records[StateKey(m.fromId)];
            var t := ResumeRun(fd, rec, env, m);
            var after := StoreAfter(records, m.fromId, t, rec);
            t.outcome.ActionRun? ==>
              && RouteMessage(hs, m, Lookup(after, m.fromId)) == ResumeForm(rec)
              && ResumeRun(fd, RouteMessage(hs, m, Lookup(after, m.fromId)).record, env, m).outcome.ActionRun?
  {
  }

  /** The store after advancing a form when a rejected answer also saves the form, so that the type
      resolved for an `<auto>` field is kept for the retry. */
  function StoreAfterKeepingType(records: map<string, FormRecord>, uid: int, t: Transition, rec: FormRecord)
    : map<string, FormRecord>
  {
    if t.outcome.TypeMismatch? || t.outcome.Invalid? then records[StateKey(uid) := SavedRecord(t, rec)]
    else StoreAfter(records, uid, t, rec)
  }

  /** With a rejected answer saving the form, the type resolved for the field under the cursor is
      concrete and survives: the retry is restored with that same type, whatever its message, and
      every record stays resumable. */
  lemma {:induction false} RetryKeepsResolvedType(records: map<string, FormRecord>, fd: FormDescriptor,
                                                  env: RequestEnv, m1: Message, m2: Message,
                                                  names: map<string, set<string>>)
    requires StateKey(m1.fromId) in records && m2.fromId == m1.fromId
    requires ResumableBy(fd, records[StateKey(m1.fromId)]) && AllRestorable(records, names)
    ensures var rec := records[StateKey(m1.fromId)];
            var t := ResumeRun(fd, rec, env, m1);
            var after := StoreAfterKeepingType(records, m1.fromId, t, rec);
            t.outcome.TypeMismatch? || t.outcome.Invalid? ==>
              && Lookup(after, m2.fromId) == Success(SavedRecord(t, rec))
              && SavedRecord(t, rec).index == rec.index
              && Restored(rec, m1)[rec.index].fieldType != Auto
              && Restored(SavedRecord(t, rec), m2)[rec.index].fieldType == Restored(rec, m1)[rec.index].fieldType
              && AllRestorable(after, names)
  {
    var rec := records[StateKey(m1.fromId)];
    var t := ResumeRun(fd, rec, env, m1);
    ResumeFailureChangesNothing(fd, rec, env, m1);
    if t.outcome.TypeMismatch? || t.outcome.Invalid? {
      var saved := SavedRecord(t, rec);
      assert LoadAll(saved.fields)[rec.index] == Restored(rec, m1)[rec.index].(extractor := None);
      assert Restorable(rec, names);
      SavedIsRestorable(rec, t.fields, t.fields, rec.index, names);
      SaveKeepsRestorable(records, StateKey(m1.fromId), saved, names);
    }
  }

  /** A rejected answer on a resumed form leaves the restored fields and the cursor as they were. */
  lemma ResumeFailureChangesNothing(fd: FormDescriptor, rec: FormRecord, env: RequestEnv, m: Message)
    requires ResumableBy(fd, rec)
    ensures var t := ResumeRun(fd, rec, env, m);
            t.outcome.TypeMismatch? || t.outcome.Invalid? ==>
              t.index == rec.index && t.fields == Restored(rec, m) && WellFormed(t.fields, t.index)
  {
    var fs := Restored(rec, m);
    var ds := FieldDescriptorsOf(fd, rec.fields);
    RestoredIsReady(rec, m, ds);
    DescribedIsAttached(fs, ds, rec.index, env, m);
    RunFailureChangesNothing(fs, ds, rec.index, fd.action.Some?, env, m);
  }

  /** The store after advancing a form when completion clears the user's record. */
  function StoreAfterClearing(records: map<string, FormRecord>, uid: int, t: Transition, rec: FormRecord)
    : map<string, FormRecord>
  {
    if t.outcome.ActionRun? then records - {StateKey(uid)} else StoreAfter(records, uid, t, rec)
  }

  /** With completion clearing the record, a completed form is final: the user's next message that
      no handler claims gets the default reply instead of running the action again, and every
      remaining record is still resumable. */
  lemma CompletionIsFinal(hs: seq<MessageHandler>, records: map<string, FormRecord>, fd: FormDescriptor,
                          env: RequestEnv, m: Message, m2: Message, names: map<string, set<string>>)
    requires StateKey(m.fromId) in records && ResumableBy(fd, records[StateKey(m.fromId)])
    requires NoneCanHandle(hs, m2) && m2.fromId == m.fromId
    requires AllRestorable(records, names)
    ensures var rec := records[StateKey(m.fromId)];
            var t := ResumeRun(fd, rec, env, m);
            var after := StoreAfterClearing(records, m.fromId, t, rec);
            t.outcome.ActionRun? ==>
              && RouteMessage(hs, m2, Lookup(after, m2.fromId))
                 == DefaultReply(if m2.isCommand then DefaultMessageOnCommandTr else DefaultMessageTr)
              && AllRestorable(after, names)
  {
  }

  /** `Resume` followed by clearing the user's record when the action ran: what the engine does
      when completion is final. */
  method ResumeAndClear(rec: FormRecord, env: RequestEnv, m: Message, bot: Bot, storage: StateStorage,
                        registry: Registry, ghost names: map<string, set<string>>)
    returns (o: Outcome)
    requires Covers(registry, names) && Restorable(rec, names) && AllRestorable(storage.records, names)
    modifies bot, storage
    ensures AllRestorable(storage.records, names)
    ensures bot.sent == old(bot.sent) + Replies(o)
    ensures var t := old(ResumeRun(registry.descriptors[rec.wizardType], rec, env, m));
            o == t.outcome && storage.records == StoreAfterClearing(old(storage.records), m.fromId, t, rec)
  {
    o := Resume(rec, env, m, bot, storage, registry, names);
    if o.ActionRun? {
      var _ := storage.DeleteState(m.fromId);
    }
  }

  // ---------------------------------------------------------------------------------------------
  // Callback queries

  /** A callback handler, known to the router by the prefix its callback data starts with. */
  datatype CallbackHandler = CallbackHandler(callbackPrefix: string)

  /** Where a callback query goes. */
  datatype CallbackRoute =
    | Ignored           // the data has no separator: logged and dropped
    | ToWizard          // the data carries the wizard's field prefix
    | ToHandler(i: nat) // the first callback handler with the same prefix
    | Unclaimed         // no handler has that prefix: nothing happens

  /** The text of `data` up to and including its first ':', or None when there is none. */
  function CallbackPrefix(data: string): (r: Option<string>)
    ensures r.None? <==> ':' !in data
    ensures r.Some? ==>
              0 < |r.value| <= |data| && r.value == data[..|r.value|]
              && r.value[|r.value| - 1] == ':' && ':' !in r.value[..|r.value| - 1]
  {
    match FirstIndex(data, (c: char) => c == ':')
    case None => None
    case Some(k) =>
      assert data[..k + 1][..k] == data[..k];
      Some(data[..k + 1])
  }

  /** A string whose only ':' is its last character is the callback prefix of anything it starts. */
  lemma PrefixOfComposed(p: string, rest: string)
    requires 0 < |p| && p[|p| - 1] == ':' && ':' !in p[..|p| - 1]
    ensures CallbackPrefix(p + rest) == Some(p)
  {
    assert (p + rest)[|p| - 1] == ':';
    var q := CallbackPrefix(p + rest).value;
    assert (p + rest)[..|p|] == p;
    assert q[..|q| - 1] == (p + rest)[..|q| - 1];
  }

  /** The routing decision for a callback query: the wizard prefix is checked first, then the
      callback handlers in order. */
  function RouteCallback(data: string, hs: seq<CallbackHandler>): (r: CallbackRoute)
    ensures r == Ignored <==> ':' !in data
    ensures r == ToWizard <==> CallbackPrefix(data) == Some(CallbackDataFieldPrefix)
    ensures r.ToHandler? ==>
              && CallbackPrefix(data).Some? && CallbackPrefix(data).value != CallbackDataFieldPrefix
              && r.i < |hs| && hs[r.i].callbackPrefix == CallbackPrefix(data).value
              && forall j :: 0 <= j < r.i ==> hs[j].callbackPrefix != CallbackPrefix(data).value
    ensures r == Unclaimed <==>
              && CallbackPrefix(data).Some? && CallbackPrefix(data).value != CallbackDataFieldPrefix
              && forall j :: 0 <= j < |hs| ==> hs[j].callbackPrefix != CallbackPrefix(data).value
  {
    match CallbackPrefix(data)
    case None => Ignored
    case Some(p) =>
      if p == CallbackDataFieldPrefix then ToWizard
      else
        match FirstIndex(hs, (h: CallbackHandler) => h.callbackPrefix == p)
        case Some(i) => ToHandler(i)
        case None => Unclaimed
  }

  /** The buttons the wizard builds by default route back to the wizard, whatever the field name
      and option, as long as the wizard prefix ends in its only ':'. */
  lemma WizardButtonsRouteToWizard(fieldName: string, option: string, hs: seq<CallbackHandler>)
    requires 0 < |CallbackDataFieldPrefix| && CallbackDataFieldPrefix[|CallbackDataFieldPrefix| - 1] == ':'
    requires ':' !in CallbackDataFieldPrefix[..|CallbackDataFieldPrefix| - 1]
    ensures RouteCallback(DefaultCallbackData(fieldName, option), hs) == ToWizard
  {
    assert DefaultCallbackData(fieldName, option)
        == CallbackDataFieldPrefix + (fieldName + CallbackDataSep + option);
    PrefixOfComposed(CallbackDataFieldPrefix, fieldName + CallbackDataSep + option);
  }
}
