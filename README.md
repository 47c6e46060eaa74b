# goSadTgBot wizard engine — a Dafny model

This project models the wizard engine of goSadTgBot, a framework for Telegram bots. A wizard is
a per-user, multi-turn form. It has an ordered list of fields and a cursor (`Index`). Each inbound
message that reaches a form moves its cursor past the fields it resolves; a rejected answer leaves
it where it was. The engine passes over fields that already have a value or whose
skip condition holds. It takes the user's answer to a field it asked for: it extracts a value of
the field's type from the message and validates it. It asks for the next missing field and saves
the form. Past the last field, it runs the form's action.

The model covers:

- **Telegram** (`telegram.dfy`): the parts of a message the engine reads, and the bot as an
  append-only log of sent replies, in the manner of the repository's `FakeBotAPI`.
- **Extractors** (`extractors.dfy`): field types, field values, the per-type extractors, the
  fixed-priority message-type detection, and the choice of extractor for a type.
- **Fields** (`fields.dfy`): the field record, first-match lookup by name, the restoration of an
  extractor after a reload (resolving `<auto>` from the message), and list translation.
- **Skipping** (`skipping.dfy`): the stock skip condition "sibling field holds this text".
- **Descriptors** (`descriptors.dfy`): field and form descriptors, the button-customizer table,
  the handler-name to wizard-name rule, and the populate-once registry.
- **Field logic** (`field_logic.dfy`): answer validation, the prompt's keyboard choice and the
  default callback data of inline buttons.
- **Storage** (`storage.dfy`): the per-user state key and the get/save/delete outcomes over an
  abstract key-to-record store.
- **Forms** (`form.dfy`): the transition loop `ProcessNextField`. It is specified by the pure
  recursive function `Run` and implemented by the loop `Advance`, which is proved equal to `Run`.
  `Form` is a class whose methods update its fields in place.
- **App** (`handlers.dfy`): the routing of inbound messages (handlers, then the stored form, then
  the default reply) and of callback queries (the wizard prefix, then the callback handlers).

Localisation, validators, keyboard builders, button customizers and message handlers' `CanHandle`
are uninterpreted functions passed in as values. A form's action is reported as the outcome
`ActionRun` rather than run. Panics of the source (an unknown field name, an unregistered wizard
type on restore, a nil form descriptor, a field without a descriptor that the loop reaches) are
preconditions. Fields the loop does not reach in a call need no descriptor.

The code sends at most one reply per call, so the model sends the replies of a call once, after
the loop has decided the outcome. This gives the same log as sending them inside the loop.

## Model

| member | source | states |
|---|---|---|
| Seqs.FirstIndex | wizard/field.go:50-61 | The result is the index of the first element satisfying the predicate; None exactly when no element does. |
| Telegram.Bot.Send | base/mocks.go:37-40 | A reply is appended to the log of sent messages; earlier entries are kept. |
| Extractors.FileOf | wizard/extractors.go:20-61 | A file extractor yields a file exactly when the attachment is present, with its id and unique id. |
| Extractors.LastPhoto | wizard/extractors.go:62-68 | The image extractor picks the last photo size, and nothing for an absent or empty list. |
| Extractors.Extract | wizard/extractors.go:18-68 | The nil extractor always yields nil. The text extractor never yields nil. The image, sticker and document extractors yield a value exactly when their attachment is there. Only the text extractor yields text. |
| Extractors.DetermineMessageType | wizard/extractors.go:70-96 | Detection answers text or one of the eight attachment kinds, never location or auto. |
| Extractors.DetectionFollowsPriority | wizard/extractors.go:70-96 | Detection picks the first kind, in the order sticker, photo, voice, audio, video, video note, animation, document, that the message carries. It answers text exactly when the message carries none of them. |
| Extractors.ExtractorFor | wizard/extractors.go:102-130 | A type selects the nil extractor exactly when it is not one of the nine concrete types (location, the empty type, unknown tags). Only `text` selects the text extractor. |
| Extractors.ExtractorForInjective | wizard/extractors.go:107-124 | Distinct concrete types select distinct extractors, whatever the message holds. |
| Extractors.FileExtractorMatchesKind | wizard/extractors.go:20-68 | For every attachment type, its extractor yields a file exactly when the message carries that attachment (for images, a non-empty list). |
| Extractors.DetectedTypeExtracts | wizard/extractors.go:70-96 | The type detected on a message extracts a value from that message, unless the message has an empty photo list. |
| Extractors.EmptyPhotoListDetectedButRejected | wizard/extractors.go:62-76 | An empty, non-nil photo list is detected as an image, yet the image extractor rejects it. |
| Fields.FindField | wizard/field.go:50-61 | The result is the first field with the name, and None exactly when no field has it. |
| Fields.RestoreExtractor | wizard/extractors.go:98-131 | An attached extractor is kept. `<auto>` is replaced by the detected type, whose extractor is attached. Any other type gets its own extractor. Name, value and requested flag never change. |
| Fields.ResolvedTypeIsPermanent | wizard/extractors.go:103-106 | One restore makes an `<auto>` field's type concrete. Once that resolved type has been saved, restoring again after a reload, with any message, changes nothing. A failed answer saves nothing, so this applies only after a prompt saves (see App.FailedAnswerRetypes). |
| Fields.TranslateList | wizard/field.go:108-112 | Each entry is translated, in order, with the length kept. |
| Skipping.ShouldBeSkipped | wizard/skipping.go:19-28 | The result is false when no sibling has the name. Otherwise it is true exactly when the first sibling with that name holds text equal to the value; nil and files give false. |
| Skipping.SkipIsStable | wizard/skipping.go:19-28 | A condition that holds keeps holding while the engine only fills in values. |
| Skipping.SkipReadsOnlyValues | wizard/skipping.go:19-28 | The condition depends only on names and values, not on requested flags, types or extractors. |
| Descriptors.FieldDescriptor.constructor | wizard/descriptors.go:58-61 | A new field descriptor has the prompt and the form back-reference, and nothing else configured. |
| Descriptors.FieldDescriptor.InlineButtonCustomizer | wizard/descriptors.go:68-77 | The first registration for an option succeeds and stores the customizer. A repeat returns false and keeps the first one. |
| Descriptors.FormDescriptor.constructor | wizard/descriptors.go:53-55 | A new form descriptor has the given action and no fields. |
| Descriptors.FormDescriptor.AddField | wizard/descriptors.go:57-64 | A fresh blank descriptor with the prompt and a back-reference to this form is stored under the name. It replaces any earlier descriptor of that name, and no other entry changes. |
| Descriptors.FormDescriptor.FindFieldDescriptor | wizard/descriptors.go:100-107 | The result is the descriptor registered under the name, and it is one of the form's descriptors. The source panics on a miss, so the name must be registered. |
| Descriptors.TrimSuffix | wizard/form.go:147 | One trailing suffix is removed when present; otherwise the string is unchanged. |
| Descriptors.WizardName | wizard/form.go:138-148 | Every wizard name ends in "Wizard". |
| Descriptors.WizardNameStripsOneSuffix | wizard/form.go:147 | `XHandler` becomes `XWizard`, and a name without the suffix just gets "Wizard" appended. |
| Descriptors.WizardNamesCanCollide | wizard/form.go:147 | Two different handler type names, `X` and `XHandler`, get the same wizard name. |
| Descriptors.DescriptorsOf | wizard/descriptors.go:86-97 | Every registered name ends in "Wizard", and every registered descriptor is the descriptor of some wizard handler. |
| Descriptors.DescriptorsOfKeys | wizard/descriptors.go:86-97 | A name is registered exactly when some wizard handler has it as its wizard name; plain handlers add nothing. |
| Descriptors.DescriptorsOfLastWins | wizard/descriptors.go:92-96 | The descriptor under a wizard name is that of the last wizard handler with that name. |
| Descriptors.Registry.constructor | wizard/descriptors.go:51 | The registry starts empty. |
| Descriptors.Registry.PopulateWizardDescriptors | wizard/descriptors.go:81-98 | It fills the registry from the handlers and returns true exactly when the registry was empty. A non-empty registry is left unchanged. |
| Descriptors.Registry.FindFormDescriptor | wizard/descriptors.go:109-116 | The result is null exactly when the name is not registered, and otherwise the registered descriptor. |
| FieldLogic.Validate | wizard/field.go:91-106 | With keyboard validation on, text outside the reply keyboard's options, or matching no static inline answer nor its translation, gives the not-in-list error without consulting the validator. Any other error comes from the validator. When the text is in the lists, or validation is off, the result is exactly the validator's, and no validator means no error. |
| FieldLogic.InlineOptions | wizard/field.go:66-70 | Static inline answers, when there are any, are the options. Options exist only when there are static answers or an inline builder. |
| FieldLogic.DefaultCallbackData | wizard/field.go:78 | The data starts with the callback prefix, ends with the option, and has exactly the length of prefix, field name, separator and option together. |
| FieldLogic.MakeButton | wizard/field.go:73-82 | A button is labelled with the option's translation. With a customizer, the customizer shapes it from a button with no callback data. Otherwise it carries prefix + field name + separator + option. |
| FieldLogic.MakeButtons | wizard/field.go:73-82 | There is one button per option, in order. |
| FieldLogic.Prompt | wizard/field.go:64-89 | The prompt is one message with the translated prompt text. Its keyboard comes from static inline answers first, then a non-empty inline builder result, then the reply keyboard, then none. |
| Storage.FieldsRoundTrip | wizard/field.go:37-47 | Save then load gives back every field with only the extractor dropped, and load then save is the identity. |
| Storage.FormatNat | wizard/state_storage.go:88 | The decimal rendering is non-empty and all digits. |
| Storage.ParseFormatNat | wizard/state_storage.go:88 | Parsing the decimal rendering of a number gives the number back. |
| Storage.SignOfFormatInt | wizard/state_storage.go:88 | A rendering starts with '-' exactly when the number is negative. |
| Storage.FormatIntInjective | wizard/state_storage.go:88 | Distinct user ids have distinct decimal renderings. |
| Storage.FormatInt | wizard/state_storage.go:88 | The rendering is non-empty. A non-negative number renders as digits that parse back to it; a negative one as '-' followed by digits that parse back to its absolute value. |
| Storage.StateKey | wizard/state_storage.go:87-89 | The key is the state prefix followed by the decimal rendering of the user id. |
| Storage.StateKeyInjective | wizard/state_storage.go:87-89 | Distinct user ids have distinct state keys, so there is one record per user. |
| Storage.StateStorage.constructor | wizard/state_storage.go:37-48 | The model's abstract store starts with no records. It has no counterpart in the source, where `ConnectToRedis` attaches to whatever the database already holds; no property depends on the empty start. |
| Storage.StateStorage.GetCurrentState | wizard/state_storage.go:50-59 | It returns the user's record when there is one, and the store's not-found error otherwise. |
| Storage.StateStorage.SaveState | wizard/state_storage.go:61-70 | The user's record is set, replacing the previous one, and no other key changes. |
| Storage.StateStorage.DeleteState | wizard/state_storage.go:72-81 | The user's record is removed. The error is `wizard.active.not.set` exactly when there was none. |
| Storage.SaveThenGet | wizard/state_storage.go:50-70 | Save then get gives back what was saved, even after another user's save. |
| Forms.SkipField | wizard/form.go:129-136 | A field without a skip condition is never skipped. A skipped field's condition names a sibling holding exactly the condition's text. |
| Forms.Run | wizard/form.go:51-97 | The number of fields is kept, the cursor never moves back, and the action runs only when the form has one. It needs a descriptor only for the empty fields the loop reaches (`Attached`). |
| Forms.DescribedIsAttached | wizard/form.go:99-108 | A form with a descriptor for every empty field from the cursor on, as a restored form has, meets what the loop needs, whatever the message. |
| Forms.UnreachedFieldNeedsNoDescriptor | wizard/form.go:53-80 | A fresh form whose first field is asked for may be followed by a nil-valued prefilled field with no descriptor: the call is allowed and prompts for the first field. |
| Forms.Replies | wizard/form.go:51-97 | The action sends nothing; every other outcome sends one reply. |
| Forms.RunOutcome | wizard/form.go:51-97 | The cursor only moves forward and never past the end. The action runs, or the missing-action reply is chosen, exactly when the cursor ends past the end; the action runs exactly when one is set. A form already past the end is left as it is. |
| Forms.RunExtends | wizard/form.go:59-76 | Values are only filled in, never overwritten. Names, types and extractors never change, and requested flags are never cleared. |
| Forms.RunTouches | wizard/form.go:59-80 | Only fields between the old and new cursor change, and only the field under the new cursor can become requested, so passed-over fields stay unrequested. |
| Forms.RunKeepsOutside | wizard/form.go:59-76 | Fields before the old cursor and after the new one are left as they were. |
| Forms.RunKeepsRequested | wizard/form.go:77-80 | Only the field under the new cursor can change its requested flag. |
| Forms.RunStops | wizard/form.go:64-80 | After a prompt, the cursor is on an empty field that was not asked before and now is. After a rejected answer, the field it was for is unchanged. |
| Forms.RunFrame | wizard/form.go:51-89 | It combines RunOutcome, RunExtends, RunTouches and RunStops for one call. |
| Forms.RunFailureChangesNothing | wizard/form.go:65-73 | On a well-formed form, a type mismatch or a validation failure leaves the cursor and every field unchanged. |
| Forms.RunKeepsWellFormed | wizard/form.go:77-88 | No field after the cursor is ever requested, before or after a call. |
| Forms.PassedIsStable | wizard/form.go:59-62 | A field that is filled or skipped stays so while values are only filled in. |
| Forms.FillKeepsCursor | wizard/form.go:74-76 | Filling the field under the cursor moves the "all before the cursor are resolved" invariant one field on. |
| Forms.RequestKeepsCursor | wizard/form.go:77-80 | Marking the field under the cursor requested keeps the invariant, and the field stays unresolved. |
| Forms.RunAdvancesCursor | wizard/form.go:53-80 | After a call, every field before the cursor is filled or skipped, and the field under it is neither. The action runs only when every field is filled or skipped. |
| Forms.ScenarioAsks | wizard/form_test.go:76-82 | The prefilled field is passed over and stays unrequested; the next field is asked for, and the cursor stops on it. |
| Forms.ScenarioRejects | wizard/form_test.go:84-89 | A rejected answer leaves cursor and fields as they were. |
| Forms.ScenarioAccepts | wizard/form_test.go:91-96 | An accepted answer fills the field. The value makes the next field skip in the same call, the cursor ends at 3 and the action runs. |
| Forms.Advance | wizard/form.go:52-80 | The loop computes exactly the transition `Run` specifies, with the number of fields kept. |
| Forms.Form.NewWizard | wizard/form.go:110-120 | A new form has no fields, cursor 0, the wizard name of the handler type and the registered descriptor for it (null when none is registered). |
| Forms.Form.FromRecord | wizard/state_storage.go:55 | Decoding a stored record gives a form whose record is that record, with nothing attached. |
| Forms.Form.AddEmptyField | wizard/form.go:29-44 | One empty, unrequested field with the name and type is appended, linked to its registered descriptor. |
| Forms.Form.AddPrefilledField | wizard/form.go:46-49 | One field with the value and the empty type is appended, with no descriptor. |
| Forms.Form.PopulateRestored | wizard/form.go:99-108 | The resources and the registered form descriptor are attached. Only the field under the cursor gets its extractor restored, and every field gets its descriptor by name. |
| Forms.Form.Record | wizard/state_storage.go:61-70 | The saved record has the form's cursor and wizard type, and loading it gives back the form's fields without extractors. |
| Forms.Form.ProcessNextField | wizard/form.go:51-89 | It needs descriptors only for the fields the loop reaches. Fields, cursor and outcome become those of `Run`. The outcome's reply is sent, and the form is saved under the user's key exactly when a field was asked for; otherwise the store is unchanged. |
| App.RouteMessage | app/handlers.go:45-83 | The first handler that can handle the message gets it, and then the store is not consulted. Otherwise a stored form is resumed. A store error other than not-found gives no reply. Not-found gives the default reply, in its command variant for commands. |
| App.ProcessMessage | app/handlers.go:45-83 | The route is `RouteMessage` on the store as it was. A handled message or a store error sends nothing. The default route sends one reply. A resumed form's outcome is the engine's on the restored form (`ResumeRun`), its replies are sent, and only a prompt changes the store, saving the user's record as `SavedRecord`. On this path, every stored record stays resumable. |
| App.ProcessUnclaimed | app/handlers.go:59-82 | The user's stored record is looked up. When there is one, the form is resumed with the outcome of `ResumeRun`, its replies are sent and only a prompt saves. When there is none, the store is unchanged and the default reply, in its command variant for commands, is sent. |
| App.Resume | app/handlers.go:61-67 | Restoring and advancing a stored form gives the outcome of `ResumeRun` and sends its replies. Only a prompt saves, it saves `SavedRecord` under the user's key, and what it saves is resumable. |
| App.FieldDescriptorsOf | wizard/form.go:104-107 | Each field gets the descriptor registered under its name, position by position. |
| App.ResumeRun | wizard/form.go:99-108 | The engine on a restored record keeps the number of fields and never moves the cursor back. |
| App.SavedRecord | wizard/form.go:82 | The saved record has the new cursor and the same wizard type, and loading it gives back the new fields without extractors. |
| App.Restore | app/handlers.go:61-65 | A decoded, repopulated form is ready for the engine, with the stored cursor and type and the extractor restored under the cursor. Its form descriptor is the registered one for the type, and each field's descriptor is the one registered under its name. |
| App.Restored | wizard/form.go:102 | Restoring keeps the number of fields. |
| App.RestoredIsReady | wizard/form.go:99-108 | A restored resumable record has descriptors and an extractor wherever the engine needs them, and is well-formed. |
| App.SavedIsRestorable | wizard/form.go:82-88 | What the engine saves after a prompt has registered names and a cursor on a field, with nothing after it requested. |
| App.ResumeSavesRestorable | wizard/form.go:77-102 | When the engine prompts on a resumed form, the record it saves can itself be restored, so the next call's `Fields[Index]` is in range. |
| App.FailedAnswerRetypes | wizard/form.go:65-72 | After a type mismatch or a validation failure, the store still holds the old record, so an `<auto>` field under the cursor is typed anew from the user's next message. |
| App.ResumeFailureChangesNothing | wizard/form.go:65-73 | A rejected answer on a resumed form leaves the restored fields and the cursor as they were. |
| App.RetryKeepsResolvedType | wizard/form.go:65-73 | When a rejected answer also saves the form, the field under the cursor keeps the concrete type resolved for it: the retry is restored with that type whatever its message, and every record stays resumable. |
| App.CompletedFormStaysStored | wizard/form.go:53-56 | After the action runs, the record stays stored. The same message sent again is routed to that record and runs the action again. |
| App.CompletionIsFinal | wizard/form.go:53-56 | When completion clears the user's record, the next unclaimed message gets the default reply, and every remaining record stays resumable. |
| App.ResumeAndClear | wizard/form.go:53-56 | It resumes like `Resume` and removes the user's record exactly when the action ran. |
| App.SaveKeepsRestorable | wizard/form.go:82 | Saving a resumable record keeps every record in the store resumable. |
| App.CallbackPrefix | app/handlers.go:104-110 | The prefix is None exactly when the data has no ':'. Otherwise it is the data up to and including its first ':'. |
| App.PrefixOfComposed | app/handlers.go:104-110 | A prefix whose only ':' is its last character is recovered from any data it starts, whatever colons follow. |
| App.RouteCallback | app/handlers.go:99-124 | Data without ':' is ignored. The wizard prefix is checked before any handler. Otherwise the first handler with the same prefix gets the query. When none has it, nothing happens. |
| App.WizardButtonsRouteToWizard | app/handlers.go:112-116 | Every default wizard button's callback data routes back to the wizard, as long as the wizard prefix ends in its only ':'. |

## Left out

- Telegram I/O: replies are a log of (kind, text). Message formatting, chat ids and the Bot API
  calls are not modelled.
- Redis: the client, connection setup (`ConnectToRedis`, `Close`), TTL expiry and JSON encoding
  are not modelled. Storage is an abstract map. Errors other than "not found" reach the router
  only as an input of `App.RouteMessage`.
- Storage.StateStorage.GetCurrentState: it never fails with a store error; such errors are
  represented by the `state` input of `App.RouteMessage`.
- SaveState errors: they are only logged in the source, so the model's save always succeeds.
- Storage.StateStorage.DeleteState: a store error from `Del` is not modelled; the model's delete
  fails only when no record exists.
- Storage.StateStorage.constructor: the model starts from an empty store, while the source
  connects to an existing database and sees the records already in it.
- JSON of values: after a reload, the source decodes a `File` value into a generic map. The model
  keeps the value as it was saved.
- Concurrency: the goroutines and wait group of `HandleUpdate` are not modelled. Each message is
  handled on its own.
- Inline queries and chosen inline results are not part of this model.
- Reflection: `getWizardName` takes the handler's type name as a given string.
- Custom skip conditions: only the stock `SkipOnFieldValue` is modelled.
- `CallbackQueryHandler`, `AddPrefilledAutoField` and `AllRequiredFieldsFilled` are not part of
  this model. `CallbackDataFieldPrefix` and `callbackDataSep` are left as unknown constants.
- Pointers: fields are values inside the form's sequence, not shared `*Field` pointers, and the
  field's back-pointer to its form is not modelled. The form's field descriptors are a parallel
  sequence, null for prefilled fields.
- The lazy allocation of the customizer map in `InlineButtonCustomizer` has no visible effect and
  is not modelled.
- Form actions and message handlers' `Handle` are called out to; their effects are not modelled.
  The action is reported as the outcome `ActionRun`.
- Localisation is a function from key to text.
- Logging and metrics are not modelled.
- Wizard callback test: one test expects a wrapped text value where the extractor returns a plain
  string. The model follows the extractor.
- App.ProcessMessage: the message router assumes that every stored record can be resumed: its
  wizard type is registered, all its field names are registered, and its cursor is on a field.
  The source panics otherwise. The resume path keeps that true. Forms built fresh by handler code
  (`NewWizard`, `AddPrefilledField`, `AddEmptyField`, `ProcessNextField`) can save records that
  cannot be resumed, for example one with a prefilled field whose name has no descriptor.
- FieldLogic.Prompt: the inline keyboard builder is given the fields only. In the source it gets
  the whole form, so the model's builder cannot see the cursor, the wizard type or the resources.
- Completion: the engine neither saves nor deletes the user's record when the action runs, and
  `App.ProcessMessage` models that as written (see Findings). Deleting the record is left to the
  action, which is not modelled.
- Fields.ResolvedTypeIsPermanent: the resolved type is kept only once a prompt has saved it. The
  code saves nothing on a rejected answer and re-detects `<auto>` on the retry, against the intent
  recorded under Findings; `App.ProcessMessage` models the code as written.

## Findings

| source | as written | input that shows it | evidently intended | confidence | as-written member | corrected member |
|---|---|---|---|---|---|---|
| wizard/form.go:53-56 | When the action runs, the user's record is neither saved nor deleted. The last saved record, with the last field requested and empty, stays in the store. | A form completes on message `m`. The user sends `m` again and no handler claims it: the stored record is resumed, `m` answers the last field once more and the action runs a second time. | A completed form is removed from the store, so the next unclaimed message gets the default reply. | medium, not executed; an action can delete the record itself | App.CompletedFormStaysStored | App.ResumeAndClear, App.CompletionIsFinal |
| wizard/form.go:65-73 | A type mismatch or a failed validation returns without saving. The stored field keeps `<auto>`, and the retry is typed anew from whatever it is (wizard/form.go:102). | An `<auto>` field is asked for, and the answer is a sticker the validator rejects. The user then sends text: it is detected as text and no longer has to be a sticker. | The type resolved for an `<auto>` field is kept, so a retry after a failed answer must be of the same concrete kind. | medium, not executed | App.FailedAnswerRetypes | App.RetryKeepsResolvedType |
