/** What a field does with its descriptor: validating an answer and choosing how to ask for one. */
module FieldLogic {
  import opened Wrappers
  import opened Telegram
  import opened Extractors
  import opened Fields
  import opened Descriptors

  /** The error reported when an answer is not one of the offered options. */
  const ValidErrNotInListTr := "errors.validation.option.not.in.list"

  /** The callback-data prefix reserved for wizard buttons and the separator between field name
      and option. Both are defined in a file that is not part of this model, so their values are
      left open here. */
  const CallbackDataFieldPrefix: string
  const CallbackDataSep: string

  /** Validate the text of an answer: keyboard membership first (unless disabled), then the custom
      validator. A not-in-list failure short-circuits the validator. */
  function Validate(d: FieldDescriptor, env: RequestEnv, m: Message): (r: Option<string>)
    reads d
    ensures (!d.disableKeyboardValidation && d.replyKeyboardBuilder.Some?
             && m.text !in d.replyKeyboardBuilder.value(env, m)) ==> r == Some(ValidErrNotInListTr)
    ensures (!d.disableKeyboardValidation && |d.inlineKeyboardAnswers| > 0
             && forall i :: 0 <= i < |d.inlineKeyboardAnswers| ==>
                  d.inlineKeyboardAnswers[i] != m.text && env.lang(d.inlineKeyboardAnswers[i]) != m.text)
            ==> r == Some(ValidErrNotInListTr)
    ensures r.None? ==> d.disableKeyboardValidation
                        || ((d.replyKeyboardBuilder.None? || m.text in d.replyKeyboardBuilder.value(env, m))
                            && (|d.inlineKeyboardAnswers| == 0
                                || exists i :: 0 <= i < |d.inlineKeyboardAnswers|
                                     && (d.inlineKeyboardAnswers[i] == m.text
                                         || env.lang(d.inlineKeyboardAnswers[i]) == m.text)))
    ensures r.Some? && r != Some(ValidErrNotInListTr) ==> d.validator.Some? && r == d.validator.value(m, env.lang)
    ensures d.disableKeyboardValidation ==>
              r == (if d.validator.None? then None else d.validator.value(m, env.lang))
    ensures (!d.disableKeyboardValidation
             && (d.replyKeyboardBuilder.None? || m.text in d.replyKeyboardBuilder.value(env, m))
             && (|d.inlineKeyboardAnswers| == 0
                 || exists i :: 0 <= i < |d.inlineKeyboardAnswers|
                      && (d.inlineKeyboardAnswers[i] == m.text || env.lang(d.inlineKeyboardAnswers[i]) == m.text)))
            ==> r == (if d.validator.None? then None else d.validator.value(m, env.lang))
  {
    var notInReply := d.replyKeyboardBuilder.Some? && m.text !in d.replyKeyboardBuilder.value(env, m);
    var notInInline := |d.inlineKeyboardAnswers| > 0 && m.text !in d.inlineKeyboardAnswers
                       && m.text !in TranslateList(d.inlineKeyboardAnswers, env.lang);
    if !d.disableKeyboardValidation && (notInReply || notInInline) then Some(ValidErrNotInListTr)
    else if d.validator.None? then None
    else d.validator.value(m, env.lang)
  }

  /** The callback data of a default wizard button. */
  function DefaultCallbackData(fieldName: string, option: string): (r: string)
    ensures |r| == |CallbackDataFieldPrefix| + |fieldName| + |CallbackDataSep| + |option|
    ensures r[..|CallbackDataFieldPrefix|] == CallbackDataFieldPrefix
    ensures r[|r| - |option|..] == option
  {
    CallbackDataFieldPrefix + fieldName + CallbackDataSep + option
  }

  /** The inline button for one option: labelled with the option's translation; a registered
      customizer shapes it from a button without callback data, otherwise it gets the default data. */
  function MakeButton(d: FieldDescriptor, f: Field, env: RequestEnv, option: string): (b: Button)
    reads d
    ensures option !in d.inlineButtonCustomizers ==>
              b == Button(env.lang(option), Some(DefaultCallbackData(f.name, option)))
    ensures option in d.inlineButtonCustomizers ==>
              b == d.inlineButtonCustomizers[option](Button(env.lang(option), None), f)
  {
    var btn := Button(env.lang(option), None);
    if option in d.inlineButtonCustomizers then d.inlineButtonCustomizers[option](btn, f)
    else btn.(callbackData := Some(DefaultCallbackData(f.name, option)))
  }

  /** One button per option, in order. */
  function MakeButtons(d: FieldDescriptor, f: Field, env: RequestEnv, options: seq<string>): (bs: seq<Button>)
    reads d
    ensures |bs| == |options|
    ensures forall i :: 0 <= i < |options| ==> bs[i] == MakeButton(d, f, env, options[i])
  {
    if options == [] then []
    else [MakeButton(d, f, env, options[0])] + MakeButtons(d, f, env, options[1..])
  }

  /** The inline options of a field: the static answers if any, else what the builder computes. */
  function InlineOptions(d: FieldDescriptor, env: RequestEnv, m: Message, fs: seq<Field>): (r: seq<string>)
    reads d
    ensures |d.inlineKeyboardAnswers| > 0 ==> r == d.inlineKeyboardAnswers
    ensures |r| > 0 ==> |d.inlineKeyboardAnswers| > 0 || d.inlineKeyboardBuilder.Some?
  {
    if |d.inlineKeyboardAnswers| > 0 then d.inlineKeyboardAnswers
    else if d.inlineKeyboardBuilder.Some? then d.inlineKeyboardBuilder.value(env, m, fs)
    else []
  }

  /** The prompt for field `f` of a form whose fields are `fs`: exactly one message, with an inline
      keyboard, a reply keyboard or no keyboard, in that order of precedence. */
  function Prompt(d: FieldDescriptor, f: Field, fs: seq<Field>, env: RequestEnv, m: Message): (s: Sent)
    reads d
    ensures s.text == env.lang(d.promptDescription)
    ensures |d.inlineKeyboardAnswers| > 0 ==>
              s == WithInlineKeyboard(s.text, MakeButtons(d, f, env, d.inlineKeyboardAnswers))
    ensures (|d.inlineKeyboardAnswers| == 0 && d.inlineKeyboardBuilder.Some?
             && |d.inlineKeyboardBuilder.value(env, m, fs)| > 0) ==>
              s == WithInlineKeyboard(s.text, MakeButtons(d, f, env, d.inlineKeyboardBuilder.value(env, m, fs)))
    ensures |InlineOptions(d, env, m, fs)| == 0 && d.replyKeyboardBuilder.Some? ==>
              s == WithKeyboard(s.text, d.replyKeyboardBuilder.value(env, m))
    ensures |InlineOptions(d, env, m, fs)| == 0 && d.replyKeyboardBuilder.None? ==> s == Plain(s.text)
    ensures s.Plain? || s.WithKeyboard? || s.WithInlineKeyboard?
  {
    var text := env.lang(d.promptDescription);
    var options := InlineOptions(d, env, m, fs);
    if |options| > 0 then WithInlineKeyboard(text, MakeButtons(d, f, env, options))
    else if d.replyKeyboardBuilder.Some? then WithKeyboard(text, d.replyKeyboardBuilder.value(env, m))
    else Plain(text)
  }
}
