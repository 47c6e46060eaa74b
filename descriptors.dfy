/** Descriptors: the static, never persisted configuration of forms and fields, and the registry
    that maps wizard names to form descriptors. */
module Descriptors {
  import opened Wrappers
  import opened Telegram
  import opened Extractors
  import opened Fields
  import opened Skipping

  /** A custom validator: None when the message is acceptable, else an error (a translation key). */
  type Validator = (Message, Lang) -> Option<string>

  /** Computes the options of a one-time reply keyboard. */
  type ReplyKeyboardBuilder = (RequestEnv, Message) -> seq<string>

  /** Computes the options of an inline keyboard from the current fields of the form. */
  type InlineKeyboardBuilder = (RequestEnv, Message, seq<Field>) -> seq<string>

  /** Rewrites the inline button generated for one option of a field. */
  type ButtonCustomizer = (Button, Field) -> Button

  /** The completion action of a form; supplied by handler code and not interpreted here. */
  type FormAction

  /** Configuration of one field. */
  class FieldDescriptor {
    var validator: Option<Validator>
    var skipIf: Option<SkipCondition>
    var replyKeyboardBuilder: Option<ReplyKeyboardBuilder>
    var inlineKeyboardAnswers: seq<string>
    var inlineKeyboardBuilder: Option<InlineKeyboardBuilder>
    var disableKeyboardValidation: bool
    const promptDescription: string
    const formDescriptor: FormDescriptor
    var inlineButtonCustomizers: map<string, ButtonCustomizer>

    /** A descriptor with a prompt and nothing else configured. */
    ghost predicate Blank()
      reads this
    {
      && validator.None? && skipIf.None? && replyKeyboardBuilder.None?
      && inlineKeyboardAnswers == [] && inlineKeyboardBuilder.None?
      && !disableKeyboardValidation && inlineButtonCustomizers == map[]
    }

    constructor (prompt: string, form: FormDescriptor)
      ensures promptDescription == prompt && formDescriptor == form && Blank()
    {
      validator, skipIf, replyKeyboardBuilder := None, None, None;
      inlineKeyboardAnswers, inlineKeyboardBuilder := [], None;
      disableKeyboardValidation := false;
      promptDescription, formDescriptor := prompt, form;
      inlineButtonCustomizers := map[];
    }

    /** Register a customizer for `option`. The first registration wins: a repeat returns false and
        keeps the customizer registered first. */
    method InlineButtonCustomizer(option: string, customizer: ButtonCustomizer) returns (ok: bool)
      modifies this`inlineButtonCustomizers
      ensures ok <==> option !in old(inlineButtonCustomizers)
      ensures ok ==> inlineButtonCustomizers == old(inlineButtonCustomizers)[option := customizer]
      ensures !ok ==> inlineButtonCustomizers == old(inlineButtonCustomizers)
    {
      if option in inlineButtonCustomizers {
        return false;
      }
      inlineButtonCustomizers := inlineButtonCustomizers[option := customizer];
      ok := true;
    }
  }

  /** Configuration of one form: its completion action and its fields by name. */
  class FormDescriptor {
    const action: Option<FormAction>
    var fields: map<string, FieldDescriptor>

    constructor (action: Option<FormAction>)
      ensures this.action == action && fields == map[]
    {
      this.action := action;
      fields := map[];
    }

    /** Add a field descriptor under `name`, replacing any earlier one of that name. */
    method AddField(name: string, promptDescription: string) returns (d: FieldDescriptor)
      modifies this`fields
      ensures fresh(d) && d.Blank()
      ensures d.promptDescription == promptDescription && d.formDescriptor == this
      ensures fields == old(fields)[name := d]
    {
      d := new FieldDescriptor(promptDescription, this);
      fields := fields[name := d];
    }

    /** The descriptor of field `name`. The source panics when there is none, so callers must
        only ask for registered names. */
    function FindFieldDescriptor(name: string): (d: FieldDescriptor)
      reads this
      requires name in fields
      ensures d == fields[name] && d in fields.Values
    {
      fields[name]
    }
  }

  /** A message handler as the registry sees it: its type name, and the form descriptor it
      returns when it is a wizard handler (None for a plain handler). */
  datatype MessageHandler = MessageHandler(
    typeName: string,
    canHandle: Message -> bool,
    wizardDescriptor: Option<FormDescriptor>)

  predicate HasSuffix(s: string, suffix: string) {
    |suffix| <= |s| && s[|s| - |suffix|..] == suffix
  }

  /** Remove one trailing `suffix`, if present. */
  function TrimSuffix(s: string, suffix: string): (r: string)
    ensures HasSuffix(s, suffix) ==> r + suffix == s
    ensures !HasSuffix(s, suffix) ==> r == s
  {
    if HasSuffix(s, suffix) then s[..|s| - |suffix|] else s
  }

  /** The wizard name of a handler type: `SomeHandler` becomes `SomeWizard`. */
  function WizardName(typeName: string): (r: string)
    ensures HasSuffix(r, "Wizard")
  {
    TrimSuffix(typeName, "Handler") + "Wizard"
  }

  /** Exactly one trailing "Handler" is replaced by "Wizard"; any other name just gets "Wizard". */
  lemma WizardNameStripsOneSuffix(base: string)
    ensures WizardName(base + "Handler") == base + "Wizard"
    ensures !HasSuffix(base, "Handler") ==> WizardName(base) == base + "Wizard"
  {
    assert HasSuffix(base + "Handler", "Handler");
    assert (base + "Handler")[..|base|] == base;
  }

  /** Two handler types whose names differ only by the "Handler" suffix share a wizard name. */
  lemma WizardNamesCanCollide(base: string)
    requires !HasSuffix(base, "Handler")
    ensures base != base + "Handler" && WizardName(base) == WizardName(base + "Handler")
  {
    WizardNameStripsOneSuffix(base);
    assert |base + "Handler"| != |base|;
  }

  /** The registry built from a handler list: one entry per wizard handler, keyed by its wizard
      name; a later handler with the same wizard name replaces an earlier one. */
  function DescriptorsOf(hs: seq<MessageHandler>): (r: map<string, FormDescriptor>)
    ensures forall k :: k in r ==> HasSuffix(k, "Wizard")
    ensures forall d :: d in r.Values ==> exists i :: 0 <= i < |hs| && hs[i].wizardDescriptor == Some(d)
  {
    if hs == [] then map[]
    else
      var m := DescriptorsOf(hs[..|hs| - 1]);
      var h := hs[|hs| - 1];
      if h.wizardDescriptor.Some? then m[WizardName(h.typeName) := h.wizardDescriptor.value] else m
  }

  /** A name is registered exactly when some wizard handler has it as its wizard name. */
  lemma {:induction false} DescriptorsOfKeys(hs: seq<MessageHandler>, name: string)
    ensures name in DescriptorsOf(hs) <==>
              exists i :: 0 <= i < |hs| && hs[i].wizardDescriptor.Some? && WizardName(hs[i].typeName) == name
  {
    if hs != [] {
      var init := hs[..|hs| - 1];
      DescriptorsOfKeys(init, name);
      assert forall i :: 0 <= i < |init| ==> init[i] == hs[i];
    }
  }

  /** The descriptor registered under a wizard name is that of the last wizard handler with that name. */
  lemma {:induction false} DescriptorsOfLastWins(hs: seq<MessageHandler>, i: nat)
    requires i < |hs| && hs[i].wizardDescriptor.Some?
    requires forall j :: i < j < |hs| && hs[j].wizardDescriptor.Some? ==>
               WizardName(hs[j].typeName) != WizardName(hs[i].typeName)
    ensures WizardName(hs[i].typeName) in DescriptorsOf(hs)
    ensures DescriptorsOf(hs)[WizardName(hs[i].typeName)] == hs[i].wizardDescriptor.value
  {
    if i < |hs| - 1 {
      var init := hs[..|hs| - 1];
      assert init[i] == hs[i];
      forall j | i < j < |init| && init[j].wizardDescriptor.Some?
        ensures WizardName(init[j].typeName) != WizardName(init[i].typeName)
      {
        assert init[j] == hs[j];
      }
      DescriptorsOfLastWins(init, i);
    }
  }

  /** The process-wide registry of form descriptors, keyed by wizard name. */
  class Registry {
    var descriptors: map<string, FormDescriptor>

    constructor ()
      ensures descriptors == map[]
    {
      descriptors := map[];
    }

    /** Fill the registry from the handlers, once: a non-empty registry is left as it is and
        false is returned. */
    method PopulateWizardDescriptors(handlers: seq<MessageHandler>) returns (ok: bool)
      modifies this
      ensures ok <==> |old(descriptors)| == 0
      ensures ok ==> descriptors == DescriptorsOf(handlers)
      ensures !ok ==> descriptors == old(descriptors)
    {
      if |descriptors| > 0 {
        return false;
      }
      descriptors := DescriptorsOf(handlers);
      ok := true;
    }

    /** The form descriptor of a wizard name, or null for an unknown name. */
    function FindFormDescriptor(name: string): (d: FormDescriptor?)
      reads this
      ensures d == null <==> name !in descriptors
      ensures d != null ==> d == descriptors[name]
    {
      if name in descriptors then descriptors[name] else null
    }
  }
}
