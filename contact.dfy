/**
 * The contact form: four text fields, the field that has focus, and the
 * Editing -> Submitting -> Submitted progression of a simulated send. The
 * 1800 ms `setTimeout` that ends the send is the explicit step `Complete`.
 */
module Contact {

  datatype Field = Name | Email | Subject | Message

  /** The `name` attribute of each input, which `handleChange` uses as the key. */
  function FieldName(f: Field): string
  {
    match f
    case Name => "name"
    case Email => "email"
    case Subject => "subject"
    case Message => "message"
  }

  /** Distinct fields have distinct input names. */
  lemma FieldNameInjective(f: Field, g: Field)
    requires FieldName(f) == FieldName(g)
    ensures f == g
  {
  }

  /** `formData`: `{ name, email, subject, message }`. */
  datatype FormData = FormData(name: string, email: string, subject: string, message: string)
  {
    function Get(f: Field): string
    {
      match f
      case Name => name
      case Email => email
      case Subject => subject
      case Message => message
    }

    /** `{ ...prev, [f]: v }`. */
    function With(f: Field, v: string): (d: FormData)
      ensures d.Get(f) == v
      ensures forall g :: g != f ==> d.Get(g) == Get(g)
    {
      match f
      case Name => this.(name := v)
      case Email => this.(email := v)
      case Subject => this.(subject := v)
      case Message => this.(message := v)
    }

    /** The browser's `required` check: every field non-empty. */
    predicate AllFilled()
    {
      forall f :: Get(f) != ""
    }
  }

  function EmptyForm(): FormData
  {
    FormData("", "", "", "")
  }

  /** The three phases of the form. */
  datatype Phase = Editing | Submitting | Submitted

  class ContactForm {
    var formData: FormData
    var focused: string
    var submitted: bool
    var loading: bool

    /** `loading` and `submitted` are never both set; `focused` is `''` or an input's name. */
    ghost predicate Valid()
      reads this
    {
      !(loading && submitted) &&
      (focused == "" || exists f :: FieldName(f) == focused)
    }

    function CurrentPhase(): (p: Phase)
      reads this
      requires Valid()
      ensures p == Submitted <==> submitted
      ensures p == Submitting <==> loading
    {
      if submitted then Submitted else if loading then Submitting else Editing
    }

    /** `{submitted ? <success view> : <form>}`. */
    predicate FormVisible()
      reads this
    {
      !submitted
    }

    /** `disabled={loading}` on the submit button. */
    predicate SubmitDisabled()
      reads this
    {
      loading
    }

    /** The `focused` class of a field's group. */
    predicate IsFocused(f: Field)
      reads this
    {
      focused == FieldName(f)
    }

    /** The `filled` class of a field's group: its value is truthy, i.e. non-empty. */
    predicate IsFilled(f: Field)
      reads this
    {
      formData.Get(f) != ""
    }

    constructor ()
      ensures Valid() && CurrentPhase() == Editing
      ensures formData == EmptyForm() && focused == ""
      ensures forall f :: !IsFilled(f) && !IsFocused(f)
    {
      formData, focused, submitted, loading := EmptyForm(), "", false, false;
    }

    /** `handleChange`: only the edited field changes. */
    method HandleChange(f: Field, value: string)
      requires Valid() && FormVisible()
      modifies this
      ensures Valid()
      ensures formData.Get(f) == value
      ensures forall g :: g != f ==> formData.Get(g) == old(formData.Get(g))
      ensures IsFilled(f) <==> value != ""
      ensures focused == old(focused) && submitted == old(submitted) && loading == old(loading)
    {
      formData := formData.With(f, value);
    }

    /** `onFocus={() => setFocused(name)}`: exactly that field shows as focused. */
    method Focus(f: Field)
      requires Valid() && FormVisible()
      modifies this
      ensures Valid()
      ensures IsFocused(f) && forall g :: g != f ==> !IsFocused(g)
      ensures formData == old(formData) && submitted == old(submitted) && loading == old(loading)
    {
      focused := FieldName(f);
      forall g | g != f ensures !IsFocused(g) {
        if IsFocused(g) { FieldNameInjective(f, g); }
      }
    }

    /** `onBlur={() => setFocused('')}`: no field shows as focused. */
    method Blur()
      requires Valid() && FormVisible()
      modifies this
      ensures Valid()
      ensures focused == "" && forall g :: !IsFocused(g)
      ensures formData == old(formData) && submitted == old(submitted) && loading == old(loading)
    {
      focused := "";
    }

    /**
     * `handleSubmit`: starts the simulated send. The browser submits only when
     * every `required` field is filled and the submit button is enabled.
     */
    method HandleSubmit()
      requires Valid() && FormVisible() && !SubmitDisabled()
      requires formData.AllFilled()
      modifies this
      ensures Valid()
      ensures old(CurrentPhase()) == Editing && CurrentPhase() == Submitting
      ensures SubmitDisabled()
      ensures formData == old(formData) && focused == old(focused)
    {
      loading := true;
    }

    /** The timer callback: `setLoading(false); setSubmitted(true)`. */
    method Complete()
      requires Valid() && CurrentPhase() == Submitting
      modifies this
      ensures Valid()
      ensures CurrentPhase() == Submitted && !FormVisible() && !SubmitDisabled()
      ensures formData == old(formData) && focused == old(focused)
    {
      loading := false;
      submitted := true;
    }
  }

  /**
   * The form filled with Jane's message, sent and completed: it ends in the
   * success view with the fields as typed.
   */
  method SendJanesMessage() returns (formShown: bool, phase: Phase, sent: FormData)
    ensures !formShown && phase == Submitted
    ensures sent == FormData("Jane", "j@x.com", "Hi", "Hello")
  {
    var form := new ContactForm();
    form.HandleChange(Name, "Jane");
    form.HandleChange(Email, "j@x.com");
    form.HandleChange(Subject, "Hi");
    form.HandleChange(Message, "Hello");
    assert form.formData == FormData("Jane", "j@x.com", "Hi", "Hello");
    form.HandleSubmit();
    form.Complete();
    formShown, phase, sent := form.FormVisible(), form.CurrentPhase(), form.formData;
  }
}
