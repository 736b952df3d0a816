/**
 * The application page: whether applications are open, the form's fields and the
 * status that moves between the form, the confirmation and back.
 */
module JoinPage {
  import opened Entities
  import opened JsValues

  const DefaultRole: string := "Frontend Developer"

  /** `automations?.applicationsEnabled ?? true`, with the settings as the object the
      page receives (anything but an object has no such property). */
  function FlagOf(automations: Value): Value {
    match automations
    case Obj(f) => if "applicationsEnabled" in f then f["applicationsEnabled"] else Undefined
    case _ => Undefined
  }

  /** Applications are open unless the flag is there and falsy: missing settings or a
      missing flag count as open. */
  predicate IsApplicationsEnabled(automations: Value) {
    var flag := FlagOf(automations);
    flag == Null || flag == Undefined || Truthy(flag)
  }

  /** Missing settings, or settings without the flag, leave applications open; the
      settings the store keeps give exactly their own flag. */
  lemma ApplicationsEnabledSpec(a: AutomationSettings, fields: map<string, Value>)
    ensures IsApplicationsEnabled(Undefined) && IsApplicationsEnabled(Null)
    ensures "applicationsEnabled" !in fields ==> IsApplicationsEnabled(Obj(fields))
    ensures IsApplicationsEnabled(AutomationsValue(a)) == a.applicationsEnabled
  {
    assert AutomationsValue(a).fields["applicationsEnabled"] == Bool(a.applicationsEnabled);
  }

  datatype LoadingState = Idle | Loading | Success | Failed

  datatype JoinField = Name | EmailField | RoleField | Portfolio | Motivation

  /** The form as it starts and as it is left after a submission. */
  function EmptyInputs(): JoinFormInputs {
    JoinFormInputs("", "", DefaultRole, "", "")
  }

  /** `{ ...formState, [e.target.name]: e.target.value }`: the named field holds the
      new value and every other field keeps its own. */
  function WithField(f: JoinFormInputs, field: JoinField, v: string): (r: JoinFormInputs)
    ensures FieldValue(r, field) == v
    ensures forall g :: g != field ==> FieldValue(r, g) == FieldValue(f, g)
  {
    match field
    case Name => f.(name := v)
    case EmailField => f.(email := v)
    case RoleField => f.(role := v)
    case Portfolio => f.(portfolio := v)
    case Motivation => f.(motivation := v)
  }

  /** The value of one field. */
  function FieldValue(f: JoinFormInputs, field: JoinField): string {
    match field
    case Name => f.name
    case EmailField => f.email
    case RoleField => f.role
    case Portfolio => f.portfolio
    case Motivation => f.motivation
  }

  /** Two forms that agree on every field are the same form. */
  lemma InputsExtensional(a: JoinFormInputs, b: JoinFormInputs)
    requires forall g :: FieldValue(a, g) == FieldValue(b, g)
    ensures a == b
  {
    assert FieldValue(a, Name) == FieldValue(b, Name);
    assert FieldValue(a, EmailField) == FieldValue(b, EmailField);
    assert FieldValue(a, RoleField) == FieldValue(b, RoleField);
    assert FieldValue(a, Portfolio) == FieldValue(b, Portfolio);
    assert FieldValue(a, Motivation) == FieldValue(b, Motivation);
  }

  /** Writing back what a field holds changes nothing, and of two writes to one field
      the last wins. */
  lemma WithFieldSpec(f: JoinFormInputs, field: JoinField, v: string, w: string)
    ensures WithField(f, field, FieldValue(f, field)) == f
    ensures WithField(WithField(f, field, v), field, w) == WithField(f, field, w)
  {
    InputsExtensional(WithField(f, field, FieldValue(f, field)), f);
    InputsExtensional(WithField(WithField(f, field, v), field, w), WithField(f, field, w));
  }

  datatype Screen = Closed | Received | FormScreen

  /** What the page shows: the closed notice whenever applications are off, whatever
      the status; otherwise the confirmation after a submission and the form before. */
  function ScreenFor(enabled: bool, status: LoadingState): (s: Screen)
    ensures !enabled <==> s == Closed
    ensures s == Received <==> enabled && status == Success
  {
    if !enabled then Closed else if status == Success then Received else FormScreen
  }

  datatype JoinState = JoinState(form: JoinFormInputs, status: LoadingState, applied: seq<JoinFormInputs>)

  /** The page's state: `formState`, `status`, and the forms handed to `onApply`. */
  class JoinForm {
    var form: JoinFormInputs
    var status: LoadingState
    var applied: seq<JoinFormInputs>

    function State(): JoinState
      reads this
    {
      JoinState(form, status, applied)
    }

    constructor ()
      ensures State() == JoinState(EmptyInputs(), Idle, [])
    {
      form := EmptyInputs();
      status := Idle;
      applied := [];
    }

    /** `handleChange`. */
    method HandleChange(field: JoinField, v: string)
      modifies this
      ensures State() == old(State()).(form := WithField(old(form), field, v))
    {
      form := WithField(form, field, v);
    }

    /** `handleSubmit`, with the delay collapsed: the current form goes to `onApply`
        once, the form is cleared and the confirmation shows. */
    method HandleSubmit()
      modifies this
      ensures State() == JoinState(EmptyInputs(), Success, old(applied) + [old(form)])
    {
      status := Loading;
      applied := applied + [form];
      status := Success;
      form := EmptyInputs();
    }

    /** "Submit another application". */
    method SubmitAnother()
      modifies this
      ensures State() == old(State()).(status := Idle)
    {
      status := Idle;
    }
  }
}
