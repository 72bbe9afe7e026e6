/**
 * The report form (src/components/ReportForm.tsx): six controlled fields, a
 * submit flag, a submit status, and the insert payload built on submit.
 */
module ReportForm {
  import opened Reports

  datatype SubmitStatus = Idle | Success | Error

  /** `formData`. */
  datatype FormData = FormData(
    title: string,
    description: string,
    location: string,
    severity: Severity,
    reportedBy: string,
    contactInfo: string)

  /** The values the form starts with and returns to after a successful insert. */
  const InitialForm: FormData := FormData("", "", "", Medium, "", "")

  /** The text inputs; severity is the one select. */
  datatype TextField = Title | Description | Location | ReportedBy | ContactInfo

  function Get(form: FormData, field: TextField): string
  {
    match field
    case Title => form.title
    case Description => form.description
    case Location => form.location
    case ReportedBy => form.reportedBy
    case ContactInfo => form.contactInfo
  }

  /** `setFormData({ ...formData, [field]: value })` for one text input. */
  function WithText(form: FormData, field: TextField, value: string): (f: FormData)
    ensures Get(f, field) == value
    ensures forall other :: other != field ==> Get(f, other) == Get(form, other)
    ensures f.severity == form.severity
  {
    match field
    case Title => form.(title := value)
    case Description => form.(description := value)
    case Location => form.(location := value)
    case ReportedBy => form.(reportedBy := value)
    case ContactInfo => form.(contactInfo := value)
  }

  /** The row handed to the insert. */
  datatype NewReport = NewReport(
    title: string,
    description: string,
    location: string,
    severity: Severity,
    reportedBy: string,
    contactInfo: Option<string>,
    status: Status)

  /** `formData.contact_info || null`: the empty string is sent as null. */
  function ContactPayload(contact: string): (c: Option<string>)
    ensures c == None <==> contact == ""
    ensures c.Some? ==> c.value == contact
  {
    if contact == "" then None else Some(contact)
  }

  /** The insert payload: status forced to active, everything else copied from the form. */
  function Payload(form: FormData): (p: NewReport)
    ensures p.status == Active
    ensures p.title == form.title && p.description == form.description && p.location == form.location
    ensures p.severity == form.severity && p.reportedBy == form.reportedBy
    ensures p.contactInfo == ContactPayload(form.contactInfo)
  {
    NewReport(form.title, form.description, form.location, form.severity, form.reportedBy,
      ContactPayload(form.contactInfo), Active)
  }

  /** The form a payload was built from: null contact back to the empty field. */
  function FormOf(p: NewReport): FormData
  {
    FormData(p.title, p.description, p.location, p.severity, p.reportedBy,
      match p.contactInfo case None => "" case Some(c) => c)
  }

  /** The payload loses nothing the form held: the form is recovered from it. */
  lemma PayloadRoundTrip(form: FormData)
    ensures FormOf(Payload(form)) == form
  {
  }

  /** A critical report filed with an empty contact is sent as active, with a null contact. */
  lemma PipeBurstPayload()
    ensures Payload(FormData("Pipe burst", "Water flooding street", "5th Ave", Critical, "J. Doe", ""))
      == NewReport("Pipe burst", "Water flooding street", "5th Ave", Critical, "J. Doe", None, Active)
  {
  }

  /** The insert's answer. */
  datatype InsertOutcome = Inserted | InsertFailed

  /** Component state of the form. */
  class ReportFormState {
    var form: FormData
    var isSubmitting: bool
    var submitStatus: SubmitStatus

    constructor ()
      ensures form == InitialForm && !isSubmitting && submitStatus == Idle
    {
      form := InitialForm;
      isSubmitting := false;
      submitStatus := Idle;
    }

    /** The submit button is disabled exactly while a submit is in flight. */
    predicate SubmitDisabled()
      reads this
    {
      isSubmitting
    }

    /** An `onChange` of a text input overwrites that field and nothing else. */
    method EditText(field: TextField, value: string)
      modifies this
      ensures form == WithText(old(form), field, value)
      ensures isSubmitting == old(isSubmitting) && submitStatus == old(submitStatus)
    {
      form := WithText(form, field, value);
    }

    /** The severity select's `onChange`. */
    method EditSeverity(severity: Severity)
      modifies this
      ensures form == old(form).(severity := severity)
      ensures isSubmitting == old(isSubmitting) && submitStatus == old(submitStatus)
    {
      form := form.(severity := severity);
    }

    /**
     * `handleSubmit` up to the awaited insert: the button is disabled, a
     * previous status is cleared, and the payload is built from the fields.
     */
    method BeginSubmit() returns (payload: NewReport)
      modifies this
      ensures isSubmitting && SubmitDisabled() && submitStatus == Idle
      ensures form == old(form)
      ensures payload == Payload(form)
    {
      isSubmitting := true;
      submitStatus := Idle;
      payload := Payload(form);
    }

    /**
     * `handleSubmit` after the insert answers. On success the status is
     * success, the fields are reset and the parent's `onSuccess` is scheduled
     * (`notifyParent`); on failure the status is error and the fields stay for
     * another attempt. Either way the button is enabled again.
     */
    method FinishSubmit(outcome: InsertOutcome) returns (notifyParent: bool)
      modifies this
      ensures !isSubmitting && !SubmitDisabled()
      ensures outcome == Inserted ==> submitStatus == Success && form == InitialForm && notifyParent
      ensures outcome == InsertFailed ==> submitStatus == Error && form == old(form) && !notifyParent
    {
      notifyParent := false;
      if outcome == Inserted {
        submitStatus := Success;
        form := InitialForm;
        notifyParent := true;
      } else {
        submitStatus := Error;
      }
      isSubmitting := false;
    }
  }
}
