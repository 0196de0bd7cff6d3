/** TrafficReportDialog.jsx: the "Report Traffic Issue" dialog. The form is edited one field at
    a time; a submission only runs a simulated delay (no request is sent), shows the success
    message, resets the form and closes the dialog. The two staged timers are taken as one
    atomic step whose visited phases are logged. */
module ReportDialog {

  datatype DialogField = Title | Description | Category | Severity | Location

  datatype ReportForm = ReportForm(
    title: string,
    description: string,
    category: string,
    severity: string,
    location: string)

  /** The initial form and the one the second timer restores. */
  const InitialForm: ReportForm := ReportForm("", "", "", "medium", "")

  const CurrentLocationText: string := "Current Location (Dhanmondi 27, Dhaka)"

  /** The states a submission passes through. */
  datatype Phase = Submitting | Succeeded | Closed

  function FieldValue(form: ReportForm, field: DialogField): string
  {
    match field
    case Title => form.title
    case Description => form.description
    case Category => form.category
    case Severity => form.severity
    case Location => form.location
  }

  /** handleInputChange: `{ ...prev, [field]: value }`. */
  function SetField(form: ReportForm, field: DialogField, value: string): (r: ReportForm)
    ensures FieldValue(r, field) == value
    ensures forall f :: f != field ==> FieldValue(r, f) == FieldValue(form, f)
  {
    match field
    case Title => form.(title := value)
    case Description => form.(description := value)
    case Category => form.(category := value)
    case Severity => form.(severity := value)
    case Location => form.(location := value)
  }

  /** handleSubmit's guard: title, category and location are filled. */
  predicate CanSubmit(form: ReportForm)
  {
    form.title != "" && form.category != "" && form.location != ""
  }

  /** The submit button's `disabled` expression. */
  predicate SubmitDisabled(loading: bool, form: ReportForm)
  {
    loading || form.title == "" || form.category == "" || form.location == ""
  }

  /** The button is enabled exactly when nothing is loading and a click would pass the guard;
      the description and the severity never matter, and the initial form cannot be
      submitted. */
  lemma SubmitGuardMeaning(loading: bool, form: ReportForm, description: string, severity: string)
    ensures !SubmitDisabled(loading, form) <==> !loading && CanSubmit(form)
    ensures CanSubmit(form) <==> forall f :: f in {Title, Category, Location} ==> FieldValue(form, f) != ""
    ensures CanSubmit(form) == CanSubmit(form.(description := description, severity := severity))
    ensures !CanSubmit(InitialForm)
  {
    if !CanSubmit(form) {
      if form.title == "" { assert FieldValue(form, Title) == ""; }
      else if form.category == "" { assert FieldValue(form, Category) == ""; }
      else { assert FieldValue(form, Location) == ""; }
    }
  }

  class ReportDialogState {
    var form: ReportForm
    var loading: bool
    var success: bool
    /** The phases submissions went through, oldest first. */
    var phases: seq<Phase>
    /** How often onClose was called. */
    var closeCalls: nat

    constructor()
      ensures form == InitialForm && !loading && !success && phases == [] && closeCalls == 0
    {
      form := InitialForm;
      loading := false;
      success := false;
      phases := [];
      closeCalls := 0;
    }

    /** handleInputChange */
    method HandleInputChange(field: DialogField, value: string)
      modifies this
      ensures form == SetField(old(form), field, value)
      ensures loading == old(loading) && success == old(success)
      ensures phases == old(phases) && closeCalls == old(closeCalls)
    {
      form := SetField(form, field, value);
    }

    /** handleGetCurrentLocation: only the location changes, to a fixed text. */
    method HandleGetCurrentLocation()
      modifies this
      ensures form == old(form).(location := CurrentLocationText)
      ensures loading == old(loading) && success == old(success)
      ensures phases == old(phases) && closeCalls == old(closeCalls)
    {
      HandleInputChange(Location, CurrentLocationText);
    }

    /** handleSubmit with both timers run. A form missing its title, category or location does
        nothing. Otherwise the dialog goes through loading, then success, then the reset to the
        initial form and one onClose call. */
    method HandleSubmit()
      modifies this
      ensures !CanSubmit(old(form)) ==>
                form == old(form) && loading == old(loading) && success == old(success)
                && phases == old(phases) && closeCalls == old(closeCalls)
      ensures CanSubmit(old(form)) ==>
                && phases == old(phases) + [Submitting, Succeeded, Closed]
                && form == InitialForm && !loading && !success
                && closeCalls == old(closeCalls) + 1
    {
      if form.title == "" || form.category == "" || form.location == "" {
        return;
      }
      loading := true;
      phases := phases + [Submitting];
      // First timer.
      loading := false;
      success := true;
      phases := phases + [Succeeded];
      // Second timer.
      success := false;
      form := InitialForm;
      closeCalls := closeCalls + 1;
      phases := phases + [Closed];
    }
  }
}
