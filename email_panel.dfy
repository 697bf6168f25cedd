/**
 The email step of the scheduling wizard. The panel holds the yes/no choice, the four
 text fields, the visibility of the details and of the attachment field, the wizard's
 can-continue / can-finish flags and the externally supplied schedule parameters (as
 the text `JSONArray.toString()` gives). `Form` and `Prefill` say, as values, what the
 edit-mode loop of `layout` does to the fields.
 */
module EmailPanel {
  import opened Text
  import opened Params
  import DateFormat
  import FileNaming
  import Recipients

  /** Marks schedule parameters whose output is an HTML email: no attachment then. */
  const EmailMime: string := "mime-message/text/html"

  /** The part of the panel the edit-mode loop writes. */
  datatype Form = Form(
    yes: bool,
    no: bool,
    detailsVisible: bool,
    toAddress: string,
    subject: string,
    message: string,
    attachmentName: string)

  /** One iteration of the edit-mode loop: the parameter's name picks the field it overwrites. */
  function Apply(f: Form, p: JobParam): Form {
    if p.name == EmailTo then f.(yes := true, no := false, detailsVisible := true, toAddress := p.value)
    else if p.name == EmailSubject then f.(subject := p.value)
    else if p.name == EmailMessage then f.(message := p.value)
    else if p.name == EmailAttachmentName then f.(attachmentName := p.value)
    else f
  }

  /** The edit-mode loop over a job's parameters, in order. */
  function Prefill(f: Form, ps: seq<JobParam>): Form
    decreases |ps|
  {
    if ps == [] then f else Apply(Prefill(f, ps[..|ps| - 1]), ps[|ps| - 1])
  }

  /** One more parameter is one more `Apply`. */
  lemma PrefillStep(f: Form, ps: seq<JobParam>, i: nat)
    requires i < |ps|
    ensures Prefill(f, ps[..i + 1]) == Apply(Prefill(f, ps[..i]), ps[i])
  {
    assert ps[..i + 1][..i] == ps[..i];
  }

  /**
   Pre-population, field by field: the last parameter of each recognised name wins.
   Other names (CC and BCC among them) change nothing.
   */
  lemma {:induction false} PrefillLastWins(f: Form, ps: seq<JobParam>)
    ensures Prefill(f, ps).toAddress == LastValue(ps, EmailTo).GetOr(f.toAddress)
    ensures Prefill(f, ps).subject == LastValue(ps, EmailSubject).GetOr(f.subject)
    ensures Prefill(f, ps).message == LastValue(ps, EmailMessage).GetOr(f.message)
    ensures Prefill(f, ps).attachmentName == LastValue(ps, EmailAttachmentName).GetOr(f.attachmentName)
    decreases |ps|
  {
    if ps != [] {
      var init, last := ps[..|ps| - 1], ps[|ps| - 1];
      PrefillLastWins(f, init);
      RecognisedNamesDiffer();
      assert Prefill(f, ps) == Apply(Prefill(f, init), last);
    }
  }

  /**
   A `_SCH_EMAIL_TO` parameter selects "yes" and shows the details; without one the
   choice and the visibility stay as they were.
   */
  lemma {:induction false} PrefillChoice(f: Form, ps: seq<JobParam>)
    ensures Prefill(f, ps).yes == (f.yes || LastValue(ps, EmailTo).Some?)
    ensures Prefill(f, ps).no == (f.no && LastValue(ps, EmailTo).None?)
    ensures Prefill(f, ps).detailsVisible == (f.detailsVisible || LastValue(ps, EmailTo).Some?)
    decreases |ps|
  {
    if ps != [] {
      var init, last := ps[..|ps| - 1], ps[|ps| - 1];
      PrefillChoice(f, init);
      assert Prefill(f, ps) == Apply(Prefill(f, init), last);
    }
  }

  /** The edit-mode loop keeps the two radio buttons opposite. */
  lemma {:induction false} PrefillKeepsChoiceExclusive(f: Form, ps: seq<JobParam>)
    requires f.yes == !f.no
    ensures Prefill(f, ps).yes == !Prefill(f, ps).no
    decreases |ps|
  {
    if ps != [] {
      PrefillKeepsChoiceExclusive(f, ps[..|ps| - 1]);
    }
  }

  /**
   Emission and pre-population are inverse: editing a job whose parameters are the ones
   this step emitted restores the "yes" choice and the four fields, whatever the panel
   held before.
   */
  lemma EmitThenPrefill(f: Form, g: Form)
    ensures Prefill(f, AsJobParams(EmailParamList(g.toAddress, "", "", g.subject, g.message, g.attachmentName)))
         == Form(true, false, true, g.toAddress, g.subject, g.message, g.attachmentName)
  {
    var ps := AsJobParams(EmailParamList(g.toAddress, "", "", g.subject, g.message, g.attachmentName));
    EmittedValues(g.toAddress, "", "", g.subject, g.message, g.attachmentName);
    PrefillLastWins(f, ps);
    PrefillChoice(f, ps);
  }

  /** Label and field of the attachment name are shown unless the parameters ask for an HTML email. */
  function AttachmentVisible(scheduleParams: Option<string>): (r: bool)
    ensures !r <==> scheduleParams.Some? && exists i :: MatchAt(scheduleParams.value, EmailMime, i)
  {
    !(scheduleParams.Some? && Contains(scheduleParams.value, EmailMime))
  }

  /**
   A localised message with one `{0}` placeholder, as the message bundle supplies it:
   the text before and the text after the placeholder.
   */
  datatype Message = Message(before: string, after: string) {
    /** The message with `arg` in place of `{0}`. */
    function Fill(arg: string): string {
      before + arg + after
    }
  }

  /** The fields as `layout` sets them before it looks at the edited job's parameters. */
  function InitialForm(filePath: string, js: DateFormat.JobSchedule, editJob: Option<Job>,
                       subjectText: Message): Form
    requires editJob.Some? || js.jobName.Some?
  {
    Form(
      yes := false,
      no := true,
      detailsVisible := false,
      toAddress := "",
      subject := subjectText.Fill(FileNaming.BaseName(filePath)),
      message := "",
      attachmentName := FileNaming.DefaultAttachmentName(js, EditJobName(editJob)))
  }

  /** The name of the edited job, none for a new job. */
  function EditJobName(editJob: Option<Job>): Option<string> {
    if editJob.Some? then Some(editJob.value.jobName) else None
  }

  /** The parameters of the edited job, none for a new job. */
  function EditParams(editJob: Option<Job>): seq<JobParam> {
    if editJob.Some? then editJob.value.jobParams else []
  }

  class ScheduleEmailWizardPanel {
    const filePath: string
    const jobSchedule: DateFormat.JobSchedule
    var scheduleParams: Option<string>

    var yes: bool
    var no: bool
    var toAddress: string
    var subject: string
    var message: string
    var attachmentName: string

    var detailsVisible: bool
    var attachmentLabelVisible: bool
    var attachmentFieldVisible: bool
    var canContinue: bool
    var canFinish: bool

    /** The two radio buttons are opposite; label and attachment field are shown together. */
    ghost predicate Valid()
      reads this
    {
      yes == !no && attachmentLabelVisible == attachmentFieldVisible
    }

    /** The fields the edit-mode loop writes. */
    function FormOf(): Form
      reads this
    {
      Form(yes, no, detailsVisible, toAddress, subject, message, attachmentName)
    }

    /**
     The constructor runs `layout(editJob)` and then `addPanel`, whose
     `panelWidgetChanged` sets the wizard flags and the attachment visibility. The
     localised default subject is the message `subjectText` filled with the friendly
     file name.
     */
    constructor (filePath: string, jobSchedule: DateFormat.JobSchedule, editJob: Option<Job>,
                 scheduleParams: Option<string>, subjectText: Message)
      requires editJob.Some? || jobSchedule.jobName.Some?
      ensures Valid()
      ensures this.filePath == filePath && this.jobSchedule == jobSchedule
      ensures this.scheduleParams == scheduleParams
      ensures FormOf() == Prefill(InitialForm(filePath, jobSchedule, editJob, subjectText), EditParams(editJob))
      ensures canContinue == canFinish == (no || Recipients.PlausibleRecipients(toAddress))
      ensures attachmentFieldVisible == AttachmentVisible(scheduleParams)
    {
      this.filePath := filePath;
      this.jobSchedule := jobSchedule;
      this.scheduleParams := scheduleParams;
      yes, no, detailsVisible := false, false, true;
      toAddress, subject, message, attachmentName := "", "", "", "";
      attachmentLabelVisible := true;
      attachmentFieldVisible := true;
      canContinue := true;
      canFinish := true;
      new;
      Layout(editJob, subjectText.Fill(FileNaming.BaseName(filePath)),
             FileNaming.DefaultAttachmentName(jobSchedule, EditJobName(editJob)));
      PanelWidgetChanged();
    }

    /**
     `layout(job)` on freshly built widgets (empty "to" and message texts): select "no",
     hide the details, fill in the default subject and attachment name it derived from
     the file path and the descriptor, then run the edit-mode loop over the edited job's
     parameters.
     */
    method Layout(editJob: Option<Job>, defaultSubject: string, defaultAttachmentName: string)
      requires toAddress == "" && message == "" && attachmentLabelVisible == attachmentFieldVisible
      modifies this`yes, this`no, this`detailsVisible, this`toAddress, this`subject, this`message,
        this`attachmentName
      ensures Valid()
      ensures FormOf() == Prefill(Form(false, true, false, "", defaultSubject, "", defaultAttachmentName),
                                  EditParams(editJob))
    {
      no := true;
      yes := false;
      detailsVisible := false;
      subject := defaultSubject;
      attachmentName := defaultAttachmentName;
      if editJob.Some? {
        PrePopulate(editJob.value.jobParams);
      }
    }

    /** The edit-mode loop of `layout`: each recognised parameter overwrites its field. */
    method PrePopulate(jparams: seq<JobParam>)
      requires Valid()
      modifies this`yes, this`no, this`detailsVisible, this`toAddress, this`subject, this`message,
        this`attachmentName
      ensures Valid()
      ensures FormOf() == Prefill(old(FormOf()), jparams)
    {
      var i := 0;
      while i < |jparams|
        invariant 0 <= i <= |jparams|
        invariant Valid()
        invariant FormOf() == Prefill(old(FormOf()), jparams[..i])
      {
        var p := jparams[i];
        ghost var before := FormOf();
        if p.name == EmailTo {
          yes := true;
          no := false;
          detailsVisible := true;
          toAddress := p.value;
        } else if p.name == EmailSubject {
          subject := p.value;
        } else if p.name == EmailMessage {
          message := p.value;
        } else if p.name == EmailAttachmentName {
          attachmentName := p.value;
        }
        assert FormOf() == Apply(before, p);
        PrefillStep(old(FormOf()), jparams, i);
        i := i + 1;
      }
      assert jparams[..i] == jparams;
    }

    /** `isValidConfig()`: always true when "no" is chosen, otherwise the recipient test. */
    method IsValidConfig() returns (ok: bool)
      ensures no ==> ok
      ensures !no ==> (ok <==> Recipients.PlausibleRecipients(toAddress))
    {
      if no {
        return true;
      }
      Recipients.RecipientCheckMeaning(toAddress);
      ok := Recipients.RecipientCheck(toAddress);
    }

    /** `getEmailParams()`: the six parameters when "yes" is chosen, none otherwise. */
    method GetEmailParams() returns (r: Option<seq<SchedulingParameter>>)
      ensures r.None? <==> !yes
      ensures r.Some? ==> |r.value| == 6
      ensures r.Some? ==> forall i :: 0 <= i < 6 ==> r.value[i].name == EmailParamNames[i]
      ensures r.Some? ==> forall i :: 0 <= i < 6 ==> r.value[i].paramType == StringType
      ensures r.Some? ==>
        r.value[0].stringValue == toAddress && r.value[1].stringValue == ""
        && r.value[2].stringValue == "" && r.value[3].stringValue == subject
        && r.value[4].stringValue == message && r.value[5].stringValue == attachmentName
    {
      if yes {
        r := Some(EmailParamList(toAddress, "", "", subject, message, attachmentName));
      } else {
        r := None;
      }
    }

    /** `setScheduleParams`: only stores the parameters; visibility is not re-evaluated here. */
    method SetScheduleParams(scheduleParams: Option<string>)
      modifies this`scheduleParams
      ensures this.scheduleParams == scheduleParams
    {
      this.scheduleParams := scheduleParams;
    }

    /** `toggleAttachmentFields()`: hide label and field exactly for an HTML email. */
    method ToggleAttachmentFields()
      modifies this`attachmentLabelVisible, this`attachmentFieldVisible
      ensures attachmentLabelVisible == attachmentFieldVisible == AttachmentVisible(scheduleParams)
    {
      if scheduleParams.Some? && Contains(scheduleParams.value, EmailMime) {
        attachmentLabelVisible := false;
        attachmentFieldVisible := false;
      } else {
        attachmentLabelVisible := true;
        attachmentFieldVisible := true;
      }
    }

    /** `panelWidgetChanged`: refresh the wizard flags, then the attachment visibility. */
    method PanelWidgetChanged()
      requires Valid()
      modifies this`canContinue, this`canFinish, this`attachmentLabelVisible, this`attachmentFieldVisible
      ensures Valid() && FormOf() == old(FormOf())
      ensures canContinue == canFinish == (no || Recipients.PlausibleRecipients(toAddress))
      ensures attachmentFieldVisible == AttachmentVisible(scheduleParams)
    {
      canContinue := IsValidConfig();
      canFinish := IsValidConfig();
      ToggleAttachmentFields();
    }

    /** A click on "yes": select it, show the details, refresh the wizard flags. */
    method ChooseYes()
      requires Valid()
      modifies this`yes, this`no, this`detailsVisible, this`canContinue, this`canFinish
      ensures Valid()
      ensures yes && !no && detailsVisible
      ensures canContinue == canFinish == Recipients.PlausibleRecipients(toAddress)
    {
      yes := true;
      no := false;
      detailsVisible := yes;
      canContinue := IsValidConfig();
      canFinish := IsValidConfig();
    }

    /** A click on "no": select it, hide the details; the step is then always complete. */
    method ChooseNo()
      requires Valid()
      modifies this`yes, this`no, this`detailsVisible, this`canContinue, this`canFinish
      ensures Valid()
      ensures no && !yes && !detailsVisible
      ensures canContinue && canFinish
    {
      no := true;
      yes := false;
      detailsVisible := !no;
      canContinue := IsValidConfig();
      canFinish := IsValidConfig();
    }

    /** The user edits the "to" text; the key-up handler refreshes the wizard flags. */
    method EditToAddress(text: string)
      requires Valid()
      modifies this`toAddress, this`canContinue, this`canFinish
      ensures Valid()
      ensures toAddress == text
      ensures canContinue == canFinish == (no || Recipients.PlausibleRecipients(text))
    {
      toAddress := text;
      canContinue := IsValidConfig();
      canFinish := IsValidConfig();
    }
  }

  /**
   A panel built to edit a job that has a `_SCH_EMAIL_TO` parameter starts on "yes" with
   the details shown and that recipient; without one it starts on "no", details hidden.
   */
  lemma EditedJobChoice(filePath: string, js: DateFormat.JobSchedule, job: Job, subjectText: Message)
    ensures var f := Prefill(InitialForm(filePath, js, Some(job), subjectText), job.jobParams);
      (f.yes <==> LastValue(job.jobParams, EmailTo).Some?)
      && f.no == !f.yes && f.detailsVisible == f.yes
      && f.toAddress == LastValue(job.jobParams, EmailTo).GetOr("")
  {
    PrefillLastWins(InitialForm(filePath, js, Some(job), subjectText), job.jobParams);
    PrefillChoice(InitialForm(filePath, js, Some(job), subjectText), job.jobParams);
  }
}
