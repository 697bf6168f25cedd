/**
 The scheduling parameters of the email step: the six named string parameters
 `getParams` builds, and the name/value parameters an existing job reports back.
 */
module Params {
  import opened Text

  const EmailTo: string := "_SCH_EMAIL_TO"
  const EmailCc: string := "_SCH_EMAIL_CC"
  const EmailBcc: string := "_SCH_EMAIL_BCC"
  const EmailSubject: string := "_SCH_EMAIL_SUBJECT"
  const EmailMessage: string := "_SCH_EMAIL_MESSAGE"
  const EmailAttachmentName: string := "_SCH_EMAIL_ATTACHMENT_NAME"

  /** The names `getParams` emits, in its order. */
  const EmailParamNames: seq<string> :=
    [EmailTo, EmailCc, EmailBcc, EmailSubject, EmailMessage, EmailAttachmentName]

  /** The type every emitted parameter carries. */
  const StringType: string := "string"

  /** A parameter as `getParams` builds it: `{name, stringValue, type}`. */
  datatype SchedulingParameter = SchedulingParameter(name: string, stringValue: string, paramType: string)

  /** A parameter of an already scheduled job, as the edit path reads it. */
  datatype JobParam = JobParam(name: string, value: string)

  /** An already scheduled job being edited: its name and its parameters, in order. */
  datatype Job = Job(jobName: string, jobParams: seq<JobParam>)

  /** `getParams(to, cc, bcc, subject, message, attachmentName)`. */
  function EmailParamList(to: string, cc: string, bcc: string, subject: string, message: string,
                          attachmentName: string): (r: seq<SchedulingParameter>)
    ensures |r| == |EmailParamNames|
    ensures forall i :: 0 <= i < |r| ==> r[i].name == EmailParamNames[i] && r[i].paramType == StringType
  {
    [SchedulingParameter(EmailTo, to, StringType),
     SchedulingParameter(EmailCc, cc, StringType),
     SchedulingParameter(EmailBcc, bcc, StringType),
     SchedulingParameter(EmailSubject, subject, StringType),
     SchedulingParameter(EmailMessage, message, StringType),
     SchedulingParameter(EmailAttachmentName, attachmentName, StringType)]
  }

  /** The emitted names are pairwise distinct, so every value can be found by its name. */
  lemma EmailParamNamesDistinct()
    ensures forall i, j :: 0 <= i < j < |EmailParamNames| ==> EmailParamNames[i] != EmailParamNames[j]
  {
  }

  /** The four names the edit path recognises are different strings. */
  lemma RecognisedNamesDiffer()
    ensures EmailTo != EmailSubject && EmailTo != EmailMessage && EmailTo != EmailAttachmentName
    ensures EmailSubject != EmailMessage && EmailSubject != EmailAttachmentName
    ensures EmailMessage != EmailAttachmentName
  {
    assert |EmailTo| == 13 && |EmailSubject| == 18 && |EmailMessage| == 18 && |EmailAttachmentName| == 26;
    assert EmailSubject[11] != EmailMessage[11];
  }

  /** The parameters once stored with a job and read back by name and value. */
  function AsJobParams(ps: seq<SchedulingParameter>): (r: seq<JobParam>)
    ensures |r| == |ps|
    ensures forall i :: 0 <= i < |ps| ==> r[i] == JobParam(ps[i].name, ps[i].stringValue)
  {
    if ps == [] then []
    else AsJobParams(ps[..|ps| - 1]) + [JobParam(ps[|ps| - 1].name, ps[|ps| - 1].stringValue)]
  }

  /** The value of the LAST parameter called `name`, if there is one. */
  function LastValue(ps: seq<JobParam>, name: string): Option<string> {
    if ps == [] then None
    else if ps[|ps| - 1].name == name then Some(ps[|ps| - 1].value)
    else LastValue(ps[..|ps| - 1], name)
  }

  /**
   `LastValue` finds a value exactly when some parameter has the name, and then it is
   the value of a parameter with that name after which no parameter has it.
   */
  lemma {:induction false} LastValueMeaning(ps: seq<JobParam>, name: string)
    ensures LastValue(ps, name).None? <==> forall i :: 0 <= i < |ps| ==> ps[i].name != name
    ensures LastValue(ps, name).Some? ==>
      exists i :: 0 <= i < |ps| && ps[i] == JobParam(name, LastValue(ps, name).value)
        && forall j :: i < j < |ps| ==> ps[j].name != name
    decreases |ps|
  {
    if ps != [] && ps[|ps| - 1].name != name {
      var init := ps[..|ps| - 1];
      LastValueMeaning(init, name);
      if LastValue(init, name).Some? {
        var i :| 0 <= i < |init| && init[i] == JobParam(name, LastValue(init, name).value)
          && forall j :: i < j < |init| ==> init[j].name != name;
        assert ps[i] == init[i];
      }
    }
  }

  /** A parameter with no namesake after it holds the last value of its name. */
  lemma LastValueAt(ps: seq<JobParam>, k: int)
    requires 0 <= k < |ps| && forall j :: k < j < |ps| ==> ps[j].name != ps[k].name
    ensures LastValue(ps, ps[k].name) == Some(ps[k].value)
  {
    LastValueMeaning(ps, ps[k].name);
  }

  /** Read back by name, the stored list gives each field the value it was emitted with. */
  lemma EmittedValues(to: string, cc: string, bcc: string, subject: string, message: string,
                      attachmentName: string)
    ensures var ps := AsJobParams(EmailParamList(to, cc, bcc, subject, message, attachmentName));
      LastValue(ps, EmailTo) == Some(to) && LastValue(ps, EmailCc) == Some(cc)
      && LastValue(ps, EmailBcc) == Some(bcc) && LastValue(ps, EmailSubject) == Some(subject)
      && LastValue(ps, EmailMessage) == Some(message)
      && LastValue(ps, EmailAttachmentName) == Some(attachmentName)
  {
    var ps := AsJobParams(EmailParamList(to, cc, bcc, subject, message, attachmentName));
    assert ps == [JobParam(EmailTo, to), JobParam(EmailCc, cc), JobParam(EmailBcc, bcc),
                  JobParam(EmailSubject, subject), JobParam(EmailMessage, message),
                  JobParam(EmailAttachmentName, attachmentName)];
    EmailParamNamesDistinct();
    LastValueAt(ps, 0);
    LastValueAt(ps, 1);
    LastValueAt(ps, 2);
    LastValueAt(ps, 3);
    LastValueAt(ps, 4);
    LastValueAt(ps, 5);
  }
}
