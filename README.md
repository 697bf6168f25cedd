# Email step of the scheduling wizard, modelled in Dafny

This project models `ScheduleEmailWizardPanel`, the "email options" step of the Pentaho
scheduling wizard. The step asks whether the scheduled job should send an email and
collects four fields: recipients, subject, attachment name and message. It pre-fills them
for a new job or from an edited job, checks the recipient text, hides the attachment name
for HTML email output, and hands the scheduler six named string parameters.

The model is split by concern:

- `text.dfy`, module `Text`: the `java.lang.String` operations the panel relies on
  (`indexOf`, `lastIndexOf`, `substring` as a failure when out of range, `contains`,
  `replaceAll` of one character), and an `Option` type. They follow Java's semantics, except
  that a string is a sequence of Unicode scalar values rather than UTF-16 code units (see
  Left out).
- `date_format.dfy`, module `DateFormat`: `applyDateFormat` and `appendName`, the job-schedule
  descriptor they read, and a generic reference reading of the pattern names (`Render`).
- `file_naming.dfy`, module `FileNaming`: the friendly file name behind the default subject,
  and the default attachment name.
- `recipients.dfy`, module `Recipients`: the recipient test of `isValidConfig`.
- `params.dfy`, module `Params`: the emitted parameter list, the edited job and its
  parameters.
- `email_panel.dfy`, module `EmailPanel`: the class `ScheduleEmailWizardPanel`, holding the
  mutable panel state, and the value-level specification (`Form`, `Prefill`) of the
  edit-mode loop in `layout`. `layout` is the method `Layout`, which receives the default
  subject and attachment name the constructor derives.

Behaviours the code has that a quick reading might not expect, all modelled as the code has them:

- A missing `appendDateFormat` does not give the "null" sentinel. `String.valueOf` of the
  missing member is the text `"null"`, which is just an unknown pattern, so the suffix is
  `""` whenever the start time is usable (`DateFormat.MissingPattern`).
- `setScheduleParams` only stores the new parameters. The attachment field's visibility is
  recomputed only by `panelWidgetChanged` (`toggleAttachmentFields`).
- `stringEnd != "null"` compares references. It still behaves like a value comparison:
  the sentinel is only ever the literal, and `applyDateFormat` never returns a four-character
  text (`DateFormat.ApplyDateFormat` ensures its result is never the sentinel).
- `StringUtils.isEmpty` may or may not trim. It makes no difference here, because a
  blank text has no `@` and fails the check anyway.

## Model

| member | source | states |
|---|---|---|
| `DateFormat.ApplyDateFormat` | ui/src/main/java/org/pentaho/mantle/client/dialogs/scheduling/ScheduleEmailWizardPanel.java:256-279 | fails (the source throws) exactly when the timestamp has fewer than 19 characters, whatever the pattern; a recognised pattern gives as many characters as its name has, any other pattern gives ""; the result is never the "null" sentinel |
| `DateFormat.ApplyDateFormatRendersPattern` | ui/src/main/java/org/pentaho/mantle/client/dialogs/scheduling/ScheduleEmailWizardPanel.java:264-278 | each of the six hard-coded branches equals the generic reading of its pattern name (`yyyy`, `yy`, `MM`, `dd`, `HH`, `mm`, `ss` replaced by positions 0-3, 2-3, 5-6, 8-9, 11-12, 14-15, 17-18; other characters copied) |
| `DateFormat.IsoDatePattern` | ui/src/main/java/org/pentaho/mantle/client/dialogs/scheduling/ScheduleEmailWizardPanel.java:265-266 | on a `yyyy-MM-ddTHH:mm:ss` timestamp the `yyyy-MM-dd` pattern yields exactly its first ten characters |
| `DateFormat.AppendNameMeaning` | ui/src/main/java/org/pentaho/mantle/client/dialogs/scheduling/ScheduleEmailWizardPanel.java:241-254 | the result is the sentinel exactly when the trigger is missing or not an object, or the unquoted start time is shorter than 19 characters; otherwise it is `applyDateFormat` of the unquoted pattern and start time |
| `DateFormat.UnquoteJsonString` | ui/src/main/java/org/pentaho/mantle/client/dialogs/scheduling/ScheduleEmailWizardPanel.java:246-247 | dropping every `"` from the JSON text of a string value without quotes gives the value back |
| `DateFormat.MissingStartTime` | ui/src/main/java/org/pentaho/mantle/client/dialogs/scheduling/ScheduleEmailWizardPanel.java:245-252 | a trigger without `startTime` gives the sentinel |
| `DateFormat.MissingPattern` | ui/src/main/java/org/pentaho/mantle/client/dialogs/scheduling/ScheduleEmailWizardPanel.java:243-248 | a missing `appendDateFormat` with a usable start time gives the empty suffix |
| `DateFormat.AppendNameOfQuotedValues` | ui/src/main/java/org/pentaho/mantle/client/dialogs/scheduling/ScheduleEmailWizardPanel.java:243-249 | with both members JSON strings, the suffix is the pattern applied to the start time |
| `FileNaming.LastSegmentIsSuffix` | ui/src/main/java/org/pentaho/mantle/client/dialogs/scheduling/ScheduleEmailWizardPanel.java:155 | the result is a suffix of the path without `/`, preceded in the path by a `/` unless it is the whole path |
| `FileNaming.FriendlyName` | ui/src/main/java/org/pentaho/mantle/client/dialogs/scheduling/ScheduleEmailWizardPanel.java:154-159 | the computation as written fails exactly when the path has a `.` but its last segment has none |
| `FileNaming.BaseNameHasNoSlash` | ui/src/main/java/org/pentaho/mantle/client/dialogs/scheduling/ScheduleEmailWizardPanel.java:154-159 | the friendly name (`BaseName`) has no `/` |
| `FileNaming.BaseNameDropsExtension` | ui/src/main/java/org/pentaho/mantle/client/dialogs/scheduling/ScheduleEmailWizardPanel.java:154-159 | the friendly name is the last segment when that has no `.`, otherwise the segment minus a suffix that starts at its last `.` |
| `FileNaming.FriendlyNameIsBaseName` | ui/src/main/java/org/pentaho/mantle/client/dialogs/scheduling/ScheduleEmailWizardPanel.java:154-159 | wherever the source's computation succeeds it gives `BaseName` |
| `FileNaming.DotInDirectoryOnly` | ui/src/main/java/org/pentaho/mantle/client/dialogs/scheduling/ScheduleEmailWizardPanel.java:156-158 | for "/my.dir/report" the source's computation fails while `BaseName` gives "report" |
| `FileNaming.ReportXml` | ui/src/main/java/org/pentaho/mantle/client/dialogs/scheduling/ScheduleEmailWizardPanel.java:154-159 | "/home/user/report.xml" gives "report" |
| `FileNaming.AttachmentNameShape` | ui/src/main/java/org/pentaho/mantle/client/dialogs/scheduling/ScheduleEmailWizardPanel.java:164-170 | the job name is always a prefix; the name equals the job name exactly when the suffix is the sentinel or empty; otherwise the suffix follows the job name |
| `FileNaming.DefaultAttachmentNameStartsWithJobName` | ui/src/main/java/org/pentaho/mantle/client/dialogs/scheduling/ScheduleEmailWizardPanel.java:161-179 | starts with the edited job's name, else the descriptor's `jobName`, and adds nothing exactly when `appendName` gives the sentinel or "" |
| `Text.IndexOfMeaning` | ui/src/main/java/org/pentaho/mantle/client/dialogs/scheduling/ScheduleEmailWizardPanel.java:305 | `indexOf` is -1 exactly when the character is absent, otherwise it is the position of its first occurrence |
| `Text.LastIndexOfMeaning` | ui/src/main/java/org/pentaho/mantle/client/dialogs/scheduling/ScheduleEmailWizardPanel.java:154-158 | `lastIndexOf` is -1 exactly when the character is absent, otherwise it is the position of its last occurrence |
| `Text.Contains` | ui/src/main/java/org/pentaho/mantle/client/dialogs/scheduling/ScheduleEmailWizardPanel.java:283 | `contains` holds exactly when some window of the text spells the searched text |
| `Text.RemoveAll` | ui/src/main/java/org/pentaho/mantle/client/dialogs/scheduling/ScheduleEmailWizardPanel.java:246-247 | `replaceAll` of one character leaves none of it, never lengthens the text and leaves a text without it unchanged |
| `Text.RemoveAllKeepsOthers` | ui/src/main/java/org/pentaho/mantle/client/dialogs/scheduling/ScheduleEmailWizardPanel.java:246-247 | every character other than the removed one is kept, as often as the text has it |
| `Text.RemoveAllSingle` | ui/src/main/java/org/pentaho/mantle/client/dialogs/scheduling/ScheduleEmailWizardPanel.java:246-247 | a one-character text loses its character exactly when it is the removed one |
| `Text.RemoveAllAppend` | ui/src/main/java/org/pentaho/mantle/client/dialogs/scheduling/ScheduleEmailWizardPanel.java:246-247 | removal distributes over concatenation; with `Text.RemoveAllSingle` this makes it the filter that keeps the other characters in order |
| `Recipients.RecipientCheckMeaning` | ui/src/main/java/org/pentaho/mantle/client/dialogs/scheduling/ScheduleEmailWizardPanel.java:301-310 | the test accepts exactly a text that does not start with `@`, has an `@` before its last character, and does not use both `;` and `,` |
| `Recipients.RecipientExamples` | ui/src/main/java/org/pentaho/mantle/client/dialogs/scheduling/ScheduleEmailWizardPanel.java:301-310 | "a@b.com" and "a@b;c@d" pass; "", "@abc", "abc@", "a@b;c@d,e@f" and "@a@b" fail |
| `Params.EmailParamList` | ui/src/main/java/org/pentaho/mantle/client/dialogs/scheduling/ScheduleEmailWizardPanel.java:75-110 | six parameters, named TO, CC, BCC, SUBJECT, MESSAGE, ATTACHMENT_NAME in that order, all of type "string" |
| `Params.EmittedValues` | ui/src/main/java/org/pentaho/mantle/client/dialogs/scheduling/ScheduleEmailWizardPanel.java:75-110 | looked up by name, the emitted list gives back each value it was built from |
| `Params.LastValueMeaning` | ui/src/main/java/org/pentaho/mantle/client/dialogs/scheduling/ScheduleEmailWizardPanel.java:219-232 | the last-value lookup finds a value exactly when some parameter has the name, and it is the value of the last such parameter |
| `EmailPanel.PrefillLastWins` | ui/src/main/java/org/pentaho/mantle/client/dialogs/scheduling/ScheduleEmailWizardPanel.java:217-233 | after the edit-mode loop each field holds the value of the last parameter of its name, or keeps its value when there is none; other names change nothing |
| `EmailPanel.PrefillChoice` | ui/src/main/java/org/pentaho/mantle/client/dialogs/scheduling/ScheduleEmailWizardPanel.java:219-225 | after the edit-mode loop "yes" is chosen and the details are shown exactly when they were before or there was a TO parameter; "no" stays chosen exactly when it was and there was no TO parameter |
| `EmailPanel.PrefillKeepsChoiceExclusive` | ui/src/main/java/org/pentaho/mantle/client/dialogs/scheduling/ScheduleEmailWizardPanel.java:220-222 | the loop keeps exactly one of the two radio buttons selected |
| `EmailPanel.EmitThenPrefill` | ui/src/main/java/org/pentaho/mantle/client/dialogs/scheduling/ScheduleEmailWizardPanel.java:217-233 | editing a job whose parameters this step emitted restores "yes", the shown details and the four fields, whatever the panel held |
| `EmailPanel.EditedJobChoice` | ui/src/main/java/org/pentaho/mantle/client/dialogs/scheduling/ScheduleEmailWizardPanel.java:144-145 | an edited job starts on "yes" with details shown and its recipient exactly when it has a TO parameter; otherwise on "no", details hidden, recipient empty |
| `EmailPanel.AttachmentVisible` | ui/src/main/java/org/pentaho/mantle/client/dialogs/scheduling/ScheduleEmailWizardPanel.java:283 | hidden exactly when parameters are supplied and their text contains "mime-message/text/html" |
| `EmailPanel.ScheduleEmailWizardPanel.constructor` | ui/src/main/java/org/pentaho/mantle/client/dialogs/scheduling/ScheduleEmailWizardPanel.java:62-73 | the fields are the layout defaults followed by the edit-mode loop over the edited job's parameters; the wizard flags are the validity; the attachment visibility follows the supplied parameters |
| `EmailPanel.ScheduleEmailWizardPanel.Layout` | ui/src/main/java/org/pentaho/mantle/client/dialogs/scheduling/ScheduleEmailWizardPanel.java:121-234 | starting from an empty form, the fields are "no" chosen, details hidden, empty recipient and message, the default subject and attachment name, followed by the edit-mode loop over the edited job's parameters |
| `EmailPanel.ScheduleEmailWizardPanel.PrePopulate` | ui/src/main/java/org/pentaho/mantle/client/dialogs/scheduling/ScheduleEmailWizardPanel.java:217-233 | the loop leaves the form equal to `Prefill` of the old form and keeps the radio buttons exclusive; it may change only the form fields |
| `EmailPanel.ScheduleEmailWizardPanel.IsValidConfig` | ui/src/main/java/org/pentaho/mantle/client/dialogs/scheduling/ScheduleEmailWizardPanel.java:297-311 | always true with "no" chosen; otherwise true exactly for plausible recipients |
| `EmailPanel.ScheduleEmailWizardPanel.GetEmailParams` | ui/src/main/java/org/pentaho/mantle/client/dialogs/scheduling/ScheduleEmailWizardPanel.java:112-119 | no list exactly when "yes" is not chosen; otherwise the six named string parameters carrying the recipient, empty CC and BCC, subject, message and attachment name |
| `EmailPanel.ScheduleEmailWizardPanel.SetScheduleParams` | ui/src/main/java/org/pentaho/mantle/client/dialogs/scheduling/ScheduleEmailWizardPanel.java:319-321 | stores the parameters and changes nothing else |
| `EmailPanel.ScheduleEmailWizardPanel.ToggleAttachmentFields` | ui/src/main/java/org/pentaho/mantle/client/dialogs/scheduling/ScheduleEmailWizardPanel.java:281-291 | label and field get the same visibility, `AttachmentVisible` of the stored parameters |
| `EmailPanel.ScheduleEmailWizardPanel.PanelWidgetChanged` | ui/src/main/java/org/pentaho/mantle/client/dialogs/scheduling/ScheduleEmailWizardPanel.java:313-317 | both wizard flags become the validity, and the attachment visibility is refreshed |
| `EmailPanel.ScheduleEmailWizardPanel.ChooseYes` | ui/src/main/java/org/pentaho/mantle/client/dialogs/scheduling/ScheduleEmailWizardPanel.java:136-143 | "yes" selected, details shown, flags equal to the recipient test |
| `EmailPanel.ScheduleEmailWizardPanel.ChooseNo` | ui/src/main/java/org/pentaho/mantle/client/dialogs/scheduling/ScheduleEmailWizardPanel.java:129-135 | "no" selected, details hidden, both flags true |
| `EmailPanel.ScheduleEmailWizardPanel.EditToAddress` | ui/src/main/java/org/pentaho/mantle/client/dialogs/scheduling/ScheduleEmailWizardPanel.java:191-196 | the new recipient text is stored and both flags follow the validity |

## Left out

- Widget construction and layout: table cells, style names, element ids, visible lengths and labels. They carry no behaviour beyond the visibility flags modelled.
- The focus timer `setFocus`. It is a polling workaround for asynchronous rendering and has no functional result. `ChooseYes` does not model it.
- Localisation. `Messages.getString` is not part of this model. The localised subject is the constructor parameter `subjectText`, a `Message` holding the text before and after its `{0}` placeholder, filled with the friendly name. `getName`, a pure message lookup, is left out.
- JSON access. The descriptor is a value with an optional `jobName` string and the JSON text of `appendDateFormat` and `simpleJobTrigger.startTime`. The schedule parameters are the text `JSONArray.toString()` gives. JSON escaping of special characters inside string values is not modelled.
- The JSNI body of `getParams` is modelled as a pure sequence constructor (`Params.EmailParamList`).
- The static `emailSchedulePanel` shared by all panels. Its visibility is the per-panel field `detailsVisible`. Sharing across instances is not modelled.
- `canContinue`/`canFinish` belong to the wizard base class, which is not part of this model. Here they are plain fields.
- The three-argument constructor only passes no schedule parameters to the four-argument one. It is covered by `scheduleParams == None`.
- EmailPanel.ScheduleEmailWizardPanel.constructor: requires a string `jobName` in the descriptor when no job is edited. The source would dereference a missing value and throw out of its constructor there.
- EmailPanel.ScheduleEmailWizardPanel.constructor: uses the corrected friendly name `FileNaming.BaseName` (see Findings) for the default subject. The source's constructor throws on a path whose only `.` is in a directory name. On every other path the two agree (`FileNaming.FriendlyNameIsBaseName`).
- Strings are sequences of Unicode scalar values, not Java's UTF-16 code units. Lengths and positions differ only on texts holding a character outside the Basic Multilingual Plane. Of the operations modelled this changes only the fixed positions `applyDateFormat` reads from the start time: a start time with such a character among its first 19 units can succeed in Java and fail here. The recipient test and the path split look only for `@`, `;`, `,`, `/` and `.`, which are single units, so they are unaffected.
- `ScheduleParamsDialogTest.java` tests a different dialog whose source is not part of this model.

## Findings

| source | as written | input that shows it | evidently intended | confidence | as-written member | corrected member |
|---|---|---|---|---|---|---|
| ui/src/main/java/org/pentaho/mantle/client/dialogs/scheduling/ScheduleEmailWizardPanel.java:154-159 | whether to strip an extension is decided by a `.` anywhere in the path, but the extension is cut from the last segment | "/my.dir/report": `lastIndexOf(".")` on the segment is -1 and `substring(0, -1)` throws, so the panel cannot be built | decide on the last segment, giving "report" | high; not executed | `FileNaming.DotInDirectoryOnly` | `FileNaming.BaseNameDropsExtension` |
