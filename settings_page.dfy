/** The general-settings admin page: the form filled from the stored
    `general` settings document and the payload saving writes. */
module SettingsPage {
  import opened Wrappers
  import opened Content

  const DefaultFrequency := "daily"
  const DefaultTime := "19:00"

  /** The form's state. The frequency is whatever was loaded or picked:
      a stored value other than "daily" or "weekly" is kept as it is. */
  datatype GeneralForm = GeneralForm(blogTitle: string, topic: string, frequency: string, time: string)

  const InitialForm := GeneralForm("", "", DefaultFrequency, DefaultTime)

  /** The document's schedule field, or none. */
  function ScheduleOf(stored: Option<GeneralDoc>): Option<ScheduleDoc> {
    stored.GetOr(EmptyGeneral).schedule
  }

  /** The load effect: each field is the stored value or its default
      (`??`), so a stored empty text is kept. */
  function Load(stored: Option<GeneralDoc>): (f: GeneralForm)
    ensures f.blogTitle == stored.GetOr(EmptyGeneral).blogTitle.GetOr("")
    ensures f.topic == stored.GetOr(EmptyGeneral).topic.GetOr("")
    ensures ScheduleOf(stored).None? ==> f.frequency == DefaultFrequency && f.time == DefaultTime
    ensures ScheduleOf(stored).Some? ==> f.frequency == ScheduleOf(stored).value.frequency.GetOr(DefaultFrequency)
                                         && f.time == ScheduleOf(stored).value.time.GetOr(DefaultTime)
  {
    var d := stored.GetOr(EmptyGeneral);
    var s := d.schedule.GetOr(ScheduleDoc(None, None));
    GeneralForm(d.blogTitle.GetOr(""), d.topic.GetOr(""), s.frequency.GetOr(DefaultFrequency),
                s.time.GetOr(DefaultTime))
  }

  /** With no stored document the form keeps its initial values. */
  lemma NothingStoredKeepsInitial()
    ensures Load(None) == InitialForm
  {
  }

  /** `onSave`'s payload: title, topic and the whole schedule; no base
      prompt and no comments switch. */
  function Save(f: GeneralForm): (w: GeneralDoc)
    ensures w.blogTitle == Some(f.blogTitle) && w.topic == Some(f.topic)
    ensures w.schedule == Some(ScheduleDoc(Some(f.frequency), Some(f.time)))
    ensures w.basePrompt.None? && w.commentsEnabled.None?
  {
    GeneralDoc(Some(f.blogTitle), Some(f.topic), None, Some(ScheduleDoc(Some(f.frequency), Some(f.time))), None)
  }

  /** Loading after saving reproduces the form exactly, whatever was stored
      before. */
  lemma SaveThenLoad(f: GeneralForm, stored: Option<GeneralDoc>)
    ensures Load(Some(MergeGeneral(stored, Save(f)))) == f
  {
  }

  /** Saving keeps the stored base prompt and comments switch. */
  lemma SaveKeepsOtherFields(f: GeneralForm, stored: Option<GeneralDoc>)
    ensures MergeGeneral(stored, Save(f)).basePrompt == stored.GetOr(EmptyGeneral).basePrompt
    ensures MergeGeneral(stored, Save(f)).commentsEnabled == stored.GetOr(EmptyGeneral).commentsEnabled
  {
  }

  /** An unrecognised stored frequency reaches the form unchecked. */
  lemma UnrecognisedFrequencyKept(stored: GeneralDoc, freq: string)
    requires stored.schedule == Some(ScheduleDoc(Some(freq), None))
    ensures Load(Some(stored)).frequency == freq && Load(Some(stored)).time == DefaultTime
  {
  }
}
