/** The `PUT /api/settings` handler: the update schema, the field-wise `??`
    merge with the stored general settings, and the merge write. */
module SettingsApi {
  import opened Wrappers
  import opened JsText
  import opened Json
  import opened Content

  /** A schedule update that passed the schema. */
  datatype ScheduleUpdate = ScheduleUpdate(frequency: Option<string>, time: Option<string>)

  /** An update that passed the schema; `None` is an omitted field. */
  datatype SettingsUpdate = SettingsUpdate(
    blogTitle: Option<string>,
    topic: Option<string>,
    basePrompt: Option<string>,
    schedule: Option<ScheduleUpdate>)

  /** The merged settings the handler writes and answers with. */
  datatype Settings = Settings(blogTitle: string, topic: string, basePrompt: string, frequency: string, time: string)

  /** Why the handler answered 400. */
  datatype Failure =
    | InvalidJson          // the body is not JSON
    | SchemaRejected       // the body does not match the update schema
    | MissingSchedule      // a stored document without `schedule` was dereferenced

  datatype Answer = BadRequest(why: Failure) | Saved(settings: Settings, stored: GeneralDoc)

  /** `/^\d{2}:\d{2}$/`: two ASCII digits, a colon, two ASCII digits. */
  predicate TimeShaped(t: string) {
    |t| == 5 && IsDigit(t[0]) && IsDigit(t[1]) && t[2] == ':' && IsDigit(t[3]) && IsDigit(t[4])
  }

  predicate IsFrequency(s: string) {
    s == "daily" || s == "weekly"
  }

  /** `z.string().optional()`: absent is allowed, `null` and non-strings are not. */
  function OptionalString(v: JsValue): (r: Option<Option<string>>)
    ensures r == None <==> !(v.JUndefined? || v.JStr?)
    ensures v.JStr? ==> r == Some(Some(v.s))
  {
    match v
    case JUndefined => Some(None)
    case JStr(s) => Some(Some(s))
    case _ => None
  }

  function ParseFrequency(v: JsValue): (r: Option<Option<string>>)
    ensures r.Some? && r.value.Some? ==> IsFrequency(r.value.value)
    ensures r == None <==> !(v.JUndefined? || (v.JStr? && IsFrequency(v.s)))
  {
    match v
    case JUndefined => Some(None)
    case JStr(s) => if IsFrequency(s) then Some(Some(s)) else None
    case _ => None
  }

  function ParseTime(v: JsValue): (r: Option<Option<string>>)
    ensures r.Some? && r.value.Some? ==> TimeShaped(r.value.value)
    ensures r == None <==> !(v.JUndefined? || (v.JStr? && TimeShaped(v.s)))
  {
    match v
    case JUndefined => Some(None)
    case JStr(s) => if TimeShaped(s) then Some(Some(s)) else None
    case _ => None
  }

  function ParseSchedule(v: JsValue): (r: Option<Option<ScheduleUpdate>>)
    ensures v.JUndefined? ==> r == Some(None)
    ensures !(v.JUndefined? || v.JObj?) ==> r == None
  {
    match v
    case JUndefined => Some(None)
    case JObj(f) =>
      var fr := ParseFrequency(Get(v, "frequency"));
      var ti := ParseTime(Get(v, "time"));
      if fr.Some? && ti.Some? then Some(Some(ScheduleUpdate(fr.value, ti.value))) else None
    case _ => None
  }

  /** `SettingsUpdateSchema.parse`; unknown keys are dropped. */
  function ParseUpdate(payload: JsValue): (r: Option<SettingsUpdate>)
    ensures !payload.JObj? ==> r == None
    ensures r.Some? && r.value.schedule.Some? && r.value.schedule.value.frequency.Some? ==>
              IsFrequency(r.value.schedule.value.frequency.value)
    ensures r.Some? && r.value.schedule.Some? && r.value.schedule.value.time.Some? ==>
              TimeShaped(r.value.schedule.value.time.value)
  {
    if !payload.JObj? then None
    else
      var bt := OptionalString(Get(payload, "blogTitle"));
      var tp := OptionalString(Get(payload, "topic"));
      var bp := OptionalString(Get(payload, "basePrompt"));
      var sc := ParseSchedule(Get(payload, "schedule"));
      if bt.Some? && tp.Some? && bp.Some? && sc.Some? then
        Some(SettingsUpdate(bt.value, tp.value, bp.value, sc.value))
      else None
  }

  /** `update ?? current?.f ?? default` for one top-level field. */
  function Pick(update: Option<string>, stored: Option<string>, default: string): string {
    if update.Some? then update.value else stored.GetOr(default)
  }

  /** `update.schedule?.f ?? current?.schedule.f ?? default`: with a stored
      document but no stored schedule, the dereference throws (`None`). */
  function PickScheduled(update: Option<string>, current: Option<GeneralDoc>,
                         field: ScheduleDoc -> Option<string>, default: string): (r: Option<string>)
    ensures update.Some? ==> r == update
    ensures update.None? && current.None? ==> r == Some(default)
    ensures update.None? && current.Some? && current.value.schedule.None? ==> r == None
    ensures update.None? && current.Some? && current.value.schedule.Some? ==>
              r == Some(field(current.value.schedule.value).GetOr(default))
  {
    if update.Some? then update
    else if current.None? then Some(default)
    else if current.value.schedule.None? then None
    else Some(field(current.value.schedule.value).GetOr(default))
  }

  function UpdateFrequency(u: SettingsUpdate): Option<string> {
    if u.schedule.Some? then u.schedule.value.frequency else None
  }

  function UpdateTime(u: SettingsUpdate): Option<string> {
    if u.schedule.Some? then u.schedule.value.time else None
  }

  function FrequencyOf(s: ScheduleDoc): Option<string> { s.frequency }
  function TimeOf(s: ScheduleDoc): Option<string> { s.time }

  /** The `merged` record; `None` when building it throws. */
  function Merge(u: SettingsUpdate, current: Option<GeneralDoc>): (r: Option<Settings>)
    ensures r.Some? ==> r.value.blogTitle == Pick(u.blogTitle, current.GetOr(EmptyGeneral).blogTitle, "")
    ensures r.Some? ==> r.value.topic == Pick(u.topic, current.GetOr(EmptyGeneral).topic, "")
    ensures r.Some? ==> r.value.basePrompt == Pick(u.basePrompt, current.GetOr(EmptyGeneral).basePrompt, "")
    ensures r == None <==>
              current.Some? && current.value.schedule.None? && (UpdateFrequency(u).None? || UpdateTime(u).None?)
  {
    var d := current.GetOr(EmptyGeneral);
    var fr := PickScheduled(UpdateFrequency(u), current, FrequencyOf, "daily");
    var ti := PickScheduled(UpdateTime(u), current, TimeOf, "19:00");
    if fr.None? || ti.None? then None
    else Some(Settings(Pick(u.blogTitle, d.blogTitle, ""), Pick(u.topic, d.topic, ""),
                       Pick(u.basePrompt, d.basePrompt, ""), fr.value, ti.value))
  }

  /** The merge payload `ref.set(merged, { merge: true })` writes. */
  function AsWrite(s: Settings): GeneralDoc {
    GeneralDoc(Some(s.blogTitle), Some(s.topic), Some(s.basePrompt),
               Some(ScheduleDoc(Some(s.frequency), Some(s.time))), None)
  }

  /** The handler: `body` is `None` when the request body is not JSON;
      `current` is the stored general document, if any. */
  function Put(body: Option<JsValue>, current: Option<GeneralDoc>): (r: Answer)
    ensures body.None? ==> r == BadRequest(InvalidJson)
    ensures body.Some? && ParseUpdate(body.value).None? ==> r == BadRequest(SchemaRejected)
    ensures r.Saved? ==> r.stored == MergeGeneral(current, AsWrite(r.settings))
  {
    if body.None? then BadRequest(InvalidJson)
    else
      match ParseUpdate(body.value)
      case None => BadRequest(SchemaRejected)
      case Some(u) =>
        match Merge(u, current)
        case None => BadRequest(MissingSchedule)
        case Some(m) => Saved(m, MergeGeneral(current, AsWrite(m)))
  }

  /** Each merged field is the update's value when given, else the stored
      value, else the default. */
  lemma MergePrecedence(u: SettingsUpdate, current: Option<GeneralDoc>)
    requires Merge(u, current).Some?
    ensures var m := Merge(u, current).value;
      && (u.blogTitle.Some? ==> m.blogTitle == u.blogTitle.value)
      && (u.blogTitle.None? && current.Some? && current.value.blogTitle.Some? ==>
            m.blogTitle == current.value.blogTitle.value)
      && (u.blogTitle.None? && (current.None? || current.value.blogTitle.None?) ==> m.blogTitle == "")
      && (UpdateFrequency(u).Some? ==> m.frequency == UpdateFrequency(u).value)
      && (UpdateFrequency(u).None? && current.None? ==> m.frequency == "daily")
      && (UpdateFrequency(u).None? && current.Some? ==>
            current.value.schedule.Some? && m.frequency == current.value.schedule.value.frequency.GetOr("daily"))
      && (UpdateTime(u).Some? ==> m.time == UpdateTime(u).value)
      && (UpdateTime(u).None? && current.None? ==> m.time == "19:00")
      && (UpdateTime(u).None? && current.Some? ==>
            current.value.schedule.Some? && m.time == current.value.schedule.value.time.GetOr("19:00"))
  {
  }

  /** A stored document whose schedule is missing cannot be merged with an
      update that leaves out the frequency: the handler answers 400. */
  lemma MissingScheduleRejected(body: JsValue, doc: GeneralDoc)
    requires doc.schedule.None?
    requires ParseUpdate(body).Some? && UpdateFrequency(ParseUpdate(body).value).None?
    ensures Put(Some(body), Some(doc)) == BadRequest(MissingSchedule)
  {
  }

  /** Only the frequency values the enum names pass. */
  lemma FrequencyChecked(body: JsValue, f: string)
    requires body.JObj? && "schedule" in body.fields
    requires body.fields["schedule"] == JObj(map["frequency" := JStr(f)])
    ensures ParseUpdate(body).Some? <==>
              IsFrequency(f) && OptionalString(Get(body, "blogTitle")).Some?
              && OptionalString(Get(body, "topic")).Some? && OptionalString(Get(body, "basePrompt")).Some?
  {
    assert Get(body.fields["schedule"], "time") == JUndefined;
  }

  /** The time check is about shape only: `"99:99"` passes. */
  lemma TimeHasNoRangeCheck()
    ensures ParseUpdate(JObj(map["schedule" := JObj(map["time" := JStr("99:99")])]))
            == Some(SettingsUpdate(None, None, None, Some(ScheduleUpdate(None, Some("99:99")))))
  {
    var sched := JObj(map["schedule" := JObj(map["time" := JStr("99:99")])]);
    assert Get(sched, "blogTitle") == JUndefined;
    assert Get(sched, "topic") == JUndefined;
    assert Get(sched, "basePrompt") == JUndefined;
    assert TimeShaped("99:99");
  }

  /** A document holding every field the merge reads. */
  predicate Complete(d: GeneralDoc) {
    d.blogTitle.Some? && d.topic.Some? && d.basePrompt.Some?
    && d.schedule.Some? && d.schedule.value.frequency.Some? && d.schedule.value.time.Some?
  }

  function SettingsOf(d: GeneralDoc): Settings
    requires Complete(d)
  {
    Settings(d.blogTitle.value, d.topic.value, d.basePrompt.value,
             d.schedule.value.frequency.value, d.schedule.value.time.value)
  }

  const NoUpdate := SettingsUpdate(None, None, None, None)

  /** An empty update over a complete stored document answers with the stored
      values and writes nothing new. */
  lemma EmptyUpdateKeepsStored(d: GeneralDoc)
    requires Complete(d)
    ensures ParseUpdate(JObj(map[])) == Some(NoUpdate)
    ensures Put(Some(JObj(map[])), Some(d)) == Saved(SettingsOf(d), d)
  {
    assert Get(JObj(map[]), "blogTitle") == JUndefined;
    assert Get(JObj(map[]), "topic") == JUndefined;
    assert Get(JObj(map[]), "basePrompt") == JUndefined;
    assert Get(JObj(map[]), "schedule") == JUndefined;
    var m := Merge(NoUpdate, Some(d));
    assert m == Some(SettingsOf(d));
  }

  /** The merged settings always become a complete stored document. */
  lemma SavedIsComplete(body: Option<JsValue>, current: Option<GeneralDoc>)
    requires Put(body, current).Saved?
    ensures Complete(Put(body, current).stored)
    ensures SettingsOf(Put(body, current).stored) == Put(body, current).settings
  {
  }

  /** Sending the same update again answers the same settings and leaves the
      stored document as the first request left it. */
  lemma PutIdempotent(body: JsValue, current: Option<GeneralDoc>)
    requires Put(Some(body), current).Saved?
    ensures var first := Put(Some(body), current);
      Put(Some(body), Some(first.stored)) == first
  {
    var first := Put(Some(body), current);
    SavedIsComplete(Some(body), current);
    var u := ParseUpdate(body).value;
    var m2 := Merge(u, Some(first.stored));
    assert m2 == Some(first.settings);
  }
}
