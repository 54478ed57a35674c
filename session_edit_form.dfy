// session-edit-form.component.ts: the form that adds or edits a feedback
// session. Loading a session shows its timestamps as local dates and times in
// the session's zone; submitting turns the dates and times back into
// timestamps by having the server resolve each 'YYYY-MM-DD HH:mm' text in that
// zone.

module SessionEditForm {
  import opened Common
  import opened FeedbackSessionInfo
  import TZ = TimezoneService

  /** NgbDateStruct / DateFormat: the month counts from 1. */
  datatype DateFormat = DateFormat(year: int, month: int, day: int)
  datatype TimeFormat = TimeFormat(hour: int, minute: int)

  datatype FormMode = ADD | EDIT

  /** SessionEditFormBasicInputModel: the session as loaded into the form. */
  datatype BasicInputModel = BasicInputModel(
    courseId: string,
    timeZone: string,
    courseName: string,
    feedbackSessionName: string,
    instructions: string,
    submissionStartTimestamp: int,
    submissionEndTimestamp: int,
    gracePeriod: int,
    sessionVisibleSetting: SessionVisibleSetting,
    customSessionVisibleTimestamp: int,
    responseVisibleSetting: ResponseVisibleSetting,
    customResponseVisibleTimestamp: int,
    isClosingEmailEnabled: bool,
    isPublishedEmailEnabled: bool)

  /** SessionEditFormBasicOutputModel: what a submission hands on. */
  datatype BasicOutputModel = BasicOutputModel(
    instructions: string,
    gracePeriod: int,
    isClosingEmailEnabled: bool,
    isPublishedEmailEnabled: bool,
    submissionStartTimestamp: int,
    submissionEndTimestamp: int,
    sessionVisibleSetting: SessionVisibleSetting,
    customSessionVisibleTimestamp: int,
    responseVisibleSetting: ResponseVisibleSetting,
    customResponseVisibleTimestamp: int)

  /** The event a submission emits: addNewSessionEvent in ADD mode, editExistingSessionEvent in EDIT mode. */
  datatype Emitted =
    | AddNewSession(courseId: string, feedbackSessionName: string, sessionTemplateName: string, basic: BasicOutputModel)
    | EditExistingSession(basic: BasicOutputModel)

  /** A warning shown for a date-time that falls in a DST gap or overlap. */
  datatype Warning = Warning(fieldName: string, status: TZ.AmbiguityStatus)

  /** The text getTimestamp sends: the form's fields set on a moment (the month moved to
      moment's 0-11) and formatted as 'YYYY-MM-DD HH:mm'. */
  function LocalDateTimeText(date: DateFormat, time: TimeFormat): string
  {
    TZ.FormatLocalDateTime(TZ.LocalDateTime(date.year, date.month - 1, date.day, time.hour, time.minute))
  }

  /** The text carries the form's year, month, day, hour and minute: the month decremented
      for moment is printed incremented back. */
  lemma TextCarriesFormFields(date: DateFormat, time: TimeFormat)
    requires 0 <= date.year < 10000 && 1 <= date.month <= 12 && 1 <= date.day <= 31
    requires 0 <= time.hour < 24 && 0 <= time.minute < 60
    ensures var p := TZ.ParseLocalDateTime(LocalDateTimeText(date, time));
            p.Some? && p.value.year == date.year && p.value.month + 1 == date.month && p.value.date == date.day
            && p.value.hour == time.hour && p.value.minute == time.minute
  {
    TZ.ParseFormat(TZ.LocalDateTime(date.year, date.month - 1, date.day, time.hour, time.minute));
  }

  /** The server's resolution of a form date and time in a zone; `resolve` answers the
      '/localdatetime' request. */
  function Resolution(date: DateFormat, time: TimeFormat, zone: string, resolve: TZ.GetRequest -> TZ.LocalDateTimeInfo)
    : TZ.LocalDateTimeInfo
  {
    resolve(TZ.GetResolveLocalDateTime(LocalDateTimeText(date, time), zone))
  }

  /** The warning for a resolution: only a gap or an overlap is reported. */
  function WarningFor(fieldName: string, info: TZ.LocalDateTimeInfo): (r: Option<Warning>)
    ensures r.Some? <==> info.resolvedStatus == TZ.GAP || info.resolvedStatus == TZ.OVERLAP
    ensures r.Some? ==> r.value == Warning(fieldName, info.resolvedStatus)
  {
    match info.resolvedStatus
    case UNAMBIGUOUS => None
    case GAP => Some(Warning(fieldName, TZ.GAP))
    case OVERLAP => Some(Warning(fieldName, TZ.OVERLAP))
  }

  /** getTimestamp as written: the warnings for a gap and an overlap call `format` on the
      moment-timezone module itself (lines 272 and 278) instead of on the moment `inst` built
      from the form; the module has no such function, so the `tap` callback throws a TypeError
      and the observable errors instead of giving the resolved timestamp. */
  function TimestampAsWritten(info: TZ.LocalDateTimeInfo): (r: Outcome<int>)
    ensures r.Fail? <==> info.resolvedStatus == TZ.GAP || info.resolvedStatus == TZ.OVERLAP
    ensures r.Fail? ==> r.failure == TypeError
    ensures r.Ok? ==> r.value == info.resolvedTimestamp
  {
    match info.resolvedStatus
    case UNAMBIGUOUS => Ok(info.resolvedTimestamp)
    case GAP => Fail(TypeError)
    case OVERLAP => Fail(TypeError)
  }

  /** As written, getTimestamp gives a timestamp exactly when the corrected one raises no
      warning, and then the same timestamp. */
  lemma TimestampAsWrittenFailsOnWarning(fieldName: string, info: TZ.LocalDateTimeInfo)
    ensures TimestampAsWritten(info).Fail? <==> WarningFor(fieldName, info).Some?
    ensures TimestampAsWritten(info).Ok? ==> TimestampAsWritten(info).value == info.resolvedTimestamp
  {
  }

  /** A date-time in a gap: the corrected getTimestamp gives the resolved timestamp with a
      warning, while as written it fails. */
  lemma GapTimestampCounterexample()
    ensures var info := TZ.LocalDateTimeInfo(1_000, TZ.GAP, None, None);
            TimestampAsWritten(info) == Fail(TypeError)
            && WarningFor("Submission opening time", info) == Some(Warning("Submission opening time", TZ.GAP))
  {
  }

  /** getDateTime: a timestamp as the form's date and time in the zone, `toLocal` standing for
      moment(timestamp).tz(zone); moment's month 0-11 becomes 1-12. */
  function GetDateTime(timestamp: int, zone: string, toLocal: (int, string) -> TZ.LocalDateTime)
    : (DateFormat, TimeFormat)
  {
    var t := toLocal(timestamp, zone);
    (DateFormat(t.year, t.month + 1, t.date), TimeFormat(t.hour, t.minute))
  }

  /** The warnings among the resolutions' outcomes; they appear as the answers arrive. */
  function Warnings(w: seq<Option<Warning>>): set<Warning>
  {
    set i | 0 <= i < |w| && w[i].Some? :: w[i].value
  }

  /** The warnings of three runs of resolutions are those of each run. */
  lemma WarningsOfConcat(a: seq<Option<Warning>>, b: seq<Option<Warning>>, c: seq<Option<Warning>>)
    ensures Warnings(a + b + c) == Warnings(a) + Warnings(b) + Warnings(c)
  {
    var abc := a + b + c;
    forall w | w in Warnings(abc) ensures w in Warnings(a) + Warnings(b) + Warnings(c) {
      var i :| 0 <= i < |abc| && abc[i].Some? && abc[i].value == w;
      if i < |a| { assert a[i] == abc[i]; }
      else if i < |a| + |b| { assert b[i - |a|] == abc[i]; }
      else { assert c[i - |a| - |b|] == abc[i]; }
    }
    forall w | w in Warnings(a) + Warnings(b) + Warnings(c) ensures w in Warnings(abc) {
      if w in Warnings(a) {
        var i :| 0 <= i < |a| && a[i].Some? && a[i].value == w;
        assert abc[i] == a[i];
      } else if w in Warnings(b) {
        var i :| 0 <= i < |b| && b[i].Some? && b[i].value == w;
        assert abc[|a| + i] == b[i];
      } else {
        var i :| 0 <= i < |c| && c[i].Some? && c[i].value == w;
        assert abc[|a| + |b| + i] == c[i];
      }
    }
  }

  /** The warnings of two resolutions: empty exactly when neither warns. */
  lemma WarningsOfPair(x: Option<Warning>, y: Option<Warning>)
    ensures Warnings([x, y]) == {} <==> x.None? && y.None?
  {
    if x.Some? { assert [x, y][0] == x; assert x.value in Warnings([x, y]); }
    else if y.Some? { assert [x, y][1] == y; assert y.value in Warnings([x, y]); }
  }

  /** For the resolutions of a submission (the two visibility times counted only when `customVisible`
      and `customResponses` say so), some as-written getTimestamp fails exactly when the corrected
      ones show a warning. */
  lemma AsWrittenFailsOnWarning(start: TZ.LocalDateTimeInfo, end: TZ.LocalDateTimeInfo,
                                visible: TZ.LocalDateTimeInfo, responses: TZ.LocalDateTimeInfo,
                                customVisible: bool, customResponses: bool)
    ensures (TimestampAsWritten(start).Fail? || TimestampAsWritten(end).Fail?
             || (customVisible && TimestampAsWritten(visible).Fail?)
             || (customResponses && TimestampAsWritten(responses).Fail?))
            <==> Warnings([WarningFor("Submission opening time", start), WarningFor("Submission closing time", end)]
                          + (if customVisible then [WarningFor("Session visible time", visible)] else [])
                          + (if customResponses then [WarningFor("Response visible time", responses)] else [])) != {}
  {
    var a := [WarningFor("Submission opening time", start), WarningFor("Submission closing time", end)];
    var b := if customVisible then [WarningFor("Session visible time", visible)] else [];
    var c := if customResponses then [WarningFor("Response visible time", responses)] else [];
    WarningsOfConcat(a, b, c);
    WarningsOfPair(a[0], a[1]);
    assert a == [a[0], a[1]];
    if customVisible { WarningsOfOne(b[0]); assert b == [b[0]]; }
    if customResponses { WarningsOfOne(c[0]); assert c == [c[0]]; }
  }

  /** The warnings of one resolution: empty exactly when it does not warn. */
  lemma WarningsOfOne(x: Option<Warning>)
    ensures Warnings([x]) == {} <==> x.None?
  {
    if x.Some? { assert [x][0] == x; assert x.value in Warnings([x]); }
  }

  /** The fields the component keeps under its "model" heading, as one record: the session's
      names and zone, its dates and times, its visibility settings and its email switches. */
  datatype FormFields = FormFields(
    courseId: string,
    timeZone: string,
    courseName: string,
    feedbackSessionName: string,
    instructions: string,
    submissionStartDate: DateFormat,
    submissionStartTime: TimeFormat,
    submissionEndDate: DateFormat,
    submissionEndTime: TimeFormat,
    gracePeriod: int,
    sessionVisibleSetting: SessionVisibleSetting,
    customSessionVisibleDate: DateFormat,
    customSessionVisibleTime: TimeFormat,
    responseVisibleSetting: ResponseVisibleSetting,
    customResponseVisibleDate: DateFormat,
    customResponseVisibleTime: TimeFormat,
    isClosingEmailEnabled: bool,
    isPublishedEmailEnabled: bool)

  /** The fields as created: empty texts, zero dates, the default settings, both emails on. */
  const INITIAL_FIELDS: FormFields := FormFields(
    "", "", "", "", "",
    DateFormat(0, 0, 0), TimeFormat(0, 0), DateFormat(0, 0, 0), TimeFormat(0, 0), 0,
    AT_OPEN, DateFormat(0, 0, 0), TimeFormat(0, 0),
    LATER, DateFormat(0, 0, 0), TimeFormat(0, 0),
    true, true)

  /** What setBasicModel makes of the fields: the model's values, the zone only if it is one of
      `offered` (the one held before otherwise), the dates and times shown in the zone then set,
      and a custom date and time only for a non-zero timestamp. */
  function WithBasicModel(f: FormFields, model: BasicInputModel, offered: set<string>,
                          toLocal: (int, string) -> TZ.LocalDateTime): FormFields
  {
    var zone := if model.timeZone in offered then model.timeZone else f.timeZone;
    var start := GetDateTime(model.submissionStartTimestamp, zone, toLocal);
    var end := GetDateTime(model.submissionEndTimestamp, zone, toLocal);
    var visible := if model.customSessionVisibleTimestamp != 0
                   then GetDateTime(model.customSessionVisibleTimestamp, zone, toLocal)
                   else (f.customSessionVisibleDate, f.customSessionVisibleTime);
    var responses := if model.customResponseVisibleTimestamp != 0
                     then GetDateTime(model.customResponseVisibleTimestamp, zone, toLocal)
                     else (f.customResponseVisibleDate, f.customResponseVisibleTime);
    FormFields(model.courseId, zone, model.courseName, model.feedbackSessionName, model.instructions,
               start.0, start.1, end.0, end.1, model.gracePeriod,
               model.sessionVisibleSetting, visible.0, visible.1,
               model.responseVisibleSetting, responses.0, responses.1,
               model.isClosingEmailEnabled, model.isPublishedEmailEnabled)
  }

  /** The zone a loaded model leaves is the model's exactly when that zone is offered or
      already held; an offered zone is never traded for one that is not offered. */
  lemma BasicModelZone(f: FormFields, model: BasicInputModel, offered: set<string>,
                       toLocal: (int, string) -> TZ.LocalDateTime)
    ensures var r := WithBasicModel(f, model, offered, toLocal);
            (r.timeZone == model.timeZone <==> model.timeZone in offered || model.timeZone == f.timeZone)
            && (f.timeZone in offered ==> r.timeZone in offered)
  {
  }

  /** Loading a model and submitting it at once sends every timestamp it showed back for
      resolution as that timestamp's own local date-time in the form's zone. */
  lemma LoadedTimestampsResubmitted(f: FormFields, model: BasicInputModel, offered: set<string>,
                                    toLocal: (int, string) -> TZ.LocalDateTime)
    ensures var r := WithBasicModel(f, model, offered, toLocal);
            && LocalDateTimeText(r.submissionStartDate, r.submissionStartTime)
               == TZ.FormatLocalDateTime(toLocal(model.submissionStartTimestamp, r.timeZone))
            && LocalDateTimeText(r.submissionEndDate, r.submissionEndTime)
               == TZ.FormatLocalDateTime(toLocal(model.submissionEndTimestamp, r.timeZone))
            && (model.customSessionVisibleTimestamp != 0 ==>
                  LocalDateTimeText(r.customSessionVisibleDate, r.customSessionVisibleTime)
                  == TZ.FormatLocalDateTime(toLocal(model.customSessionVisibleTimestamp, r.timeZone)))
            && (model.customResponseVisibleTimestamp != 0 ==>
                  LocalDateTimeText(r.customResponseVisibleDate, r.customResponseVisibleTime)
                  == TZ.FormatLocalDateTime(toLocal(model.customResponseVisibleTimestamp, r.timeZone)))
  {
    var zone := WithBasicModel(f, model, offered, toLocal).timeZone;
    ShownTimestampResubmitted(model.submissionStartTimestamp, zone, toLocal);
    ShownTimestampResubmitted(model.submissionEndTimestamp, zone, toLocal);
    ShownTimestampResubmitted(model.customSessionVisibleTimestamp, zone, toLocal);
    ShownTimestampResubmitted(model.customResponseVisibleTimestamp, zone, toLocal);
  }

  class SessionEditForm {
    const timezoneService: TZ.TimezoneService

    var formMode: FormMode
    var isSaving: bool
    var hasVisibleSettingsPanelExpanded: bool
    var hasEmailSettingsPanelExpanded: bool

    var fields: FormFields

    var submissionStatus: string
    var publishStatus: string
    var isEditable: bool
    var sessionTemplateName: string

    /** The component as created: the initial fields, both panels closed, editable, not saving. */
    constructor (timezoneService: TZ.TimezoneService, formMode: FormMode)
      ensures this.timezoneService == timezoneService && this.formMode == formMode
      ensures fields == INITIAL_FIELDS && isEditable && !isSaving
      ensures !hasVisibleSettingsPanelExpanded && !hasEmailSettingsPanelExpanded
      ensures submissionStatus == "" && publishStatus == "" && sessionTemplateName == ""
    {
      this.timezoneService := timezoneService;
      this.formMode := formMode;
      isSaving := false;
      hasVisibleSettingsPanelExpanded, hasEmailSettingsPanelExpanded := false, false;
      fields := INITIAL_FIELDS;
      submissionStatus, publishStatus, isEditable := "", "", true;
      sessionTemplateName := "";
    }

    /** setBasicModel: the model's values taken field by field, the zone only if the
        timezone service offers it; then each panel opened exactly when its settings are not
        the defaults. */
    method SetBasicModel(model: BasicInputModel, toLocal: (int, string) -> TZ.LocalDateTime)
      modifies this`fields, this`hasVisibleSettingsPanelExpanded, this`hasEmailSettingsPanelExpanded
      ensures fields == WithBasicModel(old(fields), model, timezoneService.tzOffsets.Keys, toLocal)
      ensures hasVisibleSettingsPanelExpanded <==> model.sessionVisibleSetting != AT_OPEN || model.responseVisibleSetting != LATER
      ensures hasEmailSettingsPanelExpanded <==> !model.isClosingEmailEnabled || !model.isPublishedEmailEnabled
    {
      var zone := if model.timeZone in timezoneService.tzOffsets then model.timeZone else fields.timeZone;
      var start := GetDateTime(model.submissionStartTimestamp, zone, toLocal);
      var end := GetDateTime(model.submissionEndTimestamp, zone, toLocal);
      var visible := if model.customSessionVisibleTimestamp != 0
                     then GetDateTime(model.customSessionVisibleTimestamp, zone, toLocal)
                     else (fields.customSessionVisibleDate, fields.customSessionVisibleTime);
      var responses := if model.customResponseVisibleTimestamp != 0
                       then GetDateTime(model.customResponseVisibleTimestamp, zone, toLocal)
                       else (fields.customResponseVisibleDate, fields.customResponseVisibleTime);
      var f := FormFields(model.courseId, zone, model.courseName, model.feedbackSessionName, model.instructions,
                          start.0, start.1, end.0, end.1, model.gracePeriod,
                          model.sessionVisibleSetting, visible.0, visible.1,
                          model.responseVisibleSetting, responses.0, responses.1,
                          model.isClosingEmailEnabled, model.isPublishedEmailEnabled);
      fields := f;

      hasVisibleSettingsPanelExpanded :=
        fields.sessionVisibleSetting != AT_OPEN || fields.responseVisibleSetting != LATER;
      hasEmailSettingsPanelExpanded := !fields.isClosingEmailEnabled || !fields.isPublishedEmailEnabled;
    }

    /** setEditModel: the basic model, then the statuses. */
    method SetEditModel(model: BasicInputModel, submissionStatus: string, publishStatus: string,
                        toLocal: (int, string) -> TZ.LocalDateTime)
      modifies this`fields, this`hasVisibleSettingsPanelExpanded, this`hasEmailSettingsPanelExpanded,
               this`submissionStatus, this`publishStatus
      ensures fields == WithBasicModel(old(fields), model, timezoneService.tzOffsets.Keys, toLocal)
      ensures hasVisibleSettingsPanelExpanded <==> model.sessionVisibleSetting != AT_OPEN || model.responseVisibleSetting != LATER
      ensures hasEmailSettingsPanelExpanded <==> !model.isClosingEmailEnabled || !model.isPublishedEmailEnabled
      ensures this.submissionStatus == submissionStatus && this.publishStatus == publishStatus
    {
      SetBasicModel(model, toLocal);
      this.submissionStatus := submissionStatus;
      this.publishStatus := publishStatus;
    }

    /** setIsEditable. */
    method SetIsEditable(isEditable: bool)
      modifies this`isEditable
      ensures this.isEditable == isEditable
    {
      this.isEditable := isEditable;
    }

    /** setIsSaving. */
    method SetIsSaving(isSaving: bool)
      modifies this`isSaving
      ensures this.isSaving == isSaving
    {
      this.isSaving := isSaving;
    }

    /** setAddModel: the basic model only. */
    method SetAddModel(model: BasicInputModel, toLocal: (int, string) -> TZ.LocalDateTime)
      modifies this`fields, this`hasVisibleSettingsPanelExpanded, this`hasEmailSettingsPanelExpanded
      ensures fields == WithBasicModel(old(fields), model, timezoneService.tzOffsets.Keys, toLocal)
      ensures hasVisibleSettingsPanelExpanded <==> model.sessionVisibleSetting != AT_OPEN || model.responseVisibleSetting != LATER
      ensures hasEmailSettingsPanelExpanded <==> !model.isClosingEmailEnabled || !model.isPublishedEmailEnabled
    {
      SetBasicModel(model, toLocal);
    }

    /** getTimestamp, corrected: a moment made at `now` gets the form's year, month - 1, day,
        hour and minute set in turn; its text is resolved in the form's zone, and the resolved
        timestamp is used whatever the status, a gap or an overlap adding a warning that
        formats that moment. */
    method GetTimestamp(date: DateFormat, time: TimeFormat, fieldName: string, now: TZ.LocalDateTime,
                        resolve: TZ.GetRequest -> TZ.LocalDateTimeInfo)
      returns (timestamp: int, warning: Option<Warning>)
      ensures timestamp == Resolution(date, time, fields.timeZone, resolve).resolvedTimestamp
      ensures warning == WarningFor(fieldName, Resolution(date, time, fields.timeZone, resolve))
    {
      var inst := now;
      inst := inst.(year := date.year);
      inst := inst.(month := date.month - 1);
      inst := inst.(date := date.day);
      inst := inst.(hour := time.hour);
      inst := inst.(minute := time.minute);
      var localDateTime := TZ.FormatLocalDateTime(inst);
      var info := resolve(TZ.GetResolveLocalDateTime(localDateTime, fields.timeZone));
      match info.resolvedStatus {
        case UNAMBIGUOUS =>
          warning := None;
        case GAP =>
          warning := Some(Warning(fieldName, TZ.GAP));
        case OVERLAP =>
          warning := Some(Warning(fieldName, TZ.OVERLAP));
      }
      timestamp := info.resolvedTimestamp;
    }

    /** getTimestamp as written: the same request, but a gap or an overlap makes the warning
        throw, so the observable errors with a TypeError. */
    method GetTimestampAsWritten(date: DateFormat, time: TimeFormat, fieldName: string, now: TZ.LocalDateTime,
                                 resolve: TZ.GetRequest -> TZ.LocalDateTimeInfo)
      returns (r: Outcome<int>)
      ensures r == TimestampAsWritten(Resolution(date, time, fields.timeZone, resolve))
    {
      var inst := now;
      inst := inst.(year := date.year);
      inst := inst.(month := date.month - 1);
      inst := inst.(date := date.day);
      inst := inst.(hour := time.hour);
      inst := inst.(minute := time.minute);
      var localDateTime := TZ.FormatLocalDateTime(inst);
      var info := resolve(TZ.GetResolveLocalDateTime(localDateTime, fields.timeZone));
      match info.resolvedStatus {
        case UNAMBIGUOUS =>
          r := Ok(info.resolvedTimestamp);
        case GAP =>
          r := Fail(TypeError);
        case OVERLAP =>
          r := Fail(TypeError);
      }
    }

    /** The four timestamps a submission resolves, in order: opening, closing, session visible
        and response visible; the last two are 0 unless their setting is custom. */
    function SubmittedBasic(resolve: TZ.GetRequest -> TZ.LocalDateTimeInfo): BasicOutputModel
      reads this
    {
      BasicOutputModel(
        fields.instructions, fields.gracePeriod, fields.isClosingEmailEnabled, fields.isPublishedEmailEnabled,
        Resolution(fields.submissionStartDate, fields.submissionStartTime, fields.timeZone, resolve).resolvedTimestamp,
        Resolution(fields.submissionEndDate, fields.submissionEndTime, fields.timeZone, resolve).resolvedTimestamp,
        fields.sessionVisibleSetting,
        if fields.sessionVisibleSetting == SessionVisibleSetting.CUSTOM
        then Resolution(fields.customSessionVisibleDate, fields.customSessionVisibleTime, fields.timeZone, resolve).resolvedTimestamp
        else 0,
        fields.responseVisibleSetting,
        if fields.responseVisibleSetting == ResponseVisibleSetting.CUSTOM
        then Resolution(fields.customResponseVisibleDate, fields.customResponseVisibleTime, fields.timeZone, resolve).resolvedTimestamp
        else 0)
    }

    /** The warnings of the resolutions a submission makes, in order: opening and closing time,
        then each visibility time whose setting is custom. */
    function SubmittedWarnings(resolve: TZ.GetRequest -> TZ.LocalDateTimeInfo): seq<Option<Warning>>
      reads this
    {
      var start := Resolution(fields.submissionStartDate, fields.submissionStartTime, fields.timeZone, resolve);
      var end := Resolution(fields.submissionEndDate, fields.submissionEndTime, fields.timeZone, resolve);
      var visible := Resolution(fields.customSessionVisibleDate, fields.customSessionVisibleTime, fields.timeZone, resolve);
      var responses := Resolution(fields.customResponseVisibleDate, fields.customResponseVisibleTime, fields.timeZone, resolve);
      [WarningFor("Submission opening time", start), WarningFor("Submission closing time", end)]
      + (if fields.sessionVisibleSetting == SessionVisibleSetting.CUSTOM
         then [WarningFor("Session visible time", visible)] else [])
      + (if fields.responseVisibleSetting == ResponseVisibleSetting.CUSTOM
         then [WarningFor("Response visible time", responses)] else [])
    }

    /** submitFormHandler: the four timestamps resolved in the zone, the output model, and the
        event of the form's mode; the warnings are those of the resolutions made. */
    method SubmitFormHandler(now: TZ.LocalDateTime, resolve: TZ.GetRequest -> TZ.LocalDateTimeInfo)
      returns (event: Emitted, warnings: set<Warning>)
      ensures event == if formMode == ADD
                       then AddNewSession(fields.courseId, fields.feedbackSessionName, sessionTemplateName, SubmittedBasic(resolve))
                       else EditExistingSession(SubmittedBasic(resolve))
      ensures warnings == Warnings(SubmittedWarnings(resolve))
    {
      var start, w0 := GetTimestamp(fields.submissionStartDate, fields.submissionStartTime, "Submission opening time", now, resolve);
      var end, w1 := GetTimestamp(fields.submissionEndDate, fields.submissionEndTime, "Submission closing time", now, resolve);
      var visible, w2 := 0, [];
      if fields.sessionVisibleSetting == SessionVisibleSetting.CUSTOM {
        var w;
        visible, w := GetTimestamp(fields.customSessionVisibleDate, fields.customSessionVisibleTime, "Session visible time", now, resolve);
        w2 := [w];
      }
      var responses, w3 := 0, [];
      if fields.responseVisibleSetting == ResponseVisibleSetting.CUSTOM {
        var w;
        responses, w := GetTimestamp(fields.customResponseVisibleDate, fields.customResponseVisibleTime, "Response visible time", now, resolve);
        w3 := [w];
      }
      var ws := [w0, w1] + w2 + w3;
      var basic := BasicOutputModel(fields.instructions, fields.gracePeriod, fields.isClosingEmailEnabled, fields.isPublishedEmailEnabled,
                                    start, end, fields.sessionVisibleSetting, visible, fields.responseVisibleSetting, responses);
      if formMode == ADD {
        event := AddNewSession(fields.courseId, fields.feedbackSessionName, sessionTemplateName, basic);
      } else {
        event := EditExistingSession(basic);
      }
      warnings := Warnings(ws);
    }

    /** The output model a submission gives as written: the TypeError of the first resolution
        made that reports a gap or an overlap, or else the four resolved timestamps. */
    function SubmittedAsWritten(resolve: TZ.GetRequest -> TZ.LocalDateTimeInfo): (r: Outcome<BasicOutputModel>)
      reads this
    {
      var start := TimestampAsWritten(Resolution(fields.submissionStartDate, fields.submissionStartTime, fields.timeZone, resolve));
      var end := TimestampAsWritten(Resolution(fields.submissionEndDate, fields.submissionEndTime, fields.timeZone, resolve));
      var visible := if fields.sessionVisibleSetting == SessionVisibleSetting.CUSTOM
                     then TimestampAsWritten(Resolution(fields.customSessionVisibleDate, fields.customSessionVisibleTime, fields.timeZone, resolve))
                     else Ok(0);
      var responses := if fields.responseVisibleSetting == ResponseVisibleSetting.CUSTOM
                       then TimestampAsWritten(Resolution(fields.customResponseVisibleDate, fields.customResponseVisibleTime, fields.timeZone, resolve))
                       else Ok(0);
      if start.Fail? || end.Fail? || visible.Fail? || responses.Fail? then Fail(TypeError)
      else Ok(BasicOutputModel(fields.instructions, fields.gracePeriod, fields.isClosingEmailEnabled, fields.isPublishedEmailEnabled,
                               start.value, end.value, fields.sessionVisibleSetting, visible.value,
                               fields.responseVisibleSetting, responses.value))
    }

    /** As written, a submission fails exactly when the corrected one shows a warning, and
        otherwise gives the same output model. */
    lemma SubmittedAsWrittenFailsOnWarning(resolve: TZ.GetRequest -> TZ.LocalDateTimeInfo)
      ensures SubmittedAsWritten(resolve).Fail? <==> Warnings(SubmittedWarnings(resolve)) != {}
      ensures SubmittedAsWritten(resolve).Fail? ==> SubmittedAsWritten(resolve).failure == TypeError
      ensures SubmittedAsWritten(resolve).Ok? ==> SubmittedAsWritten(resolve).value == SubmittedBasic(resolve)
    {
      var start := Resolution(fields.submissionStartDate, fields.submissionStartTime, fields.timeZone, resolve);
      var end := Resolution(fields.submissionEndDate, fields.submissionEndTime, fields.timeZone, resolve);
      var visible := Resolution(fields.customSessionVisibleDate, fields.customSessionVisibleTime, fields.timeZone, resolve);
      var responses := Resolution(fields.customResponseVisibleDate, fields.customResponseVisibleTime, fields.timeZone, resolve);
      AsWrittenFailsOnWarning(start, end, visible, responses,
                              fields.sessionVisibleSetting == SessionVisibleSetting.CUSTOM,
                              fields.responseVisibleSetting == ResponseVisibleSetting.CUSTOM);
    }

    /** submitFormHandler as written: forkJoin errors as soon as one getTimestamp errors, so the
        event of the form's mode is still emitted but its observable gives the TypeError instead
        of the output model. */
    method SubmitFormHandlerAsWritten(now: TZ.LocalDateTime, resolve: TZ.GetRequest -> TZ.LocalDateTimeInfo)
      returns (event: Outcome<Emitted>)
      ensures var basic := SubmittedAsWritten(resolve);
              event == if basic.Fail? then Fail(basic.failure)
                       else if formMode == ADD then Ok(AddNewSession(fields.courseId, fields.feedbackSessionName, sessionTemplateName, basic.value))
                       else Ok(EditExistingSession(basic.value))
    {
      var start := GetTimestampAsWritten(fields.submissionStartDate, fields.submissionStartTime, "Submission opening time", now, resolve);
      var end := GetTimestampAsWritten(fields.submissionEndDate, fields.submissionEndTime, "Submission closing time", now, resolve);
      var visible := Ok(0);
      if fields.sessionVisibleSetting == SessionVisibleSetting.CUSTOM {
        visible := GetTimestampAsWritten(fields.customSessionVisibleDate, fields.customSessionVisibleTime, "Session visible time", now, resolve);
      }
      var responses := Ok(0);
      if fields.responseVisibleSetting == ResponseVisibleSetting.CUSTOM {
        responses := GetTimestampAsWritten(fields.customResponseVisibleDate, fields.customResponseVisibleTime, "Response visible time", now, resolve);
      }
      if start.Fail? || end.Fail? || visible.Fail? || responses.Fail? {
        event := Fail(TypeError);
      } else {
        var basic := BasicOutputModel(fields.instructions, fields.gracePeriod, fields.isClosingEmailEnabled, fields.isPublishedEmailEnabled,
                                      start.value, end.value, fields.sessionVisibleSetting, visible.value,
                                      fields.responseVisibleSetting, responses.value);
        if formMode == ADD {
          event := Ok(AddNewSession(fields.courseId, fields.feedbackSessionName, sessionTemplateName, basic));
        } else {
          event := Ok(EditExistingSession(basic));
        }
      }
    }
  }

  /** A timestamp shown by the form and submitted unchanged is sent for resolution as its own
      local date-time in the zone. */
  lemma ShownTimestampResubmitted(timestamp: int, zone: string, toLocal: (int, string) -> TZ.LocalDateTime)
    ensures var dt := GetDateTime(timestamp, zone, toLocal);
            LocalDateTimeText(dt.0, dt.1) == TZ.FormatLocalDateTime(toLocal(timestamp, zone))
  {
    var t := toLocal(timestamp, zone);
    assert TZ.LocalDateTime(t.year, t.month + 1 - 1, t.date, t.hour, t.minute) == t;
  }
}
