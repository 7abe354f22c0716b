/**
 * The status rule of the post inventory: a post record, as the Substack API
 * returns it, is classified from its `postSchedules`, `post_date` and
 * `is_published` fields and the current time.
 *
 * `datetime.fromisoformat` is a parameter `iso` (None when it raises). A parsed
 * date is an instant on the same scale as the current time `now`, which is the
 * naive `datetime.now()`; a date carrying a UTC offset cannot be compared with it.
 */
module PostStatus {
  import opened Wrappers
  import opened Text
  import opened Json

  /** The six values `post_info['status']` can end with. */
  datatype Status = Unknown | Scheduled | ScheduleError | Published | DateError | Draft

  /** A parsed `datetime`: its instant, and whether it carries a UTC offset (is "aware"). */
  datatype DateTime = DateTime(ticks: int, aware: bool)

  /**
   * `datetime.fromisoformat(v.replace('Z', '+00:00'))`: None when either call
   * raises, that is when `v` is not a string or is not in ISO format.
   */
  function ParseDate(v: Json, iso: string -> Option<DateTime>): (r: Option<DateTime>)
    ensures !v.Str? ==> r.None?
  {
    match v
    case Str(s) => iso(ReplaceChar(s, 'Z', "+00:00"))
    case _ => None
  }

  /** The status and, when one is set, the `schedule_date` entry of a classified record. */
  datatype Verdict = Verdict(status: Status, scheduleDate: Option<Json>)

  /** `item.get('postSchedules', [])`. */
  function Schedules(item: map<string, Json>): Json {
    FieldOr(item, "postSchedules", Arr([]))
  }

  /**
   * `postSchedules[0]` when that is a dict; None when the indexing or the
   * following `.get` raises (not a list, or a first entry that is no dict).
   */
  function FirstSchedule(schedules: Json): Option<map<string, Json>> {
    match schedules
    case Arr(items) => if items != [] && items[0].Obj? then Some(items[0].fields) else None
    case _ => None
  }

  /** The schedule branch: the first schedule decides, and any exception gives SCHEDULE_ERROR. */
  function ScheduleVerdict(schedules: Json, iso: string -> Option<DateTime>): Verdict {
    match FirstSchedule(schedules)
    case None => Verdict(ScheduleError, None)
    case Some(schedule) =>
      var trigger := Field(schedule, "trigger_at");
      if !Truthy(trigger) then Verdict(Unknown, None)
      else if ParseDate(trigger, iso).None? then Verdict(ScheduleError, None)
      else Verdict(Scheduled, Some(trigger))
  }

  /**
   * The `post_date` branch. An unpublished post is SCHEDULED without any
   * comparison; for a published one the comparison `post_dt > current_time`
   * raises when the date is aware, and any exception gives DATE_ERROR.
   */
  function PostDateStatus(postDate: Json, published: Json, iso: string -> Option<DateTime>, now: int): Status {
    match ParseDate(postDate, iso)
    case None => DateError
    case Some(dt) =>
      if !Truthy(published) then Scheduled
      else if dt.aware then DateError
      else if dt.ticks > now then Scheduled
      else Published
  }

  /** The classification block: schedules first, then `post_date`, then `is_published`. */
  function Classify(item: map<string, Json>, iso: string -> Option<DateTime>, now: int): (v: Verdict)
    ensures v.scheduleDate.Some? <==> Truthy(Schedules(item)) && v.status == Scheduled
    ensures v.scheduleDate.Some? ==> v.scheduleDate.value.Str?
  {
    if Truthy(Schedules(item)) then ScheduleVerdict(Schedules(item), iso)
    else if Truthy(Field(item, "post_date")) then
      Verdict(PostDateStatus(item["post_date"], Field(item, "is_published"), iso, now), None)
    else if Truthy(Field(item, "is_published")) then Verdict(Published, None)
    else Verdict(Draft, None)
  }

  /**
   * A non-empty `postSchedules` takes precedence: the verdict is one of the
   * three schedule outcomes and depends neither on `post_date`, nor on
   * `is_published`, nor on the current time.
   */
  lemma SchedulesTakePrecedence(item: map<string, Json>, iso: string -> Option<DateTime>, now: int,
                                postDate: Json, published: Json, later: int)
    requires Truthy(Schedules(item))
    ensures Classify(item, iso, now).status in {Scheduled, ScheduleError, Unknown}
    ensures var other := item["post_date" := postDate]["is_published" := published];
            Classify(other, iso, later) == Classify(item, iso, now)
  {
    var other := item["post_date" := postDate]["is_published" := published];
    assert Schedules(other) == Schedules(item);
  }

  /** SCHEDULED from a schedule: exactly when the first schedule's `trigger_at` is truthy and parses; `schedule_date` is that value. */
  lemma ScheduledByTrigger(item: map<string, Json>, iso: string -> Option<DateTime>, now: int)
    requires Truthy(Schedules(item))
    ensures Classify(item, iso, now).status == Scheduled <==>
            exists schedule :: FirstSchedule(Schedules(item)) == Some(schedule) &&
              Truthy(Field(schedule, "trigger_at")) && ParseDate(Field(schedule, "trigger_at"), iso).Some?
    ensures Classify(item, iso, now).status == Scheduled ==>
            Classify(item, iso, now).scheduleDate == Some(Field(FirstSchedule(Schedules(item)).value, "trigger_at"))
  {
  }

  /** SCHEDULE_ERROR: the schedule list is malformed, or the first `trigger_at` is truthy but does not parse. */
  lemma ScheduleErrorCases(item: map<string, Json>, iso: string -> Option<DateTime>, now: int)
    requires Truthy(Schedules(item))
    ensures Classify(item, iso, now).status == ScheduleError <==>
            FirstSchedule(Schedules(item)).None? ||
            (Truthy(Field(FirstSchedule(Schedules(item)).value, "trigger_at")) &&
             ParseDate(Field(FirstSchedule(Schedules(item)).value, "trigger_at"), iso).None?)
  {
  }

  /** UNKNOWN: only when there are schedules and the first one is a dict without a truthy `trigger_at`. */
  lemma UnknownCases(item: map<string, Json>, iso: string -> Option<DateTime>, now: int)
    ensures Classify(item, iso, now).status == Unknown <==>
            Truthy(Schedules(item)) && FirstSchedule(Schedules(item)).Some? &&
            !Truthy(Field(FirstSchedule(Schedules(item)).value, "trigger_at"))
  {
  }

  /** Without schedules but with a truthy `post_date`: the date decides, and a failure to parse or compare is DATE_ERROR. */
  lemma PostDateCases(item: map<string, Json>, iso: string -> Option<DateTime>, now: int)
    requires !Truthy(Schedules(item)) && Truthy(Field(item, "post_date"))
    ensures var st := Classify(item, iso, now).status;
            var dt := ParseDate(item["post_date"], iso);
            && (dt.None? ==> st == DateError)
            && (dt.Some? && !Truthy(Field(item, "is_published")) ==> st == Scheduled)
            && (dt.Some? && Truthy(Field(item, "is_published")) && dt.value.aware ==> st == DateError)
            && (dt.Some? && Truthy(Field(item, "is_published")) && !dt.value.aware ==>
                  (st == Scheduled <==> dt.value.ticks > now) && (st == Published <==> dt.value.ticks <= now))
  {
  }

  /** With neither schedules nor `post_date`: PUBLISHED iff `is_published` is truthy, else DRAFT. */
  lemma NoDateCases(item: map<string, Json>, iso: string -> Option<DateTime>, now: int)
    requires !Truthy(Schedules(item)) && !Truthy(Field(item, "post_date"))
    ensures Classify(item, iso, now).status == (if Truthy(Field(item, "is_published")) then Published else Draft)
  {
  }

  /** A DRAFT has no schedules, no date and is not published; a PUBLISHED post is published and not dated in the future. */
  lemma DraftAndPublishedMeaning(item: map<string, Json>, iso: string -> Option<DateTime>, now: int)
    ensures Classify(item, iso, now).status == Draft <==>
            !Truthy(Schedules(item)) && !Truthy(Field(item, "post_date")) && !Truthy(Field(item, "is_published"))
    ensures Classify(item, iso, now).status == Published ==>
            !Truthy(Schedules(item)) && Truthy(Field(item, "is_published")) &&
            (Truthy(Field(item, "post_date")) ==>
               exists dt :: ParseDate(item["post_date"], iso) == Some(dt) && !dt.aware && dt.ticks <= now)
  {
    if Classify(item, iso, now).status == Published && Truthy(Field(item, "post_date")) {
      var dt := ParseDate(item["post_date"], iso).value;
      assert ParseDate(item["post_date"], iso) == Some(dt);
    }
  }

  /**
   * Time only moves posts forward: a post PUBLISHED now stays PUBLISHED later,
   * and a published post SCHEDULED for a date becomes PUBLISHED once that date
   * has come. No other status depends on the time.
   */
  lemma StatusOverTime(item: map<string, Json>, iso: string -> Option<DateTime>, now: int, later: int)
    requires now <= later
    ensures Classify(item, iso, now).status == Published ==> Classify(item, iso, later).status == Published
    ensures Classify(item, iso, now).status !in {Published, Scheduled} ==>
            Classify(item, iso, later) == Classify(item, iso, now)
    ensures Classify(item, iso, now).status == Scheduled ==>
            Classify(item, iso, later).status in {Scheduled, Published}
  {
  }

  /** `item.get('title') or item.get('draft_title', 'NO TITLE')`. */
  function Title(item: map<string, Json>): Json {
    if Truthy(Field(item, "title")) then item["title"] else FieldOr(item, "draft_title", Str("NO TITLE"))
  }

  /** The title is a truthy `title`; otherwise `draft_title` whenever that key exists, whatever its value; otherwise 'NO TITLE'. */
  lemma TitleFallback(item: map<string, Json>)
    ensures Truthy(Field(item, "title")) ==> Title(item) == item["title"]
    ensures !Truthy(Field(item, "title")) && "draft_title" in item ==> Title(item) == item["draft_title"]
    ensures !Truthy(Field(item, "title")) && "draft_title" !in item ==> Title(item) == Str("NO TITLE")
  {
  }
}
