/**
 * A whole save of an Event document: the schema's list validators first,
 * then the pre-save hook, as Mongoose orders them.
 */
module EventSave {
  import opened Wrappers
  import opened EventModel

  /** Why a save is refused: the list validators that failed, or what the hook threw. */
  datatype SaveError = ValidationFailed(lists: set<ListField>) | HookFailed(error: EventError)

  /**
   * `document.save()`: Mongoose runs the schema validators before any
   * pre-save hook, and reports every failing validator at once; only a
   * document that validates reaches the hook.
   */
  function SaveEvent(rec: EventRecord, titleModified: bool,
                     parseDate: string -> Option<Instant>, toIso: Instant -> string): (r: Result<EventRecord, SaveError>)
    ensures r.Ok? <==> |rec.agenda| > 0 && |rec.tags| > 0
                       && parseDate(rec.date).Some? && TimeMatches(rec.time)
                       && forall k :: 0 <= k < |RequiredFields| ==> !Blank(FieldValue(rec, RequiredFields[k]))
    ensures r.Ok? ==> r.value == rec.(slug := if titleModified then Slugify(rec.title) else rec.slug,
                                      date := toIso(parseDate(rec.date).value))
    ensures r.Err? && r.error.ValidationFailed? <==> rec.agenda == [] || rec.tags == []
    ensures r.Err? && r.error.ValidationFailed? ==>
              forall l :: l in r.error.lists <==> (l == Agenda && rec.agenda == []) || (l == Tags && rec.tags == [])
    ensures r.Err? && r.error.ValidationFailed? && rec.agenda == [] ==>
              exists l :: l in r.error.lists && ListMessage(l) == "Agenda must contain at least one item"
    ensures r.Err? && r.error.ValidationFailed? && rec.tags == [] ==>
              exists l :: l in r.error.lists && ListMessage(l) == "Tags must contain at least one item"
    ensures r.Err? && r.error.HookFailed? <==>
              |rec.agenda| > 0 && |rec.tags| > 0 && PreSave(rec, titleModified, parseDate, toIso).Err?
  {
    var bad := ListViolations(rec);
    if bad != {} then Err(ValidationFailed(bad))
    else
      match PreSave(rec, titleModified, parseDate, toIso)
      case Ok(saved) => Ok(saved)
      case Err(e) => Err(HookFailed(e))
  }
}
