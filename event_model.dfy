/**
 * The Event document: the `slugify` helper, the schema's list validators and
 * the pre-save hook that derives the slug, normalises the date, checks the
 * time and rejects blank required fields.
 */
module EventModel {
  import opened Wrappers
  import opened Text

  // ---------------------------------------------------------------------------
  // slugify
  // ---------------------------------------------------------------------------

  /** `\w` without the `u` flag: ASCII letters, digits and underscore. */
  predicate IsWordChar(c: char) {
    'a' <= c <= 'z' || 'A' <= c <= 'Z' || '0' <= c <= '9' || c == '_'
  }

  /** The characters `/[^\w\s-]/g` does not remove. */
  predicate IsKept(c: char) {
    IsWordChar(c) || IsSpace(c) || c == '-'
  }

  /** The characters a slug is made of: `[a-z0-9_-]`. */
  predicate IsSlugChar(c: char) {
    'a' <= c <= 'z' || '0' <= c <= '9' || c == '_' || c == '-'
  }

  predicate AllSlugChars(s: string) {
    forall i :: 0 <= i < |s| ==> IsSlugChar(s[i])
  }

  /** `.replace(/[^\w\s-]/g, "")`: keeps, in order, the characters of `s` that are kept. */
  function StripDisallowed(s: string): string {
    if s == [] then []
    else (if IsKept(s[0]) then [s[0]] else []) + StripDisallowed(s[1..])
  }

  /**
   * `.replace(/\s+/g, "-")`: each maximal run of whitespace becomes one hyphen.
   * A whitespace character followed by more whitespace produces nothing; the
   * last one of a run produces the hyphen.
   */
  function DashWhitespace(s: string): string {
    if s == [] then []
    else if IsSpace(s[0]) then (if |s| > 1 && IsSpace(s[1]) then [] else "-") + DashWhitespace(s[1..])
    else [s[0]] + DashWhitespace(s[1..])
  }

  /**
   * `slugify`: lower-case, trim, strip what is not `[\w\s-]`, then turn each
   * whitespace run into one hyphen.  The slug consists of `[a-z0-9_-]` only:
   * no whitespace, no upper-case letter, no punctuation other than `_` and `-`.
   */
  function Slugify(value: string): (slug: string)
    ensures AllSlugChars(slug)
  {
    var lowered := Trim(Lower(value));
    TrimIsCore(Lower(value));
    var stripped := StripDisallowed(lowered);
    StripChars(lowered);
    DashChars(stripped);
    DashWhitespace(stripped)
  }

  /** Stripping leaves only kept characters, and adds no upper-case letter. */
  lemma {:induction false} StripChars(s: string)
    ensures forall i :: 0 <= i < |StripDisallowed(s)| ==> IsKept(StripDisallowed(s)[i])
    ensures NoUpper(s) ==> NoUpper(StripDisallowed(s))
    decreases |s|
  {
    if s != [] {
      StripChars(s[1..]);
    }
  }

  /** Replacing whitespace by hyphens turns a string of kept, non-upper-case characters into slug characters. */
  lemma {:induction false} DashChars(s: string)
    requires forall i :: 0 <= i < |s| ==> IsKept(s[i]) && !IsUpper(s[i])
    ensures AllSlugChars(DashWhitespace(s))
    decreases |s|
  {
    if s != [] {
      DashChars(s[1..]);
    }
  }

  // Character-class facts behind idempotence.

  lemma LowerSlug(s: string)
    requires AllSlugChars(s)
    ensures Lower(s) == s
  {
  }

  lemma {:induction false} StripSlug(s: string)
    requires AllSlugChars(s)
    ensures StripDisallowed(s) == s
    decreases |s|
  {
    if s != [] {
      StripSlug(s[1..]);
    }
  }

  /** Hyphens in the input are kept as they are, not collapsed: a string without whitespace is unchanged. */
  lemma {:induction false} HyphensKept(s: string)
    requires NoSpace(s)
    ensures DashWhitespace(s) == s
    decreases |s|
  {
    if s != [] {
      HyphensKept(s[1..]);
    }
  }

  /** Slugifying a slug changes nothing. */
  lemma SlugifyIdempotent(s: string)
    ensures Slugify(Slugify(s)) == Slugify(s)
  {
    var t := Slugify(s);
    LowerSlug(t);
    TrimNoSpace(t);
    StripSlug(t);
    HyphensKept(t);
  }

  /** Text that does not end in whitespace is processed independently of what follows it. */
  lemma {:induction false} DashAppend(a: string, t: string)
    requires a == [] || !IsSpace(a[|a| - 1])
    ensures DashWhitespace(a + t) == DashWhitespace(a) + DashWhitespace(t)
    decreases |a|
  {
    if a == [] {
      assert a + t == t;
    } else {
      var s := a + t;
      DropAppend(a, t);
      if |a| > 1 {
        assert s[1] == a[1];
        assert a[1..][|a[1..]| - 1] == a[|a| - 1];
      }
      DashAppend(a[1..], t);
      var head := if IsSpace(a[0]) then (if |a| > 1 && IsSpace(a[1]) then [] else "-") else [a[0]];
      AppendAssoc(head, DashWhitespace(a[1..]), DashWhitespace(t));
    }
  }

  /** A whitespace run followed by a non-space character (or by nothing) gives one hyphen. */
  lemma {:induction false} DashRun(w: string, b: string)
    requires w != [] && AllSpace(w)
    requires b == [] || !IsSpace(b[0])
    ensures DashWhitespace(w + b) == "-" + DashWhitespace(b)
    decreases |w|
  {
    var s := w + b;
    DropAppend(w, b);
    if |w| > 1 {
      assert s[1] == w[1];
      DashRun(w[1..], b);
    } else {
      assert s[1..] == b;
    }
  }

  /**
   * A maximal whitespace run `w` between `a` and `b` becomes exactly one hyphen;
   * the text on either side is processed on its own.
   */
  lemma RunBecomesOneHyphen(a: string, w: string, b: string)
    requires a == [] || !IsSpace(a[|a| - 1])
    requires w != [] && AllSpace(w)
    requires b == [] || !IsSpace(b[0])
    ensures DashWhitespace(a + w + b) == DashWhitespace(a) + "-" + DashWhitespace(b)
  {
    AppendAssoc(a, w, b);
    DashAppend(a, w + b);
    DashRun(w, b);
    AppendAssoc(DashWhitespace(a), "-", DashWhitespace(b));
  }

  lemma {:induction false} StripAppend(x: string, y: string)
    ensures StripDisallowed(x + y) == StripDisallowed(x) + StripDisallowed(y)
    decreases |x|
  {
    if x == [] {
      assert x + y == y;
    } else {
      DropAppend(x, y);
      StripAppend(x[1..], y);
      var kept := if IsKept(x[0]) then [x[0]] else [];
      AppendAssoc(kept, StripDisallowed(x[1..]), StripDisallowed(y));
    }
  }

  lemma {:induction false} StripAllKept(s: string)
    requires forall i :: 0 <= i < |s| ==> IsKept(s[i])
    ensures StripDisallowed(s) == s
    decreases |s|
  {
    if s != [] {
      StripAllKept(s[1..]);
    }
  }

  // ---------------------------------------------------------------------------
  // The time check of the pre-save hook
  // ---------------------------------------------------------------------------

  /** `\d` without the `u` flag. */
  predicate IsDigit(c: char) { '0' <= c <= '9' }

  /** `/^([01]\d|2[0-3]):([0-5]\d)$/.test(time)`: the whole string, nothing before or after. */
  predicate TimeMatches(t: string) {
    |t| == 5
    && (((t[0] == '0' || t[0] == '1') && IsDigit(t[1])) || (t[0] == '2' && '0' <= t[1] <= '3'))
    && t[2] == ':'
    && '0' <= t[3] <= '5' && IsDigit(t[4])
  }

  function Digit(n: nat): char
    requires n < 10
  {
    ('0' as int + n) as char
  }

  /** `n` written with exactly two decimal digits. */
  function TwoDigits(n: nat): string
    requires n < 100
  {
    [Digit(n / 10), Digit(n % 10)]
  }

  /** A 24-hour clock reading: an hour 0-23 and a minute 0-59, each in two digits, joined by a colon. */
  ghost predicate IsClockTime(t: string) {
    exists h: nat, m: nat :: h < 24 && m < 60 && t == TwoDigits(h) + ":" + TwoDigits(m)
  }

  function DigitValue(c: char): nat
    requires IsDigit(c)
  {
    c as int - '0' as int
  }

  /** The time regular expression accepts exactly the 24-hour clock readings `HH:mm`. */
  lemma TimeMatchesIffClockTime(t: string)
    ensures TimeMatches(t) <==> IsClockTime(t)
  {
    if TimeMatches(t) {
      var h := 10 * DigitValue(t[0]) + DigitValue(t[1]);
      var m := 10 * DigitValue(t[3]) + DigitValue(t[4]);
      assert h / 10 == DigitValue(t[0]) && h % 10 == DigitValue(t[1]);
      assert m / 10 == DigitValue(t[3]) && m % 10 == DigitValue(t[4]);
      assert t == TwoDigits(h) + ":" + TwoDigits(m);
    }
    if IsClockTime(t) {
      var h: nat, m: nat :| h < 24 && m < 60 && t == TwoDigits(h) + ":" + TwoDigits(m);
      assert t[0] == Digit(h / 10) && t[1] == Digit(h % 10);
      assert t[3] == Digit(m / 10) && t[4] == Digit(m % 10);
    }
  }

  lemma TimeExamples()
    ensures TimeMatches("09:00") && TimeMatches("23:59") && TimeMatches("00:00")
    ensures !TimeMatches("25:00") && !TimeMatches("24:00") && !TimeMatches("12:60")
    ensures !TimeMatches("9:00") && !TimeMatches("9:00am") && !TimeMatches("09:00 ")
  {
  }

  // ---------------------------------------------------------------------------
  // The Event record and its required fields
  // ---------------------------------------------------------------------------

  /** Milliseconds since the epoch: the time value of a JavaScript `Date`. */
  type Instant = int

  /** An Event document's persisted fields (the storage timestamps excepted). */
  datatype EventRecord = EventRecord(
    title: string,
    slug: string,
    description: string,
    overview: string,
    image: string,
    venue: string,
    location: string,
    date: string,
    time: string,
    mode: string,
    audience: string,
    agenda: seq<string>,
    organizer: string,
    tags: seq<string>)

  /** The string fields the hook requires to be non-blank. */
  datatype Field = Title | Description | Overview | Image | Venue | Location | Mode | Audience | Organizer

  /** The order in which the hook checks the required fields. */
  const RequiredFields: seq<Field> :=
    [Title, Description, Overview, Image, Venue, Location, Mode, Audience, Organizer]

  /** The field's position in `RequiredFields`. */
  function Rank(f: Field): (k: nat)
    ensures k < |RequiredFields| && RequiredFields[k] == f
  {
    match f
    case Title => 0
    case Description => 1
    case Overview => 2
    case Image => 3
    case Venue => 4
    case Location => 5
    case Mode => 6
    case Audience => 7
    case Organizer => 8
  }

  /** Every field occurs once in `RequiredFields`: position `k` holds the field of rank `k`. */
  lemma RankOfRequired(k: nat)
    requires k < |RequiredFields|
    ensures Rank(RequiredFields[k]) == k
  {
  }

  /** The property name, as it appears in the error message. */
  function FieldName(f: Field): string {
    match f
    case Title => "title"
    case Description => "description"
    case Overview => "overview"
    case Image => "image"
    case Venue => "venue"
    case Location => "location"
    case Mode => "mode"
    case Audience => "audience"
    case Organizer => "organizer"
  }

  /** `this[field]`. */
  function FieldValue(rec: EventRecord, f: Field): string {
    match f
    case Title => rec.title
    case Description => rec.description
    case Overview => rec.overview
    case Image => rec.image
    case Venue => rec.venue
    case Location => rec.location
    case Mode => rec.mode
    case Audience => rec.audience
    case Organizer => rec.organizer
  }

  /** `!this[field] || String(this[field]).trim() === ""`; an absent value reads as the empty string. */
  predicate Blank(v: string) {
    v == [] || Trim(v) == []
  }

  /** A value is rejected exactly when it is empty or all whitespace. */
  lemma BlankIffAllSpace(v: string)
    ensures Blank(v) <==> AllSpace(v)
  {
    TrimEmptyIffAllSpace(v);
  }

  /** The first field of `fields` whose value is blank, scanning in list order. */
  function FirstBlank(rec: EventRecord, fields: seq<Field>): (r: Option<Field>)
    ensures r.None? <==> forall k :: 0 <= k < |fields| ==> !Blank(FieldValue(rec, fields[k]))
    ensures r.Some? ==> Blank(FieldValue(rec, r.value))
    ensures r.Some? ==> exists k :: 0 <= k < |fields| && fields[k] == r.value
                                    && forall j :: 0 <= j < k ==> !Blank(FieldValue(rec, fields[j]))
  {
    if fields == [] then None
    else if Blank(FieldValue(rec, fields[0])) then Some(fields[0])
    else
      var r := FirstBlank(rec, fields[1..]);
      assert r.Some? ==> exists k :: 1 <= k < |fields| && fields[k] == r.value
                                     && forall j :: 0 <= j < k ==> !Blank(FieldValue(rec, fields[j]));
      r
  }

  // ---------------------------------------------------------------------------
  // The pre-save hook
  // ---------------------------------------------------------------------------

  /** What the hook throws. */
  datatype EventError = InvalidDate | InvalidTime | EmptyField(field: Field)

  function Message(e: EventError): string {
    match e
    case InvalidDate => "Invalid date format"
    case InvalidTime => "Time must be in HH:mm format"
    case EmptyField(f) => "Field \"" + FieldName(f) + "\" cannot be empty"
  }

  /** Different errors carry different messages, so the message tells which check failed and on which field. */
  lemma MessagesDistinct(e1: EventError, e2: EventError)
    requires e1 != e2
    ensures Message(e1) != Message(e2)
  {
    if e1.EmptyField? && e2.EmptyField? {
      var p := "Field \"";
      assert Message(e1)[|p|..][..|FieldName(e1.field)|] == FieldName(e1.field);
      assert Message(e2)[|p|..][..|FieldName(e2.field)|] == FieldName(e2.field);
    } else if e1.EmptyField? || e2.EmptyField? {
      assert Message(e1)[0] != Message(e2)[0] || |Message(e1)| != |Message(e2)|;
    }
  }

  /**
   * The document's fields once the hook has stopped, whether it finished or
   * threw: the slug is recomputed first if the title was modified, and the date
   * is overwritten once it has parsed; nothing else is written.
   */
  function AfterHook(rec: EventRecord, titleModified: bool,
                     parseDate: string -> Option<Instant>, toIso: Instant -> string): (r: EventRecord)
    ensures r.slug == (if titleModified then Slugify(rec.title) else rec.slug)
    ensures r.date == (if parseDate(rec.date).Some? then toIso(parseDate(rec.date).value) else rec.date)
    ensures r.(slug := rec.slug, date := rec.date) == rec
  {
    var withSlug := if titleModified then rec.(slug := Slugify(rec.title)) else rec;
    match parseDate(rec.date)
    case None => withSlug
    case Some(t) => withSlug.(date := toIso(t))
  }

  /**
   * The pre-save hook as a function of the document it runs on: `titleModified`
   * is `this.isModified("title")`, `parseDate` is `new Date(...)` (None for an
   * invalid date) and `toIso` is `toISOString`.  Checks run in the order slug,
   * date, time, required fields; the first failure is the error.
   */
  function PreSave(rec: EventRecord, titleModified: bool,
                   parseDate: string -> Option<Instant>, toIso: Instant -> string): (r: Result<EventRecord, EventError>)
    ensures r.Ok? <==> parseDate(rec.date).Some? && TimeMatches(rec.time)
                       && forall k :: 0 <= k < |RequiredFields| ==> !Blank(FieldValue(rec, RequiredFields[k]))
    ensures r.Ok? ==> r.value == rec.(slug := if titleModified then Slugify(rec.title) else rec.slug,
                                      date := toIso(parseDate(rec.date).value))
    ensures r == Err(InvalidDate) <==> parseDate(rec.date).None?
    ensures r == Err(InvalidTime) <==> parseDate(rec.date).Some? && !TimeMatches(rec.time)
    ensures forall f :: r == Err(EmptyField(f)) <==>
              && parseDate(rec.date).Some? && TimeMatches(rec.time)
              && Blank(FieldValue(rec, f))
              && forall g :: Rank(g) < Rank(f) ==> !Blank(FieldValue(rec, g))
  {
    var staged := AfterHook(rec, titleModified, parseDate, toIso);
    assert forall f :: FieldValue(staged, f) == FieldValue(rec, f);
    if parseDate(rec.date).None? then Err(InvalidDate)
    else if !TimeMatches(staged.time) then Err(InvalidTime)
    else
      var first := FirstBlank(staged, RequiredFields);
      FirstBlankByRank(staged, first);
      match first
      case Some(f) => Err(EmptyField(f))
      case None => Ok(staged)
  }

  /** What the scan of `RequiredFields` reports is blank, and every field of lower rank is not. */
  lemma FoundIsFirst(rec: EventRecord, f: Field)
    requires FirstBlank(rec, RequiredFields) == Some(f)
    ensures Blank(FieldValue(rec, f))
    ensures forall g :: Rank(g) < Rank(f) ==> !Blank(FieldValue(rec, g))
  {
    var k :| 0 <= k < |RequiredFields| && RequiredFields[k] == f
             && forall j :: 0 <= j < k ==> !Blank(FieldValue(rec, RequiredFields[j]));
    RankOfRequired(k);
    forall g | Rank(g) < Rank(f) ensures !Blank(FieldValue(rec, g)) {
      assert RequiredFields[Rank(g)] == g;
    }
  }

  /** A blank field all of whose lower-ranked fields are non-blank is the one the scan reports. */
  lemma FirstIsFound(rec: EventRecord, f: Field)
    requires Blank(FieldValue(rec, f))
    requires forall g :: Rank(g) < Rank(f) ==> !Blank(FieldValue(rec, g))
    ensures FirstBlank(rec, RequiredFields) == Some(f)
  {
    var first := FirstBlank(rec, RequiredFields);
    assert RequiredFields[Rank(f)] == f;
    assert first.Some?;
    var h := first.value;
    var k :| 0 <= k < |RequiredFields| && RequiredFields[k] == h
             && forall j :: 0 <= j < k ==> !Blank(FieldValue(rec, RequiredFields[j]));
    RankOfRequired(k);
    assert Blank(FieldValue(rec, h));
    assert k == Rank(f);
  }

  /** Restates the result of scanning `RequiredFields` in terms of `Rank`. */
  lemma FirstBlankByRank(rec: EventRecord, first: Option<Field>)
    requires first == FirstBlank(rec, RequiredFields)
    ensures forall f :: first == Some(f) <==>
              Blank(FieldValue(rec, f)) && forall g :: Rank(g) < Rank(f) ==> !Blank(FieldValue(rec, g))
  {
    forall f
      ensures first == Some(f) <==>
              Blank(FieldValue(rec, f)) && forall g :: Rank(g) < Rank(f) ==> !Blank(FieldValue(rec, g))
    {
      if first == Some(f) {
        FoundIsFirst(rec, f);
      }
      if Blank(FieldValue(rec, f)) && forall g :: Rank(g) < Rank(f) ==> !Blank(FieldValue(rec, g)) {
        FirstIsFound(rec, f);
      }
    }
  }

  /** The hook leaves the required fields as they are. */
  lemma HookKeepsRequired(rec: EventRecord, titleModified: bool,
                          parseDate: string -> Option<Instant>, toIso: Instant -> string)
    ensures forall f :: FieldValue(AfterHook(rec, titleModified, parseDate, toIso), f) == FieldValue(rec, f)
  {
  }

  /** Once date and time pass, the hook throws for the first blank field of the scan. */
  lemma PreSaveStopsAt(rec: EventRecord, titleModified: bool,
                       parseDate: string -> Option<Instant>, toIso: Instant -> string, i: nat)
    requires parseDate(rec.date).Some? && TimeMatches(rec.time)
    requires i < |RequiredFields| && Blank(FieldValue(rec, RequiredFields[i]))
    requires forall k :: 0 <= k < i ==> !Blank(FieldValue(rec, RequiredFields[k]))
    ensures PreSave(rec, titleModified, parseDate, toIso) == Err(EmptyField(RequiredFields[i]))
  {
    var f := RequiredFields[i];
    RankOfRequired(i);
    forall g | Rank(g) < Rank(f) ensures !Blank(FieldValue(rec, g)) {
      assert RequiredFields[Rank(g)] == g;
    }
  }

  /** Re-saving without touching the title keeps the slug; touching it derives the slug from the title. */
  lemma SlugOnlyFollowsTitle(rec: EventRecord, titleModified: bool,
                             parseDate: string -> Option<Instant>, toIso: Instant -> string)
    requires PreSave(rec, titleModified, parseDate, toIso).Ok?
    ensures var saved := PreSave(rec, titleModified, parseDate, toIso).value;
            (titleModified ==> saved.slug == Slugify(rec.title)) && (!titleModified ==> saved.slug == rec.slug)
            && saved.time == rec.time && saved.title == rec.title
  {
  }

  // ---------------------------------------------------------------------------
  // The schema's list validators
  // ---------------------------------------------------------------------------

  datatype ListField = Agenda | Tags

  function ListMessage(l: ListField): string {
    match l
    case Agenda => "Agenda must contain at least one item"
    case Tags => "Tags must contain at least one item"
  }

  /** `(v: string[]) => v.length > 0`. */
  predicate NonEmptyList(v: seq<string>) {
    |v| > 0
  }

  /** The list fields whose validator fails. */
  function ListViolations(rec: EventRecord): (bad: set<ListField>)
    ensures bad == {} <==> |rec.agenda| > 0 && |rec.tags| > 0
    ensures Agenda in bad <==> rec.agenda == []
    ensures Tags in bad <==> rec.tags == []
  {
    (if NonEmptyList(rec.agenda) then {} else {Agenda}) + (if NonEmptyList(rec.tags) then {} else {Tags})
  }

  // ---------------------------------------------------------------------------
  // The hook as it runs: on a document whose fields it assigns in place
  // ---------------------------------------------------------------------------

  class EventDocument {
    var title: string
    var slug: string
    var description: string
    var overview: string
    var image: string
    var venue: string
    var location: string
    var date: string
    var time: string
    var mode: string
    var audience: string
    var agenda: seq<string>
    var organizer: string
    var tags: seq<string>

    function Record(): EventRecord
      reads this
    {
      EventRecord(title, slug, description, overview, image, venue, location,
                  date, time, mode, audience, agenda, organizer, tags)
    }

    constructor (rec: EventRecord)
      ensures Record() == rec
    {
      title, slug, description, overview := rec.title, rec.slug, rec.description, rec.overview;
      image, venue, location, date := rec.image, rec.venue, rec.location, rec.date;
      time, mode, audience, agenda := rec.time, rec.mode, rec.audience, rec.agenda;
      organizer, tags := rec.organizer, rec.tags;
    }

    /**
     * Runs the hook on this document.  `error` is what it throws (None when it
     * completes).  The fields it assigned before throwing stay assigned.
     */
    method PreSaveHook(titleModified: bool,
                       parseDate: string -> Option<Instant>, toIso: Instant -> string)
      returns (error: Option<EventError>)
      modifies this
      ensures Record() == AfterHook(old(Record()), titleModified, parseDate, toIso)
      ensures var r := PreSave(old(Record()), titleModified, parseDate, toIso);
              (error.None? <==> r.Ok?) && (r.Ok? ==> Record() == r.value) && (r.Err? ==> error == Some(r.error))
    {
      if titleModified {
        slug := Slugify(title);
      }
      var parsed := parseDate(date);
      if parsed.None? {
        return Some(InvalidDate);
      }
      date := toIso(parsed.value);
      if !TimeMatches(time) {
        return Some(InvalidTime);
      }
      HookKeepsRequired(old(Record()), titleModified, parseDate, toIso);
      for i := 0 to |RequiredFields|
        invariant Record() == AfterHook(old(Record()), titleModified, parseDate, toIso)
        invariant forall k :: 0 <= k < i ==> !Blank(FieldValue(old(Record()), RequiredFields[k]))
      {
        var field := RequiredFields[i];
        if Blank(FieldValue(Record(), field)) {
          PreSaveStopsAt(old(Record()), titleModified, parseDate, toIso, i);
          return Some(EmptyField(field));
        }
      }
      return None;
    }
  }
}
