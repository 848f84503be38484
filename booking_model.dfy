/**
 * The Booking document: the normalised, pattern-checked email and the
 * pre-save check that the referenced Event exists.
 */
module BookingModel {
  import opened Wrappers
  import opened Text

  predicate NotSpaceOrAt(c: char) {
    !IsSpace(c) && c != '@'
  }

  /** One or more characters of the class `[^\s@]`: the `[^\s@]+` of the pattern. */
  predicate IsAtom(s: string) {
    |s| > 0 && forall k :: 0 <= k < |s| ==> NotSpaceOrAt(s[k])
  }

  /**
   * What `/^[^\s@]+@[^\s@]+\.[^\s@]+$/` matches: the whole string splits into an
   * atom, `@`, an atom, `.`, an atom.
   */
  ghost predicate MatchesEmailPattern(s: string) {
    exists i, j :: 0 <= i < j < |s| && s[i] == '@' && s[j] == '.'
                   && IsAtom(s[..i]) && IsAtom(s[i + 1..j]) && IsAtom(s[j + 1..])
  }

  /**
   * `emailRegex.test(value)`, stated character by character: no whitespace,
   * exactly one `@` with something before it, and after it a `.` that has at
   * least one character on each side.
   */
  predicate EmailShape(s: string) {
    && NoSpace(s)
    && exists i :: 0 < i < |s| && s[i] == '@'
                   && (forall k :: 0 <= k < |s| && k != i ==> s[k] != '@')
                   && (exists j :: i + 1 < j < |s| - 1 && s[j] == '.')
  }

  /** `s[lo..hi]` is an atom exactly when it is non-empty and each of its characters is in the class. */
  lemma AtomSlice(s: string, lo: int, hi: int)
    requires 0 <= lo <= hi <= |s|
    ensures IsAtom(s[lo..hi]) <==> lo < hi && forall k :: lo <= k < hi ==> NotSpaceOrAt(s[k])
  {
    var t := s[lo..hi];
    assert forall k :: lo <= k < hi ==> t[k - lo] == s[k];
  }

  lemma ShapeToPattern(s: string)
    requires EmailShape(s)
    ensures MatchesEmailPattern(s)
  {
    var i :| 0 < i < |s| && s[i] == '@'
             && (forall k :: 0 <= k < |s| && k != i ==> s[k] != '@')
             && (exists j :: i + 1 < j < |s| - 1 && s[j] == '.');
    var j :| i + 1 < j < |s| - 1 && s[j] == '.';
    assert forall k :: 0 <= k < |s| && k != i ==> NotSpaceOrAt(s[k]);
    AtomSlice(s, 0, i);
    AtomSlice(s, i + 1, j);
    AtomSlice(s, j + 1, |s|);
    assert s[..i] == s[0..i] && s[j + 1..] == s[j + 1..|s|];
  }

  lemma PatternToShape(s: string)
    requires MatchesEmailPattern(s)
    ensures EmailShape(s)
  {
    var i, j :| 0 <= i < j < |s| && s[i] == '@' && s[j] == '.'
                && IsAtom(s[..i]) && IsAtom(s[i + 1..j]) && IsAtom(s[j + 1..]);
    assert s[..i] == s[0..i] && s[j + 1..] == s[j + 1..|s|];
    AtomSlice(s, 0, i);
    AtomSlice(s, i + 1, j);
    AtomSlice(s, j + 1, |s|);
    assert forall k :: 0 <= k < |s| && k != i ==> NotSpaceOrAt(s[k]);
    assert i + 1 < j < |s| - 1;
  }

  /** The character-by-character test accepts exactly the strings the pattern matches. */
  lemma EmailShapeIffPattern(s: string)
    ensures EmailShape(s) <==> MatchesEmailPattern(s)
  {
    if EmailShape(s) {
      ShapeToPattern(s);
    }
    if MatchesEmailPattern(s) {
      PatternToShape(s);
    }
  }

  lemma NoAtExample()
    ensures !EmailShape("foo")
  {
  }

  lemma NoDomainExample()
    ensures !EmailShape("foo@")
  {
  }

  lemma NoDotExample()
    ensures !EmailShape("foo@bar")
  {
    assert "foo@bar"[3] == '@';
  }

  lemma TwoAtsExample()
    ensures !EmailShape("a@@b.c")
  {
    assert "a@@b.c"[1] == '@' && "a@@b.c"[2] == '@';
  }

  lemma SpaceExample()
    ensures !EmailShape("a b@c.d")
  {
    assert "a b@c.d"[1] == ' ';
  }

  lemma NoLocalPartExample()
    ensures !EmailShape("@b.c")
  {
    assert "@b.c"[0] == '@';
  }

  lemma MinimalExample()
    ensures EmailShape("a@b.c")
  {
    assert "a@b.c"[1] == '@' && "a@b.c"[3] == '.';
  }

  lemma EmailExamples()
    ensures !EmailShape("foo") && !EmailShape("foo@") && !EmailShape("foo@bar")
    ensures !EmailShape("a@@b.c") && !EmailShape("a b@c.d") && !EmailShape("@b.c")
    ensures EmailShape("a@b.c")
  {
    NoAtExample();
    NoDomainExample();
    NoDotExample();
    TwoAtsExample();
    SpaceExample();
    NoLocalPartExample();
    MinimalExample();
  }

  /**
   * The schema's `lowercase: true` and `trim: true` setters.  Their order does
   * not matter; the stored value has no upper-case ASCII letter and no
   * whitespace at either end.
   */
  function NormalizeEmail(raw: string): (email: string)
    ensures email == Lower(Trim(raw))
    ensures NoUpper(email)
    ensures email == [] || (!IsSpace(email[0]) && !IsSpace(email[|email| - 1]))
  {
    TrimLowerCommute(raw);
    TrimIsCore(Lower(raw));
    TrimIsCore(raw);
    Trim(Lower(raw))
  }

  /** A 12-byte MongoDB ObjectId, as a number. */
  type ObjectId = nat

  datatype Booking = Booking(eventId: ObjectId, email: string)

  datatype BookingError = InvalidEmail | EventNotFound

  function BookingMessage(e: BookingError): string {
    match e
    case InvalidEmail => "Invalid email format"
    case EventNotFound => "Referenced event does not exist"
  }

  /** A booking as stored once its fields are assigned: the email goes through the setters. */
  function NewBooking(eventId: ObjectId, rawEmail: string): (b: Booking)
    ensures b.eventId == eventId && b.email == NormalizeEmail(rawEmail)
  {
    Booking(eventId, NormalizeEmail(rawEmail))
  }

  /** The email field's `validate` entry, applied to the stored (normalised) value. */
  function ValidateEmail(b: Booking): (r: Result<Booking, BookingError>)
    ensures r.Ok? <==> MatchesEmailPattern(b.email)
    ensures r.Ok? ==> r.value == b
    ensures r.Err? ==> r.error == InvalidEmail && BookingMessage(r.error) == "Invalid email format"
  {
    EmailShapeIffPattern(b.email);
    if EmailShape(b.email) then Ok(b) else Err(InvalidEmail)
  }

  /**
   * The pre-save hook: `Event.exists({ _id: this.eventId })` is membership in
   * the set of ids of the Events stored at that moment.  It runs on every save
   * and never changes the booking.
   */
  function PreSaveBooking(b: Booking, existingEvents: set<ObjectId>): (r: Result<Booking, BookingError>)
    ensures r.Ok? <==> b.eventId in existingEvents
    ensures r.Ok? ==> r.value == b
    ensures r.Err? ==> r.error == EventNotFound && BookingMessage(r.error) == "Referenced event does not exist"
  {
    if b.eventId in existingEvents then Ok(b) else Err(EventNotFound)
  }

  /**
   * Saving a booking built from `eventId` and `rawEmail`: the email is
   * normalised on assignment, validated, then the existence hook runs.
   */
  function SaveBooking(eventId: ObjectId, rawEmail: string, existingEvents: set<ObjectId>): (r: Result<Booking, BookingError>)
    ensures r.Ok? <==> MatchesEmailPattern(NormalizeEmail(rawEmail)) && eventId in existingEvents
    ensures r.Ok? ==> r.value == Booking(eventId, Lower(Trim(rawEmail)))
    ensures r == Err(InvalidEmail) <==> !MatchesEmailPattern(NormalizeEmail(rawEmail))
  {
    var b := NewBooking(eventId, rawEmail);
    match ValidateEmail(b)
    case Err(e) => Err(e)
    case Ok(valid) => PreSaveBooking(valid, existingEvents)
  }

  /**
   * Illustration of `PreSaveBooking`'s first postcondition: the check is made
   * against the Events stored at the time of each save, so a booking accepted
   * once is rejected on a later save if its Event has since been removed.
   */
  lemma RecheckedOnEverySave(b: Booking, before: set<ObjectId>, after: set<ObjectId>)
    requires PreSaveBooking(b, before).Ok?
    requires after == before - {b.eventId}
    ensures PreSaveBooking(b, after) == Err(EventNotFound)
  {
  }

  lemma UserExampleLower()
    ensures Lower(" USER@Example.COM ") == " user@example.com "
  {
  }

  lemma UserExamplePadded()
    ensures " user@example.com " == [' '] + "user@example.com" + [' ']
  {
  }

  lemma UserExampleNormalized()
    ensures NormalizeEmail(" USER@Example.COM ") == "user@example.com"
  {
    UserExampleLower();
    UserExamplePadded();
    TrimPadded("user@example.com");
  }

  lemma UserExampleVisible()
    ensures NoSpace("user@example.com")
  {
    VisibleNoSpace("user@example.com");
  }

  lemma UserExampleOneAt()
    ensures forall k :: 0 <= k < |"user@example.com"| && k != 4 ==> "user@example.com"[k] != '@'
  {
  }

  lemma UserExampleShape()
    ensures MatchesEmailPattern("user@example.com")
  {
    var e := "user@example.com";
    UserExampleVisible();
    UserExampleOneAt();
    assert e[4] == '@' && e[12] == '.';
    assert EmailShape(e);
    ShapeToPattern(e);
  }

  /** `" USER@Example.COM "` is accepted and stored as `"user@example.com"`. */
  lemma UserExampleSaved(id: ObjectId)
    ensures SaveBooking(id, " USER@Example.COM ", {id}) == Ok(Booking(id, "user@example.com"))
  {
    UserExampleNormalized();
    UserExampleShape();
  }
}
