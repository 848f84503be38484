# Event listing and booking: the validation and connection core

This project models in Dafny the core of a small event-listing and booking web
application, and proves properties of that model:

- **Events** (`database/event.model.ts`). `slugify` derives a URL slug from a
  title: lower-case, trim, drop everything outside `[\w\s-]`, then turn each
  whitespace run into one `-`. The pre-save hook runs four steps in order:
  - it recomputes the slug only when the title was modified;
  - it rejects a date that does not parse, and otherwise rewrites it as an ISO
    string;
  - it rejects a time that is not `HH:mm` on the 24-hour clock;
  - it scans nine required string fields in a fixed order and rejects the first
    one that is empty or all whitespace.

  The schema also requires `agenda` and `tags` to be non-empty lists.
- **Bookings** (`database/booking.model.ts`). An email is lower-cased and
  trimmed by the schema setters, then tested against
  `^[^\s@]+@[^\s@]+\.[^\s@]+$`. The pre-save hook rejects a booking whose Event
  does not exist.
- **Connection cache** (`lib/mongodb.ts`):
  - A process-global cache holds the established connection and the promise of
    the attempt in flight.
  - `connectDB` returns the connection if there is one, otherwise the pending
    promise, and otherwise starts exactly one attempt.
  - Success caches the connection. Failure clears the promise, so the next call
    retries.
  - The URI is the environment variable, or a localhost default when the
    variable is unset or empty.

Each module follows the form of its source:

- **Text** holds the JavaScript string primitives the validators rely on:
  - the ECMAScript whitespace set, which `trim()` and `\s` share;
  - `toLowerCase`;
  - `trim`.
- **EventModel** has two forms:
  - The hook's meaning is the function `PreSave`. It takes the date parser and
    `toISOString` as parameters.
  - The hook as it runs is the method `EventDocument.PreSaveHook`. It assigns
    the document's fields in place and scans the required fields with a loop.
    It is proved to agree with `PreSave`, including which fields are already
    written when it throws.
- **EventSave** holds `SaveEvent`, a whole save of an Event: the `agenda` and
  `tags` validators first, then the hook.
- **BookingModel** is made of functions, as its source is: setters, a validator
  and a hook.
- **MongoDb** has two forms:
  - The cache as a state machine: `CallStep`, `ResolveStep` and `RejectStep`.
    Lemmas about runs of calls and settlements in any order from the empty
    cache are proved over it.
  - The mutable global object `ConnectionCache`. Its methods are proved to
    perform exactly those steps.
- **SlugExamples** holds worked slugs.
- **Wrappers** holds `Option` and `Result`.

The time regular expression is proved equivalent to "two-digit hour below 24,
colon, two-digit minute below 60". The email regular expression is proved
equivalent to its direct reading: three non-empty runs of characters that are
neither whitespace nor `@`, separated by `@` and `.`.

Two behaviours of `slugify` follow from the order of its steps:
- `"Hello !"` becomes `"hello-"`. Trimming happens before stripping, so the
  space in front of the stripped `!` survives and becomes a hyphen.
- The double space left by a stripped `&` becomes one hyphen, so `"AI & ML"`
  becomes `"ai-ml"`. Hyphens already present are never collapsed, so `"a - b"`
  gives `"a---b"`.

## Model

| member | source | states |
|---|---|---|
| Text.IsSpace | database/event.model.ts:31 | definition of the whitespace set shared by `trim()` and `\s`: the ECMAScript WhiteSpace and LineTerminator code points, listed one by one |
| Text.LowerChar | database/event.model.ts:30 | the lower-cased character is not an upper-case letter; it is whitespace exactly when the input is; non-letters are unchanged |
| Text.Lower | database/event.model.ts:30 | `toLowerCase` keeps the length, maps each character by `LowerChar`, and leaves no upper-case letter |
| Text.LowerAppend | database/event.model.ts:30 | lower-casing distributes over concatenation |
| Text.Trim | database/event.model.ts:31 | definition of `String.prototype.trim`: drop the leading whitespace, then the trailing whitespace; its meaning is proved by TrimIsCore, TrimEmptyIffAllSpace, TrimNoSpace, TrimNoSpaceEnds and TrimLowerCommute |
| Text.TrimIsCore | database/event.model.ts:31 | `trim` returns the slice left after removing a whitespace prefix and a whitespace suffix; the result neither starts nor ends with whitespace |
| Text.TrimEmptyIffAllSpace | database/event.model.ts:153 | a string trims to "" if and only if it consists of whitespace only |
| Text.TrimNoSpace | database/event.model.ts:31 | a string without whitespace is its own trim |
| Text.TrimNoSpaceEnds | database/event.model.ts:31 | a string that neither starts nor ends with whitespace is its own trim |
| Text.TrimLowerCommute | database/booking.model.ts:27-28 | trimming and lower-casing commute, so the order in which the two setters apply does not matter |
| EventModel.StripDisallowed | database/event.model.ts:32 | definition of `.replace(/[^\w\s-]/g, "")`: keep each character that is an ASCII word character, whitespace or `-`, drop the rest; its properties are proved by StripChars, StripAllKept and StripAppend |
| EventModel.DashWhitespace | database/event.model.ts:33 | definition of `.replace(/\s+/g, "-")`, one character at a time: a whitespace character gives `-` when it ends a run and nothing otherwise; that each maximal run becomes exactly one hyphen is proved by RunBecomesOneHyphen, and that other text is untouched by HyphensKept |
| EventModel.Slugify | database/event.model.ts:28-33 | every character of a slug is in `[a-z0-9_-]` |
| EventModel.StripChars | database/event.model.ts:32 | after the replacement every character is a word character, whitespace or `-`, and no upper-case letter is introduced |
| EventModel.DashChars | database/event.model.ts:33 | replacing whitespace runs by hyphens leaves only slug characters |
| EventModel.StripAllKept | database/event.model.ts:32 | the replacement removes nothing from a string of allowed characters |
| EventModel.StripAppend | database/event.model.ts:32 | the replacement acts character by character, so it distributes over concatenation |
| EventModel.HyphensKept | database/event.model.ts:32-33 | a string without whitespace passes the hyphen step unchanged, so existing hyphens are not collapsed |
| EventModel.RunBecomesOneHyphen | database/event.model.ts:33 | a maximal whitespace run becomes exactly one hyphen, and the text on each side is processed on its own |
| EventModel.SlugifyIdempotent | database/event.model.ts:28-33 | slugifying a slug gives the same slug |
| SlugExamples.SlugifyTechExpo | database/event.model.ts:28-33 | "AI & ML Tech Expo" becomes "ai-ml-tech-expo" |
| SlugExamples.SlugifyTrailingPunctuation | database/event.model.ts:28-33 | "Hello !" becomes "hello-", with a trailing hyphen |
| SlugExamples.SlugifySpacedHyphen | database/event.model.ts:32-33 | "a - b" becomes "a---b": an existing hyphen is kept and not merged with the hyphens the spaces around it become |
| EventModel.TimeMatches | database/event.model.ts:135-136 | definition of `/^([01]\d\|2[0-3]):([0-5]\d)$/.test`: five characters, hour `0`/`1` plus a digit or `2` plus `0`-`3`, a colon, minute `0`-`5` plus a digit; proved equal to the clock reading by TimeMatchesIffClockTime |
| EventModel.TimeMatchesIffClockTime | database/event.model.ts:135-138 | the time regex accepts a string if and only if it is `HH:mm` with hour below 24 and minute below 60 |
| EventModel.TimeExamples | database/event.model.ts:135 | "09:00", "23:59" and "00:00" are accepted; "25:00", "24:00", "12:60", "9:00", "9:00am" and "09:00 " are rejected |
| EventModel.Rank | database/event.model.ts:140-150 | each required field occurs at its rank in the checking order |
| EventModel.RankOfRequired | database/event.model.ts:140-150 | each position of the checking order holds the field of that rank, so no field occurs twice |
| EventModel.Blank | database/event.model.ts:153 | definition of `!this[field] \|\| String(this[field]).trim() === ""`, with an absent value read as ""; characterised by BlankIffAllSpace |
| EventModel.BlankIffAllSpace | database/event.model.ts:153 | a value is rejected as empty if and only if it is empty or all whitespace |
| EventModel.FirstBlank | database/event.model.ts:152-156 | the scan finds nothing if and only if every listed field is non-blank; what it finds is blank, and every field listed before it is non-blank |
| EventModel.FoundIsFirst | database/event.model.ts:152-156 | the reported field is blank and every field of lower rank is not |
| EventModel.FirstIsFound | database/event.model.ts:152-156 | a blank field whose lower-ranked fields are all non-blank is the one reported |
| EventModel.FirstBlankByRank | database/event.model.ts:152-156 | the scan of the required fields reports field f if and only if f is blank and every field of lower rank is not |
| EventModel.Message | database/event.model.ts:131-154 | definition of the three thrown messages: "Invalid date format", "Time must be in HH:mm format" and `Field "<name>" cannot be empty`; MessagesDistinct proves they identify the error |
| EventModel.MessagesDistinct | database/event.model.ts:131-154 | different errors have different messages, and the field name in "Field ... cannot be empty" identifies the field |
| EventModel.AfterHook | database/event.model.ts:125-133 | the hook writes only the slug and the date: the slug becomes the slug of the title if and only if the title was modified, and the date becomes its ISO form if and only if it parsed |
| EventModel.PreSave | database/event.model.ts:124-157 | the save goes through if and only if the date parses, the time matches and no required field is blank, and the saved record is the input with only the slug and date replaced; an invalid date is reported if and only if the date does not parse; an invalid time if and only if the date parses and the time does not match; an empty field f if and only if date and time are fine, f is blank and every earlier required field is not |
| EventModel.SlugOnlyFollowsTitle | database/event.model.ts:125-127 | on a successful save the slug is the title's slug when the title was modified and the stored slug otherwise; title and time are unchanged |
| EventModel.ListViolations | database/event.model.ts:93-109 | the agenda validator fails if and only if the agenda is empty, and the tags validator if and only if the tags are empty; the record passes both if and only if both lists are non-empty |
| EventSave.SaveEvent | database/event.model.ts:93-157 | a save validates before the hook runs: it succeeds if and only if both lists are non-empty, the date parses, the time matches and no required field is blank, and then stores the hook's record; the validation error is reported if and only if a list is empty, naming exactly the empty lists; the hook's error is reported if and only if both lists are non-empty and the hook throws; an empty agenda or tags list is reported with "Agenda must contain at least one item" or "Tags must contain at least one item" |
| EventModel.ListMessage | database/event.model.ts:93-110 | definition of the two validator messages, "Agenda must contain at least one item" and "Tags must contain at least one item"; SaveEvent states which of them a failed save reports |
| EventModel.EventDocument.constructor | database/event.model.ts:6-23 | a document holds the given field values |
| EventModel.EventDocument.PreSaveHook | database/event.model.ts:124-157 | running the hook in place leaves the fields as `AfterHook` says, also when it throws; it throws nothing if and only if `PreSave` succeeds, in which case the document is the saved record, and otherwise it throws `PreSave`'s error |
| BookingModel.MatchesEmailPattern | database/booking.model.ts:14 | definition of `^[^\s@]+@[^\s@]+\.[^\s@]+$` read directly: some `@` and a later `.` split the string into three non-empty runs of characters that are neither whitespace nor `@` |
| BookingModel.EmailShape | database/booking.model.ts:30 | definition of the executable test the validator runs: no whitespace, exactly one `@` with text before it, and a `.` after it with text on both sides; proved equal to MatchesEmailPattern by EmailShapeIffPattern |
| BookingModel.EmailShapeIffPattern | database/booking.model.ts:14 | the executable test accepts a string if and only if it has the form atom `@` atom `.` atom, where an atom is a non-empty run of characters that are neither whitespace nor `@` |
| BookingModel.EmailExamples | database/booking.model.ts:14 | "foo", "foo@", "foo@bar", "a@@b.c", "a b@c.d" and "@b.c" are rejected; "a@b.c" is accepted |
| BookingModel.NormalizeEmail | database/booking.model.ts:27-28 | the stored email is the lower-cased trim of the input: no upper-case letter, and no whitespace at either end |
| BookingModel.NewBooking | database/booking.model.ts:24-28 | a new booking keeps the event id and stores the normalised email |
| BookingModel.ValidateEmail | database/booking.model.ts:29-32 | validation passes if and only if the stored email matches the pattern; it never changes the booking; otherwise it fails with InvalidEmail, whose message is "Invalid email format" |
| BookingModel.BookingMessage | database/booking.model.ts:29-49 | definition of the two booking messages, "Invalid email format" and "Referenced event does not exist"; ValidateEmail and PreSaveBooking state which one each reports |
| BookingModel.PreSaveBooking | database/booking.model.ts:44-49 | the hook passes if and only if the referenced event exists; it never changes the booking; otherwise it fails with EventNotFound, whose message is "Referenced event does not exist" |
| BookingModel.SaveBooking | database/booking.model.ts:14-49 | a save succeeds if and only if the normalised email matches and the event exists, and then stores the normalised email; the email error is reported if and only if the email does not match |
| BookingModel.RecheckedOnEverySave | database/booking.model.ts:44-49 | illustration of PreSaveBooking's contract: since the check is made against the events stored at each save, a booking accepted once is rejected on a later save if its event has since been removed |
| BookingModel.UserExampleNormalized | database/booking.model.ts:27-28 | " USER@Example.COM " is normalised to "user@example.com" |
| BookingModel.UserExampleShape | database/booking.model.ts:14 | "user@example.com" matches the email pattern |
| BookingModel.UserExampleSaved | database/booking.model.ts:14-49 | a booking with " USER@Example.COM " for an existing event is saved with "user@example.com" |
| MongoDb.EffectiveUri | lib/mongodb.ts:30 | the URI is never empty; it is the variable's value when that is set and non-empty, and the default otherwise |
| MongoDb.CheckUri | lib/mongodb.ts:35-39 | the configuration check passes if and only if the URI is non-empty, returning it unchanged; otherwise it fails with "Please define the MONGODB_URI environment variable inside .env.local" |
| MongoDb.ConfigMessage | lib/mongodb.ts:36-38 | definition of the configuration error's message, "Please define the MONGODB_URI environment variable inside .env.local"; CheckUri states that its failure reports it |
| MongoDb.ConfigErrorUnreachable | lib/mongodb.ts:30-39 | the configuration error is never thrown |
| MongoDb.CallStep | lib/mongodb.ts:55-94 | definition of one `connectDB` call: return the cached connection if there is one, else the cached promise, else start attempt n+1, cache its promise and return it; properties proved by StepKeepsValid, ConnectedIsFinal, AttemptsBound and SharedOutcome |
| MongoDb.ResolveStep | lib/mongodb.ts:79-84 | definition of the `.then` callback: the attempt in flight caches its connection, the promise stays |
| MongoDb.RejectStep | lib/mongodb.ts:85-90 | definition of the `.catch` callback: the attempt in flight's promise is cleared; RetryAfterFailure shows the next call retries |
| MongoDb.StepKeepsValid | lib/mongodb.ts:55-90 | every call, success and failure keeps the cache invariant: a cached connection implies a cached promise, and a cached promise is the latest attempt's |
| MongoDb.RunKeepsValid | lib/mongodb.ts:55-90 | every execution keeps the cache invariant |
| MongoDb.ConnectedIsFinal | lib/mongodb.ts:57-59 | once a connection is cached, no later event changes the cache or starts an attempt, and every later call gets that connection |
| MongoDb.AttemptsBound | lib/mongodb.ts:66-90 | an execution starts at most one attempt more than it has failures |
| MongoDb.NoFailureSingleAttempt | lib/mongodb.ts:61-93 | without a failure, any interleaving of calls and successes from the empty cache starts at most one attempt |
| MongoDb.SharedOutcome | lib/mongodb.ts:55-94 | without a failure, every caller gets the promise of the first attempt, or the connection it produced, which is the one finally cached |
| MongoDb.RetryAfterFailure | lib/mongodb.ts:85-87 | after a failure the next call starts a fresh attempt instead of returning the failed promise |
| MongoDb.ConnectionCache.constructor | lib/mongodb.ts:20-23 | a new cache holds neither a connection nor a promise |
| MongoDb.ConnectionCache.Call | lib/mongodb.ts:55-94 | `connectDB` returns the cached connection unchanged if there is one, otherwise the pending promise unchanged, and otherwise starts exactly one new attempt, caches its promise and returns it; it keeps the cache invariant |
| MongoDb.ConnectionCache.Resolve | lib/mongodb.ts:79-84 | success caches the connection and keeps the promise |
| MongoDb.ConnectionCache.Reject | lib/mongodb.ts:85-90 | failure clears the promise and leaves no connection |
| MongoDb.Globals.InitCache | lib/mongodb.ts:19-24 | the cache is created empty when absent; an existing cache is left as it is |

## Left out

- Text.LowerChar: `toLowerCase` is modelled for the ASCII letters A-Z only. Other Unicode case mappings are not modelled. Most of them produce letters that `slugify` strips anyway. U+0130 and U+212A are exceptions: in JavaScript they lower-case to text containing `i` and `k`, so their slugs differ from this model's. The same gap reaches `BookingModel.NormalizeEmail`: a non-ASCII capital such as `É` is stored unchanged, where JavaScript stores its lower-case form. The email shape test is unaffected, because lower-casing never adds or removes whitespace, `@` or `.`.
- EventModel.Slugify: its contract states the character class of the result. How the stages compose is stated by the `Strip*`, `Dash*`, `RunBecomesOneHyphen` and `SlugifyIdempotent` lemmas.
- Date parsing (`new Date(...)`) and `toISOString` are parameters of the hook, not modelled. Parsing is a function that may fail; formatting is an arbitrary function.
- `this.isModified("title")` is a parameter. It is true for a new document.
- A missing field value is modelled as the empty string. Both fail the `!this[field]` test.
- Mongoose's own schema machinery is not modelled. This covers the `required` checks, type casting, the `trim` setters on event fields, timestamps, the unique index on `slug`, and the model registry (`mongoose.models.Event || ...`). Slug clashes are decided by the storage layer. In the program all nine required string fields of an Event have `trim: true` and `required: true`, so an all-whitespace value is stored as "" on assignment and rejected by the `required` check during validation, before the hook runs. The hook's "cannot be empty" error, `HookFailed(EmptyField(f))` in `EventSave.SaveEvent`, is therefore what a save reports only for values that did not go through the setter, such as a document loaded from storage or a save with validation turned off.
- The order in which a save runs the setters, the schema validators and the pre-save hook is Mongoose's, not this code's: setters on assignment, then validation, then the hook. `EventSave.SaveEvent` and `BookingModel.SaveBooking` both compose their checks in that order; the framework itself is not modelled.
- `Event.exists` is modelled as membership in the set of stored event ids. The database read and its asynchrony are not modelled.
- `ObjectId` is an unbounded natural number. Its 12-byte encoding is not modelled.
- For the connection, the network, the pool and timeout options, and the retry-writes flag are not modelled. The error value passed on to waiters, the logging, and the JavaScript event loop are not modelled either. A settlement is an event of an execution. An attempt's promise is identified by its attempt number.
- The cross-module-reload persistence of the global is not modelled beyond `Globals.InitCache` keeping an existing cache.
- `process.env` is a parameter of `EffectiveUri`.
- `lib/constants.ts` (sample data) and `components/EventCard.tsx` (presentation) are not part of this model.
