# CarBoN fleet tracking: trip life cycle, defect reports and mail settings

This project models the core of CarBoN's vehicle page in Dafny. CarBoN is a small web application that tracks an organisation's vehicles. On a vehicle's page, a user can report a defect, check the vehicle out for a trip with a starting mileage and time, and check it back in with an ending mileage and time. Closing a trip hands its ending mileage to the vehicle. The project also models how the outbound mail transport is configured from the settings store.

Modules, one per part of the program:

- `Models` (`models.dfy`) holds the records and their enumerations: vehicle type, fuel, vehicle status, defect status, the grouped defect-type choices, locations, vehicles, defects and trips. The stored codes of vehicle status, defect status and defect type are parsed back into their enumerations; vehicle type and fuel are enumerations only.
- `Forms` (`forms.dfy`) models the three forms. Each one cleans the POST data (a `map<string, string>`) into typed input, or into the set of field names in error.
- `Lifecycle` (`lifecycle.dfy`) gives the vehicle page's behaviour as pure functions from the vehicle's state (mileage, trips, defects) and a submission to an outcome and the next state. These cover:
  - the current-trip lookup;
  - the page context;
  - start, end and abort of a trip;
  - defect reports;
  - the POST dispatcher.

  Its lemmas state the properties: lookup outcomes, frame conditions, error cases, and the mileage hand-off. They also prove the invariant the operations keep: at most one unfinished trip, starting at or above the vehicle's mileage, and a mileage that never goes down.
- `Views` (`views.dfy`) models the vehicle object, a class whose `mileage`, `trips` and `defects` the page's POST handler updates in place. Each method is proved equal to its `Lifecycle` function and to preserve `Valid()`. The trip lookup is a loop over the trips.
- `Email` (`email.dfy`) models mail-transport resolution: a settings map is read with defaults into a transport configuration. `Numbers` (`numbers.dfy`) models the integer parsing that `int()` and the integer form fields do. `Text` (`text.dfy`) models whitespace stripping over a given set of whitespace characters. Django's text fields strip what `str.strip()` strips; `int()` skips a slightly smaller set, which excludes the information separators U+001C to U+001F.

Inputs that the program takes from its environment are parameters here:
- the date of a defect report (`today`);
- the POST data;
- the settings store;
- the interpretation of a stored boolean setting.

Times are integers.

Where the code differs from the intended design, the model follows the code, with one exception:
- A reported defect is stored with a blank status (`Defect.status == None`), not `OPEN`. `main/models.py:56` gives the status column no default, and `DefectForm` does not ask for one. Such a defect is therefore not counted as open.
- Submitted starting values on the end-trip form never reach the trip. The form's starting fields are disabled, and neither main/views.py nor main/forms.py reads an `update_initial` flag.
- The exception is starting a trip. As written (main/views.py:74-78), a start is saved even while another trip is unfinished; that behaviour is `Lifecycle.StartUnguarded`. The operations the rest of the model uses (`Lifecycle.Start`, `Lifecycle.Post`, `Views.Vehicle.StartTrip`, `Views.Vehicle.Post`) refuse a start while a trip is in progress, as the page's design intends. The "## Findings" section gives both halves.

The mileage and time rules and trip abortion are required only by `main/tests/test_trips.py`. The model states them as error outcomes of the operations.

## Model

| member | source | states |
|---|---|---|
| Numbers.ParseInt | main/utils.py:17 | `int()` accepts exactly an optional sign followed by one or more digits, once the whitespace it skips is removed from around them (the `str.isspace()` characters except U+001C to U+001F), otherwise it is an error; a `-` gives a value at most 0, no `-` a value at least 0. The value itself is pinned by the five lemmas below |
| Numbers.ParseIntIgnoresPadding | main/utils.py:17 | reading a text gives the same result as reading it without the whitespace `int()` skips around it |
| Numbers.SeparatorIsNotIntPadding | main/utils.py:17 | a number preceded by one of U+001C to U+001F is refused by `int()`, although `str.strip()` would remove that character and leave the number |
| Numbers.ParseIntOfDigits | main/utils.py:17 | a run of decimal digits reads as its decimal value, most significant digit first |
| Numbers.ParseIntPlus | main/utils.py:17 | a `+` before a run of digits changes nothing |
| Numbers.ParseIntMinus | main/utils.py:17 | a `-` before a run of digits negates its value |
| Numbers.ParseIntLeadingZero | main/utils.py:17 | a leading zero before a run of digits changes nothing |
| Text.Strip | main/forms.py:12-15 | the stripping Django's text fields apply, `str.strip()`: the result neither starts nor ends with a character `str.isspace()` holds for |
| Text.StripRemovesOnlySpaces | main/forms.py:12-15 | for any whitespace set, the text fields' or `int()`'s, stripping removes whitespace at the two ends and nothing else: the result is a contiguous slice of the input with only whitespace around it |
| Text.StripUnpadded | main/forms.py:12-15 | for any whitespace set, a text without whitespace at its ends is unchanged by stripping |
| Text.StripIdempotent | main/forms.py:12-15 | for any whitespace set, stripping twice is stripping once |
| Numbers.ParseShowInt | main/utils.py:17 | every integer written in decimal is read back as itself |
| Models.ParseVehicleStatus | main/models.py:12-15 | a stored vehicle status is one of `OPERATIONAL`, `IN_REPAIR`, `OUT_OF_ORDER`; a parsed code is that status's code, and a rejected code is no status's code |
| Models.ParseDefectStatus | main/models.py:49-52 | a stored defect status is one of `OPEN`, `SOLVED`, `CANCELLED`, in both directions as for vehicle status |
| Models.DefectTypeLeafKeys | main/models.py:40-47 | the leaf keys of the grouped defect-type choices are exactly `engine` and `bulb`; the group labels are not keys |
| Models.ParseDefectType | main/models.py:40-55 | a defect type is accepted exactly when it is a leaf key of the grouped choices, and the accepted type stores that key |
| Models.NewVehicleInfo | main/models.py:24-30 | a new vehicle's status is `OPERATIONAL` unless another is given; the other fields are as given |
| Forms.Field | main/forms.py:12-15 | a text field counts as submitted exactly when its key is present and something other than whitespace was posted; its value is what was posted, stripped, so it neither starts nor ends with whitespace (whether it holds a NUL character is checked by the forms below) |
| Forms.IntField | main/forms.py:20-24 | a number field has a value exactly when its key is present and the posted text, without the whitespace `int()` skips around it, is an integer literal; a number padded with U+001C to U+001F is refused |
| Forms.IntFieldOfShown | main/forms.py:20-24 | a number field posted as the decimal text of `n` reads back as `n` |
| Forms.CleanDefect | main/forms.py:6-9 | a defect report is valid exactly when `type` is a leaf key, as posted and unstripped, `comment` holds no NUL character once stripped, and `reporter_name` is non-blank, holds no NUL character and is at most 255 characters once stripped; `type` is in error exactly when it is missing or not a key, `comment` exactly when it holds a NUL, and `reporter_name` exactly when it fails its rule; errors name only the form's fields; a valid report carries the posted type, the stripped reporter and the stripped comment, and a missing comment is empty |
| Forms.CleanDefectReadsOnlyItsFields | main/forms.py:9 | two submissions that agree on `type`, `comment`, `reporter_name` clean the same; the vehicle and any other key are ignored |
| Forms.CleanStartTrip | main/forms.py:12-15 | a start is valid exactly when `starting_time` and `starting_mileage` are numbers and `driver_name` and `purpose` are non-blank and hold no NUL character; each field is in error exactly when it fails its own rule; a valid start carries the posted numbers and the stripped texts |
| Forms.CleanStartTripOfCanonical | main/forms.py:12-15 | a start posted with numbers in decimal and texts without surrounding whitespace or NUL characters is read back exactly |
| Forms.CleanStartTripReadsOnlyItsFields | main/forms.py:15 | the start form reads only its four fields; the vehicle comes from the caller |
| Forms.CleanEndTrip | main/forms.py:18-24 | an end is valid exactly when both `ending_time` and `ending_mileage` are numbers; each is in error exactly when it fails; a valid end carries the posted values |
| Forms.CleanEndTripOfCanonical | main/forms.py:23-24 | an end posted with its two numbers in decimal is read back exactly |
| Forms.CleanEndTripReadsOnlyItsFields | main/forms.py:19-22 | the disabled starting fields, and every other key, never change what the end form yields |
| Lifecycle.LookupTrip | main/views.py:34 | a found current trip exists and is unfinished |
| Lifecycle.LookupTripCharacterised | main/views.py:33-52 | lookup gives no trip exactly when every trip is finished; it gives the several-trips fault exactly when two distinct trips are unfinished; a found trip is the only unfinished one |
| Lifecycle.OpenDefects | main/views.py:25-27 | the open-defect list is no longer than the vehicle's defect list and holds only `OPEN` defects; `Lifecycle.OpenDefectsAre` shows it holds every one of them |
| Lifecycle.OpenDefectsAre | main/views.py:25-27 | the page's open defects are exactly the vehicle's defects whose status is `OPEN`, never more than all its defects |
| Lifecycle.OpenDefectsIgnoreOthers | main/admin.py:53-55 | adding a defect raises the open-defect list by one exactly when its status is `OPEN`; otherwise the list is unchanged |
| Lifecycle.DetailContextOf | main/views.py:22-56 | the page renders exactly when at most one trip is unfinished, and otherwise fails with the several-trips fault; `trip_started` is true exactly when some trip is unfinished, and then the end form is offered, otherwise the start form prefilled with the vehicle's mileage; `Lifecycle.ContextWithOneTrip` gives the end form's values |
| Lifecycle.ContextWithoutTrip | main/views.py:44-49 | with no unfinished trip the page offers a start form prefilled with the vehicle's mileage, and `trip_started` is false |
| Lifecycle.ContextWithOneTrip | main/views.py:34-42 | with one unfinished trip the page offers an end form prefilled with that trip's starting mileage, time, driver and purpose, and `trip_started` is true |
| Lifecycle.ContextWithSeveralTrips | main/views.py:51-52 | with two unfinished trips the page is a distinct fault, not "no trip" |
| Lifecycle.ContextListsOpenDefects | main/views.py:25-27 | the context's open defects are exactly the vehicle's defects whose status is `OPEN` |
| Lifecycle.StartUnguarded | main/views.py:74-81 | the start as written is accepted exactly when the form is valid and its starting mileage is at least the vehicle's, whatever trip is in progress; it then appends one unfinished trip and keeps the others; mileage and defects never change; a refusal changes nothing (see `Lifecycle.UnguardedStartAllowsTwoActiveTrips`) |
| Lifecycle.Start | main/views.py:74-81 | the guarded start is accepted only when the start as written would be and no trip is unfinished; it then appends one unfinished trip and keeps the others; mileage and defects never change; a refusal changes nothing. `Lifecycle.StartAcceptedExactlyWhenValid` gives the converse and `Lifecycle.StartAppendsOneOpenTrip` the new trip's fields |
| Lifecycle.StartAppendsOneOpenTrip | main/views.py:74-79 | an accepted start appends exactly one unfinished trip with the submitted starting fields and no ending fields; it is accepted only when no trip was unfinished and the starting mileage is at least the vehicle's; mileage and defects are unchanged |
| Lifecycle.StartAcceptedExactlyWhenValid | main/views.py:74-79 | a start is accepted exactly when the form is valid, its starting mileage is at least the vehicle's, and no trip is unfinished |
| Lifecycle.StartOnIdleVehicle | main/views.py:74-79 | with no trip unfinished, a valid start at or above the vehicle's mileage appends exactly the trip opened from the form and changes nothing else |
| Lifecycle.StartRejectsMileageBelowVehicle | main/tests/test_trips.py:51-71 | a starting mileage below the vehicle's is refused and creates no trip |
| Lifecycle.StartRefusedWhileTripInProgress | main/views.py:74-78 | while a trip is unfinished, a start is refused and nothing changes |
| Lifecycle.UnguardedStartAllowsTwoActiveTrips | main/views.py:74-78 | the view's start, on a vehicle with an unfinished trip and a valid form, is accepted and leaves two unfinished trips |
| Lifecycle.StartReadsOnlyItsFields | main/views.py:75-76 | a start's result depends on the submission only through the four start fields |
| Lifecycle.End | main/views.py:83-103 | an end never adds or removes trips or touches defects, and a refusal changes nothing; an accepted end needs the one unfinished trip and a valid form, finishes that trip with its starting fields intact, leaves every other trip as it was, and puts the vehicle at or above the trip's starting mileage. `Lifecycle.EndClosesTheActiveTrip` gives the written values |
| Lifecycle.EndClosesTheActiveTrip | main/views.py:91-99 | a valid end of the only unfinished trip marks it finished and writes the submitted ending mileage and time; its starting fields and every other trip are unchanged; the vehicle's mileage becomes exactly the ending mileage |
| Lifecycle.EndOfOnlyActiveTrip | main/views.py:89-99 | ending a vehicle's one unfinished trip with a valid form closes that trip with the submitted values and puts the vehicle at its ending mileage |
| Lifecycle.EndWithoutActiveTripFails | main/views.py:84-87 | ending with no unfinished trip is an error and changes nothing |
| Lifecycle.EndRejectsMileageBelowStart | main/tests/test_trips.py:190-217 | an ending mileage below the starting mileage is refused; the trip stays unfinished and the vehicle's mileage is unchanged |
| Lifecycle.EndRejectsTimeBeforeStart | main/tests/test_trips.py:161-188 | an ending time before the starting time is refused; the trip stays unfinished and the vehicle's mileage is unchanged |
| Lifecycle.EndRequiresBothEndingFields | main/forms.py:23-24 | an end missing either ending field, or with a non-numeric one, is refused and changes nothing |
| Lifecycle.EndKeepsStartingFields | main/tests/test_trips.py:102-129 | whatever is submitted, ending never rewrites any trip's starting fields and never adds or removes trips |
| Lifecycle.EndReadsOnlyEndingFields | main/forms.py:19-22 | an end's result depends on the submission only through the two ending fields |
| Lifecycle.Abort | main/tests/test_trips.py:219-239 | aborting is accepted exactly when there is one unfinished trip, and afterwards every trip is finished; mileage, defects and the trip count never change, and a refusal changes nothing. `Lifecycle.AbortLeavesEndingUnset` gives the aborted trip's fields |
| Lifecycle.AbortLeavesEndingUnset | main/tests/test_trips.py:219-239 | aborting the unfinished trip marks it finished, leaves both ending fields unset and the trip count unchanged, and touches no other trip, the mileage or the defects |
| Lifecycle.AbortWithoutActiveTripFails | main/tests/test_trips.py:219-239 | aborting with no unfinished trip is an error and changes nothing |
| Lifecycle.ReportDefect | main/views.py:61-70 | a report is accepted exactly when the defect form is valid; it then appends one defect dated today and keeps the earlier ones; trips and mileage never change, and a refusal changes nothing. `Lifecycle.ReportDefectAppendsOne` gives the new defect's fields |
| Lifecycle.ReportDefectAppendsOne | main/views.py:61-66 | a valid report appends exactly one defect to this vehicle; it has the submitted type, the stripped reporter and comment (empty when none was posted), a blank status, today's date and no solution date; trips and mileage are unchanged |
| Lifecycle.ReportDefectAcceptedExactlyWhenValid | main/views.py:61-68 | a report is accepted exactly when the defect form is valid |
| Lifecycle.ReportDefectWithoutTypeRejected | main/tests/test_defects.py:46-64 | a report without `type` is refused with `type` in error and creates no defect |
| Lifecycle.StartRejectedChangesNothing | main/views.py:74-81 | a refused start, guarded or as written, leaves the vehicle's mileage, trips and defects as they were |
| Lifecycle.EndRejectedChangesNothing | main/views.py:83-103 | a refused end leaves the vehicle's mileage, trips and defects as they were |
| Lifecycle.AbortRejectedChangesNothing | main/tests/test_trips.py:219-239 | a refused abort leaves the vehicle's mileage, trips and defects as they were |
| Lifecycle.ReportDefectRejectedChangesNothing | main/views.py:61-70 | a refused report leaves the vehicle's mileage, trips and defects as they were |
| Lifecycle.Post | main/views.py:58-105 | the defect button runs the defect report and nothing else; otherwise the start button runs the start and, when the end button is also present, an end on the state the start left; the end button alone runs the end; a POST with the defect button never touches trips or mileage, one without it never touches defects; one with no known button is refused with nothing changed; a refusal without the end button changes nothing. `Lifecycle.PostKeepsConsistency` gives the invariant it keeps |
| Lifecycle.StartKeepsConsistency | main/views.py:74-78 | the guarded start keeps the vehicle consistent and its mileage unchanged; the start as written, `Lifecycle.StartUnguarded`, does not (see "## Findings") |
| Lifecycle.OpeningOnIdleVehicleKeepsConsistency | main/views.py:74-78 | opening one trip at or above the mileage of a consistent vehicle with no trip in progress keeps it consistent |
| Lifecycle.EndKeepsConsistency | main/views.py:91-99 | ending keeps the vehicle consistent and never lowers its mileage |
| Lifecycle.AbortKeepsConsistency | main/tests/test_trips.py:219-239 | aborting keeps the vehicle consistent and its mileage unchanged |
| Lifecycle.PostKeepsConsistency | main/views.py:58-105 | every POST, dispatched to the guarded start, keeps the vehicle consistent and never lowers its mileage (with the start as written, `Lifecycle.StartUnguarded`, it would not). Consistent means at most one unfinished trip, starting at or above the vehicle's mileage, and ending fields written together on finished trips only, never below the starting ones |
| Lifecycle.ConsistentHasNoCorruption | main/views.py:51-52 | a consistent vehicle never reaches the several-trips fault, and its page always renders |
| Lifecycle.TestStartIsValid | main/tests/test_trips.py:31-39 | the tests' start submission is a valid start at mileage 15 |
| Lifecycle.TestEndIsValid | main/tests/test_trips.py:110-121 | the tests' end submission is a valid end at mileage 20, one hour later |
| Lifecycle.TestStartRun | main/tests/test_trips.py:24-49 | the start operation, given that submission on a vehicle at 10, leaves one unfinished trip with the submitted fields |
| Lifecycle.TestEndRun | main/tests/test_trips.py:102-129 | the end operation, given that trip and a submission with a starting mileage of 16, keeps 15, finishes the trip one hour later and puts the vehicle at 20 |
| Lifecycle.TestLowStartIsValid | main/tests/test_trips.py:51-71 | the tests' low start is a valid start form at mileage 0 |
| Lifecycle.TestLowStartRun | main/tests/test_trips.py:51-71 | the start operation, given that submission on a vehicle at 10, refuses it and creates no trip |
| Views.Vehicle.constructor | main/tests/test_trips.py:10-18 | a new vehicle has the given mileage, no trips and no defects, and is consistent |
| Views.Vehicle.LookupCurrentTrip | main/views.py:34 | the scan over the trips returns the lookup outcome: no trip, the one unfinished trip, or the several-trips fault |
| Views.Vehicle.GetContextData | main/views.py:22-56 | the page context is the open defects with the start or end form for the current trip, or the several-trips fault |
| Views.Vehicle.ReportDefect | main/views.py:61-70 | the defects become the report's next state; trips, mileage and descriptive fields are unchanged; consistency is kept |
| Views.Vehicle.StartTrip | main/views.py:74-81 | trips become the next state of the guarded start (the start as written is `Lifecycle.StartUnguarded`, see "## Findings"); mileage, defects and descriptive fields are unchanged; consistency is kept |
| Views.Vehicle.EndTrip | main/views.py:83-103 | the trip's ending fields and `finished` are written, then the vehicle's mileage; the new state is the end's next state; consistency is kept and mileage never goes down |
| Views.Vehicle.AbortTrip | main/tests/test_trips.py:219-239 | the current trip is marked finished and nothing else changes; consistency is kept |
| Views.Vehicle.Post | main/views.py:58-105 | a defect report alone, else a start (the guarded one; the start as written is `Lifecycle.StartUnguarded`) and then an end for each submit button present, else an error; consistency is kept and mileage never goes down |
| Email.Read | main/utils.py:16-19 | a stored value is returned as stored; a missing key gives the default |
| Email.ReadBoolean | main/utils.py:20-21 | a stored boolean setting is the stored string as `asBoolean` reads it; a missing one gives its default |
| Email.DefaultPortIsAnInteger | main/utils.py:17 | the default port text `25` reads as 25 |
| Email.GetEmailBackend | main/utils.py:5-23 | resolution fails exactly when a stored port is not an integer, once the whitespace `int()` skips is removed. The backend is SMTP exactly when `email_backend` is stored as `smtp`; otherwise, including when it is missing, it is the local in-memory backend. A stored port is used as its parsed value, the host is the stored one or `localhost`, TLS and SSL are the stored booleans or false, and `fail_silently` is always false |
| Email.UnsetOptionsTakeDefaults | main/utils.py:9-21 | each missing option takes its default: local backend, host `localhost`, port 25, empty username and password, no TLS, no SSL |
| Email.EmptySettingsGiveDefaults | main/utils.py:9-22 | with nothing stored, the configuration is exactly the defaults |
| Email.StoredPortIsUsed | main/utils.py:17 | a port stored as the decimal text of `n` gives port `n` |
| Email.StoredStringsAreUsed | main/utils.py:16-19 | a stored host, username or password is used unchanged |

## Findings

| source | as written | input that shows it | evidently intended | confidence | as-written member | corrected member |
|---|---|---|---|---|---|---|
| main/views.py:74-78 | A start-trip POST is validated and saved without checking whether the vehicle already has an unfinished trip. | A vehicle with an unfinished trip, and a POST with `start-trip-form` and valid starting fields at or above its mileage. The result is two unfinished trips, after which the vehicle page fails with the several-trips error (main/views.py:51-52). | A start is refused while a trip is in progress. The page only offers a start form when no trip is unfinished (main/views.py:44-49). | low: not executed; the `Trip` model, which could hold such a check, is not part of this model | Lifecycle.StartUnguarded, shown by Lifecycle.UnguardedStartAllowsTwoActiveTrips | Lifecycle.Start, with Lifecycle.StartRefusedWhileTripInProgress and Lifecycle.StartKeepsConsistency |

## Left out

- Numbers.ParseInt: accepts only an optional sign and ASCII digits, with surrounding whitespace. Python's `int()` also accepts underscores between digits and non-ASCII digits, and Django's integer field also accepts a trailing `.0`. The model refuses all of these.
- Numbers.ParseInt: does not model Python's limit on the length of a decimal literal (4300 digits by default, set by `sys.set_int_max_str_digits`), because that limit is an interpreter setting outside main/utils.py. The model reads literals of any length, where `int()` raises `ValueError` beyond the limit.
- Forms.CleanStartTrip: times are decimal integers here, not ISO date-times, and there is no time-zone conversion. Like Django's text fields, `driver_name` and `purpose` are stripped of surrounding whitespace, a blank value counts as missing, and the stripped text is stored. Each field is required, because the `Trip` model that decides this is not part of this model. A NUL character in either text, once stripped, is an error, as in every Django text field. Length limits of the trip's text fields are not modelled for the same reason.
- Forms.CleanDefect: `reporter_name` and `comment` are stripped as Django's text fields strip them, before the required and length checks, and the stripped text is stored. `type` is a choice field, which Django does not strip, so it must be posted exactly as a leaf key. A NUL character in either text, once stripped, is an error, as in every Django text field; a blank comment holds none. Django's own limit on the comment's length, if any, is not modelled.
- Text.IsSpace: whitespace is a fixed list of the characters Python's `str.isspace()` holds for; the model does not consult a Unicode database.
- The trip tests post to `/vehicles/<id>/trip-start`, `/vehicles/<id>/trip-end` and `/vehicles/<id>/trip-abortion` (main/tests/test_trips.py:32, 83, 229). The defect tests post to `/vehicles/<id>/defect` (main/tests/test_defects.py:28). None of these is the vehicle page. main/urls.py routes `defect`, `trip/start`, `trip/end` and `trip/abort` to views imported at main/urls.py:3-11, which are not in main/views.py and are not part of this model. The lemmas built on those tests give the tests' submissions, unchanged and without a submit button, to `Lifecycle.Start`, `Lifecycle.End`, `Lifecycle.Abort` and `Lifecycle.ReportDefect`: the operations the vehicle page performs for the same form.
- Rendering, redirects, URL routing and request parsing are framework plumbing. A refused form is a `Rejected` outcome carrying the fields in error, not a re-rendered page.
- The source's faults are explicit errors in the model:
  - ending with no unfinished trip (an unbound variable at main/views.py:86-87) is `NoActiveTrip`;
  - a POST with no known submit button (an unbound `context_data`) is `NoFormSubmitted`;
  - several unfinished trips (an HTTP 500 response returned from `get_context_data` at main/views.py:51-52, and an uncaught exception in the end path) is `CorruptedTrips`.
- The invalid end form re-renders with `trip_form = None` (main/views.py:103). The model does not show the form; it reports the fields in error.
- The `update_initial` flag of main/tests/test_trips.py:131-159 is not modelled. Neither main/views.py nor main/forms.py reads it, and the end form's starting fields are disabled, so submitted starting values are always discarded.
- The `get_context_data` keyword arguments that carry a re-displayed form or a success flag only affect rendering.
- The two saves of an end (trip, then vehicle) are one atomic step. Concurrency, such as two simultaneous starts, is outside a sequential model.
- Notifications are not modelled: defect reported, missing-trip mileage gap and trip aborted. The code that sends them is not part of this model.
- Defect status transitions and solution dates are not modelled: neither main/views.py nor main/forms.py changes them. Fuel expenses are not modelled either: the `FuelExpense` model is not part of this model, and its amounts are decimals.
- The administrative back-office is not modelled: list displays, the QR-code action and the trip-edit path that bypasses validation.
- Sending mail through `get_connection` is a foreign library call. `read_boolean` is defined outside main/utils.py and is not part of this model, so how it interprets a stored string is the parameter `asBoolean`.
- The display text of a vehicle and of a location is its name (main/models.py:32-33, 72-73). It is not modelled.
- Vehicle types follow main/migrations/0003_alter_defect_reporter_name_alter_vehicle_type.py:21-36, which the tests use. `main/models.py:9-10` at this revision lists only `VTP`.
