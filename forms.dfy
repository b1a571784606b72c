/**
 * The three forms of the vehicle page as cleaning functions from the submitted
 * POST data (a key/value map) to typed input or to the set of fields in error.
 * Text fields are read stripped of surrounding whitespace, and such a field is
 * missing when its key is absent or nothing is left after stripping; a text
 * field's stripped value must not hold a NUL character. Number fields are read
 * by `int()`, which skips its own, slightly smaller, set of whitespace. A
 * choice field is read as submitted. Times are integers written in decimal,
 * like mileages.
 */
module Forms {
  import opened Wrappers
  import opened Text
  import opened Numbers
  import opened Models

  type PostData = map<string, string>

  /** Names of the fields that failed validation. */
  type FieldErrors = set<string>

  /**
   * A text field's cleaned value: what was submitted, stripped of surrounding
   * whitespace, or `None` when that leaves nothing.
   */
  function Field(post: PostData, name: string): (v: Option<string>)
    ensures v.Some? <==> name in post && Strip(post[name]) != ""
    ensures v.Some? ==> v.value == Strip(post[name]) && v.value != ""
    ensures v.Some? ==> !IsSpace(v.value[0]) && !IsSpace(v.value[|v.value| - 1])
  {
    if name in post && Strip(post[name]) != "" then Some(Strip(post[name])) else None
  }

  /** The field was submitted with something other than whitespace. */
  predicate Filled(post: PostData, name: string) {
    name in post && Strip(post[name]) != ""
  }

  /**
   * The text field's cleaned value holds no NUL character: every text field
   * refuses one, whether or not it is required. A blank value holds none.
   */
  predicate NulFree(post: PostData, name: string) {
    name in post ==> '\0' !in Strip(post[name])
  }

  /** A required text field: submitted with something other than whitespace, and with no NUL character. */
  predicate TextValid(post: PostData, name: string) {
    Filled(post, name) && NulFree(post, name)
  }

  /** The field was submitted with an integer literal, possibly padded with whitespace `int()` skips. */
  predicate Numeric(post: PostData, name: string) {
    name in post && IsIntLiteral(IntStrip(post[name]))
  }

  /** The two submissions carry the same values for every field in `names`. */
  predicate AgreeOn(p: PostData, q: PostData, names: set<string>) {
    forall name :: name in names ==> (name in p <==> name in q) && (name in p ==> p[name] == q[name])
  }

  /** An integer field that is required: missing or not a number is an error. */
  function IntField(post: PostData, name: string): (v: Option<int>)
    ensures v.Some? <==> Numeric(post, name)
  {
    if name in post then ParseInt(post[name]) else None
  }

  /** A number field holding what `str(n)` writes reads back as `n`. */
  lemma IntFieldOfShown(post: PostData, name: string, n: int)
    requires name in post && post[name] == ShowInt(n)
    ensures IntField(post, name) == Some(n)
  {
    ParseShowInt(n);
  }

  /** Maximum length of the reporter's name column. */
  const ReporterNameMaxLength := 255

  // ---------------------------------------------------------------- DefectForm

  /** The fields the defect form reads; the vehicle is set by the caller. */
  const DefectFields: set<string> := {"type", "comment", "reporter_name"}

  datatype DefectData = DefectData(defectType: DefectType, comment: string, reporterName: string)

  /** The reporter's name is given, free of NUL characters, and fits its column once stripped. */
  predicate ReporterValid(post: PostData) {
    TextValid(post, "reporter_name") && |Strip(post["reporter_name"])| <= ReporterNameMaxLength
  }

  function DefectErrors(post: PostData): FieldErrors {
    (if "type" in post && ParseDefectType(post["type"]).Some? then {} else {"type"})
    + (if NulFree(post, "comment") then {} else {"comment"})
    + (if ReporterValid(post) then {} else {"reporter_name"})
  }

  /**
   * `DefectForm`: `type` is required and must be a leaf key of the defect type
   * choices, `reporter_name` is required and at most 255 characters long once
   * stripped, `comment` may be left blank; neither text may hold a NUL
   * character.
   */
  function CleanDefect(post: PostData): (r: Result<DefectData, FieldErrors>)
    ensures r.Failure? ==> r.error != {} && r.error <= DefectFields
    ensures r.Success? <==>
      && "type" in post && post["type"] in LeafKeys(DefectTypeChoices)
      && NulFree(post, "comment")
      && Filled(post, "reporter_name") && NulFree(post, "reporter_name")
      && |Strip(post["reporter_name"])| <= ReporterNameMaxLength
    ensures r.Failure? ==> ("type" in r.error <==> !("type" in post && post["type"] in LeafKeys(DefectTypeChoices)))
    ensures r.Failure? ==> ("comment" in r.error <==> !NulFree(post, "comment"))
    ensures r.Failure? ==>
      ("reporter_name" in r.error <==>
        !(Filled(post, "reporter_name") && NulFree(post, "reporter_name")
          && |Strip(post["reporter_name"])| <= ReporterNameMaxLength))
    ensures r.Success? ==> r.value.defectType.Key() == post["type"]
    ensures r.Success? ==> r.value.reporterName == Strip(post["reporter_name"])
    ensures r.Success? ==> r.value.comment == if "comment" in post then Strip(post["comment"]) else ""
  {
    var errors := DefectErrors(post);
    if errors != {} then
      Failure(errors)
    else
      var comment := match Field(post, "comment") case Some(text) => text case None => "";
      Success(DefectData(ParseDefectType(post["type"]).value, comment, Field(post, "reporter_name").value))
  }

  /** Only the three declared fields are read: anything else submitted, a vehicle included, is ignored. */
  lemma CleanDefectReadsOnlyItsFields(p: PostData, q: PostData)
    requires AgreeOn(p, q, DefectFields)
    ensures CleanDefect(p) == CleanDefect(q)
  {
    assert ("type" in p <==> "type" in q) && ("type" in p ==> p["type"] == q["type"]);
    assert Field(p, "comment") == Field(q, "comment");
    assert Field(p, "reporter_name") == Field(q, "reporter_name");
  }

  // ------------------------------------------------------------- StartTripForm

  /** The fields the start-trip form reads; the vehicle is set by the caller. */
  const StartTripFields: set<string> := {"starting_time", "starting_mileage", "driver_name", "purpose"}

  datatype StartTripData = StartTripData(startingTime: int, startingMileage: int, driverName: string, purpose: string)

  /** A start-trip field holds what the form requires of it. */
  predicate StartFieldValid(post: PostData, name: string) {
    if name == "starting_time" || name == "starting_mileage" then Numeric(post, name) else TextValid(post, name)
  }

  function StartTripErrors(post: PostData): (e: FieldErrors)
    ensures forall name :: name in e <==> name in StartTripFields && !StartFieldValid(post, name)
  {
    set name | name in StartTripFields && !StartFieldValid(post, name)
  }

  /**
   * `StartTripForm`: the four starting fields, each required, the two numbers
   * well formed, the two texts free of NUL characters and kept stripped.
   */
  function CleanStartTrip(post: PostData): (r: Result<StartTripData, FieldErrors>)
    ensures r.Failure? ==> r.error != {} && r.error <= StartTripFields
    ensures r.Success? <==>
      Numeric(post, "starting_time") && Numeric(post, "starting_mileage")
      && Filled(post, "driver_name") && NulFree(post, "driver_name")
      && Filled(post, "purpose") && NulFree(post, "purpose")
    ensures r.Failure? ==>
      && ("starting_time" in r.error <==> !Numeric(post, "starting_time"))
      && ("starting_mileage" in r.error <==> !Numeric(post, "starting_mileage"))
      && ("driver_name" in r.error <==> !(Filled(post, "driver_name") && NulFree(post, "driver_name")))
      && ("purpose" in r.error <==> !(Filled(post, "purpose") && NulFree(post, "purpose")))
    ensures r.Success? ==> ParseInt(post["starting_time"]) == Some(r.value.startingTime)
    ensures r.Success? ==> ParseInt(post["starting_mileage"]) == Some(r.value.startingMileage)
    ensures r.Success? ==> r.value.driverName == Strip(post["driver_name"]) && r.value.purpose == Strip(post["purpose"])
  {
    if !StartFieldValid(post, "starting_time") || !StartFieldValid(post, "starting_mileage")
       || !StartFieldValid(post, "driver_name") || !StartFieldValid(post, "purpose") then
      Failure(StartTripErrors(post))
    else
      Success(StartTripData(IntField(post, "starting_time").value, IntField(post, "starting_mileage").value,
                            Field(post, "driver_name").value, Field(post, "purpose").value))
  }

  /** A text a required text field keeps as submitted: no whitespace at either end, no NUL character. */
  predicate CleanText(text: string) {
    text != "" && !IsSpace(text[0]) && !IsSpace(text[|text| - 1]) && '\0' !in text
  }

  /** A submission written as `str` writes numbers, with unpadded NUL-free texts, is read back exactly. */
  lemma CleanStartTripOfCanonical(post: PostData, time: int, mileage: int, driver: string, purpose: string)
    requires "starting_time" in post && post["starting_time"] == ShowInt(time)
    requires "starting_mileage" in post && post["starting_mileage"] == ShowInt(mileage)
    requires "driver_name" in post && post["driver_name"] == driver && CleanText(driver)
    requires "purpose" in post && post["purpose"] == purpose && CleanText(purpose)
    ensures CleanStartTrip(post) == Success(StartTripData(time, mileage, driver, purpose))
  {
    IntFieldOfShown(post, "starting_time", time);
    IntFieldOfShown(post, "starting_mileage", mileage);
    StripUnpadded(driver, IsSpace);
    StripUnpadded(purpose, IsSpace);
  }

  lemma CleanStartTripReadsOnlyItsFields(p: PostData, q: PostData)
    requires AgreeOn(p, q, StartTripFields)
    ensures CleanStartTrip(p) == CleanStartTrip(q)
  {
    assert forall name :: name in StartTripFields ==> StartFieldValid(p, name) == StartFieldValid(q, name);
    assert StartTripErrors(p) == StartTripErrors(q);
    assert IntField(p, "starting_time") == IntField(q, "starting_time");
    assert IntField(p, "starting_mileage") == IntField(q, "starting_mileage");
    assert Field(p, "driver_name") == Field(q, "driver_name");
    assert Field(p, "purpose") == Field(q, "purpose");
  }

  // --------------------------------------------------------------- EndTripForm

  /**
   * The fields the end-trip form takes from the submission. Its starting
   * fields are disabled: they show the trip's values and never read the
   * submitted ones.
   */
  const EndTripFields: set<string> := {"ending_time", "ending_mileage"}

  datatype EndTripData = EndTripData(endingTime: int, endingMileage: int)

  function EndTripErrors(post: PostData): FieldErrors {
    (if IntField(post, "ending_time").Some? then {} else {"ending_time"})
    + (if IntField(post, "ending_mileage").Some? then {} else {"ending_mileage"})
  }

  /** `EndTripForm`: both ending fields are required and must be numbers. */
  function CleanEndTrip(post: PostData): (r: Result<EndTripData, FieldErrors>)
    ensures r.Failure? ==> r.error != {} && r.error <= EndTripFields
    ensures r.Success? <==> Numeric(post, "ending_time") && Numeric(post, "ending_mileage")
    ensures r.Failure? ==>
      && ("ending_time" in r.error <==> !Numeric(post, "ending_time"))
      && ("ending_mileage" in r.error <==> !Numeric(post, "ending_mileage"))
    ensures r.Success? ==> ParseInt(post["ending_time"]) == Some(r.value.endingTime)
    ensures r.Success? ==> ParseInt(post["ending_mileage"]) == Some(r.value.endingMileage)
  {
    var errors := EndTripErrors(post);
    if errors != {} then
      Failure(errors)
    else
      Success(EndTripData(IntField(post, "ending_time").value, IntField(post, "ending_mileage").value))
  }

  /** Ending values written as `str` writes numbers are read back exactly. */
  lemma CleanEndTripOfCanonical(post: PostData, time: int, mileage: int)
    requires "ending_time" in post && post["ending_time"] == ShowInt(time)
    requires "ending_mileage" in post && post["ending_mileage"] == ShowInt(mileage)
    ensures CleanEndTrip(post) == Success(EndTripData(time, mileage))
  {
    IntFieldOfShown(post, "ending_time", time);
    IntFieldOfShown(post, "ending_mileage", mileage);
  }

  /** Submitted starting values, or anything else outside the two ending fields, change nothing. */
  lemma CleanEndTripReadsOnlyItsFields(p: PostData, q: PostData)
    requires AgreeOn(p, q, EndTripFields)
    ensures CleanEndTrip(p) == CleanEndTrip(q)
  {
    assert IntField(p, "ending_time") == IntField(q, "ending_time");
    assert IntField(p, "ending_mileage") == IntField(q, "ending_mileage");
  }
}
