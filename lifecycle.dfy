/**
 * The trip life cycle and defect reporting of one vehicle, as functions from
 * the vehicle's state and a submission to an outcome and the next state.
 * The imperative vehicle object (module Views) is proved against these.
 *
 * The mileage and time rules below (a trip may not start below the vehicle's
 * mileage; it may not end below its starting mileage or before its starting
 * time) and trip abortion are required by the trip tests, not by the view's
 * code; they are modelled as error outcomes of the operations.
 */
module Lifecycle {
  import opened Wrappers
  import opened Models
  import opened Forms
  import opened Numbers
  import opened Text

  /** What the operations read and write: the vehicle's mileage, its trips and its defects. */
  datatype VehicleState = VehicleState(mileage: nat, trips: seq<Trip>, defects: seq<Defect>)

  // ------------------------------------------------------------ current trip

  /** Positions of the unfinished trips, in increasing order. */
  function ActiveIndices(trips: seq<Trip>): seq<nat> {
    if trips == [] then []
    else
      var last := |trips| - 1;
      ActiveIndices(trips[..last]) + (if trips[last].finished then [] else [last])
  }

  lemma {:induction false} ActiveIndicesAre(trips: seq<Trip>)
    ensures forall k :: k in ActiveIndices(trips) <==> 0 <= k < |trips| && !trips[k].finished
    ensures forall a, b :: 0 <= a < b < |ActiveIndices(trips)| ==> ActiveIndices(trips)[a] < ActiveIndices(trips)[b]
  {
    if trips != [] {
      var last := |trips| - 1;
      var init := trips[..last];
      ActiveIndicesAre(init);
      assert forall k :: 0 <= k < last ==> init[k] == trips[k];
      var before := ActiveIndices(init);
      forall a | 0 <= a < |before|
        ensures before[a] < last
      {
        assert before[a] in before;
      }
    }
  }

  /** Result of `trip_set.get(finished=False)`: none, the one, or more than one. */
  datatype CurrentTrip = NoTrip | Current(index: nat) | MultipleActive

  function LookupTrip(trips: seq<Trip>): (r: CurrentTrip)
    ensures r.Current? ==> r.index < |trips| && !trips[r.index].finished
  {
    ActiveIndicesAre(trips);
    var active := ActiveIndices(trips);
    if |active| == 0 then NoTrip
    else if |active| == 1 then (assert active[0] in active; Current(active[0]))
    else MultipleActive
  }

  /** At most one trip of the vehicle is unfinished. */
  ghost predicate AtMostOneActive(trips: seq<Trip>) {
    forall i, j :: 0 <= i < |trips| && 0 <= j < |trips| && !trips[i].finished && !trips[j].finished ==> i == j
  }

  /** The lookup gives no trip exactly when all are finished, the trip when it is the only unfinished one, and a fault otherwise. */
  lemma LookupTripCharacterised(trips: seq<Trip>)
    ensures LookupTrip(trips).NoTrip? <==> forall i :: 0 <= i < |trips| ==> trips[i].finished
    ensures LookupTrip(trips).MultipleActive? <==> !AtMostOneActive(trips)
    ensures LookupTrip(trips).Current? ==>
      forall j :: 0 <= j < |trips| && j != LookupTrip(trips).index ==> trips[j].finished
  {
    ActiveIndicesAre(trips);
    var active := ActiveIndices(trips);
    if |active| >= 2 {
      assert active[0] < active[1] && active[0] in active && active[1] in active;
    } else {
      forall i, j | 0 <= i < |trips| && 0 <= j < |trips| && !trips[i].finished && !trips[j].finished
        ensures i == j
      {
        assert i in active && j in active;
      }
      forall i | 0 <= i < |trips| && !trips[i].finished && |active| == 1
        ensures i == active[0]
      {
        assert i in active;
      }
    }
  }

  // ------------------------------------------------------------ detail page

  /** The starting fields of a trip, shown read-only on the end-trip form. */
  datatype StartingFields = StartingFields(startingMileage: nat, startingTime: int, driverName: string, purpose: string)

  function StartingOf(t: Trip): StartingFields {
    StartingFields(t.startingMileage, t.startingTime, t.driverName, t.purpose)
  }

  /** The trip form the detail page offers, with its prefilled values. */
  datatype TripForm = StartTripForm(initialStartingMileage: nat) | EndTripForm(initial: StartingFields)

  datatype DetailContext = DetailContext(openDefects: seq<Defect>, tripForm: TripForm, tripStarted: bool)

  /** The defects whose status is `OPEN`, in their order. */
  function OpenDefects(defects: seq<Defect>): (r: seq<Defect>)
    ensures |r| <= |defects|
    ensures forall i :: 0 <= i < |r| ==> IsOpen(r[i])
  {
    if defects == [] then []
    else OpenDefects(defects[..|defects| - 1]) + (if IsOpen(defects[|defects| - 1]) then [defects[|defects| - 1]] else [])
  }

  lemma {:induction false} OpenDefectsAre(defects: seq<Defect>)
    ensures forall d :: d in OpenDefects(defects) <==> d in defects && IsOpen(d)
    ensures |OpenDefects(defects)| <= |defects|
  {
    if defects != [] {
      var init := defects[..|defects| - 1];
      OpenDefectsAre(init);
      assert defects == init + [defects[|defects| - 1]];
    }
  }

  /** A defect that is not open leaves the open-defect count as it was. */
  lemma OpenDefectsIgnoreOthers(defects: seq<Defect>, d: Defect)
    ensures OpenDefects(defects + [d]) == if IsOpen(d) then OpenDefects(defects) + [d] else OpenDefects(defects)
  {
    assert (defects + [d])[..|defects|] == defects;
  }

  /** What the vehicle page shows: open defects, and a start or end form depending on the current trip. */
  function DetailContextOf(s: VehicleState): (r: Result<DetailContext, Error>)
    ensures r.Success? <==> AtMostOneActive(s.trips)
    ensures r.Failure? ==> r.error == CorruptedTrips
    ensures r.Success? ==> (r.value.tripStarted <==> exists i :: 0 <= i < |s.trips| && !s.trips[i].finished)
    ensures r.Success? ==> (r.value.tripForm.StartTripForm? <==> !r.value.tripStarted)
    ensures r.Success? && r.value.tripForm.StartTripForm? ==> r.value.tripForm.initialStartingMileage == s.mileage
  {
    LookupTripCharacterised(s.trips);
    match LookupTrip(s.trips)
    case NoTrip => Success(DetailContext(OpenDefects(s.defects), StartTripForm(s.mileage), false))
    case Current(i) => Success(DetailContext(OpenDefects(s.defects), EndTripForm(StartingOf(s.trips[i])), true))
    case MultipleActive => Failure(CorruptedTrips)
  }

  lemma ContextWithoutTrip(s: VehicleState)
    requires forall i :: 0 <= i < |s.trips| ==> s.trips[i].finished
    ensures DetailContextOf(s).Success?
    ensures DetailContextOf(s).value.tripForm == StartTripForm(s.mileage)
    ensures !DetailContextOf(s).value.tripStarted
  {
    LookupTripCharacterised(s.trips);
  }

  lemma ContextWithOneTrip(s: VehicleState, k: nat)
    requires k < |s.trips| && !s.trips[k].finished
    requires forall j :: 0 <= j < |s.trips| && j != k ==> s.trips[j].finished
    ensures DetailContextOf(s).Success?
    ensures DetailContextOf(s).value.tripForm == EndTripForm(StartingOf(s.trips[k]))
    ensures DetailContextOf(s).value.tripStarted
  {
    LookupTripCharacterised(s.trips);
  }

  lemma ContextWithSeveralTrips(s: VehicleState, i: nat, j: nat)
    requires i < |s.trips| && j < |s.trips| && i != j
    requires !s.trips[i].finished && !s.trips[j].finished
    ensures DetailContextOf(s) == Failure(CorruptedTrips)
  {
    LookupTripCharacterised(s.trips);
  }

  lemma ContextListsOpenDefects(s: VehicleState)
    requires DetailContextOf(s).Success?
    ensures forall d :: d in DetailContextOf(s).value.openDefects <==> d in s.defects && IsOpen(d)
  {
    OpenDefectsAre(s.defects);
  }

  // ------------------------------------------------------------ operations

  datatype Error =
    | InvalidForm(fields: FieldErrors)
    | MileageBelowVehicle
    | EndingMileageBelowStart
    | EndingTimeBeforeStart
    | NoActiveTrip
    | TripInProgress
    | CorruptedTrips
    | NoFormSubmitted

  datatype Outcome = Accepted | Rejected(error: Error)

  datatype Step = Step(outcome: Outcome, state: VehicleState)

  function OpenedTrip(d: StartTripData): Trip
    requires d.startingMileage >= 0
  {
    Trip(d.startingMileage, d.startingTime, d.driverName, d.purpose, None, None, false)
  }

  /** Starting a trip as the view does it: validate, then save, whatever trip is in progress. */
  function StartUnguarded(s: VehicleState, post: PostData): (r: Step)
    ensures r.state.mileage == s.mileage && r.state.defects == s.defects
    ensures r.outcome.Rejected? ==> r.state == s
    ensures r.outcome.Accepted? <==> CleanStartTrip(post).Success? && CleanStartTrip(post).value.startingMileage >= s.mileage
    ensures r.outcome.Accepted? ==>
      |r.state.trips| == |s.trips| + 1 && r.state.trips[..|s.trips|] == s.trips && !r.state.trips[|s.trips|].finished
  {
    match CleanStartTrip(post)
    case Failure(errors) => Step(Rejected(InvalidForm(errors)), s)
    case Success(d) =>
      if d.startingMileage < s.mileage then Step(Rejected(MileageBelowVehicle), s)
      else Step(Accepted, s.(trips := s.trips + [OpenedTrip(d)]))
  }

  /** Starting a trip, refused while another trip of the vehicle is unfinished. */
  function Start(s: VehicleState, post: PostData): (r: Step)
    ensures r.state.mileage == s.mileage && r.state.defects == s.defects
    ensures r.outcome.Rejected? ==> r.state == s
    ensures r.outcome.Accepted? ==> StartUnguarded(s, post).outcome.Accepted? && LookupTrip(s.trips).NoTrip?
    ensures r.outcome.Accepted? ==>
      |r.state.trips| == |s.trips| + 1 && r.state.trips[..|s.trips|] == s.trips && !r.state.trips[|s.trips|].finished
  {
    var step := StartUnguarded(s, post);
    if step.outcome.Accepted? && !LookupTrip(s.trips).NoTrip? then Step(Rejected(TripInProgress), s)
    else step
  }

  function ClosedTrip(t: Trip, d: EndTripData): Trip
    requires d.endingMileage >= 0
  {
    t.(endingMileage := Some(d.endingMileage), endingTime := Some(d.endingTime), finished := true)
  }

  /** Ending the current trip: its ending fields are written and the vehicle takes its ending mileage. */
  function End(s: VehicleState, post: PostData): (r: Step)
    ensures r.state.defects == s.defects && |r.state.trips| == |s.trips|
    ensures r.outcome.Rejected? ==> r.state == s
    ensures r.outcome.Accepted? ==> LookupTrip(s.trips).Current? && CleanEndTrip(post).Success?
    ensures r.outcome.Accepted? ==>
      var i := LookupTrip(s.trips).index;
      && r.state.trips[i].finished
      && StartingOf(r.state.trips[i]) == StartingOf(s.trips[i])
      && r.state.mileage >= s.trips[i].startingMileage
      && (forall j :: 0 <= j < |s.trips| && j != i ==> r.state.trips[j] == s.trips[j])
  {
    match LookupTrip(s.trips)
    case NoTrip => Step(Rejected(NoActiveTrip), s)
    case MultipleActive => Step(Rejected(CorruptedTrips), s)
    case Current(i) =>
      match CleanEndTrip(post)
      case Failure(errors) => Step(Rejected(InvalidForm(errors)), s)
      case Success(d) =>
        var t := s.trips[i];
        if d.endingMileage < t.startingMileage then Step(Rejected(EndingMileageBelowStart), s)
        else if d.endingTime < t.startingTime then Step(Rejected(EndingTimeBeforeStart), s)
        else Step(Accepted, VehicleState(d.endingMileage, s.trips[i := ClosedTrip(t, d)], s.defects))
  }

  /** Aborting the current trip: it is marked finished and nothing else is written. */
  function Abort(s: VehicleState): (r: Step)
    ensures r.state.mileage == s.mileage && r.state.defects == s.defects && |r.state.trips| == |s.trips|
    ensures r.outcome.Rejected? ==> r.state == s
    ensures r.outcome.Accepted? <==> LookupTrip(s.trips).Current?
    ensures r.outcome.Accepted? ==> forall i :: 0 <= i < |r.state.trips| ==> r.state.trips[i].finished
  {
    LookupTripCharacterised(s.trips);
    match LookupTrip(s.trips)
    case NoTrip => Step(Rejected(NoActiveTrip), s)
    case MultipleActive => Step(Rejected(CorruptedTrips), s)
    case Current(i) => Step(Accepted, s.(trips := s.trips[i := s.trips[i].(finished := true)]))
  }

  function NewDefect(d: DefectData, today: int): Defect {
    Defect(d.defectType, None, today, None, d.comment, d.reporterName)
  }

  /** Reporting a defect: a valid report is attached to this vehicle, dated `today`. */
  function ReportDefect(s: VehicleState, post: PostData, today: int): (r: Step)
    ensures r.state.mileage == s.mileage && r.state.trips == s.trips
    ensures r.outcome.Rejected? ==> r.state == s
    ensures r.outcome.Accepted? <==> CleanDefect(post).Success?
    ensures r.outcome.Accepted? ==>
      |r.state.defects| == |s.defects| + 1 && r.state.defects[..|s.defects|] == s.defects
      && r.state.defects[|s.defects|].creationDate == today
  {
    match CleanDefect(post)
    case Failure(errors) => Step(Rejected(InvalidForm(errors)), s)
    case Success(d) => Step(Accepted, s.(defects := s.defects + [NewDefect(d, today)]))
  }

  /**
   * A POST to the vehicle page, dispatched on the submit buttons present: a
   * defect report alone, otherwise a start and then an end when both are present.
   */
  function Post(s: VehicleState, post: PostData, today: int): (r: Step)
    ensures "defect-form" in post ==> r == ReportDefect(s, post, today)
    ensures "defect-form" !in post && "start-trip-form" in post && "end-trip-form" !in post ==> r == Start(s, post)
    ensures "defect-form" !in post && "start-trip-form" in post && "end-trip-form" in post ==>
      r == End(Start(s, post).state, post)
    ensures "defect-form" !in post && "start-trip-form" !in post && "end-trip-form" in post ==> r == End(s, post)
    ensures "defect-form" in post ==> r.state.mileage == s.mileage && r.state.trips == s.trips
    ensures "defect-form" !in post ==> r.state.defects == s.defects
    ensures "defect-form" !in post && "start-trip-form" !in post && "end-trip-form" !in post ==>
      r == Step(Rejected(NoFormSubmitted), s)
    ensures r.outcome.Rejected? && "end-trip-form" !in post ==> r.state == s
  {
    if "defect-form" in post then
      ReportDefect(s, post, today)
    else if "start-trip-form" in post then
      var started := Start(s, post);
      if "end-trip-form" in post then End(started.state, post) else started
    else if "end-trip-form" in post then
      End(s, post)
    else
      Step(Rejected(NoFormSubmitted), s)
  }

  // ------------------------------------------------------------ start

  lemma StartAppendsOneOpenTrip(s: VehicleState, post: PostData)
    requires Start(s, post).outcome.Accepted?
    ensures CleanStartTrip(post).Success?
    ensures var r := Start(s, post).state; var d := CleanStartTrip(post).value;
      && LookupTrip(s.trips).NoTrip?
      && |r.trips| == |s.trips| + 1 && r.trips[..|s.trips|] == s.trips
      && r.trips[|s.trips|].startingMileage == d.startingMileage >= s.mileage
      && r.trips[|s.trips|].startingTime == d.startingTime
      && r.trips[|s.trips|].driverName == d.driverName
      && r.trips[|s.trips|].purpose == d.purpose
      && !r.trips[|s.trips|].finished
      && r.trips[|s.trips|].endingMileage.None? && r.trips[|s.trips|].endingTime.None?
      && r.mileage == s.mileage && r.defects == s.defects
  {
  }

  lemma StartRejectsMileageBelowVehicle(s: VehicleState, post: PostData)
    requires CleanStartTrip(post).Success? && CleanStartTrip(post).value.startingMileage < s.mileage
    ensures Start(s, post) == Step(Rejected(MileageBelowVehicle), s)
  {
  }

  lemma StartRefusedWhileTripInProgress(s: VehicleState, post: PostData, k: nat)
    requires k < |s.trips| && !s.trips[k].finished
    ensures Start(s, post).outcome.Rejected? && Start(s, post).state == s
  {
    LookupTripCharacterised(s.trips);
  }

  /** The view's unguarded start, given a vehicle with a trip in progress, leaves two unfinished trips. */
  lemma UnguardedStartAllowsTwoActiveTrips(s: VehicleState, post: PostData, k: nat)
    requires k < |s.trips| && !s.trips[k].finished
    requires CleanStartTrip(post).Success? && CleanStartTrip(post).value.startingMileage >= s.mileage
    ensures StartUnguarded(s, post).outcome.Accepted?
    ensures LookupTrip(StartUnguarded(s, post).state.trips) == MultipleActive
  {
    var trips' := StartUnguarded(s, post).state.trips;
    assert trips'[k] == s.trips[k] && !trips'[|s.trips|].finished;
    LookupTripCharacterised(trips');
  }

  /** A start is accepted exactly when the form is valid, the mileage is not below the vehicle's and no trip is in progress. */
  lemma StartAcceptedExactlyWhenValid(s: VehicleState, post: PostData)
    ensures Start(s, post).outcome.Accepted? <==>
      && CleanStartTrip(post).Success?
      && CleanStartTrip(post).value.startingMileage >= s.mileage
      && forall i :: 0 <= i < |s.trips| ==> s.trips[i].finished
  {
    LookupTripCharacterised(s.trips);
  }

  /** With no trip in progress, a valid start at or above the vehicle's mileage appends exactly the opened trip. */
  lemma StartOnIdleVehicle(s: VehicleState, post: PostData, d: StartTripData)
    requires forall i :: 0 <= i < |s.trips| ==> s.trips[i].finished
    requires CleanStartTrip(post) == Success(d) && d.startingMileage >= s.mileage
    ensures d.startingMileage >= 0
    ensures Start(s, post) == Step(Accepted, s.(trips := s.trips + [OpenedTrip(d)]))
  {
    LookupTripCharacterised(s.trips);
  }

  lemma StartReadsOnlyItsFields(s: VehicleState, p: PostData, q: PostData)
    requires AgreeOn(p, q, StartTripFields)
    ensures Start(s, p) == Start(s, q)
  {
    CleanStartTripReadsOnlyItsFields(p, q);
  }

  // ------------------------------------------------------------ end

  lemma EndClosesTheActiveTrip(s: VehicleState, post: PostData, k: nat, endingTime: int, endingMileage: int)
    requires k < |s.trips| && !s.trips[k].finished
    requires forall j :: 0 <= j < |s.trips| && j != k ==> s.trips[j].finished
    requires CleanEndTrip(post) == Success(EndTripData(endingTime, endingMileage))
    requires endingMileage >= s.trips[k].startingMileage && endingTime >= s.trips[k].startingTime
    ensures var r := End(s, post);
      && r.outcome == Accepted
      && r.state.mileage == endingMileage
      && |r.state.trips| == |s.trips|
      && r.state.trips[k].finished
      && r.state.trips[k].endingMileage == Some(endingMileage)
      && r.state.trips[k].endingTime == Some(endingTime)
      && StartingOf(r.state.trips[k]) == StartingOf(s.trips[k])
      && (forall j :: 0 <= j < |s.trips| && j != k ==> r.state.trips[j] == s.trips[j])
      && r.state.defects == s.defects
  {
    LookupTripCharacterised(s.trips);
  }

  /** Ending the one trip of a vehicle that is in progress closes it with the submitted values. */
  lemma EndOfOnlyActiveTrip(s: VehicleState, post: PostData, d: EndTripData)
    requires |s.trips| == 1 && !s.trips[0].finished
    requires CleanEndTrip(post) == Success(d)
    requires d.endingMileage >= s.trips[0].startingMileage && d.endingTime >= s.trips[0].startingTime
    ensures d.endingMileage >= 0
    ensures End(s, post) == Step(Accepted, VehicleState(d.endingMileage, [ClosedTrip(s.trips[0], d)], s.defects))
  {
    LookupTripCharacterised(s.trips);
  }

  lemma EndWithoutActiveTripFails(s: VehicleState, post: PostData)
    requires forall i :: 0 <= i < |s.trips| ==> s.trips[i].finished
    ensures End(s, post) == Step(Rejected(NoActiveTrip), s)
  {
    LookupTripCharacterised(s.trips);
  }

  lemma EndRejectsMileageBelowStart(s: VehicleState, post: PostData, k: nat)
    requires k < |s.trips| && !s.trips[k].finished
    requires forall j :: 0 <= j < |s.trips| && j != k ==> s.trips[j].finished
    requires CleanEndTrip(post).Success? && CleanEndTrip(post).value.endingMileage < s.trips[k].startingMileage
    ensures End(s, post) == Step(Rejected(EndingMileageBelowStart), s)
  {
    LookupTripCharacterised(s.trips);
  }

  lemma EndRejectsTimeBeforeStart(s: VehicleState, post: PostData, k: nat)
    requires k < |s.trips| && !s.trips[k].finished
    requires forall j :: 0 <= j < |s.trips| && j != k ==> s.trips[j].finished
    requires CleanEndTrip(post).Success? && CleanEndTrip(post).value.endingMileage >= s.trips[k].startingMileage
    requires CleanEndTrip(post).value.endingTime < s.trips[k].startingTime
    ensures End(s, post) == Step(Rejected(EndingTimeBeforeStart), s)
  {
    LookupTripCharacterised(s.trips);
  }

  lemma EndRequiresBothEndingFields(s: VehicleState, post: PostData)
    requires !Numeric(post, "ending_time") || !Numeric(post, "ending_mileage")
    ensures End(s, post).outcome.Rejected? && End(s, post).state == s
  {
  }

  /** Whatever is submitted, ending never rewrites a trip's starting fields. */
  lemma EndKeepsStartingFields(s: VehicleState, post: PostData)
    ensures |End(s, post).state.trips| == |s.trips|
    ensures forall i :: 0 <= i < |s.trips| ==> StartingOf(End(s, post).state.trips[i]) == StartingOf(s.trips[i])
  {
  }

  lemma EndReadsOnlyEndingFields(s: VehicleState, p: PostData, q: PostData)
    requires AgreeOn(p, q, EndTripFields)
    ensures End(s, p) == End(s, q)
  {
    CleanEndTripReadsOnlyItsFields(p, q);
  }

  // ------------------------------------------------------------ abort

  lemma AbortLeavesEndingUnset(s: VehicleState, k: nat)
    requires Consistent(s)
    requires k < |s.trips| && !s.trips[k].finished
    ensures var r := Abort(s);
      && r.outcome == Accepted
      && |r.state.trips| == |s.trips|
      && r.state.trips[k].finished
      && r.state.trips[k].endingMileage.None? && r.state.trips[k].endingTime.None?
      && StartingOf(r.state.trips[k]) == StartingOf(s.trips[k])
      && (forall j :: 0 <= j < |s.trips| && j != k ==> r.state.trips[j] == s.trips[j])
      && r.state.mileage == s.mileage && r.state.defects == s.defects
  {
    LookupTripCharacterised(s.trips);
    assert WellFormedTrip(s.trips[k]);
  }

  lemma AbortWithoutActiveTripFails(s: VehicleState)
    requires forall i :: 0 <= i < |s.trips| ==> s.trips[i].finished
    ensures Abort(s) == Step(Rejected(NoActiveTrip), s)
  {
    LookupTripCharacterised(s.trips);
  }

  // ------------------------------------------------------------ defects

  lemma ReportDefectAppendsOne(s: VehicleState, post: PostData, today: int)
    requires CleanDefect(post).Success?
    ensures var r := ReportDefect(s, post, today);
      && r.outcome == Accepted
      && |r.state.defects| == |s.defects| + 1 && r.state.defects[..|s.defects|] == s.defects
      && r.state.defects[|s.defects|].defectType.Key() == post["type"]
      && r.state.defects[|s.defects|].reporterName == Strip(post["reporter_name"])
      && r.state.defects[|s.defects|].comment == (if "comment" in post then Strip(post["comment"]) else "")
      && r.state.defects[|s.defects|].status.None?
      && r.state.defects[|s.defects|].creationDate == today
      && r.state.defects[|s.defects|].solutionDate.None?
      && r.state.trips == s.trips && r.state.mileage == s.mileage
  {
  }

  /** A report is accepted exactly when the defect form is valid. */
  lemma ReportDefectAcceptedExactlyWhenValid(s: VehicleState, post: PostData, today: int)
    ensures ReportDefect(s, post, today).outcome.Accepted? <==> CleanDefect(post).Success?
  {
  }

  lemma ReportDefectWithoutTypeRejected(s: VehicleState, post: PostData, today: int)
    requires "type" !in post
    ensures ReportDefect(s, post, today).outcome.Rejected?
    ensures "type" in ReportDefect(s, post, today).outcome.error.fields
    ensures ReportDefect(s, post, today).state == s
  {
  }

  // ------------------------------------------------------------ refusals

  /** A refused start, guarded or not, leaves the vehicle, its trips and its defects as they were. */
  lemma StartRejectedChangesNothing(s: VehicleState, post: PostData)
    ensures StartUnguarded(s, post).outcome.Rejected? ==> StartUnguarded(s, post).state == s
    ensures Start(s, post).outcome.Rejected? ==> Start(s, post).state == s
  {
  }

  /** A refused end leaves the vehicle, its trips and its defects as they were. */
  lemma EndRejectedChangesNothing(s: VehicleState, post: PostData)
    ensures End(s, post).outcome.Rejected? ==> End(s, post).state == s
  {
  }

  /** A refused abort leaves the vehicle, its trips and its defects as they were. */
  lemma AbortRejectedChangesNothing(s: VehicleState)
    ensures Abort(s).outcome.Rejected? ==> Abort(s).state == s
  {
  }

  /** A refused defect report leaves the vehicle, its trips and its defects as they were. */
  lemma ReportDefectRejectedChangesNothing(s: VehicleState, post: PostData, today: int)
    ensures ReportDefect(s, post, today).outcome.Rejected? ==> ReportDefect(s, post, today).state == s
  {
  }

  // ------------------------------------------------------------ invariants

  /** Ending fields are written together, only on a finished trip, and respect the starting ones. */
  ghost predicate WellFormedTrip(t: Trip) {
    && (t.endingMileage.Some? <==> t.endingTime.Some?)
    && (t.endingMileage.Some? ==>
          t.finished && t.endingMileage.value >= t.startingMileage && t.endingTime.value >= t.startingTime)
  }

  /** The state the public operations keep: one trip at most in progress, starting at or above the vehicle's mileage. */
  ghost predicate Consistent(s: VehicleState) {
    && AtMostOneActive(s.trips)
    && (forall i :: 0 <= i < |s.trips| ==> WellFormedTrip(s.trips[i]))
    && (forall i :: 0 <= i < |s.trips| && !s.trips[i].finished ==> s.mileage <= s.trips[i].startingMileage)
  }

  lemma StartKeepsConsistency(s: VehicleState, post: PostData)
    requires Consistent(s)
    ensures Consistent(Start(s, post).state) && Start(s, post).state.mileage == s.mileage
  {
    StartAcceptedExactlyWhenValid(s, post);
    StartRejectedChangesNothing(s, post);
    if Start(s, post).outcome.Accepted? {
      var d := CleanStartTrip(post).value;
      StartOnIdleVehicle(s, post, d);
      OpeningOnIdleVehicleKeepsConsistency(s, OpenedTrip(d));
    }
  }

  /** An idle consistent vehicle stays consistent when one trip is opened at or above its mileage. */
  lemma OpeningOnIdleVehicleKeepsConsistency(s: VehicleState, t: Trip)
    requires Consistent(s) && forall i :: 0 <= i < |s.trips| ==> s.trips[i].finished
    requires !t.finished && t.endingMileage.None? && t.endingTime.None? && t.startingMileage >= s.mileage
    ensures Consistent(s.(trips := s.trips + [t]))
  {
    var trips' := s.trips + [t];
    assert forall i :: 0 <= i < |s.trips| ==> trips'[i] == s.trips[i];
    assert trips'[|s.trips|] == t;
  }

  lemma EndKeepsConsistency(s: VehicleState, post: PostData)
    requires Consistent(s)
    ensures Consistent(End(s, post).state) && End(s, post).state.mileage >= s.mileage
  {
    LookupTripCharacterised(s.trips);
  }

  lemma AbortKeepsConsistency(s: VehicleState)
    requires Consistent(s)
    ensures Consistent(Abort(s).state) && Abort(s).state.mileage == s.mileage
  {
    LookupTripCharacterised(s.trips);
  }

  /** Every POST keeps the state consistent, and the vehicle's mileage never goes down. */
  lemma PostKeepsConsistency(s: VehicleState, post: PostData, today: int)
    requires Consistent(s)
    ensures Consistent(Post(s, post, today).state)
    ensures Post(s, post, today).state.mileage >= s.mileage
  {
    if "defect-form" !in post && "start-trip-form" in post {
      StartKeepsConsistency(s, post);
      EndKeepsConsistency(Start(s, post).state, post);
    } else {
      EndKeepsConsistency(s, post);
    }
  }

  /** A consistent vehicle never hits the several-trips fault. */
  lemma ConsistentHasNoCorruption(s: VehicleState)
    requires Consistent(s)
    ensures !LookupTrip(s.trips).MultipleActive?
    ensures DetailContextOf(s).Success?
  {
    LookupTripCharacterised(s.trips);
  }

  // ------------------------------------------------------------ a worked run
  // The trip tests submit to the trip start and trip end pages, whose views are
  // not part of this model; their submissions carry no button name, and go
  // straight to the start and end operations below.

  /** The start submitted by the trip tests: 15 on a vehicle at 10. */
  const TestStart: PostData := map["starting_mileage" := "15", "starting_time" := "0",
                                   "driver_name" := "John Doe", "purpose" := "DPS"]

  /** The end submitted by the trip tests, with a changed starting mileage of 16. */
  const TestEnd: PostData := map["starting_mileage" := "16", "starting_time" := "0",
                                 "driver_name" := "John Doe", "purpose" := "DPS",
                                 "ending_mileage" := "20", "ending_time" := "3600"]

  const TestTrip := Trip(15, 0, "John Doe", "DPS", None, None, false)

  lemma TestStartIsValid()
    ensures CleanStartTrip(TestStart) == Success(StartTripData(0, 15, "John Doe", "DPS"))
  {
    assert ShowInt(0) == "0" && ShowInt(15) == "15";
    assert CleanText("John Doe") && CleanText("DPS");
    CleanStartTripOfCanonical(TestStart, 0, 15, "John Doe", "DPS");
  }

  lemma TestEndIsValid()
    ensures CleanEndTrip(TestEnd) == Success(EndTripData(3600, 20))
  {
    assert ShowInt(20) == "20" && ShowInt(3600) == "3600";
    CleanEndTripOfCanonical(TestEnd, 3600, 20);
  }

  /** Starting: the vehicle at 10 gets one unfinished trip at 15. */
  lemma TestStartRun()
    ensures Start(VehicleState(10, [], []), TestStart) == Step(Accepted, VehicleState(10, [TestTrip], []))
  {
    TestStartIsValid();
    StartOnIdleVehicle(VehicleState(10, [], []), TestStart, StartTripData(0, 15, "John Doe", "DPS"));
  }

  /** The test trip once ended at 20 after an hour. */
  const TestEndedTrip := TestTrip.(endingMileage := Some(20), endingTime := Some(3600), finished := true)

  /** Ending: the trip keeps its starting mileage of 15, is finished, and the vehicle is at 20. */
  lemma TestEndRun()
    ensures End(VehicleState(10, [TestTrip], []), TestEnd) == Step(Accepted, VehicleState(20, [TestEndedTrip], []))
  {
    TestEndIsValid();
    EndOfOnlyActiveTrip(VehicleState(10, [TestTrip], []), TestEnd, EndTripData(3600, 20));
    assert [TestTrip][0 := ClosedTrip(TestTrip, EndTripData(3600, 20))] == [TestEndedTrip];
  }

  /** The same start with a starting mileage of 0. */
  const TestLowStart: PostData := map["starting_mileage" := "0", "starting_time" := "0",
                                      "driver_name" := "John Doe", "purpose" := "DPS"]

  lemma TestLowStartIsValid()
    ensures CleanStartTrip(TestLowStart) == Success(StartTripData(0, 0, "John Doe", "DPS"))
  {
    assert ShowInt(0) == "0" && CleanText("John Doe") && CleanText("DPS");
    CleanStartTripOfCanonical(TestLowStart, 0, 0, "John Doe", "DPS");
  }

  /** Starting at 0 on the vehicle at 10 is refused and creates no trip. */
  lemma TestLowStartRun()
    ensures Start(VehicleState(10, [], []), TestLowStart) == Step(Rejected(MileageBelowVehicle), VehicleState(10, [], []))
  {
    TestLowStartIsValid();
    StartRejectsMileageBelowVehicle(VehicleState(10, [], []), TestLowStart);
  }
}
