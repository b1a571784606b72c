/**
 * The vehicle detail page: a vehicle object whose mileage, trips and defects
 * the page's POST handler updates in place. Each method is proved to do what
 * the matching function of module Lifecycle describes, and to keep the
 * vehicle consistent when it was.
 */
module Views {
  import opened Wrappers
  import opened Models
  import opened Forms
  import opened Lifecycle

  class Vehicle {
    var info: VehicleInfo
    var mileage: nat
    var trips: seq<Trip>
    var defects: seq<Defect>

    /** The part of the vehicle the page's operations read and write. */
    function State(): VehicleState
      reads this
    {
      VehicleState(mileage, trips, defects)
    }

    ghost predicate Valid()
      reads this
    {
      Consistent(State())
    }

    constructor (info: VehicleInfo, mileage: nat)
      ensures Valid()
      ensures this.info == info && State() == VehicleState(mileage, [], [])
    {
      this.info := info;
      this.mileage := mileage;
      trips := [];
      defects := [];
    }

    /** `trip_set.get(finished=False)`: scans the trips for unfinished ones. */
    method LookupCurrentTrip() returns (r: CurrentTrip)
      ensures r == LookupTrip(trips)
    {
      var count, first, i := 0, 0, 0;
      while i < |trips|
        invariant 0 <= i <= |trips|
        invariant count == |ActiveIndices(trips[..i])|
        invariant count > 0 ==> first == ActiveIndices(trips[..i])[0]
      {
        assert trips[..i + 1][..i] == trips[..i];
        if !trips[i].finished {
          if count == 0 {
            first := i;
          }
          count := count + 1;
        }
        i := i + 1;
      }
      assert trips[..|trips|] == trips;
      r := if count == 0 then NoTrip else if count == 1 then Current(first) else MultipleActive;
    }

    /** The page's context: open defects, and the start or end form for the current trip. */
    method GetContextData() returns (r: Result<DetailContext, Error>)
      ensures r == DetailContextOf(State())
    {
      var openDefects := OpenDefects(defects);
      var current := LookupCurrentTrip();
      match current
      case NoTrip =>
        r := Success(DetailContext(openDefects, StartTripForm(mileage), false));
      case Current(i) =>
        r := Success(DetailContext(openDefects, EndTripForm(StartingOf(trips[i])), true));
      case MultipleActive =>
        r := Failure(CorruptedTrips);
    }

    method ReportDefect(post: PostData, today: int) returns (outcome: Outcome)
      modifies this
      ensures Step(outcome, State()) == Lifecycle.ReportDefect(old(State()), post, today)
      ensures info == old(info)
      ensures old(Valid()) ==> Valid()
    {
      match CleanDefect(post)
      case Failure(errors) =>
        outcome := Rejected(InvalidForm(errors));
      case Success(d) =>
        defects := defects + [NewDefect(d, today)];
        outcome := Accepted;
    }

    method StartTrip(post: PostData) returns (outcome: Outcome)
      modifies this
      ensures Step(outcome, State()) == Start(old(State()), post)
      ensures info == old(info)
      ensures old(Valid()) ==> Valid()
    {
      ghost var before := State();
      match CleanStartTrip(post)
      case Failure(errors) =>
        outcome := Rejected(InvalidForm(errors));
      case Success(d) =>
        if d.startingMileage < mileage {
          outcome := Rejected(MileageBelowVehicle);
        } else {
          var current := LookupCurrentTrip();
          if !current.NoTrip? {
            outcome := Rejected(TripInProgress);
          } else {
            trips := trips + [OpenedTrip(d)];
            outcome := Accepted;
          }
        }
      if Consistent(before) {
        StartKeepsConsistency(before, post);
      }
    }

    /** Writes the trip's ending fields and `finished`, then hands its ending mileage to the vehicle. */
    method EndTrip(post: PostData) returns (outcome: Outcome)
      modifies this
      ensures Step(outcome, State()) == End(old(State()), post)
      ensures info == old(info)
      ensures old(Valid()) ==> Valid() && mileage >= old(mileage)
    {
      ghost var before := State();
      var current := LookupCurrentTrip();
      match current
      case NoTrip =>
        outcome := Rejected(NoActiveTrip);
      case MultipleActive =>
        outcome := Rejected(CorruptedTrips);
      case Current(i) =>
        match CleanEndTrip(post)
        case Failure(errors) =>
          outcome := Rejected(InvalidForm(errors));
        case Success(d) =>
          var trip := trips[i];
          if d.endingMileage < trip.startingMileage {
            outcome := Rejected(EndingMileageBelowStart);
          } else if d.endingTime < trip.startingTime {
            outcome := Rejected(EndingTimeBeforeStart);
          } else {
            trips := trips[i := ClosedTrip(trip, d)];
            mileage := d.endingMileage;
            outcome := Accepted;
          }
      if Consistent(before) {
        EndKeepsConsistency(before, post);
      }
    }

    method AbortTrip() returns (outcome: Outcome)
      modifies this
      ensures Step(outcome, State()) == Abort(old(State()))
      ensures info == old(info)
      ensures old(Valid()) ==> Valid()
    {
      ghost var before := State();
      var current := LookupCurrentTrip();
      match current
      case NoTrip =>
        outcome := Rejected(NoActiveTrip);
      case MultipleActive =>
        outcome := Rejected(CorruptedTrips);
      case Current(i) =>
        trips := trips[i := trips[i].(finished := true)];
        outcome := Accepted;
      if Consistent(before) {
        AbortKeepsConsistency(before);
      }
    }

    /** The POST handler: a defect report, or a trip start and/or end, chosen by the submit buttons present. */
    method Post(post: PostData, today: int) returns (outcome: Outcome)
      modifies this
      ensures Step(outcome, State()) == Lifecycle.Post(old(State()), post, today)
      ensures info == old(info)
      ensures old(Valid()) ==> Valid() && mileage >= old(mileage)
    {
      if "defect-form" in post {
        outcome := ReportDefect(post, today);
        return;
      }
      outcome := Rejected(NoFormSubmitted);
      if "start-trip-form" in post {
        outcome := StartTrip(post);
      }
      if "end-trip-form" in post {
        outcome := EndTrip(post);
      }
    }
  }
}
