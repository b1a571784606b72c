/**
 * The records of the fleet: vehicles, parking locations, defects and trips,
 * with the enumerations whose stored codes the database columns hold.
 */
module Models {
  import opened Wrappers

  /** Kinds of vehicle (the choices of `Vehicle.type`). */
  datatype VehicleType = VTP | VL | VPSP | VTU | VLTT | OtherType

  /** Fuels (the choices of `Vehicle.carburant`). */
  datatype FuelChoice = Diesel | Unleaded95E10 | Unleaded98 | Ethanol | Electric

  /** Operational state of a vehicle; `Code` is the string stored in the column. */
  datatype VehicleStatus = Operational | InRepair | OutOfOrder {
    function Code(): string {
      match this
      case Operational => "OPERATIONAL"
      case InRepair => "IN_REPAIR"
      case OutOfOrder => "OUT_OF_ORDER"
    }
  }

  /** The status a stored code stands for; `None` for a code outside the choices. */
  function ParseVehicleStatus(code: string): (r: Option<VehicleStatus>)
    ensures r.Some? ==> r.value.Code() == code
    ensures r.None? ==> forall st: VehicleStatus :: st.Code() != code
  {
    if code == "OPERATIONAL" then Some(Operational)
    else if code == "IN_REPAIR" then Some(InRepair)
    else if code == "OUT_OF_ORDER" then Some(OutOfOrder)
    else None
  }

  /** Life cycle state of a defect; `Code` is the string stored in the column. */
  datatype DefectStatus = Open | Solved | Cancelled {
    function Code(): string {
      match this
      case Open => "OPEN"
      case Solved => "SOLVED"
      case Cancelled => "CANCELLED"
    }
  }

  function ParseDefectStatus(code: string): (r: Option<DefectStatus>)
    ensures r.Some? ==> r.value.Code() == code
    ensures r.None? ==> forall st: DefectStatus :: st.Code() != code
  {
    if code == "OPEN" then Some(Open)
    else if code == "SOLVED" then Some(Solved)
    else if code == "CANCELLED" then Some(Cancelled)
    else None
  }

  /** One selectable value of a choice list: the stored key and its displayed text. */
  datatype Choice = Choice(key: string, display: string)

  /** A labelled group of choices, as in a grouped choice list. */
  datatype ChoiceGroup = ChoiceGroup(display: string, choices: seq<Choice>)

  /** The grouped choices of `Defect.type`: mechanical and lighting defects. */
  const DefectTypeChoices: seq<ChoiceGroup> := [
    ChoiceGroup("mécanique", [Choice("engine", "moteur")]),
    ChoiceGroup("éclairage", [Choice("bulb", "ampoule")])
  ]

  function ChoiceKeys(choices: seq<Choice>): seq<string> {
    if choices == [] then [] else [choices[0].key] + ChoiceKeys(choices[1..])
  }

  /** The keys a grouped choice list accepts: the leaves, never the group labels. */
  function LeafKeys(groups: seq<ChoiceGroup>): seq<string> {
    if groups == [] then [] else ChoiceKeys(groups[0].choices) + LeafKeys(groups[1..])
  }

  /** Kind of defect; `Key` is the string stored in the column. */
  datatype DefectType = Engine | Bulb {
    function Key(): string {
      match this
      case Engine => "engine"
      case Bulb => "bulb"
    }
  }

  lemma DefectTypeLeafKeys()
    ensures LeafKeys(DefectTypeChoices) == ["engine", "bulb"]
  {
    assert ChoiceKeys(DefectTypeChoices[0].choices) == ["engine"];
    assert ChoiceKeys(DefectTypeChoices[1].choices) == ["bulb"];
    assert DefectTypeChoices[1..][1..] == [];
  }

  /** The defect type a submitted key selects: exactly the leaf keys of the grouped choices. */
  function ParseDefectType(key: string): (r: Option<DefectType>)
    ensures r.Some? <==> key in LeafKeys(DefectTypeChoices)
    ensures r.Some? ==> r.value.Key() == key
  {
    DefectTypeLeafKeys();
    if key == "engine" then Some(Engine)
    else if key == "bulb" then Some(Bulb)
    else None
  }

  /** A parking place; its display text is its name. */
  datatype Location = Location(name: string, address: string, zipCode: string, city: string, comment: string)

  /** The descriptive fields of a vehicle (its mileage and children live with the vehicle object). */
  datatype VehicleInfo = VehicleInfo(
    name: string,
    vehicleType: VehicleType,
    modelName: string,
    fuel: FuelChoice,
    registrationNumber: string,
    parkingLocation: Location,
    status: VehicleStatus)

  /** A new vehicle record; a status left out is `OPERATIONAL`. */
  function NewVehicleInfo(
    name: string, vehicleType: VehicleType, modelName: string, fuel: FuelChoice,
    registrationNumber: string, parkingLocation: Location, status: Option<VehicleStatus>): (v: VehicleInfo)
    ensures status.None? ==> v.status == Operational
    ensures status.Some? ==> v.status == status.value
    ensures v.name == name && v.vehicleType == vehicleType && v.modelName == modelName
    ensures v.fuel == fuel && v.registrationNumber == registrationNumber
    ensures v.parkingLocation == parkingLocation
  {
    VehicleInfo(name, vehicleType, modelName, fuel, registrationNumber, parkingLocation,
      match status case Some(st) => st case None => Operational)
  }

  /**
   * A reported defect of one vehicle (the vehicle is the one whose list holds it).
   * `status` is `None` while the column holds the blank default: the field has
   * no default value and the report form does not ask for it.
   */
  datatype Defect = Defect(
    defectType: DefectType,
    status: Option<DefectStatus>,
    creationDate: int,
    solutionDate: Option<int>,
    comment: string,
    reporterName: string)

  predicate IsOpen(d: Defect) {
    d.status == Some(Open)
  }

  /** One use of a vehicle: checked out with a starting mileage and time, later closed. */
  datatype Trip = Trip(
    startingMileage: nat,
    startingTime: int,
    driverName: string,
    purpose: string,
    endingMileage: Option<nat>,
    endingTime: Option<int>,
    finished: bool)
}
