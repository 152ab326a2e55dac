/** Vehicles and their images. `Vehicle.save` normalises the VIN (upper case,
    spaces removed); `VehicleImage.save` keeps at most one primary image per
    vehicle by clearing the flag on the vehicle's other images first. */
module Vehicles {
  import opened Common
  import opened Text

  datatype VehicleType = Car | Motorcycle | Truck | Suv | Van | Other {
    /** The value stored in the database column. */
    function Value(): string {
      match this
      case Car => "car"
      case Motorcycle => "motorcycle"
      case Truck => "truck"
      case Suv => "suv"
      case Van => "van"
      case Other => "other"
    }
  }

  const DefaultVehicleType := Car

  /** The choices check: a stored value names exactly one vehicle type. */
  function ParseVehicleType(s: string): (r: Option<VehicleType>)
    ensures r.Some? ==> r.value.Value() == s
    ensures forall t: VehicleType :: t.Value() == s ==> r == Some(t)
  {
    if s == "car" then Some(Car)
    else if s == "motorcycle" then Some(Motorcycle)
    else if s == "truck" then Some(Truck)
    else if s == "suv" then Some(Suv)
    else if s == "van" then Some(Van)
    else if s == "other" then Some(Other)
    else None
  }

  datatype Vehicle = Vehicle(
    owner: nat,                  // the owning user's id
    make: string,
    modelName: string,
    registrationNumber: string,  // unique over all vehicles
    vehicleType: VehicleType,
    year: Option<nat>,
    color: string,
    vinNumber: string,
    purchaseDate: Option<Date>,
    currentMileage: nat          // default 0
  )

  datatype VehicleImage = VehicleImage(
    vehicle: nat,                // the vehicle's id
    image: string,               // the stored file's name; the file itself is not modelled
    caption: string,
    isPrimary: bool              // default false
  )

  /** A vehicle built from its required fields: every other field takes the
      model's default (type car, mileage 0, the optional fields empty). */
  function NewVehicle(owner: nat, make: string, modelName: string, registrationNumber: string): (v: Vehicle)
    ensures v.owner == owner && v.make == make && v.modelName == modelName
    ensures v.registrationNumber == registrationNumber
    ensures v.vehicleType == Car && v.currentMileage == 0
    ensures v.year.None? && v.purchaseDate.None? && v.color == "" && v.vinNumber == ""
  {
    Vehicle(owner, make, modelName, registrationNumber, DefaultVehicleType, None, "", "", None, 0)
  }

  /** A VIN as `Vehicle.save` leaves it: no spaces, no lower-case letters. */
  predicate IsNormalizedVin(vin: string) {
    ' ' !in vin && forall i :: 0 <= i < |vin| ==> !IsLowerAscii(vin[i])
  }

  /** `Vehicle.save`: a non-empty VIN is upper-cased and its spaces removed. */
  function NormalizeVin(vin: string): (r: string)
    ensures IsNormalizedVin(r)
    ensures |r| <= |vin|
    ensures vin == "" ==> r == ""
  {
    if vin == "" then vin
    else
      var upper := Upper(vin);
      var r := Remove(upper, ' ');
      assert forall i :: 0 <= i < |r| ==> r[i] in upper;
      r
  }

  /** An upper-case string without spaces is left as it is. */
  lemma NormalizedVinFixed(vin: string)
    requires IsNormalizedVin(vin)
    ensures NormalizeVin(vin) == vin
  {
    if vin != "" {
      assert Upper(vin) == vin;
    }
  }

  /** Normalising twice is normalising once. */
  lemma NormalizeVinIdempotent(vin: string)
    ensures NormalizeVin(NormalizeVin(vin)) == NormalizeVin(vin)
  {
    NormalizedVinFixed(NormalizeVin(vin));
  }

  /** The normalised VIN keeps every non-space character, upper-cased, in
      order: it is the VIN without its spaces, upper-cased. */
  lemma NormalizeVinKeepsLetters(vin: string)
    ensures NormalizeVin(vin) == Upper(Remove(vin, ' '))
  {
    UpperRemoveCommute(vin);
  }

  /** `f"{self.year}"`: the digits of the year, or `None` when it is unset. */
  function YearText(year: Option<nat>): (r: string)
    ensures year.Some? ==> IsDigits(r) && DigitsValue(r) == year.value
  {
    match year
    case None => "None"
    case Some(y) => NatToStringRoundTrip(y); NatToString(y)
  }

  /** `Vehicle.__str__`: year, make and model, then the registration in parentheses. */
  function VehicleStr(v: Vehicle): (r: string)
    ensures |r| == |YearText(v.year)| + |" " + v.make + " " + v.modelName + " ("| + |v.registrationNumber| + 1
    ensures r[..|YearText(v.year)|] == YearText(v.year)
    ensures r[|YearText(v.year)|..|YearText(v.year)| + |" " + v.make + " " + v.modelName + " ("|]
            == " " + v.make + " " + v.modelName + " ("
    ensures r[|YearText(v.year)| + |" " + v.make + " " + v.modelName + " ("|..] == v.registrationNumber + ")"
  {
    var year := YearText(v.year);
    var mid := " " + v.make + " " + v.modelName + " (";
    var tail := v.registrationNumber + ")";
    var r := year + mid + tail;
    assert r == year + (mid + tail);
    r
  }

  /** `VehicleImage.__str__`, for the image stored under `id`: the vehicle's
      string form after "Image of ", then the image's id in parentheses. */
  function ImageStr(v: Vehicle, id: nat): (r: string)
    ensures |r| == 9 + |VehicleStr(v)| + 3 + |NatToString(id)|
    ensures r[..9] == "Image of " && r[9..9 + |VehicleStr(v)|] == VehicleStr(v)
    ensures r[9 + |VehicleStr(v)|..] == " (" + NatToString(id) + ")"
  {
    var tail := " (" + NatToString(id) + ")";
    var r := "Image of " + VehicleStr(v) + tail;
    assert r == "Image of " + (VehicleStr(v) + tail);
    r
  }

  /** Two images of the same vehicle have the same string form only when
      they are the same image. */
  lemma ImageStrIdentifies(v: Vehicle, a: nat, b: nat)
    requires ImageStr(v, a) == ImageStr(v, b)
    ensures a == b
  {
    var n := 9 + |VehicleStr(v)|;
    var sa, sb := NatToString(a), NatToString(b);
    assert " (" + sa + ")" == " (" + sb + ")";
    assert sa == (" (" + sa + ")")[2..|sa| + 2];
    assert sb == (" (" + sb + ")")[2..|sb| + 2];
    NatToStringRoundTrip(a);
    NatToStringRoundTrip(b);
  }

  /** `registration_number` is unique over all vehicles. */
  predicate UniqueRegistrations(vehicles: map<nat, Vehicle>) {
    forall a, b {:trigger vehicles[a].registrationNumber, vehicles[b].registrationNumber} ::
      a in vehicles && b in vehicles && vehicles[a].registrationNumber == vehicles[b].registrationNumber
      ==> a == b
  }

  /** The registration numbers of every vehicle but `id`: saving vehicle `id`
      with one of these breaks the unique constraint. */
  function OtherRegistrations(vehicles: map<nat, Vehicle>, id: nat): set<string> {
    set k | k in vehicles && k != id :: vehicles[k].registrationNumber
  }

  /** Re-saving a stored vehicle under its own id keeps its registration
      number free of clashes. */
  lemma OwnRegistrationIsFree(vehicles: map<nat, Vehicle>, id: nat)
    requires UniqueRegistrations(vehicles) && id in vehicles
    ensures vehicles[id].registrationNumber !in OtherRegistrations(vehicles, id)
  {
    forall k | k in vehicles && k != id ensures vehicles[k].registrationNumber != vehicles[id].registrationNumber {
    }
  }

  /** Every vehicle's owner exists. */
  predicate OwnersExist(vehicles: map<nat, Vehicle>, userIds: set<nat>) {
    forall k {:trigger vehicles[k].owner} :: k in vehicles ==> vehicles[k].owner in userIds
  }

  /** Every image's vehicle exists. */
  predicate ImagesLinked(images: map<nat, VehicleImage>, vehicleIds: set<nat>) {
    forall k {:trigger images[k].vehicle} :: k in images ==> images[k].vehicle in vehicleIds
  }

  /** The images of one vehicle (`vehicle.images`). */
  function ImagesOf(images: map<nat, VehicleImage>, vehicle: nat): set<nat> {
    set k | k in images && images[k].vehicle == vehicle
  }

  /** Every stored VIN went through `Vehicle.save`. */
  predicate VinsNormalized(vehicles: map<nat, Vehicle>) {
    forall k {:trigger vehicles[k].vinNumber} :: k in vehicles ==> IsNormalizedVin(vehicles[k].vinNumber)
  }

  /** Each vehicle has at most one primary image. */
  predicate AtMostOnePrimary(images: map<nat, VehicleImage>) {
    forall a, b {:trigger images[a].isPrimary, images[b].isPrimary} ::
      a in images && b in images && images[a].isPrimary && images[b].isPrimary && images[a].vehicle == images[b].vehicle
      ==> a == b
  }

  /** The bulk update in `VehicleImage.save`: every primary image of `vehicle`
      other than `keep` loses its flag. Only that flag of those rows changes. */
  function ClearOtherPrimaries(images: map<nat, VehicleImage>, vehicle: nat, keep: nat): (r: map<nat, VehicleImage>)
    ensures r.Keys == images.Keys
    ensures forall k :: k in r && k != keep && r[k].vehicle == vehicle ==> !r[k].isPrimary
    ensures forall k :: k in images && (k == keep || images[k].vehicle != vehicle) ==> r[k] == images[k]
    ensures forall k :: k in images ==> r[k] == images[k].(isPrimary := r[k].isPrimary)
    ensures forall k :: k in images && r[k].isPrimary ==> images[k].isPrimary
  {
    map k | k in images ::
      if k != keep && images[k].vehicle == vehicle && images[k].isPrimary
      then images[k].(isPrimary := false) else images[k]
  }

  /** `VehicleImage.save` on the image table: clear the others when the image
      is primary, then write the image's own row. */
  function SaveImageRow(images: map<nat, VehicleImage>, pk: nat, img: VehicleImage): map<nat, VehicleImage> {
    (if img.isPrimary then ClearOtherPrimaries(images, img.vehicle, pk) else images)[pk := img]
  }

  /** Saving a primary image leaves it the only primary image of its vehicle;
      saving any image keeps the at-most-one rule and never touches another
      vehicle's images; saving a non-primary image changes no other row. */
  lemma SaveImageRowSinglePrimary(images: map<nat, VehicleImage>, pk: nat, img: VehicleImage)
    ensures var r := SaveImageRow(images, pk, img);
      && r.Keys == images.Keys + {pk}
      && r[pk] == img
      && (img.isPrimary ==> forall k :: k in r && r[k].vehicle == img.vehicle && r[k].isPrimary ==> k == pk)
      && (AtMostOnePrimary(images) ==> AtMostOnePrimary(r))
      && (forall k :: k in images && k != pk && images[k].vehicle != img.vehicle ==> r[k] == images[k])
      && (!img.isPrimary ==> forall k :: k in images && k != pk ==> r[k] == images[k])
  {
  }

  /** Saving an image of an existing vehicle keeps every image linked to an
      existing vehicle and keeps the at-most-one-primary rule. */
  lemma SaveImageRowKeepsInvariants(images: map<nat, VehicleImage>, vehicleIds: set<nat>, pk: nat, img: VehicleImage)
    requires ImagesLinked(images, vehicleIds) && AtMostOnePrimary(images)
    requires img.vehicle in vehicleIds
    ensures ImagesLinked(SaveImageRow(images, pk, img), vehicleIds)
    ensures AtMostOnePrimary(SaveImageRow(images, pk, img))
  {
    SaveImageRowSinglePrimary(images, pk, img);
  }
}
