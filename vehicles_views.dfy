/** The vehicle view set. A vehicle is reachable only by its owner; the
    `set-primary-image` and `delete-image` actions then look the image up
    among that vehicle's own images and answer not-found, changing nothing,
    when it is not there. */
module VehicleViews {
  import opened Common
  import opened Vehicles
  import opened Database

  /** `VehicleViewSet.get_queryset`: the vehicles the user owns. */
  function OwnedVehicles(vehicles: map<nat, Vehicle>, user: nat): (r: set<nat>)
    ensures r <= vehicles.Keys
    ensures forall k :: k in vehicles ==> (k in r <==> vehicles[k].owner == user)
  {
    set k | k in vehicles && vehicles[k].owner == user
  }

  /** Two users never reach a common vehicle, and the users' vehicle sets
      cover the whole table. */
  lemma OwnedVehiclesPartition(vehicles: map<nat, Vehicle>, u1: nat, u2: nat)
    requires u1 != u2
    ensures OwnedVehicles(vehicles, u1) * OwnedVehicles(vehicles, u2) == {}
    ensures forall k :: k in vehicles ==> k in OwnedVehicles(vehicles, vehicles[k].owner)
  {
  }

  /** `VehicleViewSet.set_primary_image`: with the vehicle among the user's
      and the image among the vehicle's images, the image is saved as
      primary, which clears every other primary image of the vehicle;
      otherwise not-found and nothing changes. */
  method SetPrimaryImage(db: Db, user: nat, vid: nat, iid: nat) returns (r: Result<nat>)
    requires db.Valid()
    modifies db`images, db`nextImage
    ensures db.Valid()
    ensures r.Err? <==> vid !in OwnedVehicles(old(db.vehicles), user) || iid !in ImagesOf(old(db.images), vid)
    ensures r.Err? ==> r.error == NotFound && db.images == old(db.images) && db.nextImage == old(db.nextImage)
    ensures r.Ok? ==>
      && r.value == iid
      && db.images == SaveImageRow(old(db.images), iid, old(db.images)[iid].(isPrimary := true))
      && db.images.Keys == old(db.images).Keys
      && db.images[iid] == old(db.images)[iid].(isPrimary := true)
      && (forall k :: k in db.images && db.images[k].vehicle == vid && db.images[k].isPrimary ==> k == iid)
      && (forall k :: k in old(db.images) && old(db.images)[k].vehicle != vid ==> db.images[k] == old(db.images)[k])
    ensures db.nextImage == old(db.nextImage)
  {
    if vid !in OwnedVehicles(db.vehicles, user) {
      return Err(NotFound);
    }
    if iid !in ImagesOf(db.images, vid) {
      return Err(NotFound);
    }
    var image := db.images[iid];
    SaveImageRowSinglePrimary(db.images, iid, image.(isPrimary := true));
    r := db.SaveImage(Some(iid), image.(isPrimary := true));
  }

  /** `VehicleViewSet.delete_image`: with the vehicle among the user's and
      the image among the vehicle's images, exactly that image is deleted;
      otherwise not-found and nothing changes. */
  method DeleteImage(db: Db, user: nat, vid: nat, iid: nat) returns (r: Result<nat>)
    requires db.Valid()
    modifies db`images
    ensures db.Valid()
    ensures r.Err? <==> vid !in OwnedVehicles(old(db.vehicles), user) || iid !in ImagesOf(old(db.images), vid)
    ensures r.Err? ==> r.error == NotFound && db.images == old(db.images)
    ensures r.Ok? ==> r.value == iid && db.images == old(db.images) - {iid}
  {
    if vid !in OwnedVehicles(db.vehicles, user) {
      return Err(NotFound);
    }
    if iid !in ImagesOf(db.images, vid) {
      return Err(NotFound);
    }
    db.DeleteImage(iid);
    r := Ok(iid);
  }
}
