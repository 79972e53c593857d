/** The record store: the five tables the handlers and the registration workflow write.
    A handler's work is committed as a whole or, on any early return or error, discarded
    as a whole; so each method either writes its new rows at the end or leaves every
    field as it found it. */
module Store {
  import opened Errors
  import opened Entities
  import opened Validation
  import opened Consumption
  import Cascade

  /** Every id in `ids` was handed out by a counter now at `next`. */
  predicate IdsBelow(ids: set<int>, next: int) {
    forall k :: k in ids ==> 0 < k < next
  }

  /** `plate` is the licence plate of some vehicle. */
  predicate PlateInUse(vehicles: map<int, Vehicle>, plate: string) {
    exists v :: v in vehicles && vehicles[v].plate == plate
  }

  /** `plate` is the licence plate of some vehicle other than `except`. */
  predicate PlateHeldByOther(vehicles: map<int, Vehicle>, plate: string, except: int) {
    exists v :: v in vehicles && v != except && vehicles[v].plate == plate
  }

  /** The unique constraint on the licence-plate column. */
  predicate PlatesUnique(vehicles: map<int, Vehicle>) {
    forall v, w :: v in vehicles && w in vehicles && v != w ==> vehicles[v].plate != vehicles[w].plate
  }

  /** The loop of the registration workflow, run inside the session: for each entry in
      order, a known part gets a pending link (sid, part id) with the entry's quantity and
      its stock lowered by that quantity; an unknown part is skipped. `conflict` records
      that two pending links share a key, which makes the flush fail. */
  method ApplyPartsList(sid: int, parts: map<int, Part>, partsList: seq<PartUse>)
    returns (pendingParts: map<int, Part>, pendingLinks: map<LinkKey, int>, conflict: bool)
    ensures pendingParts == Consume(parts, partsList)
    ensures pendingLinks == NewLinks(sid, parts, partsList)
    ensures conflict == RepeatsKnownPart(parts, partsList)
    ensures forall k :: k in pendingLinks ==> k.serviceId == sid && k.partId in parts
    ensures !conflict ==> forall pid :: pid in parts ==>
      (LinkKey(sid, pid) in pendingLinks ==>
         pendingParts[pid] == parts[pid].(stock := parts[pid].stock - pendingLinks[LinkKey(sid, pid)])) &&
      (LinkKey(sid, pid) !in pendingLinks ==> pendingParts[pid] == parts[pid])
  {
    pendingParts := parts;
    pendingLinks := map[];
    conflict := false;
    var i := 0;
    while i < |partsList|
      invariant 0 <= i <= |partsList|
      invariant pendingParts == Consume(parts, partsList[..i])
      invariant pendingLinks == NewLinks(sid, parts, partsList[..i])
      invariant conflict == RepeatsKnownPart(parts, partsList[..i])
      invariant forall k :: k in pendingLinks ==> k.serviceId == sid && k.partId in parts
      // the recorded consumption so far matches the stock decrements so far
      invariant !conflict ==> forall pid :: pid in parts ==>
        (LinkKey(sid, pid) in pendingLinks ==>
           pendingParts[pid] == parts[pid].(stock := parts[pid].stock - pendingLinks[LinkKey(sid, pid)])) &&
        (LinkKey(sid, pid) !in pendingLinks ==> pendingParts[pid] == parts[pid])
    {
      var use := partsList[i];
      StepFacts(sid, parts, partsList, i);
      if use.partId in pendingParts {
        var key := LinkKey(sid, use.partId);
        if key in pendingLinks {
          conflict := true;
        }
        pendingLinks := pendingLinks[key := use.quantity];
        var part := pendingParts[use.partId];
        pendingParts := pendingParts[use.partId := part.(stock := part.stock - use.quantity)];
      }
      i := i + 1;
      forall k | k in pendingLinks
        ensures k.serviceId == sid && k.partId in parts
      {
        NewLinksDomain(sid, parts, partsList[..i], k);
      }
      if !conflict {
        forall pid | pid in parts
          ensures (LinkKey(sid, pid) in pendingLinks ==>
                     pendingParts[pid] == parts[pid].(stock := parts[pid].stock - pendingLinks[LinkKey(sid, pid)])) &&
                  (LinkKey(sid, pid) !in pendingLinks ==> pendingParts[pid] == parts[pid])
        {
          LinksMatchStock(sid, parts, partsList[..i], pid);
        }
      }
    }
    assert partsList[..i] == partsList;
  }

  class WorkshopStore {
    var clients: map<int, Client>
    var vehicles: map<int, Vehicle>
    var services: map<int, Service>
    var parts: map<int, Part>
    var links: map<LinkKey, int>

    // the storage engine's primary-key allocators, one per table with a surrogate key
    var nextClientId: int
    var nextVehicleId: int
    var nextServiceId: int
    var nextPartId: int

    function Snapshot(): Cascade.Tables
      reads this
    {
      Cascade.Tables(clients, vehicles, services, parts, links)
    }

    ghost predicate Valid()
      reads this
    {
      0 < nextClientId && 0 < nextVehicleId && 0 < nextServiceId && 0 < nextPartId &&
      IdsBelow(clients.Keys, nextClientId) && IdsBelow(vehicles.Keys, nextVehicleId) &&
      IdsBelow(services.Keys, nextServiceId) && IdsBelow(parts.Keys, nextPartId) &&
      Cascade.LinksResolve(Snapshot()) && PlatesUnique(vehicles)
    }

    constructor ()
      ensures Valid()
      ensures clients == map[] && vehicles == map[] && services == map[] && parts == map[] && links == map[]
    {
      clients, vehicles, services, parts, links := map[], map[], map[], map[], map[];
      nextClientId, nextVehicleId, nextServiceId, nextPartId := 1, 1, 1, 1;
    }

    // ------------------------------------------------------------ clients

    /** new_client: insert the row as given. */
    method NewClient(name: string, address: string, phone: string, email: string) returns (id: int)
      requires Valid()
      modifies this
      ensures Valid()
      ensures id !in old(clients) && clients == old(clients)[id := Client(name, address, phone, email)]
      ensures vehicles == old(vehicles) && services == old(services) && parts == old(parts) && links == old(links)
    {
      id := nextClientId;
      clients := clients[id := Client(name, address, phone, email)];
      nextClientId := nextClientId + 1;
    }

    /** delete_client: an unknown id changes nothing; otherwise the client and, by the
        relationship cascades, its vehicles, their services and those services' links go. */
    method DeleteClient(cid: int) returns (r: Result<()>)
      requires Valid()
      modifies this
      ensures Valid()
      ensures r.Failure? <==> cid !in old(clients)
      ensures r.Failure? ==> r.error == NotFound && unchanged(this)
      ensures r.Success? ==> Snapshot() == Cascade.DeleteClient(old(Snapshot()), cid)
    {
      if cid !in clients {
        return Failure(NotFound);
      }
      var t := Cascade.DeleteClient(Snapshot(), cid);
      clients, vehicles, services, parts, links := t.clients, t.vehicles, t.services, t.parts, t.links;
      r := Success(());
    }

    // ------------------------------------------------------------ vehicles

    /** new_vehicle: the year is checked, then the plate; an accepted vehicle is inserted
        with the year's integer value, unless its plate is already taken (the unique
        constraint fails the commit). */
    method NewVehicle(make: string, model: string, yearText: string, plate: string, clientId: int)
      returns (r: Result<int>)
      requires Valid()
      modifies this
      ensures Valid()
      ensures r.Failure? ==> unchanged(this)
      ensures r.Failure? <==> !YearAccepted(yearText) || !PlateAccepted(plate) || PlateInUse(old(vehicles), plate)
      ensures r.Failure? ==> r.error == (if !YearAccepted(yearText) then YearRejected
                                         else if !PlateAccepted(plate) then PlateRejected
                                         else DuplicatePlate)
      ensures r.Success? ==> r.value !in old(vehicles) &&
                             vehicles == old(vehicles)[r.value := Vehicle(make, model, YearValue(yearText), plate, clientId)]
      ensures r.Success? ==> clients == old(clients) && services == old(services) && parts == old(parts) && links == old(links)
    {
      if !YearAccepted(yearText) {
        return Failure(YearRejected);
      }
      var year := YearValue(yearText);
      if !PlateAccepted(plate) {
        return Failure(PlateRejected);
      }
      if PlateInUse(vehicles, plate) {
        return Failure(DuplicatePlate);
      }
      var id := nextVehicleId;
      vehicles := vehicles[id := Vehicle(make, model, year, plate, clientId)];
      nextVehicleId := nextVehicleId + 1;
      r := Success(id);
    }

    /** edit_vehicle: make, model and client are assigned to the loaded row before the
        checks, but a failed check closes the session without committing, so they are
        lost with everything else. */
    method EditVehicle(vid: int, make: string, model: string, yearText: string, plate: string, clientId: int)
      returns (r: Result<()>)
      requires Valid()
      modifies this
      ensures Valid()
      ensures r.Failure? ==> unchanged(this)
      ensures r == (if vid !in old(vehicles) then Failure(NotFound)
                    else if !YearAccepted(yearText) then Failure(YearRejected)
                    else if !PlateAccepted(plate) then Failure(PlateRejected)
                    else if PlateHeldByOther(old(vehicles), plate, vid) then Failure(DuplicatePlate)
                    else Success(()))
      ensures r.Success? ==> vehicles == old(vehicles)[vid := Vehicle(make, model, YearValue(yearText), plate, clientId)]
      ensures r.Success? ==> clients == old(clients) && services == old(services) && parts == old(parts) && links == old(links)
    {
      if vid !in vehicles {
        return Failure(NotFound);
      }
      var pending := vehicles[vid].(make := make, model := model, clientId := clientId);
      if !YearAccepted(yearText) {
        return Failure(YearRejected);
      }
      pending := pending.(year := YearValue(yearText));
      if !PlateAccepted(plate) {
        return Failure(PlateRejected);
      }
      pending := pending.(plate := plate);
      if PlateHeldByOther(vehicles, plate, vid) {
        return Failure(DuplicatePlate);
      }
      vehicles := vehicles[vid := pending];
      r := Success(());
    }

    /** delete_vehicle: an unknown id changes nothing; otherwise the vehicle, its services
        and their links go. */
    method DeleteVehicle(vid: int) returns (r: Result<()>)
      requires Valid()
      modifies this
      ensures Valid()
      ensures r.Failure? <==> vid !in old(vehicles)
      ensures r.Failure? ==> r.error == NotFound && unchanged(this)
      ensures r.Success? ==> Snapshot() == Cascade.DeleteVehicle(old(Snapshot()), vid)
    {
      if vid !in vehicles {
        return Failure(NotFound);
      }
      var t := Cascade.DeleteVehicle(Snapshot(), vid);
      clients, vehicles, services, parts, links := t.clients, t.vehicles, t.services, t.parts, t.links;
      r := Success(());
    }

    // ------------------------------------------------------------ services

    /** new_service: the description is checked, then the cost (its check is not modelled:
        `cost` is None when it failed); an accepted service is inserted. */
    method NewService(description: string, cost: Option<FloatBits>, vehicleId: int) returns (r: Result<int>)
      requires Valid()
      modifies this
      ensures Valid()
      ensures r.Failure? ==> unchanged(this)
      ensures r.Failure? <==> !DescriptionAccepted(description) || cost.None?
      ensures r.Failure? ==> r.error == if !DescriptionAccepted(description) then DescriptionTooLong else CostRejected
      ensures r.Success? ==> r.value !in old(services) &&
                             services == old(services)[r.value := Service(description, cost.value, vehicleId)]
      ensures r.Success? ==> clients == old(clients) && vehicles == old(vehicles) && parts == old(parts) && links == old(links)
    {
      if !DescriptionAccepted(description) {
        return Failure(DescriptionTooLong);
      }
      if cost.None? {
        return Failure(CostRejected);
      }
      var id := nextServiceId;
      services := services[id := Service(description, cost.value, vehicleId)];
      nextServiceId := nextServiceId + 1;
      r := Success(id);
    }

    /** edit_service: after the same checks, description, cost and vehicle are overwritten;
        the service's links are untouched. */
    method EditService(sid: int, description: string, cost: Option<FloatBits>, vehicleId: int)
      returns (r: Result<()>)
      requires Valid()
      modifies this
      ensures Valid()
      ensures r.Failure? ==> unchanged(this)
      ensures r == (if sid !in old(services) then Failure(NotFound)
                    else if !DescriptionAccepted(description) then Failure(DescriptionTooLong)
                    else if cost.None? then Failure(CostRejected)
                    else Success(()))
      ensures r.Success? ==> services == old(services)[sid := Service(description, cost.value, vehicleId)]
      ensures r.Success? ==> clients == old(clients) && vehicles == old(vehicles) && parts == old(parts) && links == old(links)
    {
      if sid !in services {
        return Failure(NotFound);
      }
      if !DescriptionAccepted(description) {
        return Failure(DescriptionTooLong);
      }
      if cost.None? {
        return Failure(CostRejected);
      }
      services := services[sid := Service(description, cost.value, vehicleId)];
      r := Success(());
    }

    /** delete_service: an unknown id changes nothing; otherwise the service and its links
        go, and no part's stock is given back. */
    method DeleteService(sid: int) returns (r: Result<()>)
      requires Valid()
      modifies this
      ensures Valid()
      ensures r.Failure? <==> sid !in old(services)
      ensures r.Failure? ==> r.error == NotFound && unchanged(this)
      ensures r.Success? ==> Snapshot() == Cascade.DeleteService(old(Snapshot()), sid)
      ensures parts == old(parts)
    {
      if sid !in services {
        return Failure(NotFound);
      }
      var t := Cascade.DeleteService(Snapshot(), sid);
      services, links := t.services, t.links;
      r := Success(());
    }

    // ------------------------------------------------------------ parts

    /** new_part: the row is inserted as given; the stock may be any integer. */
    method NewPart(name: string, price: FloatBits, stock: int) returns (id: int)
      requires Valid()
      modifies this
      ensures Valid()
      ensures id !in old(parts) && parts == old(parts)[id := Part(name, price, stock)]
      ensures clients == old(clients) && vehicles == old(vehicles) && services == old(services) && links == old(links)
    {
      id := nextPartId;
      parts := parts[id := Part(name, price, stock)];
      nextPartId := nextPartId + 1;
    }

    /** edit_part: name, price and stock of an existing part are overwritten. */
    method EditPart(pid: int, name: string, price: FloatBits, stock: int) returns (r: Result<()>)
      requires Valid()
      modifies this
      ensures Valid()
      ensures r.Failure? <==> pid !in old(parts)
      ensures r.Failure? ==> r.error == NotFound && unchanged(this)
      ensures r.Success? ==> parts == old(parts)[pid := Part(name, price, stock)]
      ensures clients == old(clients) && vehicles == old(vehicles) && services == old(services) && links == old(links)
    {
      if pid !in parts {
        return Failure(NotFound);
      }
      parts := parts[pid := Part(name, price, stock)];
      r := Success(());
    }

    /** delete_part: a missing id (absent, unparsable or 0) and an unknown id change
        nothing; otherwise every link naming the part is purged, then the part goes. */
    method DeletePart(partId: Option<int>) returns (r: Result<()>)
      requires Valid()
      modifies this
      ensures Valid()
      ensures r.Failure? ==> unchanged(this)
      ensures r == (if partId.None? || partId.value == 0 then Failure(MissingId)
                    else if partId.value !in old(parts) then Failure(NotFound)
                    else Success(()))
      ensures r.Success? ==> Snapshot() == Cascade.DeletePart(old(Snapshot()), partId.value)
    {
      if partId.None? || partId.value == 0 {
        return Failure(MissingId);
      }
      var pid := partId.value;
      if pid !in parts {
        return Failure(NotFound);
      }
      var t := Cascade.DeletePart(Snapshot(), pid);
      parts, links := t.parts, t.links;
      r := Success(());
    }

    // ------------------------------------------------------------ registration workflow

    /** register_service_with_parts: a new service, then for each entry in order a link and
        a stock decrement for a known part (unknown parts are skipped), all committed
        together. A storage fault, or two entries naming the same known part (their links
        collide on the composite key), rolls everything back. */
    method RegisterServiceWithParts(vehicleId: int, description: string, cost: FloatBits,
                                    partsList: seq<PartUse>, storageFault: bool)
      returns (r: Result<int>)
      requires Valid()
      modifies this
      ensures Valid()
      ensures r.Failure? <==> storageFault || RepeatsKnownPart(old(parts), partsList)
      ensures r.Failure? ==> r.error == (if RepeatsKnownPart(old(parts), partsList) then DuplicateLink else StorageFailure)
      ensures r.Failure? ==> unchanged(this)
      ensures r.Success? ==>
        var sid := r.value;
        sid !in old(services) &&
        services == old(services)[sid := Service(description, cost, vehicleId)] &&
        parts == Consume(old(parts), partsList) &&
        links == old(links) + NewLinks(sid, old(parts), partsList) &&
        (forall k :: k in old(links) ==> k.serviceId != sid)
      ensures r.Success? ==>
        forall pid :: pid in old(parts) ==>
          (LinkKey(r.value, pid) in links ==>
             parts[pid] == old(parts)[pid].(stock := old(parts)[pid].stock - links[LinkKey(r.value, pid)])) &&
          (LinkKey(r.value, pid) !in links ==> parts[pid] == old(parts)[pid])
      ensures clients == old(clients) && vehicles == old(vehicles)
    {
      // the session: the new service is flushed to obtain its id, then the entries are
      // applied to copies of the part rows
      var sid := nextServiceId;
      var pendingParts, pendingLinks, conflict := ApplyPartsList(sid, parts, partsList);
      if conflict {
        return Failure(DuplicateLink);
      }
      if storageFault {
        return Failure(StorageFailure);
      }
      // commit
      services := services[sid := Service(description, cost, vehicleId)];
      nextServiceId := nextServiceId + 1;
      parts := pendingParts;
      links := links + pendingLinks;
      r := Success(sid);
    }
  }
}
