/** The five tables as one value, and the cascades that the relationship declarations
    attach to deleting a client, a vehicle or a service, and the link purge that precedes
    deleting a part. */
module Cascade {
  import opened Entities

  /** clients, vehicles, services, parts by id; ServicePart rows by their composite key,
      each holding its quantity. */
  datatype Tables = Tables(
    clients: map<int, Client>,
    vehicles: map<int, Vehicle>,
    services: map<int, Service>,
    parts: map<int, Part>,
    links: map<LinkKey, int>)

  /** Every ServicePart row references an existing service and an existing part. */
  predicate LinksResolve(t: Tables) {
    forall k :: k in t.links ==> k.serviceId in t.services && k.partId in t.parts
  }

  predicate OwnsVehicle(t: Tables, cid: int, vid: int) {
    vid in t.vehicles && t.vehicles[vid].clientId == cid
  }

  predicate VehicleOwnsService(t: Tables, vid: int, sid: int) {
    sid in t.services && t.services[sid].vehicleId == vid
  }

  predicate ClientOwnsService(t: Tables, cid: int, sid: int) {
    sid in t.services && OwnsVehicle(t, cid, t.services[sid].vehicleId)
  }

  /** Remove the given services and, by the service-to-links cascade, their links. */
  function DropServices(t: Tables, sids: set<int>): (r: Tables)
    ensures r.clients == t.clients && r.vehicles == t.vehicles && r.parts == t.parts
    ensures forall s :: s in r.services <==> s in t.services && s !in sids
    ensures forall s :: s in r.services ==> r.services[s] == t.services[s]
    ensures forall k :: k in r.links <==> k in t.links && k.serviceId !in sids
    ensures forall k :: k in r.links ==> r.links[k] == t.links[k]
    ensures LinksResolve(t) ==> LinksResolve(r)
  {
    t.(services := t.services - sids,
       links := map k | k in t.links && k.serviceId !in sids :: t.links[k])
  }

  /** Deleting a service removes it and its links; no part's stock is given back. */
  function DeleteService(t: Tables, sid: int): (r: Tables)
    ensures r.clients == t.clients && r.vehicles == t.vehicles && r.parts == t.parts
    ensures forall s :: s in r.services <==> s in t.services && s != sid
    ensures forall s :: s in r.services ==> r.services[s] == t.services[s]
    ensures forall k :: k in r.links <==> k in t.links && k.serviceId != sid
    ensures forall k :: k in r.links ==> r.links[k] == t.links[k]
    ensures LinksResolve(t) ==> LinksResolve(r)
  {
    DropServices(t, {sid})
  }

  /** Deleting a vehicle removes it, every service it owns and those services' links. */
  function DeleteVehicle(t: Tables, vid: int): (r: Tables)
    ensures r.clients == t.clients && r.parts == t.parts
    ensures forall v :: v in r.vehicles <==> v in t.vehicles && v != vid
    ensures forall v :: v in r.vehicles ==> r.vehicles[v] == t.vehicles[v]
    ensures forall s :: s in r.services <==> s in t.services && !VehicleOwnsService(t, vid, s)
    ensures forall s :: s in r.services ==> r.services[s] == t.services[s]
    ensures forall k :: k in r.links <==> k in t.links && !VehicleOwnsService(t, vid, k.serviceId)
    ensures forall k :: k in r.links ==> r.links[k] == t.links[k]
    ensures LinksResolve(t) ==> LinksResolve(r)
  {
    var owned := set s | s in t.services && t.services[s].vehicleId == vid;
    DropServices(t.(vehicles := t.vehicles - {vid}), owned)
  }

  /** Deleting a client removes it, every vehicle it owns, their services and those
      services' links. */
  function DeleteClient(t: Tables, cid: int): (r: Tables)
    ensures r.parts == t.parts
    ensures forall c :: c in r.clients <==> c in t.clients && c != cid
    ensures forall c :: c in r.clients ==> r.clients[c] == t.clients[c]
    ensures forall v :: v in r.vehicles <==> v in t.vehicles && !OwnsVehicle(t, cid, v)
    ensures forall v :: v in r.vehicles ==> r.vehicles[v] == t.vehicles[v]
    ensures forall s :: s in r.services <==> s in t.services && !ClientOwnsService(t, cid, s)
    ensures forall s :: s in r.services ==> r.services[s] == t.services[s]
    ensures forall k :: k in r.links <==> k in t.links && !ClientOwnsService(t, cid, k.serviceId)
    ensures forall k :: k in r.links ==> r.links[k] == t.links[k]
    ensures LinksResolve(t) ==> LinksResolve(r)
  {
    var vids := set v | v in t.vehicles && t.vehicles[v].clientId == cid;
    var sids := set s | s in t.services && t.services[s].vehicleId in vids;
    DropServices(t.(clients := t.clients - {cid}, vehicles := t.vehicles - vids), sids)
  }

  /** Deleting a part first removes every link naming it, then the part itself. */
  function DeletePart(t: Tables, pid: int): (r: Tables)
    ensures r.clients == t.clients && r.vehicles == t.vehicles && r.services == t.services
    ensures forall p :: p in r.parts <==> p in t.parts && p != pid
    ensures forall p :: p in r.parts ==> r.parts[p] == t.parts[p]
    ensures forall k :: k in r.links <==> k in t.links && k.partId != pid
    ensures forall k :: k in r.links ==> r.links[k] == t.links[k]
    ensures LinksResolve(t) ==> LinksResolve(r)
  {
    var purged := map k | k in t.links && k.partId != pid :: t.links[k];
    t.(parts := t.parts - {pid}, links := purged)
  }

  /** After a client is deleted, nothing it owned survives, directly or transitively. */
  lemma DeleteClientLeavesNothingOwned(t: Tables, cid: int)
    requires LinksResolve(t)
    ensures var r := DeleteClient(t, cid);
            cid !in r.clients &&
            (forall v :: v in r.vehicles ==> r.vehicles[v].clientId != cid) &&
            (forall s :: s in r.services ==> !OwnsVehicle(t, cid, r.services[s].vehicleId)) &&
            (forall k :: k in r.links ==> k.serviceId in r.services)
  {
  }

  /** Deleting a part leaves no link that names it. */
  lemma DeletePartLeavesNoOrphans(t: Tables, pid: int)
    requires LinksResolve(t)
    ensures var r := DeletePart(t, pid);
            pid !in r.parts && forall k :: k in r.links ==> k.partId != pid && k.partId in r.parts
  {
  }
}
