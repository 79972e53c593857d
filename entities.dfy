/** The rows of the five tables and the name-to-class factory. */
module Entities {
  import opened Errors

  /** A float column (`price`, `cost`) carried as its IEEE-754 bit pattern. The model
      only stores and returns such values; it never computes with them. */
  type FloatBits = bv64

  datatype Client = Client(name: string, address: string, phone: string, email: string)

  /** `clientId` is a plain integer: the storage engine does not enforce the foreign key. */
  datatype Vehicle = Vehicle(make: string, model: string, year: int, plate: string, clientId: int)

  /** `vehicleId` is a plain integer for the same reason. */
  datatype Service = Service(description: string, cost: FloatBits, vehicleId: int)

  /** `stock` is an unbounded integer with no floor. */
  datatype Part = Part(name: string, price: FloatBits, stock: int)

  /** The composite primary key of a ServicePart row; the row itself holds a quantity. */
  datatype LinkKey = LinkKey(serviceId: int, partId: int)

  /** One entry of the list handed to the registration workflow. */
  datatype PartUse = PartUse(partId: int, quantity: int)

  /** The five mapped classes. */
  datatype ModelKind = ClientModel | VehicleModel | ServiceModel | PartModel | ServicePartModel

  /** The factory's own name-to-class table. */
  const Classes: map<string, ModelKind> :=
    map["Client" := ClientModel, "Vehicle" := VehicleModel, "Service" := ServiceModel,
        "Part" := PartModel, "ServicePart" := ServicePartModel]

  /** The class name under which each kind is registered. */
  function KindName(k: ModelKind): string {
    match k
    case ClientModel => "Client"
    case VehicleModel => "Vehicle"
    case ServiceModel => "Service"
    case PartModel => "Part"
    case ServicePartModel => "ServicePart"
  }

  /** Dispatch on a class name: one of the five kinds, or an error naming the unknown class. */
  function CreateModel(modelName: string): (r: Result<ModelKind>)
    ensures r.Success? <==> modelName in {"Client", "Vehicle", "Service", "Part", "ServicePart"}
    ensures r.Success? ==> KindName(r.value) == modelName
    ensures r.Failure? ==> r.error == UnknownModel(modelName)
  {
    if modelName !in Classes then Failure(UnknownModel(modelName))
    else Success(Classes[modelName])
  }

  /** Every kind is reachable from its own name, so the dispatch is onto. */
  lemma CreateModelRoundTrip(k: ModelKind)
    ensures CreateModel(KindName(k)) == Success(k)
  {
  }
}
