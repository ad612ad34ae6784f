/** A facility as the pages and the booking form hold it. */
module FacilityCards {
  datatype FacilityCard = FacilityCard(
    id: int,
    name: string,
    kind: string,
    description: string,
    image: string,
    capacity: nat,
    rate: int,
    features: seq<string>)
}
