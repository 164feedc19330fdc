/** Votes, orders and messages of the two-phase commit between agencies and airlines. */
module Transactions {

  type TranId = string
  type Ppt = string       // address of an airline server
  type FlightId = string

  datatype Vote = NOT_DECIDED | COMMIT | ABORT

  datatype Order = Order(flightID: string, ppt: Ppt, amount: int)

  datatype Init = Init(tran: TranId, flightID: string, amount: int, tm: string)

  datatype Decision = Decision(tran: TranId, ppt: Ppt, outcome: Vote)

  /** One order per airline server. */
  ghost predicate DistinctParticipants(orders: seq<Order>) {
    forall j, k :: 0 <= j < k < |orders| ==> orders[j].ppt != orders[k].ppt
  }
}
