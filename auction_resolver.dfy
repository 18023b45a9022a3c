/** The auction resolvers: the argument checks of createAuction and
    updateAuction, and the single store write each performs once its
    checks pass. */
module AuctionResolver {
  import opened Common
  import opened Ledger
  import opened Text
  import AuctionModel

  /** createAuction's `!nftId || !startPrice || !startTime || !endTime`
      is false: only the empty string makes a time falsy, so a time the
      store cannot read passes. */
  predicate HasAuctionFields(data: AuctionModel.CreateAuctionArgs)
  {
    && data.nftId != 0 && data.startPrice != 0
    && AuctionModel.TruthyTime(data.startTime) && AuctionModel.TruthyTime(data.endTime)
  }

  const CreateFailurePrefix := "Failed to create Auction. "
  const UpdateFailurePrefix := "Failed to update auction. "

  /** createAuction: refuses a request with a missing field before any
      store access; otherwise inserts the auction, turning a store
      failure, a time that is not a date among them, into SERVER_ERROR.
      The two times are not compared with each other nor with the
      present. */
  method CreateAuction(db: Db, data: AuctionModel.CreateAuctionArgs) returns (r: Result<int>)
    requires db.Valid()
    modifies db
    ensures db.Valid()
    ensures !HasAuctionFields(data) ==>
      r == Err(Error(BadRequest, "Missing required auction fields.")) && db.Snapshot() == old(db.Snapshot())
    ensures HasAuctionFields(data) ==>
      (r.Ok? <==>
        && AuctionModel.CreateTimesParse(data) && data.nftId in old(db.nfts)
        && forall a :: a in old(db.auctions) ==> old(db.auctions)[a].nftId != data.nftId)
    ensures r.Ok? ==>
      db.Snapshot() == old(db.Snapshot()).(auctions := old(db.auctions)[r.value := AuctionModel.NewAuction(data)])
    ensures HasAuctionFields(data) && r.Err? ==>
      && r.error.code == ServerError && IsPrefix(CreateFailurePrefix, r.error.message)
      && db.Snapshot() == old(db.Snapshot())
    ensures db.nextUserId == old(db.nextUserId) && db.nextNftId == old(db.nextNftId)
  {
    if !HasAuctionFields(data) {
      return Err(Error(BadRequest, "Missing required auction fields."));
    }
    var created := AuctionModel.CreateAuction(db, data);
    if created.Err? {
      return Err(Error(ServerError, CreateFailurePrefix + created.error.message));
    }
    return Ok(created.value);
  }

  /** A request accepted for one pair of times is accepted for any other
      pair of dates, an end before the start or in the past included, and
      for any non-empty strings the store cannot read. */
  lemma CreateAuctionAcceptsAnyTimes(data: AuctionModel.CreateAuctionArgs, start: int, end: int, text: string)
    requires HasAuctionFields(data) && text != []
    ensures HasAuctionFields(data.(startTime := AuctionModel.Parsed(start), endTime := AuctionModel.Parsed(end)))
    ensures HasAuctionFields(data.(startTime := AuctionModel.Unparsable(text)))
    ensures !HasAuctionFields(data.(endTime := AuctionModel.Unparsable("")))
  {
  }

  /** The input of updateAuction: the auction's id beside the optional
      fields. */
  datatype UpdateAuctionRequest = UpdateAuctionRequest(
    id: int,
    currentPrice: Field<int>,
    endTime: Field<AuctionModel.TimeText>,
    isActive: Field<bool>)

  /** JavaScript truthiness of an optional number: given and non-zero. */
  predicate Truthy(f: Field<int>)
  {
    f.Given? && f.value != 0
  }

  /** JavaScript truthiness of an optional time: given and not empty. */
  predicate TruthyEnd(f: Field<AuctionModel.TimeText>)
  {
    f.Given? && AuctionModel.TruthyTime(f.value)
  }

  /** The fields of the request that reach the store. */
  function UpdateOf(data: UpdateAuctionRequest): (r: AuctionModel.UpdateAuctionInput)
    ensures r.currentPrice == data.currentPrice && r.endTime == data.endTime && r.isActive == data.isActive
  {
    AuctionModel.UpdateAuctionInput(data.currentPrice, data.endTime, data.isActive)
  }

  /** updateAuction's checks in the source's order: a zero id is refused
      outside the `try`; an unknown auction and a request with nothing to
      update are refused inside it, so they reach the caller as
      SERVER_ERROR. */
  function CheckAuctionUpdate(auctions: map<int, Auction>, data: UpdateAuctionRequest): (r: Option<Error>)
    ensures data.id == 0 ==> r == Some(Error(BadRequest, "Missing required id field."))
    ensures data.id != 0 && r.Some? ==> r.value.code == ServerError && IsPrefix(UpdateFailurePrefix, r.value.message)
    ensures data.id != 0 && data.id !in auctions ==> r.Some?
  {
    if data.id == 0 then Some(Error(BadRequest, "Missing required id field."))
    else if data.id !in auctions then Some(Error(ServerError, UpdateFailurePrefix + "Auction not found."))
    else if !Truthy(data.currentPrice) && !TruthyEnd(data.endTime) && data.isActive == Absent then
      Some(Error(ServerError, UpdateFailurePrefix + "At least one field must be provided to update."))
    else None
  }

  /** The request is accepted exactly when it names an existing auction
      and carries a truthy price, a truthy end time, or any isActive,
      `null` included. */
  lemma CheckAuctionUpdateAccepts(auctions: map<int, Auction>, data: UpdateAuctionRequest)
    ensures CheckAuctionUpdate(auctions, data).None? <==>
      && data.id != 0 && data.id in auctions
      && (Truthy(data.currentPrice) || TruthyEnd(data.endTime) || !data.isActive.Absent?)
  {
  }

  /** Nothing keeps the price from falling or a closed auction from
      reopening: any non-zero price and any isActive value are accepted
      and written as given. */
  lemma UpdateAuctionHasNoGuard(auctions: map<int, Auction>, id: int, price: int, active: bool)
    requires id != 0 && id in auctions && price != 0
    ensures var data := UpdateAuctionRequest(id, Given(price), Absent, Given(active));
      && CheckAuctionUpdate(auctions, data).None?
      && AuctionModel.ApplyAuctionUpdate(auctions[id], UpdateOf(data)).currentPrice == price
      && AuctionModel.ApplyAuctionUpdate(auctions[id], UpdateOf(data)).isActive == active
  {
  }

  /** A request whose only field is `isActive: null` passes the check,
      yet the store keeps every field as it was. */
  lemma NullIsActiveChangesNothing(auctions: map<int, Auction>, id: int)
    requires id != 0 && id in auctions
    ensures var data := UpdateAuctionRequest(id, Absent, Absent, Null);
      && CheckAuctionUpdate(auctions, data).None?
      && AuctionModel.ApplyAuctionUpdate(auctions[id], UpdateOf(data)) == auctions[id]
  {
  }

  /** An empty end time beside a truthy price passes the check, but the
      store cannot read it: the update fails and the row keeps its end. */
  lemma EmptyEndTimePassesCheck(auctions: map<int, Auction>, id: int, price: int)
    requires id != 0 && id in auctions && price != 0
    ensures var data := UpdateAuctionRequest(id, Given(price), Given(AuctionModel.Unparsable("")), Absent);
      && CheckAuctionUpdate(auctions, data).None?
      && !AuctionModel.UpdateTimeParses(UpdateOf(data))
  {
  }

  /** updateAuction: refuses the request with the error
      `CheckAuctionUpdate` names and writes nothing; refuses, as
      SERVER_ERROR and writing nothing, an end time the store cannot read;
      or rewrites the auction's given fields and returns the new row. */
  method UpdateAuction(db: Db, data: UpdateAuctionRequest) returns (r: Result<Auction>)
    requires db.Valid()
    modifies db
    ensures db.Valid()
    ensures r.Err? <==> CheckAuctionUpdate(old(db.auctions), data).Some? || !AuctionModel.UpdateTimeParses(UpdateOf(data))
    ensures r.Err? ==> db.Snapshot() == old(db.Snapshot())
    ensures CheckAuctionUpdate(old(db.auctions), data).Some? ==> r.error == CheckAuctionUpdate(old(db.auctions), data).value
    ensures CheckAuctionUpdate(old(db.auctions), data).None? && r.Err? ==>
      r.error.code == ServerError && IsPrefix(UpdateFailurePrefix, r.error.message)
    ensures r.Ok? ==>
      && r.value == AuctionModel.ApplyAuctionUpdate(old(db.auctions)[data.id], UpdateOf(data))
      && db.Snapshot() == old(db.Snapshot()).(auctions := old(db.auctions)[data.id := r.value])
    ensures db.nextUserId == old(db.nextUserId) && db.nextNftId == old(db.nextNftId)
    ensures db.nextAuctionId == old(db.nextAuctionId)
  {
    var refusal := CheckAuctionUpdate(db.auctions, data);
    if refusal.Some? {
      return Err(refusal.value);
    }
    var updated := AuctionModel.UpdateAuction(db, data.id, UpdateOf(data));
    if updated.Err? {
      return Err(Error(ServerError, UpdateFailurePrefix + updated.error.message));
    }
    return Ok(updated.value);
  }
}
