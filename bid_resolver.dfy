/** The placeBid resolver: its ordered checks on the request and the
    store, and, when they all pass, its two writes (the bid, then the
    auction's current price). */
module BidResolver {
  import opened Common
  import opened Ledger
  import opened Text
  import opened BidModel
  import opened AuctionModel

  const FailurePrefix := "Failed to create bid. "

  /** `!amount || !auctionId || !bidderId` is false: all three are set
      and non-zero. */
  predicate HasBidFields(data: PlaceBidArgs)
  {
    data.amount != 0 && data.auctionId != 0 && data.bidderId != 0
  }

  /** An error thrown inside the resolver's `try`, as its `catch`
      re-throws it: the code becomes SERVER_ERROR and the message gets a
      prefix. */
  function Failed(message: string): (e: Error)
    ensures e.code == ServerError && IsPrefix(FailurePrefix, e.message)
    ensures e.message[|FailurePrefix|..] == message
  {
    Error(ServerError, FailurePrefix + message)
  }

  /** The amount a new bid must exceed: the highest bid's amount, or the
      start price while the auction has no bid. */
  function MinBidAmount(bids: seq<Bid>, auctionId: int, startPrice: int): (r: int)
    ensures HighestBid(bids, auctionId).None? ==> r == startPrice
    ensures HighestBid(bids, auctionId).Some? ==> r == HighestBid(bids, auctionId).value.amount
    ensures forall i :: 0 <= i < |bids| && bids[i].auctionId == auctionId ==> bids[i].amount <= r
  {
    var highestBid := HighestBid(bids, auctionId);
    if highestBid.Some? then highestBid.value.amount else startPrice
  }

  /** The checks of placeBid in the source's order: the error it throws,
      or none when the bid is accepted. */
  function CheckBid(t: Tables, data: PlaceBidArgs): (r: Option<Error>)
    ensures !HasBidFields(data) ==> r == Some(Error(BadRequest, "Missing bid fields."))
    ensures HasBidFields(data) && r.Some? ==> r.value.code == ServerError && IsPrefix(FailurePrefix, r.value.message)
  {
    if !HasBidFields(data) then Some(Error(BadRequest, "Missing bid fields."))
    else
      var auction := GetAuctionById(t.auctions, data.auctionId);
      if auction.None? || !auction.value.isActive then Some(Failed("Auction not found or not active."))
      else
        var user := Get(t.users, data.bidderId);
        if user.None? then Some(Failed("User not found while attempting to place bid."))
        else if user.value.walletBalance - user.value.bidsTotal < data.amount then
          Some(Failed("Insufficient wallet balance."))
        else
          var minBidAmount := MinBidAmount(t.bids, data.auctionId, auction.value.startPrice);
          if data.amount <= minBidAmount then
            Some(Failed("Bid amount must be higher than " + NumberText(minBidAmount) + " ETH"))
          else None
  }

  /** When a bid is acceptable, stated without the highest-bid query: the
      auction exists and is active, the bidder exists and has at least
      the amount available beyond what is already committed, and the
      amount is above every bid on the auction, or above the start price
      while there is none. */
  ghost predicate Acceptable(t: Tables, data: PlaceBidArgs)
  {
    && HasBidFields(data)
    && data.auctionId in t.auctions && t.auctions[data.auctionId].isActive
    && data.bidderId in t.users
    && t.users[data.bidderId].walletBalance - t.users[data.bidderId].bidsTotal >= data.amount
    && (forall i :: 0 <= i < |t.bids| && t.bids[i].auctionId == data.auctionId ==> t.bids[i].amount < data.amount)
    && ((forall i :: 0 <= i < |t.bids| ==> t.bids[i].auctionId != data.auctionId) ==>
          data.amount > t.auctions[data.auctionId].startPrice)
  }

  /** The checks accept a bid exactly when it is acceptable. */
  lemma CheckBidAccepts(t: Tables, data: PlaceBidArgs)
    ensures CheckBid(t, data).None? <==> Acceptable(t, data)
  {
    if Acceptable(t, data) {
      var k := HighestBidIndex(t.bids, |t.bids|, data.auctionId);
      if k.Some? {
        assert t.bids[k.value].amount < data.amount;
      }
    }
  }

  /** The checks read neither the current price nor the end time of the
      auction: an auction past its end that the sweep has not closed yet
      still takes bids. */
  lemma CheckBidIgnoresPriceAndEnd(t: Tables, data: PlaceBidArgs, id: int, price: int, end: int)
    requires id in t.auctions
    ensures CheckBid(t.(auctions := t.auctions[id := t.auctions[id].(currentPrice := price, endTime := end)]), data)
         == CheckBid(t, data)
  {
  }

  /** A request missing a field is refused the same way whatever the
      store holds. */
  lemma MissingFieldIgnoresStore(t: Tables, t': Tables, data: PlaceBidArgs)
    requires !HasBidFields(data)
    ensures CheckBid(t, data) == CheckBid(t', data) && CheckBid(t, data).value.code == BadRequest
  {
  }

  /** An accepted bid is above every earlier bid on its auction, so once
      it is stored it is the auction's highest bid. */
  lemma AcceptedBidIsHighest(t: Tables, data: PlaceBidArgs)
    requires CheckBid(t, data).None?
    ensures var bid := Bid(|t.bids| + 1, data.auctionId, data.bidderId, data.amount);
      HighestBid(t.bids + [bid], data.auctionId) == Some(bid)
  {
    CheckBidAccepts(t, data);
    var bid := Bid(|t.bids| + 1, data.auctionId, data.bidderId, data.amount);
    var bids := t.bids + [bid];
    var rest := HighestBidIndex(bids, |t.bids|, data.auctionId);
    if rest.Some? {
      assert bids[rest.value] == t.bids[rest.value];
    }
  }

  /** placeBid: refuses the request with the error `CheckBid` names and
      writes nothing, or appends exactly one bid with the given fields
      and sets the auction's current price to the amount. No user, no
      NFT and no other auction field changes; in particular the bidder's
      `bidsTotal` stays as it was. */
  method PlaceBid(db: Db, data: PlaceBidArgs) returns (r: Result<Bid>)
    requires db.Valid()
    modifies db
    ensures db.Valid()
    ensures r.Err? <==> CheckBid(old(db.Snapshot()), data).Some?
    ensures r.Err? ==> r.error == CheckBid(old(db.Snapshot()), data).value && db.Snapshot() == old(db.Snapshot())
    ensures r.Ok? ==>
      && r.value == Bid(|old(db.bids)| + 1, data.auctionId, data.bidderId, data.amount)
      && db.bids == old(db.bids) + [r.value]
      && db.auctions == old(db.auctions)[data.auctionId := old(db.auctions)[data.auctionId].(currentPrice := data.amount)]
      && db.users == old(db.users) && db.nfts == old(db.nfts)
    ensures db.nextUserId == old(db.nextUserId) && db.nextNftId == old(db.nextNftId)
    ensures db.nextAuctionId == old(db.nextAuctionId)
  {
    var refusal := CheckBid(db.Snapshot(), data);
    if refusal.Some? {
      return Err(refusal.value);
    }
    ghost var auctions0 := db.auctions;
    var createdBid := BidModel.PlaceBid(db, data);
    assert createdBid.Ok?;
    var updated := UpdateAuction(db, data.auctionId, UpdateAuctionInput(Given(data.amount), Absent, Absent));
    assert updated.Ok?;
    assert updated.value == auctions0[data.auctionId].(currentPrice := data.amount);
    return Ok(createdBid.value);
  }
}
