/** The NFT detail page of the client: the creator's other NFTs it lists,
    the live price it merges in, the bid form's check, and the countdown
    units it shows. */
module NftPage {
  import opened Common
  import opened Ledger
  import opened Text
  import BidModel
  import BidResolver
  import Countdown

  /** The auction as the page holds it: its id and row. */
  datatype ShownAuction = ShownAuction(id: int, auction: Auction)

  /** What the bid button does: show an error and stop, or send the bid. */
  datatype BidSubmission = Refused(message: string) | SendBid(args: BidModel.PlaceBidArgs)

  /** `creatorNftList.filter((n) => n.id !== id)`: the creator's other
      NFTs, by id, in the order fetched. */
  function OtherNfts(creatorNftIds: seq<int>, id: int): (r: seq<int>)
    ensures forall n :: n in r <==> n in creatorNftIds && n != id
    ensures IsSubsequence(r, creatorNftIds)
  {
    Filter(creatorNftIds, n => n != id)
  }

  /** The socket's price update: `{ ...prev, currentPrice }` when a price
      has arrived and an auction is shown. */
  function MergePrice(shown: Option<ShownAuction>, currentPrice: Option<int>): (r: Option<ShownAuction>)
    ensures r.Some? <==> shown.Some?
    ensures shown.Some? && currentPrice.Some? ==>
      r.value.id == shown.value.id && r.value.auction == shown.value.auction.(currentPrice := currentPrice.value)
    ensures currentPrice.None? ==> r == shown
  {
    if currentPrice.Some? && shown.Some? then
      Some(ShownAuction(shown.value.id, shown.value.auction.(currentPrice := currentPrice.value)))
    else shown
  }

  /** Merging the same price twice is merging it once. */
  lemma MergePriceIdempotent(shown: Option<ShownAuction>, currentPrice: Option<int>)
    ensures MergePrice(MergePrice(shown, currentPrice), currentPrice) == MergePrice(shown, currentPrice)
  {
  }

  const TooLowPrefix := "Bid must be higher than current price of "

  /** The message for a bid that is not above the shown price: it names
      that price, between the fixed text and the currency. */
  function TooLow(currentPrice: int): (r: string)
    ensures IsPrefix(TooLowPrefix, r) && |r| > |TooLowPrefix| + 4 && r[|r| - 4..] == " ETH"
    ensures r[|TooLowPrefix|..|r| - 4] == NumberText(currentPrice)
    ensures currentPrice >= 0 ==>
      (forall i :: |TooLowPrefix| <= i < |r| - 4 ==> IsDigit(r[i]))
      && DigitsValue(r[|TooLowPrefix|..|r| - 4]) == currentPrice
  {
    var price := NumberText(currentPrice);
    var r := TooLowPrefix + price + " ETH";
    assert r[|TooLowPrefix|..|r| - 4] == price;
    if currentPrice >= 0 then NatTextValue(currentPrice); r else r
  }

  /** handlePlaceBid's checks: `bidAmount` is the field's text and
      `parsed` its `parseFloat`. */
  function HandlePlaceBid(shown: Option<ShownAuction>, user: Option<int>, bidAmount: string, parsed: JsNumber): (r: BidSubmission)
    ensures r.SendBid? <==>
      && shown.Some? && user.Some? && bidAmount != []
      && parsed.Num? && parsed.value > shown.value.auction.currentPrice
    ensures r.SendBid? ==>
      r.args == BidModel.PlaceBidArgs(parsed.value, user.value, shown.value.id)
    ensures shown.None? || user.None? || bidAmount == [] ==> r == Refused("Please enter a valid bid amount")
    ensures shown.Some? && user.Some? && bidAmount != [] && r.Refused? ==>
      r.message == TooLow(shown.value.auction.currentPrice)
  {
    if shown.None? || user.None? || bidAmount == [] then Refused("Please enter a valid bid amount")
    else if parsed.NaN? || parsed.value <= shown.value.auction.currentPrice then
      Refused(TooLow(shown.value.auction.currentPrice))
    else SendBid(BidModel.PlaceBidArgs(parsed.value, user.value, shown.value.id))
  }

  /** A bid the page sends for a non-negative price and real ids has
      every field the server's placeBid requires. */
  lemma SentBidHasFields(shown: Option<ShownAuction>, user: Option<int>, bidAmount: string, parsed: JsNumber)
    requires HandlePlaceBid(shown, user, bidAmount, parsed).SendBid?
    requires shown.value.auction.currentPrice >= 0 && shown.value.id != 0 && user.value != 0
    ensures BidResolver.HasBidFields(HandlePlaceBid(shown, user, bidAmount, parsed).args)
  {
  }

  /** While the shown price is the server's minimum for the auction, a bid
      the page sends passes the server's amount check: it is above every
      stored bid on the auction, and above the start price when there is
      none. */
  lemma SentBidClearsServerMinimum(t: Tables, shown: Option<ShownAuction>, user: Option<int>, bidAmount: string, parsed: JsNumber)
    requires HandlePlaceBid(shown, user, bidAmount, parsed).SendBid?
    requires shown.value.auction.currentPrice ==
      BidResolver.MinBidAmount(t.bids, shown.value.id, shown.value.auction.startPrice)
    ensures var args := HandlePlaceBid(shown, user, bidAmount, parsed).args;
      && (forall i :: 0 <= i < |t.bids| && t.bids[i].auctionId == args.auctionId ==> t.bids[i].amount < args.amount)
      && args.amount > BidResolver.MinBidAmount(t.bids, args.auctionId, shown.value.auction.startPrice)
  {
  }

  /** The bid field after the request: cleared when the bid was placed,
      kept when it failed or was not sent. */
  function BidFieldAfter(bidAmount: string, submission: BidSubmission, placed: bool): (r: string)
    ensures r == [] <==> bidAmount == [] || (submission.SendBid? && placed)
  {
    if submission.SendBid? && placed then "" else bidAmount
  }

  /** The countdown boxes: hours, minutes and seconds. */
  function TimeUnits(t: Countdown.TimeRemaining): (r: seq<(int, string)>)
    ensures |r| == 3
    ensures r[0] == (t.hours, "Hours") && r[1] == (t.minutes, "Minutes") && r[2] == (t.seconds, "Seconds")
  {
    [(t.hours, "Hours"), (t.minutes, "Minutes"), (t.seconds, "Seconds")]
  }

  /** The days are not shown: an auction a whole day from its end shows
      the same boxes as one less than a second from it. */
  lemma DaysAreNotShown(now: int)
    ensures TimeUnits(Countdown.CalculateTimeRemaining(Some(now + Countdown.MsPerDay), now)) ==
            TimeUnits(Countdown.CalculateTimeRemaining(Some(now + 1), now))
    ensures Countdown.CalculateTimeRemaining(Some(now + Countdown.MsPerDay), now).days == 1
  {
  }
}
