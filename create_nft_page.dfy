/** The create-NFT page of the client: the tag list it edits, the check
    before creating, the two requests it sends (the NFT, then its
    auction) and the cancel button. */
module CreateNftPage {
  import opened Common
  import opened Ledger
  import NftModel
  import AuctionModel
  import NftResolvers
  import AuctionResolver
  import Countdown

  /** The form's state. The image file and its preview are present or
      not; their contents are the browser's. */
  datatype CreateNftForm = CreateNftForm(
    nftName: string,
    price: string,
    auctionDuration: string,
    description: string,
    hasImage: bool,
    hasPreview: bool,
    tags: seq<Category>)

  const InitialForm := CreateNftForm("", "", "1 hour", "", false, false, [])

  /** handleCategorySelect: appends the category unless it is already
      there. */
  function SelectCategory(tags: seq<Category>, category: Category): (r: seq<Category>)
    ensures forall c :: c in r <==> c in tags || c == category
    ensures NoDuplicates(tags) ==> NoDuplicates(r)
    ensures |r| >= |tags| && r[..|tags|] == tags
  {
    if category in tags then tags else tags + [category]
  }

  /** handleDeleteTag: removes the tag, keeping the others in order. */
  function DeleteTag(tags: seq<Category>, tag: Category): (r: seq<Category>)
    ensures forall c :: c in r <==> c in tags && c != tag
    ensures IsSubsequence(r, tags)
  {
    if tags == [] then []
    else if tags[0] == tag then
      var rest := DeleteTag(tags[1..], tag);
      assert rest != [] ==> rest[0] in rest;
      rest
    else [tags[0]] + DeleteTag(tags[1..], tag)
  }

  /** Deleting a tag that is not there changes nothing. */
  lemma {:induction false} DeleteAbsentTag(tags: seq<Category>, tag: Category)
    requires tag !in tags
    ensures DeleteTag(tags, tag) == tags
  {
    if tags != [] {
      DeleteAbsentTag(tags[1..], tag);
      assert tags == [tags[0]] + tags[1..];
    }
  }

  /** Deleting a tag just selected restores the list before it. */
  lemma {:induction false} DeleteUndoesSelect(tags: seq<Category>, category: Category)
    requires category !in tags
    ensures DeleteTag(SelectCategory(tags, category), category) == tags
  {
    DeleteAppended(tags, category);
    DeleteAbsentTag(tags, category);
  }

  lemma {:induction false} DeleteAppended(tags: seq<Category>, tag: Category)
    ensures DeleteTag(tags + [tag], tag) == DeleteTag(tags, tag)
  {
    if tags == [] {
      assert DeleteTag([tag], tag) == DeleteTag([tag][1..], tag);
    } else {
      assert (tags + [tag])[1..] == tags[1..] + [tag];
      DeleteAppended(tags[1..], tag);
    }
  }

  /** handleCreate's guard: an image, a signed-in user, a name, at least
      one tag, a price and a duration. */
  predicate CanCreate(form: CreateNftForm, user: Option<int>)
  {
    form.hasImage && user.Some? && form.nftName != [] && form.tags != [] && form.price != [] && form.auctionDuration != []
  }

  /** `durationMap[auctionDuration] || 1`. */
  function DurationHours(auctionDuration: string): (r: int)
    ensures r == 1 || r == 4 || r == 8 || r == 12
    ensures auctionDuration != "4 hours" && auctionDuration != "8 hours" && auctionDuration != "12 hours" ==> r == 1
    ensures auctionDuration == "1 hour" ==> r == 1
    ensures auctionDuration == "4 hours" ==> r == 4
    ensures auctionDuration == "8 hours" ==> r == 8
    ensures auctionDuration == "12 hours" ==> r == 12
  {
    if auctionDuration == "1 hour" then 1
    else if auctionDuration == "4 hours" then 4
    else if auctionDuration == "8 hours" then 8
    else if auctionDuration == "12 hours" then 12
    else 1
  }

  /** The NFT request: the form's fields, the uploaded image's URL, the
      user as creator, and the tags by their enum names. */
  function NftRequest(form: CreateNftForm, imageUrl: string, userId: int): (r: NftModel.CreateNftArgs)
    ensures r.title == form.nftName && r.description == Some(form.description) && r.imageUrl == imageUrl
    ensures r.creatorId == userId && r.tags == Some(NftModel.TagNames(form.tags))
  {
    NftModel.CreateNftArgs(form.nftName, Some(form.description), imageUrl, userId, Some(NftModel.TagNames(form.tags)))
  }

  /** The auction request sent once the NFT exists: it starts now at the
      parsed price and ends the chosen number of hours later. Both times
      are `Date`s, sent as ISO strings the store reads back. */
  function AuctionRequest(nftId: int, startPrice: int, now: int, auctionDuration: string): (r: AuctionModel.CreateAuctionArgs)
    ensures r.nftId == nftId && r.startPrice == startPrice && r.isActive.None?
    ensures r.startTime == AuctionModel.Parsed(now)
    ensures r.endTime == AuctionModel.Parsed(now + DurationHours(auctionDuration) * Countdown.MsPerHour)
    ensures r.endTime.ms - r.startTime.ms >= Countdown.MsPerHour
  {
    AuctionModel.CreateAuctionArgs(nftId, startPrice, AuctionModel.Parsed(now),
                                   AuctionModel.Parsed(now + DurationHours(auctionDuration) * Countdown.MsPerHour), None)
  }

  /** A form that may be created yields an NFT request the server's
      createNFT checks accept, whose tags the store reads back as the
      categories chosen on the form. */
  lemma NftRequestPassesServerChecks(form: CreateNftForm, user: Option<int>, imageUrl: string, ownerId: int)
    requires CanCreate(form, user) && user.value != 0 && imageUrl != []
    ensures NftResolvers.HasNftFields(NftRequest(form, imageUrl, user.value))
    ensures NftModel.TagsParse(NftRequest(form, imageUrl, user.value))
    ensures NftModel.NewNft(NftRequest(form, imageUrl, user.value), ownerId).tags == form.tags
  {
    NftModel.ParseTagNames(form.tags);
  }

  /** The auction request passes the server's createAuction checks
      whenever the NFT id and the price are non-zero; the store reads its
      times, and the server opens the auction. */
  lemma AuctionRequestPassesServerChecks(nftId: int, startPrice: int, now: int, auctionDuration: string)
    requires nftId != 0 && startPrice != 0
    ensures AuctionResolver.HasAuctionFields(AuctionRequest(nftId, startPrice, now, auctionDuration))
    ensures AuctionModel.CreateTimesParse(AuctionRequest(nftId, startPrice, now, auctionDuration))
    ensures AuctionModel.NewAuction(AuctionRequest(nftId, startPrice, now, auctionDuration)).isActive
  {
  }

  /** handleCancel: clears every other field and selects "1 day". */
  function Cancel(form: CreateNftForm): (r: CreateNftForm)
    ensures r.nftName == r.price == r.description == [] && r.tags == []
    ensures r.auctionDuration == "1 day"
    ensures !r.hasImage && !r.hasPreview
  {
    CreateNftForm("", "", "1 day", "", false, false, [])
  }

  /** "1 day" is not a duration the map knows: after a cancel, a form
      completed without choosing a duration again runs for one hour. */
  lemma CancelledDurationIsOneHour(form: CreateNftForm, user: Option<int>)
    ensures Cancel(form).auctionDuration == "1 day"
    ensures DurationHours(Cancel(form).auctionDuration) == 1
    ensures !CanCreate(Cancel(form), user)
  {
  }
}
