/** The NFT resolvers: the argument checks of createNFT and of the
    category query, each followed by a single call into the NFT model. */
module NftResolvers {
  import opened Common
  import opened Ledger
  import opened Text
  import NftModel

  const CreateFailurePrefix := "Failed to create NFT. "

  /** createNFT's `!title || !imageUrl || !creatorId || !tags ||
      tags.length === 0` is false. */
  predicate HasNftFields(data: NftModel.CreateNftArgs)
  {
    data.title != [] && data.imageUrl != [] && data.creatorId != 0 && data.tags.Some? && data.tags.value != []
  }

  /** createNFT: refuses a request with a missing field or no tag before
      any store access; otherwise passes the request unchanged to the
      model, turning a store failure, a tag that names no category among
      them, into SERVER_ERROR. `ownerId` is the
      owner the store gives a new NFT. */
  method CreateNft(db: Db, data: NftModel.CreateNftArgs, ownerId: int) returns (r: Result<int>)
    requires db.Valid()
    modifies db
    ensures db.Valid()
    ensures !HasNftFields(data) ==>
      r == Err(Error(BadRequest, "Missing required NFT fields.")) && db.Snapshot() == old(db.Snapshot())
    ensures HasNftFields(data) ==>
      (r.Ok? <==> NftModel.TagsParse(data) && data.creatorId in old(db.users) && ownerId in old(db.users))
    ensures r.Ok? ==>
      && r.value !in old(db.nfts)
      && db.Snapshot() == old(db.Snapshot()).(nfts := old(db.nfts)[r.value := NftModel.NewNft(data, ownerId)])
    ensures HasNftFields(data) && r.Err? ==>
      && r.error.code == ServerError && IsPrefix(CreateFailurePrefix, r.error.message)
      && db.Snapshot() == old(db.Snapshot())
    ensures db.nextUserId == old(db.nextUserId) && db.nextAuctionId == old(db.nextAuctionId)
  {
    if data.title == [] || data.imageUrl == [] || data.creatorId == 0 || data.tags.None? || |data.tags.value| == 0 {
      return Err(Error(BadRequest, "Missing required NFT fields."));
    }
    var created := NftModel.CreateNft(db, data, ownerId);
    if created.Err? {
      return Err(Error(ServerError, CreateFailurePrefix + created.error.message));
    }
    return Ok(created.value);
  }

  /** A stored NFT created through the resolver carries at least one tag,
      the categories the requested strings name, in order. */
  lemma CreatedNftHasTags(data: NftModel.CreateNftArgs, ownerId: int)
    requires HasNftFields(data) && NftModel.TagsParse(data)
    ensures NftModel.TagNames(NftModel.NewNft(data, ownerId).tags) == data.tags.value
    ensures |NftModel.NewNft(data, ownerId).tags| > 0
  {
  }

  /** A tag spelled in lower case passes the resolver's check, but names
      no category, so the store refuses the NFT. */
  lemma LowerCaseTagPassesCheckOnly(title: string, imageUrl: string, creatorId: int)
    requires title != [] && imageUrl != [] && creatorId != 0
    ensures var data := NftModel.CreateNftArgs(title, None, imageUrl, creatorId, Some(["art"]));
      HasNftFields(data) && !NftModel.TagsParse(data)
  {
    assert ParseCategory("art").None?;
  }

  /** getNFTByCategories: a missing or empty category list is refused;
      otherwise the NFTs sharing a tag with the list, in row order. */
  function GetNftByCategories(nfts: map<int, Nft>, rows: seq<int>, data: Option<seq<Category>>): (r: Result<seq<int>>)
    ensures r.Err? <==> data.None? || data.value == []
    ensures r.Err? ==> r.error == Error(BadRequest, "At least one category must be provided.")
    ensures r.Ok? ==> forall n :: n in r.value <==> n in rows && n in nfts && NftModel.SharesTag(nfts[n].tags, data.value)
    ensures r.Ok? ==> IsSubsequence(r.value, rows)
  {
    if data.None? || |data.value| == 0 then Err(Error(BadRequest, "At least one category must be provided."))
    else Ok(NftModel.GetNftCategories(nfts, rows, data.value))
  }
}
