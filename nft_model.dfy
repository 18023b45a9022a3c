/** The NFT model: lookups and filters over the NFT table, and the
    insert of a new NFT. */
module NftModel {
  import opened Common
  import opened Ledger

  /** The fields createNFT passes to the store. The tags are strings, as
      the API takes them; tags left out take the column's default, the
      empty list. */
  datatype CreateNftArgs = CreateNftArgs(
    title: string,
    description: Option<string>,
    imageUrl: string,
    creatorId: int,
    tags: Option<seq<string>>)

  /** The tag list as the enum column reads it, in order: none when some
      string names no category. */
  function ParseTags(tags: seq<string>): (r: Option<seq<Category>>)
    ensures r.Some? <==> forall i :: 0 <= i < |tags| ==> ParseCategory(tags[i]).Some?
    ensures r.Some? ==> |r.value| == |tags| && forall i :: 0 <= i < |tags| ==> CategoryName(r.value[i]) == tags[i]
  {
    if tags == [] then Some([])
    else
      var first := ParseCategory(tags[0]);
      var rest := ParseTags(tags[1..]);
      if first.None? || rest.None? then None
      else
        assert forall i :: 1 <= i < |tags| ==> tags[i] == tags[1..][i - 1];
        Some([first.value] + rest.value)
  }

  /** The names of a list of categories, in order. */
  function TagNames(tags: seq<Category>): (r: seq<string>)
    ensures |r| == |tags| && forall i :: 0 <= i < |tags| ==> r[i] == CategoryName(tags[i])
  {
    if tags == [] then [] else [CategoryName(tags[0])] + TagNames(tags[1..])
  }

  /** Category names read back as the categories they name. */
  lemma {:induction false} ParseTagNames(tags: seq<Category>)
    ensures ParseTags(TagNames(tags)) == Some(tags)
  {
    if tags != [] {
      var names := TagNames(tags);
      ParseTagNames(tags[1..]);
      assert names[1..] == TagNames(tags[1..]);
      ParseCategoryName(tags[0]);
      ParseTagsUnfold(names, tags[0], tags[1..]);
      assert tags == [tags[0]] + tags[1..];
    }
  }

  /** One step of ParseTags: a readable first name before a readable
      rest. */
  lemma ParseTagsUnfold(names: seq<string>, first: Category, rest: seq<Category>)
    requires names != [] && ParseCategory(names[0]) == Some(first) && ParseTags(names[1..]) == Some(rest)
    ensures ParseTags(names) == Some([first] + rest)
  {
  }

  /** Every requested tag names a category. */
  predicate TagsParse(data: CreateNftArgs)
  {
    data.tags.Some? ==> ParseTags(data.tags.value).Some?
  }

  /** getNFTById: the row under `id`, or none. */
  function GetNftById(nfts: map<int, Nft>, id: int): (r: Option<Nft>)
    ensures r.None? <==> id !in nfts
    ensures r.Some? ==> r.value == nfts[id]
  {
    Get(nfts, id)
  }

  /** getNFTByCreatorId: the NFTs created by `id`, in row order. */
  function GetNftsByCreatorId(nfts: map<int, Nft>, rows: seq<int>, id: int): (r: seq<int>)
    ensures forall n :: n in r <==> n in rows && n in nfts && nfts[n].creatorId == id
    ensures IsSubsequence(r, rows)
  {
    Filter(rows, n => n in nfts && nfts[n].creatorId == id)
  }

  /** Two tag lists share an element (`hasSome`). */
  predicate SharesTag(a: seq<Category>, b: seq<Category>)
  {
    exists c :: c in a && c in b
  }

  /** getNFTCategories: the NFTs carrying at least one of `tags`, in row
      order. */
  function GetNftCategories(nfts: map<int, Nft>, rows: seq<int>, tags: seq<Category>): (r: seq<int>)
    ensures forall n :: n in r <==> n in rows && n in nfts && SharesTag(nfts[n].tags, tags)
    ensures IsSubsequence(r, rows)
  {
    Filter(rows, n => n in nfts && SharesTag(nfts[n].tags, tags))
  }

  /** Asking for more categories never loses an NFT. */
  lemma MoreCategoriesKeepNfts(nfts: map<int, Nft>, rows: seq<int>, tags: seq<Category>, more: seq<Category>)
    requires forall c :: c in tags ==> c in more
    ensures forall n :: n in GetNftCategories(nfts, rows, tags) ==> n in GetNftCategories(nfts, rows, more)
  {
    forall n | n in GetNftCategories(nfts, rows, tags)
      ensures n in GetNftCategories(nfts, rows, more)
    {
      var c :| c in nfts[n].tags && c in tags;
      assert c in more;
    }
  }

  /** getNFTs: every NFT, in row order. */
  function GetNfts(nfts: map<int, Nft>, rows: seq<int>): (r: seq<int>)
    ensures forall n :: n in r <==> n in rows && n in nfts
    ensures IsSubsequence(r, rows)
  {
    Filter(rows, n => n in nfts)
  }

  /** Over the store's row order the full list is the row order itself:
      every NFT exactly once. */
  lemma {:induction false} GetNftsListsEveryNft(nfts: map<int, Nft>, rows: seq<int>)
    requires RowOrder(rows, nfts)
    ensures GetNfts(nfts, rows) == rows
  {
    forall i | 0 <= i < |rows| ensures rows[i] in nfts {
      var n := rows[i];
      assert n in rows;
    }
    FilterKeepsAll(rows, n => n in nfts);
  }

  lemma {:induction false} FilterKeepsAll(rows: seq<int>, keep: int -> bool)
    requires forall i :: 0 <= i < |rows| ==> keep(rows[i])
    ensures Filter(rows, keep) == rows
  {
    if rows != [] {
      FilterKeepsAll(rows[1..], keep);
      assert rows == [rows[0]] + rows[1..];
    }
  }

  /** The row createNFT inserts; `ownerId` is the owner the store's
      schema gives a new NFT. */
  function NewNft(data: CreateNftArgs, ownerId: int): (r: Nft)
    requires TagsParse(data)
    ensures r.title == data.title && r.description == data.description && r.imageUrl == data.imageUrl
    ensures r.creatorId == data.creatorId && r.ownerId == ownerId
    ensures data.tags.Some? ==>
      |r.tags| == |data.tags.value| && forall i :: 0 <= i < |r.tags| ==> CategoryName(r.tags[i]) == data.tags.value[i]
    ensures data.tags.None? ==> r.tags == []
  {
    Nft(data.title, data.description, data.imageUrl, data.creatorId, ownerId,
        if data.tags.Some? then ParseTags(data.tags.value).value else [])
  }

  /** An NFT whose creator and owner exist, under a fresh positive id,
      keeps the store consistent. */
  lemma InsertNftKeepsConsistent(t: Tables, id: int, row: Nft)
    requires Consistent(t) && id >= 1 && id !in t.nfts
    requires row.creatorId in t.users && row.ownerId in t.users
    ensures Consistent(t.(nfts := t.nfts[id := row]))
  {
  }

  /** createNFT: inserts `NewNft(data, ownerId)` under the next id; the
      store refuses a tag that names no category and a creator or owner
      that does not exist. */
  method CreateNft(db: Db, data: CreateNftArgs, ownerId: int) returns (r: Result<int>)
    requires db.Valid()
    modifies db
    ensures db.Valid()
    ensures r.Ok? <==> TagsParse(data) && data.creatorId in old(db.users) && ownerId in old(db.users)
    ensures r.Ok? ==>
      && r.value == old(db.nextNftId) && r.value !in old(db.nfts)
      && db.Snapshot() == old(db.Snapshot()).(nfts := old(db.nfts)[r.value := NewNft(data, ownerId)])
    ensures r.Err? ==> r.error.code == StoreError && db.Snapshot() == old(db.Snapshot())
    ensures db.nextUserId == old(db.nextUserId) && db.nextAuctionId == old(db.nextAuctionId)
  {
    if !TagsParse(data) {
      return Err(Error(StoreError, "Invalid value for argument tags: expected Categories"));
    }
    if data.creatorId !in db.users || ownerId !in db.users {
      return Err(Error(StoreError, "Foreign key constraint violated"));
    }
    var id := db.nextNftId;
    InsertNftKeepsConsistent(db.Snapshot(), id, NewNft(data, ownerId));
    db.nfts := db.nfts[id := NewNft(data, ownerId)];
    db.nextNftId := db.nextNftId + 1;
    return Ok(id);
  }
}
