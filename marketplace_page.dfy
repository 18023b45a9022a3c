/** The marketplace page of the client: the filter it applies to the
    fetched NFT list. */
module MarketplacePage {
  import opened Common
  import opened Text

  /** An NFT as the page receives it. `tags` may be missing. */
  datatype CardNft = CardNft(name: string, tags: Option<seq<string>>, isActive: bool)

  /** `category === '' || nft.tags?.some(tag => tag.toUpperCase() ===
      category.toUpperCase())`. */
  predicate MatchesCategory(nft: CardNft, category: string)
  {
    category == [] || (nft.tags.Some? && exists tag :: tag in nft.tags.value && ToUpper(tag) == ToUpper(category))
  }

  /** The filter's three conditions. */
  predicate Matches(nft: CardNft, searchText: string, category: string, isAlive: bool)
  {
    && Contains(ToLower(nft.name), ToLower(searchText))
    && MatchesCategory(nft, category)
    && (!isAlive || nft.isActive)
  }

  /** filteredNFTs: the fetched NFTs that match, in the fetched order. */
  function FilteredNfts(nfts: seq<CardNft>, searchText: string, category: string, isAlive: bool): (r: seq<CardNft>)
    ensures forall x :: x in r <==> x in nfts && Matches(x, searchText, category, isAlive)
    ensures IsSubsequence(r, nfts)
    ensures forall x :: multiset(r)[x] == if Matches(x, searchText, category, isAlive) then multiset(nfts)[x] else 0
  {
    if nfts == [] then []
    else
      assert nfts == [nfts[0]] + nfts[1..];
      if Matches(nfts[0], searchText, category, isAlive) then
        [nfts[0]] + FilteredNfts(nfts[1..], searchText, category, isAlive)
      else FilteredNfts(nfts[1..], searchText, category, isAlive)
  }

  /** The empty string occurs in every string, so an empty search matches
      every name. */
  lemma EmptySearchMatchesEveryName(name: string)
    ensures Contains(ToLower(name), ToLower(""))
  {
    assert ToLower("") == "";
    assert IsPrefix("", ToLower(name));
  }

  /** With no search text, no category and the live toggle off, the page
      shows the whole list. */
  lemma {:induction false} NoFilterShowsAll(nfts: seq<CardNft>)
    ensures FilteredNfts(nfts, "", "", false) == nfts
  {
    if nfts != [] {
      EmptySearchMatchesEveryName(nfts[0].name);
      NoFilterShowsAll(nfts[1..]);
      assert nfts == [nfts[0]] + nfts[1..];
    }
  }

  /** Turning the live toggle on only ever hides NFTs. */
  lemma LiveToggleOnlyHides(nfts: seq<CardNft>, searchText: string, category: string)
    ensures forall x :: x in FilteredNfts(nfts, searchText, category, true) ==>
      x in FilteredNfts(nfts, searchText, category, false) && x.isActive
  {
  }

  /** The category comparison ignores ASCII case on both sides: an NFT
      with a tag that differs from the category only in case matches it
      ("art" matches "ART" and "Art"). */
  lemma CategoryIgnoresCase(name: string, tags: seq<string>, tag: string, category: string, isActive: bool)
    requires tag in tags && ToLower(tag) == ToLower(category)
    ensures MatchesCategory(CardNft(name, Some(tags), isActive), category)
  {
    UpperIgnoresLower(tag);
    UpperIgnoresLower(category);
    assert ToUpper(tag) == ToUpper(category);
  }

  /** Upper-casing a string gives the same text whether or not it was
      lower-cased first. */
  lemma UpperIgnoresLower(s: string)
    ensures ToUpper(ToLower(s)) == ToUpper(s)
  {
    forall i | 0 <= i < |s|
      ensures ToUpper(ToLower(s))[i] == ToUpper(s)[i]
    {
      assert ToLower(s)[i] == LowerChar(s[i]);
    }
  }
}
