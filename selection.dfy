/**
 * AddNftsToShowcaseScreen: the candidate pool is the wallet's NFTs, the
 * initial selection is the pool filtered by the showcase's stored
 * addresses, each click toggles one NFT by address, and Save hands the
 * selection list over as held.
 */
module Selection {
  import opened Wrappers
  import opened Nfts
  import opened Seqs

  /** The addresses of a list of NFTs, in order. */
  function Addresses(s: seq<Nft>): (r: seq<string>)
    ensures |r| == |s|
    ensures forall i | 0 <= i < |s| :: r[i] == s[i].address
  {
    if s == [] then [] else [s[0].address] + Addresses(s[1..])
  }

  /** `response.data.nfts || []`. */
  function CandidatePool(nfts: Option<seq<Nft>>): seq<Nft> {
    nfts.GetOr([])
  }

  /** The set `existingNftAddresses`: the `nft_address` of every stored member. */
  function StoredAddresses(members: Option<seq<ShowcaseNft>>): (r: set<string>)
    ensures members.None? ==> r == {}
    ensures members.Some? ==> forall a :: a in r <==> exists m :: m in members.value && m.nftAddress == a
  {
    match members
    case None => {}
    case Some(ms) => set m | m in ms :: m.nftAddress
  }

  /** `userNfts.filter(nft => existingNftAddresses.has(nft.address))`. */
  function KeepStored(pool: seq<Nft>, stored: set<string>): seq<Nft> {
    if pool == [] then []
    else (if pool[0].address in stored then [pool[0]] else []) + KeepStored(pool[1..], stored)
  }

  /** `prev.filter(item => item.address !== address)`. */
  function RemoveAddress(s: seq<Nft>, address: string): seq<Nft> {
    if s == [] then []
    else (if s[0].address == address then [] else [s[0]]) + RemoveAddress(s[1..], address)
  }

  /** `handleSelectNft`: drop every entry with the clicked address, or append the clicked NFT. */
  function Toggle(selected: seq<Nft>, nft: Nft): seq<Nft> {
    if nft.address in Addresses(selected) then RemoveAddress(selected, nft.address)
    else selected + [nft]
  }

  /** `r` is `s` with some elements left out, the rest kept in order. */
  ghost predicate SubsequenceOf(r: seq<Nft>, s: seq<Nft>)
    decreases |s|
  {
    if r == [] then true
    else if s == [] then false
    else (r[0] == s[0] && SubsequenceOf(r[1..], s[1..])) || SubsequenceOf(r, s[1..])
  }

  // ---------------------------------------------------------------------
  // The initial selection

  /**
   * The initial selection holds exactly the pool items whose address is
   * stored, in pool order.
   */
  lemma {:induction false} InitialSelectionIsStoredPart(pool: seq<Nft>, stored: set<string>)
    ensures forall x :: x in KeepStored(pool, stored) <==> x in pool && x.address in stored
    ensures SubsequenceOf(KeepStored(pool, stored), pool)
  {
    if pool != [] {
      InitialSelectionIsStoredPart(pool[1..], stored);
      var rest := KeepStored(pool[1..], stored);
      if pool[0].address in stored {
        assert ([pool[0]] + rest)[1..] == rest;
      } else {
        assert KeepStored(pool, stored) == rest;
        SubsequenceOfTail(rest, pool);
      }
    }
  }

  lemma SubsequenceOfTail(r: seq<Nft>, s: seq<Nft>)
    requires s != [] && SubsequenceOf(r, s[1..])
    ensures SubsequenceOf(r, s)
  {
  }

  /** With no stored members, or none held by the wallet, nothing starts selected. */
  lemma {:induction false} InitialSelectionEmpty(pool: seq<Nft>, members: Option<seq<ShowcaseNft>>)
    requires forall x | x in pool :: x.address !in StoredAddresses(members)
    ensures KeepStored(pool, StoredAddresses(members)) == []
  {
    if pool != [] {
      InitialSelectionEmpty(pool[1..], members);
    }
  }

  // ---------------------------------------------------------------------
  // Toggling

  lemma {:induction false} RemoveAddressFacts(s: seq<Nft>, address: string)
    ensures forall x :: x in RemoveAddress(s, address) <==> x in s && x.address != address
    ensures address !in Addresses(s) ==> RemoveAddress(s, address) == s
  {
    if s != [] {
      RemoveAddressFacts(s[1..], address);
      assert s == [s[0]] + s[1..];
    }
  }

  lemma AddressesMembership(s: seq<Nft>, a: string)
    ensures a in Addresses(s) <==> exists x :: x in s && x.address == a
  {
    if a in Addresses(s) {
      var i :| 0 <= i < |s| && Addresses(s)[i] == a;
      assert s[i] in s;
    }
  }

  /** A toggle flips whether the clicked address is selected and leaves every other address as it was. */
  lemma ToggleFlipsOneAddress(selected: seq<Nft>, nft: Nft, a: string)
    ensures a == nft.address ==> (a in Addresses(Toggle(selected, nft)) <==> a !in Addresses(selected))
    ensures a != nft.address ==> (a in Addresses(Toggle(selected, nft)) <==> a in Addresses(selected))
  {
    RemoveAddressFacts(selected, nft.address);
    AddressesMembership(selected, a);
    AddressesMembership(Toggle(selected, nft), a);
    if nft.address !in Addresses(selected) {
      assert nft in Toggle(selected, nft);
    }
  }

  /** The entries with other addresses keep their relative order. */
  lemma {:induction false} ToggleKeepsOthers(selected: seq<Nft>, nft: Nft)
    ensures RemoveAddress(Toggle(selected, nft), nft.address) == RemoveAddress(selected, nft.address)
  {
    if nft.address in Addresses(selected) {
      RemoveAddressIdempotent(selected, nft.address);
    } else {
      RemoveAddressAppend(selected, [nft], nft.address);
      assert RemoveAddress([nft], nft.address) == [];
    }
  }

  lemma {:induction false} RemoveAddressIdempotent(s: seq<Nft>, address: string)
    ensures RemoveAddress(RemoveAddress(s, address), address) == RemoveAddress(s, address)
  {
    if s != [] {
      RemoveAddressIdempotent(s[1..], address);
      RemoveAddressAppend(if s[0].address == address then [] else [s[0]], RemoveAddress(s[1..], address), address);
    }
  }

  lemma {:induction false} RemoveAddressAppend(s: seq<Nft>, t: seq<Nft>, address: string)
    ensures RemoveAddress(s + t, address) == RemoveAddress(s, address) + RemoveAddress(t, address)
  {
    if s != [] {
      assert (s + t)[1..] == s[1..] + t;
      RemoveAddressAppend(s[1..], t, address);
    } else {
      assert s + t == t;
    }
  }

  /** Toggling an unselected NFT twice gives back the list exactly. */
  lemma ToggleTwiceUnselected(selected: seq<Nft>, nft: Nft)
    requires nft.address !in Addresses(selected)
    ensures Toggle(Toggle(selected, nft), nft) == selected
  {
    var once := selected + [nft];
    assert Addresses(once)[|selected|] == nft.address;
    RemoveAddressAppend(selected, [nft], nft.address);
    RemoveAddressFacts(selected, nft.address);
    assert RemoveAddress([nft], nft.address) == [];
  }

  /**
   * Toggling a selected NFT twice keeps the same addresses but moves that
   * NFT, as clicked, to the end.
   */
  lemma ToggleTwiceSelected(selected: seq<Nft>, nft: Nft)
    requires nft.address in Addresses(selected)
    ensures Toggle(Toggle(selected, nft), nft) == RemoveAddress(selected, nft.address) + [nft]
  {
    RemoveAddressFacts(selected, nft.address);
    AddressesMembership(RemoveAddress(selected, nft.address), nft.address);
  }

  /** A toggle of a pool item keeps the selection inside the pool. */
  lemma ToggleStaysInPool(pool: seq<Nft>, selected: seq<Nft>, nft: Nft)
    requires forall x | x in selected :: x in pool
    requires nft in pool
    ensures forall x | x in Toggle(selected, nft) :: x in pool
  {
    RemoveAddressFacts(selected, nft.address);
  }

  // ---------------------------------------------------------------------
  // The screen

  class AddNftsScreen {
    var allNfts: seq<Nft>
    var selectedNfts: seq<Nft>
    var loading: bool

    /** Every selected NFT is one of the rendered candidates. */
    ghost predicate Valid()
      reads this
    {
      forall x | x in selectedNfts :: x in allNfts
    }

    constructor ()
      ensures allNfts == [] && selectedNfts == [] && loading
      ensures Valid()
    {
      allNfts := [];
      selectedNfts := [];
      loading := true;
    }

    /**
     * The fetch effect after its `await`: on success the pool is the
     * response's `nfts` (or []) and the selection is the pool filtered by
     * the showcase's stored addresses; on failure both stay as they were.
     * Loading ends either way.
     */
    method Settle(showcase: Showcase, response: NftsResponse)
      requires Valid()
      modifies this
      ensures Valid() && !loading
      ensures response.Received? ==> allNfts == CandidatePool(response.data)
      ensures response.Received? ==>
        selectedNfts == KeepStored(allNfts, StoredAddresses(showcase.showcaseNfts))
      ensures response.RequestFailed? ==> allNfts == old(allNfts) && selectedNfts == old(selectedNfts)
    {
      if response.Received? {
        var userNfts := CandidatePool(response.data);
        allNfts := userNfts;
        var existing := StoredAddresses(showcase.showcaseNfts);
        selectedNfts := KeepStored(userNfts, existing);
        InitialSelectionIsStoredPart(userNfts, existing);
      }
      loading := false;
    }

    /** A click on the `i`-th rendered NFT; the grid is rendered only once loading ends. */
    method SelectNft(i: nat)
      requires Valid() && !loading && i < |allNfts|
      modifies this`selectedNfts
      ensures Valid()
      ensures selectedNfts == Toggle(old(selectedNfts), allNfts[i])
    {
      ToggleStaysInPool(allNfts, selectedNfts, allNfts[i]);
      selectedNfts := Toggle(selectedNfts, allNfts[i]);
    }

    /** Save Changes: `onSave(selectedNfts)`, the list in its current order. */
    method Save() returns (payload: seq<Nft>)
      requires Valid()
      ensures payload == selectedNfts
      ensures forall x | x in payload :: x in allNfts
    {
      payload := selectedNfts;
    }
  }

  /**
   * Showcase 7 stores A; the wallet holds A, B, C; clicking B then saving
   * hands over [A, B].
   */
  lemma SaveAfterOneClickExample(a: Nft, b: Nft, c: Nft, stored: ShowcaseNft)
    requires a.address == "A" && b.address == "B" && c.address == "C" && stored.nftAddress == "A"
    ensures Toggle(KeepStored([a, b, c], StoredAddresses(Some([stored]))), b) == [a, b]
  {
    var existing := StoredAddresses(Some([stored]));
    assert existing == {"A"};
    assert [a, b, c][1..] == [b, c] && [b, c][1..] == [c] && [c][1..] == [];
    assert KeepStored([c], existing) == [];
    assert KeepStored([b, c], existing) == [];
    assert KeepStored([a, b, c], existing) == [a];
  }

  /**
   * The saved order is the click order after the initial selection, not
   * pool order: with B stored, a click on A saves [B, A].
   */
  lemma SaveKeepsClickOrderExample(a: Nft, b: Nft, stored: ShowcaseNft)
    requires a.address == "A" && b.address == "B" && stored.nftAddress == "B"
    ensures Toggle(KeepStored([a, b], StoredAddresses(Some([stored]))), a) == [b, a]
  {
    var existing := StoredAddresses(Some([stored]));
    assert existing == {"B"};
    assert [a, b][1..] == [b] && [b][1..] == [];
    assert KeepStored([b], existing) == [b];
    assert KeepStored([a, b], existing) == [b];
  }
}
