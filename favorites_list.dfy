/**
 * The dashboard's favourites list. It keeps its own copy of the list and
 * the id of the favourite being removed; after the server confirms a
 * removal it drops that favourite locally, and on failure it keeps the list.
 */
module FavoritesList {
  import opened Wrappers
  import opened Seqs
  import opened FavoriteRemoval
  import opened Dashboard

  type Item = Joined<Favorite>

  /** Removing a favourite empties the list exactly when every entry carried that id. */
  lemma WithoutEmpty(s: seq<Item>, favoriteId: string)
    ensures Without(s, favoriteId) == [] <==> forall x :: x in s ==> x.row.id == favoriteId
  {
    var r := Without(s, favoriteId);
    if r != [] {
      assert r[0] in r;
    }
  }

  /** The filter's test: an entry with another id stays. */
  function KeepsOther(favoriteId: string): Item -> bool {
    (x: Item) => x.row.id != favoriteId
  }

  /** `prev.filter(fav => fav.id !== favoriteId)` */
  function Without(s: seq<Item>, favoriteId: string): (r: seq<Item>)
    ensures forall x :: x in r <==> x in s && x.row.id != favoriteId
    ensures |r| <= |s|
  {
    Filter(s, KeepsOther(favoriteId))
  }

  /** Extending the scanned prefix by one entry extends the filtered prefix by that entry, if it is kept. */
  lemma WithoutStep(s: seq<Item>, i: nat, favoriteId: string)
    requires i < |s|
    ensures Without(s[..i + 1], favoriteId)
         == Without(s[..i], favoriteId) + (if s[i].row.id != favoriteId then [s[i]] else [])
  {
    assert s[..i + 1] == s[..i] + [s[i]];
    FilterConcat(s[..i], [s[i]], KeepsOther(favoriteId));
    assert Filter([s[i]], KeepsOther(favoriteId)) == (if s[i].row.id != favoriteId then [s[i]] else []) by {
      assert [s[i]][1..] == [];
    }
  }

  /** The local removal keeps the order of the rest. */
  lemma WithoutKeepsOrder(s: seq<Item>, favoriteId: string)
    ensures Subsequence(Without(s, favoriteId), s)
  {
    FilterIsSubsequence(s, KeepsOther(favoriteId));
  }

  /** The table rows behind a list of joined items. */
  function Rows(s: seq<Item>): (r: seq<Favorite>)
    ensures |r| == |s|
    ensures forall i :: 0 <= i < |s| ==> r[i] == s[i].row
  {
    if s == [] then [] else [s[0].row] + Rows(s[1..])
  }

  /**
   * The list holds the caller's own favourites, so dropping the id locally
   * leaves exactly the rows the server's owner-scoped delete leaves.
   */
  lemma {:induction false} LocalMatchesServer(s: seq<Item>, favoriteId: string, user: string)
    requires forall x :: x in s ==> x.row.userId == Some(user)
    ensures Rows(Without(s, favoriteId)) == Surviving(Rows(s), favoriteId, user)
  {
    if s != [] {
      LocalMatchesServer(s[1..], favoriteId, user);
      assert Rows(s)[1..] == Rows(s[1..]);
      if s[0].row.id != favoriteId {
        var r := Without(s, favoriteId);
        assert r == [s[0]] + Without(s[1..], favoriteId);
        assert Rows(r) == [s[0].row] + Rows(Without(s[1..], favoriteId));
      }
    }
  }

  /** The local filter's loop over the current list. */
  method DropLocally(before: seq<Item>, favoriteId: string) returns (kept: seq<Item>)
    ensures kept == Without(before, favoriteId)
  {
    kept := [];
    var i := 0;
    while i < |before|
      invariant 0 <= i <= |before|
      invariant kept == Without(before[..i], favoriteId)
    {
      WithoutStep(before, i, favoriteId);
      if before[i].row.id != favoriteId {
        kept := kept + [before[i]];
      }
      i := i + 1;
    }
    assert before[..i] == before;
  }

  class FavoritesView {
    var favorites: seq<Item>
    var removingId: Option<string>

    constructor (initial: seq<Item>)
      ensures favorites == initial && removingId.None?
    {
      favorites := initial;
      removingId := None;
    }

    /** The empty-state panel replaces the list exactly when the list is empty. */
    predicate ShowsEmptyState()
      reads this
    {
      |favorites| == 0
    }

    /** An item's remove button is disabled while its own removal is in flight. */
    predicate RemoveDisabled(item: Item)
      reads this
    {
      removingId == Some(item.row.id)
    }

    /** `setRemovingId(favoriteId)` before the request goes out. */
    method BeginRemove(favoriteId: string)
      modifies this
      ensures removingId == Some(favoriteId) && favorites == old(favorites)
    {
      removingId := Some(favoriteId);
    }

    /** The request's outcome: drop the favourite when the server said yes; clear `removingId` either way. */
    method FinishRemove(favoriteId: string, ok: bool)
      modifies this
      ensures removingId.None?
      ensures ok ==> favorites == Without(old(favorites), favoriteId)
      ensures !ok ==> favorites == old(favorites)
    {
      if ok {
        favorites := DropLocally(favorites, favoriteId);
      }
      removingId := None;
    }

    /** `handleRemoveFavorite`: both steps, `ok` being whether the response was 2xx. */
    method RemoveFavorite(favoriteId: string, ok: bool)
      modifies this
      ensures removingId.None?
      ensures favorites == if ok then Without(old(favorites), favoriteId) else old(favorites)
      ensures ShowsEmptyState() <==>
        old(ShowsEmptyState()) || (ok && forall x :: x in old(favorites) ==> x.row.id == favoriteId)
    {
      WithoutEmpty(favorites, favoriteId);
      BeginRemove(favoriteId);
      FinishRemove(favoriteId, ok);
    }
  }
}
