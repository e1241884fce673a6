/**
 * `DELETE /api/favorites/remove`: a signed-in user deletes one of their saved
 * properties. The delete is scoped to rows whose id is the requested one
 * AND whose owner is the caller, so a request can never remove another
 * user's row.
 */
module FavoriteRemoval {
  import opened Wrappers
  import opened Http
  import Seqs

  /** One row of `user_favorites`; a row whose owner is null matches no caller. */
  datatype Favorite = Favorite(id: string, userId: Option<string>, propertyId: Option<string>)

  /** `.eq('id', favoriteId).eq('user_id', user.id)` */
  predicate Targets(f: Favorite, favoriteId: string, user: string) {
    f.id == favoriteId && f.userId == Some(user)
  }

  /** The delete's test: a row the request does not target stays. */
  function Untargeted(favoriteId: string, user: string): Favorite -> bool {
    (x: Favorite) => !Targets(x, favoriteId, user)
  }

  /** The table after the scoped delete: every other row, in its original order. */
  function Surviving(rows: seq<Favorite>, favoriteId: string, user: string): (r: seq<Favorite>)
    ensures |r| <= |rows|
    ensures forall x :: x in r <==> x in rows && !Targets(x, favoriteId, user)
  {
    Seqs.Filter(rows, Untargeted(favoriteId, user))
  }

  /** When no row is targeted the table is left exactly as it was. */
  lemma NothingTargetedNothingRemoved(rows: seq<Favorite>, favoriteId: string, user: string)
    requires forall x :: x in rows ==> !Targets(x, favoriteId, user)
    ensures Surviving(rows, favoriteId, user) == rows
  {
    Seqs.FilterAll(rows, Untargeted(favoriteId, user));
  }

  /** Repeating the request removes nothing more. */
  lemma RemoveIdempotent(rows: seq<Favorite>, favoriteId: string, user: string)
    ensures Surviving(Surviving(rows, favoriteId, user), favoriteId, user) == Surviving(rows, favoriteId, user)
  {
    NothingTargetedNothingRemoved(Surviving(rows, favoriteId, user), favoriteId, user);
  }

  /** The rows owned by `user`, in order. */
  function RowsOf(rows: seq<Favorite>, user: string): (r: seq<Favorite>)
    ensures forall x :: x in r <==> x in rows && x.userId == Some(user)
  {
    Seqs.Filter(rows, (x: Favorite) => x.userId == Some(user))
  }

  /** Another user's favourites, order included, are untouched by the caller's request. */
  lemma {:induction false} OtherUsersUntouched(rows: seq<Favorite>, favoriteId: string, user: string, other: string)
    requires other != user
    ensures RowsOf(Surviving(rows, favoriteId, user), other) == RowsOf(rows, other)
  {
    if rows != [] {
      OtherUsersUntouched(rows[1..], favoriteId, user, other);
      var rest := Surviving(rows[1..], favoriteId, user);
      if Targets(rows[0], favoriteId, user) {
        assert Surviving(rows, favoriteId, user) == rest;
      } else {
        var s := [rows[0]] + rest;
        assert Surviving(rows, favoriteId, user) == s;
        assert s[0] == rows[0] && s[1..] == rest;
      }
    }
  }

  /** With unique ids (the table's primary key) a request removes one row when it targets one, else none. */
  lemma {:induction false} RemovesAtMostOne(rows: seq<Favorite>, favoriteId: string, user: string)
    requires forall i, j :: 0 <= i < j < |rows| ==> rows[i].id != rows[j].id
    ensures |Surviving(rows, favoriteId, user)|
      == |rows| - (if exists x :: x in rows && Targets(x, favoriteId, user) then 1 else 0)
  {
    if rows != [] {
      var tail := rows[1..];
      assert forall i, j :: 0 <= i < j < |tail| ==> tail[i].id != tail[j].id by {
        forall i, j | 0 <= i < j < |tail| ensures tail[i].id != tail[j].id {
          assert tail[i] == rows[i + 1] && tail[j] == rows[j + 1];
        }
      }
      if Targets(rows[0], favoriteId, user) {
        forall x | x in tail ensures !Targets(x, favoriteId, user) {
          var k :| 0 <= k < |tail| && tail[k] == x;
          assert x == rows[k + 1];
        }
        NothingTargetedNothingRemoved(tail, favoriteId, user);
      } else {
        RemovesAtMostOne(tail, favoriteId, user);
        assert rows == [rows[0]] + tail;
        assert (exists x :: x in rows && Targets(x, favoriteId, user))
          == (exists x :: x in tail && Targets(x, favoriteId, user));
      }
    }
  }

  /** The delete's loop: walk the table once, keeping every row the request does not target. */
  method DeleteScoped(before: seq<Favorite>, id: string, user: string) returns (kept: seq<Favorite>)
    ensures kept == Surviving(before, id, user)
  {
    kept := [];
    var i := 0;
    while i < |before|
      invariant 0 <= i <= |before|
      invariant kept == Surviving(before[..i], id, user)
    {
      var x := before[i];
      assert before[..i + 1] == before[..i] + [x];
      Seqs.FilterConcat(before[..i], [x], Untargeted(id, user));
      assert Surviving([x], id, user) == if Targets(x, id, user) then [] else [x] by {
        assert [x][1..] == [];
      }
      if !Targets(x, id, user) {
        kept := kept + [x];
      }
      i := i + 1;
    }
    assert before[..i] == before;
  }

  /** The `user_favorites` table. */
  class FavoritesTable {
    var rows: seq<Favorite>

    constructor (initial: seq<Favorite>)
      ensures rows == initial
    {
      rows := initial;
    }

    /**
     * One request. `favoriteId` is `None` when the body is
     * `null` or not valid JSON, whose destructuring throws (any other value,
     * such as a number or an array, gives an absent field);
     * `session` is the signed-in user's id, `authFails` the session lookup's
     * error and `storageFails` the delete's error.
     */
    method Remove(favoriteId: Option<Field>, session: Option<string>, authFails: bool, storageFails: bool)
      returns (reply: Reply)
      modifies this
      ensures favoriteId.None? ==> reply == InternalError && rows == old(rows)
      ensures favoriteId.Some? && !Given(favoriteId.value) ==>
        reply == Reply(400, "Missing favorite ID") && rows == old(rows)
      ensures favoriteId.Some? && Given(favoriteId.value) && (authFails || session.None?) ==>
        reply == Unauthorized && rows == old(rows)
      ensures favoriteId.Some? && Given(favoriteId.value) && !authFails && session.Some? && storageFails ==>
        reply == Reply(500, "Failed to remove favorite") && rows == old(rows)
      ensures favoriteId.Some? && Given(favoriteId.value) && !authFails && session.Some? && !storageFails ==>
        reply == Reply(200, "Favorite removed successfully")
        && rows == Surviving(old(rows), favoriteId.value.text, session.value)
    {
      if favoriteId.None? {
        return InternalError;
      }
      if !Given(favoriteId.value) {
        return Reply(400, "Missing favorite ID");
      }
      if authFails || session.None? {
        return Unauthorized;
      }
      if storageFails {
        return Reply(500, "Failed to remove favorite");
      }
      var id := favoriteId.value.text;
      var user := session.value;
      var kept := DeleteScoped(rows, id, user);
      rows := kept;
      return Reply(200, "Favorite removed successfully");
    }
  }
}
