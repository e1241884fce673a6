/**
 * The dashboard page's server side: send visitors without a session to the
 * login page, create a missing profile, and attach to each saved favourite
 * and each enquiry the property it refers to, fetched in one batch.
 */
module Dashboard {
  import opened Wrappers
  import opened Listing
  import opened Accounts
  import FavoriteRemoval
  import InquiryIntake
  import Seqs

  /** A fetched row together with the property it refers to, if that property was found. */
  datatype Joined<R> = Joined(row: R, property: Option<Property>)

  /** `properties.find(p => p.id === id)`: the first property with that id. */
  function FindById(props: seq<Property>, id: string): (r: Option<Property>)
    ensures r.Some? ==> r.value in props && r.value.id == id
    ensures r.None? <==> forall p :: p in props ==> p.id != id
  {
    if props == [] then None
    else if props[0].id == id then Some(props[0])
    else FindById(props[1..], id)
  }

  /** What `find` returns is the first property carrying the id: none before it has that id. */
  lemma {:induction false} FindByIdIsFirst(props: seq<Property>, id: string)
    requires FindById(props, id).Some?
    ensures exists i :: 0 <= i < |props| && props[i] == FindById(props, id).value
                        && forall j :: 0 <= j < i ==> props[j].id != id
  {
    if props[0].id == id {
      assert props[0] == FindById(props, id).value;
    } else {
      var tail := props[1..];
      FindByIdIsFirst(tail, id);
      var i :| 0 <= i < |tail| && tail[i] == FindById(tail, id).value && forall j :: 0 <= j < i ==> tail[j].id != id;
      assert props[i + 1] == tail[i];
      assert forall j :: 0 <= j < i + 1 ==> props[j].id != id by {
        forall j | 0 <= j < i + 1 ensures props[j].id != id {
          if j > 0 { assert props[j] == tail[j - 1]; }
        }
      }
    }
  }

  /** `rows.map(r => r.property_id).filter(Boolean)`: the non-null, non-empty ids, in row order. */
  function PropertyIds<R>(rows: seq<R>, key: R -> Option<string>): (ids: seq<string>)
    ensures forall i :: 0 <= i < |rows| && key(rows[i]).Some? && key(rows[i]).value != "" ==> key(rows[i]).value in ids
    ensures forall x :: x in ids ==> x != "" && exists i :: 0 <= i < |rows| && key(rows[i]) == Some(x)
    ensures |ids| <= |rows|
  {
    if rows == [] then []
    else
      var rest := PropertyIds(rows[1..], key);
      assert forall i :: 1 <= i < |rows| ==> rows[i] == rows[1..][i - 1];
      (if key(rows[0]).Some? && key(rows[0]).value != "" then [key(rows[0]).value] else []) + rest
  }

  /** `rows.map(r => r.property_id)`, with a null id read as the empty text `filter(Boolean)` drops alike. */
  function KeyTexts<R>(rows: seq<R>, key: R -> Option<string>): (texts: seq<string>)
    ensures |texts| == |rows|
    ensures forall i :: 0 <= i < |rows| ==> texts[i] == (if key(rows[i]).Some? then key(rows[i]).value else "")
  {
    seq(|rows|, i requires 0 <= i < |rows| => if key(rows[i]).Some? then key(rows[i]).value else "")
  }

  /** The batched ids are the rows' ids filtered for non-empty ones, so they keep the rows' order. */
  lemma {:induction false} PropertyIdsInRowOrder<R>(rows: seq<R>, key: R -> Option<string>)
    ensures PropertyIds(rows, key) == Seqs.Filter(KeyTexts(rows, key), x => x != "")
    ensures Seqs.Subsequence(PropertyIds(rows, key), KeyTexts(rows, key))
  {
    if rows != [] {
      PropertyIdsInRowOrder(rows[1..], key);
      assert KeyTexts(rows, key)[1..] == KeyTexts(rows[1..], key);
    }
    Seqs.FilterIsSubsequence(KeyTexts(rows, key), x => x != "");
  }

  /** `.in('id', ids)`: the properties whose id is one of `ids`. */
  function Batch(table: seq<Property>, ids: seq<string>): (r: seq<Property>)
    ensures forall p :: p in r <==> p in table && p.id in ids
  {
    Seqs.Filter(table, (p: Property) => p.id in ids)
  }

  /** The property a row refers to, looked up directly in the whole table. */
  function Lookup(table: seq<Property>, key: Option<string>): Option<Property> {
    if key.Some? && key.value != "" then FindById(table, key.value) else None
  }

  /** Looking an id up in the batch finds what looking it up in the whole table finds. */
  lemma {:induction false} BatchLookup(table: seq<Property>, ids: seq<string>, id: string)
    requires id in ids
    ensures FindById(Batch(table, ids), id) == FindById(table, id)
  {
    if table != [] {
      var rest := Batch(table[1..], ids);
      if table[0].id in ids {
        var b := [table[0]] + rest;
        assert Batch(table, ids) == b;
        if table[0].id == id {
          assert FindById(b, id) == Some(table[0]);
        } else {
          assert b[1..] == rest;
          assert FindById(b, id) == FindById(rest, id);
          BatchLookup(table[1..], ids, id);
        }
      } else {
        assert Batch(table, ids) == rest;
        assert FindById(table, id) == FindById(table[1..], id);
        BatchLookup(table[1..], ids, id);
      }
    }
  }

  /** No property in the batch carries an id outside the batch's list, the empty id included. */
  lemma BatchMisses(table: seq<Property>, ids: seq<string>, id: string)
    requires id !in ids
    ensures FindById(Batch(table, ids), id).None?
  {
  }

  /**
   * The reference join: each row, in order, with the property its id names
   * in the table, or with none when the properties could not be fetched.
   */
  function Attach<R>(rows: seq<R>, key: R -> Option<string>, table: seq<Property>, fetchFails: bool): (joined: seq<Joined<R>>)
    ensures |joined| == |rows|
    ensures forall i :: 0 <= i < |rows| ==> joined[i].row == rows[i]
  {
    seq(|rows|, i requires 0 <= i < |rows| => Joined(rows[i], if fetchFails then None else Lookup(table, key(rows[i]))))
  }

  /** A joined property is always the one the row names. */
  lemma AttachMatchesIds<R>(rows: seq<R>, key: R -> Option<string>, table: seq<Property>, fetchFails: bool, i: int)
    requires 0 <= i < |rows|
    ensures var p := Attach(rows, key, table, fetchFails)[i].property;
      p.Some? ==> p.value in table && key(rows[i]) == Some(p.value.id)
    ensures (!fetchFails && key(rows[i]).Some? && key(rows[i]).value != ""
             && exists q :: q in table && q.id == key(rows[i]).value)
      ==> Attach(rows, key, table, fetchFails)[i].property.Some?
  {
  }

  /**
   * `getUserData`'s join, as the page runs it: no rows gives `[]`; rows
   * without a usable id are returned without properties; otherwise the
   * referenced properties are fetched in one batch and each row picks its
   * own out of the batch. `rows` is `None` when the row query failed and
   * `fetchFails` is the batch query's error.
   */
  method AttachProperties<R>(rows: Option<seq<R>>, key: R -> Option<string>, table: seq<Property>, fetchFails: bool)
    returns (joined: seq<Joined<R>>)
    ensures rows.None? ==> joined == []
    ensures rows.Some? ==> joined == Attach(rows.value, key, table, fetchFails)
  {
    joined := [];
    if rows.Some? && |rows.value| > 0 {
      var rs := rows.value;
      var ids := PropertyIds(rs, key);
      if |ids| > 0 {
        var fetched: Option<seq<Property>> := if fetchFails then None else Some(Batch(table, ids));
        joined := seq(|rs|, i requires 0 <= i < |rs| =>
          Joined(rs[i], if fetched.None? || key(rs[i]).None? then None else FindById(fetched.value, key(rs[i]).value)));
        forall i | 0 <= i < |rs| && !fetchFails && key(rs[i]).Some?
          ensures FindById(Batch(table, ids), key(rs[i]).value) == Lookup(table, key(rs[i]))
        {
          if key(rs[i]).value != "" {
            BatchLookup(table, ids, key(rs[i]).value);
          } else {
            BatchMisses(table, ids, "");
          }
        }
      } else {
        joined := seq(|rs|, i requires 0 <= i < |rs| => Joined(rs[i], None));
      }
    }
  }

  const LoginRedirect := "/auth/login?redirectTo=/dashboard"

  /** The heading's name: the Arabic name when there is one, else the full name. */
  function DisplayName(p: Profile): (name: string)
    ensures Filled(p.fullNameAr) ==> name == p.fullNameAr.value
    ensures !Filled(p.fullNameAr) ==> name == p.fullName
  {
    if Filled(p.fullNameAr) then p.fullNameAr.value else p.fullName
  }

  datatype View =
    | Redirect(path: string)
    | Show(profile: Profile, greeting: string, email: string,
           favorites: seq<Joined<FavoriteRemoval.Favorite>>, inquiries: seq<Joined<InquiryIntake.Inquiry>>)

  function FavoriteKey(f: FavoriteRemoval.Favorite): Option<string> {
    f.propertyId
  }

  function InquiryKey(i: InquiryIntake.Inquiry): Option<string> {
    Some(i.propertyId)
  }

  /**
   * One page load. `session` is the signed-in user; `favoriteRows` and
   * `inquiryRows` are the caller's rows as the storage service returns
   * them (newest first), `None` on a query error; the two flags are the
   * batch queries' errors and `insertFails` the profile insert's.
   * `profileLookupFails` is the profile query's error, which the page reads
   * as "no profile": it then inserts the default profile, which the primary
   * key refuses when one exists, and redirects to the dashboard again, for
   * as long as the lookup keeps failing.
   */
  method Load(profiles: ProfileTable, session: Option<AuthUser>,
              favoriteRows: Option<seq<FavoriteRemoval.Favorite>>, inquiryRows: Option<seq<InquiryIntake.Inquiry>>,
              table: seq<Property>, profileLookupFails: bool, favoriteFetchFails: bool, inquiryFetchFails: bool,
              insertFails: bool)
    returns (view: View)
    modifies profiles
    ensures session.None? ==> view == Redirect(LoginRedirect) && profiles.profiles == old(profiles.profiles)
    ensures session.Some? && (profileLookupFails || session.value.id !in old(profiles.profiles)) ==>
      view == Redirect("/dashboard")
      && profiles.profiles == (if session.value.id in old(profiles.profiles) || insertFails then old(profiles.profiles)
                               else old(profiles.profiles)[session.value.id := NewProfile(session.value)])
    ensures session.Some? && !profileLookupFails && session.value.id in old(profiles.profiles) ==>
      var p := old(profiles.profiles)[session.value.id];
      profiles.profiles == old(profiles.profiles)
      && view.Show? && view.profile == p && view.greeting == DisplayName(p)
      && view.email == (if session.value.email.Some? then session.value.email.value else "")
      && view.favorites == (if favoriteRows.None? then []
                            else Attach(favoriteRows.value, FavoriteKey, table, favoriteFetchFails))
      && view.inquiries == (if inquiryRows.None? then []
                            else Attach(inquiryRows.value, InquiryKey, table, inquiryFetchFails))
  {
    if session.None? {
      return Redirect(LoginRedirect);
    }
    var u := session.value;
    var favorites := AttachProperties(favoriteRows, FavoriteKey, table, favoriteFetchFails);
    var inquiries := AttachProperties(inquiryRows, InquiryKey, table, inquiryFetchFails);
    var existed := false;
    if profileLookupFails {
      profiles.InsertDefault(u, insertFails);
    } else {
      existed := profiles.EnsureProfile(u, insertFails);
    }
    if !existed {
      return Redirect("/dashboard");
    }
    var p := profiles.profiles[u.id];
    var email := if u.email.Some? then u.email.value else "";
    return Show(p, DisplayName(p), email, favorites, inquiries);
  }
}
