/**
 * The favourites list of the explorer: an ordered sequence of entries
 * `{mal_id, title, imageUrl}`, matched by catalog identifier.
 * The functions here are the specification that the store's methods
 * (module Explorer) are proved against.
 */
module Favorites {

  /** One saved entry; the title and image are snapshots taken when it was added. */
  datatype Favorite = Favorite(malId: int, title: string, imageUrl: string)

  /** `favs.some(fav => fav.mal_id === id)` */
  predicate HasId(favs: seq<Favorite>, id: int)
  {
    exists i :: 0 <= i < |favs| && favs[i].malId == id
  }

  /** At most one entry per identifier. */
  predicate UniqueIds(favs: seq<Favorite>)
  {
    forall i, j :: 0 <= i < j < |favs| ==> favs[i].malId != favs[j].malId
  }

  /** `favs.findIndex(fav => fav.mal_id === id)`: the first matching index, or -1. */
  function IndexOf(favs: seq<Favorite>, id: int): (r: int)
    ensures -1 <= r < |favs|
    ensures r == -1 <==> !HasId(favs, id)
    ensures 0 <= r ==> favs[r].malId == id
    ensures forall j :: 0 <= j < r ==> favs[j].malId != id
  {
    if |favs| == 0 then -1
    else if favs[0].malId == id then 0
    else
      var k := IndexOf(favs[1..], id);
      assert forall j :: 1 <= j < |favs| ==> favs[j] == favs[1..][j - 1];
      if k == -1 then -1 else k + 1
  }

  /**
   * The list after `toggleFavorite(id, title, imageUrl)`: the first entry
   * with that identifier is spliced out, or, when there is none, a new
   * entry is pushed at the end.
   */
  function Toggled(favs: seq<Favorite>, id: int, title: string, imageUrl: string): (r: seq<Favorite>)
    ensures |r| == if HasId(favs, id) then |favs| - 1 else |favs| + 1
  {
    var i := IndexOf(favs, id);
    if i > -1 then favs[..i] + favs[i + 1..] else favs + [Favorite(id, title, imageUrl)]
  }

  /** The entries whose identifier is not `id`, in their order. */
  function Except(favs: seq<Favorite>, id: int): seq<Favorite>
  {
    if favs == [] then []
    else (if favs[0].malId == id then [] else [favs[0]]) + Except(favs[1..], id)
  }

  lemma {:induction false} ExceptAppend(a: seq<Favorite>, b: seq<Favorite>, id: int)
    ensures Except(a + b, id) == Except(a, id) + Except(b, id)
  {
    if a == [] {
      assert a + b == b;
    } else {
      assert (a + b)[1..] == a[1..] + b;
      ExceptAppend(a[1..], b, id);
    }
  }

  /** Leaving out the entries of `id` keeps exactly the memberships of every other identifier. */
  lemma {:induction false} ExceptKeepsOthers(favs: seq<Favorite>, id: int, other: int)
    requires other != id
    ensures HasId(Except(favs, id), other) <==> HasId(favs, other)
  {
    if favs != [] {
      ExceptKeepsOthers(favs[1..], id, other);
      var head := if favs[0].malId == id then [] else [favs[0]];
      var rest := Except(favs[1..], id);
      assert Except(favs, id) == head + rest;
      if HasId(favs, other) {
        var k :| 0 <= k < |favs| && favs[k].malId == other;
        if k == 0 {
          assert (head + rest)[0] == favs[0];
        } else {
          assert favs[1..][k - 1].malId == other;
          var m :| 0 <= m < |rest| && rest[m].malId == other;
          assert (head + rest)[|head| + m] == rest[m];
        }
      }
      if HasId(head + rest, other) {
        var k :| 0 <= k < |head + rest| && (head + rest)[k].malId == other;
        if k < |head| {
          assert favs[0].malId == other;
        } else {
          assert rest[k - |head|].malId == other;
          var m :| 0 <= m < |favs[1..]| && favs[1..][m].malId == other;
          assert favs[m + 1].malId == other;
        }
      }
    }
  }

  /** An absent identifier: exactly one new entry at the end, every earlier entry in place. */
  lemma ToggleAbsentAppends(favs: seq<Favorite>, id: int, title: string, imageUrl: string)
    requires !HasId(favs, id)
    ensures var r := Toggled(favs, id, title, imageUrl);
      |r| == |favs| + 1 && r[..|favs|] == favs && r[|favs|] == Favorite(id, title, imageUrl)
  {
  }

  /** A present identifier: its first entry is removed and the others keep their order. */
  lemma TogglePresentRemovesFirst(favs: seq<Favorite>, id: int, title: string, imageUrl: string)
    requires HasId(favs, id)
    ensures exists k :: (0 <= k < |favs| && favs[k].malId == id
                         && (forall j :: 0 <= j < k ==> favs[j].malId != id)
                         && Toggled(favs, id, title, imageUrl) == favs[..k] + favs[k + 1..])
  {
    var k := IndexOf(favs, id);
    assert favs[k].malId == id;
  }

  /** Nothing but the entries of the toggled identifier changes: the others stay, in order. */
  lemma ToggleKeepsOthers(favs: seq<Favorite>, id: int, title: string, imageUrl: string)
    ensures Except(Toggled(favs, id, title, imageUrl), id) == Except(favs, id)
  {
    var i := IndexOf(favs, id);
    if i > -1 {
      assert favs == favs[..i] + [favs[i]] + favs[i + 1..];
      ExceptAppend(favs[..i] + [favs[i]], favs[i + 1..], id);
      ExceptAppend(favs[..i], [favs[i]], id);
      ExceptAppend(favs[..i], favs[i + 1..], id);
      assert Except([favs[i]], id) == [];
    } else {
      ExceptAppend(favs, [Favorite(id, title, imageUrl)], id);
      assert Except([Favorite(id, title, imageUrl)], id) == [];
    }
  }

  /** Toggling one identifier never changes whether another one is a favourite. */
  lemma ToggleKeepsOtherMembership(favs: seq<Favorite>, id: int, title: string, imageUrl: string, other: int)
    requires other != id
    ensures HasId(Toggled(favs, id, title, imageUrl), other) <==> HasId(favs, other)
  {
    ToggleKeepsOthers(favs, id, title, imageUrl);
    ExceptKeepsOthers(favs, id, other);
    ExceptKeepsOthers(Toggled(favs, id, title, imageUrl), id, other);
  }

  /** With at most one entry per identifier, a toggle flips the membership of its identifier. */
  lemma ToggleFlipsMembership(favs: seq<Favorite>, id: int, title: string, imageUrl: string)
    requires UniqueIds(favs)
    ensures HasId(Toggled(favs, id, title, imageUrl), id) <==> !HasId(favs, id)
  {
    var i := IndexOf(favs, id);
    var r := Toggled(favs, id, title, imageUrl);
    if i > -1 {
      forall k | 0 <= k < |r| ensures r[k].malId != id {
        if k < i {
          assert r[k] == favs[k];
        } else {
          assert r[k] == favs[k + 1];
        }
      }
    } else {
      assert r[|favs|].malId == id;
    }
  }

  lemma RemoveKeepsUnique(favs: seq<Favorite>, i: int)
    requires UniqueIds(favs) && 0 <= i < |favs|
    ensures UniqueIds(favs[..i] + favs[i + 1..])
  {
    var r := favs[..i] + favs[i + 1..];
    assert forall k :: 0 <= k < |r| ==> r[k] == favs[if k < i then k else k + 1];
  }

  lemma AppendKeepsUnique(favs: seq<Favorite>, e: Favorite)
    requires UniqueIds(favs) && !HasId(favs, e.malId)
    ensures UniqueIds(favs + [e])
  {
    var r := favs + [e];
    assert forall k :: 0 <= k < |favs| ==> r[k] == favs[k];
  }

  /** A toggle keeps the list free of duplicate identifiers. */
  lemma ToggleKeepsUnique(favs: seq<Favorite>, id: int, title: string, imageUrl: string)
    requires UniqueIds(favs)
    ensures UniqueIds(Toggled(favs, id, title, imageUrl))
  {
    var i := IndexOf(favs, id);
    if i > -1 {
      RemoveKeepsUnique(favs, i);
    } else {
      AppendKeepsUnique(favs, Favorite(id, title, imageUrl));
    }
  }

  /** Adding then removing an identifier gives back exactly the original list. */
  lemma ToggleTwiceFromAbsent(favs: seq<Favorite>, id: int, title: string, imageUrl: string,
                              title2: string, imageUrl2: string)
    requires !HasId(favs, id)
    ensures Toggled(Toggled(favs, id, title, imageUrl), id, title2, imageUrl2) == favs
  {
    var once := favs + [Favorite(id, title, imageUrl)];
    var k := IndexOf(once, id);
    assert once[|favs|].malId == id;
    assert forall j :: 0 <= j < |favs| ==> once[j] == favs[j];
    assert k == |favs|;
    assert once[..k] == favs;
  }

  /**
   * Removing then adding an identifier restores its membership: the new
   * entry, with the second call's title and image, comes last.
   */
  lemma ToggleTwiceFromPresent(favs: seq<Favorite>, id: int, title: string, imageUrl: string,
                               title2: string, imageUrl2: string)
    requires UniqueIds(favs) && HasId(favs, id)
    ensures var once := Toggled(favs, id, title, imageUrl);
      Toggled(once, id, title2, imageUrl2) == once + [Favorite(id, title2, imageUrl2)]
      && HasId(Toggled(once, id, title2, imageUrl2), id)
  {
    ToggleFlipsMembership(favs, id, title, imageUrl);
    var once := Toggled(favs, id, title, imageUrl);
    assert once + [Favorite(id, title2, imageUrl2)] == Toggled(once, id, title2, imageUrl2);
    assert Toggled(once, id, title2, imageUrl2)[|once|].malId == id;
  }
}
