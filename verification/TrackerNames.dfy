/** Naming and renaming items over key spaces that are objects with a table of groups each. */
module TrackerNames {
  import opened KeyTables
  import opened Options
  import opened TrackerIndexes
  import opened TrackerState
  import opened TrackerTables
  import opened Trackers

  /** Indexes that agree with the same names are the same. */
  lemma {:induction false} AgreeDetermines(pool: seq<Item>, a: seq<Space>, b: seq<Space>)
    requires Agree(pool, a) && Agree(pool, b) && |a| == |b|
    ensures a == b
  {
    hide SpaceOk;
    forall s | 0 <= s < |a|
      ensures a[s] == b[s]
    {
      SpaceDetermines(pool, a[s], b[s], s);
    }
  }

  lemma {:induction false} SpaceDetermines(pool: seq<Item>, a: Space, b: Space, s: nat)
    requires SpaceOk(pool, a, s) && SpaceOk(pool, b, s)
    ensures a == b
  {
    hide Ascends, KeyIn;
    AscendingListIsUnique(pool, a.order, b.order);
    forall key: Key
      ensures GroupOf(a.keys, key) == GroupOf(b.keys, key) && (key in a.keys <==> key in b.keys)
    {
      assert GroupOk(pool, a.keys, s, key) && GroupOk(pool, b.keys, s, key);
      AscendingListIsUnique(pool, GroupOf(a.keys, key), GroupOf(b.keys, key));
    }
    assert forall key :: key in a.keys ==> a.keys[key] == GroupOf(a.keys, key);
    assert forall key :: key in b.keys ==> b.keys[key] == GroupOf(b.keys, key);
    assert a.keys == b.keys;
  }

  /** The items of the group that an item without a name in the space joins are of other ages. */
  lemma {:induction false} GroupDiffers(pool: seq<Item>, spaces: seq<Space>, openItems: seq<nat>, free: seq<nat>, sequence: nat,
                                        p: nat, space: nat, key: Key)
    requires Agree(pool, spaces) && PoolOk(pool, openItems, free, sequence) && Live(pool, p) && space < |spaces|
    requires KeyIn(pool[p].names, space).None?
    ensures forall q :: q in GroupOf(spaces[space].keys, key) ==> q < |pool| && pool[q].sequence != pool[p].sequence
  {
    hide KeyIn, Ascends;
    assert SpaceOk(pool, spaces[space], space) && GroupOk(pool, spaces[space].keys, space, key);
    forall q | q in GroupOf(spaces[space].keys, key)
      ensures q < |pool| && pool[q].sequence != pool[p].sequence
    {
      NoKeyIn(pool[q].names, space);
      LiveDiffer(pool, openItems, free, sequence, p, q);
    }
  }

  lemma {:induction false} SpaceIsValid(pool: seq<Item>, space: Space, s: nat)
    requires SpaceOk(pool, space, s)
    ensures Ascends(pool, space.order) && forall key: Key :: key in space.keys ==> Ascends(pool, space.keys[key])
  {
    hide Ascends, KeyIn;
    forall key: Key | key in space.keys
      ensures Ascends(pool, space.keys[key])
    {
      assert GroupOk(pool, space.keys, s, key);
    }
  }

  lemma {:induction false} SpaceAgrees(pool: seq<Item>, spaces: seq<Space>, space: nat)
    requires Agree(pool, spaces) && space < |spaces|
    ensures SpaceOk(pool, spaces[space], space)
  {
  }

  // ---------------------------------------------------------------- the spaces

  ghost function Tables(spaces: seq<KeySpace>): set<object> {
    set k | k in spaces :: k.keys
  }

  /** The spaces, their tables and the storage of these. */
  ghost function Storage(spaces: seq<KeySpace>): (r: set<object>)
    reads Tables(spaces)
    ensures Tables(spaces) <= r
  {
    (set k | k in spaces :: k as object) + Tables(spaces) + set k | k in spaces :: k.keys.slots
  }

  lemma {:induction false} InStorage(spaces: seq<KeySpace>, s: nat)
    requires s < |spaces|
    ensures spaces[s] in Storage(spaces) && spaces[s].keys in Storage(spaces) && spaces[s].keys.slots in Storage(spaces)
  {
    assert spaces[s] in spaces;
  }

  /** No two spaces share storage, and every table is in order. */
  ghost predicate Separate(spaces: seq<KeySpace>)
    reads Tables(spaces), Storage(spaces)
  {
    && (forall i, j :: 0 <= i < j < |spaces| ==> Apart(spaces[i], spaces[j]))
    && forall s :: 0 <= s < |spaces| ==> spaces[s].keys.Valid() && spaces[s].keys.empty == []
  }

  ghost predicate Apart(a: KeySpace, b: KeySpace)
    reads a.keys, b.keys
  {
    a != b && a.keys != b.keys && a.keys.slots != b.keys.slots
  }

  /** The spaces as the tracker's proofs see them. */
  ghost function Views(spaces: seq<KeySpace>): (r: seq<Space>)
    reads Tables(spaces), Storage(spaces)
    ensures |r| == |spaces| && forall s :: 0 <= s < |r| ==> r[s] == spaces[s].View()
  {
    seq(|spaces|, s requires 0 <= s < |spaces| reads Tables(spaces), Storage(spaces) =>
      var space := spaces[s];
      assert space in spaces;
      space.View())
  }

  /** One space, its table and its groups lose the name; nobody else notices. */
  method UnlistIn(pool: seq<Item>, spaces: seq<KeySpace>, p: nat, space: nat, key: Key)
    requires Separate(spaces) && p < |pool| && space < |spaces| && SpaceOk(pool, Views(spaces)[space], space)
    modifies Storage(spaces)
    ensures Separate(spaces) && fresh(Storage(spaces) - old(Storage(spaces)))
    ensures Ascends(pool, old(Views(spaces)[space].order))
    ensures Views(spaces) == old(Views(spaces))[space := Unlisted(pool, old(Views(spaces)[space]), p, key)]
  {
    hide Ascends, SpaceOk, Unlisted, Views, KeyTable.Valid;
    SpaceIsValid(pool, spaces[space].View(), space);
    InStorage(spaces, space);
    spaces[space].Unlist(pool, p, key);
    forall s | 0 <= s < |spaces| && s != space
      ensures Apart(spaces[s], spaces[space]) && Apart(spaces[space], spaces[s])
      ensures spaces[s].keys.slots == old(spaces[s].keys.slots) && spaces[s].View() == old(spaces[s].View()) && spaces[s].keys.Valid()
    {
      if s < space {
        assert old(Apart(spaces[s], spaces[space]));
      } else {
        assert old(Apart(spaces[space], spaces[s]));
      }
    }
  }

  /** One space, its table and its groups get the name; nobody else notices. */
  method ListIn(pool: seq<Item>, spaces: seq<KeySpace>, p: nat, space: nat, key: Key)
    requires Separate(spaces) && p < |pool| && space < |spaces| && SpaceOk(pool, Views(spaces)[space], space)
    requires forall q :: q in GroupOf(Views(spaces)[space].keys, key) ==> q < |pool| && pool[q].sequence != pool[p].sequence
    modifies Storage(spaces)
    ensures Separate(spaces) && fresh(Storage(spaces) - old(Storage(spaces)))
    ensures Ascends(pool, old(Views(spaces)[space].order)) && Ascends(pool, GroupOf(old(Views(spaces)[space].keys), key))
    ensures Views(spaces) == old(Views(spaces))[space := Listed(pool, old(Views(spaces)[space]), p, key)]
  {
    hide Ascends, SpaceOk, Listed, Views, KeyTable.Valid;
    SpaceIsValid(pool, spaces[space].View(), space);
    InStorage(spaces, space);
    spaces[space].List(pool, p, key);
    forall s | 0 <= s < |spaces| && s != space
      ensures Apart(spaces[s], spaces[space]) && Apart(spaces[space], spaces[s])
      ensures spaces[s].keys.slots == old(spaces[s].keys.slots) && spaces[s].View() == old(spaces[s].View()) && spaces[s].keys.Valid()
    {
      if s < space {
        assert old(Apart(spaces[s], spaces[space]));
      } else {
        assert old(Apart(spaces[space], spaces[s]));
      }
    }
  }

  // ---------------------------------------------------------------- the items

  /** The part of a tracker that naming is about. */
  class NamedItems {
    var sequence: nat
    var openItems: seq<nat>
    var spaces: seq<KeySpace>
    var pool: seq<Item>
    var free: seq<nat>

    ghost predicate Valid()
      reads this, Tables(spaces), Storage(spaces)
    {
      && Separate(spaces) && this !in Storage(spaces)
      && Agree(pool, Views(spaces)) && PoolOk(pool, openItems, free, sequence)
    }

    /** The item loses the name at `i`. */
    method DropName(p: nat, i: nat)
      requires Valid() && Live(pool, p) && i < |pool[p].names|
      modifies this`pool, Storage(spaces)
      ensures Valid() && fresh(Storage(spaces) - old(Storage(spaces)))
      ensures pool == old(pool)[p := old(pool[p]).(names := old(pool[p].names[..i] + pool[p].names[i + 1..]))]
      ensures KeyIn(pool[p].names, old(pool[p].names[i].space)).None?
    {
      hide Agree, PoolOk, KeyIn, SpaceOk, Ascends, NamesOk, Unlisted, Separate, Views, Storage, Tables;
      var names := pool[p].names;
      var item := pool[p].(names := names[..i] + names[i + 1..]);
      UnnameKeeps(pool, Views(spaces), p, i);
      RenamePool(pool, openItems, free, sequence, p, item);
      SpaceAgrees(pool, Views(spaces), names[i].space);
      UnlistIn(pool, spaces, p, names[i].space, names[i].key);
      pool := pool[p := item];
    }

    /** The item, without a name in `space` so far, goes by `key` there. */
    method AddName(p: nat, space: nat, key: Key)
      requires Valid() && Live(pool, p) && space < |spaces| && KeyIn(pool[p].names, space).None?
      modifies this`pool, Storage(spaces)
      ensures Valid() && fresh(Storage(spaces) - old(Storage(spaces)))
      ensures pool == old(pool)[p := old(pool[p]).(names := old(pool[p].names) + [Name(space, key)])]
    {
      hide Agree, PoolOk, KeyIn, SpaceOk, Ascends, NamesOk, Listed, Separate, Views, Storage, Tables;
      var item := pool[p].(names := pool[p].names + [Name(space, key)]);
      NameKeeps(pool, Views(spaces), openItems, free, sequence, p, space, key);
      RenamePool(pool, openItems, free, sequence, p, item);
      SpaceAgrees(pool, Views(spaces), space);
      GroupDiffers(pool, Views(spaces), openItems, free, sequence, p, space, key);
      ListIn(pool, spaces, p, space, key);
      pool := pool[p := item];
    }

    /** The item loses its name in `space`, if it has one. */
    method Unname(p: nat, space: nat)
      requires Valid() && Live(pool, p)
      modifies this`pool, Storage(spaces)
      ensures Valid() && fresh(Storage(spaces) - old(Storage(spaces)))
      ensures pool == old(pool)[p := old(pool[p]).(names := Dropped(old(pool[p].names), space))] && KeyIn(pool[p].names, space).None?
    {
      hide Agree, PoolOk, KeyIn, Dropped, Separate, Views;
      var at := FindName(pool[p].names, space);
      if at.Some? {
        DropName(p, at.value);
      }
    }

    /** The item goes by `key` in `space` from now on, and by no other key there. */
    method Rename(p: nat, space: nat, key: Key)
      requires Valid() && Live(pool, p) && space < |spaces|
      modifies this`pool, Storage(spaces)
      ensures Valid() && fresh(Storage(spaces) - old(Storage(spaces)))
      ensures pool == old(pool)[p := old(pool[p]).(names := Renamed(old(pool[p].names), space, key))]
    {
      hide Agree, PoolOk, KeyIn, Dropped, Separate, Views;
      var at := FindName(pool[p].names, space);
      if at.Some? {
        if pool[p].names[at.value].key == key {
          return;
        }
        Unname(p, space);
      }
      AddName(p, space, key);
    }
  }
}
