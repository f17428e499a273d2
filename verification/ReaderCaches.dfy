/** Caches of a reader: within their budgets, and never changing an answer. */
module ReaderCaches {
  import opened Options

  // ---------------------------------------------------------------- pages

  /** A page and the storage it takes. */
  datatype Page = Page(bytes: seq<int>, capacity: nat)

  type Key = (nat, nat)

  function SumPages(order: seq<(Key, Page)>): nat {
    if order == [] then 0 else SumPages(order[..|order| - 1]) + order[|order| - 1].1.capacity
  }

  lemma {:induction false} SumWithoutFirst(order: seq<(Key, Page)>)
    requires order != []
    ensures SumPages(order) == order[0].1.capacity + SumPages(order[1..])
  {
    if |order| > 1 {
      var front := order[..|order| - 1];
      SumWithoutFirst(front);
      assert order[1..][..|order| - 2] == front[1..];
    } else {
      assert order[..0] == [] && order[1..] == [];
    }
  }

  lemma {:induction false} SumWithLast(order: seq<(Key, Page)>, last: (Key, Page))
    ensures SumPages(order + [last]) == SumPages(order) + last.1.capacity
  {
    assert (order + [last])[..|order|] == order;
  }

  /** The map holds exactly the pages of the queue, each key once. */
  ghost predicate Lists(order: seq<(Key, Page)>, entries: map<Key, Page>) {
    && (forall i, j :: 0 <= i < j < |order| ==> order[i].0 != order[j].0)
    && (forall i :: 0 <= i < |order| ==> order[i].0 in entries && entries[order[i].0] == order[i].1)
    && forall k :: k in entries ==> (k, entries[k]) in order
  }

  lemma {:induction false} ListsTail(order: seq<(Key, Page)>, entries: map<Key, Page>)
    requires Lists(order, entries) && order != []
    ensures Lists(order[1..], entries - {order[0].0})
  {
    var entries' := entries - {order[0].0};
    forall k | k in entries'
      ensures (k, entries'[k]) in order[1..]
    {
      var i :| 0 <= i < |order| && order[i] == (k, entries[k]);
      assert order[1..][i - 1] == order[i];
    }
  }

  lemma {:induction false} ListsMore(order: seq<(Key, Page)>, entries: map<Key, Page>, key: Key, page: Page)
    requires Lists(order, entries) && key !in entries
    ensures Lists(order + [(key, page)], entries[key := page])
  {
    var order' := order + [(key, page)];
    assert order'[|order|] == (key, page);
    forall k | k in entries
      ensures (k, entries[k]) in order'
    {
      var i :| 0 <= i < |order| && order[i] == (k, entries[k]);
      assert order'[i] == order[i];
    }
  }

  /** Some of the oldest are gone, the new one is the last. */
  ghost predicate Replaced(before: seq<(Key, Page)>, order: seq<(Key, Page)>, last: (Key, Page)) {
    exists n :: 0 <= n <= |before| && order == before[n..] + [last]
  }

  class LocatedPageCache {
    const limit: nat
    var bytes: nat
    var order: seq<(Key, Page)>
    var entries: map<Key, Page>

    /** The queue and the map hold the same pages, whose storage is counted and within the limit. */
    ghost predicate Valid()
      reads this
    {
      bytes == SumPages(order) <= limit && Lists(order, entries)
    }

    constructor (limit: nat)
      ensures Valid() && order == [] && this.limit == limit
    {
      this.limit := limit;
      bytes := 0;
      order := [];
      entries := map[];
    }

    method Get(key: Key) returns (r: Option<Page>)
      requires Valid()
      ensures r.Some? ==> (key, r.value) in order
      ensures r.None? ==> forall i :: 0 <= i < |order| ==> order[i].0 != key
    {
      r := if key in entries then Some(entries[key]) else None;
    }

    /** The oldest pages go until the new one fits; the new one itself is never among them. */
    method Insert(key: Key, page: Page)
      requires Valid()
      modifies this
      ensures Valid()
      ensures if limit == 0 || page.capacity > limit || key in old(entries) then entries == old(entries) && order == old(order)
              else Replaced(old(order), order, (key, page))
    {
      hide Lists;
      if limit == 0 || page.capacity > limit || key in entries {
        return;
      }
      ListsMore(order, entries, key, page);
      order := order + [(key, page)];
      entries := entries[key := page];
      ghost var n, left := 0, old(order);
      while page.capacity > limit - bytes
        invariant n <= |old(order)| && left == old(order)[n..] && order == left + [(key, page)] && Lists(order, entries)
        invariant bytes == SumPages(left) <= limit
        decreases |left|
      {
        SomethingLeft(left, page.capacity, limit);
        SumWithoutFirst(left);
        ListsTail(order, entries);
        assert order[1..] == left[1..] + [(key, page)];
        var oldest := order[0];
        bytes := bytes - oldest.1.capacity;
        entries := entries - {oldest.0};
        order := order[1..];
        n, left := n + 1, left[1..];
      }
      SumWithLast(left, (key, page));
      bytes := bytes + page.capacity;
    }

    method Clear()
      modifies this
      ensures Valid() && order == []
    {
      entries := map[];
      order := [];
      bytes := 0;
    }

    /** What the cache holds is what the file holds. */
    ghost predicate Faithful(file: Key -> Page)
      reads this
    {
      forall i :: 0 <= i < |order| ==> order[i].1 == file(order[i].0)
    }

    /** A page comes from the cache or the file; it is the same page either way. */
    method LocatedPage(key: Key, file: Key -> Page) returns (page: Page)
      requires Valid() && Faithful(file)
      modifies this
      ensures Valid() && Faithful(file) && page == file(key)
    {
      hide Lists;
      var found := Get(key);
      if found.Some? {
        return found.value;
      }
      page := file(key);
      Insert(key, page);
    }
  }

  lemma {:induction false} SomethingLeft(left: seq<(Key, Page)>, capacity: nat, limit: nat)
    requires capacity <= limit && capacity > limit - SumPages(left)
    ensures left != []
  {
  }

  // ---------------------------------------------------------------- the file

  /** A transaction with the numbers of its embedded events and stages, and the storage a copy takes. */
  datatype Tx = Tx(id: nat, generator: nat, events: seq<nat>, stages: seq<nat>, size: nat)

  datatype Located = Located(id: nat, generator: nat)

  /** Blocks say between which numbers theirs lie; `mostEmbedded` is zero when nothing is embedded. */
  datatype Block =
    | Located_(records: seq<Located>, least: nat, most: nat)
    | Owners(txs: seq<Tx>, least: nat, most: nat, leastEmbedded: nat, mostEmbedded: nat)
    | Other

  ghost predicate BlockOk(b: Block) {
    match b
    case Located_(records, least, most) => forall i :: 0 <= i < |records| ==> least <= records[i].id <= most
    case Owners(txs, least, most, leastEmbedded, mostEmbedded) =>
      && (forall i :: 0 <= i < |txs| ==> least <= txs[i].id <= most)
      && forall i, id: nat :: 0 <= i < |txs| && Embeds(txs[i], id) ==> leastEmbedded <= id <= mostEmbedded && (id != 0 ==> mostEmbedded != 0)
    case Other => true
  }

  ghost predicate FileOk(file: seq<Block>) {
    forall i :: 0 <= i < |file| ==> BlockOk(file[i])
  }

  datatype Answer = Nothing | ALocated(record: Located) | AnOwner(owner: Tx) | AnEvent(owner: Tx, index: nat) | AStage(owner: Tx, index: nat)

  function IndexOf(ids: seq<nat>, id: nat): (r: Option<nat>)
    ensures r.Some? ==> r.value < |ids| && ids[r.value] == id && forall i :: 0 <= i < r.value ==> ids[i] != id
    ensures r.None? <==> id !in ids
  {
    if ids == [] then None else if ids[0] == id then Some(0) else
      match IndexOf(ids[1..], id)
      case None => None
      case Some(i) => Some(i + 1)
  }

  function FindRecord(rs: seq<Located>, id: nat): (r: Option<Located>)
    ensures r.Some? ==> r.value in rs && r.value.id == id
    ensures r.None? <==> forall i :: 0 <= i < |rs| ==> rs[i].id != id
  {
    if rs == [] then None else if rs[0].id == id then Some(rs[0]) else FindRecord(rs[1..], id)
  }

  function FindTx(txs: seq<Tx>, id: nat): (r: Option<Tx>)
    ensures r.Some? ==> r.value in txs && r.value.id == id
    ensures r.None? <==> forall i :: 0 <= i < |txs| ==> txs[i].id != id
  {
    if txs == [] then None else if txs[0].id == id then Some(txs[0]) else FindTx(txs[1..], id)
  }

  predicate Embeds(tx: Tx, id: nat) {
    id in tx.events || id in tx.stages
  }

  function FindEmbedding(txs: seq<Tx>, id: nat): (r: Option<Tx>)
    ensures r.Some? ==> r.value in txs && Embeds(r.value, id)
    ensures r.None? <==> forall i :: 0 <= i < |txs| ==> !Embeds(txs[i], id)
  {
    if txs == [] then None else if Embeds(txs[0], id) then Some(txs[0]) else FindEmbedding(txs[1..], id)
  }

  function LocatedIn(file: seq<Block>, id: nat): (r: Option<Located>)
    ensures r.None? <==> forall i :: 0 <= i < |file| && file[i].Located_? ==> FindRecord(file[i].records, id).None?
    ensures r.Some? ==> exists i :: 0 <= i < |file| && file[i].Located_? && r.value in file[i].records && r.value.id == id
  {
    if file == [] then None
    else if file[0].Located_? && FindRecord(file[0].records, id).Some? then FindRecord(file[0].records, id)
    else
      var r := LocatedIn(file[1..], id);
      assert forall i :: 0 < i < |file| ==> file[1..][i - 1] == file[i];
      r
  }

  function OwnerIn(file: seq<Block>, id: nat): (r: Option<Tx>)
    ensures r.None? <==> forall i :: 0 <= i < |file| && file[i].Owners? ==> FindTx(file[i].txs, id).None?
    ensures r.Some? ==> InFile(file, r.value) && r.value.id == id
  {
    if file == [] then None
    else if file[0].Owners? && FindTx(file[0].txs, id).Some? then FindTx(file[0].txs, id)
    else
      var r := OwnerIn(file[1..], id);
      assert forall i :: 0 < i < |file| ==> file[1..][i - 1] == file[i];
      r
  }

  function EmbeddingIn(file: seq<Block>, id: nat): (r: Option<Tx>)
    ensures r.None? <==> forall i :: 0 <= i < |file| && file[i].Owners? ==> FindEmbedding(file[i].txs, id).None?
    ensures r.Some? ==> InFile(file, r.value) && Embeds(r.value, id)
  {
    if file == [] then None
    else if file[0].Owners? && FindEmbedding(file[0].txs, id).Some? then FindEmbedding(file[0].txs, id)
    else
      var r := EmbeddingIn(file[1..], id);
      assert forall i :: 0 < i < |file| ==> file[1..][i - 1] == file[i];
      r
  }

  ghost predicate InFile(file: seq<Block>, tx: Tx) {
    exists i :: 0 <= i < |file| && file[i].Owners? && tx in file[i].txs
  }

  function Embedded(tx: Tx, id: nat): Answer {
    match IndexOf(tx.events, id)
    case Some(i) => AnEvent(tx, i)
    case None =>
      match IndexOf(tx.stages, id)
      case Some(i) => AStage(tx, i)
      case None => Nothing
  }

  /** The answer of a reader that has cached nothing: located records, then owners, then what they embed. */
  function Fresh(file: seq<Block>, id: nat): Answer {
    if id == 0 then Nothing else
      match LocatedIn(file, id)
      case Some(r) => ALocated(r)
      case None =>
        match OwnerIn(file, id)
        case Some(tx) => AnOwner(tx)
        case None =>
          match EmbeddingIn(file, id)
          case Some(tx) => Embedded(tx, id)
          case None => Nothing
  }

  ghost predicate IsLocated(file: seq<Block>, r: Located) {
    exists i :: 0 <= i < |file| && file[i].Located_? && r in file[i].records
  }

  /** No record of any kind has the number. */
  ghost predicate NobodyHas(file: seq<Block>, id: nat) {
    && (forall r :: IsLocated(file, r) ==> r.id != id)
    && forall tx :: InFile(file, tx) ==> tx.id != id && id !in tx.events && id !in tx.stages
  }

  /** The answer is the record of the file with that number, or that there is none. */
  ghost predicate Answers(file: seq<Block>, id: nat, a: Answer) {
    match a
    case Nothing => id == 0 || NobodyHas(file, id)
    case ALocated(r) => id != 0 && IsLocated(file, r) && r.id == id
    case AnOwner(tx) => id != 0 && InFile(file, tx) && tx.id == id
    case AnEvent(tx, i) => id != 0 && InFile(file, tx) && i < |tx.events| && tx.events[i] == id
    case AStage(tx, i) => id != 0 && InFile(file, tx) && i < |tx.stages| && tx.stages[i] == id
  }

  /** A search of any file finds a record with that number whenever there is one. */
  lemma {:induction false} FreshAnswers(file: seq<Block>, id: nat)
    ensures Answers(file, id, Fresh(file, id))
  {
    hide InFile;
    if id != 0 {
      NotLocated(file, id);
      var r := LocatedIn(file, id);
      if r.None? && OwnerIn(file, id).None? && EmbeddingIn(file, id).None? {
        forall tx | InFile(file, tx)
          ensures tx.id != id && id !in tx.events && id !in tx.stages
        {
          FoundInFile(file, tx, id);
        }
      }
    }
  }

  lemma {:induction false} NotLocated(file: seq<Block>, id: nat)
    ensures match LocatedIn(file, id)
            case None => forall r :: IsLocated(file, r) ==> r.id != id
            case Some(r) => IsLocated(file, r) && r.id == id
  {
    hide LocatedIn;
    if LocatedIn(file, id).None? {
      forall r | IsLocated(file, r)
        ensures r.id != id
      {
        var i :| 0 <= i < |file| && file[i].Located_? && r in file[i].records;
        assert FindRecord(file[i].records, id).None?;
      }
    }
  }

  ghost predicate LocatedOnce(file: seq<Block>) {
    forall a, b :: IsLocated(file, a) && IsLocated(file, b) && a.id == b.id ==> a == b
  }

  /** With numbers given once there is only one right answer. */
  lemma {:induction false} OnlyAnswer(file: seq<Block>, id: nat, a: Answer, b: Answer)
    requires UniqueIds(file) && LocatedOnce(file) && Answers(file, id, a) && Answers(file, id, b)
    ensures a == b
  {
    hide UniqueIds, InFile, Different, LocatedIn, IsLocated;
    NotLocated(file, id);
    if OwnerOf(a).Some? {
      OwnersNumber(file, id, a);
    }
    if OwnerOf(b).Some? {
      OwnersNumber(file, id, b);
    }
    if OwnerOf(a).Some? && OwnerOf(b).Some? {
      OneOwner(file, id, a, b);
    }
  }

  /** The owner that an answer is or lies in. */
  function OwnerOf(a: Answer): Option<Tx> {
    match a
    case AnOwner(tx) => Some(tx)
    case AnEvent(tx, _) => Some(tx)
    case AStage(tx, _) => Some(tx)
    case _ => None
  }

  lemma {:induction false} OwnersNumber(file: seq<Block>, id: nat, a: Answer)
    requires UniqueIds(file) && Answers(file, id, a) && OwnerOf(a).Some?
    ensures LocatedIn(file, id).None? && InFile(file, OwnerOf(a).value)
    ensures var tx := OwnerOf(a).value; if a.AnOwner? then tx.id == id else Embeds(tx, id)
  {
    hide UniqueIds, InFile, Different, LocatedIn;
    var tx := OwnerOf(a).value;
    NotEmbedded(file, tx, tx);
    if !a.AnOwner? {
      EmbeddedOnce(file, tx, tx, id);
    }
  }

  lemma {:induction false} OneOwner(file: seq<Block>, id: nat, a: Answer, b: Answer)
    requires UniqueIds(file) && Answers(file, id, a) && Answers(file, id, b) && OwnerOf(a).Some? && OwnerOf(b).Some?
    ensures a == b
  {
    hide UniqueIds, InFile, LocatedIn;
    var x, y := OwnerOf(a).value, OwnerOf(b).value;
    NotEmbedded(file, x, y);
    NotEmbedded(file, y, x);
    if !a.AnOwner? {
      EmbeddedOnce(file, x, y, id);
    }
  }

  /** No number is given twice in the whole file. */
  ghost predicate UniqueIds(file: seq<Block>) {
    && (forall a, b :: InFile(file, a) && InFile(file, b) && (a.id == b.id || exists id :: Embeds(a, id) && Embeds(b, id)) ==> a == b)
    && (forall a, b :: InFile(file, a) && InFile(file, b) ==> !Embeds(a, b.id))
    && (forall a :: InFile(file, a) ==> Different(a))
    && (forall a :: InFile(file, a) ==> LocatedIn(file, a.id).None? && forall id :: Embeds(a, id) ==> LocatedIn(file, id).None?)
  }

  ghost predicate Different(tx: Tx) {
    && (forall i, j :: 0 <= i < j < |tx.events| ==> tx.events[i] != tx.events[j])
    && (forall i, j :: 0 <= i < j < |tx.stages| ==> tx.stages[i] != tx.stages[j])
    && (forall i, j :: 0 <= i < |tx.events| && 0 <= j < |tx.stages| ==> tx.events[i] != tx.stages[j])
    && !Embeds(tx, 0) && tx.id != 0
  }

  lemma {:induction false} NotEmbedded(file: seq<Block>, a: Tx, b: Tx)
    requires UniqueIds(file) && InFile(file, a) && InFile(file, b)
    ensures !Embeds(a, b.id) && Different(a) && (a.id == b.id ==> a == b) && LocatedIn(file, a.id).None?
  {
    hide Different, LocatedIn, InFile, Embeds;
  }

  lemma {:induction false} EmbeddedOnce(file: seq<Block>, a: Tx, b: Tx, id: nat)
    requires UniqueIds(file) && InFile(file, a) && InFile(file, b) && Embeds(a, id)
    ensures Embeds(b, id) ==> a == b
    ensures LocatedIn(file, id).None?
  {
    hide Different, LocatedIn, InFile, Embeds;
  }

  lemma {:induction false} FoundInFile(file: seq<Block>, tx: Tx, id: nat)
    requires InFile(file, tx)
    ensures tx.id == id ==> OwnerIn(file, id).Some?
    ensures Embeds(tx, id) ==> EmbeddingIn(file, id).Some?
  {
    var i :| 0 <= i < |file| && file[i].Owners? && tx in file[i].txs;
    assert tx.id == id ==> FindTx(file[i].txs, id).Some?;
    assert Embeds(tx, id) ==> FindEmbedding(file[i].txs, id).Some?;
  }

  /** A cached owner is the answer of a reader that has cached nothing. */
  lemma {:induction false} CachedOwnerIsFresh(file: seq<Block>, tx: Tx)
    requires UniqueIds(file) && InFile(file, tx)
    ensures OwnerIn(file, tx.id) == Some(tx) && Fresh(file, tx.id) == AnOwner(tx)
  {
    hide UniqueIds, LocatedIn, OwnerIn, EmbeddingIn, InFile;
    FoundInFile(file, tx, tx.id);
    NotEmbedded(file, tx, OwnerIn(file, tx.id).value);
  }

  /** So is what a cached owner embeds. */
  lemma {:induction false} CachedDetailIsFresh(file: seq<Block>, tx: Tx, index: nat, stage: bool)
    requires UniqueIds(file) && InFile(file, tx) && index < |if stage then tx.stages else tx.events|
    ensures var id := (if stage then tx.stages else tx.events)[index];
      Fresh(file, id) == if stage then AStage(tx, index) else AnEvent(tx, index)
  {
    hide UniqueIds, LocatedIn, OwnerIn, EmbeddingIn, InFile, Different, Embedded;
    var id := (if stage then tx.stages else tx.events)[index];
    FoundInFile(file, tx, id);
    NoOwner(file, tx, id);
    EmbeddedOnce(file, tx, EmbeddingIn(file, id).value, id);
    NotEmbedded(file, tx, tx);
    PlaceOf(tx, index, stage);
  }

  lemma {:induction false} PlaceOf(tx: Tx, index: nat, stage: bool)
    requires Different(tx) && index < |if stage then tx.stages else tx.events|
    ensures var id := (if stage then tx.stages else tx.events)[index];
      id != 0 && Embedded(tx, id) == if stage then AStage(tx, index) else AnEvent(tx, index)
  {
    hide IndexOf;
    var id := (if stage then tx.stages else tx.events)[index];
    assert Embeds(tx, id);
  }

  lemma {:induction false} NoOwner(file: seq<Block>, tx: Tx, id: nat)
    requires UniqueIds(file) && InFile(file, tx) && Embeds(tx, id)
    ensures OwnerIn(file, id).None?
  {
    hide UniqueIds, InFile;
    if OwnerIn(file, id).Some? {
      NotEmbedded(file, tx, OwnerIn(file, id).value);
    }
  }

  // ---------------------------------------------------------------- searching the file

  lemma {:induction false} AllOwners(file: seq<Block>, id: nat)
    ensures OwnerIn(file, id).None? ==> forall tx :: InFile(file, tx) ==> tx.id != id
  {
    hide OwnerIn, InFile;
    forall tx | InFile(file, tx) && tx.id == id
      ensures OwnerIn(file, id).Some?
    {
      FoundInFile(file, tx, id);
    }
  }

  method SearchLocated(file: seq<Block>, id: nat) returns (r: Option<Located>)
    requires FileOk(file)
    ensures r == LocatedIn(file, id)
  {
    hide LocatedIn;
    assert file[0..] == file;
    for i := 0 to |file|
      invariant LocatedIn(file, id) == LocatedIn(file[i..], id)
    {
      LocatedStep(file[i..], id);
      assert file[i..][1..] == file[i + 1..] && file[i..][0] == file[i] && BlockOk(file[i]);
      if !file[i].Located_? || id < file[i].least || id > file[i].most {
        continue;
      }
      var found := FindRecord(file[i].records, id);
      if found.Some? {
        return found;
      }
    }
    LocatedStep(file[|file|..], id);
    r := None;
  }

  lemma {:induction false} LocatedStep(file: seq<Block>, id: nat)
    ensures LocatedIn(file, id) ==
            if file == [] then None
            else if file[0].Located_? && FindRecord(file[0].records, id).Some? then FindRecord(file[0].records, id)
            else LocatedIn(file[1..], id)
  {
  }

  method SearchOwner(file: seq<Block>, id: nat) returns (r: Option<Tx>)
    requires FileOk(file)
    ensures r == OwnerIn(file, id)
  {
    hide OwnerIn;
    assert file[0..] == file;
    for i := 0 to |file|
      invariant OwnerIn(file, id) == OwnerIn(file[i..], id)
    {
      OwnerStep(file[i..], id);
      assert file[i..][1..] == file[i + 1..] && file[i..][0] == file[i] && BlockOk(file[i]);
      if !file[i].Owners? || file[i].txs == [] || id < file[i].least || id > file[i].most {
        continue;
      }
      var found := FindTx(file[i].txs, id);
      if found.Some? {
        return found;
      }
    }
    OwnerStep(file[|file|..], id);
    r := None;
  }

  lemma {:induction false} OwnerStep(file: seq<Block>, id: nat)
    ensures OwnerIn(file, id) ==
            if file == [] then None
            else if file[0].Owners? && FindTx(file[0].txs, id).Some? then FindTx(file[0].txs, id)
            else OwnerIn(file[1..], id)
  {
  }

  method SearchEmbedding(file: seq<Block>, id: nat) returns (r: Option<Tx>)
    requires FileOk(file) && id != 0
    ensures r == EmbeddingIn(file, id)
  {
    hide EmbeddingIn, Embeds;
    assert file[0..] == file;
    for i := 0 to |file|
      invariant EmbeddingIn(file, id) == EmbeddingIn(file[i..], id)
    {
      EmbeddingStep(file[i..], id);
      assert file[i..][1..] == file[i + 1..] && file[i..][0] == file[i] && BlockOk(file[i]);
      if !file[i].Owners? || file[i].mostEmbedded == 0 || id < file[i].leastEmbedded || id > file[i].mostEmbedded {
        continue;
      }
      var found := FindEmbedding(file[i].txs, id);
      if found.Some? {
        return found;
      }
    }
    EmbeddingStep(file[|file|..], id);
    r := None;
  }

  lemma {:induction false} EmbeddingStep(file: seq<Block>, id: nat)
    ensures EmbeddingIn(file, id) ==
            if file == [] then None
            else if file[0].Owners? && FindEmbedding(file[0].txs, id).Some? then FindEmbedding(file[0].txs, id)
            else EmbeddingIn(file[1..], id)
  {
  }

  // ---------------------------------------------------------------- owners

  /** Where an embedded record is: in which owner, at which place, and in which list. */
  datatype Detail = Detail(owner: nat, index: nat, stage: bool)

  predicate Points(d: Detail, id: nat, tx: Tx) {
    d.owner == tx.id && if d.stage then d.index < |tx.stages| && tx.stages[d.index] == id else d.index < |tx.events| && tx.events[d.index] == id
  }

  /** Details point only at cached owners, and at the right place. */
  ghost predicate DetailsOk(details: map<nat, Detail>, cache: map<nat, Tx>) {
    forall id :: id in details ==> details[id].owner in cache && Points(details[id], id, cache[details[id].owner])
  }

  /** The queue names the cached owners, oldest first. */
  ghost predicate Queued(owners: seq<Tx>, order: seq<nat>, cache: map<nat, Tx>) {
    && |owners| == |order| == |cache|
    && (forall i :: 0 <= i < |order| ==> order[i] == owners[i].id && order[i] in cache && cache[order[i]] == owners[i])
    && (forall i, j :: 0 <= i < j < |order| ==> order[i] != order[j])
    && forall id :: id in cache ==> id in order
  }

  function SumOwners(owners: seq<Tx>): nat {
    if owners == [] then 0 else owners[0].size + SumOwners(owners[1..])
  }

  lemma {:induction false} SumOfMore(owners: seq<Tx>, tx: Tx)
    ensures SumOwners(owners + [tx]) == SumOwners(owners) + tx.size
  {
    if owners == [] {
      assert (owners + [tx])[1..] == [];
    } else {
      SumOfMore(owners[1..], tx);
      assert (owners + [tx])[1..] == owners[1..] + [tx];
    }
  }

  lemma {:induction false} QueueGrows(owners: seq<Tx>, order: seq<nat>, cache: map<nat, Tx>, tx: Tx)
    requires Queued(owners, order, cache) && tx.id !in cache
    ensures Queued(owners + [tx], order + [tx.id], cache[tx.id := tx])
  {
    var order' := order + [tx.id];
    assert order'[|order|] == tx.id;
    forall id | id in cache
      ensures id in order'
    {
      var i :| 0 <= i < |order| && order[i] == id;
      assert order'[i] == id;
    }
  }

  lemma {:induction false} QueueShrinks(owners: seq<Tx>, order: seq<nat>, cache: map<nat, Tx>)
    requires Queued(owners, order, cache) && owners != []
    ensures order != [] && order[0] in cache && cache[order[0]] == owners[0] && owners[0].id == order[0]
    ensures Queued(owners[1..], order[1..], cache - {order[0]})
  {
    var cache', order' := cache - {order[0]}, order[1..];
    OneFewer(cache, order[0]);
    forall i | 0 <= i < |order'|
      ensures order'[i] == owners[1..][i].id && order'[i] in cache' && cache'[order'[i]] == owners[1..][i]
    {
      assert order'[i] == order[i + 1];
    }
    StillNamed(order, cache);
  }

  lemma {:induction false} OneFewer(cache: map<nat, Tx>, id: nat)
    requires id in cache
    ensures |cache - {id}| + 1 == |cache|
  {
    assert cache.Keys == (cache - {id}).Keys + {id};
  }

  lemma {:induction false} StillNamed(order: seq<nat>, cache: map<nat, Tx>)
    requires order != [] && forall id :: id in cache ==> id in order
    ensures forall id :: id in cache - {order[0]} ==> id in order[1..]
  {
    forall id | id in cache - {order[0]}
      ensures id in order[1..]
    {
      var i :| 0 <= i < |order| && order[i] == id;
      assert order[1..][i - 1] == id;
    }
  }

  lemma {:induction false} QueueFacts(owners: seq<Tx>, order: seq<nat>, cache: map<nat, Tx>)
    requires Queued(owners, order, cache)
    ensures |owners| == |order| == |cache|
    ensures forall id :: id in cache ==> cache[id].id == id && cache[id] in owners
  {
    forall id | id in cache
      ensures cache[id].id == id && cache[id] in owners
    {
      var i :| 0 <= i < |order| && order[i] == id;
      assert owners[i] == cache[id];
    }
  }

  class OwnerCache {
    const maxEntries: nat
    const budget: nat
    var cache: map<nat, Tx>
    var details: map<nat, Detail>
    var order: seq<nat>
    var bytes: nat
    ghost var owners: seq<Tx>

    ghost predicate Valid()
      reads this
    {
      && Queued(owners, order, cache) && DetailsOk(details, cache)
      && bytes == SumOwners(owners) <= budget && |owners| <= maxEntries
    }

    ghost predicate Faithful(file: seq<Block>)
      reads this
    {
      forall i :: 0 <= i < |owners| ==> InFile(file, owners[i])
    }

    constructor (maxEntries: nat, budget: nat)
      ensures Valid() && owners == [] && this.maxEntries == maxEntries && this.budget == budget
    {
      this.maxEntries, this.budget := maxEntries, budget;
      cache, details, order, bytes, owners := map[], map[], [], 0, [];
    }

    /** `forget_details`: nothing points at the owner any more. */
    method ForgetDetails(tx: Tx)
      requires DetailsOk(details, cache) && tx.id in cache && cache[tx.id] == tx
      modifies this`details
      ensures DetailsOk(details, cache) && forall id :: id in details ==> details[id].owner != tx.id
    {
      for i := 0 to |tx.events|
        invariant DetailsOk(details, cache)
        invariant forall id :: id in details && details[id].owner == tx.id ==> id !in tx.events[..i]
      {
        var id := tx.events[i];
        if id in details && details[id].owner == tx.id {
          details := details - {id};
        }
        assert tx.events[..i + 1] == tx.events[..i] + [id];
      }
      assert tx.events[..|tx.events|] == tx.events;
      for i := 0 to |tx.stages|
        invariant DetailsOk(details, cache)
        invariant forall id :: id in details && details[id].owner == tx.id ==> id !in tx.events && id !in tx.stages[..i]
      {
        var id := tx.stages[i];
        if id in details && details[id].owner == tx.id {
          details := details - {id};
        }
        assert tx.stages[..i + 1] == tx.stages[..i] + [id];
      }
      assert tx.stages[..|tx.stages|] == tx.stages;
    }

    method AddDetails(tx: Tx)
      requires DetailsOk(details, cache) && tx.id in cache && cache[tx.id] == tx
      modifies this`details
      ensures DetailsOk(details, cache)
    {
      for i := 0 to |tx.events|
        invariant DetailsOk(details, cache)
      {
        if tx.events[i] !in details {
          details := details[tx.events[i] := Detail(tx.id, i, false)];
        }
      }
      for i := 0 to |tx.stages|
        invariant DetailsOk(details, cache)
      {
        if tx.stages[i] !in details {
          details := details[tx.stages[i] := Detail(tx.id, i, true)];
        }
      }
    }

    /** The oldest owner leaves, and so does everything that points at it. */
    method EvictOldest()
      requires Queued(owners, order, cache) && DetailsOk(details, cache) && owners != [] && bytes >= owners[0].size
      modifies this
      ensures Queued(owners, order, cache) && DetailsOk(details, cache)
      ensures owners == old(owners)[1..] && bytes == old(bytes) - old(owners)[0].size
    {
      hide DetailsOk, Queued;
      QueueShrinks(owners, order, cache);
      var id := order[0];
      order := order[1..];
      bytes := bytes - cache[id].size;
      ForgetDetails(cache[id]);
      CacheShrinks(details, cache, id);
      cache := cache - {id};
      owners := owners[1..];
    }

    /** The oldest owners go until the new one fits, in number and in storage; the new one itself is never among them. */
    method MakeRoom(tx: Tx, ghost before: seq<Tx>) returns (ghost n: nat)
      requires Queued(owners, order, cache) && DetailsOk(details, cache) && owners == before + [tx]
      requires bytes == SumOwners(before) <= budget && |before| <= maxEntries && maxEntries > 0 && tx.size <= budget
      modifies this
      ensures Queued(owners, order, cache) && DetailsOk(details, cache)
      ensures n <= |before| && owners == before[n..] + [tx]
      ensures bytes == SumOwners(before[n..]) && bytes + tx.size <= budget && |owners| <= maxEntries
    {
      hide DetailsOk, Queued;
      n := 0;
      QueueFacts(owners, order, cache);
      assert before[0..] == before;
      while |cache| > maxEntries || tx.size > budget - bytes
        invariant n <= |before| && owners == before[n..] + [tx]
        invariant Queued(owners, order, cache) && DetailsOk(details, cache) && |cache| == |owners|
        invariant bytes == SumOwners(before[n..]) <= budget
        decreases |before| - n
      {
        NobodyLeft(before[n..], |cache|, maxEntries, tx.size, budget);
        assert before[n..][1..] == before[n + 1..] && owners[1..] == before[n + 1..] + [tx];
        EvictOldest();
        QueueFacts(owners, order, cache);
        n := n + 1;
      }
    }

    method Remember(tx: Tx) returns (ref: Tx)
      requires Valid()
      modifies this
      ensures Valid() && ref.id == tx.id
      ensures tx.id in old(cache) ==> ref == old(cache)[tx.id] && owners == old(owners)
      ensures tx.id !in old(cache) ==> ref == tx
      ensures tx.id !in old(cache) ==>
                if maxEntries == 0 || tx.size > budget then owners == old(owners)
                else exists n :: 0 <= n <= |old(owners)| && owners == old(owners)[n..] + [tx]
    {
      hide DetailsOk, Queued;
      QueueFacts(owners, order, cache);
      if tx.id in cache {
        return cache[tx.id];
      }
      ref := tx;
      if maxEntries == 0 || tx.size > budget {
        return;
      }
      QueueGrows(owners, order, cache, tx);
      CacheGrows(details, cache, tx);
      ghost var before := owners;
      order := order + [tx.id];
      cache := cache[tx.id := tx];
      owners := owners + [tx];
      AddDetails(tx);
      ghost var n := MakeRoom(tx, before);
      SumOfMore(before[n..], tx);
      bytes := bytes + tx.size;
    }

    method Clear()
      modifies this
      ensures Valid() && owners == []
    {
      cache, details, order, bytes, owners := map[], map[], [], 0, [];
    }

    /** `transaction`: the same whatever is cached. */
    method Transaction(file: seq<Block>, id: nat) returns (r: Option<Tx>)
      requires Valid() && Faithful(file) && UniqueIds(file) && FileOk(file)
      modifies this
      ensures Valid() && Faithful(file)
      ensures r == if id == 0 then None else OwnerIn(file, id)
      ensures if r.Some? then InFile(file, r.value) && r.value.id == id != 0
              else id == 0 || forall tx :: InFile(file, tx) ==> tx.id != id
    {
      hide DetailsOk, UniqueIds, InFile, OwnerIn, FileOk;
      if id == 0 {
        return None;
      }
      AllOwners(file, id);
      if id in cache {
        CachedOwnerIsFresh(file, cache[id]);
        return Some(cache[id]);
      }
      var found := SearchOwner(file, id);
      if found.Some? {
        var ref := Remember(found.value);
        return Some(ref);
      }
      r := None;
    }

    /** `lookup`: the record with that number if the file has one, whatever is cached. */
    method Lookup(file: seq<Block>, id: nat) returns (r: Answer)
      requires Valid() && Faithful(file) && UniqueIds(file) && FileOk(file)
      modifies this
      ensures Valid() && Faithful(file) && r == Fresh(file, id) && Answers(file, id, r)
    {
      hide Answers, DetailsOk, UniqueIds, InFile, OwnerIn, FileOk, LocatedIn, EmbeddingIn, Embedded;
      FreshAnswers(file, id);
      if id == 0 {
        return Nothing;
      }
      if id in cache {
        CachedOwnerIsFresh(file, cache[id]);
        return AnOwner(cache[id]);
      }
      if id in details {
        DetailIs(details, cache, id);
        var d := details[id];
        var owner := cache[d.owner];
        CachedDetailIsFresh(file, owner, d.index, d.stage);
        return if d.stage then AStage(owner, d.index) else AnEvent(owner, d.index);
      }
      var located := SearchLocated(file, id);
      if located.Some? {
        return ALocated(located.value);
      }
      var owner := Transaction(file, id);
      if owner.Some? {
        return AnOwner(owner.value);
      }
      var found := SearchEmbedding(file, id);
      if found.None? {
        return Nothing;
      }
      var ref := RememberInFile(found.value, file);
      r := Embedded(ref, id);
    }

    method RememberInFile(tx: Tx, ghost file: seq<Block>) returns (ref: Tx)
      requires Valid() && Faithful(file) && UniqueIds(file) && InFile(file, tx)
      modifies this
      ensures Valid() && Faithful(file) && ref == tx
    {
      hide DetailsOk, UniqueIds, InFile;
      if tx.id in cache {
        NotEmbedded(file, tx, cache[tx.id]);
      }
      ref := Remember(tx);
    }
  }

  lemma {:induction false} DetailIs(details: map<nat, Detail>, cache: map<nat, Tx>, id: nat)
    requires DetailsOk(details, cache) && id in details
    ensures details[id].owner in cache && Points(details[id], id, cache[details[id].owner])
  {
  }

  lemma {:induction false} NobodyLeft(left: seq<Tx>, entries: nat, maxEntries: nat, size: nat, budget: nat)
    requires entries == |left| + 1 && maxEntries > 0 && size <= budget && (entries > maxEntries || size > budget - SumOwners(left))
    ensures left != []
  {
  }

  lemma {:induction false} CacheGrows(details: map<nat, Detail>, cache: map<nat, Tx>, tx: Tx)
    requires DetailsOk(details, cache) && tx.id !in cache
    ensures DetailsOk(details, cache[tx.id := tx])
  {
  }

  lemma {:induction false} CacheShrinks(details: map<nat, Detail>, cache: map<nat, Tx>, owner: nat)
    requires DetailsOk(details, cache) && forall id :: id in details ==> details[id].owner != owner
    ensures DetailsOk(details, cache - {owner})
  {
  }
}
