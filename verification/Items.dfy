/** The in-memory item repository, and the service that writes to it and then announces the write. */
module Items {
  import opened Logs

  datatype Item = Item(id: string, name: string, description: Option<string>, projectId: Option<string>)

  /** DuplicateItemNameError, or a value. */
  datatype Result<+T> = Done(value: T) | DuplicateName(name: string)

  // ---- a Python dict of items: distinct ids, in insertion order --------------------

  function IndexOf(store: seq<Item>, id: string): (k: nat)
    ensures k <= |store|
    ensures k < |store| ==> store[k].id == id
    ensures forall j :: 0 <= j < k ==> store[j].id != id
  {
    if store == [] || store[0].id == id then 0 else 1 + IndexOf(store[1..], id)
  }

  predicate Has(store: seq<Item>, id: string) {
    IndexOf(store, id) < |store|
  }

  /** `store[item.id] = item`: a key that exists keeps its place. */
  function Put(store: seq<Item>, item: Item): seq<Item> {
    if Has(store, item.id) then store[IndexOf(store, item.id) := item] else store + [item]
  }

  function Pop(store: seq<Item>, id: string): seq<Item> {
    if Has(store, id) then store[..IndexOf(store, id)] + store[IndexOf(store, id) + 1..] else store
  }

  /** `_name_taken`: some item other than `except` has the name, up to normalisation. */
  predicate NameTaken(norm: string -> string, store: seq<Item>, name: string, except: Option<string>) {
    exists k :: 0 <= k < |store| && except != Some(store[k].id) && norm(store[k].name) == norm(name)
  }

  lemma HasIs(store: seq<Item>, id: string)
    ensures Has(store, id) <==> exists item :: item in store && item.id == id
  {
    if Has(store, id) {
      assert store[IndexOf(store, id)] in store;
    }
  }

  lemma TakenIs(norm: string -> string, store: seq<Item>, name: string, except: Option<string>)
    ensures NameTaken(norm, store, name, except) <==>
              exists item :: item in store && except != Some(item.id) && norm(item.name) == norm(name)
  {
    if item :| item in store && except != Some(item.id) && norm(item.name) == norm(name) {
      var k :| 0 <= k < |store| && store[k] == item;
    }
  }

  ghost predicate Unique(norm: string -> string, store: seq<Item>) {
    forall j, k :: 0 <= j < k < |store| ==> store[j].id != store[k].id && norm(store[j].name) != norm(store[k].name)
  }

  lemma PutKeepsUnique(norm: string -> string, store: seq<Item>, item: Item)
    requires Unique(norm, store) && !NameTaken(norm, store, item.name, Some(item.id))
    ensures Unique(norm, Put(store, item))
  {
    forall k | 0 <= k < |store| ensures store[k].id == item.id || norm(store[k].name) != norm(item.name) {
    }
  }

  lemma PopKeepsUnique(norm: string -> string, store: seq<Item>, id: string)
    requires Unique(norm, store)
    ensures Unique(norm, Pop(store, id)) && !Has(Pop(store, id), id)
  {
    var gap, rest := IndexOf(store, id), Pop(store, id);
    forall k | 0 <= k < |rest| ensures rest[k] == if k < gap then store[k] else store[k + 1] {
    }
  }

  /** A write touches the item with its id and no other. */
  lemma PutIsLocal(store: seq<Item>, item: Item)
    ensures item in Put(store, item)
    ensures forall other: Item :: other.id != item.id ==> (other in store <==> other in Put(store, item))
  {
    var k, after := IndexOf(store, item.id), Put(store, item);
    assert after[k] == item;
    forall other: Item | other.id != item.id ensures other in store <==> other in after {
      forall j | 0 <= j < |store| && store[j] == other ensures after[j] == other {
      }
    }
  }

  lemma PopIsLocal(store: seq<Item>, id: string)
    ensures forall other: Item :: other.id != id ==> (other in store <==> other in Pop(store, id))
  {
    var k := IndexOf(store, id);
    if k < |store| {
      assert store == store[..k] + [store[k]] + store[k + 1..];
    }
  }

  // ---- Python slices -------------------------------------------------------------

  /** Where a slice bound falls in a list of length n. */
  function Bound(i: int, n: nat): (b: nat)
    ensures b <= n
  {
    if i >= n then n else if i >= 0 then i else if i + n >= 0 then i + n else 0
  }

  /** Whether a position is at or after a slice bound; a negative bound counts from the end. */
  predicate FromBound(k: int, i: int, n: nat) {
    if i >= 0 then k >= i else k >= i + n
  }

  /** A slice holds, in order, exactly the items at or after its first bound and before its second. */
  lemma PageIsSlice(store: seq<Item>, limit: int, offset: int) returns (lo: nat)
    ensures lo + |Page(store, limit, offset)| <= |store|
    ensures Page(store, limit, offset) == store[lo..lo + |Page(store, limit, offset)|]
    ensures forall k :: 0 <= k < |store| ==>
              (lo <= k < lo + |Page(store, limit, offset)| <==>
                 FromBound(k, offset, |store|) && !FromBound(k, offset + limit, |store|))
  {
    lo := Bound(offset, |store|);
    var hi := Bound(offset + limit, |store|);
    if lo > hi {
      lo := 0;
    }
  }

  /** `all_items[offset: offset + limit]` */
  function Page(store: seq<Item>, limit: int, offset: int): seq<Item> {
    var lo, hi := Bound(offset, |store|), Bound(offset + limit, |store|);
    if lo <= hi then store[lo..hi] else []
  }

  /** The pages a client sees that steps the offset by `limit` until it reaches the total. */
  function Walk(store: seq<Item>, limit: nat, offset: nat): seq<Item>
    requires limit > 0
    decreases |store| - offset
  {
    if offset >= |store| then [] else Page(store, limit, offset) + Walk(store, limit, offset + limit)
  }

  /** Walking a list page by page shows each item once, in order, and misses none. */
  lemma {:induction false} WalkShowsAll(store: seq<Item>, limit: nat, offset: nat)
    requires limit > 0
    ensures Walk(store, limit, offset) == store[Bound(offset, |store|)..]
    decreases |store| - offset
  {
    if offset < |store| {
      WalkShowsAll(store, limit, offset + limit);
      var next := Bound(offset + limit, |store|);
      assert store[offset..next] + store[next..] == store[offset..];
    }
  }

  class InMemoryItemRepository {
    const norm: string -> string
    var store: seq<Item>

    ghost predicate Valid()
      reads this
    {
      Unique(norm, store)
    }

    constructor (norm: string -> string)
      ensures Valid() && store == [] && this.norm == norm
    {
      this.norm := norm;
      store := [];
    }

    function Get(id: string): (r: Option<Item>)
      reads this
      ensures r.Some? ==> r.value in store && r.value.id == id
      ensures r.None? ==> forall k :: 0 <= k < |store| ==> store[k].id != id
    {
      if Has(store, id) then Some(store[IndexOf(store, id)]) else None
    }

    method GetByName(name: string) returns (r: Option<Item>)
      requires Valid()
      ensures r.Some? <==> NameTaken(norm, store, name, None)
      ensures forall item :: r == Some(item) <==> item in store && norm(item.name) == norm(name)
    {
      r := None;
      var k := 0;
      while k < |store|
        invariant 0 <= k <= |store| && r == None
        invariant forall j :: 0 <= j < k ==> norm(store[j].name) != norm(name)
      {
        if norm(store[k].name) == norm(name) {
          return Some(store[k]);
        }
        k := k + 1;
      }
    }

    /** For bounds a client can send, the page holds the items from `offset` on, at most `limit` of them
        and no fewer unless the list ends. */
    method List(limit: int, offset: int) returns (page: seq<Item>, total: nat)
      ensures total == |store| && page == Page(store, limit, offset)
      ensures limit >= 0 && offset >= 0 ==>
                && |page| == (if offset + limit <= total then limit else if offset <= total then total - offset else 0)
                && forall k :: 0 <= k < |page| ==> page[k] == store[offset + k]
    {
      page, total := Page(store, limit, offset), |store|;
    }

    method Create(item: Item) returns (r: Result<Item>)
      requires Valid()
      modifies this
      ensures Valid()
      ensures r == if NameTaken(norm, old(store), item.name, None) then DuplicateName(item.name) else Done(item)
      ensures store == if r.Done? then Put(old(store), item) else old(store)
      ensures r.DuplicateName? <==> exists other :: other in old(store) && norm(other.name) == norm(item.name)
    {
      TakenIs(norm, store, item.name, None);
      if NameTaken(norm, store, item.name, None) {
        return DuplicateName(item.name);
      }
      PutKeepsUnique(norm, store, item);
      store := Put(store, item);
      r := Done(item);
    }

    method Update(item: Item) returns (r: Result<Option<Item>>)
      requires Valid()
      modifies this
      ensures Valid()
      ensures r == if !Has(old(store), item.id) then Done(None)
                   else if NameTaken(norm, old(store), item.name, Some(item.id)) then DuplicateName(item.name)
                   else Done(Some(item))
      ensures store == if r == Done(Some(item)) then Put(old(store), item) else old(store)
      // Refused exactly for the name of an item with another id; keeping one's own name is fine.
      ensures r == Done(None) <==> forall other :: other in old(store) ==> other.id != item.id
      ensures r.DuplicateName? <==>
                && (exists own :: own in old(store) && own.id == item.id)
                && (exists other :: other in old(store) && other.id != item.id && norm(other.name) == norm(item.name))
      ensures (exists own :: own in old(store) && own.id == item.id && norm(own.name) == norm(item.name)) ==>
                r == Done(Some(item))
    {
      HasIs(store, item.id);
      TakenIs(norm, store, item.name, Some(item.id));
      if !Has(store, item.id) {
        return Done(None);
      }
      if NameTaken(norm, store, item.name, Some(item.id)) {
        return DuplicateName(item.name);
      }
      PutKeepsUnique(norm, store, item);
      store := Put(store, item);
      r := Done(Some(item));
    }

    method Delete(id: string) returns (deleted: bool)
      requires Valid()
      modifies this
      ensures Valid()
      ensures deleted == Has(old(store), id) && store == Pop(old(store), id)
    {
      PopKeepsUnique(norm, store, id);
      deleted := Has(store, id);
      store := Pop(store, id);
    }
  }

  // ---- the service ------------------------------------------------------------------

  datatype Change = Created(item: Item) | Updated(item: Item) | Deleted(id: string)

  datatype Call = Create(item: Item) | Update(item: Item) | Delete(id: string)

  /** How a publish goes: it may raise before or after the event was recorded. */
  datatype Publishing = Accepted | RaisedAfter | RaisedBefore

  /** A call that changes nothing: a name another item has, or no item with the id. */
  predicate Rejected(norm: string -> string, store: seq<Item>, call: Call) {
    match call
    case Create(item) => NameTaken(norm, store, item.name, None)
    case Update(item) => !Has(store, item.id) || NameTaken(norm, store, item.name, Some(item.id))
    case Delete(id) => !Has(store, id)
  }

  function Applied(norm: string -> string, store: seq<Item>, call: Call): seq<Item> {
    if Rejected(norm, store, call) then store
    else
      match call
      case Create(item) => Put(store, item)
      case Update(item) => Put(store, item)
      case Delete(id) => Pop(store, id)
  }

  function Announced(norm: string -> string, store: seq<Item>, call: Call): seq<Change> {
    if Rejected(norm, store, call) then []
    else
      match call
      case Create(item) => [Created(item)]
      case Update(item) => [Updated(item)]
      case Delete(id) => [Deleted(id)]
  }

  class EventLog {
    var published: seq<Change>

    constructor ()
      ensures published == []
    {
      published := [];
    }

    method Publish(change: Change, how: Publishing) returns (raised: bool)
      modifies this
      ensures published == old(published) + if how.RaisedBefore? then [] else [change]
      ensures raised <==> !how.Accepted?
    {
      if !how.RaisedBefore? {
        published := published + [change];
      }
      raised := !how.Accepted?;
    }
  }

  class ItemService {
    const repo: InMemoryItemRepository
    const events: EventLog?

    constructor (repo: InMemoryItemRepository, events: EventLog?)
      ensures this.repo == repo && this.events == events
    {
      this.repo, this.events := repo, events;
    }

    ghost function Bus(): set<object> {
      if events == null then {} else {events}
    }

    ghost function Published(): seq<Change>
      reads Bus()
    {
      if events == null then [] else events.published
    }

    /** What the bus keeps of `changes`. */
    ghost function Kept(changes: seq<Change>, how: Publishing): seq<Change> {
      if events == null || how.RaisedBefore? then [] else changes
    }

    method Emit(change: Change, how: Publishing)
      modifies Bus()
      ensures Published() == old(Published()) + Kept([change], how)
    {
      if events != null {
        // A raised error is logged and dropped.
        var _ := events.Publish(change, how);
      }
    }

    /** The answer and the store do not depend on the bus, whatever it does. */
    method CreateItem(id: string, name: string, description: Option<string>, projectId: Option<string>, how: Publishing)
      returns (r: Result<Item>)
      requires repo.Valid()
      modifies repo, Bus()
      ensures repo.Valid()
      ensures var call := Create(Item(id, name, description, projectId));
              && r == (if Rejected(repo.norm, old(repo.store), call) then DuplicateName(name) else Done(call.item))
              && repo.store == Applied(repo.norm, old(repo.store), call)
              && Published() == old(Published()) + Kept(Announced(repo.norm, old(repo.store), call), how)
      ensures r.DuplicateName? <==>
                exists other :: other in old(repo.store) && repo.norm(other.name) == repo.norm(name)
    {
      r := repo.Create(Item(id, name, description, projectId));
      if r.Done? {
        Emit(Created(r.value), how);
      }
    }

    method UpdateItem(id: string, name: string, description: Option<string>, projectId: Option<string>, how: Publishing)
      returns (r: Result<Option<Item>>)
      requires repo.Valid()
      modifies repo, Bus()
      ensures repo.Valid()
      ensures var call := Update(Item(id, name, description, projectId));
              && r == (if !Rejected(repo.norm, old(repo.store), call) then Done(Some(call.item))
                       else if Has(old(repo.store), id) then DuplicateName(name) else Done(None))
              && repo.store == Applied(repo.norm, old(repo.store), call)
              && Published() == old(Published()) + Kept(Announced(repo.norm, old(repo.store), call), how)
      ensures r == Done(None) <==> forall other :: other in old(repo.store) ==> other.id != id
      ensures r.DuplicateName? <==>
                && (exists own :: own in old(repo.store) && own.id == id)
                && (exists other :: other in old(repo.store)
                     && other.id != id && repo.norm(other.name) == repo.norm(name))
      ensures (exists own :: own in old(repo.store) && own.id == id && repo.norm(own.name) == repo.norm(name)) ==>
                r == Done(Some(Item(id, name, description, projectId)))
    {
      r := repo.Update(Item(id, name, description, projectId));
      if r.Done? && r.value.Some? {
        Emit(Updated(r.value.value), how);
      }
    }

    method DeleteItem(id: string, how: Publishing) returns (deleted: bool)
      requires repo.Valid()
      modifies repo, Bus()
      ensures repo.Valid()
      ensures deleted == !Rejected(repo.norm, old(repo.store), Delete(id))
      ensures repo.store == Applied(repo.norm, old(repo.store), Delete(id))
      ensures Published() == old(Published()) + Kept(Announced(repo.norm, old(repo.store), Delete(id)), how)
    {
      deleted := repo.Delete(id);
      if deleted {
        Emit(Deleted(id), how);
      }
    }
  }

  // ---- rebuilding the store from its events -----------------------------------------

  /** A listener's copy of the list: append what is created, replace what is updated where it stands,
      and drop what is deleted. */
  function View(view: seq<Item>, change: Change): seq<Item> {
    match change
    case Created(item) => view + [item]
    case Updated(item) => seq(|view|, k requires 0 <= k < |view| => if view[k].id == item.id then item else view[k])
    case Deleted(id) => Without(view, id)
  }

  function Without(view: seq<Item>, id: string): seq<Item> {
    if view == [] then []
    else if view[0].id == id then Without(view[1..], id)
    else [view[0]] + Without(view[1..], id)
  }

  function Fold(view: seq<Item>, changes: seq<Change>): seq<Item> {
    if changes == [] then view else View(Fold(view, changes[..|changes| - 1]), changes[|changes| - 1])
  }

  function StoreAfter(norm: string -> string, calls: seq<Call>): seq<Item> {
    if calls == [] then []
    else Applied(norm, StoreAfter(norm, calls[..|calls| - 1]), calls[|calls| - 1])
  }

  function AllAnnounced(norm: string -> string, calls: seq<Call>): seq<Change> {
    if calls == [] then []
    else
      var before := calls[..|calls| - 1];
      AllAnnounced(norm, before) + Announced(norm, StoreAfter(norm, before), calls[|calls| - 1])
  }

  /** Every create brings an id that is not in the store (a new uuid4). */
  ghost predicate FreshIds(norm: string -> string, calls: seq<Call>) {
    forall k :: 0 <= k < |calls| && calls[k].Create? ==> !Has(StoreAfter(norm, calls[..k]), calls[k].item.id)
  }

  lemma {:induction false} NoneToDrop(view: seq<Item>, id: string)
    requires forall k :: 0 <= k < |view| ==> view[k].id != id
    ensures Without(view, id) == view
  {
    if view != [] {
      NoneToDrop(view[1..], id);
    }
  }

  lemma PopStep(store: seq<Item>, id: string)
    requires store != [] && store[0].id != id
    ensures Pop(store, id) == [store[0]] + Pop(store[1..], id)
  {
    var k := IndexOf(store[1..], id);
    if k < |store[1..]| {
      assert store[..k + 1] == [store[0]] + store[1..][..k];
      assert store[k + 2..] == store[1..][k + 1..];
    }
  }

  lemma {:induction false} WithoutIsPop(norm: string -> string, store: seq<Item>, id: string)
    requires Unique(norm, store)
    ensures Without(store, id) == Pop(store, id)
  {
    if store != [] {
      if store[0].id == id {
        NoneToDrop(store[1..], id);
      } else {
        WithoutIsPop(norm, store[1..], id);
        PopStep(store, id);
      }
    }
  }

  /** One call: what it announces takes a listener from the store before to the store after. */
  lemma CallIsAnnounced(norm: string -> string, store: seq<Item>, call: Call)
    requires Unique(norm, store) && (call.Create? ==> !Has(store, call.item.id))
    ensures Fold(store, Announced(norm, store, call)) == Applied(norm, store, call)
    ensures Unique(norm, Applied(norm, store, call))
  {
    if !Rejected(norm, store, call) {
      var changes := Announced(norm, store, call);
      assert changes[..0] == [] && Fold(store, changes) == View(store, changes[0]);
      match call
      case Create(item) => PutKeepsUnique(norm, store, item);
      case Update(item) =>
        PutKeepsUnique(norm, store, item);
        assert View(store, Updated(item)) == Put(store, item);
      case Delete(id) =>
        PopKeepsUnique(norm, store, id);
        WithoutIsPop(norm, store, id);
    }
  }

  lemma {:induction false} FoldConcat(view: seq<Item>, first: seq<Change>, second: seq<Change>)
    ensures Fold(view, first + second) == Fold(Fold(view, first), second)
  {
    if second == [] {
      assert first + second == first;
    } else {
      var n := |second| - 1;
      assert (first + second)[..|first| + n] == first + second[..n];
      FoldConcat(view, first, second[..n]);
    }
  }

  /** After any calls with fresh ids, folding the announced events from empty gives the store, with its
      list order, and no two items share an id or a normalised name. */
  lemma {:induction false} EventsRebuildTheStore(norm: string -> string, calls: seq<Call>)
    requires FreshIds(norm, calls)
    ensures Fold([], AllAnnounced(norm, calls)) == StoreAfter(norm, calls)
    ensures Unique(norm, StoreAfter(norm, calls))
  {
    if calls != [] {
      var n := |calls| - 1;
      var before := calls[..n];
      assert FreshIds(norm, before) by {
        forall k | 0 <= k < n && before[k].Create? ensures !Has(StoreAfter(norm, before[..k]), before[k].item.id) {
          assert before[..k] == calls[..k];
        }
      }
      EventsRebuildTheStore(norm, before);
      FoldConcat([], AllAnnounced(norm, before), Announced(norm, StoreAfter(norm, before), calls[n]));
      CallIsAnnounced(norm, StoreAfter(norm, before), calls[n]);
    }
  }

  /** A rejected call announces nothing and leaves the store alone; any other announces exactly one
      change, after which the item reads back as written, or not at all if it was deleted. */
  lemma AnnouncedIsWhatHappened(norm: string -> string, store: seq<Item>, call: Call)
    requires Unique(norm, store)
    ensures |Announced(norm, store, call)| == if Rejected(norm, store, call) then 0 else 1
    ensures Rejected(norm, store, call) ==> Applied(norm, store, call) == store
    ensures !Rejected(norm, store, call) && !call.Delete? ==> call.item in Applied(norm, store, call)
    ensures call.Delete? ==> !Has(Applied(norm, store, call), call.id)
    ensures forall item: Item :: item.id != (if call.Delete? then call.id else call.item.id) ==>
              (item in store <==> item in Applied(norm, store, call))
  {
    match call
    case Create(item) => PutIsLocal(store, item);
    case Update(item) => PutIsLocal(store, item);
    case Delete(id) =>
      PopKeepsUnique(norm, store, id);
      PopIsLocal(store, id);
  }
}
