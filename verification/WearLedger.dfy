/**
 The wear counters of pieces and outfits, and the log of wear events they must equal.
 Every mutation is one transaction: when it throws, none of its writes stay.
 */
module WearLedger {
  import opened Text

  datatype Item = Item(
    owner: nat, wearCount: nat, lastWornAt: Option<int>, laundry: string, status: string, storageId: Option<nat>,
    uploadId: Option<nat>, duplicateOf: Option<nat>, attributes: string, price: Option<int>, updatedAt: int)

  datatype Slots = Slots(
    outerwear: Option<nat>, top: Option<nat>, bottom: Option<nat>, dress: Option<nat>, shoes: Option<nat>,
    accessories: seq<nat>)

  datatype Outfit = Outfit(
    id: nat, owner: nat, wearCount: nat, slots: Slots, name: string, thread: Option<nat>, savedAt: Option<int>,
    updatedAt: int)

  datatype Event = Event(user: nat, itemIds: seq<nat>, outfit: Option<nat>, key: string, wornAt: int)

  /** Pieces by id, outfits in order of creation, the event log, and the next unused id. */
  datatype State = State(items: map<nat, Item>, outfits: seq<Outfit>, events: seq<Event>, nextId: nat)

  datatype Error = NotFound | InvalidInput | Conflict

  const INITIAL := State(map[], [], [], 0)

  // ----- Counting events -----

  /** The number of events that name a piece. */
  function Wears(events: seq<Event>, id: nat): nat {
    if events == [] then 0
    else Wears(events[..|events| - 1], id) + if id in events[|events| - 1].itemIds then 1 else 0
  }

  function OutfitWears(events: seq<Event>, id: nat): nat {
    if events == [] then 0
    else OutfitWears(events[..|events| - 1], id) + if events[|events| - 1].outfit == Some(id) then 1 else 0
  }

  lemma OneMoreEvent(events: seq<Event>, e: Event, id: nat)
    ensures Wears(events + [e], id) == Wears(events, id) + if id in e.itemIds then 1 else 0
    ensures OutfitWears(events + [e], id) == OutfitWears(events, id) + if e.outfit == Some(id) then 1 else 0
  {
    assert (events + [e])[..|events|] == events;
  }

  lemma {:induction false} NeverWorn(events: seq<Event>, id: nat)
    requires forall i :: 0 <= i < |events| ==> id !in events[i].itemIds && events[i].outfit != Some(id)
    ensures Wears(events, id) == 0 && OutfitWears(events, id) == 0
  {
    if events != [] {
      NeverWorn(events[..|events| - 1], id);
    }
  }

  // ----- Wearing -----

  const MAX_PIECES := 12
  const KEY_LENGTH := 120
  const LIST_CAP := 200
  const OUTFIT_CAP := 1000

  function Take<T>(s: seq<T>, n: nat): seq<T> {
    if |s| <= n then s else s[..n]
  }

  /** The ids without repetitions, each at its first place. */
  function Unique(ids: seq<nat>): (r: seq<nat>)
    ensures Distinct(r)
    ensures forall id :: id in r <==> id in ids
  {
    if ids == [] then []
    else
      var r := Unique(ids[..|ids| - 1]);
      var last := ids[|ids| - 1];
      assert ids == ids[..|ids| - 1] + [last];
      if last in r then r else r + [last]
  }

  predicate Distinct(ids: seq<nat>) {
    forall i, j :: 0 <= i < j < |ids| ==> ids[i] != ids[j]
  }

  predicate Owned(items: map<nat, Item>, user: nat, id: nat) {
    id in items && items[id].owner == user
  }

  predicate AllOwned(items: map<nat, Item>, user: nat, ids: seq<nat>) {
    forall i :: 0 <= i < |ids| ==> Owned(items, user, ids[i])
  }

  function Worn(item: Item, now: int): Item {
    item.(wearCount := item.wearCount + 1, lastWornAt := Some(now), laundry := "worn", updatedAt := now)
  }

  function WearAll(items: map<nat, Item>, user: nat, ids: seq<nat>, now: int): Option<map<nat, Item>> {
    if ids == [] then Some(items)
    else if !Owned(items, user, ids[0]) then None
    else WearAll(items[ids[0] := Worn(items[ids[0]], now)], user, ids[1..], now)
  }

  function OutfitIndex(outfits: seq<Outfit>, id: nat): (i: Option<nat>)
    ensures i.Some? ==> i.value < |outfits| && outfits[i.value].id == id
    ensures i.None? ==> forall k :: 0 <= k < |outfits| ==> outfits[k].id != id
  {
    if outfits == [] then None
    else if outfits[|outfits| - 1].id == id then Some(|outfits| - 1)
    else OutfitIndex(outfits[..|outfits| - 1], id)
  }

  /** `assertOwner` on an outfit. */
  function OwnedOutfit(outfits: seq<Outfit>, user: nat, id: nat): (i: Option<nat>)
    ensures i.Some? ==> i.value < |outfits| && outfits[i.value].id == id && outfits[i.value].owner == user
  {
    match OutfitIndex(outfits, id)
    case Some(i) => if outfits[i].owner == user then Some(i) else None
    case None => None
  }

  function WearOutfit(outfits: seq<Outfit>, user: nat, outfit: Option<nat>, now: int): Option<seq<Outfit>> {
    if outfit.None? then Some(outfits)
    else
      match OwnedOutfit(outfits, user, outfit.value)
      case None => None
      case Some(i) => Some(outfits[i := outfits[i].(wearCount := outfits[i].wearCount + 1, updatedAt := now)])
  }

  predicate Logged(events: seq<Event>, user: nat, key: string) {
    exists i :: 0 <= i < |events| && events[i].user == user && events[i].key == key
  }

  /** The state after logging a wear, and whether the key had been used before. */
  function MarkWorn(s: State, user: nat, itemIds: seq<nat>, idempotencyKey: string, outfit: Option<nat>,
      now: int): (State, Result<bool, Error>) {
    var key := Take(idempotencyKey, KEY_LENGTH);
    if Logged(s.events, user, key) then (s, Ok(true))
    else
      var ids := Take(Unique(itemIds), MAX_PIECES);
      var items, outfits := WearAll(s.items, user, ids, now), WearOutfit(s.outfits, user, outfit, now);
      if items.None? || outfits.None? then (s, Err(NotFound))
      else (s.(items := items.value, outfits := outfits.value,
          events := s.events + [Event(user, ids, outfit, key, now)]), Ok(false))
  }

  // ----- Removing pieces -----

  function RemoveAll(items: map<nat, Item>, user: nat, ids: seq<nat>): Option<map<nat, Item>> {
    if ids == [] then Some(items)
    else if !Owned(items, user, ids[0]) then None
    else RemoveAll(items - {ids[0]}, user, ids[1..])
  }

  function Drop(id: Option<nat>, removed: set<nat>): Option<nat> {
    if id.Some? && id.value in removed then None else id
  }

  function Without(ids: seq<nat>, removed: set<nat>): seq<nat> {
    if ids == [] then []
    else
      var rest := Without(ids[..|ids| - 1], removed);
      if ids[|ids| - 1] in removed then rest else rest + [ids[|ids| - 1]]
  }

  function StrippedSlots(s: Slots, removed: set<nat>): Slots {
    Slots(Drop(s.outerwear, removed), Drop(s.top, removed), Drop(s.bottom, removed), Drop(s.dress, removed),
          Drop(s.shoes, removed), Without(s.accessories, removed))
  }

  function Stripped(o: Outfit, removed: set<nat>, now: int): Outfit {
    var next := StrippedSlots(o.slots, removed);
    if next != o.slots then o.(slots := next, updatedAt := now) else o
  }

  /** Strip the first `budget` outfits of the user. */
  function StripOutfits(outfits: seq<Outfit>, user: nat, removed: set<nat>, budget: nat, now: int): (r: seq<Outfit>)
    ensures |r| == |outfits|
  {
    if outfits == [] || budget == 0 then outfits
    else if outfits[0].owner == user
        then [Stripped(outfits[0], removed, now)] + StripOutfits(outfits[1..], user, removed, budget - 1, now)
    else [outfits[0]] + StripOutfits(outfits[1..], user, removed, budget, now)
  }

  lemma {:induction false} StrippingKeepsCounters(
      outfits: seq<Outfit>, user: nat, removed: set<nat>, budget: nat, now: int, i: nat)
    requires i < |outfits|
    ensures var r := StripOutfits(outfits, user, removed, budget, now)[i];
            r.id == outfits[i].id && r.owner == outfits[i].owner && r.wearCount == outfits[i].wearCount
  {
    if budget > 0 && i > 0 {
      var left := if outfits[0].owner == user then budget - 1 else budget;
      StrippingKeepsCounters(outfits[1..], user, removed, left, now, i - 1);
    }
  }

  function IdSet(ids: seq<nat>): set<nat> {
    set id | id in ids
  }

  function RemoveItems(s: State, user: nat, itemIds: seq<nat>, now: int): (State, Result<nat, Error>) {
    var ids := Take(itemIds, LIST_CAP);
    match RemoveAll(s.items, user, ids)
    case None => (s, Err(NotFound))
    case Some(items) =>
      (s.(items := items, outfits := StripOutfits(s.outfits, user, IdSet(ids), OUTFIT_CAP, now)), Ok(|IdSet(ids)|))
  }

  // ----- The other mutations of pieces -----

  datatype ItemEdit =
    | SetAttributes(attributes: string, price: Option<int>)
    | SetStatus(status: string)
    | SetLaundry(laundry: string)
    | ClearDuplicate
    | StartExtract(photoThere: bool)
    | FinishExtract(storageId: nat, attributes: string, duplicateOf: Option<nat>)
    | FailExtract
    | DetachUpload

  predicate Refuses(item: Item, e: ItemEdit) {
    match e
    case SetAttributes(_, price) => price.Some? && !(0 <= price.value <= 1_000_000)
    case StartExtract(photoThere) => item.uploadId.None? || !photoThere
    case _ => false
  }

  function Edited(item: Item, e: ItemEdit, now: int): (r: Item)
    ensures r.wearCount == item.wearCount && r.owner == item.owner
  {
    match e
    case SetAttributes(attributes, price) =>
      item.(attributes := attributes, price := if price.Some? then price else item.price, updatedAt := now)
    case SetStatus(status) =>
      if item.status == "ready" || item.status == "hidden" then item.(status := status, updatedAt := now) else item
    case SetLaundry(laundry) => item.(laundry := laundry, updatedAt := now)
    case ClearDuplicate => item.(duplicateOf := None)
    case StartExtract(_) =>
      if item.status == "extracting" then item else item.(status := "extracting", updatedAt := now)
    case FinishExtract(storageId, attributes, duplicateOf) =>
      item.(storageId := Some(storageId), attributes := attributes, duplicateOf := duplicateOf, status := "ready",
          updatedAt := now)
    case FailExtract => if item.status == "extracting" then item.(status := "failed", updatedAt := now) else item
    case DetachUpload => item.(uploadId := None)
  }

  function EditAll(
      items: map<nat, Item>, user: nat, ids: seq<nat>, e: ItemEdit, now: int): Result<map<nat, Item>, Error> {
    if ids == [] then Ok(items)
    else if !Owned(items, user, ids[0]) then Err(NotFound)
    else if Refuses(items[ids[0]], e) then Err(InvalidInput)
    else EditAll(items[ids[0] := Edited(items[ids[0]], e, now)], user, ids[1..], e, now)
  }

  /** An edit by the owner; `update`, `setStatus`, `setLaundry`, `dismissDuplicate` and `retryExtract`. */
  function EditItems(s: State, user: nat, itemIds: seq<nat>, e: ItemEdit, now: int): (State, Result<(), Error>) {
    match EditAll(s.items, user, Take(itemIds, LIST_CAP), e, now)
    case Err(error) => (s, Err(error))
    case Ok(items) => (s.(items := items), Ok(()))
  }

  /** An edit by the extraction pipeline, which a deleted piece ignores. */
  function PipelineEdit(s: State, id: nat, e: ItemEdit, now: int): State {
    if id in s.items then s.(items := s.items[id := Edited(s.items[id], e, now)]) else s
  }

  // ----- Inserts and outfits -----

  /** A piece picked from a photo, or a sample with its picture. */
  datatype Piece = Piece(attributes: string, storageId: Option<nat>, price: Option<int>)

  function NewItem(user: nat, upload: Option<nat>, p: Piece, now: int): Item {
    Item(user, 0, None, "clean", if upload.Some? then "extracting" else "ready",
         p.storageId, upload, None, p.attributes, p.price, now)
  }

  /** New pieces, from a photo or as samples; each starts unworn under an unused id. */
  function InsertItems(s: State, user: nat, upload: Option<nat>, pieces: seq<Piece>, now: int): State {
    if pieces == [] then s
    else
      var before := InsertItems(s, user, upload, pieces[..|pieces| - 1], now);
      before.(items := before.items[before.nextId := NewItem(user, upload, pieces[|pieces| - 1], now)],
          nextId := before.nextId + 1)
  }

  /** `slotsOk` is the verdict of the slot check, which is not part of this model. */
  function CreateOutfit(s: State, user: nat, name: string, slots: Slots, thread: Option<nat>,
      savedAt: Option<int>, slotsOk: bool, now: int): (State, Result<nat, Error>) {
    if !slotsOk then (s, Err(InvalidInput))
    else (s.(outfits := s.outfits + [Outfit(s.nextId, user, 0, slots, name, thread, savedAt, now)],
        nextId := s.nextId + 1), Ok(s.nextId))
  }

  predicate Unsaved(o: Outfit) {
    o.savedAt.None? || o.savedAt == Some(0)
  }

  datatype OutfitEdit = Rework(name: Option<string>, slots: Option<Slots>, slotsOk: bool) | Save

  function EditedOutfit(o: Outfit, e: OutfitEdit, now: int): (r: Outfit)
    ensures r.wearCount == o.wearCount && r.id == o.id && r.owner == o.owner
  {
    match e
    case Rework(name, slots, _) =>
      o.(name := if name.Some? then name.value else o.name,
         slots := if slots.Some? then slots.value else o.slots,
         updatedAt := now)
    case Save => if Unsaved(o) then o.(savedAt := Some(now), updatedAt := now) else o
  }

  function EditOutfit(s: State, user: nat, id: nat, e: OutfitEdit, now: int): (State, Result<(), Error>) {
    match OwnedOutfit(s.outfits, user, id)
    case None => (s, Err(NotFound))
    case Some(i) =>
      if e.Rework? && e.slots.Some? && !e.slotsOk then (s, Err(InvalidInput))
      else (s.(outfits := s.outfits[i := EditedOutfit(s.outfits[i], e, now)]), Ok(()))
  }

  /** Deleting an outfit is refused while a try-on of it is `pending`. */
  function RemoveOutfit(s: State, user: nat, id: nat, pending: bool): (State, Result<(), Error>) {
    match OwnedOutfit(s.outfits, user, id)
    case None => (s, Err(NotFound))
    case Some(i) =>
      if pending then (s, Err(Conflict))
      else (s.(outfits := s.outfits[..i] + s.outfits[i + 1..]), Ok(()))
  }

  /** Removing a conversation deletes the unsaved ones among the first `budget` outfits it proposed. */
  function DropProposals(outfits: seq<Outfit>, thread: nat, budget: nat): seq<Outfit> {
    if outfits == [] || budget == 0 then outfits
    else if outfits[0].thread != Some(thread) then [outfits[0]] + DropProposals(outfits[1..], thread, budget)
    else if Unsaved(outfits[0]) then DropProposals(outfits[1..], thread, budget - 1)
    else [outfits[0]] + DropProposals(outfits[1..], thread, budget - 1)
  }

  const PROPOSAL_CAP := 500

  // ----- Runs -----

  datatype Op =
    | OpMarkWorn(user: nat, itemIds: seq<nat>, key: string, outfit: Option<nat>, now: int)
    | OpRemoveItems(user: nat, itemIds: seq<nat>, now: int)
    | OpEditItems(user: nat, itemIds: seq<nat>, edit: ItemEdit, now: int)
    | OpPipelineEdit(id: nat, edit: ItemEdit, now: int)
    | OpInsertItems(user: nat, upload: Option<nat>, pieces: seq<Piece>, now: int)
    | OpCreateOutfit(user: nat, name: string, slots: Slots, thread: Option<nat>, savedAt: Option<int>, slotsOk: bool,
                     now: int)
    | OpEditOutfit(user: nat, id: nat, change: OutfitEdit, now: int)
    | OpRemoveOutfit(user: nat, id: nat, pending: bool)
    | OpRemoveThread(conversation: nat)

  function Step(s: State, op: Op): State {
    match op
    case OpMarkWorn(user, ids, key, outfit, now) => MarkWorn(s, user, ids, key, outfit, now).0
    case OpRemoveItems(user, ids, now) => RemoveItems(s, user, ids, now).0
    case OpEditItems(user, ids, e, now) => EditItems(s, user, ids, e, now).0
    case OpPipelineEdit(id, e, now) => PipelineEdit(s, id, e, now)
    case OpInsertItems(user, upload, pieces, now) => InsertItems(s, user, upload, pieces, now)
    case OpCreateOutfit(user, name, slots, thread, savedAt, ok, now) =>
      CreateOutfit(s, user, name, slots, thread, savedAt, ok, now).0
    case OpEditOutfit(user, id, e, now) => EditOutfit(s, user, id, e, now).0
    case OpRemoveOutfit(user, id, pending) => RemoveOutfit(s, user, id, pending).0
    case OpRemoveThread(thread) => s.(outfits := DropProposals(s.outfits, thread, PROPOSAL_CAP))
  }

  function Run(ops: seq<Op>): State {
    if ops == [] then INITIAL else Step(Run(ops[..|ops| - 1]), ops[|ops| - 1])
  }

  // ----- The counters equal the log -----

  ghost predicate ItemsCounted(items: map<nat, Item>, events: seq<Event>) {
    forall id :: id in items ==> items[id].wearCount == Wears(events, id)
  }

  ghost predicate OutfitsCounted(outfits: seq<Outfit>, events: seq<Event>) {
    forall i :: 0 <= i < |outfits| ==> outfits[i].wearCount == OutfitWears(events, outfits[i].id)
  }

  /** A key is used at most once per user. */
  ghost predicate KeysUnique(events: seq<Event>) {
    forall i, j :: 0 <= i < j < |events| ==> events[i].user != events[j].user || events[i].key != events[j].key
  }

  /** An event names at most twelve different pieces, all of them its user's as long as they exist. */
  ghost predicate EventFits(items: map<nat, Item>, e: Event, nextId: nat) {
    && Distinct(e.itemIds) && |e.itemIds| <= MAX_PIECES
    && (forall id :: id in e.itemIds ==> id < nextId && (id in items ==> items[id].owner == e.user))
    && (e.outfit.Some? ==> e.outfit.value < nextId)
  }

  ghost predicate EventsFit(items: map<nat, Item>, events: seq<Event>, nextId: nat) {
    forall i :: 0 <= i < |events| ==> EventFits(items, events[i], nextId)
  }

  ghost predicate IdsUsed(items: map<nat, Item>, outfits: seq<Outfit>, nextId: nat) {
    && (forall id :: id in items ==> id < nextId)
    && (forall i :: 0 <= i < |outfits| ==> outfits[i].id < nextId)
    && DistinctOutfits(outfits)
  }

  ghost predicate DistinctOutfits(outfits: seq<Outfit>) {
    forall i, j :: 0 <= i < j < |outfits| ==> outfits[i].id != outfits[j].id
  }

  ghost predicate Counted(s: State) {
    && ItemsCounted(s.items, s.events) && OutfitsCounted(s.outfits, s.events) && KeysUnique(s.events)
    && EventsFit(s.items, s.events, s.nextId) && IdsUsed(s.items, s.outfits, s.nextId)
  }

  lemma DistinctCons(ids: seq<nat>)
    requires ids != []
    ensures Distinct(ids) <==> ids[0] !in ids[1..] && Distinct(ids[1..])
  {
    if Distinct(ids) {
      forall j | 0 <= j < |ids[1..]|
        ensures ids[1..][j] != ids[0]
      {
        assert ids[1..][j] == ids[j + 1];
      }
    }
    if ids[0] !in ids[1..] && Distinct(ids[1..]) {
      forall i, j | 0 <= i < j < |ids|
        ensures ids[i] != ids[j]
      {
        assert ids[j] == ids[1..][j - 1];
        assert i > 0 ==> ids[i] == ids[1..][i - 1];
      }
    }
  }

  lemma AllOwnedCons(items: map<nat, Item>, user: nat, ids: seq<nat>)
    requires ids != []
    ensures AllOwned(items, user, ids) <==> Owned(items, user, ids[0]) && AllOwned(items, user, ids[1..])
  {
    forall i | 0 <= i < |ids|
      ensures i > 0 ==> ids[i] == ids[1..][i - 1]
    {
    }
  }

  /** Wearing succeeds exactly when every piece is the user's, and counts each piece once. */
  lemma {:induction false} WearAllCounts(items: map<nat, Item>, user: nat, ids: seq<nat>, now: int)
    requires Distinct(ids)
    ensures WearAll(items, user, ids, now).Some? <==> AllOwned(items, user, ids)
    ensures WearAll(items, user, ids, now).Some? ==>
              var r := WearAll(items, user, ids, now).value;
              r.Keys == items.Keys && forall id :: id in items ==>
                  r[id] == if id in ids then Worn(items[id], now) else items[id]
  {
    if ids != [] {
      DistinctCons(ids);
      AllOwnedCons(items, user, ids);
      assert ids == [ids[0]] + ids[1..];
      if Owned(items, user, ids[0]) {
        var after := items[ids[0] := Worn(items[ids[0]], now)];
        assert AllOwned(after, user, ids[1..]) <==> AllOwned(items, user, ids[1..]) by {
          assert forall id :: Owned(after, user, id) <==> Owned(items, user, id);
        }
        WearAllCounts(after, user, ids[1..], now);
      }
    }
  }

  lemma OwnedWithout(items: map<nat, Item>, user: nat, id: nat, ids: seq<nat>)
    ensures AllOwned(items - {id}, user, ids) <==> id !in ids && AllOwned(items, user, ids)
  {
    if AllOwned(items - {id}, user, ids) {
      forall i | 0 <= i < |ids|
        ensures ids[i] != id && Owned(items, user, ids[i])
      {
        assert Owned(items - {id}, user, ids[i]);
      }
    }
  }

  /** Removing succeeds exactly when the ids are distinct and all the user's; a repeated id fails the whole call. */
  lemma {:induction false} RemoveAllRemoves(items: map<nat, Item>, user: nat, ids: seq<nat>)
    ensures RemoveAll(items, user, ids).Some? <==> Distinct(ids) && AllOwned(items, user, ids)
    ensures RemoveAll(items, user, ids).Some? ==> RemoveAll(items, user, ids).value == items - IdSet(ids)
  {
    if ids != [] {
      DistinctCons(ids);
      AllOwnedCons(items, user, ids);
      OwnedWithout(items, user, ids[0], ids[1..]);
      assert ids == [ids[0]] + ids[1..];
      if Owned(items, user, ids[0]) {
        RemoveAllRemoves(items - {ids[0]}, user, ids[1..]);
      }
    }
  }

  lemma {:induction false} EditAllKeeps(items: map<nat, Item>, user: nat, ids: seq<nat>, e: ItemEdit, now: int)
    ensures EditAll(items, user, ids, e, now).Ok? ==>
              var r := EditAll(items, user, ids, e, now).value;
              r.Keys == items.Keys &&
              forall id :: id in items ==> r[id].wearCount == items[id].wearCount && r[id].owner == items[id].owner
  {
    if ids != [] && Owned(items, user, ids[0]) && !Refuses(items[ids[0]], e) {
      EditAllKeeps(items[ids[0] := Edited(items[ids[0]], e, now)], user, ids[1..], e, now);
    }
  }

  /** Changing items without touching counters, owners or ids keeps the ledger counted. */
  lemma ItemsMayChange(s: State, items: map<nat, Item>)
    requires Counted(s) && items.Keys <= s.items.Keys
    requires forall id :: id in items ==>
        items[id].wearCount == s.items[id].wearCount && items[id].owner == s.items[id].owner
    ensures Counted(s.(items := items))
  {
    assert EventsFit(s.items, s.events, s.nextId);
    forall i | 0 <= i < |s.events|
      ensures EventFits(items, s.events[i], s.nextId)
    {
      assert EventFits(s.items, s.events[i], s.nextId);
    }
  }

  lemma OutfitsMayChange(s: State, outfits: seq<Outfit>)
    requires Counted(s) && |outfits| == |s.outfits|
    requires forall i :: 0 <= i < |outfits| ==>
        outfits[i].id == s.outfits[i].id && outfits[i].wearCount == s.outfits[i].wearCount
    ensures Counted(s.(outfits := outfits))
  {
  }

  lemma LoggedEventFits(s: State, user: nat, ids: seq<nat>, outfit: Option<nat>, key: string, now: int)
    requires Counted(s) && Distinct(ids) && |ids| <= MAX_PIECES && !Logged(s.events, user, key)
    requires AllOwned(s.items, user, ids)
    requires outfit.Some? ==> OwnedOutfit(s.outfits, user, outfit.value).Some?
    ensures EventsFit(s.items, s.events + [Event(user, ids, outfit, key, now)], s.nextId)
    ensures KeysUnique(s.events + [Event(user, ids, outfit, key, now)])
  {
    var after := s.events + [Event(user, ids, outfit, key, now)];
    forall i | 0 <= i < |after|
      ensures EventFits(s.items, after[i], s.nextId)
    {
      assert i < |s.events| ==> after[i] == s.events[i];
    }
  }

  lemma WornItemsAreCounted(s: State, user: nat, ids: seq<nat>, e: Event, now: int)
    requires Counted(s) && Distinct(ids) && e.itemIds == ids && WearAll(s.items, user, ids, now).Some?
    requires EventsFit(s.items, s.events + [e], s.nextId)
    ensures var items := WearAll(s.items, user, ids, now).value;
            && ItemsCounted(items, s.events + [e]) && EventsFit(items, s.events + [e], s.nextId) &&
                items.Keys == s.items.Keys
  {
    WearAllCounts(s.items, user, ids, now);
    var items := WearAll(s.items, user, ids, now).value;
    forall id | id in items
      ensures items[id].wearCount == Wears(s.events + [e], id)
    {
      OneMoreEvent(s.events, e, id);
    }
    forall i | 0 <= i < |s.events + [e]|
      ensures EventFits(items, (s.events + [e])[i], s.nextId)
    {
      assert EventFits(s.items, (s.events + [e])[i], s.nextId);
    }
  }

  lemma WornOutfitsAreCounted(s: State, user: nat, e: Event, now: int)
    requires Counted(s) && WearOutfit(s.outfits, user, e.outfit, now).Some?
    ensures var outfits := WearOutfit(s.outfits, user, e.outfit, now).value;
            OutfitsCounted(outfits, s.events + [e]) && IdsUsed(s.items, outfits, s.nextId)
  {
    var outfits := WearOutfit(s.outfits, user, e.outfit, now).value;
    forall i | 0 <= i < |outfits|
      ensures outfits[i].wearCount == OutfitWears(s.events + [e], outfits[i].id) && outfits[i].id == s.outfits[i].id
    {
      OneMoreEvent(s.events, e, outfits[i].id);
    }
  }

  lemma MarkWornKeepsCounts(
      s: State, user: nat, itemIds: seq<nat>, idempotencyKey: string, outfit: Option<nat>, now: int)
    requires Counted(s)
    ensures Counted(MarkWorn(s, user, itemIds, idempotencyKey, outfit, now).0)
  {
    var key := Take(idempotencyKey, KEY_LENGTH);
    var ids := Take(Unique(itemIds), MAX_PIECES);
    if MarkWorn(s, user, itemIds, idempotencyKey, outfit, now).1 == Ok(false) {
      var e := Event(user, ids, outfit, key, now);
      WearAllCounts(s.items, user, ids, now);
      LoggedEventFits(s, user, ids, outfit, key, now);
      WornItemsAreCounted(s, user, ids, e, now);
      WornOutfitsAreCounted(s, user, e, now);
    }
  }

  lemma InsertKeepsCounts(s: State, item: Item)
    requires Counted(s) && item.wearCount == 0
    ensures Counted(s.(items := s.items[s.nextId := item], nextId := s.nextId + 1))
  {
    var after := s.(items := s.items[s.nextId := item], nextId := s.nextId + 1);
    forall i | 0 <= i < |s.events|
      ensures EventFits(after.items, s.events[i], after.nextId)
      ensures s.nextId !in s.events[i].itemIds && s.events[i].outfit != Some(s.nextId)
    {
      assert EventFits(s.items, s.events[i], s.nextId);
    }
    NeverWorn(s.events, s.nextId);
  }

  lemma {:induction false} InsertsKeepCounts(s: State, user: nat, upload: Option<nat>, pieces: seq<Piece>, now: int)
    requires Counted(s)
    ensures Counted(InsertItems(s, user, upload, pieces, now))
  {
    if pieces != [] {
      var before := InsertItems(s, user, upload, pieces[..|pieces| - 1], now);
      InsertsKeepCounts(s, user, upload, pieces[..|pieces| - 1], now);
      InsertKeepsCounts(before, NewItem(user, upload, pieces[|pieces| - 1], now));
    }
  }

  lemma NewOutfitKeepsCounts(s: State, o: Outfit)
    requires Counted(s) && o.wearCount == 0 && o.id == s.nextId
    ensures Counted(s.(outfits := s.outfits + [o], nextId := s.nextId + 1))
  {
    forall i | 0 <= i < |s.events|
      ensures EventFits(s.items, s.events[i], s.nextId + 1)
      ensures s.nextId !in s.events[i].itemIds && s.events[i].outfit != Some(s.nextId)
    {
      assert EventFits(s.items, s.events[i], s.nextId);
    }
    NeverWorn(s.events, s.nextId);
  }

  lemma RemoveKeepsCounts(s: State, user: nat, itemIds: seq<nat>, now: int)
    requires Counted(s)
    ensures Counted(RemoveItems(s, user, itemIds, now).0)
  {
    var ids := Take(itemIds, LIST_CAP);
    RemoveAllRemoves(s.items, user, ids);
    var r := RemoveAll(s.items, user, ids);
    if r.Some? {
      ItemsMayChange(s, r.value);
      var stripped := StripOutfits(s.outfits, user, IdSet(ids), OUTFIT_CAP, now);
      forall i | 0 <= i < |stripped|
        ensures stripped[i].id == s.outfits[i].id && stripped[i].wearCount == s.outfits[i].wearCount
      {
        StrippingKeepsCounters(s.outfits, user, IdSet(ids), OUTFIT_CAP, now, i);
      }
      OutfitsMayChange(s.(items := r.value), stripped);
    }
  }

  lemma EditKeepsCounts(s: State, user: nat, itemIds: seq<nat>, e: ItemEdit, now: int)
    requires Counted(s)
    ensures Counted(EditItems(s, user, itemIds, e, now).0)
  {
    EditAllKeeps(s.items, user, Take(itemIds, LIST_CAP), e, now);
    var r := EditAll(s.items, user, Take(itemIds, LIST_CAP), e, now);
    if r.Ok? {
      ItemsMayChange(s, r.value);
    }
  }

  lemma ConsKeepsDistinct(o: Outfit, rest: seq<Outfit>)
    requires DistinctOutfits(rest) && forall x :: x in rest ==> x.id != o.id
    ensures DistinctOutfits([o] + rest)
  {
    var all := [o] + rest;
    forall i, j | 0 <= i < j < |all|
      ensures all[i].id != all[j].id
    {
      assert all[j] == rest[j - 1] && rest[j - 1] in rest;
      assert i > 0 ==> all[i] == rest[i - 1];
    }
  }

  lemma {:induction false} DropProposalsKeeps(outfits: seq<Outfit>, thread: nat, budget: nat)
    requires DistinctOutfits(outfits)
    ensures DistinctOutfits(DropProposals(outfits, thread, budget))
    ensures forall o :: o in DropProposals(outfits, thread, budget) ==> o in outfits
  {
    if outfits != [] && budget > 0 {
      var left := if outfits[0].thread == Some(thread) then budget - 1 else budget;
      var rest := DropProposals(outfits[1..], thread, left);
      DropProposalsKeeps(outfits[1..], thread, left);
      assert outfits == [outfits[0]] + outfits[1..];
      forall o | o in rest
        ensures o.id != outfits[0].id
      {
        assert o in outfits[1..];
        var k :| 1 <= k < |outfits| && outfits[k] == o;
      }
      ConsKeepsDistinct(outfits[0], rest);
    }
  }

  lemma RemoveThreadKeepsCounts(s: State, thread: nat)
    requires Counted(s)
    ensures Counted(Step(s, OpRemoveThread(thread)))
  {
    DropProposalsKeeps(s.outfits, thread, PROPOSAL_CAP);
    var after := DropProposals(s.outfits, thread, PROPOSAL_CAP);
    forall i | 0 <= i < |after|
      ensures after[i].wearCount == OutfitWears(s.events, after[i].id) && after[i].id < s.nextId
    {
      assert after[i] in s.outfits;
    }
  }

  lemma OutfitStepsKeepCounts(s: State, op: Op)
    requires Counted(s) && (op.OpCreateOutfit? || op.OpEditOutfit? || op.OpRemoveOutfit?)
    ensures Counted(Step(s, op))
  {
    match op
    case OpCreateOutfit(user, name, slots, thread, savedAt, _, now) =>
      NewOutfitKeepsCounts(s, Outfit(s.nextId, user, 0, slots, name, thread, savedAt, now));
    case OpEditOutfit(user, id, e, now) => OutfitsMayChange(s, EditOutfit(s, user, id, e, now).0.outfits);
    case OpRemoveOutfit(_, _, _) =>
  }

  lemma StepKeepsCounts(s: State, op: Op)
    requires Counted(s)
    ensures Counted(Step(s, op))
  {
    match op
    case OpMarkWorn(user, ids, key, outfit, now) => MarkWornKeepsCounts(s, user, ids, key, outfit, now);
    case OpRemoveItems(user, ids, now) => RemoveKeepsCounts(s, user, ids, now);
    case OpEditItems(user, ids, e, now) => EditKeepsCounts(s, user, ids, e, now);
    case OpPipelineEdit(id, e, now) => ItemsMayChange(s, PipelineEdit(s, id, e, now).items);
    case OpInsertItems(user, upload, pieces, now) => InsertsKeepCounts(s, user, upload, pieces, now);
    case OpRemoveThread(thread) => RemoveThreadKeepsCounts(s, thread);
    case _ => OutfitStepsKeepCounts(s, op);
  }

  /** In every reachable state each counter is the number of events that name its piece or outfit. */
  lemma {:induction false} RunKeepsCounts(ops: seq<Op>)
    ensures Counted(Run(ops))
  {
    if ops != [] {
      RunKeepsCounts(ops[..|ops| - 1]);
      StepKeepsCounts(Run(ops[..|ops| - 1]), ops[|ops| - 1]);
    }
  }

  // ----- One wear per key -----

  /** A wear is logged exactly when the key is new and every piece, and the outfit, is the user's. */
  lemma MarkWornSucceedsIff(
      s: State, user: nat, itemIds: seq<nat>, idempotencyKey: string, outfit: Option<nat>, now: int)
    ensures var ids := Take(Unique(itemIds), MAX_PIECES);
            var out := MarkWorn(s, user, itemIds, idempotencyKey, outfit, now);
            && (out.1 == Ok(false) <==>
                  && !Logged(s.events, user, Take(idempotencyKey, KEY_LENGTH)) && AllOwned(s.items, user, ids)
                  && (outfit.Some? ==> OwnedOutfit(s.outfits, user, outfit.value).Some?))
            && (out.1 != Ok(false) ==> out.0 == s)
            && (out.1 == Ok(false) ==>
                  && out.0.items.Keys == s.items.Keys
                  && (forall id :: id in s.items ==>
                      out.0.items[id] == if id in ids then Worn(s.items[id], now) else s.items[id])
                  && out.0.events == s.events + [Event(user, ids, outfit, Take(idempotencyKey, KEY_LENGTH), now)])
  {
    WearAllCounts(s.items, user, Take(Unique(itemIds), MAX_PIECES), now);
  }

  lemma {:induction false} InsertsKeepEvents(s: State, user: nat, upload: Option<nat>, pieces: seq<Piece>, now: int)
    ensures InsertItems(s, user, upload, pieces, now).events == s.events
  {
    if pieces != [] {
      InsertsKeepEvents(s, user, upload, pieces[..|pieces| - 1], now);
    }
  }

  lemma LogGrows(s: State, op: Op)
    ensures s.events <= Step(s, op).events
  {
    if op.OpInsertItems? {
      InsertsKeepEvents(s, op.user, op.upload, op.pieces, op.now);
    }
  }

  lemma {:induction false} LogGrowsOverRuns(ops: seq<Op>, i: nat)
    requires i <= |ops|
    ensures Run(ops[..i]).events <= Run(ops).events
  {
    if i == |ops| {
      assert ops[..i] == ops;
    } else {
      var init := ops[..|ops| - 1];
      LogGrowsOverRuns(init, i);
      assert init[..i] == ops[..i];
      LogGrows(Run(init), ops[|ops| - 1]);
    }
  }

  lemma AcceptedIsLogged(s: State, user: nat, itemIds: seq<nat>, key: string, outfit: Option<nat>, now: int)
    requires MarkWorn(s, user, itemIds, key, outfit, now).1.Ok?
    ensures Logged(MarkWorn(s, user, itemIds, key, outfit, now).0.events, user, Take(key, KEY_LENGTH))
  {
    var after := MarkWorn(s, user, itemIds, key, outfit, now).0;
    if after.events != s.events {
      assert after.events[|s.events|].key == Take(key, KEY_LENGTH);
    }
  }

  lemma LoggedStays(before: seq<Event>, after: seq<Event>, user: nat, key: string)
    requires before <= after && Logged(before, user, key)
    ensures Logged(after, user, key)
  {
    var j :| 0 <= j < |before| && before[j].user == user && before[j].key == key;
    assert after[j] == before[j];
  }

  lemma RunStep(ops: seq<Op>, i: nat)
    requires i < |ops|
    ensures Run(ops[..i + 1]) == Step(Run(ops[..i]), ops[i])
  {
    assert ops[..i + 1][..i] == ops[..i];
  }

  predicate Accepted(s: State, op: Op) {
    op.OpMarkWorn? && MarkWorn(s, op.user, op.itemIds, op.key, op.outfit, op.now).1.Ok?
  }

  /** Once a key has been accepted, retries with it are duplicates that change nothing, whatever happened in between. */
  lemma RetriesCountOnce(ops: seq<Op>, i: nat, itemIds: seq<nat>, key: string, outfit: Option<nat>, now: int)
    requires i < |ops| && Accepted(Run(ops[..i]), ops[i])
    requires Take(key, KEY_LENGTH) == Take(ops[i].key, KEY_LENGTH)
    ensures MarkWorn(Run(ops), ops[i].user, itemIds, key, outfit, now) == (Run(ops), Ok(true))
  {
    var op, k := ops[i], Take(key, KEY_LENGTH);
    AcceptedIsLogged(Run(ops[..i]), op.user, op.itemIds, op.key, op.outfit, op.now);
    RunStep(ops, i);
    LogGrowsOverRuns(ops, i + 1);
    LoggedStays(Run(ops[..i + 1]).events, Run(ops).events, op.user, k);
  }

  // ----- What each mutation writes -----

  /** Repetitions are dropped in place: what comes first stays first. */
  lemma {:induction false} UniqueKeepsOrder(a: seq<nat>, b: seq<nat>, id: nat)
    ensures Unique([id]) == [id] && Unique(a) <= Unique(a + b)
  {
    assert [id][..0] == [];
    if b == [] {
      assert a + b == a;
    } else {
      assert (a + b)[..|a + b| - 1] == a + b[..|b| - 1];
      UniqueKeepsOrder(a, b[..|b| - 1], id);
    }
  }

  ghost predicate OwnsOutfit(outfits: seq<Outfit>, user: nat, id: nat) {
    exists k :: 0 <= k < |outfits| && outfits[k].id == id && outfits[k].owner == user
  }

  lemma OwnedOutfitIff(outfits: seq<Outfit>, user: nat, id: nat)
    requires DistinctOutfits(outfits)
    ensures OwnedOutfit(outfits, user, id).Some? <==> OwnsOutfit(outfits, user, id)
  {
    var i := OutfitIndex(outfits, id);
    if i.Some? {
      assert forall k :: 0 <= k < |outfits| && outfits[k].id == id ==> k == i.value;
    }
  }

  /**
   A wear is logged exactly when its key, cut to 120 characters, is new for the user and the first twelve
   different pieces and the outfit are the user's; the outfit then counts one wear more.
   */
  lemma WearIsLoggedIff(
      s: State, user: nat, itemIds: seq<nat>, idempotencyKey: string, outfit: Option<nat>, now: int)
    requires DistinctOutfits(s.outfits)
    ensures var key := if |idempotencyKey| <= 120 then idempotencyKey else idempotencyKey[..120];
            var ids := if |Unique(itemIds)| <= 12 then Unique(itemIds) else Unique(itemIds)[..12];
            var (after, r) := MarkWorn(s, user, itemIds, idempotencyKey, outfit, now);
            && (r == Ok(false) <==>
                  && (forall e :: e in s.events && e.user == user ==> e.key != key)
                  && (forall id :: id in ids ==> id in s.items && s.items[id].owner == user)
                  && (outfit.Some? ==> OwnsOutfit(s.outfits, user, outfit.value)))
            && (r == Ok(false) ==>
                  && after.events == s.events + [Event(user, ids, outfit, key, now)] && after.nextId == s.nextId
                  && |after.outfits| == |s.outfits|
                  && forall k :: 0 <= k < |s.outfits| ==>
                       after.outfits[k] ==
                       if outfit == Some(s.outfits[k].id)
                       then s.outfits[k].(wearCount := s.outfits[k].wearCount + 1, updatedAt := now)
                       else s.outfits[k])
            && Step(s, OpMarkWorn(user, itemIds, idempotencyKey, outfit, now)) == after
  {
    MarkWornSucceedsIff(s, user, itemIds, idempotencyKey, outfit, now);
    var ids := Take(Unique(itemIds), MAX_PIECES);
    assert AllOwned(s.items, user, ids) <==> forall id :: id in ids ==> Owned(s.items, user, id);
    if outfit.Some? {
      OwnedOutfitIff(s.outfits, user, outfit.value);
    }
  }

  /** A logged wear counts each named piece once more, moves it to the laundry and dates it; others stay. */
  lemma WornPiecesGoToTheLaundry(
      s: State, user: nat, itemIds: seq<nat>, idempotencyKey: string, outfit: Option<nat>, now: int)
    requires MarkWorn(s, user, itemIds, idempotencyKey, outfit, now).1 == Ok(false)
    ensures var after := MarkWorn(s, user, itemIds, idempotencyKey, outfit, now).0;
            && |after.events| == |s.events| + 1 && after.events[..|s.events|] == s.events
            && var e := after.events[|s.events|];
               && e.user == user && e.outfit == outfit && e.wornAt == now
               && e.key == (if |idempotencyKey| <= 120 then idempotencyKey else idempotencyKey[..120])
               && after.items.Keys == s.items.Keys
               && forall id :: id in s.items ==>
                    after.items[id] ==
                    if id in e.itemIds
                    then s.items[id].(wearCount := s.items[id].wearCount + 1, lastWornAt := Some(now),
                                      laundry := "worn", updatedAt := now)
                    else s.items[id]
  {
    MarkWornSucceedsIff(s, user, itemIds, idempotencyKey, outfit, now);
  }

  /** What an edit of a piece leaves; the fields it does not name stay. */
  ghost predicate IsEdited(e: ItemEdit, now: int, before: Item, after: Item) {
    match e
    case SetAttributes(attributes, price) =>
      && after.attributes == attributes && after.updatedAt == now
      && after.price == (if price.Some? then price else before.price)
      && after == before.(attributes := after.attributes, price := after.price, updatedAt := now)
    case SetStatus(status) =>
      if before.status in {"ready", "hidden"} then after == before.(status := status, updatedAt := now)
      else after == before
    case SetLaundry(laundry) => after == before.(laundry := laundry, updatedAt := now)
    case ClearDuplicate => after == before.(duplicateOf := None)
    case StartExtract(_) =>
      && after.status == "extracting"
      && after == before.(status := after.status, updatedAt := after.updatedAt)
      && after.updatedAt == (if before.status == "extracting" then before.updatedAt else now)
    case FinishExtract(storageId, attributes, duplicateOf) =>
      && after.storageId == Some(storageId) && after.attributes == attributes && after.duplicateOf == duplicateOf
      && after.status == "ready" && after.updatedAt == now
      && after == before.(storageId := after.storageId, attributes := after.attributes,
                          duplicateOf := after.duplicateOf, status := after.status, updatedAt := now)
    case FailExtract =>
      if before.status == "extracting" then after == before.(status := "failed", updatedAt := now)
      else after == before
    case DetachUpload => after == before.(uploadId := None)
  }

  /** Editing one piece needs its owner and a sensible edit, and writes only that piece. */
  lemma OnePieceIsEdited(s: State, user: nat, id: nat, e: ItemEdit, now: int)
    ensures var out := EditItems(s, user, [id], e, now);
            && (out.1.Ok? <==>
                  && id in s.items && s.items[id].owner == user
                  && (e.SetAttributes? && e.price.Some? ==> 0 <= e.price.value <= 1_000_000)
                  && (e.StartExtract? ==> s.items[id].uploadId.Some? && e.photoThere))
            && (out.1.Err? ==> out.0 == s)
            && (out.1.Ok? ==>
                  && out.0.items.Keys == s.items.Keys && IsEdited(e, now, s.items[id], out.0.items[id])
                  && out.0 == s.(items := s.items[id := out.0.items[id]]))
  {
    assert Take([id], LIST_CAP) == [id];
    OneEdit(s.items, user, id, e, now);
    if Owned(s.items, user, id) {
      EditIsAsSaid(s.items[id], e, now);
    }
    hide IsEdited, Edited, EditAll, Take;
  }

  /** An edit of several pieces is one edit after another; only the first two hundred are looked at. */
  lemma {:induction false} EditsFollowOneAnother(
      items: map<nat, Item>, user: nat, a: seq<nat>, b: seq<nat>, e: ItemEdit, now: int)
    ensures EditAll(items, user, a + b, e, now) ==
            match EditAll(items, user, a, e, now)
            case Err(error) => Err(error)
            case Ok(edited) => EditAll(edited, user, b, e, now)
  {
    hide Refuses, Edited;
    if a == [] {
      assert a + b == b;
    } else {
      assert (a + b)[1..] == a[1..] + b;
      if Owned(items, user, a[0]) && !Refuses(items[a[0]], e) {
        EditsFollowOneAnother(items[a[0] := Edited(items[a[0]], e, now)], user, a[1..], b, e, now);
      }
    }
  }

  lemma BulkEditIsCapped(s: State, user: nat, ids: seq<nat>, e: ItemEdit, now: int)
    ensures var first := if |ids| <= 200 then ids else ids[..200];
            var (after, r) := EditItems(s, user, ids, e, now);
            && (match EditAll(s.items, user, first, e, now)
                case Err(error) => after == s && r == Err(error)
                case Ok(items) => after == s.(items := items) && r == Ok(()))
            && Step(s, OpEditItems(user, ids, e, now)) == after
  {}

  /** The pipeline edits the one piece it names, if that still exists. */
  lemma PipelineEditsOnePiece(s: State, id: nat, e: ItemEdit, now: int)
    ensures var after := Step(s, OpPipelineEdit(id, e, now));
            && (id !in s.items ==> after == s)
            && (id in s.items ==>
                  && after.items.Keys == s.items.Keys && IsEdited(e, now, s.items[id], after.items[id])
                  && after == s.(items := s.items[id := after.items[id]]))
  {
    if id in s.items {
      EditIsAsSaid(s.items[id], e, now);
    }
    hide IsEdited, Edited;
  }

  lemma OneEdit(items: map<nat, Item>, user: nat, id: nat, e: ItemEdit, now: int)
    ensures EditAll(items, user, [id], e, now) ==
            if !Owned(items, user, id) then Err(NotFound)
            else if Refuses(items[id], e) then Err(InvalidInput)
            else Ok(items[id := Edited(items[id], e, now)])
  {
    hide Refuses, Edited;
    assert [id][1..] == [];
    if Owned(items, user, id) {
      var next := items[id := Edited(items[id], e, now)];
      assert EditAll(next, user, [], e, now) == Ok(next);
    }
  }

  lemma EditIsAsSaid(item: Item, e: ItemEdit, now: int)
    ensures IsEdited(e, now, item, Edited(item, e, now))
  {}

  /** A new piece is clean, unworn and the user's; it is being extracted when it comes from a photo. */
  lemma NewPieceIsFresh(s: State, user: nat, upload: Option<nat>, p: Piece, now: int)
    ensures var after := InsertItems(s, user, upload, [p], now);
            && s.nextId in after.items && after.nextId == s.nextId + 1
            && after == s.(items := s.items[s.nextId := after.items[s.nextId]], nextId := after.nextId)
            && var item := after.items[s.nextId];
               && item.owner == user && item.wearCount == 0 && item.lastWornAt == None && item.laundry == "clean"
               && item.status == (if upload.Some? then "extracting" else "ready")
               && item.storageId == p.storageId && item.uploadId == upload && item.duplicateOf == None
               && item.attributes == p.attributes && item.price == p.price && item.updatedAt == now
  {
    assert [p][..0] == [];
  }

  lemma {:induction false} InsertsFollowOneAnother(
      s: State, user: nat, upload: Option<nat>, a: seq<Piece>, b: seq<Piece>, now: int)
    ensures InsertItems(s, user, upload, a + b, now) ==
            InsertItems(InsertItems(s, user, upload, a, now), user, upload, b, now)
  {
    hide NewItem;
    if b == [] {
      assert a + b == a;
    } else {
      assert (a + b)[..|a + b| - 1] == a + b[..|b| - 1];
      InsertsFollowOneAnother(s, user, upload, a, b[..|b| - 1], now);
    }
  }

  /** A new outfit needs valid slots, and comes last under a new id, as it was given and unworn. */
  lemma NewOutfitIsAsGiven(s: State, user: nat, name: string, slots: Slots, thread: Option<nat>,
      savedAt: Option<int>, slotsOk: bool, now: int)
    ensures var (after, r) := CreateOutfit(s, user, name, slots, thread, savedAt, slotsOk, now);
            && (!slotsOk ==> after == s && r == Err(InvalidInput))
            && (slotsOk ==>
                  && r == Ok(s.nextId) && after.nextId == s.nextId + 1
                  && |after.outfits| == |s.outfits| + 1
                  && after == s.(outfits := s.outfits + [after.outfits[|s.outfits|]], nextId := after.nextId)
                  && var o := after.outfits[|s.outfits|];
                     && o.id == s.nextId && o.owner == user && o.wearCount == 0 && o.slots == slots
                     && o.name == name && o.thread == thread && o.savedAt == savedAt && o.updatedAt == now)
            && Step(s, OpCreateOutfit(user, name, slots, thread, savedAt, slotsOk, now)) == after
  {}

  ghost predicate IsReworked(e: OutfitEdit, now: int, before: Outfit, after: Outfit) {
    match e
    case Rework(name, slots, _) =>
      && after == before.(name := after.name, slots := after.slots, updatedAt := now)
      && after.name == (if name.Some? then name.value else before.name)
      && after.slots == (if slots.Some? then slots.value else before.slots)
    case Save =>
      if before.savedAt in {None, Some(0)} then after == before.(savedAt := Some(now), updatedAt := now)
      else after == before
  }

  /** The user's outfit takes the new name and slots, or its save time if it has none; nothing else changes. */
  lemma OutfitIsEdited(s: State, user: nat, id: nat, e: OutfitEdit, now: int) returns (i: nat)
    requires EditOutfit(s, user, id, e, now).1.Ok?
    ensures var after := EditOutfit(s, user, id, e, now).0;
            && i < |s.outfits| == |after.outfits| && s.outfits[i].id == id && s.outfits[i].owner == user
            && after == s.(outfits := s.outfits[i := after.outfits[i]])
            && IsReworked(e, now, s.outfits[i], after.outfits[i])
  {
    i := OwnedOutfit(s.outfits, user, id).value;
    assert s.outfits[i := s.outfits[i]] == s.outfits;
  }

  /** An edit needs the owner and, with new slots, a good verdict on them; otherwise nothing changes. */
  lemma OutfitEditSucceedsIff(s: State, user: nat, id: nat, e: OutfitEdit, now: int)
    requires DistinctOutfits(s.outfits)
    ensures var (after, r) := EditOutfit(s, user, id, e, now);
            && (r.Ok? <==> OwnsOutfit(s.outfits, user, id) && (e.Rework? && e.slots.Some? ==> e.slotsOk))
            && (r.Err? ==> after == s)
            && Step(s, OpEditOutfit(user, id, e, now)) == after
  {
    OwnedOutfitIff(s.outfits, user, id);
  }

  /** Deleting needs the owner and no pending try-on, and takes exactly the one outfit. */
  lemma OutfitIsRemovedIff(s: State, user: nat, id: nat, pending: bool)
    requires DistinctOutfits(s.outfits)
    ensures var (after, r) := RemoveOutfit(s, user, id, pending);
            && (r.Ok? <==> OwnsOutfit(s.outfits, user, id) && !pending)
            && (r.Err? ==> after == s)
            && (r.Ok? ==>
                  && after == s.(outfits := after.outfits)
                  && exists a, o: Outfit, b :: o.id == id && s.outfits == a + [o] + b && after.outfits == a + b)
            && Step(s, OpRemoveOutfit(user, id, pending)) == after
  {
    OwnedOutfitIff(s.outfits, user, id);
    var i := OwnedOutfit(s.outfits, user, id);
    if i.Some? {
      var a, o, b := s.outfits[..i.value], s.outfits[i.value], s.outfits[i.value + 1..];
      assert o.id == id && s.outfits == a + [o] + b;
    }
  }

  function ProposalCount(outfits: seq<Outfit>, thread: nat): nat {
    if outfits == [] then 0
    else (if outfits[0].thread == Some(thread) then 1 else 0) + ProposalCount(outfits[1..], thread)
  }

  /** With a conversation go its unsaved outfits among the first `budget` it proposed, and no other outfit. */
  lemma {:induction false} UnsavedProposalsGo(outfits: seq<Outfit>, thread: nat, budget: nat, i: nat)
    requires i < |outfits| && DistinctOutfits(outfits)
    ensures outfits[i] in DropProposals(outfits, thread, budget) <==>
              || outfits[i].thread != Some(thread)
              || ProposalCount(outfits[..i], thread) >= budget
              || (outfits[i].savedAt.Some? && outfits[i].savedAt != Some(0))
    ensures forall o :: o in DropProposals(outfits, thread, budget) ==> o in outfits
  {
    ProposalsAreOutfits(outfits, thread, budget);
    if budget > 0 {
      var rest := outfits[1..];
      var left := if outfits[0].thread == Some(thread) then budget - 1 else budget;
      ProposalsAreOutfits(rest, thread, left);
      assert outfits == [outfits[0]] + rest;
      if i > 0 {
        assert outfits[..i][1..] == rest[..i - 1];
        UnsavedProposalsGo(rest, thread, left, i - 1);
      }
    }
  }

  lemma ThreadTakesItsProposals(s: State, thread: nat, i: nat)
    requires i < |s.outfits| && DistinctOutfits(s.outfits)
    ensures var after := Step(s, OpRemoveThread(thread));
            && after == s.(outfits := after.outfits)
            && (s.outfits[i] in after.outfits <==>
                  || s.outfits[i].thread != Some(thread)
                  || ProposalCount(s.outfits[..i], thread) >= 500
                  || (s.outfits[i].savedAt.Some? && s.outfits[i].savedAt != Some(0)))
            && (forall o :: o in after.outfits ==> o in s.outfits)
  {
    UnsavedProposalsGo(s.outfits, thread, PROPOSAL_CAP, i);
  }

  lemma {:induction false} ProposalsAreOutfits(outfits: seq<Outfit>, thread: nat, budget: nat)
    ensures forall o :: o in DropProposals(outfits, thread, budget) ==> o in outfits
  {
    if outfits != [] && budget > 0 {
      ProposalsAreOutfits(outfits[1..], thread, if outfits[0].thread == Some(thread) then budget - 1 else budget);
    }
  }

  // ----- Removed pieces leave the outfits -----

  function SlotIds(s: Slots): set<nat> {
    SlotId(s.outerwear) + SlotId(s.top) + SlotId(s.bottom) + SlotId(s.dress) + SlotId(s.shoes) + IdSet(s.accessories)
  }

  function SlotId(id: Option<nat>): set<nat> {
    if id.Some? then {id.value} else {}
  }

  lemma IdSetSnoc(ids: seq<nat>, id: nat)
    ensures IdSet(ids + [id]) == IdSet(ids) + {id}
  {
  }

  lemma {:induction false} WithoutFilters(ids: seq<nat>, removed: set<nat>)
    ensures IdSet(Without(ids, removed)) == IdSet(ids) - removed
    ensures IdSet(ids) !! removed ==> Without(ids, removed) == ids
  {
    if ids != [] {
      var init, last := ids[..|ids| - 1], ids[|ids| - 1];
      assert ids == init + [last];
      WithoutFilters(init, removed);
      IdSetSnoc(init, last);
      IdSetSnoc(Without(init, removed), last);
    }
  }

  lemma DropFilters(id: Option<nat>, removed: set<nat>)
    ensures SlotId(Drop(id, removed)) == SlotId(id) - removed
    ensures SlotId(id) !! removed ==> Drop(id, removed) == id
  {
  }

  lemma SlotsFilter(s: Slots, removed: set<nat>)
    ensures SlotIds(StrippedSlots(s, removed)) == SlotIds(s) - removed
    ensures SlotIds(s) !! removed ==> StrippedSlots(s, removed) == s
  {
    DropFilters(s.outerwear, removed);
    DropFilters(s.top, removed);
    DropFilters(s.bottom, removed);
    DropFilters(s.dress, removed);
    DropFilters(s.shoes, removed);
    WithoutFilters(s.accessories, removed);
  }

  /** Stripping takes exactly the removed pieces out of an outfit, and leaves it alone if it uses none. */
  lemma StrippingIsExact(o: Outfit, removed: set<nat>, now: int)
    ensures SlotIds(Stripped(o, removed, now).slots) == SlotIds(o.slots) - removed
    ensures SlotIds(o.slots) !! removed ==> Stripped(o, removed, now) == o
    ensures var after := Stripped(o, removed, now);
            && IsStripped(o.slots, removed, after.slots)
            && after == o.(slots := after.slots, updatedAt := if after.slots == o.slots then o.updatedAt else now)
  {
    SlotsFilter(o.slots, removed);
  }

  ghost predicate IsEmptied(before: Option<nat>, removed: set<nat>, after: Option<nat>) {
    after == before || (after.None? && before.value in removed)
  }

  /** Each slot keeps its piece or is empty, and the accessories that stay keep their order. */
  ghost predicate IsStripped(before: Slots, removed: set<nat>, after: Slots) {
    && IsEmptied(before.outerwear, removed, after.outerwear) && IsEmptied(before.top, removed, after.top)
    && IsEmptied(before.bottom, removed, after.bottom) && IsEmptied(before.dress, removed, after.dress)
    && IsEmptied(before.shoes, removed, after.shoes) && after.accessories == Without(before.accessories, removed)
  }

  lemma {:induction false} AccessoriesSplit(a: seq<nat>, b: seq<nat>, removed: set<nat>, id: nat)
    ensures Without([id], removed) == if id in removed then [] else [id]
    ensures Without(a + b, removed) == Without(a, removed) + Without(b, removed)
  {
    assert [id][..0] == [];
    if b == [] {
      assert a + b == a;
    } else {
      assert (a + b)[..|a + b| - 1] == a + b[..|b| - 1];
      AccessoriesSplit(a, b[..|b| - 1], removed, id);
    }
  }

  lemma {:induction false} DistinctIdsCount(ids: seq<nat>)
    requires Distinct(ids)
    ensures |IdSet(ids)| == |ids|
  {
    if ids != [] {
      DistinctCons(ids);
      DistinctIdsCount(ids[1..]);
      assert ids == [ids[0]] + ids[1..];
      assert IdSet(ids) == {ids[0]} + IdSet(ids[1..]);
    }
  }

  /**
   Removing succeeds exactly when the first two hundred ids are distinct and the user's. It takes these pieces
   and no others, and strips them from the user's first thousand outfits; otherwise nothing changes.
   */
  lemma RemovalIsExact(s: State, user: nat, itemIds: seq<nat>, now: int)
    ensures var ids := if |itemIds| <= 200 then itemIds else itemIds[..200];
            var (after, r) := RemoveItems(s, user, itemIds, now);
            && (r.Ok? <==> Distinct(ids) && forall id :: id in ids ==> id in s.items && s.items[id].owner == user)
            && (r.Err? ==> after == s)
            && (r.Ok? ==>
                  && r.value == |ids| && after.items == s.items - IdSet(ids)
                  && after == s.(items := after.items, outfits := after.outfits)
                  && |after.outfits| == |s.outfits|
                  && forall i :: 0 <= i < |s.outfits| ==>
                       after.outfits[i] ==
                       if s.outfits[i].owner == user && OutfitCount(s.outfits[..i], user) < 1000
                       then Stripped(s.outfits[i], IdSet(ids), now) else s.outfits[i])
            && Step(s, OpRemoveItems(user, itemIds, now)) == after
  {
    var ids := Take(itemIds, LIST_CAP);
    RemoveAllRemoves(s.items, user, ids);
    assert AllOwned(s.items, user, ids) <==> forall id :: id in ids ==> Owned(s.items, user, id);
    hide Stripped, StripOutfits, OutfitCount, RemoveAll;
    if RemoveAll(s.items, user, ids).Some? {
      DistinctIdsCount(ids);
      forall i | 0 <= i < |s.outfits|
        ensures StripOutfits(s.outfits, user, IdSet(ids), OUTFIT_CAP, now)[i] ==
                if s.outfits[i].owner == user && OutfitCount(s.outfits[..i], user) < 1000
                then Stripped(s.outfits[i], IdSet(ids), now) else s.outfits[i]
      {
        StripReachesAll(s.outfits, user, IdSet(ids), OUTFIT_CAP, now, i);
      }
    }
  }

  function OutfitCount(outfits: seq<Outfit>, user: nat): nat {
    if outfits == [] then 0
    else (if outfits[0].owner == user then 1 else 0) + OutfitCount(outfits[1..], user)
  }

  lemma CountSplits(outfits: seq<Outfit>, user: nat, i: nat)
    requires 0 < i <= |outfits|
    ensures OutfitCount(outfits[..i], user) ==
            (if outfits[0].owner == user then 1 else 0) + OutfitCount(outfits[1..][..i - 1], user)
  {
    assert outfits[..i][1..] == outfits[1..][..i - 1];
  }

  /**
   An outfit loses the removed pieces exactly when it is the user's and fewer than `budget` of the
   user's precede it.
   */
  lemma {:induction false} StripReachesAll(
    outfits: seq<Outfit>, user: nat, removed: set<nat>, budget: nat, now: int, i: nat)
    requires i < |outfits|
    ensures StripOutfits(outfits, user, removed, budget, now)[i] ==
            if outfits[i].owner == user && OutfitCount(outfits[..i], user) < budget
            then Stripped(outfits[i], removed, now) else outfits[i]
  {
    if budget > 0 && i > 0 {
      CountSplits(outfits, user, i);
      StripReachesAll(outfits[1..], user, removed, if outfits[0].owner == user then budget - 1 else budget, now, i - 1);
    }
  }

  // ----- The mutations -----

  /** The outcome, given the outfits as they are after the first `i`. */
  ghost function Progress(
      outfits: seq<Outfit>, all: seq<Outfit>, i: nat, user: nat, removed: set<nat>, left: nat, now: int): seq<Outfit>
    requires i <= |outfits| == |all|
  {
    outfits[..i] + StripOutfits(all[i..], user, removed, left, now)
  }

  lemma StripStep(outfits: seq<Outfit>, all: seq<Outfit>, i: nat, user: nat, removed: set<nat>, left: nat, now: int)
    requires i < |outfits| == |all| && outfits[i..] == all[i..] && left > 0 && outfits[i].owner == user
    ensures var next := outfits[i := Stripped(outfits[i], removed, now)];
            && next[i + 1..] == all[i + 1..]
            && Progress(next, all, i + 1, user, removed, left - 1, now) ==
                Progress(outfits, all, i, user, removed, left, now)
  {
    var next := outfits[i := Stripped(outfits[i], removed, now)];
    assert outfits[i] == outfits[i..][0];
    assert next[i + 1..] == outfits[i..][1..] && all[i + 1..] == all[i..][1..];
    StripNext(outfits[..i], all[i..], user, removed, left, now);
    assert next[..i + 1] == outfits[..i] + [next[i]];
  }

  lemma SkipStep(outfits: seq<Outfit>, all: seq<Outfit>, i: nat, user: nat, removed: set<nat>, left: nat, now: int)
    requires i < |outfits| == |all| && outfits[i..] == all[i..] && (left == 0 || outfits[i].owner != user)
    ensures outfits[i + 1..] == all[i + 1..]
    ensures Progress(outfits, all, i + 1, user, removed, left, now) ==
        Progress(outfits, all, i, user, removed, left, now)
  {
    assert outfits[i] == outfits[i..][0];
    assert outfits[i + 1..] == outfits[i..][1..] && all[i + 1..] == all[i..][1..];
    StripNext(outfits[..i], all[i..], user, removed, left, now);
    assert outfits[..i + 1] == outfits[..i] + [outfits[i]];
  }

  lemma StripStart(all: seq<Outfit>, user: nat, removed: set<nat>, left: nat, now: int)
    ensures Progress(all, all, 0, user, removed, left, now) == StripOutfits(all, user, removed, left, now)
  {
    assert all[..0] == [] && all[0..] == all;
  }

  lemma StripEnd(outfits: seq<Outfit>, all: seq<Outfit>, user: nat, removed: set<nat>, left: nat, now: int)
    requires |outfits| == |all|
    ensures Progress(outfits, all, |outfits|, user, removed, left, now) == outfits
  {
    assert all[|outfits|..] == [];
    assert outfits[..|outfits|] == outfits;
  }

  lemma StripNext(front: seq<Outfit>, rest: seq<Outfit>, user: nat, removed: set<nat>, left: nat, now: int)
    requires rest != []
    ensures front + StripOutfits(rest, user, removed, left, now) ==
            if left > 0 && rest[0].owner == user then
              (front + [Stripped(rest[0], removed, now)]) + StripOutfits(rest[1..], user, removed, left - 1, now)
            else (front + [rest[0]]) + StripOutfits(rest[1..], user, removed, left, now)
  {
    assert rest == [rest[0]] + rest[1..];
  }

  class WearStore {
    var items: map<nat, Item>
    var outfits: seq<Outfit>
    var events: seq<Event>
    var nextId: nat

    constructor ()
      ensures View() == INITIAL
    {
      items, outfits, events, nextId := map[], [], [], 0;
    }

    ghost function View(): State
      reads this
    {
      State(items, outfits, events, nextId)
    }

    method UniqueIds(ids: seq<nat>) returns (r: seq<nat>)
      ensures r == Unique(ids)
    {
      r := [];
      for i := 0 to |ids|
        invariant r == Unique(ids[..i])
      {
        assert ids[..i + 1][..i] == ids[..i];
        if ids[i] !in r {
          r := r + [ids[i]];
        }
      }
      assert ids[..|ids|] == ids;
    }

    /** Count a wear on each piece; stops at the first that is not the user's. */
    method WearItems(user: nat, ids: seq<nat>, now: int) returns (ok: bool)
      modifies `items
      ensures ok == WearAll(old(items), user, ids, now).Some?
      ensures ok ==> items == WearAll(old(items), user, ids, now).value
    {
      for i := 0 to |ids|
        invariant WearAll(items, user, ids[i..], now) == WearAll(old(items), user, ids, now)
      {
        assert ids[i..][1..] == ids[i + 1..];
        if !(ids[i] in items && items[ids[i]].owner == user) {
          return false;
        }
        items := items[ids[i] := Worn(items[ids[i]], now)];
      }
      ok := true;
    }

    method LogWear(user: nat, ids: seq<nat>, key: string, outfit: Option<nat>, now: int) returns (ok: bool)
      modifies this
      ensures var worn, dressed := WearAll(old(items), user, ids, now), WearOutfit(old(outfits), user, outfit, now);
              && ok == (worn.Some? && dressed.Some?)
              && (ok ==>
                    View() ==
                    State(worn.value, dressed.value, old(events) + [Event(user, ids, outfit, key, now)], old(nextId)))
    {
      ok := WearItems(user, ids, now);
      if !ok {
        return;
      }
      if outfit.Some? {
        var found := OwnedOutfit(outfits, user, outfit.value);
        if found.None? {
          return false;
        }
        var o := outfits[found.value];
        outfits := outfits[found.value := o.(wearCount := o.wearCount + 1, updatedAt := now)];
      }
      events := events + [Event(user, ids, outfit, key, now)];
    }

    method MarkItemsWorn(user: nat, itemIds: seq<nat>, idempotencyKey: string, outfit: Option<nat>, now: int)
      returns (duplicate: Result<bool, Error>)
      modifies this
      ensures (View(), duplicate) == MarkWorn(old(View()), user, itemIds, idempotencyKey, outfit, now)
    {
      var key := Take(idempotencyKey, KEY_LENGTH);
      if Logged(events, user, key) {
        return Ok(true);
      }
      var unique := UniqueIds(itemIds);
      var items', outfits', events', nextId' := items, outfits, events, nextId;
      var ok := LogWear(user, Take(unique, MAX_PIECES), key, outfit, now);
      if !ok {
        items, outfits, events, nextId := items', outfits', events', nextId';
        return Err(NotFound);
      }
      return Ok(false);
    }

    /** Delete the pieces one by one; stops at the first that is not there or not the user's. */
    method DeleteItems(user: nat, ids: seq<nat>) returns (ok: bool, removed: set<nat>)
      modifies `items
      ensures ok == RemoveAll(old(items), user, ids).Some?
      ensures ok ==> items == RemoveAll(old(items), user, ids).value && removed == IdSet(ids)
    {
      removed := {};
      for i := 0 to |ids|
        invariant RemoveAll(items, user, ids[i..]) == RemoveAll(old(items), user, ids)
        invariant removed == IdSet(ids[..i])
      {
        assert ids[i..][1..] == ids[i + 1..] && ids[..i + 1] == ids[..i] + [ids[i]];
        if !(ids[i] in items && items[ids[i]].owner == user) {
          return false, removed;
        }
        items := items - {ids[i]};
        removed := removed + {ids[i]};
      }
      assert ids[..|ids|] == ids;
      ok := true;
    }

    /** Strip the pieces from the first `cap` outfits of the user. */
    method StripFromOutfits(user: nat, removed: set<nat>, cap: nat, now: int)
      modifies `outfits
      ensures outfits == StripOutfits(old(outfits), user, removed, cap, now)
    {
      ghost var all := outfits;
      StripStart(all, user, removed, cap, now);
      hide Progress, Stripped, StripOutfits;
      var left := cap;
      for i := 0 to |outfits|
        invariant |outfits| == |all| && outfits[i..] == all[i..]
        invariant Progress(outfits, all, i, user, removed, left, now) == StripOutfits(all, user, removed, cap, now)
      {
        ghost var before := outfits;
        if left > 0 && outfits[i].owner == user {
          StripStep(before, all, i, user, removed, left, now);
          outfits := outfits[i := Stripped(outfits[i], removed, now)];
          left := left - 1;
        } else {
          SkipStep(before, all, i, user, removed, left, now);
        }
      }
      StripEnd(outfits, all, user, removed, left, now);
    }

    method RemoveMany(user: nat, itemIds: seq<nat>, now: int) returns (count: Result<nat, Error>)
      modifies this
      ensures (View(), count) == RemoveItems(old(View()), user, itemIds, now)
    {
      var items' := items;
      var ok, removed := DeleteItems(user, Take(itemIds, LIST_CAP));
      if !ok {
        items := items';
        return Err(NotFound);
      }
      StripFromOutfits(user, removed, OUTFIT_CAP, now);
      return Ok(|removed|);
    }

    method EditMany(user: nat, itemIds: seq<nat>, e: ItemEdit, now: int) returns (r: Result<(), Error>)
      modifies `items
      ensures (View(), r) == EditItems(old(View()), user, itemIds, e, now)
    {
      var items', ids := items, Take(itemIds, LIST_CAP);
      for i := 0 to |ids|
        invariant EditAll(items, user, ids[i..], e, now) == EditAll(old(items), user, ids, e, now)
      {
        assert ids[i..][1..] == ids[i + 1..];
        if !(ids[i] in items && items[ids[i]].owner == user) {
          items := items';
          return Err(NotFound);
        }
        if Refuses(items[ids[i]], e) {
          items := items';
          return Err(InvalidInput);
        }
        items := items[ids[i] := Edited(items[ids[i]], e, now)];
      }
      return Ok(());
    }

    method InsertMany(user: nat, upload: Option<nat>, pieces: seq<Piece>, now: int)
      modifies `items, `nextId
      ensures View() == InsertItems(old(View()), user, upload, pieces, now)
    {
      for i := 0 to |pieces|
        invariant View() == InsertItems(old(View()), user, upload, pieces[..i], now)
      {
        assert pieces[..i + 1][..i] == pieces[..i];
        items := items[nextId := NewItem(user, upload, pieces[i], now)];
        nextId := nextId + 1;
      }
      assert pieces[..|pieces|] == pieces;
    }

    method PatchFromPipeline(id: nat, e: ItemEdit, now: int)
      modifies `items
      ensures View() == PipelineEdit(old(View()), id, e, now)
    {
      if id in items {
        items := items[id := Edited(items[id], e, now)];
      }
    }

    method CreateNewOutfit(
        user: nat, name: string, slots: Slots, thread: Option<nat>, savedAt: Option<int>, slotsOk: bool, now: int)
      returns (id: Result<nat, Error>)
      modifies `outfits, `nextId
      ensures (View(), id) == CreateOutfit(old(View()), user, name, slots, thread, savedAt, slotsOk, now)
    {
      if !slotsOk {
        return Err(InvalidInput);
      }
      outfits := outfits + [Outfit(nextId, user, 0, slots, name, thread, savedAt, now)];
      id := Ok(nextId);
      nextId := nextId + 1;
    }

    method ChangeOutfit(user: nat, id: nat, e: OutfitEdit, now: int) returns (r: Result<(), Error>)
      modifies `outfits
      ensures (View(), r) == EditOutfit(old(View()), user, id, e, now)
    {
      var found := OwnedOutfit(outfits, user, id);
      if found.None? {
        return Err(NotFound);
      }
      if e.Rework? && e.slots.Some? && !e.slotsOk {
        return Err(InvalidInput);
      }
      outfits := outfits[found.value := EditedOutfit(outfits[found.value], e, now)];
      return Ok(());
    }

    method DeleteOutfit(user: nat, id: nat, pending: bool) returns (r: Result<(), Error>)
      modifies `outfits
      ensures (View(), r) == RemoveOutfit(old(View()), user, id, pending)
    {
      var found := OwnedOutfit(outfits, user, id);
      if found.None? {
        return Err(NotFound);
      }
      if pending {
        return Err(Conflict);
      }
      outfits := outfits[..found.value] + outfits[found.value + 1..];
      return Ok(());
    }
  }
}
