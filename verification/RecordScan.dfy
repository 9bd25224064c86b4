/**
 Merging the findings of a mailbox scan into one user's stored findings, charges and
 garment suggestions. A table is the list of the user's rows in order of creation.
 */
module RecordScan {
  import opened Text

  // ----- Tables -----

  /** A row with the field it is looked up by. */
  datatype Keyed<T> = Keyed(key: string, value: T)

  function Get<T>(rows: seq<Keyed<T>>, key: string): Option<T> {
    if rows == [] then None
    else if rows[0].key == key then Some(rows[0].value)
    else Get(rows[1..], key)
  }

  /** Patch the row with the key, or insert a new one. */
  function Put<T>(rows: seq<Keyed<T>>, key: string, value: T): seq<Keyed<T>> {
    if rows == [] then [Keyed(key, value)]
    else if rows[0].key == key then [Keyed(key, value)] + rows[1..]
    else [rows[0]] + Put(rows[1..], key, value)
  }

  function Keys<T>(rows: seq<Keyed<T>>): (r: seq<string>)
    ensures |r| == |rows| && forall i :: 0 <= i < |r| ==> r[i] == rows[i].key
  {
    seq(|rows|, i requires 0 <= i < |rows| => rows[i].key)
  }

  ghost predicate UniqueKeys<T>(rows: seq<Keyed<T>>) {
    forall i, j :: 0 <= i < j < |rows| ==> rows[i].key != rows[j].key
  }

  lemma {:induction false} GetAfterPut<T>(rows: seq<Keyed<T>>, key: string, value: T, other: string)
    ensures Get(Put(rows, key, value), other) == if other == key then Some(value) else Get(rows, other)
  {
    if rows != [] && rows[0].key != key {
      GetAfterPut(rows[1..], key, value, other);
      assert Put(rows, key, value)[1..] == Put(rows[1..], key, value);
    }
  }

  lemma {:induction false} GetIsMembership<T>(rows: seq<Keyed<T>>, key: string)
    ensures Get(rows, key).Some? <==> key in Keys(rows)
  {
    if rows != [] {
      GetIsMembership(rows[1..], key);
      assert Keys(rows) == [rows[0].key] + Keys(rows[1..]);
    }
  }

  lemma {:induction false} KeysAfterPut<T>(rows: seq<Keyed<T>>, key: string, value: T)
    ensures Keys(Put(rows, key, value)) == if Get(rows, key).Some? then Keys(rows) else Keys(rows) + [key]
  {
    if rows != [] && rows[0].key != key {
      KeysAfterPut(rows[1..], key, value);
      assert Keys(rows) == [rows[0].key] + Keys(rows[1..]);
      assert Keys(Put(rows, key, value)) == [rows[0].key] + Keys(Put(rows[1..], key, value));
    } else if rows != [] {
      assert Keys(Put(rows, key, value)) == Keys(rows);
    }
  }

  lemma PutKeepsUnique<T>(rows: seq<Keyed<T>>, key: string, value: T)
    requires UniqueKeys(rows)
    ensures UniqueKeys(Put(rows, key, value))
  {
    KeysAfterPut(rows, key, value);
    GetIsMembership(rows, key);
    var after := Put(rows, key, value);
    forall i, j | 0 <= i < j < |after|
      ensures after[i].key != after[j].key
    {
      assert after[i].key == Keys(after)[i] && after[j].key == Keys(after)[j];
    }
  }

  lemma {:induction false} GetAt<T>(rows: seq<Keyed<T>>, i: nat)
    requires UniqueKeys(rows) && i < |rows|
    ensures Get(rows, rows[i].key) == Some(rows[i].value)
  {
    if i > 0 {
      assert rows[0].key != rows[i].key;
      assert rows[1..][i - 1] == rows[i];
      GetAt(rows[1..], i - 1);
    }
  }

  /** Tables with unique keys are equal when they list the same keys with the same rows. */
  lemma SameTable<T>(a: seq<Keyed<T>>, b: seq<Keyed<T>>)
    requires UniqueKeys(a) && UniqueKeys(b) && Keys(a) == Keys(b)
    requires forall k :: Get(a, k) == Get(b, k)
    ensures a == b
  {
    forall i | 0 <= i < |a|
      ensures a[i] == b[i]
    {
      GetAt(a, i);
      GetAt(b, i);
      assert a[i].key == Keys(a)[i] == Keys(b)[i] == b[i].key;
    }
  }

  // ----- Findings -----

  datatype Kind = TrialNotice | RecurringCharge | RenewalNotice | Receipt

  datatype Finding = Finding(
    kind: Kind, merchant: string, amount: Option<int>, currency: Option<string>, cadence: Option<string>,
    nextRenewal: Option<int>, messageRef: string, rfc822Id: Option<string>, snippet: string, confidence: int,
    occurredAt: Option<int>, clothing: bool)

  /** The fields of a stored finding; a patch replaces those it has and leaves the others. */
  datatype Fields = Fields(
    kind: Option<Kind>, merchant: Option<string>, amount: Option<int>, currency: Option<string>,
    cadence: Option<string>, nextRenewal: Option<int>, rfc822Id: Option<string>, snippet: Option<string>,
    confidence: Option<int>, occurredAt: Option<int>)

  const NO_FIELDS := Fields(None, None, None, None, None, None, None, None, None, None)

  function FieldsOf(f: Finding): Fields {
    Fields(Some(f.kind), Some(f.merchant), f.amount, f.currency, f.cadence, f.nextRenewal, f.rfc822Id,
           Some(f.snippet), Some(f.confidence), f.occurredAt)
  }

  function Or<T>(change: Option<T>, old': Option<T>): Option<T> {
    if change.Some? then change else old'
  }

  function Patched(r: Fields, p: Fields): Fields {
    Fields(Or(p.kind, r.kind), Or(p.merchant, r.merchant), Or(p.amount, r.amount), Or(p.currency, r.currency),
           Or(p.cadence, r.cadence), Or(p.nextRenewal, r.nextRenewal), Or(p.rfc822Id, r.rfc822Id),
           Or(p.snippet, r.snippet), Or(p.confidence, r.confidence), Or(p.occurredAt, r.occurredAt))
  }

  function Refs(fs: seq<Finding>): set<string> {
    set f | f in fs :: f.messageRef
  }

  function Time(at: Option<int>): int {
    if at.Some? then at.value else 0
  }

  /** A stored finding inside the window that the scan no longer reports. */
  predicate Stale(row: Keyed<Fields>, since: int, kept: set<string>) {
    Time(row.value.occurredAt) >= since && row.key !in kept
  }

  function WithoutStale(rows: seq<Keyed<Fields>>, since: int, kept: set<string>): (r: seq<Keyed<Fields>>)
    ensures |r| <= |rows|
  {
    if rows == [] then []
    else
      var rest := WithoutStale(rows[..|rows| - 1], since, kept);
      if Stale(rows[|rows| - 1], since, kept) then rest else rest + [rows[|rows| - 1]]
  }

  const READ_CAP := 1000

  /** The table after the stale rows among its first thousand are deleted. */
  function Pruned(rows: seq<Keyed<Fields>>, since: int, kept: set<string>): seq<Keyed<Fields>> {
    var cap := Min(READ_CAP, |rows|);
    WithoutStale(rows[..cap], since, kept) + rows[cap..]
  }

  function Upsert(rows: seq<Keyed<Fields>>, f: Finding): seq<Keyed<Fields>> {
    match Get(rows, f.messageRef)
    case Some(r) => Put(rows, f.messageRef, Patched(r, FieldsOf(f)))
    case None => Put(rows, f.messageRef, FieldsOf(f))
  }

  function UpsertAll(rows: seq<Keyed<Fields>>, fs: seq<Finding>): seq<Keyed<Fields>> {
    if fs == [] then rows else Upsert(UpsertAll(rows, fs[..|fs| - 1]), fs[|fs| - 1])
  }

  // ----- Charges -----

  datatype Base = Base(
    merchant: string, amount: int, currency: string, cadence: string, annualized: Option<int>,
    nextRenewal: Option<int>, confidence: int, sourceRef: string, snippet: string, observedAt: Option<int>)

  datatype Change = Change(before: int, after: int, detectedAt: int)

  datatype Charge = Charge(base: Base, priceChanged: Option<Change>, state: string, createdAt: int)

  /** Case folding and the yearly amount are taken as given. */
  datatype Env = Env(lower: string -> string, annualized: (int, string) -> Option<int>)

  predicate Charges(f: Finding) {
    f.kind.RecurringCharge? && f.amount.Some? && f.cadence.Some? && f.cadence.value != ""
  }

  function DedupKey(env: Env, f: Finding): string
    requires Charges(f)
  {
    "gmail:" + env.lower(f.merchant) + ":" + f.cadence.value
  }

  function BaseOf(env: Env, f: Finding): Base
    requires Charges(f)
  {
    Base(f.merchant, f.amount.value, if f.currency.Some? then f.currency.value else "USD", f.cadence.value,
         env.annualized(f.amount.value, f.cadence.value), f.nextRenewal, f.confidence, "gmail:" + f.messageRef,
         f.snippet, f.occurredAt)
  }

  function Charged(env: Env, rows: seq<Keyed<Charge>>, f: Finding, now: int): seq<Keyed<Charge>> {
    if !Charges(f) then rows
    else
      match Get(rows, DedupKey(env, f))
      case None => Put(rows, DedupKey(env, f), Charge(BaseOf(env, f), None, "active", now))
      case Some(m) =>
        if Time(f.occurredAt) > Time(m.base.observedAt) then
          Put(rows, DedupKey(env, f),
              m.(base := BaseOf(env, f),
                 priceChanged := if m.base.amount != f.amount.value
                                 then Some(Change(m.base.amount, f.amount.value, now))
                                 else m.priceChanged))
        else rows
  }

  function ChargedAll(env: Env, rows: seq<Keyed<Charge>>, fs: seq<Finding>, now: int): seq<Keyed<Charge>> {
    if fs == [] then rows else Charged(env, ChargedAll(env, rows, fs[..|fs| - 1], now), fs[|fs| - 1], now)
  }

  // ----- Suggestions -----

  datatype Suggestion = Suggestion(
    merchant: string, title: string, price: Option<int>, currency: Option<string>, status: string, createdAt: int)

  function Suggested(rows: seq<Keyed<Suggestion>>, f: Finding, now: int): seq<Keyed<Suggestion>> {
    if f.clothing && Get(rows, f.messageRef).None? then
      Put(rows, f.messageRef, Suggestion(f.merchant, f.snippet, f.amount, f.currency, "pending", now))
    else rows
  }

  function SuggestedAll(rows: seq<Keyed<Suggestion>>, fs: seq<Finding>, now: int): seq<Keyed<Suggestion>> {
    if fs == [] then rows else Suggested(SuggestedAll(rows, fs[..|fs| - 1], now), fs[|fs| - 1], now)
  }

  // ----- The scan -----

  datatype Store = Store(emails: seq<Keyed<Fields>>, money: seq<Keyed<Charge>>, suggestions: seq<Keyed<Suggestion>>)

  const WINDOW := 90 * 86_400_000

  function Scan(env: Env, s: Store, fs: seq<Finding>, now: int): Store {
    Store(UpsertAll(Pruned(s.emails, now - WINDOW, Refs(fs)), fs),
          ChargedAll(env, s.money, fs, now),
          SuggestedAll(s.suggestions, fs, now))
  }

  /** At most one row per message, and per merchant and cadence. */
  ghost predicate Unique(s: Store) {
    UniqueKeys(s.emails) && UniqueKeys(s.money) && UniqueKeys(s.suggestions)
  }

  lemma {:induction false} WithoutStaleKeepsUnique(rows: seq<Keyed<Fields>>, since: int, kept: set<string>)
    requires UniqueKeys(rows)
    ensures UniqueKeys(WithoutStale(rows, since, kept))
    ensures forall r :: r in WithoutStale(rows, since, kept) <==> r in rows && !Stale(r, since, kept)
  {
    if rows != [] {
      var init := rows[..|rows| - 1];
      WithoutStaleKeepsUnique(init, since, kept);
      assert rows == init + [rows[|rows| - 1]];
      var after := WithoutStale(rows, since, kept);
      forall i, j | 0 <= i < j < |after|
        ensures after[i].key != after[j].key
      {
        assert after[i] in WithoutStale(init, since, kept);
        assert after[i] in init;
      }
    }
  }

  lemma PrunedIsUnique(rows: seq<Keyed<Fields>>, since: int, kept: set<string>)
    requires UniqueKeys(rows)
    ensures UniqueKeys(Pruned(rows, since, kept))
  {
    var cap := Min(READ_CAP, |rows|);
    WithoutStaleKeepsUnique(rows[..cap], since, kept);
    var head := WithoutStale(rows[..cap], since, kept);
    var after := head + rows[cap..];
    forall i, j | 0 <= i < j < |after|
      ensures after[i].key != after[j].key
    {
      if i < |head| && j >= |head| {
        assert head[i] in rows[..cap];
      }
    }
  }

  lemma {:induction false} UpsertAllIsUnique(rows: seq<Keyed<Fields>>, fs: seq<Finding>)
    requires UniqueKeys(rows)
    ensures UniqueKeys(UpsertAll(rows, fs))
  {
    if fs != [] {
      UpsertAllIsUnique(rows, fs[..|fs| - 1]);
      var before, f := UpsertAll(rows, fs[..|fs| - 1]), fs[|fs| - 1];
      PutKeepsUnique(before, f.messageRef,
        match Get(before, f.messageRef) case Some(r) => Patched(r, FieldsOf(f)) case None => FieldsOf(f));
    }
  }

  lemma ChargedIsUnique(env: Env, rows: seq<Keyed<Charge>>, f: Finding, now: int)
    requires UniqueKeys(rows)
    ensures UniqueKeys(Charged(env, rows, f, now))
  {
    if Charges(f) {
      var key := DedupKey(env, f);
      match Get(rows, key)
      case None => PutKeepsUnique(rows, key, Charge(BaseOf(env, f), None, "active", now));
      case Some(m) =>
        var change := if m.base.amount != f.amount.value then Some(Change(m.base.amount, f.amount.value, now))
            else m.priceChanged;
        PutKeepsUnique(rows, key, m.(base := BaseOf(env, f), priceChanged := change));
    }
  }

  lemma {:induction false} ChargedAllIsUnique(env: Env, rows: seq<Keyed<Charge>>, fs: seq<Finding>, now: int)
    requires UniqueKeys(rows)
    ensures UniqueKeys(ChargedAll(env, rows, fs, now))
  {
    if fs != [] {
      ChargedAllIsUnique(env, rows, fs[..|fs| - 1], now);
      ChargedIsUnique(env, ChargedAll(env, rows, fs[..|fs| - 1], now), fs[|fs| - 1], now);
    }
  }

  lemma {:induction false} SuggestedAllIsUnique(rows: seq<Keyed<Suggestion>>, fs: seq<Finding>, now: int)
    requires UniqueKeys(rows)
    ensures UniqueKeys(SuggestedAll(rows, fs, now))
  {
    if fs != [] {
      SuggestedAllIsUnique(rows, fs[..|fs| - 1], now);
      var f := fs[|fs| - 1];
      PutKeepsUnique(SuggestedAll(rows, fs[..|fs| - 1], now), f.messageRef,
        Suggestion(f.merchant, f.snippet, f.amount, f.currency, "pending", now));
    }
  }

  /** A scan keeps one row per message and per dedup key. */
  lemma ScanKeepsUnique(env: Env, s: Store, fs: seq<Finding>, now: int)
    requires Unique(s)
    ensures Unique(Scan(env, s, fs, now))
  {
    PrunedIsUnique(s.emails, now - WINDOW, Refs(fs));
    UpsertAllIsUnique(Pruned(s.emails, now - WINDOW, Refs(fs)), fs);
    ChargedAllIsUnique(env, s.money, fs, now);
    SuggestedAllIsUnique(s.suggestions, fs, now);
  }

  // ----- What a scan leaves of the stored findings -----

  /** For each field the last finding of the message that has it. */
  function PatchFor(fs: seq<Finding>, ref: string): Fields {
    if fs == [] then NO_FIELDS
    else
      var p := PatchFor(fs[..|fs| - 1], ref);
      var f := fs[|fs| - 1];
      if f.messageRef == ref then Patched(p, FieldsOf(f)) else p
  }

  lemma PatchLaws(r: Fields, p: Fields, q: Fields)
    ensures Patched(Patched(r, p), q) == Patched(r, Patched(p, q))
    ensures Patched(Patched(r, p), p) == Patched(r, p)
    ensures Patched(r, NO_FIELDS) == r && Patched(NO_FIELDS, p) == p
  {
  }

  lemma {:induction false} NoPatchUnlessNamed(fs: seq<Finding>, ref: string)
    requires ref !in Refs(fs)
    ensures PatchFor(fs, ref) == NO_FIELDS
  {
    if fs != [] {
      assert fs[|fs| - 1] in fs;
      forall f | f in fs[..|fs| - 1]
        ensures f.messageRef != ref
      {
        assert f in fs;
      }
      NoPatchUnlessNamed(fs[..|fs| - 1], ref);
    }
  }

  function FieldsOrNone(r: Option<Fields>): Fields {
    if r.Some? then r.value else NO_FIELDS
  }

  lemma RefsGrow(fs: seq<Finding>, ref: string)
    requires fs != []
    ensures ref in Refs(fs) <==> ref in Refs(fs[..|fs| - 1]) || fs[|fs| - 1].messageRef == ref
  {
    assert fs == fs[..|fs| - 1] + [fs[|fs| - 1]];
    assert fs[|fs| - 1] in fs;
    forall f | f in fs[..|fs| - 1]
      ensures f in fs
    {
    }
  }

  /** The stored finding of a message is its old row patched by all its findings. */
  lemma {:induction false} StoredFinding(rows: seq<Keyed<Fields>>, fs: seq<Finding>, ref: string)
    ensures Get(UpsertAll(rows, fs), ref) ==
            if ref in Refs(fs) then Some(Patched(FieldsOrNone(Get(rows, ref)), PatchFor(fs, ref))) else Get(rows, ref)
  {
    if fs != [] {
      var init, f := fs[..|fs| - 1], fs[|fs| - 1];
      StoredFinding(rows, init, ref);
      RefsGrow(fs, ref);
      var before := UpsertAll(rows, init);
      var old' := Get(before, f.messageRef);
      GetAfterPut(before, f.messageRef, Patched(FieldsOrNone(old'), FieldsOf(f)), ref);
      PatchLaws(FieldsOrNone(old'), FieldsOf(f), FieldsOf(f));
      if f.messageRef == ref {
        PatchLaws(FieldsOrNone(Get(rows, ref)), PatchFor(init, ref), FieldsOf(f));
        if ref !in Refs(init) {
          NoPatchUnlessNamed(init, ref);
          PatchLaws(FieldsOrNone(Get(rows, ref)), FieldsOf(f), FieldsOf(f));
        }
      }
    }
  }

  lemma {:induction false} UpsertedKeys(rows: seq<Keyed<Fields>>, fs: seq<Finding>)
    ensures |rows| <= |UpsertAll(rows, fs)|
    ensures Keys(UpsertAll(rows, fs))[..|rows|] == Keys(rows)
    ensures forall i :: |rows| <= i < |UpsertAll(rows, fs)| ==> UpsertAll(rows, fs)[i].key in Refs(fs)
    ensures (forall ref :: ref in Refs(fs) ==> Get(rows, ref).Some?) ==> Keys(UpsertAll(rows, fs)) == Keys(rows)
  {
    if fs != [] {
      var init, f := fs[..|fs| - 1], fs[|fs| - 1];
      UpsertedKeys(rows, init);
      var before, after := UpsertAll(rows, init), UpsertAll(rows, fs);
      KeysAfterPut(before, f.messageRef, Patched(FieldsOrNone(Get(before, f.messageRef)), FieldsOf(f)));
      PatchLaws(NO_FIELDS, FieldsOf(f), NO_FIELDS);
      forall ref
        ensures ref in Refs(fs) <==> ref in Refs(init) || f.messageRef == ref
      {
        RefsGrow(fs, ref);
      }
      assert Keys(after) == Keys(before) || Keys(after) == Keys(before) + [f.messageRef];
      forall i | |rows| <= i < |after|
        ensures after[i].key in Refs(fs)
      {
        assert after[i].key == Keys(after)[i];
        assert i < |before| ==> before[i].key == Keys(before)[i];
      }
      if forall ref :: ref in Refs(fs) ==> Get(rows, ref).Some? {
        StoredFinding(rows, init, f.messageRef);
      }
    }
  }

  /** Merging the same findings a second time changes nothing. */
  lemma UpsertTwice(rows: seq<Keyed<Fields>>, fs: seq<Finding>)
    requires UniqueKeys(rows)
    ensures UpsertAll(UpsertAll(rows, fs), fs) == UpsertAll(rows, fs)
  {
    var once := UpsertAll(rows, fs);
    var twice := UpsertAll(once, fs);
    UpsertAllIsUnique(rows, fs);
    UpsertAllIsUnique(once, fs);
    forall ref
      ensures Get(twice, ref) == Get(once, ref)
      ensures ref in Refs(fs) ==> Get(once, ref).Some?
    {
      StoredFinding(rows, fs, ref);
      StoredFinding(once, fs, ref);
      PatchLaws(FieldsOrNone(Get(rows, ref)), PatchFor(fs, ref), NO_FIELDS);
    }
    UpsertedKeys(once, fs);
    SameTable(twice, once);
  }

  // ----- Scanning again -----

  ghost predicate NoneStale(rows: seq<Keyed<Fields>>, since: int, kept: set<string>) {
    forall r :: r in rows ==> !Stale(r, since, kept)
  }

  lemma {:induction false} NothingToPrune(rows: seq<Keyed<Fields>>, since: int, kept: set<string>)
    requires NoneStale(rows, since, kept)
    ensures WithoutStale(rows, since, kept) == rows
  {
    if rows != [] {
      NothingToPrune(rows[..|rows| - 1], since, kept);
      assert rows == rows[..|rows| - 1] + [rows[|rows| - 1]];
    }
  }

  /** The rows past the first thousand that move up among them when stale rows go. */
  function SlidIn(rows: seq<Keyed<Fields>>, since: int, kept: set<string>): seq<Keyed<Fields>> {
    var cap := Min(READ_CAP, |rows|);
    var gone := cap - |WithoutStale(rows[..cap], since, kept)|;
    rows[cap..][..Min(gone, |rows| - cap)]
  }

  function Read(rows: seq<Keyed<Fields>>): seq<Keyed<Fields>> {
    rows[..Min(READ_CAP, |rows|)]
  }

  lemma WhatIsReadNext(rows: seq<Keyed<Fields>>, since: int, since': int, kept: set<string>)
    requires since <= since' && UniqueKeys(rows)
    ensures NoneStale(Read(Pruned(rows, since, kept)), since', kept) <==>
        NoneStale(SlidIn(rows, since, kept), since', kept)
  {
    var cap := Min(READ_CAP, |rows|);
    WithoutStaleKeepsUnique(rows[..cap], since, kept);
    assert Read(Pruned(rows, since, kept)) == WithoutStale(rows[..cap], since, kept) + SlidIn(rows, since, kept);
  }

  /** A row the findings do not name is stored as it was; a named one is not stale. */
  lemma StaleAfterUpsert(rows: seq<Keyed<Fields>>, fs: seq<Finding>, since: int)
    requires UniqueKeys(rows)
    ensures NoneStale(Read(UpsertAll(rows, fs)), since, Refs(fs)) <==> NoneStale(Read(rows), since, Refs(fs))
  {
    var after := UpsertAll(rows, fs);
    UpsertedKeys(rows, fs);
    UpsertAllIsUnique(rows, fs);
    forall i | 0 <= i < |rows|
      ensures Stale(after[i], since, Refs(fs)) <==> Stale(rows[i], since, Refs(fs))
    {
      assert Keys(after)[..|rows|][i] == Keys(rows)[i];
      assert after[i].key == rows[i].key;
      StoredFinding(rows, fs, rows[i].key);
      GetAt(rows, i);
      GetAt(after, i);
    }
    if NoneStale(Read(rows), since, Refs(fs)) {
      forall r | r in Read(after)
        ensures !Stale(r, since, Refs(fs))
      {
        var i :| 0 <= i < |Read(after)| && Read(after)[i] == r;
        assert i < |rows| ==> rows[i] in Read(rows);
      }
    }
    if NoneStale(Read(after), since, Refs(fs)) {
      forall r | r in Read(rows)
        ensures !Stale(r, since, Refs(fs))
      {
        var i :| 0 <= i < |Read(rows)| && Read(rows)[i] == r;
        assert after[i] in Read(after);
      }
    }
  }

  lemma StaleKeyIsPruned(rows: seq<Keyed<Fields>>, since: int, kept: set<string>, i: nat)
    requires UniqueKeys(rows) && i < |Read(rows)| && Stale(rows[i], since, kept)
    ensures rows[i].key !in Keys(Pruned(rows, since, kept))
  {
    var cap := Min(READ_CAP, |rows|);
    var front := WithoutStale(rows[..cap], since, kept);
    var pruned := Pruned(rows, since, kept);
    WithoutStaleKeepsUnique(rows[..cap], since, kept);
    forall j | 0 <= j < |pruned|
      ensures Keys(pruned)[j] != rows[i].key
    {
      if j < |front| {
        assert front[j] in rows[..cap] && !Stale(front[j], since, kept);
        var k :| 0 <= k < cap && rows[k] == front[j];
        assert rows[k].key != rows[i].key;
      } else {
        assert pruned[j] == rows[j - |front| + cap];
      }
    }
  }

  /** A stale row that is read is deleted for good. */
  lemma StaleRowsGo(rows: seq<Keyed<Fields>>, fs: seq<Finding>, since: int)
    requires UniqueKeys(rows) && !NoneStale(Read(rows), since, Refs(fs))
    ensures UpsertAll(Pruned(rows, since, Refs(fs)), fs) != rows
  {
    var r :| r in Read(rows) && Stale(r, since, Refs(fs));
    var i :| 0 <= i < |Read(rows)| && Read(rows)[i] == r;
    var pruned := Pruned(rows, since, Refs(fs));
    GetAt(rows, i);
    StaleKeyIsPruned(rows, since, Refs(fs), i);
    GetIsMembership(pruned, r.key);
    StoredFinding(pruned, fs, r.key);
  }

  lemma {:induction false} ChargesTwice(env: Env, rows: seq<Keyed<Charge>>, fs: seq<Finding>, now: int)
    requires forall f :: f in fs && Charges(f) ==> UpToDate(rows, DedupKey(env, f), f)
    ensures ChargedAll(env, rows, fs, now) == rows
  {
    if fs != [] {
      assert fs == fs[..|fs| - 1] + [fs[|fs| - 1]];
      ChargesTwice(env, rows, fs[..|fs| - 1], now);
    }
  }

  /** The stored charge is at least as new as the finding. */
  predicate UpToDate(rows: seq<Keyed<Charge>>, key: string, f: Finding) {
    Get(rows, key).Some? && Time(f.occurredAt) <= Time(Get(rows, key).value.base.observedAt)
  }

  /** Where a stored charge comes from: it was there already, or a finding brought it. */
  ghost predicate BroughtBy(env: Env, fs: seq<Finding>, key: string, c: Charge) {
    exists f :: f in fs && Charges(f) && DedupKey(env, f) == key && BaseOf(env, f) == c.base
  }

  /** The charge in `after` is the old one, untouched, or a strictly newer one from the findings. */
  ghost predicate Newest(env: Env, old': Option<Charge>, fs: seq<Finding>, key: string, after: Option<Charge>) {
    && (old'.Some? ==> after.Some? && Time(old'.value.base.observedAt) <= Time(after.value.base.observedAt))
    && (after.Some? ==>
          || after == old'
          || (BroughtBy(env, fs, key, after.value) &&
              (old'.Some? ==> Time(old'.value.base.observedAt) < Time(after.value.base.observedAt))))
  }

  lemma BroughtByMore(env: Env, fs: seq<Finding>, f: Finding, key: string, c: Charge)
    requires BroughtBy(env, fs, key, c)
    ensures BroughtBy(env, fs + [f], key, c)
  {
    var g :| g in fs && Charges(g) && DedupKey(env, g) == key && BaseOf(env, g) == c.base;
    assert g in fs + [f];
  }

  /** One finding moves a charge on only to a strictly newer one. */
  lemma OneCharge(env: Env, rows: seq<Keyed<Charge>>, f: Finding, now: int, key: string)
    ensures Newest(env, Get(rows, key), [f], key, Get(Charged(env, rows, f, now), key))
    ensures Charges(f) && DedupKey(env, f) == key ==> UpToDate(Charged(env, rows, f, now), key, f)
  {
    assert f in [f];
    if Charges(f) {
      var k := DedupKey(env, f);
      GetAfterPut(rows, k, Charge(BaseOf(env, f), None, "active", now), key);
      if Get(rows, k).Some? {
        var m := Get(rows, k).value;
        var change := if m.base.amount != f.amount.value then Some(Change(m.base.amount, f.amount.value, now))
            else m.priceChanged;
        GetAfterPut(rows, k, m.(base := BaseOf(env, f), priceChanged := change), key);
      }
    }
  }

  /** After a scan each charge is the newest of the stored one and the findings, the stored one on a tie. */
  lemma {:induction false} StoredCharge(env: Env, rows: seq<Keyed<Charge>>, fs: seq<Finding>, now: int, key: string)
    ensures Newest(env, Get(rows, key), fs, key, Get(ChargedAll(env, rows, fs, now), key))
    ensures forall f :: f in fs && Charges(f) && DedupKey(env, f) == key ==>
        UpToDate(ChargedAll(env, rows, fs, now), key, f)
  {
    if fs != [] {
      var init, f := fs[..|fs| - 1], fs[|fs| - 1];
      assert fs == init + [f];
      StoredCharge(env, rows, init, now, key);
      var before := ChargedAll(env, rows, init, now);
      OneCharge(env, before, f, now, key);
      var mid, after := Get(before, key), Get(ChargedAll(env, rows, fs, now), key);
      if mid.Some? && BroughtBy(env, init, key, mid.value) {
        BroughtByMore(env, init, f, key, mid.value);
      }
      if after.Some? && BroughtBy(env, [f], key, after.value) {
        assert f in fs;
      }
    }
  }

  lemma ChargesAreUpToDate(env: Env, rows: seq<Keyed<Charge>>, fs: seq<Finding>, now: int)
    ensures forall f :: f in fs && Charges(f) ==> UpToDate(ChargedAll(env, rows, fs, now), DedupKey(env, f), f)
  {
    forall f | f in fs && Charges(f)
      ensures UpToDate(ChargedAll(env, rows, fs, now), DedupKey(env, f), f)
    {
      StoredCharge(env, rows, fs, now, DedupKey(env, f));
    }
  }

  predicate SameCharge(env: Env, f: Finding, g: Finding) {
    && Charges(f) && Charges(g) && DedupKey(env, f) == DedupKey(env, g)
    && Time(f.occurredAt) == Time(g.occurredAt)
  }

  /** No two findings of one merchant and cadence happened at the same time. */
  ghost predicate DistinctTimes(env: Env, fs: seq<Finding>) {
    forall f, g :: f in fs && g in fs && SameCharge(env, f, g) ==> f == g
  }

  ghost predicate SameBase(a: Option<Charge>, b: Option<Charge>) {
    (a.Some? <==> b.Some?) && (a.Some? ==> a.value.base == b.value.base)
  }

  lemma NotNewer(
      env: Env, rows: seq<Keyed<Charge>>, fs: seq<Finding>, gs: seq<Finding>, now: int, now': int, key: string)
    requires forall f :: f in fs ==> f in gs
    ensures var a, b := Get(ChargedAll(env, rows, fs, now), key), Get(ChargedAll(env, rows, gs, now'), key);
            a.Some? ==> b.Some? && Time(a.value.base.observedAt) <= Time(b.value.base.observedAt)
  {
    StoredCharge(env, rows, fs, now, key);
    StoredCharge(env, rows, gs, now', key);
  }

  /**
   When no two charges share a time, the base fields of the stored charge do not depend on the order of the
   findings. Its price change may; see `OrderDoesNotMatterIff`.
   */
  lemma OrderDoesNotMatter(
      env: Env, rows: seq<Keyed<Charge>>, fs: seq<Finding>, gs: seq<Finding>, now: int, now': int, key: string)
    requires DistinctTimes(env, fs) && forall f :: f in fs <==> f in gs
    ensures SameBase(Get(ChargedAll(env, rows, fs, now), key), Get(ChargedAll(env, rows, gs, now'), key))
  {
    NotNewer(env, rows, fs, gs, now, now', key);
    NotNewer(env, rows, gs, fs, now', now, key);
    StoredCharge(env, rows, fs, now, key);
    StoredCharge(env, rows, gs, now', key);
    var old', a := Get(rows, key), Get(ChargedAll(env, rows, fs, now), key);
    var b := Get(ChargedAll(env, rows, gs, now'), key);
    if a.Some? && a != old' && b != old' {
      var f :| f in fs && Charges(f) && DedupKey(env, f) == key && BaseOf(env, f) == a.value.base;
      var g :| g in gs && Charges(g) && DedupKey(env, g) == key && BaseOf(env, g) == b.value.base;
      assert SameCharge(env, f, g);
    }
  }

  // ----- What a finding leaves in each column -----

  ghost predicate IsSetTo<T>(change: Option<T>, before: Option<T>, after: Option<T>) {
    if change.Some? then after == change else after == before
  }

  /** The columns of a stored finding once `f` was recorded over `before`. */
  ghost predicate IsRecorded(f: Finding, before: Fields, after: Fields) {
    && after.kind == Some(f.kind) && after.merchant == Some(f.merchant)
    && after.snippet == Some(f.snippet) && after.confidence == Some(f.confidence)
    && IsSetTo(f.amount, before.amount, after.amount) && IsSetTo(f.currency, before.currency, after.currency)
    && IsSetTo(f.cadence, before.cadence, after.cadence)
    && IsSetTo(f.nextRenewal, before.nextRenewal, after.nextRenewal)
    && IsSetTo(f.rfc822Id, before.rfc822Id, after.rfc822Id)
    && IsSetTo(f.occurredAt, before.occurredAt, after.occurredAt)
  }

  /** Recording a finding writes its own message's row, over what was there, and no other. */
  lemma FindingIsRecorded(rows: seq<Keyed<Fields>>, f: Finding)
    ensures var before, after := Get(rows, f.messageRef), Get(Upsert(rows, f), f.messageRef);
            && after.Some?
            && IsRecorded(f, if before.Some? then before.value
                             else Fields(None, None, None, None, None, None, None, None, None, None), after.value)
    ensures forall ref :: ref != f.messageRef ==> Get(Upsert(rows, f), ref) == Get(rows, ref)
  {
    forall ref
      ensures Get(Upsert(rows, f), ref) ==
              if ref == f.messageRef then Some(Patched(FieldsOrNone(Get(rows, ref)), FieldsOf(f))) else Get(rows, ref)
    {
      GetAfterPut(rows, f.messageRef, Patched(FieldsOrNone(Get(rows, f.messageRef)), FieldsOf(f)), ref);
      PatchLaws(NO_FIELDS, FieldsOf(f), NO_FIELDS);
    }
  }

  /** The columns of a charge that a finding brought. */
  ghost predicate IsCharge(env: Env, f: Finding, b: Base) {
    && b.merchant == f.merchant && f.amount == Some(b.amount) && f.cadence == Some(b.cadence)
    && b.currency == (if f.currency.Some? then f.currency.value else "USD")
    && b.annualized == env.annualized(b.amount, b.cadence) && b.nextRenewal == f.nextRenewal
    && b.confidence == f.confidence && b.sourceRef == "gmail:" + f.messageRef && b.snippet == f.snippet
    && b.observedAt == f.occurredAt
  }

  /**
   A recurring charge with an amount and a cadence is kept under its merchant and cadence: as a new active
   charge, or over an older one, whose first day and state stay. Any other finding touches no charge.
   */
  lemma ChargeIsRecorded(env: Env, rows: seq<Keyed<Charge>>, f: Finding, now: int)
    ensures var amountAndCadence := f.amount.Some? && f.cadence.Some? && f.cadence.value != "";
            !(f.kind.RecurringCharge? && amountAndCadence) ==> Charged(env, rows, f, now) == rows
    ensures f.kind.RecurringCharge? && f.amount.Some? && f.cadence.Some? && f.cadence.value != "" ==>
              var key := "gmail:" + env.lower(f.merchant) + ":" + f.cadence.value;
              var before, after := Get(rows, key), Get(Charged(env, rows, f, now), key);
              && after.Some?
              && (before.None? ==>
                    after.value.priceChanged == None && after.value.state == "active" &&
                    after.value.createdAt == now && IsCharge(env, f, after.value.base))
              && (before.Some? ==>
                    if Time(f.occurredAt) <= Time(before.value.base.observedAt) then after == before
                    else
                      && IsCharge(env, f, after.value.base)
                      && after.value.state == before.value.state && after.value.createdAt == before.value.createdAt
                      && after.value.priceChanged ==
                           if before.value.base.amount == f.amount.value then before.value.priceChanged
                           else Some(Change(before.value.base.amount, f.amount.value, now)))
  {
    if Charges(f) {
      OneChargeAfter(env, rows, f, DedupKey(env, f), now);
    }
  }

  /** A clothing message without a suggestion gets a pending one. */
  lemma SuggestionIsRecorded(rows: seq<Keyed<Suggestion>>, f: Finding, now: int)
    ensures f.clothing && Get(rows, f.messageRef).None? ==>
              Get(Suggested(rows, f, now), f.messageRef) ==
              Some(Suggestion(f.merchant, f.snippet, f.amount, f.currency, "pending", now))
    ensures !f.clothing || Get(rows, f.messageRef).Some? ==> Suggested(rows, f, now) == rows
  {
    GetAfterPut(rows, f.messageRef, Suggestion(f.merchant, f.snippet, f.amount, f.currency, "pending", now),
                f.messageRef);
  }

  /** Of the thousand rows read, those of the last ninety days that no finding names go; every other row stays. */
  lemma StaleRowsArePruned(rows: seq<Keyed<Fields>>, fs: seq<Finding>, now: int, i: nat)
    requires UniqueKeys(rows) && i < |rows|
    ensures var at := rows[i].value.occurredAt;
            rows[i] in Pruned(rows, now - WINDOW, Refs(fs)) <==>
              || i >= 1000
              || (if at.Some? then at.value else 0) < now - 7_776_000_000
              || exists f :: f in fs && f.messageRef == rows[i].key
  {
    var cap := Min(READ_CAP, |rows|);
    WithoutStaleKeepsUnique(rows[..cap], now - WINDOW, Refs(fs));
    if i < cap {
      assert rows[..cap][i] == rows[i];
      assert rows[i] !in rows[cap..];
    } else {
      assert rows[cap..][i - cap] == rows[i];
    }
  }

  // ----- The price change depends on the order -----

  /** What a finding of its merchant and cadence makes of a charge. */
  function NextCharge(env: Env, c: Option<Charge>, f: Finding, now: int): Option<Charge>
    requires Charges(f)
  {
    match c
    case None => Some(Charge(BaseOf(env, f), None, "active", now))
    case Some(m) =>
      if Time(f.occurredAt) > Time(m.base.observedAt) then
        Some(m.(base := BaseOf(env, f), priceChanged := PriceChange(m, f, now)))
      else c
  }

  function PriceChange(m: Charge, f: Finding, now: int): Option<Change>
    requires Charges(f)
  {
    if m.base.amount != f.amount.value then Some(Change(m.base.amount, f.amount.value, now)) else m.priceChanged
  }

  predicate IsFor(env: Env, f: Finding, key: string) {
    Charges(f) && DedupKey(env, f) == key
  }

  /** The charge under one key after the findings, seen by itself. */
  function ChargeAfter(env: Env, c: Option<Charge>, fs: seq<Finding>, key: string, now: int): Option<Charge> {
    if fs == [] then c
    else
      var before, f := ChargeAfter(env, c, fs[..|fs| - 1], key, now), fs[|fs| - 1];
      if IsFor(env, f, key) then NextCharge(env, before, f, now) else before
  }

  lemma OneChargeAfter(env: Env, rows: seq<Keyed<Charge>>, f: Finding, key: string, now: int)
    ensures Get(Charged(env, rows, f, now), key) ==
            if IsFor(env, f, key) then NextCharge(env, Get(rows, key), f, now) else Get(rows, key)
  {
    if Charges(f) {
      var k := DedupKey(env, f);
      var next := NextCharge(env, Get(rows, k), f, now);
      GetAfterPut(rows, k, next.value, key);
    }
  }

  lemma {:induction false} ChargeIsItsOwn(env: Env, rows: seq<Keyed<Charge>>, fs: seq<Finding>, key: string, now: int)
    ensures Get(ChargedAll(env, rows, fs, now), key) == ChargeAfter(env, Get(rows, key), fs, key, now)
  {
    hide Charged, NextCharge, IsFor;
    if fs != [] {
      ChargeIsItsOwn(env, rows, fs[..|fs| - 1], key, now);
      OneChargeAfter(env, ChargedAll(env, rows, fs[..|fs| - 1], now), fs[|fs| - 1], key, now);
    }
  }

  /** A finding for the key that is newer than the stored charge, if there is one. */
  predicate Moves(env: Env, c: Option<Charge>, f: Finding, key: string) {
    IsFor(env, f, key) && (c.Some? ==> Time(f.occurredAt) > Time(c.value.base.observedAt))
  }

  ghost predicate IsNewest(env: Env, c: Option<Charge>, fs: seq<Finding>, key: string, n: Finding) {
    && n in fs && Moves(env, c, n, key)
    && forall f :: f in fs && Moves(env, c, f, key) ==> Time(f.occurredAt) <= Time(n.occurredAt)
  }

  /** The price change when the newest finding comes first. */
  function FirstChange(env: Env, c: Option<Charge>, n: Finding, now: int): Option<Change>
    requires Charges(n)
  {
    if c.Some? then PriceChange(c.value, n, now) else None
  }

  /**
   Whatever finding comes right before the newest one, the price change that is recorded is the one the
   newest finding records on the stored charge.
   */
  ghost predicate OneChange(env: Env, c: Option<Charge>, fs: seq<Finding>, key: string, now: int) {
    forall f, n :: f in fs && Moves(env, c, f, key) && IsNewest(env, c, fs, key, n) && f.amount != n.amount ==>
      FirstChange(env, c, n, now) == Some(Change(f.amount.value, n.amount.value, now))
  }

  lemma {:induction false} NewestExists(env: Env, c: Option<Charge>, fs: seq<Finding>, key: string, f: Finding)
    returns (n: Finding)
    requires f in fs && Moves(env, c, f, key)
    ensures IsNewest(env, c, fs, key, n)
  {
    hide Moves;
    var init, last := fs[..|fs| - 1], fs[|fs| - 1];
    SplitLast(fs);
    if g :| g in init && Moves(env, c, g, key) {
      n := NewestExists(env, c, init, key, g);
      if Moves(env, c, last, key) && Time(last.occurredAt) > Time(n.occurredAt) {
        n := last;
      }
    } else {
      n := last;
    }
  }

  /** What is known of the charge while findings among `fs` go by, `n` being the newest. */
  ghost predicate OnTheWay(env: Env, c: Option<Charge>, n: Finding, now: int, d: Option<Charge>)
    requires Charges(n)
  {
    && (c.Some? ==> d.Some? && Time(c.value.base.observedAt) <= Time(d.value.base.observedAt))
    && (d.Some? ==>
          && d.value.state == (if c.Some? then c.value.state else "active")
          && d.value.createdAt == (if c.Some? then c.value.createdAt else now)
          && FirstChange(env, c, n, now) ==
             if d.value.base.amount == n.amount.value then d.value.priceChanged
             else Some(Change(d.value.base.amount, n.amount.value, now)))
  }

  lemma StaysOnTheWay(
      env: Env, c: Option<Charge>, fs: seq<Finding>, key: string, n: Finding, now: int, d: Option<Charge>, f: Finding)
    requires OneChange(env, c, fs, key, now) && IsNewest(env, c, fs, key, n) && f in fs && IsFor(env, f, key)
    requires OnTheWay(env, c, n, now, d)
    ensures OnTheWay(env, c, n, now, NextCharge(env, d, f, now))
  {
    if d.None? || Time(f.occurredAt) > Time(d.value.base.observedAt) {
      assert Moves(env, c, f, key);
    }
  }

  lemma {:induction false} EndsOnTheWay(
      env: Env, c: Option<Charge>, fs: seq<Finding>, gs: seq<Finding>, key: string, n: Finding, now: int)
    requires OneChange(env, c, fs, key, now) && IsNewest(env, c, fs, key, n) && forall g :: g in gs ==> g in fs
    ensures OnTheWay(env, c, n, now, ChargeAfter(env, c, gs, key, now))
  {
    if gs != [] {
      hide NextCharge, OneChange, IsFor, OnTheWay;
      SplitLast(gs);
      EndsOnTheWay(env, c, fs, gs[..|gs| - 1], key, n, now);
      if IsFor(env, gs[|gs| - 1], key) {
        StaysOnTheWay(env, c, fs, key, n, now, ChargeAfter(env, c, gs[..|gs| - 1], key, now), gs[|gs| - 1]);
      }
    }
  }

  /** The charge ends with the fields of the newest finding. */
  lemma EndsWithNewest(env: Env, rows: seq<Keyed<Charge>>, fs: seq<Finding>, key: string, n: Finding, now: int)
    requires DistinctTimes(env, fs) && IsNewest(env, Get(rows, key), fs, key, n)
    ensures var after := Get(ChargedAll(env, rows, fs, now), key);
            after.Some? && after.value.base == BaseOf(env, n)
  {
    StoredCharge(env, rows, fs, now, key);
    var after := Get(ChargedAll(env, rows, fs, now), key);
    assert UpToDate(ChargedAll(env, rows, fs, now), key, n);
    var f :| f in fs && Charges(f) && DedupKey(env, f) == key && BaseOf(env, f) == after.value.base;
    assert Moves(env, Get(rows, key), f, key);
    assert SameCharge(env, f, n);
  }

  lemma SameUnlessMoved(env: Env, rows: seq<Keyed<Charge>>, fs: seq<Finding>, key: string, now: int)
    ensures || Get(ChargedAll(env, rows, fs, now), key) == Get(rows, key)
            || exists f :: f in fs && Moves(env, Get(rows, key), f, key)
  {
    StoredCharge(env, rows, fs, now, key);
    var after := Get(ChargedAll(env, rows, fs, now), key);
    if after != Get(rows, key) {
      var f :| f in fs && Charges(f) && DedupKey(env, f) == key && BaseOf(env, f) == after.value.base;
      assert Moves(env, Get(rows, key), f, key);
    }
  }

  /** With one possible change, two orders leave the same charge. */
  lemma OneChangeFixesTheCharge(
      env: Env, rows: seq<Keyed<Charge>>, fs: seq<Finding>, gs: seq<Finding>, key: string, now: int)
    requires DistinctTimes(env, fs) && OneChange(env, Get(rows, key), fs, key, now) && multiset(gs) == multiset(fs)
    ensures Get(ChargedAll(env, rows, gs, now), key) == Get(ChargedAll(env, rows, fs, now), key)
  {
    var c := Get(rows, key);
    SameMembers(fs, gs);
    if f :| f in fs && Moves(env, c, f, key) {
      var n := NewestExists(env, c, fs, key, f);
      EndsWithNewest(env, rows, fs, key, n, now);
      EndsWithNewest(env, rows, gs, key, n, now);
      EndsOnTheWay(env, c, fs, fs, key, n, now);
      EndsOnTheWay(env, c, fs, gs, key, n, now);
      ChargeIsItsOwn(env, rows, fs, key, now);
      ChargeIsItsOwn(env, rows, gs, key, now);
    } else {
      SameUnlessMoved(env, rows, fs, key, now);
      SameUnlessMoved(env, rows, gs, key, now);
    }
  }

  lemma SameMembers<T>(fs: seq<T>, gs: seq<T>)
    requires multiset(gs) == multiset(fs)
    ensures forall f :: f in fs <==> f in gs
  {
    forall f
      ensures f in fs <==> f in gs
    {
      assert f in fs <==> f in multiset(fs);
      assert f in gs <==> f in multiset(gs);
    }
  }

  function WithoutFirst<T(==)>(fs: seq<T>, x: T): seq<T> {
    if fs == [] then [] else if fs[0] == x then fs[1..] else [fs[0]] + WithoutFirst(fs[1..], x)
  }

  lemma {:induction false} MovedToFront<T>(fs: seq<T>, x: T)
    requires x in fs
    ensures multiset([x] + WithoutFirst(fs, x)) == multiset(fs)
  {
    assert fs == [fs[0]] + fs[1..];
    if fs[0] != x {
      MovedToFront(fs[1..], x);
      assert multiset(fs[1..]) == multiset([x]) + multiset(WithoutFirst(fs[1..], x));
    }
  }

  lemma {:induction false} NewestStays(
      env: Env, c: Option<Charge>, front: seq<Finding>, fs: seq<Finding>, key: string, now: int)
    requires var d := ChargeAfter(env, c, front, key, now);
             forall f :: f in fs && IsFor(env, f, key) ==>
               d.Some? && Time(f.occurredAt) <= Time(d.value.base.observedAt)
    ensures ChargeAfter(env, c, front + fs, key, now) == ChargeAfter(env, c, front, key, now)
  {
    if fs == [] {
      assert front + fs == front;
    } else {
      SplitLast(fs);
      assert (front + fs)[..|front + fs| - 1] == front + fs[..|fs| - 1];
      NewestStays(env, c, front, fs[..|fs| - 1], key, now);
    }
  }

  lemma FirstTwo(env: Env, c: Option<Charge>, f: Finding, n: Finding, key: string, now: int)
    requires IsFor(env, f, key) && IsFor(env, n, key)
    ensures ChargeAfter(env, c, [f], key, now) == NextCharge(env, c, f, now)
    ensures ChargeAfter(env, c, [f, n], key, now) == NextCharge(env, NextCharge(env, c, f, now), n, now)
  {
    hide NextCharge, Charges, DedupKey;
    assert [f][..0] == [];
    assert ChargeAfter(env, c, [], key, now) == c;
    assert ChargeAfter(env, c, [f], key, now) == NextCharge(env, c, f, now);
    assert [f, n][..1] == [f];
  }

  /** The newest finding first, and the newest right behind another one: the two records of the price. */
  lemma TwoOrders(env: Env, c: Option<Charge>, fs: seq<Finding>, key: string, now: int, f: Finding, n: Finding)
    requires DistinctTimes(env, fs) && f in fs && Moves(env, c, f, key) && IsNewest(env, c, fs, key, n)
    requires f.amount != n.amount
    ensures var a := ChargeAfter(env, c, [n] + WithoutFirst(fs, n), key, now);
            a.Some? && a.value.priceChanged == FirstChange(env, c, n, now)
    ensures var b := ChargeAfter(env, c, [f, n] + WithoutFirst(WithoutFirst(fs, n), f), key, now);
            b.Some? && b.value.priceChanged == Some(Change(f.amount.value, n.amount.value, now))
  {
    assert !SameCharge(env, f, n);
    FirstTwo(env, c, n, n, key, now);
    FirstTwo(env, c, f, n, key, now);
    hide ChargeAfter;
    WithoutIsPart(fs, n);
    WithoutIsPart(WithoutFirst(fs, n), f);
    NewestStays(env, c, [n], WithoutFirst(fs, n), key, now);
    NewestStays(env, c, [f, n], WithoutFirst(WithoutFirst(fs, n), f), key, now);
  }

  lemma {:induction false} WithoutIsPart<T>(fs: seq<T>, x: T)
    ensures forall y :: y in WithoutFirst(fs, x) ==> y in fs
  {
    if fs != [] {
      WithoutIsPart(fs[1..], x);
    }
  }

  lemma BothInFront(fs: seq<Finding>, f: Finding, n: Finding)
    requires f in fs && n in fs && f != n
    ensures multiset([n] + WithoutFirst(fs, n)) == multiset(fs)
    ensures multiset([f, n] + WithoutFirst(WithoutFirst(fs, n), f)) == multiset(fs)
  {
    MovedToFront(fs, n);
    var moved := [n] + WithoutFirst(fs, n);
    SameMembers(fs, moved);
    MovedToFront(moved, f);
    assert moved[1..] == WithoutFirst(fs, n);
    assert [f] + ([n] + WithoutFirst(WithoutFirst(fs, n), f)) == [f, n] + WithoutFirst(WithoutFirst(fs, n), f);
  }

  ghost predicate OrderFree(env: Env, rows: seq<Keyed<Charge>>, fs: seq<Finding>, key: string, now: int) {
    forall gs :: multiset(gs) == multiset(fs) ==>
      Get(ChargedAll(env, rows, gs, now), key) == Get(ChargedAll(env, rows, fs, now), key)
  }

  lemma TwoShownOrders(
      env: Env, c: Option<Charge>, fs: seq<Finding>, key: string, now: int, f: Finding, n: Finding)
    returns (one: seq<Finding>, two: seq<Finding>)
    requires DistinctTimes(env, fs) && f in fs && Moves(env, c, f, key) && f.amount != n.amount
    requires IsNewest(env, c, fs, key, n)
    requires FirstChange(env, c, n, now) != Some(Change(f.amount.value, n.amount.value, now))
    ensures multiset(one) == multiset(fs) && multiset(two) == multiset(fs)
    ensures ChargeAfter(env, c, one, key, now) != ChargeAfter(env, c, two, key, now)
  {
    one, two := [n] + WithoutFirst(fs, n), [f, n] + WithoutFirst(WithoutFirst(fs, n), f);
    assert ChargeAfter(env, c, one, key, now) != ChargeAfter(env, c, two, key, now) by {
      hide FirstChange, ChargeAfter;
      TwoOrders(env, c, fs, key, now, f, n);
    }
    BothInFront(fs, f, n);
  }

  lemma OrderShows(env: Env, rows: seq<Keyed<Charge>>, fs: seq<Finding>, key: string, now: int, f: Finding, n: Finding)
    requires DistinctTimes(env, fs) && f in fs && Moves(env, Get(rows, key), f, key) && f.amount != n.amount
    requires IsNewest(env, Get(rows, key), fs, key, n)
    requires FirstChange(env, Get(rows, key), n, now) != Some(Change(f.amount.value, n.amount.value, now))
    ensures !OrderFree(env, rows, fs, key, now)
  {
    hide FirstChange, ChargeAfter, ChargedAll, Moves, IsNewest, DistinctTimes, Get;
    var one, two := TwoShownOrders(env, Get(rows, key), fs, key, now, f, n);
    ChargeIsItsOwn(env, rows, one, key, now);
    ChargeIsItsOwn(env, rows, two, key, now);
    assert Get(ChargedAll(env, rows, one, now), key) != Get(ChargedAll(env, rows, two, now), key);
  }

  /** The stored charge as a whole is the same in every order of the findings exactly when one change is possible. */
  lemma OrderDoesNotMatterIff(env: Env, rows: seq<Keyed<Charge>>, fs: seq<Finding>, key: string, now: int)
    requires DistinctTimes(env, fs)
    ensures OrderFree(env, rows, fs, key, now) <==> OneChange(env, Get(rows, key), fs, key, now)
  {
    var c := Get(rows, key);
    if OneChange(env, c, fs, key, now) {
      forall gs | multiset(gs) == multiset(fs)
        ensures Get(ChargedAll(env, rows, gs, now), key) == Get(ChargedAll(env, rows, fs, now), key)
      {
        OneChangeFixesTheCharge(env, rows, fs, gs, key, now);
      }
    } else {
      var f, n :| f in fs && Moves(env, c, f, key) && IsNewest(env, c, fs, key, n) && f.amount != n.amount
               && FirstChange(env, c, n, now) != Some(Change(f.amount.value, n.amount.value, now));
      OrderShows(env, rows, fs, key, now, f, n);
    }
  }

  function MonthlyCharge(amount: int, at: int): Finding {
    Finding(RecurringCharge, "m", Some(amount), None, Some("monthly"), None, "r", None, "", 1, Some(at), false)
  }

  /** Two charges at two times: in order of time the price change is recorded, the other way round it is not. */
  lemma OrderCanChangeThePrice(env: Env, now: int)
    ensures var a, b := MonthlyCharge(1, 1), MonthlyCharge(2, 2);
            var key := DedupKey(env, a);
            var forth, back := Get(ChargedAll(env, [], [a, b], now), key), Get(ChargedAll(env, [], [b, a], now), key);
            && DistinctTimes(env, [a, b]) && forth.Some? && back.Some?
            && forth.value.priceChanged == Some(Change(1, 2, now)) && back.value.priceChanged == None
  {
    var a, b := MonthlyCharge(1, 1), MonthlyCharge(2, 2);
    var key := DedupKey(env, a);
    ChargeIsItsOwn(env, [], [a, b], key, now);
    ChargeIsItsOwn(env, [], [b, a], key, now);
    FirstTwo(env, None, a, b, key, now);
    FirstTwo(env, None, b, a, key, now);
    hide ChargeAfter, ChargedAll, DedupKey;
  }

  lemma {:induction false} SuggestionsStay(rows: seq<Keyed<Suggestion>>, fs: seq<Finding>, now: int, ref: string)
    ensures var after := Get(SuggestedAll(rows, fs, now), ref);
            && (Get(rows, ref).Some? ==> after == Get(rows, ref))
            && (after.Some? <==> Get(rows, ref).Some? || exists f :: f in fs && f.clothing && f.messageRef == ref)
  {
    if fs != [] {
      var init, f := fs[..|fs| - 1], fs[|fs| - 1];
      assert fs == init + [f];
      SuggestionsStay(rows, init, now, ref);
      GetAfterPut(SuggestedAll(rows, init, now), f.messageRef,
        Suggestion(f.merchant, f.snippet, f.amount, f.currency, "pending", now), ref);
    }
  }

  lemma {:induction false} SuggestionsTwice(rows: seq<Keyed<Suggestion>>, fs: seq<Finding>, now: int)
    requires forall f :: f in fs && f.clothing ==> Get(rows, f.messageRef).Some?
    ensures SuggestedAll(rows, fs, now) == rows
  {
    if fs != [] {
      assert fs == fs[..|fs| - 1] + [fs[|fs| - 1]];
      SuggestionsTwice(rows, fs[..|fs| - 1], now);
    }
  }

  /** Recording the same findings again changes the stored findings exactly when a stale row slid into reach. */
  lemma RescanOfFindings(rows: seq<Keyed<Fields>>, fs: seq<Finding>, since: int, since': int)
    requires UniqueKeys(rows) && since <= since'
    ensures var once := UpsertAll(Pruned(rows, since, Refs(fs)), fs);
            UpsertAll(Pruned(once, since', Refs(fs)), fs) == once <==>
                NoneStale(SlidIn(rows, since, Refs(fs)), since', Refs(fs))
  {
    var pruned := Pruned(rows, since, Refs(fs));
    var once := UpsertAll(pruned, fs);
    PrunedIsUnique(rows, since, Refs(fs));
    UpsertAllIsUnique(pruned, fs);
    WhatIsReadNext(rows, since, since', Refs(fs));
    StaleAfterUpsert(pruned, fs, since');
    if NoneStale(Read(once), since', Refs(fs)) {
      NothingToPrune(Read(once), since', Refs(fs));
      assert Pruned(once, since', Refs(fs)) == once;
      UpsertTwice(pruned, fs);
    } else {
      StaleRowsGo(once, fs, since');
    }
  }

  /**
   Recording the same scan again, then or later, changes nothing, except that a stale row past the
   first thousand may since have come within reach; with at most a thousand rows there is none.
   */
  lemma RescanChangesNothing(env: Env, s: Store, fs: seq<Finding>, now: int, now': int)
    requires Unique(s) && now <= now'
    ensures Scan(env, Scan(env, s, fs, now), fs, now') == Scan(env, s, fs, now) <==>
            NoneStale(SlidIn(s.emails, now - WINDOW, Refs(fs)), now' - WINDOW, Refs(fs))
    ensures |s.emails| <= READ_CAP ==> Scan(env, Scan(env, s, fs, now), fs, now') == Scan(env, s, fs, now)
  {
    RescanOfFindings(s.emails, fs, now - WINDOW, now' - WINDOW);
    ChargesAreUpToDate(env, s.money, fs, now);
    ChargesTwice(env, ChargedAll(env, s.money, fs, now), fs, now');
    forall f | f in fs && f.clothing
      ensures Get(SuggestedAll(s.suggestions, fs, now), f.messageRef).Some?
    {
      SuggestionsStay(s.suggestions, fs, now, f.messageRef);
    }
    SuggestionsTwice(SuggestedAll(s.suggestions, fs, now), fs, now');
  }

  /** 1,001 rows under different keys; only the oldest and the newest are new enough to go stale. */
  function ThousandAndOne(): seq<Keyed<Fields>> {
    seq(READ_CAP + 1, i requires 0 <= i <= READ_CAP =>
      Keyed(seq(i, _ => 'x'), NO_FIELDS.(occurredAt := Some(if i == 0 || i == READ_CAP then 1 else 0))))
  }

  lemma {:induction false} StaleRowShrinks(rows: seq<Keyed<Fields>>, since: int, kept: set<string>, i: nat)
    requires i < |rows| && Stale(rows[i], since, kept)
    ensures |WithoutStale(rows, since, kept)| < |rows|
  {
    if i < |rows| - 1 {
      StaleRowShrinks(rows[..|rows| - 1], since, kept, i);
    }
  }

  /** One stale row makes room for one row: the next, when it is stale too, goes only the second time. */
  lemma LastSlidesIn(rows: seq<Keyed<Fields>>, since: int, kept: set<string>)
    requires |rows| == READ_CAP + 1 && Stale(rows[0], since, kept) && Stale(rows[READ_CAP], since, kept)
    ensures !NoneStale(SlidIn(rows, since, kept), since, kept)
  {
    StaleRowShrinks(rows[..READ_CAP], since, kept, 0);
    var slid := SlidIn(rows, since, kept);
    assert slid[0] == rows[READ_CAP];
    assert slid[0] in slid;
  }

  /** With 1,001 rows an empty scan can change the findings when it is repeated at the same time. */
  lemma RescanCanChange(env: Env)
    ensures var s, now := Store(ThousandAndOne(), [], []), WINDOW + 1;
            && Unique(s) && |s.emails| == READ_CAP + 1
            && Scan(env, Scan(env, s, [], now), [], now) != Scan(env, s, [], now)
  {
    var rows := ThousandAndOne();
    forall i, j | 0 <= i < j < |rows|
      ensures rows[i].key != rows[j].key
    {
      assert |rows[i].key| == i && |rows[j].key| == j;
    }
    assert Refs([]) == {};
    LastSlidesIn(rows, 1, Refs([]));
    RescanChangesNothing(env, Store(rows, [], []), [], WINDOW + 1, WINDOW + 1);
  }

  // ----- The mutation -----

  lemma OneRow(rows: seq<Keyed<Fields>>, i: nat, since: int, kept: set<string>)
    requires i < |rows|
    ensures WithoutStale(rows[..i + 1], since, kept) ==
            WithoutStale(rows[..i], since, kept) + if Stale(rows[i], since, kept) then [] else [rows[i]]
  {
    assert rows[..i + 1][..i] == rows[..i];
  }

  lemma Splice<T>(front: seq<T>, all: seq<T>, i: nat)
    requires i < |all|
    ensures (front + all[i..])[..|front|] + (front + all[i..])[|front| + 1..] == front + all[i + 1..]
    ensures front + all[i..] == front + [all[i]] + all[i + 1..]
  {
  }

  class ScanStore {
    const env: Env
    var emails: seq<Keyed<Fields>>
    var money: seq<Keyed<Charge>>
    var suggestions: seq<Keyed<Suggestion>>

    constructor (env: Env)
      ensures this.env == env && View() == Store([], [], [])
    {
      this.env := env;
      emails, money, suggestions := [], [], [];
    }

    ghost function View(): Store
      reads this
    {
      Store(emails, money, suggestions)
    }

    /** Delete the stored findings of the window that the scan no longer reports. */
    method DeleteStale(since: int, kept: set<string>)
      modifies `emails
      ensures emails == Pruned(old(emails), since, kept)
    {
      hide WithoutStale, Stale;
      ghost var all, front := emails, [];
      var rows := emails[..Min(READ_CAP, |emails|)];
      var at := 0;
      NothingToPrune([], since, kept);
      assert rows[..0] == [];
      for i := 0 to |rows|
        invariant at == |front| && front == WithoutStale(rows[..i], since, kept)
        invariant emails == front + all[i..]
      {
        OneRow(rows, i, since, kept);
        Splice(front, all, i);
        if Stale(rows[i], since, kept) {
          emails := emails[..at] + emails[at + 1..];
        } else {
          at := at + 1;
          front := front + [rows[i]];
        }
      }
      assert rows[..|rows|] == rows;
    }

    method RecordFinding(f: Finding) returns (isNew: bool)
      modifies `emails
      ensures emails == Upsert(old(emails), f)
      ensures isNew <==> Get(old(emails), f.messageRef).None?
    {
      var existing := Get(emails, f.messageRef);
      isNew := existing.None?;
      if existing.Some? {
        emails := Put(emails, f.messageRef, Patched(existing.value, FieldsOf(f)));
      } else {
        emails := Put(emails, f.messageRef, FieldsOf(f));
      }
    }

    method RecordCharge(f: Finding, now: int)
      modifies `money
      ensures money == Charged(env, old(money), f, now)
    {
      if !Charges(f) {
        return;
      }
      var key, base := DedupKey(env, f), BaseOf(env, f);
      var stored := Get(money, key);
      if stored.None? {
        money := Put(money, key, Charge(base, None, "active", now));
      } else if Time(f.occurredAt) > Time(stored.value.base.observedAt) {
        var priceChanged := stored.value.priceChanged;
        if stored.value.base.amount != f.amount.value {
          priceChanged := Some(Change(stored.value.base.amount, f.amount.value, now));
        }
        money := Put(money, key, stored.value.(base := base, priceChanged := priceChanged));
      }
    }

    method RecordSuggestion(f: Finding, now: int) returns (isNew: bool)
      modifies `suggestions
      ensures suggestions == Suggested(old(suggestions), f, now)
      ensures isNew <==> f.clothing && Get(old(suggestions), f.messageRef).None?
    {
      isNew := false;
      if f.clothing {
        var seen := Get(suggestions, f.messageRef);
        if seen.None? {
          suggestions := Put(suggestions, f.messageRef,
              Suggestion(f.merchant, f.snippet, f.amount, f.currency, "pending", now));
          isNew := true;
        }
      }
    }

    /** The counts are those of the rows really inserted. */
    method RecordScan(fs: seq<Finding>, now: int) returns (added: nat, suggested: nat)
      modifies this
      ensures View() == Scan(env, old(View()), fs, now)
      ensures |emails| == |Pruned(old(emails), now - WINDOW, Refs(fs))| + added
      ensures |suggestions| == |old(suggestions)| + suggested
    {
      added, suggested := 0, 0;
      DeleteStale(now - WINDOW, Refs(fs));
      ghost var pruned := emails;
      for i := 0 to |fs|
        invariant emails == UpsertAll(pruned, fs[..i]) && |emails| == |pruned| + added
        invariant money == ChargedAll(env, old(money), fs[..i], now)
        invariant suggestions == SuggestedAll(old(suggestions), fs[..i], now)
        invariant |suggestions| == |old(suggestions)| + suggested
      {
        assert fs[..i + 1][..i] == fs[..i] && fs[..i + 1][i] == fs[i];
        ghost var before := View();
        var isNew := RecordFinding(fs[i]);
        added := added + if isNew then 1 else 0;
        RecordCharge(fs[i], now);
        var isNewSuggestion := RecordSuggestion(fs[i], now);
        suggested := suggested + if isNewSuggestion then 1 else 0;
        RowCounts(before, fs[i], now);
      }
      assert fs[..|fs|] == fs;
    }

    lemma RowCounts(s: Store, f: Finding, now: int)
      ensures |Upsert(s.emails, f)| == |s.emails| + (if Get(s.emails, f.messageRef).None? then 1 else 0)
      ensures |Suggested(s.suggestions, f, now)| ==
              |s.suggestions| + (if f.clothing && Get(s.suggestions, f.messageRef).None? then 1 else 0)
    {
      KeysAfterPut(s.emails, f.messageRef, Patched(FieldsOrNone(Get(s.emails, f.messageRef)), FieldsOf(f)));
      PatchLaws(NO_FIELDS, FieldsOf(f), NO_FIELDS);
      KeysAfterPut(s.suggestions, f.messageRef,
          Suggestion(f.merchant, f.snippet, f.amount, f.currency, "pending", now));
    }
  }
}
