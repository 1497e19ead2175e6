/** The subscriptions document (`subscriptions.json`): licence records that
    are created active and unclaimed, claimed once by the first user who
    validates them, expired lazily when checked after their end, and
    extended by an admin. Timestamps are integer seconds. */
module Subscriptions {
  import opened Common

  const SecondsPerDay: int := 86400

  /** One record. `claimedBy` is `discord_user_id`; `days` is only present
      once an admin has changed the package. */
  datatype Subscription = Subscription(
    owner: string,
    packageType: string,
    start: int,
    end: int,
    active: bool,
    claimedBy: Option<string>,
    days: Option<int>)

  type Subs = map<string, Subscription>

  /** An entry of the fixed package table. */
  datatype Package = Package(days: int, price: int, name: string)

  /** `PACKAGES`. */
  const Packages: map<string, Package> := map[
    "1minggu" := Package(7, 2500, "1 Minggu"),
    "1bulan" := Package(30, 10000, "1 Bulan"),
    "3bulan" := Package(90, 25000, "3 Bulan")]

  /** Python truthiness of `discord_user_id`: `None` and `""` are unclaimed. */
  predicate Claimed(s: Subscription) {
    s.claimedBy.Some? && s.claimedBy.value != ""
  }

  /** `create_subscription`, with the generated id and the current time
      passed in: the record under `id` is active, unclaimed and ends
      `days` days after `now`; nothing else changes. A fresh id adds exactly
      one key (an id already in use is overwritten, as the dict assignment
      does). */
  function Create(subs: Subs, id: string, owner: string, packageType: string, days: int, now: int): (r: Subs)
    ensures id in r && r[id].active && r[id].claimedBy == None
    ensures r[id].owner == owner && r[id].packageType == packageType && r[id].days == None
    ensures r[id].start == now && r[id].end == now + days * SecondsPerDay
    ensures SameExcept(subs, r, id)
    ensures id !in subs ==> |r| == |subs| + 1
  {
    subs[id := Subscription(owner, packageType, now, now + days * SecondsPerDay, true, None, None)]
  }

  /** The answer of a check and the document it leaves behind. */
  datatype Check = Check(valid: bool, subs: Subs)

  /** `validate_subscription(id, user)` at time `now`: an unknown id is
      refused; an expired record is switched off (before ownership is
      looked at); a record claimed by somebody else is refused; an unclaimed
      one is claimed by `user`; the answer is the stored `active` flag. */
  function Validate(subs: Subs, id: string, user: string, now: int): (r: Check)
    ensures r.valid <==>
      id in subs && now <= subs[id].end && subs[id].active && (!Claimed(subs[id]) || subs[id].claimedBy == Some(user))
    ensures id !in subs ==> r.subs == subs
    ensures id in subs && now > subs[id].end ==> r.subs == subs[id := subs[id].(active := false)]
    ensures id in subs && now <= subs[id].end && Claimed(subs[id]) ==> r.subs == subs
    ensures id in subs && now <= subs[id].end && !Claimed(subs[id]) ==> r.subs == subs[id := subs[id].(claimedBy := Some(user))]
  {
    if id !in subs then Check(false, subs)
    else
      var s := subs[id];
      if now > s.end then Check(false, subs[id := s.(active := false)])
      else if Claimed(s) && s.claimedBy != Some(user) then Check(false, subs)
      else if !Claimed(s) then Check(s.active, subs[id := s.(claimedBy := Some(user))])
      else Check(s.active, subs)
  }

  /** A check touches only the record it asks about, and only its `active`
      flag or its claim. */
  lemma ValidateFrame(subs: Subs, id: string, user: string, now: int)
    ensures var r := Validate(subs, id, user, now).subs;
      && SameExcept(subs, r, id)
      && (id in subs <==> id in r)
      && (id in subs ==> r[id].(active := subs[id].active, claimedBy := subs[id].claimedBy) == subs[id])
  {
  }

  /** Claim once: a claimed record keeps its claimant whoever checks it. */
  lemma ClaimIsPermanent(subs: Subs, id: string, user: string, now: int)
    requires id in subs && Claimed(subs[id])
    ensures Validate(subs, id, user, now).subs[id].claimedBy == subs[id].claimedBy
  {
  }

  /** A successful check leaves the record claimed by the caller, so that
      nobody else can validate it afterwards. */
  lemma ValidOwnsRecord(subs: Subs, id: string, user: string, other: string, now: int, later: int)
    requires user != "" && other != user
    requires Validate(subs, id, user, now).valid
    ensures Validate(subs, id, user, now).subs[id].claimedBy == Some(user)
    ensures !Validate(Validate(subs, id, user, now).subs, id, other, later).valid
  {
  }

  /** Checking again at the same moment gives the same answer and writes
      nothing more. */
  lemma ValidateIdempotent(subs: Subs, id: string, user: string, now: int)
    ensures var c := Validate(subs, id, user, now);
      Validate(c.subs, id, user, now) == c
  {
  }

  /** `extend_subscription`: an unknown id is refused; otherwise the end
      moves `days` days later and the record is switched back on. Nothing
      else changes. */
  function Extend(subs: Subs, id: string, days: int): (r: (bool, Subs))
    ensures r.0 <==> id in subs
    ensures !r.0 ==> r.1 == subs
    ensures r.0 ==> id in r.1 && r.1[id] == subs[id].(end := subs[id].end + days * SecondsPerDay, active := true)
    ensures SameExcept(subs, r.1, id)
  {
    if id !in subs then (false, subs)
    else (true, subs[id := subs[id].(end := subs[id].end + days * SecondsPerDay, active := true)])
  }

  /** An extension revives an expired record: once extended past `now`, its
      owner (or anyone, if unclaimed) validates it again. */
  lemma ExtendRevives(subs: Subs, id: string, days: int, user: string, now: int)
    requires id in subs && (!Claimed(subs[id]) || subs[id].claimedBy == Some(user))
    requires now <= subs[id].end + days * SecondsPerDay
    ensures Validate(Extend(subs, id, days).1, id, user, now).valid
  {
  }

  /** `get_user_subscription(user)`: the first record, in the document's
      order, whose `discord_user_id` equals `user`, with its id. */
  function FirstClaimedBy(subs: Subs, order: seq<string>, user: string): (r: Option<(string, Subscription)>)
    requires forall i :: 0 <= i < |order| ==> order[i] in subs
    ensures r == None <==> forall i :: 0 <= i < |order| ==> subs[order[i]].claimedBy != Some(user)
    ensures r.Some? ==>
      exists i :: 0 <= i < |order| && order[i] == r.value.0 && forall j :: 0 <= j < i ==> subs[order[j]].claimedBy != Some(user)
    ensures r.Some? ==> r.value.0 in subs && r.value.1 == subs[r.value.0] && r.value.1.claimedBy == Some(user)
  {
    if |order| == 0 then None
    else if subs[order[0]].claimedBy == Some(user) then Some((order[0], subs[order[0]]))
    else
      var rest := FirstClaimedBy(subs, order[1..], user);
      assert forall i :: 1 <= i < |order| ==> order[i] == order[1..][i - 1];
      rest
  }

  /** With `order` listing the whole document, nothing is found exactly when
      no record is claimed by `user`. */
  lemma FirstClaimedByComplete(subs: Subs, order: seq<string>, user: string)
    requires ListsKeys(order, subs)
    ensures FirstClaimedBy(subs, order, user) == None <==> forall id :: id in subs ==> subs[id].claimedBy != Some(user)
  {
    if FirstClaimedBy(subs, order, user) == None {
      forall id | id in subs ensures subs[id].claimedBy != Some(user) {
        var i :| 0 <= i < |order| && order[i] == id;
      }
    }
  }

  /** `get_subscription_info(id)`: the record, if any. */
  function Lookup(subs: Subs, id: string): (r: Option<Subscription>)
    ensures r.Some? <==> id in subs
    ensures r.Some? ==> r.value == subs[id]
  {
    if id in subs then Some(subs[id]) else None
  }
}
