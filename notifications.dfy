/**
 * The push-subscription endpoint: an upsert of the caller's subscription
 * keyed by (user id, endpoint).
 */
module Notifications {
  import opened Wrappers

  datatype PushSubscription = PushSubscription(id: nat, userId: int, endpoint: string, p256dh: string, auth: string, createdAt: int)

  /** `keys.get(name, "")`. */
  function KeyOr(keys: map<string, string>, name: string): string {
    if name in keys then keys[name] else ""
  }

  predicate IsKey(row: PushSubscription, userId: int, endpoint: string) {
    row.userId == userId && row.endpoint == endpoint
  }

  /** The index of the first row with this key: `select(...).where(...).first()`. */
  function FirstMatch(rows: seq<PushSubscription>, userId: int, endpoint: string): (r: Option<nat>)
    ensures r.Some? ==> r.value < |rows| && IsKey(rows[r.value], userId, endpoint)
    ensures r.Some? ==> forall j :: 0 <= j < r.value ==> !IsKey(rows[j], userId, endpoint)
    ensures r.None? ==> forall j :: 0 <= j < |rows| ==> !IsKey(rows[j], userId, endpoint)
  {
    if rows == [] then None
    else if IsKey(rows[0], userId, endpoint) then Some(0)
    else match FirstMatch(rows[1..], userId, endpoint)
      case None => None
      case Some(i) => Some(i + 1)
  }

  /** Number of rows with this key. */
  function CountKey(rows: seq<PushSubscription>, userId: int, endpoint: string): nat {
    if rows == [] then 0
    else (if IsKey(rows[0], userId, endpoint) then 1 else 0) + CountKey(rows[1..], userId, endpoint)
  }

  /**
   * The table after a subscribe request: the first row with the key gets
   * the new `p256dh` and `auth`; without such a row one row is appended.
   */
  function Upserted(rows: seq<PushSubscription>, userId: int, endpoint: string, keys: map<string, string>, now: int)
    : (r: seq<PushSubscription>)
    ensures |rows| <= |r| <= |rows| + 1
    ensures forall j :: 0 <= j < |rows| && !IsKey(rows[j], userId, endpoint) ==> r[j] == rows[j]
    ensures forall j :: |rows| <= j < |r| ==> IsKey(r[j], userId, endpoint)
  {
    match FirstMatch(rows, userId, endpoint)
    case Some(i) => rows[i := rows[i].(p256dh := KeyOr(keys, "p256dh"), auth := KeyOr(keys, "auth"))]
    case None => rows + [PushSubscription(|rows| + 1, userId, endpoint, KeyOr(keys, "p256dh"), KeyOr(keys, "auth"), now)]
  }

  class SubscriptionTable {
    var rows: seq<PushSubscription>

    constructor ()
      ensures rows == []
    {
      rows := [];
    }

    /** `subscribe_to_push`: upserts the caller's subscription and answers "subscribed". */
    method Subscribe(userId: int, endpoint: string, keys: map<string, string>, now: int) returns (status: string)
      modifies this
      ensures status == "subscribed"
      ensures rows == Upserted(old(rows), userId, endpoint, keys, now)
    {
      var existing := FirstMatch(rows, userId, endpoint);
      if existing.Some? {
        var i := existing.value;
        rows := rows[i := rows[i].(p256dh := KeyOr(keys, "p256dh"), auth := KeyOr(keys, "auth"))];
      } else {
        rows := rows + [PushSubscription(|rows| + 1, userId, endpoint, KeyOr(keys, "p256dh"), KeyOr(keys, "auth"), now)];
      }
      status := "subscribed";
    }
  }

  /**
   * An existing subscription keeps its id, user, endpoint and creation time
   * and takes the request's keys; rows with another key are untouched.
   */
  lemma UpsertExisting(rows: seq<PushSubscription>, userId: int, endpoint: string, keys: map<string, string>, now: int, i: nat)
    requires FirstMatch(rows, userId, endpoint) == Some(i)
    ensures var r := Upserted(rows, userId, endpoint, keys, now);
            && |r| == |rows|
            && r[i] == rows[i].(p256dh := KeyOr(keys, "p256dh"), auth := KeyOr(keys, "auth"))
            && forall j :: 0 <= j < |rows| && j != i ==> r[j] == rows[j]
  {
  }

  /** Without one, exactly one row is added, with missing keys stored as "". */
  lemma UpsertNew(rows: seq<PushSubscription>, userId: int, endpoint: string, keys: map<string, string>, now: int)
    requires FirstMatch(rows, userId, endpoint).None?
    ensures Upserted(rows, userId, endpoint, keys, now)
            == rows + [PushSubscription(|rows| + 1, userId, endpoint, KeyOr(keys, "p256dh"), KeyOr(keys, "auth"), now)]
    ensures !("auth" in keys) ==> Upserted(rows, userId, endpoint, keys, now)[|rows|].auth == ""
  {
  }

  lemma {:induction false} CountKeyUpdate(rows: seq<PushSubscription>, i: nat, row: PushSubscription, userId: int, endpoint: string)
    requires i < |rows| && IsKey(rows[i], userId, endpoint) && IsKey(row, userId, endpoint)
    ensures CountKey(rows[i := row], userId, endpoint) == CountKey(rows, userId, endpoint)
  {
    if i > 0 {
      assert rows[i := row][1..] == rows[1..][i - 1 := row];
      CountKeyUpdate(rows[1..], i - 1, row, userId, endpoint);
    }
  }

  lemma {:induction false} CountKeyAppend(rows: seq<PushSubscription>, row: PushSubscription, userId: int, endpoint: string)
    ensures CountKey(rows + [row], userId, endpoint) == CountKey(rows, userId, endpoint) + (if IsKey(row, userId, endpoint) then 1 else 0)
  {
    if rows != [] {
      assert (rows + [row])[1..] == rows[1..] + [row];
      CountKeyAppend(rows[1..], row, userId, endpoint);
    }
  }

  lemma {:induction false} CountKeyZero(rows: seq<PushSubscription>, userId: int, endpoint: string)
    requires forall j :: 0 <= j < |rows| ==> !IsKey(rows[j], userId, endpoint)
    ensures CountKey(rows, userId, endpoint) == 0
  {
    if rows != [] {
      CountKeyZero(rows[1..], userId, endpoint);
    }
  }

  /**
   * After a subscribe request there is at least one row with the key, and
   * the number of such rows grows only from zero to one: a table with at
   * most one subscription per (user, endpoint) keeps exactly one.
   */
  lemma UpsertCount(rows: seq<PushSubscription>, userId: int, endpoint: string, keys: map<string, string>, now: int)
    ensures var before := CountKey(rows, userId, endpoint);
            CountKey(Upserted(rows, userId, endpoint, keys, now), userId, endpoint) == if before == 0 then 1 else before
  {
    match FirstMatch(rows, userId, endpoint)
    case Some(i) =>
      CountKeyUpdate(rows, i, rows[i].(p256dh := KeyOr(keys, "p256dh"), auth := KeyOr(keys, "auth")), userId, endpoint);
      CountKeyPositive(rows, i, userId, endpoint);
    case None =>
      CountKeyZero(rows, userId, endpoint);
      CountKeyAppend(rows, PushSubscription(|rows| + 1, userId, endpoint, KeyOr(keys, "p256dh"), KeyOr(keys, "auth"), now), userId, endpoint);
  }

  lemma {:induction false} CountKeyPositive(rows: seq<PushSubscription>, i: nat, userId: int, endpoint: string)
    requires i < |rows| && IsKey(rows[i], userId, endpoint)
    ensures CountKey(rows, userId, endpoint) >= 1
  {
    if i > 0 {
      CountKeyPositive(rows[1..], i - 1, userId, endpoint);
    }
  }

  /** Repeating the same request changes nothing more. */
  lemma UpsertIdempotent(rows: seq<PushSubscription>, userId: int, endpoint: string, keys: map<string, string>, now: int, later: int)
    ensures var once := Upserted(rows, userId, endpoint, keys, now);
            Upserted(once, userId, endpoint, keys, later) == once
  {
    var once := Upserted(rows, userId, endpoint, keys, now);
    match FirstMatch(rows, userId, endpoint)
    case Some(i) =>
      FirstMatchUpdate(rows, i, once[i], userId, endpoint);
    case None =>
      FirstMatchAppend(rows, once[|rows|], userId, endpoint);
  }

  lemma FirstMatchUpdate(rows: seq<PushSubscription>, i: nat, row: PushSubscription, userId: int, endpoint: string)
    requires FirstMatch(rows, userId, endpoint) == Some(i) && IsKey(row, userId, endpoint)
    ensures FirstMatch(rows[i := row], userId, endpoint) == Some(i)
  {
    FirstMatchAt(rows[i := row], i, userId, endpoint);
  }

  lemma FirstMatchAppend(rows: seq<PushSubscription>, row: PushSubscription, userId: int, endpoint: string)
    requires FirstMatch(rows, userId, endpoint).None? && IsKey(row, userId, endpoint)
    ensures FirstMatch(rows + [row], userId, endpoint) == Some(|rows|)
  {
    FirstMatchAt(rows + [row], |rows|, userId, endpoint);
  }

  /** The first match is the index of a matching row with no matching row before it. */
  lemma {:induction false} FirstMatchAt(rows: seq<PushSubscription>, i: nat, userId: int, endpoint: string)
    requires i < |rows| && IsKey(rows[i], userId, endpoint)
    requires forall j :: 0 <= j < i ==> !IsKey(rows[j], userId, endpoint)
    ensures FirstMatch(rows, userId, endpoint) == Some(i)
  {
    if i > 0 {
      FirstMatchAt(rows[1..], i - 1, userId, endpoint);
    }
  }
}
