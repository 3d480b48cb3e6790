/**
 * Registered users: a name (also the name of the user's task sheet) bound to
 * a Telegram id, both unique.
 */
module UsersRepo {
  import opened Wrappers
  import opened Models
  import opened OutboxStore

  function FindByTelegramId(us: seq<User>, tid: int): (r: Option<nat>)
    ensures r.Some? ==> r.value < |us| && us[r.value].telegramId == tid
    ensures r.None? ==> forall k :: 0 <= k < |us| ==> us[k].telegramId != tid
  {
    if us == [] then None
    else if us[|us| - 1].telegramId == tid then Some(|us| - 1)
    else FindByTelegramId(us[..|us| - 1], tid)
  }

  function FindByName(us: seq<User>, name: string): (r: Option<nat>)
    ensures r.Some? ==> r.value < |us| && us[r.value].name == name
    ensures r.None? ==> forall k :: 0 <= k < |us| ==> us[k].name != name
  {
    if us == [] then None
    else if us[|us| - 1].name == name then Some(|us| - 1)
    else FindByName(us[..|us| - 1], name)
  }

  /** `users_get_map`: the dict comprehension name -> telegram_id over the table. */
  function GetMap(us: seq<User>): (m: map<string, int>)
    ensures |m| <= |us|
  {
    if us == [] then map[] else GetMap(us[..|us| - 1])[us[|us| - 1].name := us[|us| - 1].telegramId]
  }

  /**
   * The table after `users_upsert(name, tid)`: the holder of `tid` is renamed,
   * else the holder of `name` gets `tid`, else a new user is inserted. None
   * when the rename would give the name to a second user (the UNIQUE
   * constraint on name rejects the commit).
   */
  function Upserted(us: seq<User>, name: string, tid: int, nextId: int): (r: Option<seq<User>>)
    ensures r.Some? ==> |us| <= |r.value| <= |us| + 1
    ensures r.Some? ==> forall k :: 0 <= k < |us| ==> r.value[k].id == us[k].id
  {
    var byTid := FindByTelegramId(us, tid);
    var byName := FindByName(us, name);
    if byTid.Some? then
      if byName.Some? && byName.value != byTid.value then None
      else Some(us[byTid.value := us[byTid.value].(name := name)])
    else if byName.Some? then Some(us[byName.value := us[byName.value].(telegramId := tid)])
    else Some(us + [User(nextId, tid, name)])
  }

  class UsersRepo {
    var users: seq<User>
    var nextId: int
    const outbox: Outbox

    ghost predicate Valid()
      reads this, outbox
    {
      && nextId >= 1 && UserKeys(users, nextId)
      && UniqueTelegramIds(users) && UniqueNames(users)
      && outbox.Valid()
    }

    constructor(outbox: Outbox)
      requires outbox.Valid()
      ensures Valid() && users == [] && this.outbox == outbox
    {
      users := [];
      nextId := 1;
      this.outbox := outbox;
    }

    /** `users_get_map` */
    method GetUsersMap() returns (m: map<string, int>)
      ensures m == GetMap(users)
    {
      m := map[];
      for i := 0 to |users|
        invariant m == GetMap(users[..i])
      {
        assert users[..i + 1][..i] == users[..i];
        m := m[users[i].name := users[i].telegramId];
      }
      assert users[..|users|] == users;
    }

    /** `users_upsert`: the table change, then one USER_UPSERT event; a failed commit emits nothing. */
    method Upsert(name: string, tid: int) returns (r: Outcome)
      requires Valid()
      modifies this, outbox
      ensures Valid()
      ensures match Upserted(old(users), name, tid, old(nextId))
        case None => r.Fail? && unchanged(this) && unchanged(outbox)
        case Some(us) =>
          && r == Pass && users == us
          && outbox.rows == old(outbox.rows) + [OutboxRow(old(outbox.nextId), UserUpsert(name, tid), None, None)]
    {
      var byTid := FindByTelegramId(users, tid);
      var byName := FindByName(users, name);
      if byTid.Some? {
        if byName.Some? && byName.value != byTid.value {
          return Fail("IntegrityError: duplicate key value violates unique constraint on users.name");
        }
        UpsertKeepsInvariants(users, nextId, name, tid);
        users := users[byTid.value := users[byTid.value].(name := name)];
      } else if byName.Some? {
        UpsertKeepsInvariants(users, nextId, name, tid);
        users := users[byName.value := users[byName.value].(telegramId := tid)];
      } else {
        UpsertKeepsInvariants(users, nextId, name, tid);
        users := users + [User(nextId, tid, name)];
        nextId := nextId + 1;
      }
      outbox.Add(UserUpsert(name, tid));
      r := Pass;
    }

    /** `users_delete_by_telegram_id`: the deleted user's name, or None with no event. */
    method DeleteByTelegramId(tid: int) returns (name: Option<string>)
      requires Valid()
      modifies this, outbox
      ensures Valid() && nextId == old(nextId)
      ensures match FindByTelegramId(old(users), tid)
        case None => name.None? && users == old(users) && outbox.rows == old(outbox.rows)
        case Some(k) =>
          && name == Some(old(users)[k].name)
          && users == old(users)[..k] + old(users)[k + 1..]
          && outbox.rows == old(outbox.rows) + [OutboxRow(old(outbox.nextId), UserDelete(old(users)[k].name, tid), None, None)]
    {
      var k := FindByTelegramId(users, tid);
      if k.None? {
        return None;
      }
      var n := users[k.value].name;
      RemoveKeepsInvariants(users, nextId, k.value);
      users := users[..k.value] + users[k.value + 1..];
      outbox.Add(UserDelete(n, tid));
      name := Some(n);
    }

    /** `users_delete_by_name`: the deleted user's telegram id, or None with no event. */
    method DeleteByName(name: string) returns (tid: Option<int>)
      requires Valid()
      modifies this, outbox
      ensures Valid() && nextId == old(nextId)
      ensures match FindByName(old(users), name)
        case None => tid.None? && users == old(users) && outbox.rows == old(outbox.rows)
        case Some(k) =>
          && tid == Some(old(users)[k].telegramId)
          && users == old(users)[..k] + old(users)[k + 1..]
          && outbox.rows == old(outbox.rows) + [OutboxRow(old(outbox.nextId), UserDelete(name, old(users)[k].telegramId), None, None)]
    {
      var k := FindByName(users, name);
      if k.None? {
        return None;
      }
      var t := users[k.value].telegramId;
      RemoveKeepsInvariants(users, nextId, k.value);
      users := users[..k.value] + users[k.value + 1..];
      outbox.Add(UserDelete(name, t));
      tid := Some(t);
    }
  }

  // ----- properties -----

  lemma UpsertKeepsInvariants(us: seq<User>, next: int, name: string, tid: int)
    requires UserKeys(us, next) && next >= 1 && UniqueTelegramIds(us) && UniqueNames(us)
    requires Upserted(us, name, tid, next).Some?
    ensures var us' := Upserted(us, name, tid, next).value;
      && UserKeys(us', if |us'| > |us| then next + 1 else next)
      && UniqueTelegramIds(us') && UniqueNames(us')
  {
    var byTid := FindByTelegramId(us, tid);
    var byName := FindByName(us, name);
    if byTid.Some? {
      RenameKeeps(us, next, byTid.value, name);
    } else if byName.Some? {
      RebindKeeps(us, next, byName.value, tid);
    } else {
      InsertKeeps(us, next, name, tid);
    }
  }

  /** Renaming a user to a name nobody else holds keeps the keys unique. */
  lemma RenameKeeps(us: seq<User>, next: int, k: nat, name: string)
    requires UserKeys(us, next) && UniqueTelegramIds(us) && UniqueNames(us)
    requires k < |us| && forall j :: 0 <= j < |us| && j != k ==> us[j].name != name
    ensures var us' := us[k := us[k].(name := name)];
      UserKeys(us', next) && UniqueTelegramIds(us') && UniqueNames(us')
  {
  }

  /** Binding a user to a telegram id nobody holds keeps the keys unique. */
  lemma RebindKeeps(us: seq<User>, next: int, k: nat, tid: int)
    requires UserKeys(us, next) && UniqueTelegramIds(us) && UniqueNames(us)
    requires k < |us| && forall j :: 0 <= j < |us| ==> us[j].telegramId != tid
    ensures var us' := us[k := us[k].(telegramId := tid)];
      UserKeys(us', next) && UniqueTelegramIds(us') && UniqueNames(us')
  {
  }

  /** A new user with the next id, a fresh name and a fresh telegram id keeps the keys unique. */
  lemma InsertKeeps(us: seq<User>, next: int, name: string, tid: int)
    requires UserKeys(us, next) && next >= 1 && UniqueTelegramIds(us) && UniqueNames(us)
    requires forall j :: 0 <= j < |us| ==> us[j].name != name && us[j].telegramId != tid
    ensures var us' := us + [User(next, tid, name)];
      UserKeys(us', next + 1) && UniqueTelegramIds(us') && UniqueNames(us')
  {
  }

  lemma RemoveKeepsInvariants(us: seq<User>, next: int, k: nat)
    requires UserKeys(us, next) && UniqueTelegramIds(us) && UniqueNames(us) && k < |us|
    ensures var r := us[..k] + us[k + 1..];
      UserKeys(r, next) && UniqueTelegramIds(r) && UniqueNames(r)
  {
    var r := us[..k] + us[k + 1..];
    forall i | 0 <= i < |r|
      ensures r[i] == us[if i < k then i else i + 1]
    {
    }
  }

  /**
   * With unique names, `users_get_map` has exactly the users' names as keys
   * and maps each to that user's telegram id.
   */
  lemma {:induction false} GetMapSpec(us: seq<User>)
    requires UniqueNames(us)
    ensures forall n :: n in GetMap(us) <==> exists k :: 0 <= k < |us| && us[k].name == n
    ensures forall k :: 0 <= k < |us| ==> us[k].name in GetMap(us) && GetMap(us)[us[k].name] == us[k].telegramId
  {
    if us != [] {
      var init := us[..|us| - 1];
      GetMapSpec(init);
      forall n | n in GetMap(us)
        ensures exists k :: 0 <= k < |us| && us[k].name == n
      {
        if n != us[|us| - 1].name {
          var k :| 0 <= k < |init| && init[k].name == n;
          assert us[k].name == n;
        }
      }
      forall k | 0 <= k < |us|
        ensures us[k].name in GetMap(us) && GetMap(us)[us[k].name] == us[k].telegramId
      {
        if k < |us| - 1 {
          assert init[k] == us[k];
        }
      }
    }
  }

  /** Lookups through the map agree with the table. */
  lemma GetMapLookup(us: seq<User>, name: string)
    requires UniqueNames(us)
    ensures name in GetMap(us) <==> FindByName(us, name).Some?
    ensures name in GetMap(us) ==> GetMap(us)[name] == us[FindByName(us, name).value].telegramId
  {
    GetMapSpec(us);
  }

  /**
   * A rename onto a name another user holds is exactly the case the commit
   * rejects; every other upsert leaves both columns unique.
   */
  lemma UpsertFailsIff(us: seq<User>, name: string, tid: int, next: int)
    requires UniqueTelegramIds(us) && UniqueNames(us)
    ensures Upserted(us, name, tid, next).None? <==>
      exists i, j :: 0 <= i < |us| && 0 <= j < |us| && i != j && us[i].telegramId == tid && us[j].name == name
  {
    if exists i, j :: 0 <= i < |us| && 0 <= j < |us| && i != j && us[i].telegramId == tid && us[j].name == name {
      var i, j :| 0 <= i < |us| && 0 <= j < |us| && i != j && us[i].telegramId == tid && us[j].name == name;
      assert FindByTelegramId(us, tid).value == i;
      assert FindByName(us, name).value == j;
    }
  }

  /** After a successful upsert, `users_get_map` maps the name to the id. */
  lemma UpsertThenMap(us: seq<User>, name: string, tid: int, next: int)
    requires UserKeys(us, next) && next >= 1 && UniqueTelegramIds(us) && UniqueNames(us)
    requires Upserted(us, name, tid, next).Some?
    ensures var us' := Upserted(us, name, tid, next).value;
      name in GetMap(us') && GetMap(us')[name] == tid
  {
    var us' := Upserted(us, name, tid, next).value;
    UpsertKeepsInvariants(us, next, name, tid);
    GetMapSpec(us');
    var byTid := FindByTelegramId(us, tid);
    var byName := FindByName(us, name);
    var k := if byTid.Some? then byTid.value else if byName.Some? then byName.value else |us|;
    assert us'[k].name == name && us'[k].telegramId == tid;
  }

  /** Deleting a user removes exactly that name from `users_get_map`. */
  lemma DeleteThenMap(us: seq<User>, next: int, k: nat)
    requires UserKeys(us, next) && UniqueTelegramIds(us) && UniqueNames(us) && k < |us|
    ensures GetMap(us[..k] + us[k + 1..]) == GetMap(us) - {us[k].name}
  {
    var r := us[..k] + us[k + 1..];
    RemoveKeepsInvariants(us, next, k);
    var a, b := GetMap(r), GetMap(us) - {us[k].name};
    forall n | n in a
      ensures n in b && a[n] == b[n]
    {
      DeleteKeyFromRest(us, k, n);
    }
    forall n | n in b
      ensures n in a
    {
      DeleteKeyFromFull(us, k, n);
    }
  }

  lemma DeleteKeyFromRest(us: seq<User>, k: nat, n: string)
    requires UniqueNames(us) && k < |us| && UniqueNames(us[..k] + us[k + 1..])
    requires n in GetMap(us[..k] + us[k + 1..])
    ensures n in GetMap(us) && n != us[k].name && GetMap(us[..k] + us[k + 1..])[n] == GetMap(us)[n]
  {
    var r := us[..k] + us[k + 1..];
    GetMapSpec(r);
    var j :| 0 <= j < |r| && r[j].name == n;
    var j' := if j < k then j else j + 1;
    assert r[j] == us[j'];
    GetMapSpec(us);
  }

  lemma DeleteKeyFromFull(us: seq<User>, k: nat, n: string)
    requires UniqueNames(us) && k < |us| && UniqueNames(us[..k] + us[k + 1..])
    requires n in GetMap(us) && n != us[k].name
    ensures n in GetMap(us[..k] + us[k + 1..])
  {
    var r := us[..k] + us[k + 1..];
    GetMapSpec(us);
    var j :| 0 <= j < |us| && us[j].name == n;
    assert r[if j < k then j else j - 1] == us[j];
    GetMapSpec(r);
  }
}
