/** The file-based user store of filedb.py: `users.json` lists everyone who
    sent /start, `allowed_users.json` the users an admin promoted. Each file
    is modelled by what `load_json` can find in it; reading and writing the
    file system is replaced by the two fields of `JsonStore`. */
module FileDb {
  import opened Wrappers

  /** One record: `id`, `username`, `first_name`, `date_joined`. */
  datatype UserRecord = UserRecord(id: int, username: string, firstName: string, dateJoined: string)

  /** What is on disk under a store's file name. */
  datatype JsonFile = Missing | Unreadable | Records(records: seq<UserRecord>)

  /** `load_json`: a missing file and one that fails to parse both read as
      the empty list. */
  function Load(f: JsonFile): (rs: seq<UserRecord>)
    ensures !f.Records? ==> rs == []
  {
    match f
    case Records(rs) => rs
    case _ => []
  }

  predicate HasId(rs: seq<UserRecord>, id: int) {
    exists k :: 0 <= k < |rs| && rs[k].id == id
  }

  /** Every record in a list is found by its own id. */
  lemma InHasId(rs: seq<UserRecord>)
    ensures forall u :: u in rs ==> HasId(rs, u.id)
  {
    forall u | u in rs
      ensures HasId(rs, u.id)
    {
      var k :| 0 <= k < |rs| && rs[k] == u;
    }
  }

  predicate UniqueIds(rs: seq<UserRecord>) {
    forall i, j :: 0 <= i < j < |rs| ==> rs[i].id != rs[j].id
  }

  /** `username or ''` */
  function OrEmpty(s: Option<string>): string {
    match s
    case None => ""
    case Some(t) => t
  }

  /** The list after an upsert: unchanged when the id is present, otherwise
      with the new entry appended. */
  function Upserted(rs: seq<UserRecord>, entry: UserRecord): (r: seq<UserRecord>)
    ensures HasId(r, entry.id)
    ensures HasId(rs, entry.id) ==> r == rs
    ensures !HasId(rs, entry.id) ==> r == rs + [entry]
  {
    if HasId(rs, entry.id) then rs
    else
      assert (rs + [entry])[|rs|].id == entry.id;
      rs + [entry]
  }

  /** The search loop of `get_user_by_id`: the first record with the id. */
  function FirstWithId(rs: seq<UserRecord>, id: int): (r: Option<UserRecord>)
    ensures r.None? <==> !HasId(rs, id)
    ensures r.Some? ==> r.value.id == id && exists k :: 0 <= k < |rs| && rs[k] == r.value && forall j :: 0 <= j < k ==> rs[j].id != id
    decreases |rs|
  {
    if rs == [] then None
    else if rs[0].id == id then Some(rs[0])
    else
      var r := FirstWithId(rs[1..], id);
      assert HasId(rs[1..], id) ==> HasId(rs, id) by {
        if HasId(rs[1..], id) {
          var k :| 0 <= k < |rs[1..]| && rs[1..][k].id == id;
          assert rs[k + 1].id == id;
        }
      }
      assert HasId(rs, id) ==> HasId(rs[1..], id) by {
        if HasId(rs, id) {
          var k :| 0 <= k < |rs| && rs[k].id == id;
          assert k > 0 && rs[1..][k - 1].id == id;
        }
      }
      if r.Some? then
        assert exists k :: 0 <= k < |rs| && rs[k] == r.value && forall j :: 0 <= j < k ==> rs[j].id != id by {
          var k :| 0 <= k < |rs[1..]| && rs[1..][k] == r.value && forall j :: 0 <= j < k ==> rs[1..][j].id != id;
          assert rs[k + 1] == r.value;
          assert forall j :: 0 <= j < k + 1 ==> rs[j].id != id by {
            forall j | 0 <= j < k + 1 ensures rs[j].id != id {
              if j > 0 { assert rs[j] == rs[1..][j - 1]; }
            }
          }
        }
        r
      else r
  }

  /** `[u for u in allowed if u['id'] != user_id]` */
  function WithoutId(rs: seq<UserRecord>, id: int): (r: seq<UserRecord>)
    ensures |r| <= |rs|
    ensures !HasId(r, id)
    ensures forall x :: x in r <==> x in rs && x.id != id
    decreases |rs|
  {
    if rs == [] then []
    else
      var rest := WithoutId(rs[1..], id);
      assert forall x :: x in rs <==> x == rs[0] || x in rs[1..];
      if rs[0].id == id then rest
      else
        var r := [rs[0]] + rest;
        assert !HasId(r, id) by {
          forall k | 0 <= k < |r| ensures r[k].id != id {
            if k > 0 { assert r[k] == rest[k - 1]; assert r[k] in rest; }
          }
        }
        r
  }

  /** Filtering removes something exactly when some record has the id. */
  lemma {:induction false} WithoutIdShrinks(rs: seq<UserRecord>, id: int)
    ensures |WithoutId(rs, id)| == |rs| <==> !HasId(rs, id)
    decreases |rs|
  {
    if rs != [] {
      WithoutIdShrinks(rs[1..], id);
      if HasId(rs[1..], id) {
        var k :| 0 <= k < |rs[1..]| && rs[1..][k].id == id;
        assert rs[k + 1].id == id;
      }
      if HasId(rs, id) && rs[0].id != id {
        var k :| 0 <= k < |rs| && rs[k].id == id;
        assert rs[1..][k - 1].id == id;
      }
    }
  }

  /** Filtering keeps the other records in their order: it is the list
      without the records that have the id. */
  lemma {:induction false} WithoutIdKeepsOrder(rs: seq<UserRecord>, id: int)
    requires !HasId(rs, id)
    ensures WithoutId(rs, id) == rs
    decreases |rs|
  {
    if rs != [] {
      assert rs[0].id != id;
      assert !HasId(rs[1..], id) by {
        forall k | 0 <= k < |rs[1..]| ensures rs[1..][k].id != id {
          assert rs[1..][k] == rs[k + 1];
        }
      }
      WithoutIdKeepsOrder(rs[1..], id);
    }
  }

  /** Filtering distributes over concatenation, so the relative order of the
      kept records is the original one. */
  lemma {:induction false} WithoutIdAppend(a: seq<UserRecord>, b: seq<UserRecord>, id: int)
    ensures WithoutId(a + b, id) == WithoutId(a, id) + WithoutId(b, id)
    decreases |a|
  {
    if a != [] {
      assert (a + b)[1..] == a[1..] + b;
      assert (a + b)[0] == a[0];
      WithoutIdAppend(a[1..], b, id);
      if a[0].id != id {
        assert WithoutId(a + b, id) == [a[0]] + WithoutId(a[1..] + b, id);
        assert WithoutId(a, id) == [a[0]] + WithoutId(a[1..], id);
      }
    } else {
      assert a + b == b;
    }
  }

  /** An upsert keeps ids unique. */
  lemma UpsertKeepsUnique(rs: seq<UserRecord>, entry: UserRecord)
    requires UniqueIds(rs)
    ensures UniqueIds(Upserted(rs, entry))
  {
    if !HasId(rs, entry.id) {
      var r := rs + [entry];
      forall i, j | 0 <= i < j < |r| ensures r[i].id != r[j].id {
        if j == |rs| {
          assert r[i] == rs[i];
        }
      }
    }
  }

  /** An upsert repeated with the same id changes nothing more. */
  lemma UpsertIdempotent(rs: seq<UserRecord>, entry: UserRecord, again: UserRecord)
    requires again.id == entry.id
    ensures Upserted(Upserted(rs, entry), again) == Upserted(rs, entry)
  {
  }

  /** Filtering keeps ids unique. */
  lemma {:induction false} WithoutIdKeepsUnique(rs: seq<UserRecord>, id: int)
    requires UniqueIds(rs)
    ensures UniqueIds(WithoutId(rs, id))
    decreases |rs|
  {
    if rs != [] {
      assert UniqueIds(rs[1..]) by {
        forall i, j | 0 <= i < j < |rs[1..]| ensures rs[1..][i].id != rs[1..][j].id {
          assert rs[1..][i] == rs[i + 1] && rs[1..][j] == rs[j + 1];
        }
      }
      WithoutIdKeepsUnique(rs[1..], id);
      var rest := WithoutId(rs[1..], id);
      if rs[0].id != id {
        var r := [rs[0]] + rest;
        forall i, j | 0 <= i < j < |r| ensures r[i].id != r[j].id {
          if i == 0 {
            assert r[j] in rest;
            assert r[j] in rs[1..];
            var k :| 0 <= k < |rs[1..]| && rs[1..][k] == r[j];
            assert rs[k + 1] == r[j];
          } else {
            assert r[i] == rest[i - 1] && r[j] == rest[j - 1];
          }
        }
      }
    }
  }

  /** The two JSON files of filedb.py. */
  class JsonStore {
    var users: JsonFile
    var allowed: JsonFile

    constructor(users0: JsonFile, allowed0: JsonFile)
      ensures users == users0 && allowed == allowed0
    {
      users := users0;
      allowed := allowed0;
    }

    /** `upsert_user`: `now` stands for `datetime.now().isoformat()`. The file
        is only written when a record is appended. */
    method UpsertUser(userId: int, username: Option<string>, firstName: Option<string>, now: string)
      returns (ok: bool)
      modifies this
      ensures ok
      ensures allowed == old(allowed)
      ensures var entry := UserRecord(userId, OrEmpty(username), OrEmpty(firstName), now);
        if HasId(Load(old(users)), userId) then users == old(users)
        else users == Records(Upserted(Load(old(users)), entry))
    {
      var rs := Load(users);
      var i := 0;
      while i < |rs|
        invariant i <= |rs|
        invariant forall k :: 0 <= k < i ==> rs[k].id != userId
      {
        if rs[i].id == userId {
          return true;
        }
        i := i + 1;
      }
      var entry := UserRecord(userId, OrEmpty(username), OrEmpty(firstName), now);
      users := Records(rs + [entry]);
      return true;
    }

    /** `get_user_by_id` */
    function GetUserById(userId: int): (r: Option<UserRecord>)
      reads this
      ensures r.None? <==> !HasId(Load(users), userId)
      ensures r.Some? ==> r.value.id == userId
      ensures r.Some? ==>
        exists k :: 0 <= k < |Load(users)| && Load(users)[k] == r.value && forall j :: 0 <= j < k ==> Load(users)[j].id != userId
    {
      FirstWithId(Load(users), userId)
    }

    /** `list_all_users`: every listed user can be looked up by id, and a
        missing or unreadable file lists nobody. */
    function ListAllUsers(): (r: seq<UserRecord>)
      reads this
      ensures !users.Records? ==> r == []
      ensures forall u :: u in r ==> GetUserById(u.id).Some?
    {
      InHasId(Load(users));
      Load(users)
    }

    /** `list_allowed_users`: every listed user is allowed, and a missing or
        unreadable file lists nobody. */
    function ListAllowedUsers(): (r: seq<UserRecord>)
      reads this
      ensures !allowed.Records? ==> r == []
      ensures forall u :: u in r ==> IsUserAllowed(u.id)
    {
      InHasId(Load(allowed));
      Load(allowed)
    }

    /** `is_user_allowed`: `any(u['id'] == user_id for u in allowed)`. */
    function IsUserAllowed(userId: int): (r: bool)
      reads this
      ensures r <==> exists u :: u in Load(allowed) && u.id == userId
      ensures !allowed.Records? ==> !r
    {
      HasId(Load(allowed), userId)
    }

    /** `add_allowed_user_from_user`: appends the record unless its id is
        already allowed; it always reports success. */
    method AddAllowedUserFromUser(user: UserRecord) returns (ok: bool)
      modifies this
      ensures ok
      ensures users == old(users)
      ensures if HasId(Load(old(allowed)), user.id) then allowed == old(allowed)
              else allowed == Records(Load(old(allowed)) + [user])
      ensures IsUserAllowed(user.id)
    {
      var rs := Load(allowed);
      var i := 0;
      while i < |rs|
        invariant i <= |rs|
        invariant forall k :: 0 <= k < i ==> rs[k].id != user.id
      {
        if rs[i].id == user.id {
          return true;
        }
        i := i + 1;
      }
      allowed := Records(rs + [user]);
      assert Load(allowed)[|rs|].id == user.id;
      return true;
    }

    /** `remove_allowed_user`: drops every record with the id and reports
        whether there was one; nothing is written when there was none. */
    method RemoveAllowedUser(userId: int) returns (ok: bool)
      modifies this
      ensures ok <==> HasId(Load(old(allowed)), userId)
      ensures users == old(users)
      ensures ok ==> allowed == Records(WithoutId(Load(old(allowed)), userId))
      ensures !ok ==> allowed == old(allowed)
      ensures !IsUserAllowed(userId)
    {
      var rs := Load(allowed);
      var kept := WithoutId(rs, userId);
      WithoutIdShrinks(rs, userId);
      if |kept| == |rs| {
        return false;
      }
      allowed := Records(kept);
      return true;
    }
  }

  /** A store whose allowed-users file is missing or unreadable allows
      nobody, and one whose users file is missing or unreadable knows
      nobody. */
  lemma EmptyWhenUnreadable(f: JsonFile, id: int)
    requires !f.Records?
    ensures !HasId(Load(f), id)
    ensures FirstWithId(Load(f), id) == None
  {
  }
}
