/** The session registry of Server.py: the `database` map from connection to
    `User` record, the `active_clients` map from username to connection with
    its insertion order, and the pure functions that read them. */
module Registry {
  import opened Words
  import opened Messages

  /** An opaque connection handle; distinct sockets are distinct numbers. */
  type Conn = nat

  /** UserState (Server.py:31-36). */
  datatype UserState = Idle | Requesting | Requested | Chatting | GroupChatting

  /** User (Server.py:42-49). The `connection` field is the key the record is
      stored under in `database`, and `address` is never read. */
  datatype User = User(username: string, availability: string, loginStatus: bool, state: UserState)

  /** One `connection.send(text)` call, in the order it was made. */
  datatype Send = Send(to: Conn, text: string)

  /** The record handle_client stores for a fresh connection (Server.py:54). */
  const NewUser := User("this", "available", false, Idle)

  predicate NoDup<T(==)>(s: seq<T>)
  {
    forall i, j :: 0 <= i < j < |s| ==> s[i] != s[j]
  }

  /** The invariant the server keeps between two messages:
      `order` lists the keys of `active` once each, in insertion order;
      every bound name belongs to a live, logged-in session of that name;
      every logged-in session is bound under its own, non-empty name;
      a session that has not logged in is still Idle. */
  ghost predicate Consistent(db: map<Conn, User>, active: map<string, Conn>, order: seq<string>)
  {
    && NoDup(order)
    && (forall k :: k in active <==> k in order)
    && (forall k :: k in active ==>
          active[k] in db && db[active[k]].loginStatus && db[active[k]].username == k)
    && (forall c :: c in db && db[c].loginStatus ==>
          db[c].username != "" && db[c].username in active && active[db[c].username] == c)
    && (forall c :: c in db && !db[c].loginStatus ==> db[c].state == Idle)
  }

  /** Changing the state or the availability label of a logged-in session
      keeps the registry consistent. */
  lemma RecordUpdateKeepsConsistent(db: map<Conn, User>, active: map<string, Conn>, order: seq<string>, c: Conn, u: User)
    requires Consistent(db, active, order)
    requires c in db && db[c].loginStatus
    requires u.loginStatus && u.username == db[c].username
    ensures Consistent(db[c := u], active, order)
  {
  }

  /** Dropping a logged-in session together with its own binding keeps the
      registry consistent. */
  lemma LogoutKeepsConsistent(db: map<Conn, User>, active: map<string, Conn>, order: seq<string>, c: Conn)
    requires Consistent(db, active, order)
    requires c in db && db[c].loginStatus
    ensures Consistent(db - {c}, active - {db[c].username}, Without(order, db[c].username))
  {
    var name := db[c].username;
    var db', active', order' := db - {c}, active - {name}, Without(order, name);
    assert forall k :: k in active' <==> k in order';
    forall k | k in active'
      ensures active'[k] in db' && db'[active'[k]].loginStatus && db'[active'[k]].username == k
    {
      assert db[active[k]].username == k;
    }
    assert forall d :: d in db' && db'[d].loginStatus ==>
             db'[d].username != "" && db'[d].username in active' && active'[db'[d].username] == d;
  }

  /** Bound names belong to one session each: no two logged-in sessions
      share a username. */
  lemma UniqueUsernames(db: map<Conn, User>, active: map<string, Conn>, order: seq<string>, c1: Conn, c2: Conn)
    requires Consistent(db, active, order)
    requires c1 in db && c2 in db && db[c1].loginStatus && db[c2].loginStatus
    requires db[c1].username == db[c2].username
    ensures c1 == c2
  {
  }

  /** get_user_from_name (Server.py:269-273): the connection of the record
      bound under `name`, or None (Python's implicit `return None`). */
  function GetUserFromName(active: map<string, Conn>, db: map<Conn, User>, name: string): Option<Conn>
  {
    if name in active && active[name] in db then Some(active[name]) else None
  }

  /** On a consistent registry the lookup finds exactly the logged-in session
      holding the name. */
  lemma LookupFindsSession(db: map<Conn, User>, active: map<string, Conn>, order: seq<string>, name: string, c: Conn)
    requires Consistent(db, active, order)
    ensures GetUserFromName(active, db, name) == Some(c) <==>
              (c in db && db[c].loginStatus && db[c].username == name)
  {
  }

  /** `order` after `del active_clients[x]`: the other names, in their order. */
  function Without(s: seq<string>, x: string): (r: seq<string>)
    ensures forall y :: y in r <==> y in s && y != x
    ensures NoDup(s) ==> NoDup(r)
    ensures x !in s ==> r == s
    ensures NoDup(s) && x in s ==> exists i :: 0 <= i < |s| && s[i] == x && r == s[..i] + s[i + 1..]
  {
    if s == [] then []
    else
      var t := Without(s[1..], x);
      WithoutStep(s, x, t);
      if s[0] == x then t else [s[0]] + t
  }

  /** The facts Without states, for the tail `t` computed from `s[1..]`. */
  ghost predicate WithoutFacts(s: seq<string>, x: string, r: seq<string>)
  {
    && (forall y :: y in r <==> y in s && y != x)
    && (NoDup(s) ==> NoDup(r))
    && (x !in s ==> r == s)
    && (NoDup(s) && x in s ==> exists i :: 0 <= i < |s| && s[i] == x && r == s[..i] + s[i + 1..])
  }

  /** One step of Without: dropping `x` from the tail and then putting the
      head back (unless it is `x`) keeps the four properties. */
  lemma WithoutStep(s: seq<string>, x: string, t: seq<string>)
    requires s != [] && WithoutFacts(s[1..], x, t)
    ensures WithoutFacts(s, x, if s[0] == x then t else [s[0]] + t)
  {
    var tail := s[1..];
    assert s == [s[0]] + tail;
    assert NoDup(s) ==> NoDup(tail) && s[0] !in tail by {
      assert forall i :: 0 <= i < |tail| ==> tail[i] == s[i + 1];
    }
    if s[0] == x {
      WithoutDropHead(s, x, t);
    } else {
      WithoutKeepHead(s, x, t);
    }
  }

  lemma WithoutDropHead(s: seq<string>, x: string, t: seq<string>)
    requires s != [] && s[0] == x && WithoutFacts(s[1..], x, t)
    requires NoDup(s) ==> NoDup(s[1..]) && s[0] !in s[1..]
    ensures WithoutFacts(s, x, t)
  {
    if NoDup(s) {
      assert t == s[1..] && s[..0] + s[1..] == s[1..];
    }
  }

  lemma WithoutKeepHead(s: seq<string>, x: string, t: seq<string>)
    requires s != [] && s[0] != x && WithoutFacts(s[1..], x, t)
    requires s == [s[0]] + s[1..]
    requires NoDup(s) ==> NoDup(s[1..]) && s[0] !in s[1..]
    ensures WithoutFacts(s, x, [s[0]] + t)
  {
    var r := [s[0]] + t;
    assert forall y :: y in r <==> y == s[0] || y in t;
    assert forall y :: y in s <==> y == s[0] || y in s[1..];
    if NoDup(s) {
      ConsNoDup(s[0], t);
    }
    if NoDup(s) && x in s {
      KeepHeadOrder(s, x, t);
    }
  }

  lemma ConsNoDup(h: string, t: seq<string>)
    requires NoDup(t) && h !in t
    ensures NoDup([h] + t)
  {
    var r := [h] + t;
    forall i, j | 0 <= i < j < |r| ensures r[i] != r[j] {
      assert r[j] == t[j - 1];
      if i > 0 {
        assert r[i] == t[i - 1];
      }
    }
  }

  lemma KeepHeadOrder(s: seq<string>, x: string, t: seq<string>)
    requires s != [] && s[0] != x && x in s && NoDup(s[1..])
    requires exists i :: 0 <= i < |s[1..]| && s[1..][i] == x && t == s[1..][..i] + s[1..][i + 1..]
    ensures exists i :: 0 <= i < |s| && s[i] == x && [s[0]] + t == s[..i] + s[i + 1..]
  {
    var j :| 0 <= j < |s[1..]| && s[1..][j] == x && t == s[1..][..j] + s[1..][j + 1..];
    ConsSlices(s, j);
    assert s[j + 1] == x;
  }

  /** Putting the head back in front of the tail less its j-th element is
      `s` less its (j+1)-th element. */
  lemma ConsSlices(s: seq<string>, j: nat)
    requires j + 1 < |s|
    ensures [s[0]] + (s[1..][..j] + s[1..][j + 1..]) == s[..j + 1] + s[j + 2..]
  {
    var l, r := [s[0]] + (s[1..][..j] + s[1..][j + 1..]), s[..j + 1] + s[j + 2..];
    assert |l| == |r| == |s| - 1;
    forall k | 0 <= k < |l| ensures l[k] == r[k] {
      if k == 0 {
      } else if k <= j {
        assert l[k] == s[k] && r[k] == s[k];
      } else {
        assert l[k] == s[k + 1] && r[k] == s[k + 1];
      }
    }
  }

  // ---------------------------------------------------------------- listing

  /** One row of send_user_list (Server.py:263-264). */
  function UserListLine(u: User): string
  {
    "\t" + u.username + "\t\t" + u.availability + "\t\t" + BoolText(u.loginStatus) + "\n"
  }

  /** The rows send_user_list sends to `to` while walking `keys`
      (Server.py:258-265): a key yields a row when its connection is still
      registered under a record of that very name. */
  function ListingSends(to: Conn, keys: seq<string>, active: map<string, Conn>, db: map<Conn, User>): (rows: seq<Send>)
    ensures |rows| <= |keys|
    ensures forall i :: 0 <= i < |rows| ==> rows[i].to == to
  {
    if keys == [] then []
    else
      var k := keys[|keys| - 1];
      var rest := ListingSends(to, keys[..|keys| - 1], active, db);
      if k in active && active[k] in db && db[active[k]].username == k
      then rest + [Send(to, UserListLine(db[active[k]]))]
      else rest
  }

  /** On a consistent registry the listing has one row per bound name, in
      insertion order, each showing that session's record. */
  lemma {:induction false} ListingRows(to: Conn, keys: seq<string>, db: map<Conn, User>, active: map<string, Conn>, order: seq<string>)
    requires Consistent(db, active, order)
    requires forall i :: 0 <= i < |keys| ==> keys[i] in active
    ensures |ListingSends(to, keys, active, db)| == |keys|
    ensures forall i :: 0 <= i < |keys| ==>
              ListingSends(to, keys, active, db)[i] == Send(to, UserListLine(db[active[keys[i]]]))
  {
    if keys != [] {
      var n := |keys| - 1;
      var init := keys[..n];
      assert forall i :: 0 <= i < n ==> init[i] == keys[i];
      ListingRows(to, init, db, active, order);
      var k := keys[n];
      assert k in active && active[k] in db && db[active[k]].username == k;
      assert ListingSends(to, keys, active, db) ==
             ListingSends(to, init, active, db) + [Send(to, UserListLine(db[active[k]]))];
    }
  }

  /** The listing of the whole registry shows every logged-in session once,
      and the row at position i is that of the i-th name bound. */
  lemma ListingInOrder(to: Conn, db: map<Conn, User>, active: map<string, Conn>, order: seq<string>)
    requires Consistent(db, active, order)
    ensures |ListingSends(to, order, active, db)| == |order| == |active|
    ensures forall i :: 0 <= i < |order| ==>
              ListingSends(to, order, active, db)[i] == Send(to, UserListLine(db[active[order[i]]]))
    ensures forall c :: c in db && db[c].loginStatus ==>
              Send(to, UserListLine(db[c])) in ListingSends(to, order, active, db)
  {
    ListingRows(to, order, db, active, order);
    KeysCount(active, order);
    forall c | c in db && db[c].loginStatus
      ensures Send(to, UserListLine(db[c])) in ListingSends(to, order, active, db)
    {
      var name := db[c].username;
      var i :| 0 <= i < |order| && order[i] == name;
      assert ListingSends(to, order, active, db)[i] == Send(to, UserListLine(db[c]));
    }
  }

  /** A duplicate-free list of exactly the keys of a map is as long as the map. */
  lemma {:induction false} KeysCount<V>(m: map<string, V>, s: seq<string>)
    requires NoDup(s)
    requires forall k :: k in m <==> k in s
    ensures |s| == |m|
  {
    if s != [] {
      var k := s[0];
      assert forall j :: 0 <= j < |s[1..]| ==> s[1..][j] == s[j + 1];
      assert NoDup(s[1..]);
      assert k !in s[1..];
      KeysCount(m - {k}, s[1..]);
      assert m.Keys == (m - {k}).Keys + {k};
    }
  }

  // --------------------------------------------------------------- broadcast

  /** The connections broadcast_message_for_group_chat sends to while walking
      `keys` (Server.py:152-162): registered, in GroupChatting, and not the
      sender unless `allFlag` is set. */
  function GroupRecipients(keys: seq<string>, active: map<string, Conn>, db: map<Conn, User>, sender: Conn, allFlag: bool): (cs: seq<Conn>)
    ensures |cs| <= |keys|
    ensures forall i :: 0 <= i < |cs| ==>
              cs[i] in db && db[cs[i]].state == GroupChatting && (allFlag || cs[i] != sender)
  {
    if keys == [] then []
    else
      var k := keys[|keys| - 1];
      var rest := GroupRecipients(keys[..|keys| - 1], active, db, sender, allFlag);
      if k in active && active[k] in db && (allFlag || active[k] != sender) && db[active[k]].state == GroupChatting
      then rest + [active[k]]
      else rest
  }

  /** Who a walk over `keys` reaches: exactly the registered group members
      bound under one of the keys, less the sender unless `allFlag`. */
  lemma {:induction false} GroupRecipientsOf(keys: seq<string>, active: map<string, Conn>, db: map<Conn, User>, sender: Conn, allFlag: bool, c: Conn)
    ensures c in GroupRecipients(keys, active, db, sender, allFlag) <==>
              (c in db && db[c].state == GroupChatting && (allFlag || c != sender) &&
               exists i :: 0 <= i < |keys| && keys[i] in active && active[keys[i]] == c)
  {
    if keys != [] {
      var n := |keys| - 1;
      GroupRecipientsOf(keys[..n], active, db, sender, allFlag, c);
      assert forall i :: 0 <= i < n ==> keys[..n][i] == keys[i];
      if c in db && db[c].state == GroupChatting && (allFlag || c != sender) &&
         exists i :: 0 <= i < |keys| && keys[i] in active && active[keys[i]] == c {
        var i :| 0 <= i < |keys| && keys[i] in active && active[keys[i]] == c;
        if i < n {
          assert keys[..n][i] == keys[i];
        }
      }
    }
  }

  /** A group message reaches every group member except (when `allFlag` is
      false) the sender, and no session outside the group. */
  lemma GroupRecipientsExact(db: map<Conn, User>, active: map<string, Conn>, order: seq<string>, sender: Conn, allFlag: bool, c: Conn)
    requires Consistent(db, active, order)
    ensures c in GroupRecipients(order, active, db, sender, allFlag) <==>
              (c in db && db[c].state == GroupChatting && (allFlag || c != sender))
  {
    GroupRecipientsOf(order, active, db, sender, allFlag, c);
    if c in db && db[c].state == GroupChatting {
      var name := db[c].username;
      assert name in order;
      var i :| 0 <= i < |order| && order[i] == name;
      assert active[order[i]] == c;
    }
  }

  /** Each group member receives a broadcast at most once. */
  lemma {:induction false} GroupRecipientsOnce(keys: seq<string>, db: map<Conn, User>, active: map<string, Conn>, order: seq<string>, sender: Conn, allFlag: bool)
    requires Consistent(db, active, order)
    requires NoDup(keys)
    ensures NoDup(GroupRecipients(keys, active, db, sender, allFlag))
  {
    if keys != [] {
      var n := |keys| - 1;
      var init := keys[..n];
      assert forall i :: 0 <= i < n ==> init[i] == keys[i];
      assert NoDup(init);
      GroupRecipientsOnce(init, db, active, order, sender, allFlag);
      var k := keys[n];
      if k in active {
        var c := active[k];
        GroupRecipientsOf(init, active, db, sender, allFlag, c);
        assert c !in GroupRecipients(init, active, db, sender, allFlag);
      }
    }
  }

  // ------------------------------------------------- remove_connection as written

  /** A name whose connection is still in `database`. */
  predicate Live(active: map<string, Conn>, db: map<Conn, User>, k: string)
  {
    k in active && active[k] in db
  }

  /** The position of the first live name in `keys`. */
  function FirstLive(keys: seq<string>, active: map<string, Conn>, db: map<Conn, User>): (r: Option<nat>)
    ensures r.Some? ==> r.value < |keys| && Live(active, db, keys[r.value])
    ensures r.Some? ==> forall j :: 0 <= j < r.value ==> !Live(active, db, keys[j])
    ensures r.None? ==> forall j :: 0 <= j < |keys| ==> !Live(active, db, keys[j])
  {
    if keys == [] then None
    else if Live(active, db, keys[0]) then Some(0)
    else match FirstLive(keys[1..], active, db)
      case None => None
      case Some(i) => Some(i + 1)
  }

  /** What remove_connection leaves behind and sends. */
  datatype Removal = Removal(db: map<Conn, User>, active: map<string, Conn>, order: seq<string>, sent: seq<Send>)

  /** remove_connection exactly as written (Server.py:308-318): its first
      effective loop iteration deletes `connection` from `database` but
      unbinds the name of `temp_user`, the FIRST live entry of
      `active_clients`; the deletion then makes the next iteration raise
      RuntimeError, so no second iteration happens. */
  function RemoveConnectionAsWritten(db: map<Conn, User>, active: map<string, Conn>, order: seq<string>, conn: Conn): Removal
  {
    match FirstLive(order, active, db)
    case None => Removal(db, active, order, [])
    case Some(i) =>
      if conn !in db then Removal(db, active, order, [])
      else
        var name := db[active[order[i]]].username;
        Removal(db - {conn}, active - {name}, Without(order, name), [Send(conn, ForceExit)])
  }

  /** On a consistent registry the written code unbinds the leaving user's
      own name only when that user happens to be the first one bound. */
  lemma RemoveAsWrittenUnbindsFirst(db: map<Conn, User>, active: map<string, Conn>, order: seq<string>, conn: Conn)
    requires Consistent(db, active, order)
    requires conn in db && db[conn].loginStatus
    ensures order != []
    ensures RemoveConnectionAsWritten(db, active, order, conn).active == active - {order[0]}
    ensures RemoveConnectionAsWritten(db, active, order, conn).active == active - {db[conn].username} <==>
              order[0] == db[conn].username
  {
    var name := db[conn].username;
    assert name in order;
    assert Live(active, db, order[0]);
    var first := order[0];
    if first != name {
      assert name in active - {first};
      assert name !in active - {name};
    }
  }

  lemma AliceBobConsistent()
    ensures Consistent(map[1 := User("alice", Available, true, Idle), 2 := User("bob", Available, true, Idle)],
                       map["alice" := 1, "bob" := 2], ["alice", "bob"])
  {
    assert "alice" != "bob";
  }

  /** Concrete case: with alice bound before bob, bob's exit drops bob's
      record but unbinds "alice", leaving "bob" bound to a connection that
      is gone and alice logged in under no binding. */
  lemma RemoveAsWrittenCounterexample()
    ensures var alice := User("alice", Available, true, Idle);
            var bob := User("bob", Available, true, Idle);
            var db := map[1 := alice, 2 := bob];
            var active := map["alice" := 1, "bob" := 2];
            var r := RemoveConnectionAsWritten(db, active, ["alice", "bob"], 2);
            Consistent(db, active, ["alice", "bob"]) &&
            r.db == map[1 := alice] && r.active == map["bob" := 2] &&
            !Consistent(r.db, r.active, r.order)
  {
    var alice := User("alice", Available, true, Idle);
    var bob := User("bob", Available, true, Idle);
    var db := map[1 := alice, 2 := bob];
    var active := map["alice" := 1, "bob" := 2];
    var order := ["alice", "bob"];
    assert "alice" != "bob";
    AliceBobConsistent();
    assert Live(active, db, order[0]);
    assert FirstLive(order, active, db) == Some(0);
    assert order[1..] == ["bob"] && "alice" !in order[1..];
    assert Without(order, "alice") == ["bob"];
    var r := RemoveConnectionAsWritten(db, active, order, 2);
    assert r.active == map["bob" := 2];
    assert r.db == map[1 := alice];
    assert "bob" in r.active && r.active["bob"] !in r.db;
  }
}
