/** The server's roster: `clients`, the map from username to status, and
    `onlineUsers`, the ordered list the roster reply is built from. Each
    handler's effect on the roster is a function of the roster before it;
    the server methods are specified by these functions, and the lemmas
    below prove what the handlers promise about them. */
module Registry {
  import opened ChatProtocol

  /** Seconds of silence after which the timer marks a session OFFLINE. */
  const TIMEOUT: int := 5

  datatype Roster = Roster(clients: map<string, Status>, onlineUsers: seq<string>)

  predicate NoDuplicates(s: seq<string>)
  {
    forall i, j | 0 <= i < j < |s| :: s[i] != s[j]
  }

  /** `name` has an entry whose status is not OFFLINE. */
  predicate IsOnline(r: Roster, name: string)
  {
    name in r.clients && r.clients[name] != Offline
  }

  /** The registry invariant: `onlineUsers` lists each name at most once,
      and lists exactly the names whose status is not OFFLINE (so every
      listed name is a key of `clients`). */
  ghost predicate Consistent(r: Roster)
  {
    && NoDuplicates(r.onlineUsers)
    && forall name :: name in r.onlineUsers <==> IsOnline(r, name)
  }

  /** `std::find` followed by `erase`: drops the first occurrence of `x`,
      if any, keeping every other element. */
  function RemoveFirst(s: seq<string>, x: string): (r: seq<string>)
    ensures forall y | y in r :: y in s
    ensures forall y | y in s && y != x :: y in r
    ensures x !in s ==> r == s
    ensures x in s ==> |r| == |s| - 1
  {
    if s == [] then []
    else if s[0] == x then s[1..]
    else [s[0]] + RemoveFirst(s[1..], x)
  }

  /** When the first `x` sits at index `i`, find-and-erase leaves exactly
      the elements before and after it, in order. */
  lemma {:induction false} RemoveFirstAt(s: seq<string>, x: string, i: nat)
    requires i < |s| && s[i] == x && x !in s[..i]
    ensures RemoveFirst(s, x) == s[..i] + s[i + 1..]
  {
    if i > 0 {
      assert s[0] == s[..i][0];
      var before := s[1..][..i - 1];
      assert x !in before by {
        forall k | 0 <= k < |before| ensures before[k] != x {
          assert before[k] == s[..i][k + 1];
        }
      }
      RemoveFirstAt(s[1..], x, i - 1);
      assert s[..i] == [s[0]] + s[1..][..i - 1];
      assert s[i + 1..] == s[1..][i..];
    }
  }

  /** On a list without duplicates, dropping the first `x` drops every `x`
      and keeps the list free of duplicates. */
  lemma {:induction false} RemoveFirstUnique(s: seq<string>, x: string)
    requires NoDuplicates(s)
    ensures NoDuplicates(RemoveFirst(s, x))
    ensures forall y :: y in RemoveFirst(s, x) <==> y in s && y != x
  {
    if s != [] {
      assert NoDuplicates(s[1..]) by {
        forall i, j | 0 <= i < j < |s[1..]| ensures s[1..][i] != s[1..][j] {
          assert s[1..][i] == s[i + 1] && s[1..][j] == s[j + 1];
        }
      }
      assert s[0] !in s[1..] by {
        forall k | 0 <= k < |s[1..]| ensures s[1..][k] != s[0] {
          assert s[1..][k] == s[k + 1];
        }
      }
      if s[0] != x {
        RemoveFirstUnique(s[1..], x);
        var rest := RemoveFirst(s[1..], x);
        assert RemoveFirst(s, x) == [s[0]] + rest;
        ConsNoDuplicates(s[0], rest);
      }
    }
  }

  lemma ConsNoDuplicates(a: string, t: seq<string>)
    requires NoDuplicates(t) && a !in t
    ensures NoDuplicates([a] + t)
  {
    var s := [a] + t;
    forall i, j | 0 <= i < j < |s| ensures s[i] != s[j] {
      assert s[j] == t[j - 1];
      if i > 0 { assert s[i] == t[i - 1]; }
    }
  }

  lemma AppendNoDuplicates(t: seq<string>, a: string)
    requires NoDuplicates(t) && a !in t
    ensures NoDuplicates(t + [a])
  {
    var s := t + [a];
    forall i, j | 0 <= i < j < |s| ensures s[i] != s[j] {
      assert s[i] == t[i];
      if j < |t| { assert s[j] == t[j]; }
    }
  }

  // ---------------------------------------------------------------------
  // The handlers' effect on the roster.

  /** REGISTER_USER: a name that is already a key changes nothing;
      otherwise it is mapped to ONLINE and appended to `onlineUsers`. */
  function Register(r: Roster, name: string): (r': Roster)
    ensures name in r.clients ==> r' == r
    ensures r'.clients.Keys == r.clients.Keys + {name}
    ensures forall other | other in r.clients :: r'.clients[other] == r.clients[other]
    ensures |r.onlineUsers| <= |r'.onlineUsers| <= |r.onlineUsers| + 1
    ensures r'.onlineUsers[..|r.onlineUsers|] == r.onlineUsers
  {
    if name in r.clients then r
    else Roster(r.clients[name := Online], r.onlineUsers + [name])
  }

  /** `updateStatus`: assigning `clients[name]` creates the entry when it
      is missing; OFFLINE drops the name from `onlineUsers`, any other
      status appends it unless it is already listed. */
  function UpdateStatus(r: Roster, name: string, status: Status): (r': Roster)
    ensures r'.clients.Keys == r.clients.Keys + {name}
    ensures r'.clients[name] == status
    ensures status != Offline ==> name in r'.onlineUsers
    ensures forall other | other != name :: other in r'.onlineUsers <==> other in r.onlineUsers
  {
    Roster(r.clients[name := status],
           if status == Offline then RemoveFirst(r.onlineUsers, name)
           else if name in r.onlineUsers then r.onlineUsers
           else r.onlineUsers + [name])
  }

  /** UNREGISTER_USER: erases the entry and drops the name from `onlineUsers`. */
  function Unregister(r: Roster, name: string): (r': Roster)
    ensures r'.clients.Keys == r.clients.Keys - {name}
    ensures forall other | other != name :: other in r'.onlineUsers <==> other in r.onlineUsers
    ensures |r'.onlineUsers| <= |r.onlineUsers|
  {
    Roster(r.clients - {name}, RemoveFirst(r.onlineUsers, name))
  }

  /** The timer's eviction: status OFFLINE and out of `onlineUsers`. */
  function Evict(r: Roster, name: string): (r': Roster)
    ensures r'.clients.Keys == r.clients.Keys + {name}
    ensures !IsOnline(r', name)
    ensures forall other | other != name :: other in r'.onlineUsers <==> other in r.onlineUsers
  {
    Roster(r.clients[name := Offline], RemoveFirst(r.onlineUsers, name))
  }

  /** The timer's wait condition on the roster: the session's name is not
      recorded as OFFLINE (a missing entry reads as a null status, which
      differs from OFFLINE). */
  predicate NotOffline(r: Roster, name: string)
  {
    name !in r.clients || r.clients[name] != Offline
  }

  /** Under the registry invariant the timer's wait condition holds exactly
      while the name is listed online or has no entry at all. */
  lemma NotOfflineListed(r: Roster, name: string)
    requires Consistent(r)
    ensures NotOffline(r, name) <==> name in r.onlineUsers || name !in r.clients
  {
  }

  // ---------------------------------------------------------------------
  // What each handler promises about the roster.

  /** A duplicate registration changes nothing; a fresh one makes the name
      ONLINE and lists it exactly once, at the end, leaving every other
      entry as it was. */
  lemma {:induction false} RegisterEffect(r: Roster, name: string)
    requires Consistent(r)
    ensures name in r.clients ==> Register(r, name) == r
    ensures name !in r.clients ==>
      && IsOnline(Register(r, name), name)
      && |Register(r, name).onlineUsers| == |r.onlineUsers| + 1
      && Register(r, name).onlineUsers[|r.onlineUsers|] == name
      && NoDuplicates(Register(r, name).onlineUsers)
  {
    if name !in r.clients {
      AppendNoDuplicates(r.onlineUsers, name);
    }
  }

  /** `updateStatus` always records the new status; under OFFLINE the name
      is no longer listed, otherwise it is listed once, the list being left
      alone when it was already there. No duplicate is ever created. */
  lemma {:induction false} UpdateStatusEffect(r: Roster, name: string, status: Status)
    requires NoDuplicates(r.onlineUsers)
    ensures UpdateStatus(r, name, status).clients.Keys == r.clients.Keys + {name}
    ensures UpdateStatus(r, name, status).clients[name] == status
    ensures forall other | other in r.clients && other != name ::
      UpdateStatus(r, name, status).clients[other] == r.clients[other]
    ensures NoDuplicates(UpdateStatus(r, name, status).onlineUsers)
    ensures name in UpdateStatus(r, name, status).onlineUsers <==> status != Offline
    ensures forall other | other != name ::
      other in UpdateStatus(r, name, status).onlineUsers <==> other in r.onlineUsers
    ensures status != Offline && name in r.onlineUsers ==>
      UpdateStatus(r, name, status).onlineUsers == r.onlineUsers
  {
    if status == Offline {
      RemoveFirstUnique(r.onlineUsers, name);
    } else if name !in r.onlineUsers {
      AppendNoDuplicates(r.onlineUsers, name);
    }
  }

  /** After unregistration the name has no entry and is not listed, and
      the other names keep their entries and listing. */
  lemma {:induction false} UnregisterEffect(r: Roster, name: string)
    requires NoDuplicates(r.onlineUsers)
    ensures Unregister(r, name).clients.Keys == r.clients.Keys - {name}
    ensures forall other | other in Unregister(r, name).clients ::
      Unregister(r, name).clients[other] == r.clients[other]
    ensures name !in Unregister(r, name).onlineUsers
    ensures forall other | other != name ::
      other in Unregister(r, name).onlineUsers <==> other in r.onlineUsers
    ensures NoDuplicates(Unregister(r, name).onlineUsers)
  {
    RemoveFirstUnique(r.onlineUsers, name);
  }

  /** Eviction records OFFLINE and unlists the name, touching no other name. */
  lemma {:induction false} EvictEffect(r: Roster, name: string)
    requires NoDuplicates(r.onlineUsers)
    ensures Evict(r, name).clients == r.clients[name := Offline]
    ensures !IsOnline(Evict(r, name), name)
    ensures name !in Evict(r, name).onlineUsers
    ensures forall other | other != name ::
      other in Evict(r, name).onlineUsers <==> other in r.onlineUsers
    ensures NoDuplicates(Evict(r, name).onlineUsers)
  {
    RemoveFirstUnique(r.onlineUsers, name);
  }

  // ---------------------------------------------------------------------
  // The registry invariant is preserved by every roster-changing handler.

  lemma {:induction false} RegisterPreservesConsistent(r: Roster, name: string)
    requires Consistent(r)
    ensures Consistent(Register(r, name))
  {
    if name !in r.clients {
      assert name !in r.onlineUsers;
      AppendNoDuplicates(r.onlineUsers, name);
    }
  }

  lemma {:induction false} UpdateStatusPreservesConsistent(r: Roster, name: string, status: Status)
    requires Consistent(r)
    ensures Consistent(UpdateStatus(r, name, status))
  {
    UpdateStatusEffect(r, name, status);
    var r' := UpdateStatus(r, name, status);
    forall other ensures other in r'.onlineUsers <==> IsOnline(r', other) {
      if other != name {
        assert IsOnline(r', other) <==> IsOnline(r, other);
      }
    }
  }

  lemma {:induction false} UnregisterPreservesConsistent(r: Roster, name: string)
    requires Consistent(r)
    ensures Consistent(Unregister(r, name))
  {
    UnregisterEffect(r, name);
    var r' := Unregister(r, name);
    forall other ensures other in r'.onlineUsers <==> IsOnline(r', other) {
      if other != name {
        assert IsOnline(r', other) <==> IsOnline(r, other);
      }
    }
  }

  lemma {:induction false} EvictPreservesConsistent(r: Roster, name: string)
    requires Consistent(r)
    ensures Consistent(Evict(r, name))
  {
    EvictEffect(r, name);
    var r' := Evict(r, name);
    forall other ensures other in r'.onlineUsers <==> IsOnline(r', other) {
      if other != name {
        assert IsOnline(r', other) <==> IsOnline(r, other);
      }
    }
  }

  /** The roster effect of one parsed request. Registration uses the
      requested name; status updates and unregistration act on `userName`,
      the name the receive loop hands to those handlers. Every other
      request leaves the roster alone. */
  function RosterStep(r: Roster, req: Request, userName: string): (r': Roster)
    ensures var touched := if req.RegisterUserRequest? then req.username else userName;
      forall other | other != touched ::
        && (other in r'.clients <==> other in r.clients)
        && (other in r.clients ==> r'.clients[other] == r.clients[other])
        && (other in r'.onlineUsers <==> other in r.onlineUsers)
  {
    match req
    case RegisterUserRequest(username) => Register(r, username)
    case UpdateStatusRequest(status) => UpdateStatus(r, userName, status)
    case UnregisterUserRequest => Unregister(r, userName)
    case _ => r
  }

  /** Whatever the request and whatever name the handlers are given, the
      registry invariant survives. */
  lemma {:induction false} RosterStepPreservesConsistent(r: Roster, req: Request, userName: string)
    requires Consistent(r)
    ensures Consistent(RosterStep(r, req, userName))
  {
    match req
    case RegisterUserRequest(username) => RegisterPreservesConsistent(r, username);
    case UpdateStatusRequest(status) => UpdateStatusPreservesConsistent(r, userName, status);
    case UnregisterUserRequest => UnregisterPreservesConsistent(r, userName);
    case _ =>
  }

  /** The roster reply lists, once each, exactly the names that are not
      OFFLINE. */
  lemma RosterIsOnlineUsers(r: Roster)
    requires Consistent(r)
    ensures UsersList(r.onlineUsers).payload.UserList?
    ensures NoDuplicates(UsersList(r.onlineUsers).payload.users)
    ensures forall name :: name in UsersList(r.onlineUsers).payload.users <==> IsOnline(r, name)
  {
  }
}
