/** The chat server's shared state and its request handlers. Each handler
    is one atomic step on that state: the locks that serialise them, the
    threads that run them and the sockets they read from are not part of
    this model. */
module ChatServer {
  import opened ChatProtocol
  import opened Registry

  /** `ClientInfo`: what the server keeps per connection. */
  class Session {
    var userName: string
    /** Time of the last parsed request, in whole seconds. */
    var lastMessage: int
    /** The connection's outbound FIFO queue, oldest response first. */
    var responses: seq<Response>
    var connected: bool

    /** The accept loop's initialisation of a new connection. */
    constructor (now: int)
      ensures userName == "" && lastMessage == now && responses == [] && connected
    {
      userName := "";
      lastMessage := now;
      responses := [];
      connected := true;
    }
  }

  /** What one wake-up of a session's timer does: it stays parked (the
      session is disconnected or OFFLINE), finds the session not yet idle
      long enough, or evicts it. */
  datatype TimerOutcome = Parked | Waiting | Evicted

  /** What a handler queues for the calling session itself, given the
      roster it starts from: the registration acknowledgement, the
      "User not found." error, the roster reply, or the status
      acknowledgement. A duplicate registration, a broadcast, a message to
      a known name, an unregistration and an unknown operation queue
      nothing for the caller. */
  function Reply(r: Roster, req: Request): seq<Response>
  {
    match req
    case RegisterUserRequest(name) => if name in r.clients then [] else [RegisterOk]
    case SendMessageRequest(_, recipient) =>
      if recipient != "" && recipient !in r.clients then [UserNotFound] else []
    case GetUsersRequest(_) => [UsersList(r.onlineUsers)]
    case UpdateStatusRequest(_) => [StatusUpdated]
    case _ => []
  }

  /** What a request puts on the global broadcast queue: only a message
      with an empty recipient puts anything there. */
  function Broadcast(req: Request): seq<Response>
  {
    if req.SendMessageRequest? && req.recipient == "" then [MessageSent] else []
  }

  /** A request produces at most one response for the caller or the
      broadcast queue, and a request that reaches the broadcast queue
      queues nothing for the caller. */
  lemma ReplyOrBroadcast(r: Roster, req: Request)
    ensures |Reply(r, req)| + |Broadcast(req)| <= 1
    ensures Broadcast(req) != [] ==> Reply(r, req) == []
  {
  }

  /** `k` copies of `m`. */
  function Repeat(m: Response, k: nat): (r: seq<Response>)
    ensures |r| == k
    ensures forall i | 0 <= i < k :: r[i] == m
  {
    if k == 0 then [] else Repeat(m, k - 1) + [m]
  }

  /** Each message of `ms`, in order, repeated `k` times: what a queue
      listed `k` times in `clientsInfo` receives when `ms` is fanned out. */
  function Stutter(ms: seq<Response>, k: nat): seq<Response>
  {
    if ms == [] then [] else Stutter(ms[..|ms| - 1], k) + Repeat(ms[|ms| - 1], k)
  }

  lemma StutterSnoc(ms: seq<Response>, m: Response, k: nat)
    ensures Stutter(ms + [m], k) == Stutter(ms, k) + Repeat(m, k)
  {
    assert (ms + [m])[..|ms|] == ms;
  }

  /** A queue listed once receives the broadcasts exactly, in submission order. */
  lemma {:induction false} StutterOnce(ms: seq<Response>)
    ensures Stutter(ms, 1) == ms
  {
    if ms != [] {
      StutterOnce(ms[..|ms| - 1]);
      assert ms == ms[..|ms| - 1] + [ms[|ms| - 1]];
    }
  }

  /** How many times `x` is listed in `s`. */
  function Count(s: seq<Session>, x: Session): nat
  {
    if s == [] then 0
    else Count(s[..|s| - 1], x) + (if s[|s| - 1] == x then 1 else 0)
  }

  lemma CountSnoc(s: seq<Session>, y: Session, x: Session)
    ensures Count(s + [y], x) == Count(s, x) + (if y == x then 1 else 0)
  {
    assert (s + [y])[..|s|] == s;
  }

  lemma {:induction false} CountAbsent(s: seq<Session>, x: Session)
    requires x !in s
    ensures Count(s, x) == 0
  {
    if s != [] {
      assert forall y | y in s[..|s| - 1] :: y in s;
      CountAbsent(s[..|s| - 1], x);
    }
  }

  /** `std::remove_if` followed by `erase`: drops every occurrence of `x`
      and keeps the other sessions in order. */
  function Without(s: seq<Session>, x: Session): (r: seq<Session>)
    ensures x !in r
    ensures forall y | y in r :: y in s
    ensures forall y | y in s && y != x :: Count(r, y) == Count(s, y)
  {
    if s == [] then []
    else
      var last := s[|s| - 1];
      var kept := Without(s[..|s| - 1], x);
      assert forall y | y in s[..|s| - 1] :: y in s;
      assert s == s[..|s| - 1] + [last];
      if last == x then kept
      else
        assert forall y | y in s && y != x :: Count(kept + [last], y) == Count(s, y) by {
          forall y | y in s && y != x ensures Count(kept + [last], y) == Count(s, y) {
            CountSnoc(kept, last, y);
            CountSnoc(s[..|s| - 1], last, y);
            if y !in s[..|s| - 1] {
              CountAbsent(s[..|s| - 1], y);
              CountAbsent(kept, y);
            }
          }
        }
        kept + [last]
  }

  /** Removal works piecewise: the sessions kept from `a + b` are those
      kept from `a` followed by those kept from `b`, so the surviving
      sessions keep their relative order. */
  lemma {:induction false} WithoutAppend(a: seq<Session>, b: seq<Session>, x: Session)
    ensures Without(a + b, x) == Without(a, x) + Without(b, x)
  {
    if b == [] {
      assert a + b == a;
    } else {
      var front := b[..|b| - 1];
      var last := b[|b| - 1];
      assert (a + b)[..|a + b| - 1] == a + front;
      assert (a + b)[|a + b| - 1] == last;
      WithoutAppend(a, front, x);
    }
  }

  /** The server's global state. */
  class Server {
    /** Username to status; a name appears here once it registers, or once
        any handler writes a status for it. */
    var clients: map<string, Status>
    /** The names the roster reply lists, in insertion order. */
    var onlineUsers: seq<string>
    /** The registered sessions, in registration order; a session that
        registers twice is listed twice. */
    var clientsInfo: seq<Session>
    /** The broadcast queue drained by the fan-out loop, oldest first. */
    var messages: seq<Response>
    /** Whether the `clients` document has become a JSON object. It starts
        as JSON null; the first subscript write (a registration, a status
        update, or the timer's wait condition) turns it into an object. */
    var clientsIsObject: bool

    constructor ()
      ensures clients == map[] && onlineUsers == [] && clientsInfo == [] && messages == []
      ensures !clientsIsObject && NullIsEmpty()
    {
      clients := map[];
      onlineUsers := [];
      clientsInfo := [];
      messages := [];
      clientsIsObject := false;
    }

    /** While `clients` is still JSON null it holds no entry. */
    predicate NullIsEmpty()
      reads this
    {
      !clientsIsObject ==> clients == map[]
    }

    /** The roster part of the state. */
    function View(): Roster
      reads this
    {
      Roster(clients, onlineUsers)
    }

    /** Every parsed request first records when it arrived. */
    method Stamp(info: Session, now: int)
      modifies info`lastMessage
      ensures info.lastMessage == now
    {
      info.lastMessage := now;
    }

    /** REGISTER_USER for `name` on connection `info`. A name that is
        already a key is refused silently: no state changes and no reply
        is queued. Otherwise the session takes the name, the name becomes
        ONLINE and listed, the session is appended to `clientsInfo`, and one
        OK reply is queued for it. */
    method Register(info: Session, name: string) returns (registered: bool)
      modifies this`clients, this`onlineUsers, this`clientsInfo, this`clientsIsObject
      modifies info`userName, info`responses
      ensures registered <==> name !in old(clients)
      ensures clientsIsObject == (old(clientsIsObject) || registered)
      ensures View() == Registry.Register(old(View()), name)
      ensures registered ==>
        && info.userName == name
        && clientsInfo == old(clientsInfo) + [info]
        && info.responses == old(info.responses) + [RegisterOk]
      ensures !registered ==>
        && info.userName == old(info.userName)
        && clientsInfo == old(clientsInfo)
        && info.responses == old(info.responses)
      ensures old(Consistent(View())) ==> Consistent(View())
    {
      ghost var before := View();
      if name in clients {
        return false;
      }
      info.userName := name;
      clients := clients[name := Online];
      clientsIsObject := true;
      onlineUsers := onlineUsers + [name];
      clientsInfo := clientsInfo + [info];
      info.responses := info.responses + [RegisterOk];
      registered := true;
      if Consistent(before) {
        RegisterPreservesConsistent(before, name);
      }
    }

    /** `updateStatus`: records `status` for `name` (creating the entry if
        it is missing), lists or unlists the name accordingly, and queues
        one OK reply for the caller. */
    method UpdateStatus(info: Session, name: string, status: Status)
      modifies this`clients, this`onlineUsers, this`clientsIsObject, info`responses
      ensures clientsIsObject
      ensures View() == Registry.UpdateStatus(old(View()), name, status)
      ensures info.responses == old(info.responses) + [StatusUpdated]
      ensures old(Consistent(View())) ==> Consistent(View())
    {
      ghost var before := View();
      clients := clients[name := status];
      clientsIsObject := true;
      if status == Offline {
        onlineUsers := RemoveFirst(onlineUsers, name);
      } else if name !in onlineUsers {
        onlineUsers := onlineUsers + [name];
      }
      info.responses := info.responses + [StatusUpdated];
      if Consistent(before) {
        UpdateStatusPreservesConsistent(before, name, status);
      }
    }

    /** UNREGISTER_USER: erases `name`, unlists it, drops every occurrence
        of the session from `clientsInfo` and marks it disconnected. No
        reply is queued. Erasing a key from `clients` while it is still
        JSON null throws a type error that nothing catches, which
        terminates the whole server: `aborted` reports that, and then no
        state has changed. */
    method Unregister(info: Session, name: string) returns (aborted: bool)
      modifies this`clients, this`onlineUsers, this`clientsInfo, info`connected
      ensures aborted <==> !clientsIsObject
      ensures aborted && old(NullIsEmpty()) ==> old(clients) == map[]
      ensures aborted ==>
        View() == old(View()) && clientsInfo == old(clientsInfo) && info.connected == old(info.connected)
      ensures !aborted ==>
        && View() == Registry.Unregister(old(View()), name)
        && clientsInfo == Without(old(clientsInfo), info)
        && !info.connected
      ensures old(Consistent(View())) ==> Consistent(View())
    {
      if !clientsIsObject {
        return true;
      }
      aborted := false;
      ghost var before := View();
      clients := clients - {name};
      onlineUsers := RemoveFirst(onlineUsers, name);
      clientsInfo := Without(clientsInfo, info);
      info.connected := false;
      if Consistent(before) {
        UnregisterPreservesConsistent(before, name);
      }
    }

    /** The recipient search of a direct message: the first registered
        session whose name is `name`, if there is one. */
    method FindRecipient(name: string) returns (found: Option<nat>)
      ensures found.Some? ==>
        && found.value < |clientsInfo|
        && clientsInfo[found.value].userName == name
        && forall j | 0 <= j < found.value :: clientsInfo[j].userName != name
      ensures found.None? ==> forall j | 0 <= j < |clientsInfo| :: clientsInfo[j].userName != name
    {
      var i := 0;
      while i < |clientsInfo|
        invariant 0 <= i <= |clientsInfo|
        invariant forall j | 0 <= j < i :: clientsInfo[j].userName != name
      {
        if clientsInfo[i].userName == name {
          return Some(i);
        }
        i := i + 1;
      }
      return None;
    }

    /** `sendMessage`. An empty recipient is a broadcast: a bare OK is put
        on the broadcast queue and no session queue changes. A recipient
        with no entry in `clients` gets the sender one BAD_REQUEST. Any
        other recipient is looked up in `clientsInfo` (its status is not
        checked) and the first session with that name, if any, receives one
        OK carrying the content and the sender; the sender gets nothing.
        `deliveredTo` is the index of the session that received it. */
    method SendMessage(info: Session, sender: string, content: string, recipient: string)
      returns (deliveredTo: Option<nat>)
      modifies this`messages, info`responses, clientsInfo`responses
      ensures recipient == "" ==> messages == old(messages) + [MessageSent]
      ensures recipient != "" ==> messages == old(messages)
      ensures recipient != "" && recipient !in clients ==>
        info.responses == old(info.responses) + [UserNotFound]
      ensures deliveredTo.Some? ==>
        && recipient != "" && recipient in clients
        && deliveredTo.value < |clientsInfo|
        && clientsInfo[deliveredTo.value].userName == recipient
        && (forall j | 0 <= j < deliveredTo.value :: clientsInfo[j].userName != recipient)
        && clientsInfo[deliveredTo.value].responses
           == old(clientsInfo[deliveredTo.value].responses) + [DirectMessage(content, sender)]
      ensures deliveredTo.None? && recipient != "" && recipient in clients ==>
        forall j | 0 <= j < |clientsInfo| :: clientsInfo[j].userName != recipient
      ensures forall s | s in clientsInfo || s == info ::
        || s.responses == old(s.responses)
        || (recipient != "" && recipient !in clients && s == info)
        || (deliveredTo.Some? && s == clientsInfo[deliveredTo.value])
    {
      if recipient == "" {
        messages := messages + [MessageSent];
        return None;
      }
      if recipient !in clients {
        info.responses := info.responses + [UserNotFound];
        return None;
      }
      deliveredTo := FindRecipient(recipient);
      if deliveredTo.Some? {
        var target := clientsInfo[deliveredTo.value];
        target.responses := target.responses + [DirectMessage(content, sender)];
      }
    }

    /** `sendUsersList`: queues, for the caller, one OK listing
        `onlineUsers` in order (the request's username filter is ignored). */
    method SendUsersList(info: Session)
      modifies info`responses
      ensures info.responses == old(info.responses) + [UsersList(onlineUsers)]
    {
      info.responses := info.responses + [UsersList(onlineUsers)];
    }

    /** One iteration of the fan-out loop: with the broadcast queue empty
        the loop would block, and nothing changes; otherwise its head is
        removed and appended to the queue of every `clientsInfo` entry, so
        a session listed `k` times receives `k` copies. */
    method FanOutStep() returns (sent: Option<Response>)
      modifies this`messages, clientsInfo`responses
      ensures old(messages) == [] ==>
        && sent == None && messages == []
        && forall s | s in clientsInfo :: s.responses == old(s.responses)
      ensures old(messages) != [] ==>
        && sent == Some(old(messages)[0])
        && messages == old(messages)[1..]
        && forall s | s in clientsInfo ::
             s.responses == old(s.responses) + Repeat(old(messages)[0], Count(clientsInfo, s))
    {
      if messages == [] {
        return None;
      }
      var m := messages[0];
      messages := messages[1..];
      var i := 0;
      while i < |clientsInfo|
        invariant 0 <= i <= |clientsInfo|
        invariant messages == old(messages)[1..]
        invariant forall s | s in clientsInfo ::
          s.responses == old(s.responses) + Repeat(m, Count(clientsInfo[..i], s))
      {
        var c := clientsInfo[i];
        assert clientsInfo[..i + 1] == clientsInfo[..i] + [c];
        c.responses := c.responses + [m];
        i := i + 1;
      }
      assert clientsInfo[..i] == clientsInfo;
      sent := Some(m);
    }

    /** The fan-out loop run until the broadcast queue is empty: every
        registered session receives the pending broadcasts in the order they
        were submitted (each repeated as often as the session is listed). */
    method DrainBroadcasts()
      modifies this`messages, clientsInfo`responses
      ensures messages == []
      ensures forall s | s in clientsInfo ::
        s.responses == old(s.responses) + Stutter(old(messages), Count(clientsInfo, s))
      ensures forall s | s in clientsInfo && Count(clientsInfo, s) == 1 ::
        s.responses == old(s.responses) + old(messages)
    {
      ghost var pending := messages;
      ghost var k := 0;
      while messages != []
        invariant 0 <= k <= |pending|
        invariant messages == pending[k..]
        invariant forall s | s in clientsInfo ::
          s.responses == old(s.responses) + Stutter(pending[..k], Count(clientsInfo, s))
        decreases |messages|
      {
        ghost var done := pending[..k];
        var sent := FanOutStep();
        assert pending[..k + 1] == done + [pending[k]];
        forall s | s in clientsInfo
          ensures s.responses == old(s.responses) + Stutter(done + [pending[k]], Count(clientsInfo, s))
        {
          StutterSnoc(done, pending[k], Count(clientsInfo, s));
        }
        k := k + 1;
      }
      assert pending[..k] == pending;
      StutterOnce(pending);
    }

    /** One wake-up of the session's timer. It stays parked while the
        session is disconnected or its name is recorded as OFFLINE; once
        `now - lastMessage` reaches TIMEOUT it records OFFLINE and unlists
        the name; before that it changes nothing on the roster. Evaluating
        the wait condition on a connected session subscripts `clients`,
        which makes it a JSON object. */
    method TimerStep(info: Session, now: int) returns (outcome: TimerOutcome)
      modifies this`clients, this`onlineUsers, this`clientsIsObject
      ensures clientsIsObject == (old(clientsIsObject) || info.connected)
      ensures old(NullIsEmpty()) ==> NullIsEmpty()
      ensures outcome == Parked <==> !(info.connected && NotOffline(old(View()), info.userName))
      ensures outcome == Evicted <==>
        info.connected && NotOffline(old(View()), info.userName) && now - info.lastMessage >= TIMEOUT
      ensures View() == if outcome == Evicted then Evict(old(View()), info.userName) else old(View())
      ensures old(Consistent(View())) ==> Consistent(View())
    {
      if info.connected {
        clientsIsObject := true;
      }
      if !(info.connected && NotOffline(View(), info.userName)) {
        return Parked;
      }
      if now - info.lastMessage < TIMEOUT {
        return Waiting;
      }
      ghost var before := View();
      clients := clients[info.userName := Offline];
      onlineUsers := RemoveFirst(onlineUsers, info.userName);
      outcome := Evicted;
      if Consistent(before) {
        EvictPreservesConsistent(before, info.userName);
      }
    }

    /** What one parsed request does to the server and the sessions
        `sessions` (the session list before the request), with `userName`
        the name handed to SEND_MESSAGE, UPDATE_STATUS and UNREGISTER_USER:
        - the session is stamped with `now`;
        - UNREGISTER_USER on a `clients` that is still JSON null aborts the
          server and changes nothing else;
        - otherwise the roster becomes `RosterStep` of the old one, a fresh
          registration appends the session to the session list and names it,
          and unregistration removes it and marks it disconnected;
        - the broadcast queue grows by `Broadcast(req)`;
        - the caller's queue grows by `Reply` of the old roster, and a direct
          message to a known name is appended, with `userName` as its sender,
          to the queue of the first session of that name, whose index is
          `deliveredTo`; no other queue changes;
        - the registry invariant and `NullIsEmpty` are kept. */
    twostate predicate Handled(info: Session, req: Request, now: int, userName: string,
                               sessions: seq<Session>, aborted: bool, new deliveredTo: Option<nat>)
      reads this, info, sessions
    {
      var isNew := req.RegisterUserRequest? && req.username !in old(clients);
      && info.lastMessage == now
      && (aborted <==> req.UnregisterUserRequest? && !old(clientsIsObject))
      && clientsIsObject == (old(clientsIsObject) || isNew || req.UpdateStatusRequest?)
      && View() == (if aborted then old(View()) else RosterStep(old(View()), req, userName))
      && clientsInfo == (if isNew then sessions + [info]
                         else if req.UnregisterUserRequest? && !aborted then Without(sessions, info)
                         else sessions)
      && info.userName == (if isNew then req.username else old(info.userName))
      && info.connected == (if req.UnregisterUserRequest? && !aborted then false else old(info.connected))
      && messages == old(messages) + Broadcast(req)
      && (deliveredTo.Some? ==>
            && req.SendMessageRequest? && req.recipient != "" && req.recipient in old(clients)
            && deliveredTo.value < |sessions|
            && sessions[deliveredTo.value].userName == req.recipient
            && forall j | 0 <= j < deliveredTo.value :: sessions[j].userName != req.recipient)
      && (deliveredTo.None? && req.SendMessageRequest? && req.recipient != "" && req.recipient in old(clients) ==>
            forall j | 0 <= j < |sessions| :: sessions[j].userName != req.recipient)
      && info.responses == old(info.responses) + Reply(old(View()), req)
                           + (if deliveredTo.Some? && info == sessions[deliveredTo.value]
                              then [DirectMessage(req.content, userName)] else [])
      && (forall s | s in sessions && s != info ::
            s.responses == old(s.responses)
                           + (if deliveredTo.Some? && s == sessions[deliveredTo.value]
                              then [DirectMessage(req.content, userName)] else []))
      && (old(Consistent(View())) ==> Consistent(View()))
      && (old(NullIsEmpty()) ==> NullIsEmpty())
    }

    /** The REGISTER_USER case of the receive loop. */
    method ReceiveRegisterUser(info: Session, username: string, now: int, userName: string)
      returns (aborted: bool, deliveredTo: Option<nat>)
      modifies this`clients, this`onlineUsers, this`clientsInfo, this`messages, this`clientsIsObject
      modifies info`lastMessage, info`userName, info`responses, info`connected
      modifies clientsInfo`responses
      ensures Handled(info, RegisterUserRequest(username), now, userName, old(clientsInfo), aborted, deliveredTo)
    {
      Stamp(info, now);
      aborted, deliveredTo := false, None;
      var _ := Register(info, username);
    }

    /** The SEND_MESSAGE case: the message goes out with `userName` as its sender. */
    method ReceiveSendMessage(info: Session, content: string, recipient: string, now: int, userName: string)
      returns (aborted: bool, deliveredTo: Option<nat>)
      modifies this`clients, this`onlineUsers, this`clientsInfo, this`messages, this`clientsIsObject
      modifies info`lastMessage, info`userName, info`responses, info`connected
      modifies clientsInfo`responses
      ensures Handled(info, SendMessageRequest(content, recipient), now, userName, old(clientsInfo), aborted, deliveredTo)
    {
      Stamp(info, now);
      aborted, deliveredTo := false, None;
      deliveredTo := SendMessage(info, userName, content, recipient);
    }

    /** The GET_USERS case; the requested username is ignored. */
    method ReceiveGetUsers(info: Session, filter: string, now: int, userName: string)
      returns (aborted: bool, deliveredTo: Option<nat>)
      modifies this`clients, this`onlineUsers, this`clientsInfo, this`messages, this`clientsIsObject
      modifies info`lastMessage, info`userName, info`responses, info`connected
      modifies clientsInfo`responses
      ensures Handled(info, GetUsersRequest(filter), now, userName, old(clientsInfo), aborted, deliveredTo)
    {
      Stamp(info, now);
      aborted, deliveredTo := false, None;
      SendUsersList(info);
    }

    /** The UPDATE_STATUS case, applied to `userName`. */
    method ReceiveUpdateStatus(info: Session, newStatus: Status, now: int, userName: string)
      returns (aborted: bool, deliveredTo: Option<nat>)
      modifies this`clients, this`onlineUsers, this`clientsInfo, this`messages, this`clientsIsObject
      modifies info`lastMessage, info`userName, info`responses, info`connected
      modifies clientsInfo`responses
      ensures Handled(info, UpdateStatusRequest(newStatus), now, userName, old(clientsInfo), aborted, deliveredTo)
    {
      Stamp(info, now);
      aborted, deliveredTo := false, None;
      UpdateStatus(info, userName, newStatus);
    }

    /** The UNREGISTER_USER case, applied to `userName`. */
    method ReceiveUnregisterUser(info: Session, now: int, userName: string)
      returns (aborted: bool, deliveredTo: Option<nat>)
      modifies this`clients, this`onlineUsers, this`clientsInfo, this`messages, this`clientsIsObject
      modifies info`lastMessage, info`userName, info`responses, info`connected
      modifies clientsInfo`responses
      ensures Handled(info, UnregisterUserRequest, now, userName, old(clientsInfo), aborted, deliveredTo)
    {
      Stamp(info, now);
      aborted, deliveredTo := false, None;
      aborted := Unregister(info, userName);
    }

    /** The body of a connection's receive loop for one parsed request:
        stamp the arrival time, then run the handler the operation selects.
        Registration uses the requested name; SEND_MESSAGE, UPDATE_STATUS
        and UNREGISTER_USER are handed `userName`. An unknown operation
        changes nothing beyond the stamp. */
    method Dispatch(info: Session, req: Request, now: int, userName: string)
      returns (aborted: bool, deliveredTo: Option<nat>)
      modifies this`clients, this`onlineUsers, this`clientsInfo, this`messages, this`clientsIsObject
      modifies info`lastMessage, info`userName, info`responses, info`connected
      modifies clientsInfo`responses
      ensures Handled(info, req, now, userName, old(clientsInfo), aborted, deliveredTo)
    {
      match req {
        case RegisterUserRequest(username) =>
          aborted, deliveredTo := ReceiveRegisterUser(info, username, now, userName);
        case SendMessageRequest(content, recipient) =>
          aborted, deliveredTo := ReceiveSendMessage(info, content, recipient, now, userName);
        case GetUsersRequest(filter) =>
          aborted, deliveredTo := ReceiveGetUsers(info, filter, now, userName);
        case UpdateStatusRequest(newStatus) =>
          aborted, deliveredTo := ReceiveUpdateStatus(info, newStatus, now, userName);
        case UnregisterUserRequest =>
          aborted, deliveredTo := ReceiveUnregisterUser(info, now, userName);
        case UnknownRequest =>
          Stamp(info, now);
          aborted, deliveredTo := false, None;
      }
    }

    /** The receive loop as written: the handlers receive the loop's local
        `userName`, which is never assigned and so is always empty. */
    method HandleRequest(info: Session, req: Request, now: int)
      returns (aborted: bool, deliveredTo: Option<nat>)
      modifies this`clients, this`onlineUsers, this`clientsInfo, this`messages, this`clientsIsObject
      modifies info`lastMessage, info`userName, info`responses, info`connected
      modifies clientsInfo`responses
      ensures Handled(info, req, now, "", old(clientsInfo), aborted, deliveredTo)
    {
      aborted, deliveredTo := Dispatch(info, req, now, "");
    }

    /** The receive loop with handlers given the name the session
        registered under. */
    method HandleRequestIntended(info: Session, req: Request, now: int)
      returns (aborted: bool, deliveredTo: Option<nat>)
      modifies this`clients, this`onlineUsers, this`clientsInfo, this`messages, this`clientsIsObject
      modifies info`lastMessage, info`userName, info`responses, info`connected
      modifies clientsInfo`responses
      ensures Handled(info, req, now, old(info.userName), old(clientsInfo), aborted, deliveredTo)
    {
      aborted, deliveredTo := Dispatch(info, req, now, info.userName);
    }
  }

  /** As written, a user who registers as "alice" and then unregisters is
      still registered and still listed online. */
  method UnregisterAsWritten() returns (aliceStillOnline: bool)
    ensures aliceStillOnline
  {
    var server := new Server();
    var alice := new Session(0);
    var _, _ := server.HandleRequest(alice, RegisterUserRequest("alice"), 1);
    var _, _ := server.HandleRequest(alice, UnregisterUserRequest, 2);
    aliceStillOnline := "alice" in server.clients && server.clients["alice"] == Online
                        && "alice" in server.onlineUsers;
  }

  /** As written, "alice" going OFFLINE stays listed online, while the
      empty name is entered into the roster. */
  method GoOfflineAsWritten() returns (aliceStillOnline: bool, emptyNameEntered: bool)
    ensures aliceStillOnline && emptyNameEntered
  {
    var server := new Server();
    var alice := new Session(0);
    var _, _ := server.HandleRequest(alice, RegisterUserRequest("alice"), 1);
    var _, _ := server.HandleRequest(alice, UpdateStatusRequest(Offline), 2);
    aliceStillOnline := "alice" in server.onlineUsers && server.clients["alice"] == Online;
    emptyNameEntered := "" in server.clients;
  }

  /** On a fresh server, an UNREGISTER_USER that arrives before any
      registration or status update erases from a `clients` that is still
      JSON null, which aborts the server. */
  method UnregisterOnFreshServer() returns (aborted: bool)
    ensures aborted
  {
    var server := new Server();
    var bob := new Session(0);
    var delivered;
    aborted, delivered := server.HandleRequest(bob, UnregisterUserRequest, 1);
  }

  /** With the session's own name handed to the handlers, unregistering
      removes "alice" from the roster and from the session list. */
  method UnregisterIntended() returns (aliceGone: bool)
    ensures aliceGone
  {
    var server := new Server();
    var alice := new Session(0);
    var _, _ := server.HandleRequestIntended(alice, RegisterUserRequest("alice"), 1);
    assert server.clientsIsObject && alice.userName == "alice" && server.clientsInfo == [alice];
    var aborted, _ := server.HandleRequestIntended(alice, UnregisterUserRequest, 2);
    assert !aborted;
    aliceGone := "alice" !in server.clients && "alice" !in server.onlineUsers
                 && alice !in server.clientsInfo;
  }

  /** With the session's own name handed to the handlers, going OFFLINE
      unlists "alice" and enters no other name. */
  method GoOfflineIntended() returns (aliceOffline: bool, noOtherName: bool)
    ensures aliceOffline && noOtherName
  {
    var server := new Server();
    var alice := new Session(0);
    var _, _ := server.HandleRequestIntended(alice, RegisterUserRequest("alice"), 1);
    var _, _ := server.HandleRequestIntended(alice, UpdateStatusRequest(Offline), 2);
    aliceOffline := server.clients["alice"] == Offline && "alice" !in server.onlineUsers;
    noOtherName := server.clients.Keys == {"alice"} && server.onlineUsers == [];
  }
}
