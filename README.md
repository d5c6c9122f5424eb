# Chat server session registry and message router, in Dafny

This project models the shared state and request handlers of a TCP chat
server (`server.cpp`). Clients register a username, change their
presence status, ask for the roster, send direct or broadcast messages
and unregister. The server keeps four pieces of global state:

- `clients`: a map from username to status (ONLINE, BUSY, OFFLINE);
- `onlineUsers`: the ordered list of names the roster reply is built from;
- `clientsInfo`: the ordered list of registered sessions; each session has a
  `userName`, a `lastMessage` time and a FIFO `responses` queue;
- `messages`: the global broadcast queue, which a fan-out loop copies into
  every registered session's queue.

Each handler is modelled as one atomic step on a `Server` object
(`ChatServer.Server`). The sessions are `ChatServer.Session` objects whose
fields the handlers update in place. Time is an integer number of seconds.
`TIMEOUT` is 5.

Files:

- `protocol.dfy` (module `ChatProtocol`): the decoded requests and responses,
  with the exact reply texts the server uses.
- `registry.dfy` (module `Registry`): the roster (`clients`, `onlineUsers`)
  as a value, and each handler's effect on it as a function. The lemmas prove
  what each handler does to the roster. They also prove the registry invariant
  `Consistent`: `onlineUsers` has no duplicates and holds exactly the names
  whose status is not OFFLINE. Registration, status update, unregistration and
  timer eviction all preserve it.
- `server.dfy` (module `ChatServer`): the `Session` and `Server` classes.
  - Each handler method states its new state in terms of the old one.
  - The roster part is stated through the `Registry` functions.
  - Each roster-changing method also promises to keep `Consistent`.
  - The fan-out loop and the recipient search are methods with loops and
    invariants.
  - The receive loop's `switch` is a dispatcher with one method per case. Its
    contract is the two-state predicate `Server.Handled`. It states the new
    roster, the session list, the session's own fields, the broadcast queue,
    and every session's queue. The caller's reply is given by `Reply`, and a
    direct message goes to its recipient with the name the loop supplies as
    its sender.
  - `clients` starts as JSON null and becomes a JSON object on its first
    subscript write. The field `clientsIsObject` tracks this, because erasing
    from a null `clients` throws an uncaught type error and ends the server.
  - Five scenario methods exhibit the findings below and the abort.

The model follows the code, including where a client might expect
otherwise:

- A duplicate registration gets no reply at all, not a BAD_REQUEST.
- A direct message to a known name is delivered without any offline check. The
  sender gets no reply.
- A broadcast puts only a bare OK "Message sent." on the broadcast queue,
  with no message payload. The fan-out copies it to every registered session,
  the sender included.
- The roster request ignores its username filter. It always returns
  `onlineUsers`.
- Unregistration deletes the entry outright.
- No code in `server.cpp` ever takes anything off a session's `responses`
  queue. So the queues only grow, and each step appends at the tail.

## Model

| member | source | states |
|---|---|---|
| `ChatServer.Session.constructor` | server.cpp:350-355 | A new connection has an empty name, an empty queue, is connected, and its last activity is the accept time. |
| `ChatServer.Server.constructor` | server.cpp:35-43 | The server starts with no clients, no online users, no sessions and no broadcasts. |
| `ChatServer.Server.Stamp` | server.cpp:224-227 | A parsed request sets the session's `lastMessage` to the current time and changes nothing else. |
| `ChatServer.Server.Register` | server.cpp:229-264 | An already-known name changes no state and queues nothing. Otherwise the name maps to ONLINE and is appended once to `onlineUsers`. The session takes the name and is appended to `clientsInfo`. Exactly one OK REGISTER_USER reply is appended to its queue. The registry invariant is kept. |
| `ChatServer.Server.UpdateStatus` | server.cpp:168-204 | The roster becomes `Registry.UpdateStatus` of the old one, and one OK UPDATE_STATUS reply is appended to the caller's queue. The registry invariant is kept. |
| `ChatServer.Server.Unregister` | server.cpp:277-300 | While `clients` is still JSON null, the erase aborts the server and nothing changes (and then `clients` had no entry). Otherwise the name is erased from `clients` and removed from `onlineUsers`, every occurrence of the session leaves `clientsInfo`, and the session is marked disconnected. No reply is queued. The invariant is kept. |
| `ChatServer.Server.FindRecipient` | server.cpp:128-136 | Returns the index of the first session in `clientsInfo` whose name is the recipient, or none exactly when no session has that name. |
| `ChatServer.Server.SendMessage` | server.cpp:90-139 | Empty recipient: one bare OK is appended to the broadcast queue and no session queue changes. Unknown recipient: exactly one BAD_REQUEST "User not found." goes to the sender. Known recipient: one OK carrying content and sender goes to the first session with that name, with no status check. No other queue changes in any case. |
| `ChatServer.Server.SendUsersList` | server.cpp:141-166 | Appends one OK GET_USERS reply listing `onlineUsers`, in order, to the caller's queue. |
| `ChatServer.Server.FanOutStep` | server.cpp:72-85 | With an empty broadcast queue nothing changes. Otherwise the head is removed and appended to every `clientsInfo` queue, once per listing of that session. |
| `ChatServer.Server.DrainBroadcasts` | server.cpp:71-88 | Running the fan-out until the broadcast queue is empty appends the pending broadcasts to each singly-listed session's queue in submission order. A session listed k times gets each broadcast k times, still in order. |
| `ChatServer.Server.TimerStep` | server.cpp:45-69 | Parked when the session is disconnected or recorded OFFLINE. Otherwise, once `now - lastMessage >= TIMEOUT`, the name is set OFFLINE and unlisted; before that the roster does not change. Evaluating the wait condition on a connected session makes `clients` a JSON object. The invariant is kept. |
| `ChatServer.Server.ReceiveRegisterUser` | server.cpp:229-264 | The REGISTER_USER case satisfies `Handled`: stamp, roster, session list, name and one acknowledgement when the name is new, nothing else queued. |
| `ChatServer.Server.ReceiveSendMessage` | server.cpp:265-268 | The SEND_MESSAGE case satisfies `Handled`: a broadcast reaches only the broadcast queue. An unknown recipient gets the caller one error. A known one gets the message, with the supplied name as sender, on the first session of that name. |
| `ChatServer.Server.ReceiveGetUsers` | server.cpp:269-272 | The GET_USERS case satisfies `Handled`: one roster reply listing the old `onlineUsers` for the caller, and nothing else changes. |
| `ChatServer.Server.ReceiveUpdateStatus` | server.cpp:273-276 | The UPDATE_STATUS case satisfies `Handled` for the supplied name: the roster update, one acknowledgement, and `clients` now a JSON object. |
| `ChatServer.Server.ReceiveUnregisterUser` | server.cpp:277-300 | The UNREGISTER_USER case satisfies `Handled` for the supplied name: an abort on a null `clients`, otherwise erasure, removal from the session list and disconnection, with nothing queued. |
| `ChatServer.Server.Dispatch` | server.cpp:224-304 | Any parsed request satisfies `Handled`. The session is stamped. The roster becomes `Registry.RosterStep` of the old one, unless an unregistration aborts. Only a fresh registration adds and names the session, and only unregistration removes it and disconnects it. The broadcast queue grows by `Broadcast(req)`. The caller's queue grows by `Reply` of the old roster. A direct message goes to the first session of its recipient's name, with the supplied name as sender. No other queue changes. The registry invariant is kept. |
| `ChatServer.Server.HandleRequest` | server.cpp:209-280 | As written: `Handled` with the empty name. Status update and unregistration act on the empty name, and direct messages carry the empty sender, because the handlers receive the never-assigned local `userName`. The invariant is still kept. |
| `ChatServer.Server.HandleRequestIntended` | server.cpp:229-300 | `Handled` with the session's own name passed on: status update and unregistration act on the name the session registered under, and direct messages carry it as sender. |
| `ChatServer.UnregisterAsWritten` | server.cpp:277-288 | As written, "alice" registers and then unregisters, yet stays registered as ONLINE and listed. |
| `ChatServer.GoOfflineAsWritten` | server.cpp:273-275 | As written, "alice" asks to go OFFLINE, yet stays ONLINE and listed, while the empty name enters `clients`. |
| `ChatServer.UnregisterOnFreshServer` | server.cpp:277-281 | On a fresh server, UNREGISTER_USER before any registration or status update aborts the server. |
| `ChatServer.UnregisterIntended` | server.cpp:277-295 | With the session's own name, unregistering removes "alice" from `clients`, `onlineUsers` and `clientsInfo`. |
| `ChatServer.GoOfflineIntended` | server.cpp:176-192 | With the session's own name, going OFFLINE records OFFLINE for "alice", unlists her, and adds no other name. |
| `ChatServer.Without` | server.cpp:291-294 | Removing a session from `clientsInfo` drops every occurrence of it, adds no session, and keeps every other session listed exactly as often as before. Order is stated by `WithoutAppend`. |
| `ChatServer.WithoutAppend` | server.cpp:291-294 | Removal works piece by piece over a concatenation, so the sessions that remain keep their relative order. |
| `ChatServer.ReplyOrBroadcast` | server.cpp:90-264 | A request yields at most one response for the caller or the broadcast queue, so a request that reaches the broadcast queue queues nothing for the caller. |
| `ChatServer.StutterOnce` | server.cpp:81-85 | A queue listed once in `clientsInfo` receives fanned-out broadcasts exactly as submitted. |
| `Registry.RemoveFirst` | server.cpp:182-185 | Find-and-erase keeps every other name and adds none. It shortens the list by exactly one when the name is present, and changes nothing when it is absent. |
| `Registry.RemoveFirstAt` | server.cpp:182-185 | When the first occurrence of the name is at index i, find-and-erase leaves exactly the elements before and after it, in their order. |
| `Registry.Register` | server.cpp:230-241 | A name that is already a key leaves the roster unchanged, on any roster. Registration adds the name as a key if missing and leaves every existing entry as it was. It keeps the old list as a prefix of `onlineUsers` and appends at most one name. |
| `Registry.UpdateStatus` | server.cpp:176-192 | The name becomes a key with the new status. Any status other than OFFLINE leaves it listed. No other name's listing changes. |
| `Registry.Unregister` | server.cpp:279-288 | The name's key is removed. No other name's listing changes, and the list does not grow. |
| `Registry.Evict` | server.cpp:55-63 | The name becomes a key that is not online. No other name's listing changes. |
| `Registry.NotOfflineListed` | server.cpp:50 | Under the registry invariant the timer's wait condition holds, so the timer stops waiting, exactly while the name is listed online or has no entry in `clients`. It waits while the name is recorded OFFLINE. |
| `Registry.RosterStep` | server.cpp:229-304 | A request changes at most one roster name: the requested one for registration, otherwise the supplied one. Every other name keeps its entry and its listing. |
| `Registry.RemoveFirstUnique` | server.cpp:60-63 | On a list without duplicates, find-and-erase leaves the name absent, keeps every other name, and creates no duplicate. |
| `Registry.RegisterEffect` | server.cpp:230-241 | A known name leaves the roster unchanged. Under the invariant, a fresh name becomes online and is appended at the end. The list grows by exactly one and still has no duplicates, so the name is listed once. |
| `Registry.UpdateStatusEffect` | server.cpp:176-192 | `clients[name]` is set to the new status, created if missing, and no other entry changes. The name is listed exactly when the status is not OFFLINE; other names are unaffected. An already-listed name is not appended again, and no duplicate is ever created. |
| `Registry.UnregisterEffect` | server.cpp:279-288 | The name loses its entry and its listing; every other entry and listing is kept, without duplicates. |
| `Registry.EvictEffect` | server.cpp:55-63 | The name is set OFFLINE and unlisted; every other listing is kept, without duplicates. |
| `Registry.RegisterPreservesConsistent` | server.cpp:230-241 | Registration preserves the registry invariant. |
| `Registry.UpdateStatusPreservesConsistent` | server.cpp:176-192 | A status update preserves the registry invariant, for every status and every name, known or not. |
| `Registry.UnregisterPreservesConsistent` | server.cpp:279-288 | Unregistration preserves the registry invariant. |
| `Registry.EvictPreservesConsistent` | server.cpp:52-63 | Timer eviction preserves the registry invariant. |
| `Registry.RosterStepPreservesConsistent` | server.cpp:229-300 | Every parsed request keeps the registry invariant, whatever name the dispatcher hands to the status and unregistration handlers. |
| `Registry.RosterIsOnlineUsers` | server.cpp:154-160 | Under the invariant, the roster reply lists each name at most once, and lists exactly the names that are not OFFLINE. |

## Left out

- Sockets, `recv`, protobuf parsing, `main`'s accept loop and thread creation are not modelled: they are I/O and foreign calls. A request that fails to parse is skipped before any state changes. The model starts from an already-parsed request.
- Mutexes and condition variables are not modelled, and neither are the races between the separately locked pieces of a handler, because each handler runs as one atomic step.
- `difftime` on `double` seconds becomes integer seconds, and the clock becomes a `now` parameter.
- Logging and the dead `status = &newstatus` write-back in `updateStatus` have no effect on state and are not modelled. Registration always records ONLINE, because the loop's local `status` never changes.
- TimerStep: when the session's name has no entry in `clients`, the source's wait condition `clients[info->userName]["status"]` creates an entry whose status is null. The model reads a missing entry as "not OFFLINE", as that null compares. It does not model the null entry left behind when the timer then does not fire. In the source that entry `{"status": null}` compares unequal to OFFLINE while the name is not in `onlineUsers`, so the registry invariant is broken until an eviction. `clients.find` also sees the key (server.cpp:106, 230): a later registration of the name is refused and a direct message to it passes the not-found check. This is reachable as written: a session registers as "", another session's UNREGISTER_USER erases "" (server.cpp:280), and the first session's timer then evaluates server.cpp:50.
- TimerStep can be applied to any session. The source starts a timer only for a session whose registration succeeded, and starts a second one if that session registers again.
- A connection that closes without UNREGISTER_USER marks its session disconnected and frees it while it is still listed in `clientsInfo`. This use-after-free teardown is not modelled.
- A timer-thread creation failure is only logged, so it is not modelled.
- After an aborted unregistration the process is gone; the model returns `aborted` and models no later step.
- `onlineUsers` is also a JSON document that starts as null. Finding, iterating and appending on a null `onlineUsers` behave as on an empty list, so the model uses a plain sequence.
- The numeric values of the status enum come from `chat.proto`, which is not part of this model. A status update carries the status value that the decoder returns for it, including the default a missing field yields.
- `src/sendFunction.cpp`, `src/sendFunction.h`, `client.cpp`, `tests/test.cpp` and `constants.h` are not modelled: the first two are send/receive wrappers, `client.cpp` is a demo client, and `tests/test.cpp` is a network driver with no assertions. `constants.h` holds only constants the core does not use.

## Findings

| source | as written | input that shows it | evidently intended | confidence | as-written member | corrected member |
|---|---|---|---|---|---|---|
| server.cpp:209 | UNREGISTER_USER erases the local `userName`, which is never assigned and so is always empty | register "alice", then send UNREGISTER_USER: "alice" stays in `clients` as ONLINE and in `onlineUsers` | erase the name the session registered under (`info->userName`, set at server.cpp:234) | high, not executed | `ChatServer.UnregisterAsWritten` | `ChatServer.UnregisterIntended` |
| server.cpp:274 | UPDATE_STATUS is handed the same empty local `userName` | register "alice", then send UPDATE_STATUS OFFLINE: "alice" stays ONLINE and listed, and the empty name is entered into `clients` | update the session's own name | high, not executed | `ChatServer.GoOfflineAsWritten` | `ChatServer.GoOfflineIntended` |

The same empty name is also passed as the sender of direct messages
(server.cpp:266). `ChatServer.Server.Dispatch` takes that name as a
parameter. `HandleRequest` supplies the empty name, as the source does, so
its contract delivers direct messages with an empty sender;
`HandleRequestIntended` supplies the session's own name.
