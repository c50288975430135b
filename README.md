# Tile agent and cleanup gate — a Dafny model

This project models two parts of the tile-fleet control code.

- The node-side agent, class `Client` in `client/utils/client_com.py`
  (module `ClientCom`, file `client_com.dfy`). It covers:
  - how the client derives its identity from a hostname of the form `rpi-<ID>`;
  - its two endpoint strings and the default heartbeat interval;
  - the `running` flag set by `start` and cleared by `stop`;
  - the callback table that `on` fills;
  - the frame list that `send` builds;
  - one iteration of the `_run` event loop: first the heartbeat decision, then the messaging socket, then the sync socket;
  - the dispatch of one inbound frame list in `_handle_server_message`.
- The connectivity gate of `server/cleanup-clients.py`
  (module `CleanupClients`, file `cleanup_clients.dfy`). It covers:
  - the exits for a missing repository and for an empty `tiles` setting;
  - the defaults of the two flags;
  - the abort-or-proceed decision after the ping playbook;
  - the string of inactive tiles that the script prints;
  - the count comparison after the cleaning playbook.

`wrappers.dfy` holds the `Option` type both modules use and the `Result` type that `ClientCom` also uses.

The ZMQ sockets are abstract. `Client.outbox` is the sequence of multipart
messages sent on the messaging socket. Some things are inputs to the operations
instead of being modelled:

- the clock (`time.time()`);
- what each socket's poll and receive produced;
- whether a non-blocking send would block;
- whether a callback raised.

Frames are strings, because frames are assumed to be valid UTF-8, so encoding and
decoding are the identity. In the cleanup script, `get_target_hosts` and
`run_playbook` are inputs: a host list, and for each playbook the
space-separated string of hosts it reached and how many there were.

Details of the source that the model keeps:

- The hostname pattern is matched the way Python's `re.match(r"rpi-(.+)", h, re.IGNORECASE)` matches it.
  - The pattern letter `i` also accepts U+0130 and U+0131.
  - `.+` stops at the first newline.
  - So the socket identity `client_id` equals the stored `hostname` field exactly when the hostname has no newline (`ClientIdIsHostname`).
- A registered callback for `ping` replaces the built-in pong. The code checks the callback table before the built-ins.
- Replies to frames from the sync socket are sent on the messaging socket.
- `zmq.Again` on the messaging receive means `continue`. The sync socket is then not handled until the next iteration.
- The inactive-tile loop adds a separator only once something has been accumulated. If leading host names are empty, the result is `" ".join` of the inactive hosts without those leading empty names. For non-empty names it is exactly `" ".join` (`InactiveStringIsJoin`).
- When `test-connectivity` is false, `nr_active_tiles` stays 0. So `prev_nr_active_tiles` is 0, and the warning "Unable to connect to all tiles." after cleaning appears whenever the cleaning playbook reached any tile (`Cleanup`, `countChanged`).
- `sys.exit(-3)` is modelled as the value -3. A POSIX shell reports it as 253.

Controller-side tracking of commands and `server/utils/server_com.py` are not part of this model.

## Model

| member | source | states |
|---|---|---|
| `ClientCom.FirstLine` | client/utils/client_com.py:32 | the greedy `.+` run: the longest newline-free prefix, followed by a newline or the end of the input |
| `ClientCom.NodeId` | client/utils/client_com.py:31-37 | the regex matches iff the hostname starts with `rpi-` (case-insensitively) and a non-newline character follows; the captured ID is non-empty, newline-free, and a prefix of everything after the first four characters |
| `ClientCom.NodeIdExamples` | client/utils/client_com.py:32-37 | `rpi-a05` and `RPi-7` give IDs `a05` and `7`; `rpi-`, `tile-3` and `xrpi-3` are rejected |
| `ClientCom.Endpoint` | client/utils/client_com.py:26-27 | the endpoint is `tcp://`, the host, `:` and the port, and host and port can be read back from their positions |
| `ClientCom.EndpointsDifferOnlyInPort` | client/utils/client_com.py:26-27 | the messaging and sync endpoints share `tcp://<host>:` and are equal iff their ports are equal |
| `ClientCom.Configure` | client/utils/client_com.py:22-39 | fails with the hostname-mismatch error iff the hostname does not match; on success `hostname` is everything after the first four characters and `client_id` is the captured ID; missing host or port default to `""`; a missing interval defaults to 5 |
| `ClientCom.ClientIdIsHostname` | client/utils/client_com.py:38-39 | `client_id` is always a prefix of `hostname`, and equals it iff the hostname has no newline |
| `ClientCom.NewClient` | client/utils/client_com.py:14-62 | construction fails exactly when `Configure` fails; otherwise a fresh client holds the derived settings, is not running, and has no callbacks and an empty outbox |
| `ClientCom.Client.constructor` | client/utils/client_com.py:42-62 | initial state: not running, empty callback table, nothing sent |
| `ClientCom.Client.Start` | client/utils/client_com.py:71-75 | afterwards `running` is set; when it was already set nothing changes |
| `ClientCom.Client.Stop` | client/utils/client_com.py:89-93 | afterwards `running` is clear; when it was already clear nothing changes |
| `ClientCom.Client.On` | client/utils/client_com.py:111-113 | the table maps `command` to the new handler, overwriting any earlier one; every other entry is unchanged |
| `ClientCom.BuildFrames` | client/utils/client_com.py:128-132 | the frame list has one more frame than the payload; frame 0 is the message type; frame i+1 is payload i, encoded if `str` and passed through if `bytes` |
| `ClientCom.FramingIsUnique` | client/utils/client_com.py:128-134 | the framing rule determines the frame list completely |
| `ClientCom.Client.Send` | client/utils/client_com.py:128-134 | exactly one message is appended to the outbox, framed as above; earlier messages are untouched |
| `ClientCom.Client.TrySend` | client/utils/client_com.py:214-218 | a non-blocking send appends the message unless it would block, in which case nothing is sent |
| `ClientCom.Dispatch` | client/utils/client_com.py:196-224 | an empty frame list is ignored; a registered command, `ping` included, is handled by its callback with the command and the decoded remaining frames; an unregistered `ping` is answered; any other unregistered command is unknown |
| `ClientCom.Reply` | client/utils/client_com.py:212-224 | a built-in reply exists iff the outcome is pong or unknown command, `[pong, ok]` for pong and `[error, unknown_command]` for an unknown command; there is none after a callback ran or raised |
| `ClientCom.Deliver` | client/utils/client_com.py:214-224 | at most one message is sent, only when there is a reply and the send would not block |
| `ClientCom.DispatchReaction` | client/utils/client_com.py:196-224 | what each inbound frame list sends: nothing when empty or registered, `[pong, ok]` for an unregistered `ping`, otherwise `[error, unknown_command]`; nothing at all if the send would block |
| `ClientCom.SendThenDispatch` | client/utils/client_com.py:201-207 | a message framed by `send` is dispatched to the handler of its type, with the encoded payload frames as arguments in order |
| `ClientCom.RegisterThenDispatch` | client/utils/client_com.py:111-113 | after `on(command, f)`, frames for `command` invoke `f`; frames for any other command are dispatched as before |
| `ClientCom.Client.HandleServerMessage` | client/utils/client_com.py:196-224 | returns the dispatch outcome and appends exactly the delivered reply, if any, to the outbox |
| `ClientCom.Client.Receive` | client/utils/client_com.py:164-186 | frames that arrived are dispatched through `_handle_server_message` and their reply, if any, is appended; no event or `zmq.Again` handles and sends nothing |
| `ClientCom.Step` | client/utils/client_com.py:145-186 | a heartbeat is attempted iff `now - last_heartbeat >= heartbeat_interval`; `last_heartbeat` becomes `now` whenever one is attempted, even if the send would block; `zmq.Again` on the messaging socket handles nothing this iteration |
| `ClientCom.HeartbeatSentIffDue` | client/utils/client_com.py:148-155 | the heartbeat is among an iteration's sends iff it was due and its send would not block; it then goes first; an iteration handles at most two frame lists and sends at most three messages |
| `ClientCom.DeliveredReplyIsNotHeartbeat` | client/utils/client_com.py:212-224 | no reply to an inbound frame list is a heartbeat |
| `ClientCom.StepHandlesMessagingThenSync` | client/utils/client_com.py:164-186 | when both sockets deliver, the messaging frames are handled before the sync frames through the same dispatcher, and both replies go out on the messaging socket in that order |
| `ClientCom.FirstIterationAttemptsHeartbeat` | client/utils/client_com.py:143-155 | with `last_heartbeat` starting at 0, the first iteration attempts a heartbeat, sends it first unless the send would block, and sets `last_heartbeat` to `now` |
| `ClientCom.HeartbeatAttemptsSpaced` | client/utils/client_com.py:143-155 | over any sequence of iterations, attempted heartbeats are at least one interval apart, and the first is at least one interval after the initial `last_heartbeat` |
| `ClientCom.StepAttemptsAreHeartbeatAttempts` | client/utils/client_com.py:143-155 | threading one iteration's `last_heartbeat` into the next, the loop attempts heartbeats at exactly the readings `HeartbeatAttempts` gives, so its attempts are at least one interval apart |
| `ClientCom.EventLoop.constructor` | client/utils/client_com.py:143 | `last_heartbeat` starts at 0 |
| `ClientCom.EventLoop.Beat` | client/utils/client_com.py:148-155 | when a heartbeat is due, `[heartbeat, alive]` is appended unless the send would block, and `last_heartbeat` becomes `now` in both cases; otherwise nothing changes |
| `ClientCom.EventLoop.Iterate` | client/utils/client_com.py:145-186 | one pass of the loop while running: the new `last_heartbeat`, the outcomes handled and the messages appended to the outbox are exactly those of `Step` |
| `CleanupClients.Split` | server/cleanup-clients.py:58 | `str.split(' ')` gives at least one part, no part holds a space, and joining the parts with spaces gives back the input |
| `CleanupClients.SplitJoin` | server/cleanup-clients.py:58-66 | splitting a space-joined list of space-free names gives back the list |
| `CleanupClients.Inactive` | server/cleanup-clients.py:62-63 | a host is in the inactive list iff it is in the host list and not among the active tokens; the list keeps the hosts' original order |
| `CleanupClients.DropLeadingEmpty` | server/cleanup-clients.py:64-65 | the result is a suffix of the input that starts with a non-empty name, and everything dropped was empty |
| `CleanupClients.InactiveList` | server/cleanup-clients.py:61-66 | the accumulating loop produces the inactive hosts, space-joined, after leading empty names are dropped |
| `CleanupClients.InactiveStringIsJoin` | server/cleanup-clients.py:61-66 | for non-empty host names the printed list is exactly `" ".join` of the inactive hosts in their original order |
| `CleanupClients.InactiveStringEmpty` | server/cleanup-clients.py:61-66 | the printed list is empty iff every inactive host has an empty name, so with real host names iff every host is active |
| `CleanupClients.JoinSingleSpaced` | server/cleanup-clients.py:64-66 | joining non-empty, space-free names with spaces gives no leading or trailing space and no double space |
| `CleanupClients.InactiveStringRoundTrip` | server/cleanup-clients.py:58-66 | for non-empty, space-free host names the printed list is single-spaced and splits back into exactly the inactive hosts |
| `CleanupClients.ExitCode` | server/cleanup-clients.py:24-70 | -1 for a missing repository, -2 for no tiles, -3 for an abort, and 0 exactly when the script runs to its end |
| `CleanupClients.Cleanup` | server/cleanup-clients.py:10-91 | an empty or missing `tiles` exits -2 before any playbook runs; both flags default to true; it aborts iff connectivity is tested, the ping count differs from the host count, and halting is on; an abort reports the active string and the inactive list and runs only the ping playbook; otherwise it cleans the pinged tiles, or all the tiles when untested; a changed count after cleaning only sets a warning and never exits |

## Left out

- ZMQ transport: contexts, sockets, identities, socket options, `connect`, `Poller`, and closing sockets in `stop` and at the end of `_run` (client/utils/client_com.py:47-59, 78-82, 96-104, 139-141, 188-193). This is I/O. The model keeps only the outbox and the per-iteration inputs.
- `ZMQError` on poll or receive, which ends the loop with `break` (client/utils/client_com.py:159-162, 169-171, 181-183). This is a transport failure and is not modelled.
- Threads and waiting: `threading.Thread` in `start`, `join`, and `stop` racing with a running loop (client/utils/client_com.py:84-87, 106-109). `EventLoop.Iterate` models one pass while `running` is set.
- YAML loading and logging (client/utils/client_com.py:15-20; server/cleanup-clients.py:7, 18-22, 34, 39, 54, 56, 59, 67, 70, 74-75, 89-91). Settings are passed in as values:
  - server settings are given in their `str` form;
  - `heartbeat_interval` is a real number;
  - `tiles` is a string and the two flags are booleans;
  - YAML values of other types, and a `server` entry that is present but null, are not modelled.
- Callback bodies: a registered callback is an opaque `Handler`. Whatever it does itself is not modelled: sending ACK/DONE through `send`, changing the callback table, stopping the client. Only its invocation and whether it raised are recorded. Exceptions outside `Exception`, which the handler does not catch, are left out.
- Non-UTF-8 frames: `decode` at client/utils/client_com.py:201-202 would raise outside any `try`. Frames are assumed valid.
- Clock values: `time.time()` is a real number without floating-point rounding.
- `FirstIterationAttemptsHeartbeat`: requires the first clock reading to be at least the heartbeat interval. That is true of any Unix time with a realistic interval, but the source does not check it.
- `config.check_tile_management_repo`, `get_target_hosts` and `run_playbook` (server/cleanup-clients.py:10, 33, 42-51, 78-86). These are filesystem and Ansible calls. Their results are the inputs `repoPresent`, `hostList`, `ping` and `clean`.
- `server/utils/usrp_control.py`, `server/run_server.py` and `server/update-experiment.py`. These print, or wrap code that is not part of this model (`server_com`, `ansible_utils`). They have no logic to verify, and the controller-side ACK/DONE engine they would use is not in the source.
- `client/uhd-receive.py`, `client/client-testing.py`, `client/utils/client_logger.py`, `server/config.py`, `client/utils/constants.py` and `client/utils/exit_codes.py`. These are radio hardware, floating-point signal math, logging setup, filesystem paths and constants.
