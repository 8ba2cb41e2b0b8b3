# Verified models of rdma-core's protocol, codec and graph code

This project models the parts of `rdma-core-51mlnx1` that keep state, move bits or walk
graphs, and proves what they are for. Code that updates things in place is modelled by
classes, arrays and loops; each such method is proved against a function or predicate on
values, and the theorems are about those.

| file | models |
|---|---|
| `Addr.dfy`, `PortTable.dfy`, `PortList.dfy` | the port mapper daemon's addresses and its table of mapped ports, on values and as a list of reference-counted objects |
| `Trackers.dfy`, `WakeUp.dfy` | the list of map request trackers, its timer, and the wake-up protocol between posters and the timer thread |
| `Daemon.dfy`, `Network.dfy`, `Handshake.dfy`, `Progress.dfy`, `Collision.dfy`, `WildcardQuery.dfy` | one daemon's message handlers, any number of daemons on a lossy, duplicating, reordering network, what every run of them guarantees, what every message and timer pass gets done, and exactly when the handshake is in order peer by peer |
| `WireCodec.dfy` | the wire form of the port mapper's messages |
| `Bits.dfy`, `MadFields.dfy`, `MadLaws.dfy`, `MadWide.dfy`, `MadEncode.dfy` | the MAD field codec bit by bit, its laws, its 64-bit and array forms, and the MAD header encoder |
| `PerfCounters.dfy` | saturating aggregation of port counters, decoded and encoded by that codec |
| `Bitmap.dfy` | ccan bitmaps as sets |
| `Ring.dfy` | ccan's intrusive ring and its consistency check |
| `LibGraph.dfy` | the pruning of the static library graph |
| `Guids.dfy`, `McPath.dfy` | the breadth-first multicast path search |

## What the code does that its documentation does not say

- `check_iwpm_ip_addr` is documented to reject foreign addresses but returns 0 whenever the
  interface list can be read. Whether a local address is accepted is therefore one boolean.
- `process_iwpm_msg` ignores the result of `parse_iwpm_msg`. The network model delivers
  messages that parse; `WireCodec` says exactly which do.
- The table entry of QP1Dropped (`libibmad/fields.c:1006`) lacks the offset normalisation and
  names the bits of VL15Dropped; `Qp1Misread` and `Qp1ReportedIff` say what follows.
- A field whose leading and trailing bits add up to a byte would be written one byte too long
  (`SetExactIff`, `GetExactIff`). No entry of the static field table is of that kind. A value
  too large for its field can spill into the rest of the last byte (`SetValueIff`). By their
  offsets and widths the entries that can spill are those at lines 79, 234, 321, 391, 399,
  476, 477 and 900 of `libibmad/fields.c`; the table as a whole is not part of the model.
- A search that starts at an adapter one hop away can record nodes at level 63, one past the
  63 lists that the search declares; from every other start it never does (`BoundsIff`).
- A wildcard address matches mappings of both families. A question about 0.0.0.0 that is
  answered from an IPv6 mapping reports 0.0.0.0 with the mapped port, not the mapped address
  (`ForeignFamily`); `Agreement` says exactly when the whole mapped address is reported.
- A query from a wildcard address is served by any mapping on its port, and its messages carry
  that address in the family of the address asked about: of `::`, the flow information stands
  where an IPv4 address would. A result then names the mapping so found (`OtherLocal`); in all
  other cases it names the address that was asked from (`OwnSide`).
- The daemon matches handshake messages by association handle and local address but not by
  peer. `HandshakeOrder` holds for all runs. That it is the tracker's own peer whose client was
  told holds exactly when no two hosts may ask one daemon with the same handle
  (`PeerOrderIff`); whenever two may, `HandlesCollide` has a run in which it fails.
- `compute_graph` walks the graph without marking nodes and discards from sets that it may be
  walking. On a cyclic graph the recursion need not end, and on two libraries that need each other the
  walk fails on a set that changed; cyclic graphs are outside the model.

## Model

| member | source | states |
|---|---|---|
| `Network.Agreement` | rdma-core-51mlnx1/iwpmd/iwarp_pm_server.c:641-797 | in every run, a success told to a client for a remote address goes back to an earlier moment, after the query was made, at which the asked daemon listed a mapping that matches the address; reported is the asked IP address with the mapped port for a wildcard mapping, and for any other the whole mapped address if and only if the question is of the mapping's family, as every question but that about a wildcard is |
| `Network.ForeignFamily` | rdma-core-51mlnx1/iwpmd/iwarp_pm_server.c:665-673 | a question about 0.0.0.0 matches an IPv6 mapping on its port and is answered with 0.0.0.0 |
| `Network.RejectGrounded` | rdma-core-51mlnx1/iwpmd/iwarp_pm_server.c:656-664 | in every run, a reject told to a client goes back to an earlier moment, after the query was made, at which the asked daemon listed no mapping that matches the address asked about |
| `Network.OwnSide` | rdma-core-51mlnx1/iwpmd/iwarp_pm_server.c:775-778 | in every run, a result told to a client, success or reject, names as local address that from which the query was made if and only if that is no wildcard, and as its mapped address that of the mapping which the host listed for it when it told; a wildcard gets a result only if it is of another family than the address asked about |
| `WildcardQuery.OtherLocal` | rdma-core-51mlnx1/iwpmd/iwarp_pm_server.c:484-489 | a run in which such a wildcard gets a success that names another local address |
| `Network.PeerSide` | rdma-core-51mlnx1/iwpmd/iwarp_pm_server.c:711-716 | in every run, what the accepting side tells its client about a connection goes back to a query asked of it: its own side is a mapping it listed since that matches the question, and the remote addresses are those of the query and of the mapping that served it, each if and only if it is of the family of the question |
| `Network.RunInv` | rdma-core-51mlnx1/iwpmd/iwarp_pm_server.c:419-883 | in every reachable world each request and reject belongs to a query that was asked of that peer and carries its addresses, each accept and success also to a mapping that peer has listed since the query was made, and each acknowledgement to a success told to the client; so do the trackers and what handlers have left to do |
| `Handshake.AtMostOnce` | rdma-core-51mlnx1/iwpmd/iwarp_pm_helper.c:125-160 | under any duplication and reordering, and with the timer running at any moment, also in the middle of a handler, a client gets at most one result, success or reject, per query |
| `Handshake.DuplicateAccept` | rdma-core-51mlnx1/iwpmd/iwarp_pm_server.c:758-793 | in every reachable world, while a query's acknowledgement tracker lives, another accept for it only renews that tracker and sends the acknowledgement again |
| `Handshake.HandshakeOrder` | rdma-core-51mlnx1/iwpmd/iwarp_pm_server.c:767-883 | in every run, a completed accept tracker means that the client of a host that asked this daemon with that handle has already been told of the success |
| `Handshake.HandshakeOrderPeer` | rdma-core-51mlnx1/iwpmd/iwarp_pm_server.c:767-883 | if no two hosts asked this daemon with one handle, it is the client of the peer that the tracker's accept goes to |
| `Progress.QuerySends` | rdma-core-51mlnx1/iwpmd/iwarp_pm_server.c:448-519 | in every run, a query that some listed mapping can serve, or whose address is free and gets one, is tracked for ten seconds and sent to the peer |
| `Progress.RequestRefused` | rdma-core-51mlnx1/iwpmd/iwarp_pm_server.c:656-664 | a request that no listed mapping matches is rejected, and that is all |
| `Progress.RequestAccepted` | rdma-core-51mlnx1/iwpmd/iwarp_pm_server.c:665-717 | any other is accepted with the address of a mapping that matches, tracked for ten seconds and reported, unless an accept of it is tracked already |
| `Progress.ResultTold` | rdma-core-51mlnx1/iwpmd/iwarp_pm_server.c:751-856 | in every run, an accept or reject that comes while its query is open and its mapping listed closes the query and gives a client that can be reached exactly that result, with all its addresses |
| `Progress.AckCloses` | rdma-core-51mlnx1/iwpmd/iwarp_pm_server.c:862-883 | an acknowledgement closes the first accept tracker of its handle and mapped address, if a listed mapping matches that address |
| `Progress.AckIgnored` | rdma-core-51mlnx1/iwpmd/iwarp_pm_server.c:862-883 | without such a mapping, or without such a tracker, it does nothing |
| `Progress.PassSends` | rdma-core-51mlnx1/iwpmd/iwarp_pm_server.c:116-139 | one pass of the timer sends exactly the messages of the queries and accepts listed for at least a second and not timed out, and tells no client anything |
| `Daemon.Process.Query` | rdma-core-51mlnx1/iwpmd/iwarp_pm_server.c:419-532 | the in-place handler has exactly the effect, on table, trackers, queued messages and notices, that the network model gives it, for every failure of an allocation, socket or netlink call |
| `Daemon.Process.WireRequest` | rdma-core-51mlnx1/iwpmd/iwarp_pm_server.c:641-717 | the same for a request when the timer does not come between: a reject, a silent duplicate, or an accept with its tracker and notice |
| `Daemon.Process.Accept` | rdma-core-51mlnx1/iwpmd/iwarp_pm_server.c:665-705 | the part of it before the tracker is listed, and what is then left to do, as the network model gives them |
| `Daemon.Process.WireAccept` | rdma-core-51mlnx1/iwpmd/iwarp_pm_server.c:736-797 | the same for an accept when the timer does not come between: only the first one reports a result, and its acknowledgement tracker goes in front of the query |
| `Daemon.Process.Conclude` | rdma-core-51mlnx1/iwpmd/iwarp_pm_server.c:758-789 | the part of it before the tracker is listed, and what is then left to do, as the network model gives them |
| `Daemon.Process.WireReject` | rdma-core-51mlnx1/iwpmd/iwarp_pm_server.c:807-856 | the same for a reject |
| `Daemon.Process.WireAck` | rdma-core-51mlnx1/iwpmd/iwarp_pm_server.c:862-883 | the same for an acknowledgement, which completes the matching accept tracker and nothing else |
| `Daemon.Process.Second` | rdma-core-51mlnx1/iwpmd/iwarp_pm_server.c:116-139 | the same for one pass of the timer: what it sends again and which trackers it leaves |
| `Collision.PeerOrderIff` | rdma-core-51mlnx1/iwpmd/iwarp_pm_server.c:862-883 | for every number of hosts and every rule about which host may use which handle toward which daemon: all runs that obey the rule are in order peer by peer if and only if the rule lets no two hosts ask one daemon with the same handle |
| `Collision.HandlesCollide` | rdma-core-51mlnx1/iwpmd/iwarp_pm_server.c:862-883 | for any two hosts, any daemon, one of them or not, and any handle that both may use toward it, a run at whose end one's accept tracker is complete although it has given its client no result |
| `Addr.PeerRoundTrip` | rdma-core-51mlnx1/iwpmd/iwarp_pm_common.c:528-609 | an address copied into a message of its family and back is the same address, and a wildcard exactly if it was one |
| `Addr.SameEquivalence` | rdma-core-51mlnx1/iwpmd/iwarp_pm_helper.c:435-468 | address comparison is an equivalence on known families and respects port and wildcard |
| `Addr.SameOnWire` | rdma-core-51mlnx1/iwpmd/iwarp_pm_helper.c:435-468 | two addresses are the same exactly if they are of one known family and look alike in its messages |
| `PortTable.AddIff` | rdma-core-51mlnx1/iwpmd/iwarp_pm_server.c:339-390 | in a conflict-free table an add lists a new mapping exactly if nothing listed shares its address and the host gives one, takes a reference exactly if it repeats a listed wildcard, and else changes no mapping |
| `PortTable.QueryIff` | rdma-core-51mlnx1/iwpmd/iwarp_pm_server.c:448-519 | a query takes a reference exactly if a listed mapping that is no wildcard can serve it, lists a new one exactly if its address is free and no wildcard, and else changes no mapping |
| `PortTable.RemoveIff` | rdma-core-51mlnx1/iwpmd/iwarp_pm_server.c:560-577 | a removal drops a reference exactly if its client owns the listed mapping of that address, which goes with its last reference; else it changes nothing |
| `PortTable.MapInfoIff` | rdma-core-51mlnx1/iwpmd/iwarp_pm_server.c:926-947 | mapping information is listed exactly if nothing listed shares its address and the host gives it |
| `PortTable.StaysListed` | rdma-core-51mlnx1/iwpmd/iwarp_pm_server.c:568-577 | over any stretch of requests without a removal by its owner, a mapping stays listed, with its addresses and owner, and loses no reference |
| `PortTable.MadeAddress` | rdma-core-51mlnx1/iwpmd/iwarp_pm_helper.c:259-416 | a created mapping is of the local IP address at the port the host grants, a reopened one keeps its address and must be granted its port; both succeed exactly when said |
| `PortTable.ApplyConflictFree` | rdma-core-51mlnx1/iwpmd/iwarp_pm_server.c:315-579 | no request, whatever fails in it, makes two listed mappings on one port share an address or lists a wildcard beside another |
| `PortTable.UniqueMatch` | rdma-core-51mlnx1/iwpmd/iwarp_pm_helper.c:479-498 | in a conflict-free table an address that is no wildcard matches at most one mapping |
| `PortTable.LookupOrder` | rdma-core-51mlnx1/iwpmd/iwarp_pm_helper.c:479-498 | hence what a lookup finds does not depend on the order of the list |
| `PortTable.WildcardOrderIff` | rdma-core-51mlnx1/iwpmd/iwarp_pm_helper.c:479-498 | for a wildcard address it does not depend on the order if and only if its port has at most one mapping |
| `PortTable.MadeFits` | rdma-core-51mlnx1/iwpmd/iwarp_pm_helper.c:355-416 | a created or reopened mapping has a mapped address of the family of its local address, which is what the network model asks of new mappings |
| `PortTable.DuplicateIff` | rdma-core-51mlnx1/iwpmd/iwarp_pm_server.c:926-939 | in a conflict-free table a reported mapping passes as a duplicate if and only if it is listed |
| `PortTable.ApplySound` | rdma-core-51mlnx1/iwpmd/iwarp_pm_server.c:339-390 | every request keeps each listed mapping's count equal to successful acquisitions minus releases and at least 1, and zero for all others |
| `PortTable.RunInvariant` | rdma-core-51mlnx1/iwpmd/iwarp_pm_server.c:315-579 | both hold after every sequence of add, query, remove and mapinfo requests |
| `PortList.PortList.Search` | rdma-core-51mlnx1/iwpmd/iwarp_pm_helper.c:479-523 | the list walk finds the first matching entry of the abstract table, or none |
| `PortList.PortList.AddMapping` | rdma-core-51mlnx1/iwpmd/iwarp_pm_server.c:315-399 | the in-place request takes the abstract table to its next value, gives back its reference on every error path, and frees only objects that are not listed |
| `PortList.PortList.QueryMapping` | rdma-core-51mlnx1/iwpmd/iwarp_pm_server.c:448-519 | the same for the table part of a query |
| `PortList.PortList.RemoveMapping` | rdma-core-51mlnx1/iwpmd/iwarp_pm_server.c:540-579 | the same for a removal, which unlists a mapping exactly with its last reference |
| `PortList.PortList.MapInfoRequest` | rdma-core-51mlnx1/iwpmd/iwarp_pm_server.c:902-958 | the same for the mapping information of a restarted client, which succeeds exactly if it is listed anew or an exact duplicate |
| `Trackers.TrackerList.Update` | rdma-core-51mlnx1/iwpmd/iwarp_pm_helper.c:125-160 | the copy is of the first match before the change; only that tracker is serviced |
| `Trackers.TrackerList.Tick` | rdma-core-51mlnx1/iwpmd/iwarp_pm_server.c:116-139 | one pass that deletes while it walks ages, retransmits and reaps exactly the trackers the definition on lists says |
| `Trackers.AnswerEffect` | rdma-core-51mlnx1/iwpmd/iwarp_pm_helper.c:125-160 | an answer closes the first open query or accept it is for, gives an acknowledgement ten seconds anew, and leaves a closed tracker and all others alone |
| `Trackers.PassSends` | rdma-core-51mlnx1/iwpmd/iwarp_pm_server.c:116-139 | a pass sends again exactly the queries and accepts with a timeout from 1 to 9 |
| `Trackers.PassLeaves` | rdma-core-51mlnx1/iwpmd/iwarp_pm_server.c:116-139 | and leaves exactly the trackers that had time left, each with a second less |
| `Trackers.Retransmitted` | rdma-core-51mlnx1/iwpmd/iwarp_pm_server.c:116-139 | in every run, a query or accept that no answer comes for is retransmitted at every pass but the first, exactly nine times in all, and is gone after the eleventh |
| `Trackers.RunBudget` | rdma-core-51mlnx1/iwpmd/iwarp_pm_server.c:116-139 | in every run timeouts stay in range, a completed tracker is ripe for reaping, and no tracker is ever retransmitted more than nine times |
| `Trackers.SilentOnceComplete` | rdma-core-51mlnx1/iwpmd/iwarp_pm_helper.c:146-153 | from the moment it is complete a tracker is never retransmitted again and stays complete |
| `Trackers.RunDrains` | rdma-core-51mlnx1/iwpmd/iwarp_pm_server.c:116-139 | left alone for eleven seconds, the list of any run is empty |
| `WakeUp.NoLostWakeUp` | rdma-core-51mlnx1/iwpmd/iwarp_pm_server.c:101-140 | in every interleaving of posters and timer, a blocked timer has nothing to do or a signal on its way, despite the test made without the lock |
| `WakeUp.TimerProgress` | rdma-core-51mlnx1/iwpmd/iwarp_pm_server.c:101-140 | from any moment of any interleaving at which a tracker is listed, and unless its wait fails, the timer makes at most three moves before it is at a pass over the list, two if it was waiting, whatever the posters do in between |
| `WakeUp.TimerMoves` | rdma-core-51mlnx1/iwpmd/iwarp_pm_server.c:101-140 | with a tracker listed and no poster holding the lock, the timer can make its next move |
| `WakeUp.TimerAlone` | rdma-core-51mlnx1/iwpmd/iwarp_pm_server.c:101-140 | hence at most three steps of the timer alone take it to a pass over all that is listed |
| `WireCodec.ParseFormed` | rdma-core-51mlnx1/iwpmd/iwarp_pm_common.c:379-490 | for every parameter set, kind and leftover in the receiver's buffer, parsing what was sent gives back all that the kind carries; it fails exactly if the IP version, cut to its field, is neither 4 nor 6 |
| `WireCodec.WireLayout` | rdma-core-51mlnx1/iwpmd/iwarp_pm_common.c:405-438 | where every parameter lies in the message, the handle most significant byte first |
| `WireCodec.RoundTripIff` | rdma-core-51mlnx1/iwpmd/iwarp_pm_common.c:379-490 | the round trip is exact if and only if the IP version is 4 or 6 and the protocol version is below 4 |
| `WireCodec.FormParsed` | rdma-core-51mlnx1/iwpmd/iwarp_pm_common.c:379-438 | a message that parses is formed again byte for byte if and only if it is a request or its reserved field is zero |
| `MadFields.SetField` | rdma-core-51mlnx1/libibmad/fields.c:1036-1066 | for every field, base, buffer and value: what every bit of the buffer is afterwards |
| `MadFields.WrittenUnique` | rdma-core-51mlnx1/libibmad/fields.c:1036-1066 | that description leaves one buffer only |
| `MadFields.GetField` | rdma-core-51mlnx1/libibmad/fields.c:1068-1094 | for every field, base and buffer: what every bit of the result is |
| `MadLaws.SetExactIff` | rdma-core-51mlnx1/libibmad/fields.c:1036-1066 | every fitting value is written exactly, into every buffer, if and only if the field's leading and trailing bits do not make up a byte |
| `MadLaws.SetValueIff` | rdma-core-51mlnx1/libibmad/fields.c:1036-1066 | a value leaves every other bit of every buffer alone if and only if it has no bits in the rest of the field's last byte |
| `MadLaws.GetExactIff` | rdma-core-51mlnx1/libibmad/fields.c:1068-1094 | reading is exact for every buffer if and only if writing is or the field has 32 bits |
| `MadLaws.RoundTrip` | rdma-core-51mlnx1/libibmad/fields.c:1036-1094 | setting then getting returns the value and changes no bit outside the field |
| `MadLaws.DisjointWritesCommute` | rdma-core-51mlnx1/libibmad/fields.c:1036-1066 | writes to disjoint fields commute |
| `MadLaws.BitsOffsInvolution` | rdma-core-51mlnx1/libibmad/fields.c:42-51 | the offset normalisation is its own inverse |
| `MadLaws.FieldIsSpecBits` | rdma-core-51mlnx1/libibmad/fields.c:42-51 | a normalised field is bits `o` to `o + w - 1` of the message counted from its most significant bit |
| `MadLaws.GetIsSpecValue` | rdma-core-51mlnx1/libibmad/fields.c:1068-1094 | and that is the number the getter returns |
| `MadWide.SetField64` | rdma-core-51mlnx1/libibmad/fields.c:1018-1026 | eight bytes become the big-endian form of the value and no other byte changes |
| `MadWide.Value64` | rdma-core-51mlnx1/libibmad/fields.c:1018-1034 | the specification's reading of those bytes is the value |
| `MadWide.GetField64` | rdma-core-51mlnx1/libibmad/fields.c:1028-1034 | the getter returns the specification's reading |
| `MadWide.SetArray` | rdma-core-51mlnx1/libibmad/fields.c:1097-1106 | an array goes, in order, to the bytes of its field and no other byte changes |
| `MadWide.GetArray` | rdma-core-51mlnx1/libibmad/fields.c:1108-1117 | the bytes of the field in order; for a byte-aligned field shorter than a word, read as the specification reads them, they are the number that the field holds |
| `MadWide.ArrayIsBigEndian` | rdma-core-51mlnx1/libibmad/fields.c:1108-1117 | the bytes that the array getter copies out of a byte-aligned field shorter than a word are the big-endian form of what the field getter returns |
| `MadEncode.Encode` | rdma-core-51mlnx1/libibmad/mad.c:82-159 | it fails exactly on a directed-route request without a usable path; else, whatever the buffer held and wherever the payload lies, every header field of the class and the route none of whose bytes the payload takes, the vendor identifier, and a payload that takes none of the identifier's bytes, read back as supplied, at the bits of the message that the specification gives them |
| `MadEncode.FullHeaderLaid` | rdma-core-51mlnx1/libibmad/fields.c:66-116 | a header that is held has every field of the request at its bits in the specification's numbering: versions, class, method, status or route word, transaction, attribute, modifier, key, lids, mask and identifier |
| `MadEncode.WholeHeader` | rdma-core-51mlnx1/libibmad/mad.c:82-159 | a payload past the class header leaves the whole header readable |
| `MadEncode.HoldsButListed` | rdma-core-51mlnx1/libibmad/mad.c:82-159 | what the encoder promises of the header, field by field: each listed field outside the bytes of the payload reads as its value |
| `MadEncode.HoldsListed` | rdma-core-51mlnx1/libibmad/mad.c:82-159 | a header that is held shows each of its listed fields with its value |
| `Bitmap.SetRange` | rdma-core-51mlnx1/ccan/bitmap.c:12-60 | exactly the elements from `n` to `m` are removed or added, with every word access in bounds |
| `Bitmap.Clz` | rdma-core-51mlnx1/ccan/bitmap.c:62-77 | the number of leading zeros of a nonzero word |
| `Bitmap.Ffs` | rdma-core-51mlnx1/ccan/bitmap.c:79-125 | the least element from `n` to `m`, or `m` |
| `Bitmap.Equal` | rdma-core-51mlnx1/ccan/bitmap.h:119-125 | decides equality of the sets of the first `nbits` bits, whatever the padding holds |
| `Bitmap.Intersects` | rdma-core-51mlnx1/ccan/bitmap.h:127-140 | decides whether the sets meet |
| `Bitmap.Subset` | rdma-core-51mlnx1/ccan/bitmap.h:142-155 | decides inclusion |
| `Bitmap.Full` | rdma-core-51mlnx1/ccan/bitmap.h:157-170 | decides whether all elements are present |
| `Bitmap.Empty` | rdma-core-51mlnx1/ccan/bitmap.h:172-184 | decides emptiness |
| `Ring.CheckNode` | rdma-core-51mlnx1/ccan/list.c:20-36 | on every finite set of nodes closed under `next`, wherever `prev` points, it ends, even when `next` runs into a cycle beside the node, and accepts exactly the nodes from which `next` leads back with `prev` undoing every step |
| `Ring.RingSound` | rdma-core-51mlnx1/ccan/list.c:20-36 | every ring passes the check |
| `Ring.SoundRing` | rdma-core-51mlnx1/ccan/list.c:20-36 | what passes the check is a ring of distinct nodes |
| `Ring.AddAfter` | rdma-core-51mlnx1/ccan/list.h:178-188 | the ring with the node inserted after another, all other links of all other nodes unchanged |
| `Ring.Add` | rdma-core-51mlnx1/ccan/list.h:204-209 | the node comes first |
| `Ring.AddBefore` | rdma-core-51mlnx1/ccan/list.h:227-237 | the ring with the node inserted before another, at the end if before the head |
| `Ring.AddTail` | rdma-core-51mlnx1/ccan/list.h:250-255 | the node comes last |
| `Ring.Del` | rdma-core-51mlnx1/ccan/list.h:324-333 | the ring without the node; a lone node stays a ring |
| `Ring.DelInit` | rdma-core-51mlnx1/ccan/list.h:350-354 | the ring without the node, and the node a ring of its own, so that it may be repeated |
| `Ring.Swap` | rdma-core-51mlnx1/ccan/list.h:405-417 | the ring with one node in the place of another; a lone node is joined, not replaced |
| `Ring.Pop` | rdma-core-51mlnx1/ccan/list.h:475-484 | the first node and the rest, or nothing from an empty list |
| `Ring.AppendList` | rdma-core-51mlnx1/ccan/list.h:640-656 | the first list followed by the second, which is left empty, also when either is empty |
| `Ring.PrependList` | rdma-core-51mlnx1/ccan/list.h:672-688 | the second list followed by the first, likewise |
| `LibGraph.ComputeGraph` | rdma-core-51mlnx1/buildlib/sanitize_static_lib.py:197-214 | for every acyclic library set and every iteration order it ends with the libraries listing the reduction of the graph of their symbols, `needs` and `needed` being inverses within the set; a library lists another only for a symbol, and whoever needs a symbol is reached from whoever has it |
| `LibGraph.Prune` | rdma-core-51mlnx1/buildlib/sanitize_static_lib.py:206-210 | the recursion removes from one library, in both directions, exactly what is reached from the current one |
| `LibGraph.ReductionKeepsReachability` | rdma-core-51mlnx1/buildlib/sanitize_static_lib.py:205-214 | pruning loses no dependency and adds none |
| `LibGraph.ReductionIrredundant` | rdma-core-51mlnx1/buildlib/sanitize_static_lib.py:205-214 | no edge that is left follows from the others |
| `LibGraph.ReductionUnique` | rdma-core-51mlnx1/buildlib/sanitize_static_lib.py:205-214 | it is the only graph with these two properties |
| `McPath.InsertNode` | rdma-core-51mlnx1/infiniband-diags/ibtracert.c:409-428 | the chained hash table is a set of GUIDs: an insertion succeeds exactly if the GUID is new, and adds just it |
| `McPath.NewNode` | rdma-core-51mlnx1/infiniband-diags/ibtracert.c:458-482 | a record goes to its level unless its GUID is already recorded, keeping levels and table in step |
| `McPath.Search` | rdma-core-51mlnx1/infiniband-diags/ibtracert.c:572-677 | when the search stops at level `d`, records have the distance of their level and come from the level before, no GUID occurs twice, and every port of every earlier level was followed to a recorded node that is not the target; all of it also in terms of the fabric's own answers |
| `McPath.FollowsTree` | rdma-core-51mlnx1/infiniband-diags/ibtracert.c:572-677 | every record, and a target that is found, is reached by a port that the multicast table of the node along its path forwards to, over a link that is up, not by the port of arrival; every such port of the levels before the last is followed; and the search stops only at the target, at a port it cannot read or a path that is full, or for want of levels |
| `McPath.FindMcPath` | rdma-core-51mlnx1/infiniband-diags/ibtracert.c:534-678 | the answer for every fabric, start and target, including an unreachable start and a start that is the target |
| `McPath.Nearest` | rdma-core-51mlnx1/infiniband-diags/ibtracert.c:572-677 | no chain of explored edges, taken between nodes by GUID whatever port they arrive at, reaches the target in fewer hops than the search does |
| `McPath.UpWalk` | rdma-core-51mlnx1/infiniband-diags/ibtracert.c:650-656 | following `upnode` from level `d` is a chain of `d` explored edges from the start, each a hop by the multicast tables |
| `McPath.BoundsIff` | rdma-core-51mlnx1/infiniband-diags/ibtracert.c:572-677 | level 63 stays empty in every fabric if and only if the search does not start at an adapter one hop away, by a port that is not zero |
| `McPath.InBounds` | rdma-core-51mlnx1/infiniband-diags/ibtracert.c:203-210 | level 63 stays empty for every fabric unless the search starts at an adapter one hop away |
| `McPath.OutOfBounds` | rdma-core-51mlnx1/infiniband-diags/ibtracert.c:572-677 | from every such start, along 63 switches in a row, every search records a node at level 63 |
| `PerfCounters.Aggregate` | rdma-core-51mlnx1/infiniband-diags/perfquery.c:116-156 | despite the wrapping sum the result is the exact sum or the cap, whichever is less |
| `PerfCounters.TotalAnyOrder` | rdma-core-51mlnx1/infiniband-diags/perfquery.c:116-156 | the total does not depend on the order of the readings |
| `PerfCounters.PerfCount.AggregatePerfcounters` | rdma-core-51mlnx1/infiniband-diags/perfquery.c:158-202 | every counter takes in its field of the reply and stays within its cap, and the selectors are those of the reply, the counter selector within its field |
| `PerfCounters.PerfCount.OutputAggregatePerfcounters` | rdma-core-51mlnx1/infiniband-diags/perfquery.c:204-236 | every counter but QP1Dropped reads back from the encoded reply, whose port selector is 255 and whose counter selector is kept, at the specification's bits |
| `PerfCounters.Reported` | rdma-core-51mlnx1/infiniband-diags/perfquery.c:158-236 | for every sequence of replies, each counter of the encoded result is the lesser of its cap and the exact sum of its readings, taken in the specification's layout at the bits that its table entry names |
| `PerfCounters.Qp1ReportedIff` | rdma-core-51mlnx1/libibmad/fields.c:1006 | QP1Dropped proper is reported if and only if its capped sum is that of VL15Dropped |
| `PerfCounters.Qp1Misread` | rdma-core-51mlnx1/libibmad/fields.c:1006 | a reply with an odd QP1Dropped and an even VL15Dropped is misread |

## Left out

- Sockets, netlink, memory allocation, interface lists, logging: their success or failure and the values they deliver are parameters of the operations.
- Threads other than the posters and the timer of the tracker list: the daemon handles messages and requests in one thread, so its handlers do not overlap in the network model.
- The contents of the daemon's retransmission queue: a queued message is in the network, which may lose it.
- `process_iwpm_register_pid`, `process_iwpm_hello`, `process_iwpm_mapinfo_count`, the error messages to clients: bookkeeping of the netlink protocol.
- Reuse of association handles: a query gets a handle that its host has not used before. The code takes the address of the tracker, which the allocator may hand out again once the tracker is freed (`iwpmd/iwarp_pm_helper.c:73-76`). Nothing is claimed of a host that uses a handle twice.
- Daemon.Process.WireRequest: runs the handler through, as does `WireAccept`; a timer pass between the two times a handler holds the tracker list is in the network model, where `Deliver` and `Finish` are separate steps. A query is one step there, as it holds that list only once.
- MadEncode.Encode: a payload that runs past the end of the MAD, where the code writes outside the buffer. Of a header field or route with a byte that the payload takes, and of a payload that the vendor identifier is written over, nothing is promised.
- The dump and print functions of libibmad, and the field names: formatting only.
- Bit operations on single bitmap elements, copy, complement and allocation: one-line members.
- list_for_each and its relatives, and list.h's debug mode: macros.
- PerfCounters.PerfCount.AggregatePerfcounters: the straight line of eighteen decode-and-add pairs is a loop over the table of counters in the same order; the extended 64-bit counters are covered by `Aggregate` and `Reported`'s arithmetic only.
- McPath.FindMcPath: link states, names and printed output; the root's path is not changed by the search, where the code leaves it one entry shorter after an adapter's only port.
- McPath.InBounds: the level lists have 64 places here, one more than in the code, so that the search is defined when it needs the last.
- LibGraph: cyclic graphs, and all symbol and archive processing.
- src/, the rest of ccan and of buildlib, the other diagnostics and libraries: easy members, printing, or queries to code that is not part of this model.
