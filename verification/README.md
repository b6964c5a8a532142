# A verified model of radstorm

radstorm drives RADIUS servers with large numbers of virtual subscribers. This project models its
core in Dafny and proves what that core promises. `dafny verify dfyconfig.toml` checks everything.

| files | what they model |
|---|---|
| `Bits`, `Bytes`, `Attributes`, `Vendor`, `Codes`, `Auth`, `Packets`, `Octets`, `Constructors` | the codec of `pkg/radius`: attributes, vendor attributes, password hiding, packets, Message-Authenticator, what stands where on the wire, constructors |
| `IdAllocator`, `Matcher`, `Sender` | the objects of `pkg/io`: the Identifier bitmaps, the reply tables, the retransmitting sender |
| `RequestEngine`, `EngineRuns`, `EngineResults` | the same objects as a protocol: any number of Sends and Delivers interleaved section by section, what holds over stretches of its runs, and what every Send returns and every Deliver ends in |
| `Observation`, `Curve`, `Percentile`, `Aggregate`, `SummaryContents`, `Collector` | `pkg/collector`: what a shard observes, the merge, the curve, the distributions, what every field of the summary says of the events, the bounded queues |
| `Subscriber`, `RunLog`, `Pool`, `Handler`, `Readers`, `Answers` | one subscriber's lifecycle with the listener alongside and what it reports, the lookup indexes, the CoA and Disconnect listener, its readers at work together, their replies octet by octet |
| `Reporting`, `Dispatch` | the pieces together: from every Run to the summary, and from an encoded request to the subscriber it names |

MD5 and HMAC-MD5 are arbitrary functions to 16 bytes (`Bytes.Crypto`); statements that hold "whatever
they are" quantify over them. Random bytes, clock readings, write failures and network replies are
parameters or nondeterministic choices. Objects that the program updates in place are classes whose
methods are proved against functions on values; the lemmas are about those functions. Concurrency is a
sequence of atomic sections: in `RequestEngine`, `Readers` and the trace part of `Subscriber` a state machine
over steps, in the class `Subscriber` a nondeterministic number of listener sections between any two
sections of Run.

## Where the code departs from what it says

* The reply tables are keyed by local address and Identifier only (pkg/io/matcher.go:36-39), while
  Identifiers are allocated per source and destination (pkg/io/idalloc.go:32-37). Two destinations behind one
  local address displace each other's requests: `DisplacementExactly`, `TwoDestinationsDisplace`.
* `Encode` computes the Response Authenticator before it fills in the Message-Authenticator
  (pkg/radius/packet.go:117-150), so a reply with attribute 80 does not in general pass the Response
  Authenticator check: `ReplyValidatesExactly`.
* `Encode` replaces an all-zero Access-Request authenticator, under which the PAP constructor may already
  have hidden the password: `PapRecoversExactly`.
* `PickAt` mirrors a negative index instead of wrapping it (pkg/io/socketpool.go:118-126), and the index itself
  wraps: a pass that crosses zero upwards or wraps visits some sockets twice and misses others, and at -2^63 the
  slice index is negative unless 2^63 is a multiple of the pool size: `PassCoversExactly`, `PickAtExactly`. The start
  comes from a 64-bit counter that begins at 0 (pkg/io/sender.go:181), so about 2^63 picks come before the first
  such pass: `EarlyPassesCover`, `LatePassMisses`.
* The lookup indexes keep the last subscriber registered under a key; the comment at
  pkg/subscriber/pool.go:216-218 says the first: `SharedKeyGoesToTheLast`, `SharedUserNameReachesTheLast`.
* `terminate` overwrites a `terminated` that a disconnect wrote during Run, and a later disconnect reports a
  second outcome (pkg/subscriber/subscriber.go:553-563), against the comment at
  pkg/subscriber/subscriber.go:705-707: `OverwrittenUnlessLater`, `TerminatedLost`, `SecondOutcomeExactly`,
  `TwoOutcomes`.
* A disconnect terminates a subscriber in any state once Run has begun, where the comments at
  pkg/subscriber/subscriber.go:702-703 and pkg/subscriber/state.go:39 speak of an established one only:
  `CutFindsEstablishedExactly`, `IdleIsTerminated`.
* Subscribers submit no terminal event for `terminated`, so the summary's terminated count, which counts terminal
  events, stays 0 (`NeverCountedTerminated`). It is the number of subscribers left terminated if and only if no
  disconnect came after the last state write of a Run: `TerminatedCountExactly`, `DisconnectedCountsAsEstablished`.
* Subscriber 0 is not kept among the subscribers seen (pkg/collector/aggregate.go:109-111), so it is counted
  in the total only once it has an entry in some other table, though the comment at
  pkg/collector/aggregate.go:307-309 counts every subscriber that appeared: `TotalCountsAppearing`,
  `SubscriberZeroIsMissed`.

## Model

| member | source | states |
|---|---|---|
| `IdAllocator.IdBitmap.Allocate` | pkg/io/idalloc.go:74-96 | The four-word bitmap with its hint is a set of held identifiers with cyclic next-fit: it fails exactly when all 256 are held, otherwise takes the free one at least cyclic distance from the hint, and nothing else changes |
| `IdAllocator.IdBitmap.Release` | pkg/io/idalloc.go:99-108 | Releasing removes the identifier from the set if it is held, keeps the count equal to the set's size, and leaves the hint alone; releasing a free one changes nothing |
| `IdAllocator.FullExactly` | pkg/io/idalloc.go:77-79 | A set of byte identifiers has at most 256 members, and exactly 256 when every identifier is held, so the count test is the fullness test |
| `IdAllocator.PicksUnique` | pkg/io/idalloc.go:84-93 | The least-distance rule leaves no choice: one identifier satisfies it |
| `IdAllocator.PicksFirstFree` | pkg/io/idalloc.go:84-93 | The rule is the scan: taken is the first free one among hint, hint+1, hint+2 and so on, 0 following 255 |
| `IdAllocator.CountsUp` | pkg/io/idalloc.go:74-96 | On a new tuple, allocations without a release give out 0, 1, 2, ... up to 255, in every history |
| `IdAllocator.ReuseSweepsAll` | pkg/io/idalloc.go:74-96 | In every history of allocations and releases, between two successive allocations of an identifier every other one was allocated or was held when the scan passed it |
| `IdAllocator.IDAllocator.Allocate` | pkg/io/idalloc.go:131-140 | Only the named tuple's set changes, by the next-fit rule, and it fails exactly when that tuple holds all 256 |
| `IdAllocator.IDAllocator.Release` | pkg/io/idalloc.go:144-152 | Only the named tuple's set changes; an unknown tuple is left unknown |
| `IdAllocator.IDAllocator.Inflight` | pkg/io/idalloc.go:155-163 | The count reported is the number of identifiers held on the tuple, 0 for an unknown one |
| `IdAllocator.IDAllocator.TupleCount` | pkg/io/idalloc.go:167-171 | The number of tuples that ever allocated |
| `Matcher.ReplyMatcher.Register` | pkg/io/matcher.go:118-136 | A registration displaces whatever waited under the key, forgets that the key was answered, and hands back a fresh in-flight record |
| `Matcher.ReplyMatcher.Cancel` | pkg/io/matcher.go:140-148 | A cancel removes the pending entry of the key, whoever registered it, and nothing else |
| `Matcher.ReplyMatcher.GcLocked` | pkg/io/matcher.go:269-279 | Below the threshold nothing is collected; from it on, exactly the stale answered keys go |
| `Matcher.ReplyMatcher.Claim` | pkg/io/matcher.go:189-212 | The second lock section claims exactly when the record found before is still the one pending under the key, and then moves the key from pending to answered |
| `Matcher.ReplyMatcher.Deliver` | pkg/io/matcher.go:165-247 | With nothing running between its lock sections, a Deliver ends in exactly one of delivered, validation_failed, duplicate_reply and unmatched_reply, each exactly when the tables and the reply's authenticator say so; only delivery changes the tables |
| `Matcher.ReplyMatcher.CloseAll` | pkg/io/matcher.go:250-258 | Closing empties both tables |
| `Matcher.SectionsKeepDisjoint` | pkg/io/matcher.go:118-279 | Every section that writes the tables keeps pending and recently answered keys disjoint |
| `RequestEngine.RunKeepsInv` | pkg/io/sender.go:44-167 | The protocol invariant (leases, tickets, answers, owners, counts) holds in every state of every interleaving of Sends, Delivers and CloseAll |
| `RequestEngine.IdentifiersNeverShared` | pkg/io/sender.go:55-163 | In every reachable state no two attempts hold the same Identifier on a tuple, the allocator holds exactly what live attempts hold, and nothing once every Send has returned |
| `RequestEngine.AtMostOneGenuineReply` | pkg/io/matcher.go:165-209 | Over whole runs each registered request is pushed at most one reply, a genuine one; a channel about to be pushed to is empty, and no two Delivers push to one channel |
| `RequestEngine.ReturnedReplyIsGenuine` | pkg/io/sender.go:90-154 | A reply that a Send returns was the one pushed for that attempt's own registration, carries its Identifier and verifies against its request authenticator |
| `RequestEngine.RepliesAreAuthentic` | pkg/io/sender.go:90-154 | With the RADIUS codec: the returned reply is what its datagram decodes to and passes the Response Authenticator check against the attempt's authenticator |
| `RequestEngine.DeliveriesAreSliceable` | pkg/radius/packet.go:221-232 | Every datagram handed to a validator in a run is long enough for the slices it takes |
| `RequestEngine.TransmissionsBounded` | pkg/io/sender.go:50-166 | A Send transmits at most MaxRetries+1 times, numbered 0, 1, 2, ... in order; a final timeout means exactly that many, and a reply reports the last number sent |
| `EngineResults.ReturnedAsSettled` | pkg/io/sender.go:74-166 | Over every run: a Send that has returned was settled by exactly one of its steps, and returns what that step decided: a reply when it read its channel (the lease, ticket and delivery of that moment and the number last sent), an abort when building or writing failed, the context ended or the scan was given up, a final timeout when the timer ran out on the last attempt |
| `EngineResults.ReceivedIsReturned` | pkg/io/sender.go:132-154 | If a Send reads its channel at step j and has returned at some later point, whatever ran in between, its result is the reply with the lease held and the token waited on at j, the head of that channel at j, and the attempt number |
| `EngineResults.StartedAs` | pkg/io/sender.go:44-53 | For as long as a Send lives its limit is MaxRetries+1, at least 1, and its destination the one it was started with |
| `RequestEngine.RegisterDisplacesNobody` | pkg/io/sender.go:86-104 | With one destination per local address a registration never displaces a live request |
| `RequestEngine.CancelRemovesOnlyItsOwn` | pkg/io/sender.go:128-161 | With one destination per local address a cancel never removes another attempt's entry, also when the timeout races a claimed reply |
| `RequestEngine.WaitingRequestsStayReachable` | pkg/io/sender.go:86-161 | With one destination per local address and no CloseAll, every waiting attempt is pending under its key or its reply is on the way |
| `RequestEngine.DeliverEndsOnce` | pkg/io/matcher.go:165-247 | A Deliver can always take a step until it has finished, each step brings it nearer, and nothing else moves it |
| `EngineResults.DeliverExplained` | pkg/io/matcher.go:165-247 | Over every run, whatever else runs between its two lock sections: a Deliver pushes only a reply that verified for the entry it found pending and that was still pending when it claimed; it ends in validation failed only if its reply did not verify for that entry, and otherwise in duplicate or unmatched exactly as its last look at the recently answered keys says |
| `EngineResults.SecondCopyIsDuplicate` | pkg/io/matcher.go:170-188 | Over every run: a copy of a claimed reply, or any other reply that verifies for the same request, that arrives while the claim stays on record can only end as a duplicate |
| `EngineResults.ClaimIsRemembered` | pkg/io/matcher.go:189-212 | A claim puts its key on record with the authenticator of the request answered, and the sweep it starts leaves that there if its clock is at most 30 seconds ahead |
| `EngineResults.SweepExactly` | pkg/io/matcher.go:269-279 | A sweep keeps everything while fewer than 1024 keys are on record; from then on it removes exactly those answered more than 30 seconds before |
| `EngineResults.RepliesHappen` | pkg/io/sender.go:44-154 | For every tuple, authenticator and datagram that verifies there is a run in which the Send returns it, with retransmit number 0 |
| `EngineResults.RepliesReachDeliver` | pkg/io/receiver.go:152-170 | What the receiver hands to Deliver is exactly what decodes with code 2, 3, 5, 11, 41, 42, 44 or 45 |
| `EngineResults.EncodedReplyIsReturned` | pkg/io/sender.go:44-154 | Codec and protocol together: a reply without attribute 80 that a server encodes under the shared secret and the request's authenticator can arrive, be claimed and be returned |
| `EngineRuns.LeasesGoBackOnce` | pkg/io/sender.go:55-163 | Over every run the Releases of a Send number its Allocates, less one while it holds an Identifier; once it has returned, on whatever path, they are equal; and each Release gives back the very one its last Allocate took |
| `EngineRuns.AllocatorRefines` | pkg/io/idalloc.go:131-152 | In every state of every run the allocator, driven by the steps taken, holds on each tuple exactly the Identifiers leased there |
| `EngineRuns.NothingInFlightWhenIdle` | pkg/io/idalloc.go:155-163 | Whenever no Send is running, what Inflight reports is 0 for every tuple |
| `EngineRuns.DisplacementExactly` | pkg/io/matcher.go:36-39 | For any set of routes: no run over them ever registers a request under a key where another is pending, if and only if no local address is used towards two destinations |
| `EngineRuns.TwoDestinationsDisplace` | pkg/io/matcher.go:118-136 | For any local address, two destinations and Identifier, a run in which the first request is on the wire and waiting when the second registers under the same key, after which nothing is pending for it |
| `EngineRuns.AnsweredThroughout` | pkg/io/matcher.go:165-279 | Over any stretch of a run after a key was answered, without a new registration, stale sweep or close, it stays answered, and every Deliver with a reply that verifies, wherever it stood when the answer came, has met the fate of its place: one that arrives later can only be a duplicate |
| `EngineRuns.NoSecondDelivery` | pkg/io/matcher.go:189-234 | In that stretch no reply that verifies is delivered but by a Deliver that had already claimed |
| `Sender.RetransmitWait` | pkg/io/io.go:148-160 | While the products fit in 63 bits the wait before retransmission n is the curve's value (base times n, base times 2^(n-1), or base), wrap-around included in the model |
| `Sender.TotalWaitClosedForm` | pkg/io/io.go:148-160 | The waits of a Send that never gets a reply sum to the initial timeout (five seconds unless positive) plus R*B, B*R(R+1)/2 or B*(2^R-1) for the constant, linear and exponential curve, while no product overflows |
| `Sender.PickAtExactly` | pkg/io/socketpool.go:118-126 | With 64-bit negation and truncated remainder PickAt gives the absolute index modulo the pool size, and is out of range exactly at the smallest integer unless 2^63 is a multiple of the size |
| `Sender.PassCoversExactly` | pkg/io/sender.go:173-211 | A pass over n sockets from any 64-bit start index meets every socket if and only if its indexes do not cross zero upwards, do not wrap, and touch 2^63 only when that is a multiple of n |
| `Sender.EarlyPassesCover` | pkg/io/sender.go:181-185 | Start indexes come from a counter that begins at 0: a pass of n picks meets every socket as long as the count and n stay within 2^63 |
| `Sender.LatePassMisses` | pkg/io/sender.go:181-185 | The pass at count 2^63-1 misses a socket whenever there are three or more |
| `Sender.CoversOnce` | pkg/io/sender.go:173-211 | A pass that meets every socket meets each exactly once and stays in range |
| `Sender.TryAllSockets` | pkg/io/sender.go:183-195 | One pass stops at the first socket with a free Identifier, every earlier one being full, and allocates only there; it fails only with every socket of the pass full and nothing changed, or at an index outside the slice |
| `Sender.AllocateOnAnyTuple` | pkg/io/sender.go:173-211 | The passes are repeated, each from its own start, until one allocates; every earlier pass found all its sockets full, and without an allocation nothing has changed |
| `Sender.Attempt` | pkg/io/sender.go:55-163 | One attempt on the real allocator and matcher: its scan ends as the held Identifiers and its start indexes say, it gives its Identifier back on every path and leaves nothing pending under its key: claimed and remembered as answered if the reply arrived, removed otherwise |
| `Sender.GiveBack` | pkg/io/sender.go:80-163 | Releasing what was just taken restores every tuple's set |
| `Sender.RunSend` | pkg/io/sender.go:44-167 | A Send ends as the Identifiers held by others and what its attempts are given determine, has waited exactly the timeouts that ran out before and sent exactly its attempts up to there, in order; afterwards the held Identifiers are as before and nothing of its own is pending |
| `Sender.EndingIsFirst` | pkg/io/sender.go:44-167 | That ending is the one of the first attempt that does anything else than find an Identifier and run out of time: a reply, a failure of its own, no Identifier before the deadline or the context ends the scan, or an index out of range; a final timeout exactly if there is none |
| `Sender.SendExplained` | pkg/io/sender.go:44-166 | All that RunSend returns, read off the first attempt that does anything but run out of time: outcome and number, the attempts sent, the time waited; at most MaxRetries+1 attempts, one if that is less |
| `Sender.FinalTimeoutWaits` | pkg/io/io.go:148-160 | A Send that ends in a final timeout has sent MaxRetries+1 times and waited InitialTimeout plus the closed form of its curve |
| `Attributes.AttributeList.Add` | pkg/radius/attribute.go:121-127 | A value of at most 253 bytes is appended, any other refused without effect |
| `Attributes.AttributeList.AddUint32` | pkg/radius/attribute.go:135-139 | Appends four bytes that read back as the number, and never fails |
| `Attributes.AttributeList.Remove` | pkg/radius/attribute.go:201-213 | Removes every attribute of the type in place, keeps the rest in order, and reports how many went |
| `Attributes.WithoutKeepsTheRest` | pkg/radius/attribute.go:201-213 | Removing a type leaves none of it, every other type as it was, and accounts for every attribute |
| `Attributes.GetIsHeadOfAll` | pkg/radius/attribute.go:151-170 | Get returns the first of GetAll, or nothing when GetAll is empty |
| `Attributes.EncodeAttributes` | pkg/radius/attribute.go:218-229 | Writes the list as consecutive type-length-value triples, and fails exactly when a value does not fit |
| `Attributes.DecodeAttributes` | pkg/radius/attribute.go:233-249 | Reads consecutive triples, failing on a truncated header, a length below 2 or a length past the end |
| `Attributes.ParseExact` | pkg/radius/attribute.go:218-249 | For every list: bytes decode to it if and only if they are its encoding; so they decode at all exactly when some list that fits encodes to them |
| `Vendor.EncodeVSA` | pkg/radius/vendor.go:69-80 | Vendor id, type, length and value; refused exactly above 247 bytes |
| `Vendor.DecodeVSA` | pkg/radius/vendor.go:89-104 | Reads exactly one vendor attribute, refusing a short value or a length that does not match |
| `Vendor.DecodeVSAs` | pkg/radius/vendor.go:108-132 | Reads every vendor attribute of the value, or fails |
| `Vendor.VSARoundTrip` | pkg/radius/vendor.go:69-132 | What EncodeVSA writes is read back by both decoders |
| `Vendor.VSAsLoseNothing` | pkg/radius/vendor.go:108-132 | A value is accepted if and only if it is a vendor id followed by well-formed inner attributes, and the result accounts for every byte |
| `Vendor.GetVendor` | pkg/radius/vendor.go:146-162 | The first matching vendor attribute over all well-formed Vendor-Specific attributes, in wire order |
| `Vendor.GetVendorFindsFirst` | pkg/radius/vendor.go:146-161 | The vendor attribute found is the first of its id and type in wire order over all well-formed attributes 26, and none is found exactly when there is none |
| `Auth.EncryptUserPassword` | pkg/radius/auth.go:55-82 | Block chaining in place produces the hidden password; above 128 bytes it is refused |
| `Auth.DecryptUserPassword` | pkg/radius/auth.go:86-111 | Block chaining in place undoes it and strips trailing NULs; an empty or ragged ciphertext is refused |
| `Auth.UnhideHide` | pkg/radius/auth.go:55-111 | Unhiding what was hidden, through the ciphertext chain, gives back every padded byte |
| `Auth.PasswordRoundTrip` | pkg/radius/auth.go:55-111 | Every password of at most 128 bytes comes back up to its trailing NULs, so exactly when it has none, from a ciphertext of 16 to 128 bytes, a multiple of 16 |
| `Octets.HiddenPasswordOctets` | pkg/radius/auth.go:55-82 | Octet by octet: a password of at most 128 octets is hidden in as many blocks of 16 as it takes, one at least, each octet XORed with that of MD5(secret, previous ciphertext block), the authenticator coming first; longer ones are refused |
| `Packets.Packet.Encode` | pkg/radius/packet.go:84-154 | The bytes or the error, and the authenticator and Message-Authenticator value left in the packet, for every packet |
| `Packets.Packet.ValidateMessageAuthenticator` | pkg/radius/packet.go:192-217 | True exactly when the attribute has 16 bytes inside the datagram and they are the HMAC of it with them zeroed |
| `Packets.Packet.ValidateResponseAuthenticator` | pkg/radius/packet.go:221-232 | True exactly when the authenticator is the digest over the declared bytes and the request authenticator |
| `Packets.Decode` | pkg/radius/packet.go:159-184 | Code, Identifier, authenticator and attributes of the declared length, or the first error; trailing bytes are ignored |
| `Packets.EncodeSucceedsExactly` | pkg/radius/packet.go:84-154 | Which packets Encode accepts, as a condition on code, secret, sizes and the Message-Authenticator length |
| `Packets.EncodeDecodeRoundTrip` | pkg/radius/packet.go:84-184 | For every packet Encode accepts, Decode of its bytes gives the same code, Identifier, stamped authenticator and attribute list |
| `Octets.AttributeOctets` | pkg/radius/attribute.go:218-229 | In every datagram attribute i stands behind the header and the attributes before it: type, length counting those two octets, value |
| `Octets.AuthenticatorOnWire` | pkg/radius/packet.go:104-130 | For every successful Encode: Accounting-, CoA- and Disconnect-Requests carry in octets 4 to 19 the MD5 of the first four octets, 16 zeros, the attributes and the secret; replies the same with the request's authenticator in place of the zeros; a Message-Authenticator enters as the caller had it; an Access-Request carries its own or a random one |
| `Octets.MessageAuthenticatorOnWire` | pkg/radius/packet.go:132-151 | For every successful Encode with attribute 80: the 16 octets of its first value are the HMAC of the whole datagram with those octets zero |
| `Octets.EncodeRefusals` | pkg/radius/packet.go:84-141 | Why Encode fails, in the order of its checks, with the first attribute too long or the length reported; and a packet refused is left unchanged but for its authenticator when only the last check failed |
| `Packets.DecodeExact` | pkg/radius/packet.go:159-184 | A datagram of at most 4096 bytes decodes if and only if it is the wire form of some packet followed by anything, and then to that packet |
| `Packets.OffsetAddressesMessageAuth` | pkg/radius/packet.go:136-151 | The computed offset addresses exactly the first Message-Authenticator value in the wire bytes, and writing 16 bytes there is the wire form of the packet with that value replaced |
| `Packets.FindMessageAuthenticatorOffset` | pkg/radius/packet.go:271-280 | The loop over the attributes computes that offset |
| `Packets.MaAttrIndex` | pkg/radius/packet.go:259-266 | The index of the first Message-Authenticator, or -1 when there is none |
| `Packets.ConstantTimeEqual` | pkg/radius/packet.go:246-255 | The accumulating comparison is equality |
| `Packets.MessageAuthMeaning` | pkg/radius/packet.go:192-217 | On a decoded datagram the check says: the value carried is the HMAC of the whole datagram, trailing bytes included, with that value zeroed |
| `Packets.EncodedMessageAuthValidates` | pkg/radius/packet.go:84-217 | After a successful Encode and Decode of a packet with a Message-Authenticator the validator returns true |
| `Packets.PlainReplyValidates` | pkg/radius/packet.go:117-135 | An encoded reply without attribute 80 passes the Response Authenticator check |
| `Packets.RestoredReplyValidates` | pkg/radius/packet.go:117-151 | One with attribute 80 passes once those 16 bytes are put back to what they were before Encode |
| `Packets.MessageAuthReplyCanFail` | pkg/radius/packet.go:117-151 | For every reply with attribute 80 there are digest functions under which the check fails |
| `Packets.ReplyValidatesExactly` | pkg/radius/packet.go:117-151 | Whatever the digest functions are, an encoded reply passes the check if and only if it has no attribute 80 |
| `Octets.ResponseCheckOctets` | pkg/radius/packet.go:221-232 | On the octets of an accepted datagram: the Response Authenticator check passes exactly for the eight reply codes with octets 4 to 19 equal to the digest over the declared length |
| `Octets.MessageAuthenticatorChecked` | pkg/radius/packet.go:192-213 | On the octets of an accepted datagram: the Message-Authenticator check passes exactly if the first attribute 80 has 16 octets and they are the HMAC of everything received with them zero |
| `Constructors.NewAccessRequestPAP` | pkg/radius/constructors.go:37-70 | User-Name, extras and the hidden password in this order under the random authenticator, or the first error met |
| `Constructors.PapLayout` | pkg/radius/constructors.go:37-71 | Exactly when the request is built, with the identifier and authenticator given, User-Name first, the extras in order and the hidden password last; otherwise the error of the first check that fails |
| `Constructors.PapEndToEnd` | pkg/radius/constructors.go:37-70 | Constructor, Encode and Decode give back the user name and, up to trailing NULs, the password, unless the random authenticator is all zero |
| `Constructors.PapRecoversExactly` | pkg/radius/constructors.go:37-70 | The password is recovered whatever the digest functions are if and only if the random authenticator is not all zero, or Encode draws zero again |
| `Constructors.NewDynAuthAck` | pkg/radius/constructors.go:188-207 | Extras and a 16-byte placeholder under the request's Identifier and authenticator; no reply without a request or with an extra that does not fit |
| `Constructors.NewDynAuthNak` | pkg/radius/constructors.go:210-232 | The same with the Error-Cause in front |
| `Constructors.DynAuthReplyOnWire` | pkg/radius/constructors.go:188-232 | Such a reply always encodes, and decodes to the reply code, the request's Identifier and the given Error-Cause with a valid Message-Authenticator |
| `Constructors.ReplyOctets` | pkg/radius/constructors.go:168-230 | A CoA or Disconnect reply is encoded as one determined datagram: code, the request's identifier, length, the digest over the request's authenticator, the Error-Cause of a NAK, and the HMAC as Message-Authenticator |
| `Observation.ShardAggregation.Observe` | pkg/collector/aggregate.go:104-175 | One event updates exactly the counters and tables of its category and type |
| `Observation.FoldRemembers` | pkg/collector/aggregate.go:113-127 | After any stream each subscriber's activated and established offsets are those of its first such event and its state that of its last terminal event; no entry without an event |
| `Observation.FoldCountsRetransmissions` | pkg/collector/aggregate.go:128-139 | A subscriber's retransmit counters hold the number of its retransmitted auth and acct requests, as 32-bit integers |
| `Observation.FoldCounts` | pkg/collector/aggregate.go:104-175 | Every total is the number of events of its kind, and no more latencies are sampled than requests were answered |
| `Observation.FoldSees` | pkg/collector/aggregate.go:108-111 | Exactly the subscribers of some event are seen, subscriber 0 excepted |
| `Observation.ObserveInOne` | pkg/collector/aggregate.go:227-316 | Observing an event in the one shard that may know its subscriber is observing it after the merge |
| `Observation.ShardingLosesNothing` | pkg/collector/aggregate.go:227-316 | For every stream and every shard count, merging the shards gives what one shard would hold after the whole stream |
| `Aggregate.MergeShard` | pkg/collector/aggregate.go:242-314 | Overwriting the merged rows with a shard's tables, one after another, gives the rows of the merged tables |
| `Aggregate.CountTerminals` | pkg/collector/aggregate.go:284-292 | The per-state counters grow by exactly the shard's states |
| `Aggregate.WidenAll` | pkg/collector/aggregate.go:263-283 | The running earliest and latest are the extremes of all offsets met so far |
| `Aggregate.StillInFlight` | pkg/collector/aggregate.go:347-353 | Subtracting the counts state by state, clamped at 0 |
| `Aggregate.Aggregate` | pkg/collector/aggregate.go:193-446 | The reduction over all shards computes the summary as directly counted from their tables |
| `Aggregate.ShardedSummary` | pkg/collector/aggregate.go:227-432 | For every stream and every shard count the Subscribers, Establishment, Retransmits, CoA and Disconnect sections equal those of a single pass |
| `Aggregate.SubscribersAddUp` | pkg/collector/aggregate.go:341-353 | The total is the sum of all terminal-state counts and the subscribers still in flight, which are exactly those with a row and no terminal state; the negative clamp never fires |
| `Aggregate.RowKeysExactly` | pkg/collector/aggregate.go:227-316 | After any stream a subscriber has a row exactly if it appears in some event; subscriber 0 exactly if an event enters it in a table |
| `Aggregate.TotalCountsAppearing` | pkg/collector/aggregate.go:305-314 | For every stream and shard count the total is the number of subscribers that appear in any event, if and only if subscriber 0 does not appear in such events alone as enter it nowhere; else it is one less |
| `Aggregate.SubscriberZeroIsMissed` | pkg/collector/aggregate.go:109-111 | A stream of one CoA event of subscriber 0, whose total is 0 |
| `SummaryContents.TrafficReported` | pkg/collector/aggregate.go:403-420 | For every stream and shard count: CoA received, acked, naked and dropped, Disconnect received, acked and naked, and the retransmission total are the numbers of events of their own category and type |
| `SummaryContents.LatenciesReported` | pkg/collector/aggregate.go:359-368 | Each section's latency is absent exactly when no answer of its direction has a positive latency; otherwise its extremes and percentiles are the least, the greatest and the nearest ranks of exactly those latencies |
| `SummaryContents.SubscribersReported` | pkg/collector/aggregate.go:341-353 | The subscriber section counts everyone under the state of the last terminal event: established, auth_failed, acct_failed, terminated, or in flight without one |
| `SummaryContents.TimesReported` | pkg/collector/aggregate.go:370-376 | Times to first and full establishment are the least and the greatest first-established offset, 0 without one |
| `SummaryContents.SetupLatencyReported` | pkg/collector/aggregate.go:318-324 | The establishment latency describes, by extremes and nearest ranks, the differences of first establishment and first activation of exactly the subscribers with both |
| `SummaryContents.CurveReported` | pkg/collector/aggregate.go:337-339 | Point b of the curve, at b bucket widths (1000 ms by default), counts the subscribers first activated and first established before it; the last point is the first behind every offset |
| `SummaryContents.RetransmitsReported` | pkg/collector/aggregate.go:326-357 | The retransmission section counts the subscribers with a positive total and gives the nearest ranks and the maximum of the per-subscriber totals of the 32-bit counters |
| `SummaryContents.PlainRetransmits` | pkg/collector/aggregate.go:326-357 | Below 2^31 retransmissions these are the plain numbers of Access- and Accounting-Requests sent again |
| `Curve.BuildEstablishmentCurve` | pkg/collector/aggregate.go:622-669 | Each point is the direct count of subscribers with a non-negative offset below its own, from 0 to the first point past every offset |
| `Curve.FillBuckets` | pkg/collector/aggregate.go:637-654 | Behind its bounds guard the loop counts every subscriber into the bucket its offset falls in |
| `Curve.CurveProperties` | pkg/collector/aggregate.go:622-669 | Both series are monotone from 0 to the full counts, no subscriber is lost, and in_flight is never negative if every established subscriber was activated no later |
| `Curve.CurveUnique` | pkg/collector/aggregate.go:622-669 | The curve is determined by the subscribers and the bucket width, not by map order |
| `Percentile.PercentileIsNearestRank` | pkg/collector/aggregate.go:589-607 | At least ceil(qN) samples are at most the percentile and fewer than ceil(qN) are below it, and only one value has that property |
| `Percentile.PercentileMonotone` | pkg/collector/aggregate.go:589-607 | A larger quantile never gives a smaller percentile, the ends q <= 0 and q >= 1 included |
| `Percentile.DistributionOrdered` | pkg/collector/aggregate.go:544-559 | min <= p50 <= p95 <= p99 <= p999 <= max, min and max are the extremes of the samples, and each percentile is the nearest-rank value |
| `Percentile.DistributionByMultiset` | pkg/collector/aggregate.go:544-559 | The distribution depends on the samples only as a multiset |
| `Collector.Collector.constructor` | pkg/collector/collector.go:135-182 | Defaults for missing sizes, one fresh aggregation per shard, nothing accepted |
| `Collector.Collector.Submit` | pkg/collector/collector.go:199-215 | An event is put on its shard's channel when there is room, else counted as dropped, after Stop as dropped late; every Submit is counted once |
| `Collector.Collector.Receive` | pkg/collector/collector.go:332-343 | The worker observes the oldest queued event, batches it, and flushes a full batch |
| `Collector.Collector.FlushShard` | pkg/collector/collector.go:320-330 | A non-empty batch is handed to the writer, stored or counted as failed, and emptied |
| `Collector.Collector.Stop` | pkg/collector/collector.go:263-301 | After a clean stop every shard has observed exactly its accepted events, once and in order, and absent write errors its batches concatenate to that same sequence |
| `Collector.Collector.Summary` | pkg/collector/aggregate.go:193-432 | Refused before Stop; after it, the summary of a single pass over every accepted event |
| `Collector.DrainedMeans` | pkg/collector/collector.go:310-348 | With nothing queued or batched a shard received exactly the accepted events dealt to it, and stored them all unless a write failed |
| `Subscriber.Subscriber.Transition` | pkg/subscriber/subscriber.go:532-548 | Sets the state and reports the change, or does nothing if the state is already that, with the listener running between lock and report |
| `Subscriber.Subscriber.Terminate` | pkg/subscriber/subscriber.go:553-575 | Writes the final state whatever it was, then reports the change if any, one terminal event and one outcome |
| `Subscriber.Subscriber.OnDisconnect` | pkg/subscriber/subscriber.go:708-739 | Once Run has begun the state becomes terminated and one outcome is submitted, unless it was terminated already |
| `Subscriber.Subscriber.OnCoA` | pkg/subscriber/subscriber.go:685-700 | Counts always, reports once Run has begun, never changes the state |
| `Subscriber.Subscriber.Run` | pkg/subscriber/subscriber.go:300-419 | Interleaved with any listener calls, Run returns the verdict of its Send results after exactly one terminal event and one outcome |
| `Subscriber.Reachable` | pkg/subscriber/subscriber.go:300-739 | The invariant over program point, reports and state writes holds after every interleaving of sections |
| `Subscriber.RunReturnsItsVerdict` | pkg/subscriber/subscriber.go:300-419 | In every interleaving the returned state is a function of the two Send results and IncludeAcctStart; established needs Access-Accept and, when configured, Accounting-Response; one terminal event and one outcome report it |
| `RunLog.RunSaysItsScript` | pkg/subscriber/subscriber.go:300-419 | In every interleaving a Run that returned has submitted exactly, and in order: activated, auth_sent, the reply, acct_sent and its reply when there was a second Send, the final state, its terminal event, its outcome |
| `RunLog.VerdictByCodes` | pkg/subscriber/subscriber.go:346-418 | In every interleaving: auth_failed exactly without reply code 2; acct_failed exactly with it, if configured, and without reply code 5; a second Send exactly after code 2 if configured |
| `Subscriber.NeverCountedTerminated` | pkg/subscriber/subscriber.go:553-575 | No terminal event ever carries the state terminated, in any interleaving |
| `Subscriber.DisconnectOutcomesBounded` | pkg/subscriber/subscriber.go:708-739 | Terminated outcomes never exceed Run's state writes plus one, at most four |
| `Subscriber.TerminatedAbsorbs` | pkg/subscriber/subscriber.go:708-739 | After Run returned, the first disconnect makes the state terminated for good, and however many follow, one state write and one outcome is all they add |
| `Subscriber.TerminatedExactly` | pkg/subscriber/subscriber.go:532-739 | In every interleaving the state is terminated if and only if some live disconnect took its lock with no state write of Run after it |
| `Subscriber.OverwrittenUnlessLater` | pkg/subscriber/subscriber.go:553-563 | When Run has returned the state is terminated if and only if a disconnect took its lock after the state write of terminate, and otherwise the state returned |
| `Subscriber.TerminatedLost` | pkg/subscriber/subscriber.go:553-563 | An interleaving in which a disconnect during Run reports its outcome and Run then ends with another state |
| `Subscriber.CutsExactly` | pkg/subscriber/subscriber.go:708-739 | The outcomes of disconnects, those still owed included, number the live locks that have a state write of Run since every earlier one |
| `RunLog.DisconnectsSay` | pkg/subscriber/subscriber.go:708-739 | In every interleaving the records of disconnects are received, terminated, outcome, once for each state write that has been reported |
| `RunLog.CoAsCounted` | pkg/subscriber/subscriber.go:685-700 | In every interleaving every CoA request is counted, and reported exactly if Run had begun |
| `Subscriber.SecondOutcomeExactly` | pkg/subscriber/subscriber.go:705-739 | A subscriber gets a second terminated outcome if and only if live disconnects took their locks on both sides of a state write of Run |
| `Subscriber.TwoOutcomes` | pkg/subscriber/subscriber.go:705-739 | A seven-step interleaving with two |
| `Subscriber.DisconnectBeforeRun` | pkg/subscriber/subscriber.go:708-712 | A disconnect before Run changes nothing |
| `Subscriber.CutFindsEstablishedExactly` | pkg/subscriber/subscriber.go:702-724 | A disconnect that writes the state finds an established subscriber if and only if terminate had written established before it |
| `Subscriber.IdleIsTerminated` | pkg/subscriber/subscriber.go:702-724 | A three-step interleaving in which a disconnect makes an idle subscriber terminated and reports an outcome |
| `Pool.FormatRecycledUsername` | pkg/subscriber/pool.go:110-129 | The digits filled into the buffer from its end are the index in decimal after base and plus sign |
| `Pool.RecycledInjective` | pkg/subscriber/pool.go:110-129 | Two recycled usernames are equal only for the same base and index |
| `Pool.DottedInjective` | pkg/subscriber/pool.go:101 | Two addresses with the same dotted-quad text are equal |
| `Pool.SessionOctets` | pkg/subscriber/subscriber.go:201-202 | A session id is radstorm- and eight lower-case hexadecimal digits spelling the subscriber's id |
| `Pool.AddressOctets` | pkg/subscriber/subscriber.go:204-205 | An address is 10 followed by the three low octets of the id |
| `Pool.UserNames` | pkg/subscriber/pool.go:89-95 | Subscriber i has credential i, and from the second round on credential i modulo their number, a plus sign and the decimal digits of i |
| `Pool.Pool.constructor` | pkg/subscriber/pool.go:73-105 | One subscriber per index with its identities, and three indexes that know exactly the keys in use and the last subscriber registered under each |
| `Pool.Pool.Lookup` | pkg/subscriber/pool.go:199-225 | Session id, then user name, then framed address; with distinct keys the answer is that of a scan of all subscribers in that priority |
| `Pool.IndexIsScanExactly` | pkg/subscriber/pool.go:147-176 | An index answers every key as a linear scan does if and only if its keys are pairwise distinct |
| `Pool.SessionsDistinct` | pkg/subscriber/subscriber.go:200-202 | Session ids are pairwise distinct for all 32-bit ids |
| `Pool.AddressesDistinctExactly` | pkg/subscriber/subscriber.go:204-205 | Framed addresses are pairwise distinct if and only if there are at most 2^24 subscribers |
| `Pool.UsernamesDistinctExactly` | pkg/subscriber/pool.go:87-95 | Usernames are pairwise distinct if and only if the credentials in use are and none is another with a recycled index appended |
| `Pool.PlusFreeIsUsable` | pkg/subscriber/pool.go:87-95 | Distinct usernames without a plus sign meet that condition for every count |
| `Pool.RecycledCollision` | pkg/subscriber/pool.go:87-95 | Credentials a and a+2 do not, for three subscribers |
| `Pool.KeysDistinct` | pkg/subscriber/pool.go:73-105 | For at most 2^24 subscribers over usable credentials no two share a username, session id or address |
| `Pool.SharedKeyGoesToTheLast` | pkg/subscriber/pool.go:98-101 | A shared key answers with the later subscriber, where a scan answers with the earlier |
| `Handler.Listener.HandlePacket` | pkg/server/handler.go:40-311 | What is seen afterwards is what the datagram's verdict adds: dropped, or answered with one reply of its own kind and Identifier with the right Error-Cause and a valid Message-Authenticator, with the counter, events and callback of that verdict; a failed write counts as dropped |
| `Answers.VerdictExactly` | pkg/server/handler.go:40-155 | A datagram is dropped exactly unless it decodes with code 43 or 40 and authenticates itself; then it is refused with 401 exactly for a malformed attribute 26, else with 503 exactly if the lookup finds nobody, else acknowledged for whom it finds |
| `Answers.AnswerDecodes` | pkg/server/handler.go:122-311 | Every fitting reply to a CoA-Request decodes with code 44 when it acknowledges and 45 when it refuses, to a Disconnect-Request with 41 and 42, with the request's identifier and Error-Cause 401 or 503 exactly on a refusal |
| `Handler.Listener.BuildReply` | pkg/server/handler.go:122-139 | Building and encoding the reply cannot fail, so those branches are unreachable; the bytes decode to the reply intended |
| `Handler.Listener.HasBadVSA` | pkg/server/handler.go:401-415 | True exactly when some Vendor-Specific attribute is malformed |
| `Handler.Listener.ReadLoop` | pkg/server/listener.go:263-304 | The non-empty datagrams are handled one after another in order, and everything seen is what their verdicts, carried out in turn, call for |
| `Handler.InTurnAdds` | pkg/server/handler.go:40-311 | For any datagrams handled in turn: events and callbacks are those of the verdicts in order, the replies are exactly those written, every datagram is in one counter, and there is a reply for each acked or naked one |
| `Answers.SentInTurn` | pkg/server/handler.go:40-311 | Every datagram sent while handling datagrams in turn is the one determined answer to a datagram received: its kind's code, its identifier, the digest over its authenticator, the cause its attributes and the lookup call for |
| `Readers.ProgramIsAfter` | pkg/server/handler.go:40-311 | A reader that carries out its effects undisturbed does what HandlePacket does |
| `Readers.EveryDatagramAccounted` | pkg/server/listener.go:263-304 | In every state of every interleaving of any number of readers, received is acked plus naked plus dropped plus those still in a reader's hands |
| `Readers.ReadersTogether` | pkg/server/listener.go:183-191 | Whenever no reader has a datagram in hand, the events, replies, callbacks and counters are, but for their order, those of the same datagrams handled one after another |
| `Answers.SentTogether` | pkg/server/listener.go:183-191 | The same of any number of readers working at once, whenever none has a datagram in hand |
| `Handler.EncodedRequestIsAnswered` | pkg/server/handler.go:78-272 | A request with a Message-Authenticator encoded under the listener's secret is never dropped, refused with 401 exactly if a vendor attribute is malformed, else decided by the lookup |
| `Reporting.FoldKeepsLastEnding` | pkg/collector/aggregate.go:120-127 | The terminal state kept for a subscriber is that of its last terminal event, and there is none without one |
| `Reporting.TerminalIsVerdict` | pkg/subscriber/subscriber.go:553-575 | After the whole stream the subscribers with a terminal state are those whose Run ended, each with the state its Run returned |
| `Reporting.SummaryCountsVerdicts` | pkg/collector/aggregate.go:341-353 | End to end: however Runs interleave with the listener and each other, over any number of shards the summary counts each Run under the state it returned, none as terminated, and the rest as still in flight |
| `Reporting.TerminatedCountExactly` | pkg/collector/aggregate.go:284-292 | However Runs and disconnects interleave, the terminated count of the summary falls short of the subscribers left terminated by exactly those that a disconnect cut after the last state write of their Run; it is right if and only if there is none |
| `Reporting.DisconnectedCountsAsEstablished` | pkg/subscriber/subscriber.go:708-739 | One subscriber, established and then disconnected, over any number of shards: it is left terminated, and the summary has it as established, with a terminated count of 0 |
| `Dispatch.EncodeKeepsTarget` | pkg/radius/packet.go:136-151 | Filling in the Message-Authenticator does not change whom the three indexes find |
| `Dispatch.AnsweredByIndexes` | pkg/subscriber/pool.go:199-225 | Whatever the indexes hold, an encoded, well-formed request is acknowledged for the subscriber they find for the attributes as the client set them, or refused with 503 |
| `Dispatch.RequestReachesItsTarget` | pkg/server/handler.go:78-272 | With indexes of a pool whose keys are distinct, that is the subscriber a scan of the whole pool finds |
| `Dispatch.SessionIdReachesSubscriber` | pkg/subscriber/pool.go:199-211 | A request whose first attribute 44 is a subscriber's session id is acknowledged for that subscriber, for all pools of up to 2^32, shared user names or not |
| `Dispatch.UserNameReachesSubscriber` | pkg/subscriber/pool.go:212-218 | Without a session id in use, a request whose first attribute 1 is a user name is acknowledged for the last subscriber that has it |
| `Dispatch.AddressReachesSubscriber` | pkg/subscriber/pool.go:219-222 | Without a session id or user name in use, a request whose first attribute 8 holds the octets 10 and the low three of i is acknowledged for subscriber i, for all pools of up to 2^24; in larger ones for the last that shares the address |
| `Dispatch.OtherAddressReachesNobody` | pkg/subscriber/pool.go:219-224 | Any other value there, of another length or of no subscriber, and none at all, is refused with 503 |
| `Dispatch.SharedUserNameReachesTheLast` | pkg/subscriber/pool.go:98-101 | A request by a user name that two subscribers share is never acknowledged for the earlier one |
| `Handler.EncodedVSAIsAccepted` | pkg/server/handler.go:401-415 | A vendor attribute built by EncodeVSA never causes a refusal |

## Left out

- UDP sockets, timers, contexts and goroutine scheduling: replaced by nondeterministic steps and choices.
- `RequestEngine` models the lock sections as steps of a state machine; that a Go mutex makes them atomic is taken as given.
- Matcher.ReplyMatcher.Deliver: states the outcome of an undisturbed call; what may happen between its two lock sections is stated in `RequestEngine`.
- Byte aliasing: decoded attribute values share memory with the datagram in the source and are values here.
- Counters of 64 bits are unbounded naturals; the 32-bit retransmit counters and the timeout arithmetic wrap as in the source.
- Quantiles are exact rationals; float64 rounding of the rank is not modelled.
- Percentile.SortedCopy: an insertion sort stands for the library sort; any sorted permutation gives the same distribution.
- CHAP, Accounting-Request constructors, the dictionary and the code names: more of the same building, no harder property.
- `NewEngine`, `Start`, `Stop` and the preconditions of `Engine.Send`: nil and state checks.
- Collector.Collector.Submit: each call is atomic and before or after Stop; the race with closing the channels is not modelled.
- Stop when its context ends first, file rotation, Parquet and the outcome channel: a batch write is an append or a failure.
- Per-subscriber CoA counts and disconnect times of a shard, which no summary reads; thresholds, run metadata and the measurement-integrity section of the summary.
- Subscriber.Subscriber.Run: the early returns on missing dependencies, the timestamps and the retransmit counts recorded in the outcome are not modelled.
- An OnDisconnect submits its three records as one section.
- Handler.Listener.HandlePacket: tags and latencies of the events are left out, and the lookup is any function of the attributes.
- Readers: a datagram is judged and the reply built as it is read; every later effect is a step of its own.
- Sender.Attempt: as RunSend below, nothing of other threads runs in between.
- Sender.RunSend: the scans' start indexes and the fates of attempts are given, and other threads do not run in between; what they may do is in `RequestEngine`.
- Pool.FormatRecycledUsername: indexes of more than 12 digits, for which the source's buffer is too small, are excluded.
- pkg/scenario, pkg/config and the applications.
