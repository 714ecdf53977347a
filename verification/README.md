# A verified model of an authoritative DNS server

The system answers DNS queries for one zone. A master turns a list of records into a database, checks it, signs it
and publishes it; slaves fetch or receive copies and answer from them; a small UPDATE server accepts TSIG-signed
messages; a rate limiter stands in front. This project models the parts of that system in which the hard guarantees
lie, and proves the guarantees for all inputs, all runs and all reachable states.

| file | what it models |
|---|---|
| `Bytes`, `Names`, `Records`, `TypeBitmap` | octets and big-endian fields, domain names, record payloads, NSEC3 type bitmaps |
| `Database`, `Resolver`, `RfcResolver`, `Sanity`, `Resolution` | the indexed database, lookup with wildcards and against the RFC, the checks before publication and what they decide |
| `Base32`, `Sorting`, `Nsec3Ring`, `Nsec3Chain`, `Nsec3Proof` | the ring of hashed names and the closest-encloser proof |
| `SigningBytes`, `Signing`, `SignedZone`, `SignedIds` | what is signed, by which keys, and the pipeline that signs a zone |
| `SignatureReading`, `ServedRecords`, `Rdata` | what a client reads in signatures, keys, the chain and every other record it is served |
| `SigningTheorems`, `SignatureTheorems`, `Response`, `ProofSignatures`, `DenialTheorems`, `ChainOwnerTheorems`, `BitmapTheorems`, `AuthorityTheorems` | what signing keeps and signs, when denial agrees with lookup, and what the authority section shows |
| `NameReader`, `Message`, `MessageTheorems`, `Query`, `QueryTheorems`, `Verifier` | wire formats, server against client |
| `UpdateNames`, `Update`, `UpdateTheorems`, `Tsig` | UPDATE messages and their signatures |
| `RateLimit`, `RateTheorems`, `FairnessTheorems` | token buckets, garbage collection, how much gets through over a run and who is refused |
| `Replication`, `Nodes`, `EndToEnd`, `Witness` | rebuild, push, poll, snapshot and restart as a protocol, and what a slave then serves |

`dafny verify dfyconfig.toml` checks everything.

## How to read the model

- A name is a sequence of labels, leftmost first; labels are the lower-case octet strings that `NewDomain` lets
  through. `Text` is the string the source keeps, and the lemmas of `Names` carry its string operations over.
- `RR.id` stands for the address of a record: two records of equal content are two records. A decoded record keeps
  the id of the record it is a copy of.
- Hashing, signing and HMAC are function parameters. Where a result needs hashes to be distinct, it says so of the names
  involved (`Injective`), and nothing is assumed of any other name.
- Loops of the source are methods with invariants; each is proved equal to a function on the flat record list or on
  the octets, and the theorems are about those functions.
- What depends on map order in the source is a choice in the model, and the theorems hold for every choice.

## Where the code departs from the ideal

Each of these is stated exactly: an input that shows it, and the condition under which the code does meet the property.

- Section 4.3.2 of RFC 1034: the server does not restart at a canonical name (`RfcResolver.CnameExample`), never refers
  to a delegated zone (`RfcResolver.ReferralExample`), and does not see that an empty non-terminal exists, which it
  answers NXDOMAIN (`RfcResolver.EmptyNonTerminalExample`) or with synthesised data
  (`RfcResolver.SynthesisedNonTerminalExample`). It also answers for names outside its zone. `RfcResolver.RfcAgreement`
  gives the condition on the zone under which code and answers are those of the RFC, for every name and type.
- The ninth sanity check takes any name whose string ends in the letters of the zone for one of its names, and refuses
  a zone for a CNAME to it (`Resolution.AstrayExample`). `Resolution.AcceptedExact` says what acceptance means, and
  `Resolution.OwnNamesOnly` when the check decides resolution.
- The owner names of the chain join the zone after the chain was built. Signing takes away the answer of a name that
  becomes such an owner (`SigningTheorems.SigningChangesChainOwner`), and of a name below one that the wildcard at the
  apex answered (`SigningTheorems.SigningShadowsWildcard`). `SigningTheorems.SigningReplies`: these are all; and
  `ChainOwnerTheorems.NoZoneKeepsAll`: every signed zone has such a name.
- NSEC3PARAM joins the apex after the chain was built, and is not announced there. `BitmapTheorems.ServedBitmap`:
  otherwise the bitmaps are those of the zone served, up to NSEC3 itself.
- A name answered NXDOMAIN has no proof at the closest encloser of the lookup when that encloser is an empty
  non-terminal (`DenialTheorems.EntDefeatsProof`, run through on three records by `Witness.EntWitness`) or an owner of
  the chain (`DenialTheorems.ChainOwnerDefeatsProof`). `DenialTheorems.DenialExact` gives the condition for every name:
  the encloser owned records before signing. In a zone without empty non-terminals only the second case is left
  (`DenialTheorems.ClosedDenial`), and it always occurs (`ChainOwnerTheorems.EveryZoneHasUndenied`).
- Replies without data, and all replies from a wildcard, carry no NSEC3 record. `AuthorityTheorems.AuthorityExact` says
  for which replies the authority section denies what it must, and `AuthorityTheorems.AuthorityWhole` what it holds.
- The root is written as two zero octets, in records and in queries: `MessageTheorems.RootShifts`,
  `QueryTheorems.RootQueryMisread`. `MessageTheorems.ClientReadsReply` makes "no record owned by the root" part of its
  if-and-only-if.
- The UPDATE parser's count of octets stops one short of a pointer behind a label
  (`UpdateNames.LabelThenPointerExample`) and runs on behind a pointer that leads forward
  (`UpdateNames.ForwardPointerExample`). `UpdateNames.CounterIs` says what it counts for every readable name, and
  `UpdateNames.ConsumedExact` when that is right.
- A wildcard answer cannot be verified by the test client, which rebuilds the signed bytes under the queried name:
  `Verifier.VerifierRebuildsSigned`.

## Model

| member | source | states |
|---|---|---|
| `Names.WriteDomain` | internal/rec/domain.go:81-101 | the octets of a string are its dot-separated labels behind their lengths, closed by a root label; for the string of a name they are its wire form |
| `Bytes.CompareFirst` | internal/rec/domain.go:105-148 | the comparison of octet strings the canonical order rests on: the first difference decides, and of two strings one of which starts the other the shorter comes first |
| `Names.WirePrefixFree` | internal/rec/domain.go:81-101 | a name can be read off whatever its wire form is the start of: equal octets mean equal names and equal rests |
| `Names.SplitText` | internal/rec/domain.go:98-101 | cutting a name's string at its dots gives back its labels |
| `Names.CompareDomain` | internal/rec/domain.go:105-148 | counting shared trailing labels decides the canonical order, and 0 means equal names |
| `Names.CanonicalTrans` | internal/rec/domain.go:105-148 | the canonical order is transitive |
| `Names.SuffixIsBelow` | internal/db/db.go:127-135 | the string test "ends in a dot and this name" holds exactly of the names strictly below it |
| `TypeBitmap.Build` | internal/rec/rropts.go:398-428 | for every ascending type list: a reader finds exactly the listed types, windows increase strictly, blocks have 1 to 32 octets and a last octet that is not zero |
| `TypeBitmap.EncodeExact` | internal/rec/rropts.go:398-428 | the same of the recursive form, behind any window already written |
| `Records.TxtPayload` | internal/rec/rropts.go:179-198 | joining the character-strings gives back the text, whatever its length |
| `Rdata.ReadPayload` | internal/rec/rropts.go:95-393 | a reader of each type over octets and offsets, with its own name, string and bitmap readers, gets back every field up to its width, for all fifteen types, if and only if addresses have their length, what stands behind a length octet fits one, and type numbers fit 16 bits |
| `Rdata.TargetRead` | internal/db/db.go:165-196 | the name for which a reply brings addresses is the host so read in an NS, CNAME, MX or SRV record, and there is none for any other type |
| `Rdata.ClientLearnsReply` | cmd/test/wire.go:98-199 | from the octets of any reply with room for its records the client learns owner, type, TTL and every field of every record of a section if and only if those fields fit |
| `Database.NewDB` | internal/db/db.go:33-46 | both indexes hold, for every type and every owner, the records of the list in list order |
| `Database.LookupByType` | internal/db/db.go:49-59 | the records of the type list with that name, in order |
| `Database.LookupByName` | internal/db/db.go:62-72 | the records of the name list with that type, in order |
| `Database.IndexedRRset` | internal/db/db.go:33-72 | both indexed lookups equal the plain filter of the record list |
| `Database.WildcardLookup` | internal/db/db.go:81-160 | for every database and name: the wildcard at the longest existing proper ancestor and its records of the type if that wildcard owns records, otherwise nothing |
| `Database.Blocked` | internal/db/db.go:107-142 | the inner loop reports exactly whether a node between the name and the wildcard's parent exists, empty non-terminals included |
| `Database.ClosestEncloserSpec` | internal/db/db.go:81-160 | the recursive search finds the closest encloser of the RFC and nothing else |
| `Database.LookupAdditional` | internal/db/db.go:165-196 | the addresses of the answers' targets, each target once, in the order of first mention |
| `Database.AdditionalExact` | internal/db/db.go:165-196 | what that finds: every A and AAAA record of a target, as often as the list has it, and no other record |
| `Database.FlattenKeepsRRsets` | internal/db/db.go:199-242 | in any map order, flattening and re-indexing keeps every RRset with its order if and only if no record was listed twice |
| `Database.FlattenPermutes` | internal/db/db.go:199-242 | it keeps the records, the type index and the owners |
| `Resolver.LookupRRset` | internal/slave/response.go:16-72 | the reply is that of the record list: exact match, CNAME, NODATA, wildcard synthesis, NXDOMAIN, with additional records and effective owner |
| `RfcResolver.RfcAgreement` | internal/slave/response.go:16-72 | response code and answers are those of section 4.3.2 of RFC 1034, delegations and CNAME restarts included, if and only if the name is in the zone and not delegated, neither it nor its wildcard is an empty non-terminal (or a wildcard without data hides that), and no restart has anything to add |
| `RfcResolver.EmptyNonTerminalExample` | internal/slave/response.go:38-51 | an empty non-terminal answered NXDOMAIN where the RFC has no data |
| `RfcResolver.SynthesisedNonTerminalExample` | internal/slave/response.go:43-72 | one answered with data synthesised from the wildcard at the apex |
| `RfcResolver.CnameExample` | internal/slave/response.go:26-36 | a CNAME into the zone, answered without the records of its target |
| `RfcResolver.ReferralExample` | internal/slave/response.go:43-51 | a name below a delegation, answered NXDOMAIN instead of a referral |
| `Resolver.NxDomainExact` | internal/slave/response.go:43-51 | NXDOMAIN if and only if the name owns nothing and its closest encloser has no wildcard |
| `Resolver.FlattenKeepsReplies` | internal/db/db.go:199-242 | in any map order, a flattened and re-indexed database gives every reply of the original, order included |
| `Sanity.ChaseLoop` | internal/db/sanity.go:160-198 | the chase loop computes the bounded chase of the record list |
| `Sanity.ChaseExact` | internal/db/sanity.go:150-198 | the bounded chase accepts if and only if the chase without a bound does, by the source's own zone test |
| `Sanity.BoundMeansCycle` | internal/db/sanity.go:150-198 | hitting the bound means that a name was visited twice, and that no number of steps would have helped the chase |
| `Sanity.OwnersBelowBound` | internal/db/sanity.go:48-63 | once an SOA is there, the CNAME owners are fewer than the records, which is the bound |
| `Sanity.SanityChecks` | internal/db/sanity.go:45-201 | the error returned is that of the first of nine properties of the record list that fails, the last one the chase of every CNAME without a bound |
| `SigningTheorems.CompatibleExactly` | internal/db/sanity.go:32-41 | beside a CNAME the check lets stand CNAME and what signing adds below the apex, and no other type |
| `Resolution.ChaseResolves` | internal/db/sanity.go:150-198 | the bounded chase accepts a target if and only if the chain from it reaches an address or leaves the zone after finitely many steps, and a lookalike of the zone on which it leaves is chased on with success |
| `Resolution.NinthCheck` | internal/db/sanity.go:150-198 | the ninth check holds if and only if every CNAME into the zone resolves, and every CNAME to a lookalike of the zone is chased with success |
| `Resolution.OwnNamesOnly` | internal/db/sanity.go:150-198 | in a zone that holds only its own names: if and only if every CNAME into the zone resolves and none points at a lookalike |
| `Resolution.AcceptedExact` | internal/db/sanity.go:45-201 | a zone is accepted if and only if it passes the first eight checks and those two conditions |
| `Resolution.AstrayExample` | internal/db/sanity.go:153-155 | a zone whose only chain leaves it at once, refused because the target's name ends in the same letters |
| `Base32.EncodeOrder` | internal/dnssec/nsec3.go:95-117 | equal-length hashes and their base32hex labels compare alike |
| `Base32.RoundTrip` | internal/dnssec/nsec3proof.go:206-235 | decoding a label gives back the hash |
| `Nsec3Ring.CoveredOnce` | internal/dnssec/nsec3proof.go:192-202 | in every ring, also of one, a hash outside it is covered by exactly one interval |
| `Nsec3Ring.MemberUncovered` | internal/dnssec/nsec3proof.go:192-202 | a hash inside the ring is covered by none |
| `Nsec3Chain.HashName` | internal/dnssec/nsec3.go:22-46 | the loop applies the salted hash once and then as often as there are iterations |
| `ServedRecords.RoundsAre` | internal/dnssec/nsec3.go:22-46 | which is what a resolver computes from the inside out: hash the name with the salt behind it, and each digest again with the salt behind it |
| `Nsec3Chain.CollectTypes` | internal/dnssec/nsec3chain.go:70-89 | the ascending list of the types at a node, each once, and RRSIG if it has any record |
| `Nsec3Chain.TypesAtExact` | internal/dnssec/nsec3chain.go:70-89 | the list is ascending, holds no type twice, and holds exactly the types of the records and, if there are any, RRSIG |
| `Nsec3Chain.ChainBitmapExact` | internal/dnssec/nsec3chain.go:64-105 | the bitmap of each record of a built chain announces exactly the types at its owner, and RRSIG |
| `BitmapTheorems.ServedBitmap` | internal/dnssec/nsec3chain.go:64-105 | in every signed zone, the bitmap of each chain record announces exactly the types served at its owner, signatures included, except NSEC3 and NSEC3PARAM |
| `BitmapTheorems.Unannounced` | internal/master/db.go:192-205 | NSEC3PARAM, served at the apex alone, and NSEC3, served at chain owners alone, are never announced |
| `Nsec3Chain.BuildNSEC3Chain` | internal/dnssec/nsec3chain.go:26-125 | one record per owner name in hash order, each pointing to the next and the last to the first, with their index; an error exactly when there is no owner |
| `Nsec3Chain.ChainOrderUnique` | internal/dnssec/nsec3chain.go:59-62 | with distinct hashes the unstable sort leaves no choice |
| `Nsec3Chain.RebuildNSEC3Chain` | internal/dnssec/nsec3chain.go:132-201 | succeeds exactly when all payloads have the right form, and holds the chain records sorted by owner string |
| `Nsec3Chain.RebuildIsBuild` | internal/dnssec/nsec3chain.go:132-201 | on any database with the records of a built chain, in any order, the rebuilt chain is the built one: records, index and parameters |
| `Nsec3Chain.FindCovering` | internal/dnssec/nsec3proof.go:206-235 | the first record whose interval covers the hash |
| `Nsec3Chain.CoveringExact` | internal/dnssec/nsec3proof.go:206-235 | on a built chain that is the one covering record for a hash outside the ring, and none for a hash inside |
| `Nsec3Proof.BuildCandidates` | internal/dnssec/nsec3proof.go:167-185 | the name and its ancestors below the zone, longest first |
| `Nsec3Proof.ClosestEncloserProof` | internal/dnssec/nsec3proof.go:28-162 | the loop search and the three lookups give the proof, or the error, of the recursive definition |
| `Nsec3Proof.ProofExact` | internal/dnssec/nsec3proof.go:28-162 | for a name outside the chain: an error exactly when the wildcard at the longest ancestor in the chain is in the chain, else the record matching that ancestor and the two covering its child toward the name and its wildcard |
| `SigningBytes.WriteSigned` | internal/dnssec/rrsig.go:118-143 | the buffer is the header and the records in the order of their payloads, whatever the sort does with ties |
| `SigningBytes.SignedBytesPermute` | internal/dnssec/rrsig.go:118-143 | two listings of one RRset are signed as the same bytes |
| `Signing.SplitKeys` | internal/dnssec/rrsig.go:224-241 | the keys of the two roles, as the next row characterises them |
| `Signing.SignersExact` | internal/dnssec/rrsig.go:224-241 | each key as often as it is listed among those that sign a type if it is of the role (key-signing for DNSKEY, zone-signing for the rest) or the role has no key; otherwise not at all |
| `Signing.ChainKeys` | internal/master/db.go:207-219 | step 6 selects the same keys as `SignDB` does for types other than DNSKEY |
| `Signing.SignRRset` | internal/dnssec/rrsig.go:77-202 | the RRSIG of a set, which the next row reads, or nothing exactly when the set is empty, the algorithm unknown or the primitive refuses |
| `SignatureReading.SignatureReads` | internal/dnssec/rrsig.go:94-202 | a client reads in it the type, TTL and labels of the set (one less for a leading `*`), the algorithm and tag of the key, the zone, the expiration at octet 8 and the inception at octet 12; and behind those fields the signature of this key over them and the set |
| `Verifier.SignedBytesAre` | internal/dnssec/rrsig.go:118-143 | what is signed: the header, and the records of the set in wire form, class IN, under the one owner, TTL and type, sorted by RDATA |
| `Signing.SignDB` | internal/dnssec/rrsig.go:218-291 | every RRset but signatures comes up once, with the signatures of the keys of its role; it fails exactly when one of these cannot be made |
| `Signing.SigListExact` | internal/dnssec/rrsig.go:243-291 | among all signatures of the list, those over one RRset are exactly one per key of its role |
| `SignedZone.SignZone` | internal/master/db.go:162-247 | the database is that of the original list, the keys, the signatures, the chain, its parameters and their signatures; it fails exactly when a signature cannot be made or there is no name to chain |
| `SignedZone.OrdinaryKept` | internal/master/db.go:124-248 | RRsets and type lists of the types signing never adds come through unchanged, order included |
| `SignedZone.SignedOwners` | internal/master/db.go:201-205 | the new owner names are those of the chain |
| `SignedZone.ChainNames` | internal/master/db.go:192-205 | the chain is over the owner names of the unsigned zone |
| `SignedIds.SignedNoDup` | internal/master/db.go:162-247 | the signed list names no record twice |
| `SigningTheorems.SigningReplies` | internal/master/db.go:124-248 | for every name and ordinary type: rcode, answers, additional records and effective owner are the same before and after signing, if and only if the name is no new chain owner and is not below one past which the wildcard at the apex answered |
| `SigningTheorems.SigningKeepsReplies` | internal/master/db.go:124-248 | so they are at every owner of the zone and at every name not at or below a chain owner |
| `SigningTheorems.SigningChangesChainOwner` | internal/master/db.go:201-205 | at a chain owner the zone did not have, NODATA replaces the reply |
| `SigningTheorems.SigningShadowsWildcard` | internal/master/db.go:201-205 | below such an owner, NXDOMAIN replaces the answer of the wildcard at the apex |
| `ChainOwnerTheorems.NewChainOwner` | internal/master/db.go:201-205 | every signed zone with distinct hashes has a chain owner with nothing of the zone at or below it |
| `ChainOwnerTheorems.NoZoneKeepsAll` | internal/master/db.go:124-248 | so no signed zone keeps every reply: at some name signing changes it for every ordinary type |
| `SigningTheorems.SigningKeepsVerdict` | internal/db/sanity.go:45-201 | the checks give the same verdict before and after signing |
| `SignatureTheorems.EveryRRsetSigned` | internal/master/db.go:182-242 | in the signed zone every RRset other than RRSIG, the chain and its parameters included, has exactly one signature per key of its role |
| `SignatureReading.EverySignature` | internal/dnssec/rrsig.go:77-291 | every RRSIG of a signed zone, read by a client, belongs to an RRset that is served: its type, TTL, labels, a key of its role by tag and algorithm, the zone, and the expiration and inception for its type; and it is the signature of that key over that set |
| `ServedRecords.KeysServed` | internal/master/db.go:162-179 | every key is served at the apex with its flags, protocol 3, algorithm and key octets, and every DNSKEY the zone did not bring is one of them |
| `ServedRecords.ChainServes` | internal/dnssec/nsec3chain.go:64-125 | a resolver that hashes with the salt and iterations it reads in a chain record finds the label that record stands under and the hash it points to; NSEC3PARAM tells the same parameters, and both have the TTL of the SOA |
| `Response.CoveredType` | internal/slave/response.go:94-106 | the type whose signatures are wanted: that of the first answer that is no signature |
| `Response.SignaturesAt` | internal/slave/response.go:108-115 | all signatures of the owner over the type, in order |
| `Response.AppendDNSSEC` | internal/slave/response.go:78-153 | signatures behind positive answers, the proof and its signatures behind the authority of NXDOMAIN, untouched sections without DO; which records these are is what `DenialTheorems.AnswersSigned` and `DenialTheorems.DeniedReply` say |
| `Response.AppendNegativeAuthority` | internal/slave/response.go:157-182 | the SOA, and its signatures for DO clients, on NXDOMAIN and NODATA only |
| `DenialTheorems.AnswersSigned` | internal/slave/response.go:78-115 | every positive answer to a type other than RRSIG, wildcard and CNAME fallbacks included, is an RRset of its effective owner, renamed for a wildcard, and the signatures added are one per key of that RRset's role |
| `DenialTheorems.SlaveChainIsMasters` | internal/dnssec/nsec3chain.go:132-201 | a slave that rebuilds the chain from the signed zone has the chain the master built |
| `DenialTheorems.DenialExact` | internal/dnssec/nsec3proof.go:28-162 | for every name below the apex that is answered NXDOMAIN: the proof denies it at the closest encloser the lookup used if and only if that encloser owned records before signing |
| `DenialTheorems.ClosedDenial` | internal/dnssec/nsec3proof.go:28-162 | in a zone closed under ancestors: if and only if the name is not below a chain owner that the zone did not have |
| `DenialTheorems.DenialComplete` | internal/dnssec/nsec3proof.go:28-162 | every other NXDOMAIN of such a zone gets its proof without error, and lookup and proof agree on the closest encloser |
| `DenialTheorems.ChainOwnerDefeatsProof` | internal/master/db.go:201-205 | below a chain owner with nothing of the zone under it: NXDOMAIN, that owner is the closest encloser, and no records of the chain deny the name there |
| `ChainOwnerTheorems.EveryZoneHasUndenied` | internal/master/db.go:201-205 | so every signed zone answers NXDOMAIN, for every type, to names that no records of its chain deny |
| `DenialTheorems.DeniedReply` | internal/slave/response.go:116-150 | the reply then carries exactly the three records of that proof, each once, and for each of them exactly one RRSIG over NSEC3 per key of its role, over that one record, with the times of the chain |
| `ProofSignatures.ProofIsAdded` | internal/slave/response.go:131-148 | so it is for any three records of the chain, whichever of them coincide, and any list that serves the signatures of the zone |
| `DenialTheorems.EntDefeatsProof` | internal/dnssec/nsec3chain.go:40-44 | a zone with an empty non-terminal in which an NXDOMAIN gets no proof |
| `NameReader.ParseName` | cmd/test/wire.go:205-271 | on arbitrary octets: the labels found by following at most 128 pointers; the set of visited targets never changes a result |
| `NameReader.BackPointer` | cmd/test/wire.go:230-246 | a pointer back to where the reader came from is never resolved, however many jumps are allowed |
| `NameReader.ReadWritten` | cmd/test/wire.go:205-271 | an uncompressed name is read back to its last octet, whatever stands around it |
| `Message.BinaryWrite` | internal/rec/rr.go:67-99 | owner, type, class IN, TTL, length and payload, in this order, behind the buffer |
| `Message.ResponseFlags` | internal/dns/response/response.go:46-49 | QR and AA set, opcode zero, TC and the bits between RD and the rcode clear, RD that of the query, the rcode cut to four bits |
| `Message.BuildResponse` | internal/dns/response/response.go:35-99 | header with counts and flags, the question as given, and three sections in order |
| `Message.AppendOPT` | internal/dns/response/response.go:136-170 | nothing on a short message; otherwise ARCOUNT up by one in 16 bits and an OPT record behind |
| `Message.OptOnFrame` | internal/dns/response/response.go:136-170 | on a message that is to adding the OPT record to the additional section |
| `Message.ParseSection` | cmd/test/wire.go:131-167 | the records of a section on arbitrary octets, or the error |
| `Message.ParseResponse` | cmd/test/wire.go:98-199 | the message on arbitrary octets, or the error; in bounds and finite |
| `MessageTheorems.ClientReadsReply` | cmd/test/wire.go:98-199 | for every response of any size: the client recovers id, flags, the three sections in order, OPT and DO if and only if owners are not the root and payload lengths and counts fit 16 bits |
| `MessageTheorems.WriteReply` | internal/dns/response/response.go:35-170 | the writers, called one after the other, write the reply that theorem is about |
| `MessageTheorems.RootShifts` | internal/rec/domain.go:81-101 | what the client makes of a record owned by the root |
| `Query.BuildQuery` | cmd/test/wire.go:26-70 | header, question and, if asked for, an OPT record |
| `Query.ParseQuery` | internal/dns/query/query.go:45-129 | the question on arbitrary octets, or which of eight errors |
| `Query.ParseOPT` | internal/slave/wire.go:70-128 | the EDNS data on arbitrary octets; in bounds and finite |
| `Query.SkipNameAt` | internal/slave/wire.go:131-146 | the offset behind a name |
| `QueryTheorems.ServerReadsQuery` | internal/dns/query/query.go:45-129 | for every name but the root, `New` recovers what `buildQuery` wrote, or finds the name too long exactly above 255 octets |
| `QueryTheorems.OpcodeRead` | internal/dns/query/query.go:50-51 | of any accepted query, whatever its flags, the opcode is the four bits behind the first of its third octet |
| `QueryTheorems.RootQueryMisread` | cmd/test/wire.go:40-47 | what the server makes of a query for the root |
| `QueryTheorems.ServerReadsEdns` | internal/slave/wire.go:70-128 | `parseOPT` recovers the EDNS part of a query |
| `QueryTheorems.EdnsRead` | internal/slave/wire.go:70-128 | it finds the first OPT record of the additional section behind any records of any section |
| `QueryTheorems.ReplyToQuery` | internal/dns/response/response.go:35-99 | the question of any accepted query can be copied into a reply that the client reads back |
| `Verifier.ParsePlain` | cmd/test/wire.go:275-306 | the labels of an uncompressed name on arbitrary octets |
| `Verifier.ParseRRSIG` | cmd/test/dnssec.go:126-154 | the fields, the header and the signature, on arbitrary octets |
| `Verifier.SigRoundTrip` | cmd/test/dnssec.go:126-154 | every field of an RRSIG payload is recovered, and it is cut where the signature starts |
| `Verifier.BuildSigningInput` | cmd/test/dnssec.go:204-232 | the header and the received records, sorted by payload, each under its own owner |
| `Verifier.VerifierRebuildsSigned` | cmd/test/dnssec.go:204-232 | after both have gone over the wire, the client rebuilds the signer's bytes if and only if the RRset was answered under its own owner |
| `UpdateNames.ParseUpdateName` | internal/rfc2136/wire.go:301-379 | ends on every input, with the labels found by following pointers without limit and the counter of octets |
| `UpdateNames.SeenBound` | internal/rfc2136/wire.go:330-337 | the measure that makes it end: no more targets than 14 bits can name |
| `UpdateNames.CounterIs` | internal/rfc2136/wire.go:301-379 | for every readable name: without pointers the counter is its extent; otherwise it is where the first pointer was met, or the furthest place reached behind it, whichever is further |
| `UpdateNames.ConsumedExact` | internal/rfc2136/wire.go:339-367 | the counter is the extent of the name if and only if there is no pointer, or a leading one behind which nothing reaches past its two octets, or one behind labels after which the name ends at its second octet |
| `UpdateNames.ConsumedBackward` | internal/rfc2136/wire.go:339-367 | when pointers lead before the offset: two octets for a leading one, one too few behind a label |
| `UpdateNames.LabelThenPointerExample` | internal/rfc2136/wire.go:365-367 | three octets counted of four |
| `UpdateNames.ForwardPointerExample` | internal/rfc2136/wire.go:339-367 | five octets counted of two |
| `UpdateNames.EncodeName` | internal/rfc2136/wire.go:270-296 | the wire form of the labels between the dots |
| `UpdateNames.NameRoundTrip` | internal/rfc2136/wire.go:270-379 | parsing inverts encoding, labels and octet count, wherever the name stands |
| `Update.ParseUpdateRR` | internal/rfc2136/wire.go:230-267 | a record on arbitrary octets, or an error |
| `Update.ParseZone` | internal/rfc2136/wire.go:202-226 | a zone entry on arbitrary octets, or an error |
| `Update.ParseUpdate` | internal/rfc2136/wire.go:85-181 | the message on arbitrary octets; a TSIG in last place is set apart, and `raw` is the message without it |
| `UpdateTheorems.SignedUpdateRead` | internal/rfc2136/wire.go:85-181 | for every message of arbitrarily many uncompressed records, once a TSIG is appended: all sections are recovered, and `raw` is the unsigned message byte for byte |
| `UpdateTheorems.PlainUpdateRead` | internal/rfc2136/wire.go:85-181 | a message without TSIG comes through whole |
| `Tsig.ParseTsig` | internal/rfc2136/tsig.go:42-111 | the record on arbitrary octets, or an error |
| `Tsig.TsigRoundTrip` | internal/rfc2136/tsig.go:282-308 | parsing undoes encoding, up to the widths of the fields |
| `Tsig.ValidateTsig` | internal/rfc2136/tsig.go:116-151 | missing, malformed, unknown algorithm, out of time, wrong MAC, in this order; otherwise accepted; the MAC is over the octets of the next row |
| `Tsig.StandardOctets` | internal/rfc2136/tsig.go:250-308 | the variables and the RDATA are, octet for octet, those of sections 3.4.2 and 2.3 of RFC 2845: key name, class ANY, TTL 0, algorithm, 48 bits of time, 16 of fudge, 16 of error, length and other data |
| `Tsig.VariablesRead` | internal/rfc2136/tsig.go:250-279 | for any algorithm name, a reader at those offsets gets back every field of the variables up to its width |
| `Tsig.EveryFieldCovered` | internal/rfc2136/tsig.go:250-279 | two records have equal variables if and only if key, algorithm, time, fudge, error and other data are equal: the MAC covers all but itself and the original id |
| `Tsig.SignedUpdateValid` | internal/rfc2136/tsig.go:116-151 | a message with a TSIG written octet by octet as RFC 2845 has it, whatever its MAC: refused outside the effective fudge, and within it accepted if and only if the MAC is the one over the message and the variables spelled out |
| `Tsig.SignResponse` | internal/rfc2136/tsig.go:156-230 | a TSIG over request MAC, response and variables is appended; an unsigned one if the request's cannot be read |
| `Tsig.SignedResponseRead` | internal/rfc2136/tsig.go:156-230 | the signed response parses back to the unsigned one byte for byte |
| `Tsig.ResponseMacRead` | internal/rfc2136/tsig.go:165-192 | what is appended are the octets of section 2.3 of RFC 2845 with the present time, the effective fudge of the request and the id of the response, and the MAC over the request's MAC behind its length, the response and the variables spelled out |
| `Tsig.UnsignedResponse` | internal/rfc2136/tsig.go:206-230 | behind a request whose TSIG cannot be read: no MAC, error 5, fudge 300 |
| `RateLimit.Limiter.constructor` | internal/ratelimit/limiter.go:75-93 | settings that are not positive get their defaults; the table is empty |
| `RateLimit.Limiter.ConsumeAt` | internal/ratelimit/bucket.go:21-38 | one consumption of a bucket, which `FairnessTheorems.QueryExact` spells out; no other bucket changes |
| `RateLimit.Limiter.NormalGC` | internal/ratelimit/gc.go:31-41 | exactly the buckets not older than the maximal age stay |
| `RateLimit.Limiter.ForceGC` | internal/ratelimit/gc.go:45-67 | a quarter of the table goes, at least one bucket, and every survivor is at least as recent as everything evicted; the slice is in range |
| `RateLimit.Limiter.RunGC` | internal/ratelimit/gc.go:20-28 | forced collection from three quarters on, normal collection below |
| `RateLimit.Limiter.MaybeGC` | internal/ratelimit/gc.go:11-17 | nothing within a minute of the last collection, otherwise the collection that the size of the table asks for |
| `RateLimit.Limiter.GetOrCreate` | internal/ratelimit/bucket.go:55-86 | collection first, then the bucket of the prefix, a full new one, or refusal |
| `RateLimit.Limiter.AllowAt` | internal/ratelimit/limiter.go:102-124 | nothing for allowlisted addresses; for any other, one step of its prefix, let through as `FairnessTheorems.QueryExact` says |
| `RateLimit.Limiter.CheckAt` | internal/ratelimit/limiter.go:132-162 | the same, with every so-many-th refusal of a bucket slipped |
| `RateTheorems.AllowedBound` | internal/ratelimit/limiter.go:102-162 | over any run, what one prefix gets through is at most (evictions + 1) times the burst size plus the rate times the length of the run |
| `FairnessTheorems.QueryExact` | internal/ratelimit/bucket.go:21-38 | a query is let through if and only if the burst size and tokens plus rate times the time since the last fill, whichever is less, make one token, which is then all it takes; a new bucket holds a burst |
| `FairnessTheorems.FirstRefusal` | internal/ratelimit/limiter.go:102-162 | over any run, a prefix all of whose queries got through so far is refused if and only if since some query of it, with its bucket not collected in between, it has made more queries than one burst and the rate times the time pay for, whatever other prefixes do |
| `FairnessTheorems.NeverRefused` | internal/ratelimit/limiter.go:102-162 | so a prefix that keeps to one burst and the rate in every window between its queries is never refused, whatever other prefixes do and whatever is collected |
| `FairnessTheorems.DropsCounted` | internal/ratelimit/limiter.go:102-162 | the count that decides which refusal is slipped is that of the refusals since the bucket was created, and the age that decides its collection is from that query |
| `FairnessTheorems.NeverFull` | internal/ratelimit/bucket.go:55-86 | from an empty table, with or without a cap, no query is refused for want of room |
| `RateTheorems.RunSound` | internal/ratelimit/bucket.go:21-38 | tokens stay between zero and the burst size over every run |
| `RateTheorems.TableBounded` | internal/ratelimit/bucket.go:55-86 | from an empty table with a cap: never more than three quarters of it, rounded up, and the table-full error is unreachable |
| `Replication.EncodedIsCopy` | internal/db/db.go:224-242 | writing and reading back gives a copy, whatever order the index is walked in |
| `Replication.CopyReplies` | internal/db/db.go:224-242 | copies give the same replies |
| `Replication.CopyVerdict` | internal/db/sanity.go:45-201 | copies get the same verdict |
| `Replication.StepSafe` | internal/slave/sync.go:37-156 | every step of rebuild, push, poll, snapshot and restart keeps the invariant |
| `Replication.SlaveServesPublished` | internal/slave/slave.go:179-210 | over every run, pushes reordered: a slave serves only a copy of a published database, it passes the checks, and its chain is the rebuild of that same database |
| `Replication.PollConverges` | internal/slave/sync.go:90-156 | with no push or rebuild outstanding, after one successful poll and until it restarts the slave gives the master's replies and the master's chain |
| `Nodes.WriteImage` | internal/db/db.go:224-230 | the list written is the flattened database in some map order |
| `Nodes.ReadImage` | internal/db/db.go:232-242 | the database is the index of the list read |
| `Nodes.PrepareRecords` | internal/master/db.go:49-85 | every record gets the default TTL, every SOA the serial, and nothing else changes |
| `Nodes.PrepareKeeps` | internal/master/db.go:49-85 | record by record: TTL 300, the serial of an SOA, and every other field as it was |
| `Nodes.PreparedSerial` | internal/db/sanity.go:79-82 | the check of the serial then fails exactly when the serial, the time modulo 2^32, is 0 and there is one SOA |
| `Nodes.BuildZone` | internal/master/db.go:74-103 | a database comes out exactly when the records pass the checks and, if there are keys, can all be signed; it is signed exactly when there are keys |
| `Nodes.Master.Rebuild` | internal/master/db.go:23-120 | it succeeds exactly when the records came, are not too many, pass the checks and can be signed; a failure leaves the served database alone, a success serves one built from the listed records |
| `Nodes.SlaveNode.SwapDB` | internal/slave/slave.go:179-210 | database and chain change together, and the chain is the rebuild of that database |
| `Nodes.SlaveNode.HandlePush` | internal/slave/sync.go:37-63 | a readable body is swapped in, any other changes nothing |
| `Nodes.SlaveNode.Poll` | internal/slave/sync.go:90-156 | the first answered of ten attempts is swapped in if its body can be read; otherwise nothing changes |
| `Nodes.StartUp` | internal/slave/slave.go:91-112 | the snapshot is served if it loads, then the poll; the slave runs on if either worked |
| `EndToEnd.BehindServed` | internal/slave/slave.go:179-210 | behind every signed database a slave serves stands one run of the pipeline over a zone that passed the checks |
| `EndToEnd.ServedDenial` | internal/slave/response.go:116-150 | any slave serving a copy of a signed zone closed under ancestors backs NXDOMAIN with the right proof, its three records and their signatures and nothing else, for names not below a new chain owner |
| `EndToEnd.ServedAnswer` | internal/slave/response.go:78-115 | any slave serving a copy of a signed zone appends to a positive reply exactly the signatures of the answered RRset, one per key of its role |
| `SignatureReading.ExpansionMarked` | internal/slave/response.go:78-115 | behind a positive reply of such a slave, the labels field of every signature is less than the number of labels asked for if and only if a wildcard answered |
| `AuthorityTheorems.WriteAuthority` | internal/slave/response.go:78-182 | lookup, proof and negative authority, called one after the other, write the authority section that the next row is about |
| `AuthorityTheorems.AuthorityExact` | internal/slave/response.go:78-182 | for any name of the zone and any type, the authority section denies what RFC 5155 has it deny if and only if the reply is a positive one from the name itself, or NXDOMAIN at a closest encloser that owned records before signing |
| `AuthorityTheorems.AuthorityWhole` | internal/slave/response.go:78-182 | the section to the last record, for any name of the zone and any type: nothing with an answer; without one the SOA and one signature per key over it; before it, on NXDOMAIN, the signed records of the proof at the longest ancestor that owned records before signing, unless that ancestor has a wildcard, when there is no proof |
| `Witness.EntWitness` | internal/dnssec/nsec3chain.go:40-44 | three records, signed and served: signing succeeds with primitives that never refuse, and then the name is denied and gets no proof |

## Left out

- Sockets, HTTP, TLS, DoH and DoT listeners, the router and connection limits: input and output only.
- The Kubernetes client, watch streams and configuration reloading; `rebuild` gets the listed records and the loaded keys as parameters.
- The UPDATE handler behind parsing and TSIG: it mostly calls an external API.
- SHA-1, HMAC, signature algorithms, key files and key tags: parameters, or fields of a key.
- JSON syntax: a database is written as zone, record list and flag; a body that cannot be read is an absent one.
- Goroutines and locks: calls run one at a time, and concurrency between nodes is interleaving of protocol steps.
- Clocks: times are parameters. Floating-point rounding of tokens: reals; the threshold 0.75 is 4 * len >= 3 * max.
- The root as a zone or as a name inside a payload: its string is "." in the source and empty here. Owners of records and queried names are modelled with the two octets the source writes.
- Names with upper-case octets in the database: `NewDomain` lowers them before they get there.
- Records whose type field and payload disagree: no constructor or decoder of the source makes one; `Sanity` and `Nodes` say so (`Typed`).
- `validateFqdn` and the other input validation of `NewDomain`: easy, and the type of labels holds what it lets through.
- `TruncatedResponse`, `RefusedResponse`, `ServfailResponse` and the UPDATE `BuildResponse`: fixed headers.
- The size limit on pushed and polled bodies: a body over it counts as one that cannot be read.
- The key tag computation and the lookup of the matching DNSKEY in the client's verifier, and its validity-window test.
- Message.AppendOPT: does not model that the caller's slice is overwritten in place; the message is a value.
- Tsig.SignResponse: does not model that the caller's buffer is overwritten in place; the message is a value.
- Nodes.PrepareRecords: does not model that the SOA is reached through the type index and changed in place; the list is changed before it is indexed.
- RateLimit.Limiter.AllowAt: does not model buckets as shared objects, because with calls one at a time no bucket is held across a collection.
- RfcResolver.RfcAgreement: does not compare the additional section, because step 6 of the algorithm leaves it to the server, nor the records of a referral, because the server has none; DS queries at a delegation are referred like any other.
