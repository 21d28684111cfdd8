# A model of miniwasm's token factory, codecs and IBC callbacks

Miniwasm is a rollup chain with CosmWasm contracts. This project models, in Dafny, the three parts of it
in which the most can go wrong, and proves what they promise.

**The token factory and the bank.** Anyone may create denoms of the form `factory/{creator}/{subdenom}`;
the admin of a denom mints, burns, and may name a contract that is called before every send of the denom.
The call may block the send or merely track it, and the contract may send, mint, burn or create denoms
itself, whereupon hooks run again. `Ledger` gives the meaning of each message as a function; nothing but
gas bounds the nesting. `Chronicle` says who may change what: admins, metadata, creators and hooks are the
replay of a journal, every entry of which was sent by the admin that the denom had at the sender's check.
`LedgerLaws` and `LedgerNest` prove by one induction what all messages keep, `LedgerTheorems` and
`LedgerPayers` what follows for runs, `LedgerEffects` and `LedgerMessages` exactly when each message is
accepted and what it changes, `LedgerCreation` and `LedgerReentry` when exactly the creation of a denom can
collide with another inside its own fee payment. `Keeper` holds the handlers as they run, updating stores in
place; each is proved to do what `Ledger` says. `Genesis` is about export and import.

**The wire format.** `Wire`, `Skip`, `Decoder` and `Messages` define varints, fields, the decoding loop
for any message type and four message types; `Layout` says byte by byte what is written, read and refused;
`Marshalling` holds the generated methods themselves, which
write backwards into buffers and decode in loops.

**IBC callbacks.** A transfer may name a contract that is to be told about its acknowledgement or timeout.
`Callbacks` is the protocol, `CallbackLaws` its laws over every run, `Middleware` the code that updates the
stores in place.

## Conventions and assumptions

- Contracts are arbitrary. In the ledger, what the n-th contract call of a run does is given by an
  arbitrary function; in the callback protocol, by an arbitrary finite tree. The one assumption is that a
  hook call spends at least one unit of gas before it dispatches a message.
- A contract's messages are signed by accounts that contracts can sign for: contracts themselves, and
  accounts that have granted a contract this right. Which accounts these are is a parameter; module accounts
  are not among them. Transactions may be sent by anyone else.
- Messages are atomic: one that fails leaves no writes. Hooks have no cache of their own, so what a failing
  hook dispatched before it failed stays, unless the message around it fails.
- The address codec, the SDK's validation of metadata, which denoms may be sent, JSON printing and parsing
  of hook data, and the access list are parameters. Of the codec it is assumed that decoding inverts
  encoding and that no string denotes the empty address; of JSON that hook data is read back as printed.
- All module accounts are blocked recipients, as `app/app.go` sets them up, and no message is signed by
  one. The creation fee goes to the fee collector (`app/keepers/community_pool.go`).
- Channels follow ICS-04 ("Sending packets", "Handling acknowledgements", "Timeouts"): fresh sequences, and
  acknowledgements and timeouts only of packets whose commitment stands.
- `journal`, `trace`, `metered`, `sent` and `told` are history variables. They are stores like the others
  in the classes, but no decision depends on them.
- Four generated files carry identical copies of the varint and skipping functions; each is modelled once.

## Two promises that hold only under a condition

- *Creating a denom never overwrites an admin.* The name is checked before the fee is paid and recorded
  afterwards. If a coin of the fee has a hook, and contracts can sign for the creator, a contract can create
  the same denom and hand it on in between, and the outer creation then overwrites that admin. This takes a
  creation that fits into the gas of a hook call (500,000), next to what hooks of the fee cost that no
  contract can remove. It is impossible if one of the three conditions fails, and with the default creation
  gas of 1,000,000 it is impossible. See `CreationIsFresh`, `OverwritingIff` and `OverwriteExample`.
- *A failing callback never undoes the application's step.* This is so for errors. A panic in the callback,
  such as running out of gas, is not recovered: it undoes the whole acknowledgement or timeout, which can
  then be relayed again. See `Isolation`, `SettledIff` and `PanicExample`.

Export and import likewise rebuild the creator index only up to the spelling of creators
(`IndexRebuiltIff`), and a message that is decoded in two parts fails with the same error as in one only up
to the overflow guards of the decoders, which see absolute indices (`MergeErrorsIff`, `ErrorsDiffer`).

## Model

| member | source | states |
|---|---|---|
| `Wire.SovIsVarintLength` | x/wasmextension/types/tx.pb.go:391-393 | The bit-length formula for sizes equals the number of bytes of the varint, for every value |
| `Wire.VarintAtMostTen` | x/wasmextension/types/tx.pb.go:339-349 | No 64-bit value takes more than ten bytes |
| `Wire.EncodeVarint` | x/wasmextension/types/tx.pb.go:339-349 | Fills exactly the bytes before the offset with the varint, touches no other byte, and returns where it starts |
| `Wire.DecodeVarint` | x/wasmextension/types/tx.pb.go:402-416 | The shifting loop with its 64-bit limit computes the value of the varint, or the same error, on all input |
| `Wire.VarintRoundTrip` | x/wasmextension/types/tx.pb.go:339-349 | Every 64-bit value is read back from its varint, with nothing left over |
| `Wire.ReadVarintAt` | x/wasmextension/types/tx.pb.go:402-416 | A varint is read the same wherever it stands in the input |
| `Wire.Int32RoundTrip` | x/wasmextension/types/types.pb.go:126-130 | Enum values, negative ones too, survive the widening to 64 bits and the cut back to 32 |
| `Layout.EnumsAreSignExtended` | x/wasmextension/types/types.pb.go:126-130 | Negative enum values go out sign-extended to 64 bits, in ten bytes |
| `Layout.VarintIsMinimal` | x/wasmextension/types/tx.pb.go:339-349 | A varint holds the groups of seven bits of its value, low group first, all but the last with the high bit set, and no group too many |
| `Layout.ReadsExactly` | x/wasmextension/types/tx.pb.go:402-416 | A varint is read exactly where up to ten bytes form one, as 64 bits of their value; ten that go on are an overflow |
| `Skip.ScanField` | x/wasmextension/types/tx.pb.go:684-761 | The loop with its depth counter recognises what the recursive definition of skipping does, with the same errors |
| `Skip.SkipIsExact` | x/wasmextension/types/tx.pb.go:684-761 | Skipping a well-formed field, groups of any depth included, ends at its last byte whatever follows |
| `Skip.SkippedIsField` | x/wasmextension/types/tx.pb.go:684-761 | Conversely, what is skipped is the encoding of a well-formed field |
| `Skip.SkipRecognisesFields` | x/wasmextension/types/tx.pb.go:684-761 | A prefix is skipped if and only if it is a well-formed field |
| `Skip.SkipPrefix` | x/wasmextension/types/tx.pb.go:684-761 | Bytes after the field make no difference |
| `Decoder.DecodeTag` | x/wasmextension/types/tx.pb.go:401-424 | Field number and wire type, or the error, on all input; numbers are cut to 32 bits and must be positive |
| `Decoder.DecodeExtent` | x/wasmextension/types/tx.pb.go:430-456 | Bounds of a length-prefixed field lie within the input; negative and wrapped-around lengths are refused |
| `Decoder.DecodeUnknown` | x/wasmextension/types/tx.pb.go:560-573 | The index after an unknown field lies within the input, or the error is the decoder's |
| `Decoder.MergeLaw` | x/wasmextension/types/tx.pb.go:397-580 | Decoding a concatenation is decoding its parts in turn into the same message, for every message type |
| `Decoder.MergeErrorsIff` | x/wasmextension/types/tx.pb.go:449-455 | If the second part fails, its error is the same in the concatenation if and only if the failing length still points below 2^63 after the move |
| `Messages.ErrorsDiffer` | x/wasmextension/types/types.pb.go:241-247 | Two parts of which the second alone ends unexpectedly and after the first has an invalid length |
| `Decoder.DecodedIsTiled` | x/wasmextension/types/tx.pb.go:397-580 | The input of a successful decode splits into whole fields with nothing left over |
| `Decoder.TiledIsDecoded` | x/wasmextension/types/tx.pb.go:397-580 | Conversely, any such sequence of fields decodes, to the message they lead to |
| `Decoder.ForeignFieldIsIgnored` | x/wasmextension/types/tx.pb.go:560-573 | A well-formed field with an unused number leaves the message as it is |
| `Decoder.InsertionIsInvisible` | x/wasmextension/types/tx.pb.go:560-573 | Such a field put between two others changes neither message nor success |
| `Decoder.InsertionErrorsIff` | x/wasmextension/types/tx.pb.go:449-455 | Nor the error of a failing decode, with the exact condition on the failing length |
| `Layout.TagsRefused` | x/wasmextension/types/tx.pb.go:417-424 | End-group tags, field number 0 and known fields of another wire type are refused, each with its error |
| `Layout.KnownFieldsRefuse` | x/wasmextension/types/tx.pb.go:425-429 | Which wire type each field of the four messages insists on |
| `Layout.LengthsRefused` | x/wasmextension/types/tx.pb.go:446-455 | Lengths with the sign bit set, and those that point beyond the input, are refused |
| `Messages.AccessRoundTrip` | x/wasmextension/types/types.pb.go:113-133 | Every AccessConfig decodes from its encoding, for all permissions and addresses |
| `Messages.StoreCodeRoundTrip` | x/wasmextension/types/tx.pb.go:263-302 | Every MsgStoreCodeAdmin decodes from its encoding, with the nested permission absent, empty or full |
| `Messages.AuthorityRoundTrip` | x/tokenfactory/types/authority_metadata.pb.go:139-152 | Every DenomAuthorityMetadata decodes from its encoding |
| `Messages.DenomRoundTrip` | x/tokenfactory/types/genesis.pb.go:260-283 | Every GenesisDenom decodes from its encoding, nested metadata included |
| `Messages.PermissionsMerge` | x/wasmextension/types/tx.pb.go:524-559 | A repeated nested message is decoded into the first one instead of replacing it |
| `Layout.StoreCodeLayout` | x/wasmextension/types/tx.pb.go:263-302 | On the wire, authority, creator, code and permission are fields 1 to 4 in this order; the first three are there exactly if not empty, the last exactly if set |
| `Layout.AccessLayout` | x/wasmextension/types/types.pb.go:113-133 | On the wire, a non-zero permission is a number in field 1, followed by every address in field 2, in order |
| `Layout.AuthorityLayout` | x/tokenfactory/types/authority_metadata.pb.go:139-152 | On the wire, the admin is field 1, unless empty |
| `Layout.DenomLayout` | x/tokenfactory/types/genesis.pb.go:260-283 | On the wire, the denom is field 1, unless empty, and the metadata are field 2, always |
| `Layout.AuthorityField` | x/wasmextension/types/tx.pb.go:426-457 | Tag 0x0a sets the authority, whatever was there, and nothing else |
| `Layout.CreatorField` | x/wasmextension/types/tx.pb.go:458-489 | Tag 0x12 sets the creator, whatever was there, and nothing else |
| `Layout.CodeField` | x/wasmextension/types/tx.pb.go:490-523 | Tag 0x1a sets the code, whatever was there, and nothing else |
| `Layout.PermissionField` | x/wasmextension/types/tx.pb.go:524-559 | Tag 0x22 decodes into the permission that was there, or into an empty one |
| `Layout.AccessFields` | x/wasmextension/types/types.pb.go:199-249 | Tag 0x08 sets the permission, cut to 32 bits; tag 0x12 adds an address at the end |
| `Layout.AuthorityFields` | x/tokenfactory/types/authority_metadata.pb.go:213-245 | Tag 0x0a sets the admin |
| `Layout.DenomFields` | x/tokenfactory/types/genesis.pb.go:479-544 | Tag 0x0a sets the denom; tag 0x12 decodes into the metadata that were there |
| `Layout.OtherFields` | x/wasmextension/types/tx.pb.go:560-573 | Fields with higher numbers leave each of the four messages as it is |
| `Marshalling.AccessConfig.Size` | x/wasmextension/types/types.pb.go:146-162 | Exactly the length of the encoding |
| `Marshalling.AccessConfig.MarshalToSizedBuffer` | x/wasmextension/types/types.pb.go:113-133 | Writes exactly the encoding before the end of any large enough buffer and leaves all other bytes alone |
| `Marshalling.AccessConfig.MarshalAddresses` | x/wasmextension/types/types.pb.go:118-125 | The backward loop leaves the addresses in order |
| `Marshalling.AccessConfig.Unmarshal` | x/wasmextension/types/types.pb.go:170-270 | The loop decodes into the object what the schema says, or reports the same error |
| `Marshalling.MsgStoreCodeAdmin.Size` | x/wasmextension/types/tx.pb.go:350-373 | Exactly the length of the encoding, nested message included |
| `Marshalling.MsgStoreCodeAdmin.MarshalToSizedBuffer` | x/wasmextension/types/tx.pb.go:263-302 | Writes exactly the encoding before the end of any large enough buffer and leaves all other bytes alone |
| `Marshalling.MsgStoreCodeAdmin.MarshalPermission` | x/wasmextension/types/tx.pb.go:267-279 | Body, length and tag of the nested message, written backwards, form its field |
| `Marshalling.MsgStoreCodeAdmin.Marshal` | x/wasmextension/types/tx.pb.go:248-256 | The buffer of the computed size is filled completely and is the encoding |
| `Marshalling.MsgStoreCodeAdmin.SetField` | x/wasmextension/types/tx.pb.go:425-559 | Each known field changes its part of the message and no other; a nested message is filled in |
| `Marshalling.MsgStoreCodeAdmin.Unmarshal` | x/wasmextension/types/tx.pb.go:397-580 | The loop decodes into the object what the schema says, or reports the same error |
| `Marshalling.DenomAuthorityMetadata.Size` | x/tokenfactory/types/authority_metadata.pb.go:165-177 | Exactly the length of the encoding |
| `Marshalling.DenomAuthorityMetadata.MarshalToSizedBuffer` | x/tokenfactory/types/authority_metadata.pb.go:139-152 | Writes exactly the encoding at the end and leaves all other bytes alone |
| `Marshalling.DenomAuthorityMetadata.Unmarshal` | x/tokenfactory/types/authority_metadata.pb.go:184-265 | The loop decodes into the object what the schema says, or reports the same error |
| `Marshalling.GenesisDenom.Size` | x/tokenfactory/types/genesis.pb.go:313-326 | Exactly the length of the encoding, nested message included |
| `Marshalling.GenesisDenom.MarshalToSizedBuffer` | x/tokenfactory/types/genesis.pb.go:260-283 | Writes exactly the encoding at the end and leaves all other bytes alone |
| `Marshalling.GenesisDenom.SetField` | x/tokenfactory/types/genesis.pb.go:479-544 | Each known field changes its part of the message and no other |
| `Marshalling.GenesisDenom.Unmarshal` | x/tokenfactory/types/genesis.pb.go:451-565 | The loop decodes into the object what the schema says, or reports the same error |
| `Denoms.JoinSplit` | x/tokenfactory/types/denoms.go:49-66 | Splitting at slashes loses nothing |
| `Denoms.DeconstructExactly` | x/tokenfactory/types/denoms.go:43-75 | A denom comes apart if and only if it is valid and its creator is an address; the parts are the canonical creator and the whole subdenom, slashes included |
| `Denoms.DeconstructedIsBuilt` | x/tokenfactory/types/denoms.go:43-75 | Every denom that comes apart was built from a creator without slash and a subdenom |
| `Denoms.BuildThenDeconstruct` | x/tokenfactory/types/denoms.go:26-38 | What a denom is built from comes out again, the creator in canonical form |
| `Denoms.BuildIsInjective` | x/tokenfactory/types/denoms.go:26-38 | Different creators or subdenoms never share a denom |
| `Denoms.BuiltDenomFits` | x/tokenfactory/types/denoms.go:26-33 | The limits on creator and subdenom keep every built denom within the length the SDK allows |
| `Denoms.BuiltExactly` | x/tokenfactory/types/denoms.go:26-38 | A name can be built exactly if both parts are within their limits and of denom characters and the creator has no slash; the denom is then factory/creator/subdenom |
| `Bank.TransferEffect` | x/bank/keeper/keeper.go:129-138 | The base transfer succeeds exactly if the coins are valid and covered, and moves these amounts only |
| `Bank.EachDenomOnce` | x/bank/keeper/msg_server.go:44-46 | Valid coins name no denom twice |
| `Bank.InputIsOutput` | x/bank/keeper/msg_server.go:77-132 | In a valid multi-send the outputs add up to the input in every denom |
| `Bank.DistributeEffect` | x/bank/keeper/msg_server.go:126-129 | The one input pays all outputs and no other balance changes |
| `Bank.TransferSum` | x/bank/keeper/keeper.go:129-138 | Transfers keep the sum of all balances |
| `Bank.DistributeSum` | x/bank/keeper/msg_server.go:126-129 | Multi-sends keep the sum of all balances |
| `Ledger.CallHook` | x/tokenfactory/keeper/before_send.go:174-196 | A hook call is charged at most the hook limit, never exhausts its caller's meter however it ends, costs at least one unit per contract call inside, and is recorded |
| `Ledger.Listener` | x/tokenfactory/keeper/before_send.go:97-172 | Hooks for n coins are charged at most n hook limits, keep the caller's meter within its limit, and never panic |
| `Ledger.SendCoins` | x/bank/keeper/keeper.go:129-138 | A send of n coins is charged at most 2n hook limits, keeps the meter within its limit, and never panics |
| `Ledger.SendWithoutBlockHook` | x/bank/keeper/keeper.go:123-127 | The same safety for sends that cannot be blocked, charged at most n hook limits for n coins |
| `Ledger.Deliver` | x/tokenfactory/keeper/msg_server.go:26-227 | Every message, with all its nested hooks, terminates; contract calls are bounded by gas spent; a message that does not succeed leaves the stores as they were |
| `Chronicle.ReplayAppend` | x/tokenfactory/keeper/admins.go:10-33 | Replaying a journal can stop over anywhere |
| `Chronicle.FollowsTransitive` | x/tokenfactory/keeper/msg_server.go:26-227 | Two stretches in which the books follow a warranted journal make one |
| `Chronicle.LastWord` | x/tokenfactory/keeper/admins.go:10-33 | For a denom on record, replay leaves the admin, metadata and hook that the last entry of each kind names |
| `Chronicle.NotCreatedAgain` | x/tokenfactory/keeper/createdenom.go:59-77 | A denom on record has no further creation in a warranted journal |
| `Chronicle.NothingAbout` | x/tokenfactory/keeper/msg_server.go:50-227 | No entry of a warranted journal is about a denom whose admin is renounced, or neither signs nor lets a contract sign |
| `Chronicle.OutOfReachStays` | x/tokenfactory/keeper/msg_server.go:50-227 | Such a denom keeps admin, metadata and hook through anything that hooks do |
| `Chronicle.FollowsKeepsHooks` | x/tokenfactory/keeper/before_send.go:20-60 | Hooks stay addresses, and of denoms on record |
| `LedgerNest.DeliverEvolves` | x/tokenfactory/keeper/before_send.go:97-172 | One induction over arbitrary nests of hooks: every message keeps conservation, transit account, index and parameters; its effect on admins, metadata, creators and hooks is the replay of the journal it adds, every entry of which was sent by the admin at its check, who signed or let a contract sign |
| `LedgerNest.ListenerEvolves` | x/tokenfactory/keeper/before_send.go:97-172 | The same for everything that hooks do during a send, in the name of accounts that contracts can sign for |
| `LedgerNest.MintEvolves` | x/tokenfactory/keeper/bankactions.go:12-36 | Minting with hooks inside is sound, counting nested mints and burns, and adds one warranted entry to those of the hooks |
| `LedgerNest.BurnEvolves` | x/tokenfactory/keeper/bankactions.go:38-63 | Burning with hooks inside is sound, counting nested mints and burns, and adds one warranted entry to those of the hooks |
| `LedgerNest.CreateDenomEvolves` | x/tokenfactory/keeper/createdenom.go:14-57 | Creating a denom keeps index, admins and metadata in agreement, even if hooks create denoms meanwhile, and adds one warranted entry |
| `LedgerNest.SetHookEvolves` | x/tokenfactory/keeper/before_send.go:20-60 | Setting a hook changes that hook alone, by one warranted entry; the trial call leaves no trace in the stores |
| `LedgerTheorems.RunsConserve` | x/tokenfactory/keeper/bankactions.go:12-63 | In every run balances add up to supplies, and supplies change by exactly the mints minus burns that took effect, nested ones included |
| `LedgerTheorems.RunsLeaveFactoryEmpty` | x/tokenfactory/keeper/bankactions.go:12-63 | The module account through which mints and burns pass ends every run as it began it |
| `LedgerTheorems.RunsKeepIndex` | x/tokenfactory/keeper/creators.go:9-23 | After every run, creator index and admin map list the same denoms, each under the one creator in its name |
| `LedgerTheorems.RunsKeepHooks` | x/tokenfactory/keeper/before_send.go:20-60 | After every run, hooks are addresses, and of denoms on record |
| `LedgerTheorems.BooksAreReplayed` | x/tokenfactory/keeper/msg_server.go:26-227 | After every run, admins, metadata, creators and hooks are the journal of the run played on what they were before |
| `LedgerTheorems.OnlyTheAdmin` | x/tokenfactory/keeper/msg_server.go:50-227 | In every run, each message that took effect, nested ones included, was sent by the one who was the denom's admin at its check and not the empty string, or created a denom under its own name that had not been created |
| `LedgerTheorems.ChangesAreDeeds` | x/tokenfactory/keeper/msg_server.go:50-227 | In every run, a recorded denom's admin, metadata and hook are as the last message of each kind says, its supply changes by mints minus burns, and what has no such message stays |
| `LedgerTheorems.OutOfReachIsUntouched` | x/tokenfactory/keeper/msg_server.go:50-227 | Nothing in a run touches a denom whose admin sends none of its transactions and lets no contract sign |
| `LedgerTheorems.RenouncedIsFrozen` | x/tokenfactory/keeper/msg_server.go:133-162 | A denom whose admin was renounced stays as it is in every continuation |
| `LedgerPayers.DeliverSpares` | x/bank/keeper/keeper.go:129-138 | Through every message and all its hooks, no account loses anything unless it signed or lets contracts sign for it |
| `LedgerPayers.OnlySignersPay` | x/bank/keeper/keeper.go:129-138 | In every run, the balance of an account falls only if it signed a transaction or lets contracts sign for it; that of a module account never falls |
| `LedgerTheorems.HooksApproved` | x/tokenfactory/keeper/before_send.go:97-172 | If the listener returns without error, each coin with a hook at its turn has an approving call on record for this very transfer |
| `LedgerTheorems.SendSucceedsIff` | x/bank/keeper/keeper.go:129-138 | A send succeeds if and only if no blocking hook objects and the coins are covered on the state the hooks leave; tracking hooks have no say |
| `LedgerTheorems.TrackNeverBlocks` | x/bank/keeper/keeper.go:49-64 | Between module accounts only the transfer itself can fail, whatever tracking hooks do |
| `LedgerTheorems.ApprovedBeforeMoved` | x/bank/keeper/keeper.go:129-138 | In a successful send all approvals precede the movement of balances, which is exactly what was approved |
| `LedgerTheorems.MultiSendApproved` | x/bank/keeper/msg_server.go:77-132 | In a successful multi-send each coin of each output was approved at its turn |
| `LedgerTheorems.MultiSendMoves` | x/bank/keeper/msg_server.go:77-132 | What the hooks were shown adds up to what the sender pays, and all of it arrives |
| `LedgerTheorems.BurnCompletes` | x/tokenfactory/keeper/bankactions.go:38-63 | A burn goes through exactly if its checks pass and the coins arrive in the module account; destroying them then cannot fail |
| `LedgerTheorems.ListenerCharge` | x/tokenfactory/keeper/before_send.go:174-196 | Hooks are charged at most one hook limit for each coin with a hook at its turn, and no more than there is left |
| `LedgerTheorems.SendCharge` | x/bank/keeper/keeper.go:129-138 | The same for both passes of a send |
| `LedgerTheorems.UnblockedCharge` | x/bank/keeper/keeper.go:123-127 | The same for a send that cannot be blocked |
| `LedgerTheorems.AskCharge` | x/bank/keeper/msg_server.go:109-124 | The same for all outputs of a multi-send together |
| `LedgerTheorems.ParamsSound` | x/tokenfactory/keeper/msg_server.go:229-244 | New parameters disturb no other law |
| `LedgerEffects.MintCompletes` | x/tokenfactory/keeper/bankactions.go:12-36 | A mint goes through exactly if its checks pass and the hook does not object: re-entering hooks cannot take the new coins first |
| `LedgerEffects.PlainMint` | x/tokenfactory/keeper/msg_server.go:50-89 | Without a hook: succeeds exactly if the checks pass; recipient and supply gain the coin and nothing else changes |
| `LedgerEffects.PlainBurn` | x/tokenfactory/keeper/msg_server.go:91-131 | Without a hook: succeeds exactly if the checks pass and the sender has the coins; sender and supply lose them and nothing else changes |
| `LedgerMessages.ListenerByCoin` | x/tokenfactory/keeper/before_send.go:97-172 | Each coin's own hook is asked about this coin and this transfer, and the next coin comes only if it has no objection |
| `LedgerMessages.HookSpends` | x/tokenfactory/keeper/before_send.go:174-196 | A hook may spend 500,000 units or what is left; within that it is charged what it spends, beyond it all of that, and fails |
| `LedgerMessages.DispatchDelivers` | x/tokenfactory/keeper/before_send.go:174-196 | What a contract dispatches takes effect as if delivered, and the contract goes on unless it panicked |
| `LedgerMessages.UnblockedMoves` | x/bank/keeper/keeper.go:123-127 | An unblockable send moves its coins on the state that tracking leaves |
| `LedgerMessages.SendDelivered` | x/bank/keeper/msg_server.go:29-75 | Exactly when a send is accepted; on the state that the hooks leave, its coins move from sender to recipient and nothing else changes |
| `LedgerMessages.PlainSend` | x/bank/keeper/msg_server.go:29-75 | The same without hooks, on the state as it is |
| `LedgerMessages.MultiSendDelivered` | x/bank/keeper/msg_server.go:77-132 | Exactly when a multi-send is accepted, and what everyone pays and gets on the state that the hooks leave |
| `LedgerMessages.OutputsPassIff` | x/bank/keeper/msg_server.go:109-124 | An output passes exactly if it is an account but no module and no hook objects at its turn |
| `LedgerMessages.MintDelivered` | x/tokenfactory/keeper/msg_server.go:50-89 | Exactly when a mint is accepted; on the state that the hooks leave, the coin moves on to the recipient, who is the sender if none is named |
| `LedgerMessages.BurnDelivered` | x/tokenfactory/keeper/msg_server.go:91-131 | Exactly when a burn is accepted; on the state that the hooks leave, sender and supply lose the coin |
| `LedgerMessages.CreateDelivered` | x/tokenfactory/keeper/createdenom.go:14-102 | Exactly when a creation is accepted; the fee moves to the collector, gas is consumed, and the denom gets its sender as admin and creator and the default metadata |
| `LedgerMessages.ChangeAdminDelivered` | x/tokenfactory/keeper/msg_server.go:133-162 | Exactly when a change of admin is accepted; the new admin is the one named, and nothing else changes |
| `LedgerMessages.SetMetadataDelivered` | x/tokenfactory/keeper/msg_server.go:164-196 | Exactly when a change of metadata is accepted; they are the ones given, and nothing else changes |
| `LedgerMessages.UnsetHookDelivered` | x/tokenfactory/keeper/before_send.go:20-32 | Removing a hook takes the admin, and changes nothing else |
| `LedgerMessages.SetHookDelivered` | x/tokenfactory/keeper/before_send.go:34-60 | Exactly when a hook is accepted after its trial; it is the one given, and nothing that the trial wrote is kept |
| `LedgerMessages.ParamsTransacted` | x/tokenfactory/keeper/msg_server.go:229-244 | Only the authority sets parameters, only with a valid fee, and they are the ones given |
| `LedgerMessages.DeedIsTheMessages` | x/tokenfactory/keeper/msg_server.go:26-227 | The last entry that an accepted message adds to the journal is what the message itself says is to be done, in its sender's name |
| `LedgerMessages.CallsWithinGas` | x/tokenfactory/keeper/before_send.go:174-196 | A transaction starts no more hook calls than its gas limit has units |
| `LedgerMessages.RunsInTurn` | x/tokenfactory/keeper/msg_server.go:26-244 | Transactions take effect one after the other |
| `LedgerCreation.ChargeCosts` | x/tokenfactory/keeper/createdenom.go:79-102 | Paying for a denom takes at least the creation gas and one unit for each hook of the fee that no contract can remove, with one more for tracking |
| `LedgerCreation.CostlyDoesNotFit` | x/tokenfactory/types/params.go:13-15 | With creation gas at the hook limit or above, as by default, no creation fits into a hook call |
| `LedgerCreation.CreationRunsOut` | x/tokenfactory/keeper/createdenom.go:79-102 | A creation that does not fit into a hook call never succeeds in one |
| `LedgerCreation.OverwritesIff` | x/tokenfactory/keeper/createdenom.go:31-57 | Recording a denom overwrites an admin if and only if the denom has metadata by then |
| `LedgerCreation.NobodyElseCreates` | x/tokenfactory/keeper/createdenom.go:59-77 | A denom that appears while its fee is paid was created in the name of the same creator, by a contract that could sign for them |
| `LedgerCreation.CreationIsFresh` | x/tokenfactory/keeper/createdenom.go:14-57 | Creation never overwrites an admin if no coin of the fee has a hook, no contract can sign for the creator, or a creation does not fit into a hook call |
| `LedgerReentry.OverwritingIff` | x/tokenfactory/keeper/createdenom.go:14-102 | Where the fee can be paid twice, contracts can make a creation overwrite an admin if and only if a coin of the fee has a hook, contracts can sign for the creator, and a creation fits into a hook call |
| `LedgerReentry.OverwriteExample` | x/tokenfactory/keeper/createdenom.go:14-102 | A concrete state in which a creation by a contract overwrites an admin that was renounced while the fee was paid |
| `Keeper.Keepers.SafeSudo` | x/tokenfactory/keeper/before_send.go:174-196 | Runs the contract on a meter of its own and charges the caller as specified, however the call ends |
| `Keeper.Keepers.CallBeforeSendListener` | x/tokenfactory/keeper/before_send.go:97-172 | The loop over coins has the effect of the specified listener on the stores, the meter and the outcome |
| `Keeper.Keepers.SendCoinsWithoutBlockHook` | x/bank/keeper/keeper.go:123-127 | Refines the specified unblockable send |
| `Keeper.Keepers.SendCoins` | x/bank/keeper/keeper.go:129-138 | Refines the specified send |
| `Keeper.Keepers.Send` | x/bank/keeper/msg_server.go:29-75 | Refines the specified message, with all its refusals |
| `Keeper.Keepers.MultiSend` | x/bank/keeper/msg_server.go:77-132 | Refines the specified message, with all its refusals |
| `Keeper.Keepers.AskForOutputs` | x/bank/keeper/msg_server.go:109-124 | The loop over outputs asks both hooks for each, in order, as specified |
| `Keeper.Keepers.Mint` | x/tokenfactory/keeper/msg_server.go:50-89 | Refines the specified mint on all stores |
| `Keeper.Keepers.Burn` | x/tokenfactory/keeper/msg_server.go:91-131 | Refines the specified burn on all stores |
| `Keeper.Keepers.ChangeAdmin` | x/tokenfactory/keeper/msg_server.go:133-162 | Changes the one admin, or nothing |
| `Keeper.Keepers.SetDenomMetadata` | x/tokenfactory/keeper/msg_server.go:164-196 | Changes the one metadata entry, or nothing |
| `Keeper.Keepers.SetBeforeSendHook` | x/tokenfactory/keeper/before_send.go:20-60 | Changes the one hook, or nothing; whatever the trial call wrote is put back |
| `Keeper.Keepers.CreateDenom` | x/tokenfactory/keeper/createdenom.go:14-77 | Refines the specified creation, with its check before and its record after the fee |
| `Keeper.Keepers.ChargeForCreateDenom` | x/tokenfactory/keeper/createdenom.go:79-102 | Fee by a hooked send, then gas, as specified |
| `Keeper.Keepers.CreateDenomAfterValidation` | x/tokenfactory/keeper/createdenom.go:31-57 | Metadata if missing, admin and index entry, and nothing else |
| `Keeper.Keepers.UpdateParams` | x/tokenfactory/keeper/msg_server.go:229-244 | Only the authority sets parameters, and only valid ones |
| `Keeper.Keepers.Deliver` | x/tokenfactory/keeper/msg_server.go:26-227 | A message takes effect whole or not at all; gas stays spent |
| `Keeper.Keepers.ApplyTransactions` | x/tokenfactory/keeper/msg_server.go:26-244 | A run in place reaches the state that the laws of runs speak about |
| `Genesis.Validate` | x/tokenfactory/types/genesis.go:23-51 | The loop accepts exactly the states with valid fee, valid entries and no denom twice |
| `Genesis.InitGenesis` | x/tokenfactory/keeper/genesis.go:13-38 | The loop imports what is specified, or panics exactly when specified |
| `Genesis.ExportGenesis` | x/tokenfactory/keeper/genesis.go:41-65 | Lists every index entry once with its admin; panics only if an entry has no admin |
| `Genesis.ImportSucceedsIff` | x/tokenfactory/keeper/genesis.go:24-37 | An import panics exactly if some entry is invalid |
| `Genesis.ImportIndexed` | x/tokenfactory/keeper/genesis.go:13-38 | A valid genesis makes a state in which index and admins agree and hooks are valid |
| `Genesis.ExportValidates` | x/tokenfactory/keeper/genesis.go:41-65 | What is exported validates |
| `Genesis.RoundTrip` | x/tokenfactory/keeper/genesis.go:13-65 | Exporting and importing rebuilds parameters, admins and, up to spelling, the index; hooks are gone |
| `Genesis.IndexRebuiltIff` | x/tokenfactory/keeper/genesis.go:24-30 | The index comes back as it was if and only if all creators were spelled canonically |
| `Genesis.SpellingExample` | x/tokenfactory/keeper/genesis.go:24-30 | A one-transaction run whose index does not come back as it was |
| `Genesis.ReachableRoundTrip` | x/tokenfactory/keeper/genesis.go:13-65 | All of this for every state reached from a valid genesis by any run |
| `Genesis.RunsKeepParamsValid` | x/tokenfactory/keeper/msg_server.go:229-244 | Every run keeps the creation fee valid |
| `Callbacks.StrippedHidesCallback` | app/ibc-hooks/send.go:70-87 | The rewritten memo names no callback, keeps the message, and keeps the keys of all other entries |
| `Callbacks.SentHidesCallback` | app/ibc-hooks/send.go:47-99 | No packet goes out with a callback in its memo |
| `Callbacks.SendWithCallback` | app/ibc-hooks/send.go:57-98 | A transfer that names a callback, with a message or without, registers it under the packet's key; the packet differs from the one given in the memo only, and how |
| `Callbacks.SendWithoutCallback` | app/ibc-hooks/send.go:57-63 | A packet that names no callback goes out as it is, and nothing is registered |
| `Callbacks.SendRefused` | app/ibc-hooks/send.go:57-68 | Hook data that do not parse, or a callback that is no address, stop the send, and nothing changes |
| `Callbacks.StepsInTurn` | app/ibc-hooks/hooks.go:52-86 | Steps take effect one after the other |
| `CallbackLaws.RunKeeps` | app/ibc-hooks/ack.go:41-143 | Every step, with everything that applications and callbacks do inside it, keeps the invariant and takes back nothing that was settled |
| `CallbackLaws.PendingIsExact` | app/ibc-hooks/send.go:47-99 | In every run the pending callbacks are exactly those of packets sent with one and neither acknowledged nor timed out |
| `CallbackLaws.AtMostOnce` | app/ibc-hooks/ack.go:67-142 | In every run no packet's callback runs twice or before the packet is settled, and it is the one it was sent with |
| `CallbackLaws.SettledIsSilent` | app/ibc-hooks/timeout.go:63-64 | After a packet is settled nothing ever runs its callback |
| `CallbackLaws.Isolation` | app/ibc-hooks/ack.go:48-142 | After an acknowledgement or timeout the chain is as the application left it without the entry, or that plus the whole callback, or unchanged; and which of these |
| `CallbackLaws.NoticeSays` | app/ibc-hooks/ack.go:107-127 | A callback that is an allowed address is told which packet this is and what became of it: the acknowledgement and whether it is no error, or the timeout |
| `CallbackLaws.NobodyIsTold` | app/ibc-hooks/ack.go:76-105 | Without such a callback the application alone settles the packet, and nobody is told |
| `CallbackLaws.SettledIff` | app/ibc-hooks/ack.go:72-142 | The packet is settled and the application's part stands, alone or with the whole callback on top, if and only if the callback does not panic; otherwise nothing has happened |
| `CallbackLaws.PanicExample` | app/ibc-hooks/timeout.go:72-121 | On a new chain, a timeout whose callback panics loses the refund and leaves packet and callback pending; with an error instead, the refund stands |
| `CallbackLaws.SettledForGood` | app/ibc-hooks/ack.go:67-68 | The entry of a settled packet never comes back |
| `Middleware.Hooks.SendPacketOverride` | app/ibc-hooks/send.go:47-99 | Refines the specified send; a refused send changes nothing |
| `Middleware.Hooks.EditMemo` | app/ibc-hooks/send.go:70-87 | Editing the memo in place gives the specified memo |
| `Middleware.Hooks.RunAll` | app/ibc-hooks/hooks.go:52-86 | The loop over steps reaches the specified chain |
| `Middleware.Hooks.OnFate` | app/ibc-hooks/ack.go:41-70 | Application first, then the entry is taken out, then the callback, as specified |
| `Middleware.Hooks.RunCallback` | app/ibc-hooks/timeout.go:66-121 | The cached callback is kept whole or put back whole, as specified |

## Left out

- LedgerReentry.OverwritingIff: assumes that the creator can pay the fee twice; whether contracts could
  provide the means for the second payment is not considered. The safe direction (`CreationIsFresh`) does not
  assume it.
- Decoder.MergeLaw: says that both sides fail together; when they report the same error is said by
  `MergeErrorsIff`.
- Decoder.InsertionIsInvisible: likewise; when the error stays the same is said by `InsertionErrorsIff`.
- Marshalling.AccessConfig.Unmarshal: leaves open what the object holds after an error; the same for the
  other three `Unmarshal` methods and `SetField`.
- Genesis.ExportGenesis: leaves open the order in which the store is walked; the laws hold for every order.
- Genesis.InitGenesis: leaves open what the stores hold after a panic, when the chain does not start.
- Callbacks.StrippedHidesCallback: claims nothing about the values of other memo entries, which pass through
  generic JSON values.
- Middleware.Hooks.OnFate: one method for acknowledgements and timeouts, which differ in the message to the
  contract only.
- The encoding of `GenesisState` and `Params`, which contain coins encoded by foreign code.
- The 256-bit limit of amounts; amounts here are unbounded.
- Vesting locks, send restrictions and the rest of the SDK's bank, whose transfers are modelled as functions
  on balances; `SetSendEnabled` and bank parameters (which denoms may be sent is fixed).
- Gas other than that of hooks, contracts and denom creation.
- Received packets and the denoms of vouchers (`receive.go`, `LocalDenom`): they rest on the transfer
  application.
- Packet contents other than the memo, JSON texts, events, logging, telemetry and queries.
- The wasm extension's message server, command line, application wiring, indexers and upgrade handlers:
  they would add easy members only.
- The Wasm virtual machine: contracts are arbitrary.
