# Dafny model of the SONiC gNMI server core

This project models the parts of the server whose correctness is hard to see from the code, and proves what they
promise. Each part is a group of modules under `src/`.

**Path authorization** (`PathzPolicy`, `PathzTrie`, `PathzProofs`, `PathzTheorems`, `PathzAccepted`, `PathzExact`,
`PathzAuthorizer`, `PathzProcessor`, `SortedNames`). A policy is a list of rules over gNMI paths with keys and
wildcards. The server compiles it into a tree of name and key nodes. `PathzPolicy` says, from the flat list alone, which
action a request gets. The main result is that the walk through the tree gives that action for every user, mode and
path, and for every policy without two rules that ask for different key names at the same place. When all keys have
names these are all accepted policies. `PathzAccepted` covers the others too: it says from the list alone what every
accepted policy decides, in whichever order it was accepted. `DecidedRightIff` shows for which accepted policies the two
readings are the same. Every verdict comes from a rule that is for the user, by name or by a group that lists the user,
and whose path covers the request. The tree itself is modelled twice: as a linked structure that `InsertPath` changes in
place, and as a value it is proved equal to.

**Tree difference and sampled streams** (`YgotTree`, `YgotFields`, `YgotRecord`, `YgotDiff`, `YgotReplay`,
`SampleStream`). `Diff` compares two configuration trees with a prefix stack and two result lists. The prefix is an
array whose popped slots are written over by later pushes; the recorded paths are arrays that no later step changes.
Replaying the deletes and updates over the leaves of the old tree gives the leaves of the new one, and `YgotFields` says
what is reported in terms of the fields of the two trees. On top of that, a receiver that replays the notifications of a
sampled stream holds exactly the leaves of the latest round, after every round.

**Shared sampling** (`SuperSubscription`, `SuperSubscriptions`). Clients with equal requests share one sampler. The
protocol over two locks and a one-slot wake-up channel is a state machine in which any client may move next. The results
hold in every state of every run. `Registry` is the same code as an object; its calls are shown to be runs of the steps.

**Credential rotation** (`CertzProfile`, `CertzDisk`, `CertzMessages`, `CertzServer`, `AuthzServer`). Sessions of
uploads end in Finalize or in some failure. Every file, link and database operation may fail. The results say what is in
place afterwards, down to the data of the messages, and which sessions are finalized.

**Configuration store and encodings** (`JsonConfig`, `JsonLists`, `ListIndex`, `JsonClient`, `JsonPointer`, `DbEntry`,
`Command`, `CommandLayout`). Editing by path with pruning, the items of a list by shifting within its array, and several
printer and parser pairs, each with the exact condition under which one undoes the other.

**Database subscriptions** (`DbPoll`, `FieldSubscribe`). What a receiver holds after each poll, and when a stream of
changed values says the same as a stream of all values.

Where a promise of the code turned out not to hold on all inputs, a lemma gives the failing input and another one the
exact condition: `EmptyKeyNameBreaksOrder` and `AcceptedInEveryOrderIff`, `LostRule` and `DecidedRightIff`,
`EqualLeavesMayDiffer` and `EmptyIff`, `NewCertWithOldKey` and `FailureMovesNothingIff`, `SharedFileDangles` and
`FinalizedLeadsIff`, `RowLeftBehind` and `NeverLeftBehindIff`, `SharedKeyDisagrees` and `StreamsAgreeIff`. The exact
conditions of the round trips are `PolicyBackIff`, `FixPathKeyIff`, `RemoveUndoesAddIff`, `RoundTripIff`,
`BypassRoundTrip` and `LineIff`.

## Modelling choices

- Failing operations: a method takes the failing step as a parameter, or chooses it freely. In `CertzServer` an object
  with `undoWorks` is one whose link and policy operations that undo earlier ones do not fail; `removalsWork`,
  `keyLinkWorks`, `uploadRowsWork` and `revertRowsWork` say the same of removing files, the policy backup among them,
  of making a new key link, and of the database writes of uploads and of reverts. With `uploadsWork` saving and linking
  an upload does not fail except for what the upload itself is. All other operations may still fail.
- The JSON store keeps its configuration as a value and, beside it, the arrays of its list fields. A list is edited in
  its array and then read back into the value.
- New file names of a certificate rotation carry the time, and the clock is taken to move on between uploads.
- Paths are sequences of elements, not strings.
- Maps are gone through in any order, as in the source: a loop takes an arbitrary remaining key.
- The mutexes of the path authorizer and of the rotation services are left to their callers: one call at a time.
- Rule actions are the three defined values; other modes than read and write are modelled as `OtherMode`.

## Model

| member | source | states |
|---|---|---|
| `PathzPolicy.TokensAreFlat` | pathz_authorizer/pathz_authorizer.go:240-312 | the name and key indexes that `authorize` and `insertPath` carry walk exactly the flat token list: each name, then its keys in sorted order |
| `SortedNames.SortNamesSorted` | pathz_authorizer/pathz_authorizer.go:300-303 | the key names are in strictly ascending order, each once |
| `SortedNames.LeIff` | pathz_authorizer/pathz_authorizer.go:300-303 | the order of the names is the one of Go strings: a beginning comes first, else the first difference decides |
| `PathzPolicy.BeatsAsymmetric` | pathz_authorizer/pathz_authorizer.go:266-286 | of two matching rule paths that differ, never both beat each other |
| `PathzPolicy.DecisionUnique` | pathz_authorizer/pathz_authorizer.go:207-315 | the flat specification gives at most one action per request |
| `PathzPolicy.DecisionDependsOnRuleSet` | pathz_authorizer/pathz_authorizer.go:517-528 | it depends on the set of rules, not on their order or number |
| `PathzTrie.WalkBest` | pathz_authorizer/pathz_authorizer.go:238-315 | the walk finds, among all stored paths that match the request and have a verdict, the one no other beats; none exactly when there is none |
| `PathzProofs.InsertFits` | pathz_authorizer/pathz_authorizer.go:361-390 | after an insertion of a fitting path exactly the paths that fitted before and are compatible with it fit |
| `PathzProofs.InsertContent` | pathz_authorizer/pathz_authorizer.go:317-412 | an insertion changes the permissions at its own path and nowhere else |
| `PathzProofs.InsertKeepsMarked` | pathz_authorizer/pathz_authorizer.go:368-378 | a node without key children has no key name, and with named keys one with key children has one |
| `PathzProofs.InsertOk` | pathz_authorizer/pathz_authorizer.go:317-390 | a rule with a principal and a path that fits goes in; one without a principal never does, and with named keys neither does one that does not fit |
| `PathzProofs.BuildFits` | pathz_authorizer/pathz_authorizer.go:517-528 | pairwise compatible rules with principals are accepted, and every path compatible with all of them still fits |
| `PathzProofs.AcceptedIsWellFormed` | pathz_authorizer/pathz_authorizer.go:361-378 | with named keys, an accepted list is pairwise compatible and every rule has a principal |
| `PathzProofs.AcceptanceIgnoresOrder` | pathz_authorizer/pathz_authorizer.go:517-528 | with named keys, permuting the rules does not change whether a policy is accepted |
| `PathzProofs.PrintPathIsLabel` | pathz_authorizer/pathz_authorizer.go:31-51 | the printed path is a function of the tokens, so rules with the same tokens give the same text |
| `PathzProofs.PrintPathTellsApart` | pathz_authorizer/pathz_authorizer.go:31-51 | for names, keys and values that are not empty and have no delimiter in them, the printed path tells the tokens |
| `PathzTheorems.StoredReflects` | pathz_authorizer/pathz_authorizer.go:179-205 | the permission stored for a principal is denied exactly when some rule at that path denies, else permitted exactly when some rule permits |
| `PathzTheorems.StoredLabel` | pathz_authorizer/pathz_authorizer.go:322-324 | a node that has a verdict carries the printed path of its rules |
| `PathzTheorems.VerdictAgrees` | pathz_authorizer/pathz_authorizer.go:213-233 | the verdict of a node is the one the flat list gives at its path: the user first, then the groups, deny over permit |
| `PathzTheorems.WalkDecides` | pathz_authorizer/pathz_authorizer.go:207-315 | for pairwise compatible rules with principals the walk returns the action of the flat specification on every request, and its path is the best one |
| `PathzTheorems.IncompatibleClash` | pathz_authorizer/pathz_authorizer.go:368-374 | of two rules with different key names at one place, one of the two orders is refused |
| `PathzTheorems.FailureSticks` | pathz_authorizer/pathz_authorizer.go:517-528 | a list with a refused beginning is refused |
| `PathzTheorems.AcceptedInEveryOrderIff` | pathz_authorizer/pathz_authorizer.go:361-390 | a policy is accepted in every order of its rules exactly when it is not empty, every rule has a principal and the rules are pairwise compatible |
| `PathzTheorems.EmptyKeyNameBreaksOrder` | pathz_authorizer/pathz_authorizer.go:370-374 | two rules, one with an empty key name, that are accepted in one order and refused in the other |
| `PathzAccepted.InsertBy` | pathz_authorizer/pathz_authorizer.go:317-412 | every successful insertion, with named keys or not, adds the rule at its own values only, and gives each node on its way its key name, which was the same or empty before |
| `PathzAccepted.BuildName` | pathz_authorizer/pathz_authorizer.go:361-378 | in every accepted policy the key name of a node is the one some rule gives there, and no rule gives another non-empty one |
| `PathzAccepted.BuildAction` | pathz_authorizer/pathz_authorizer.go:179-205 | in every accepted policy the permission at a node is denied exactly when some rule with the values of its path denies, else permitted exactly when some permits |
| `PathzAccepted.BuildId` | pathz_authorizer/pathz_authorizer.go:179-205 | the id stored with a permission is that of a rule with the values of its path that gives this action to this principal |
| `PathzAccepted.NodeAtIff` | pathz_authorizer/pathz_authorizer.go:240-312 | a node is found under the key names it ended up with and under no others |
| `PathzAccepted.VerdictOfAccepted` | pathz_authorizer/pathz_authorizer.go:207-233 | the tree of every accepted policy holds at every path exactly the verdict of the rule list there |
| `PathzAccepted.AcceptedDecides` | pathz_authorizer/pathz_authorizer.go:207-315 | for every accepted policy and every request the walk takes the decision that the rule list gives, where a rule with an empty key name takes the name the other rules give |
| `PathzAccepted.PolicyDecisionUnique` | pathz_authorizer/pathz_authorizer.go:207-315 | that decision is one action at most |
| `PathzAccepted.DecisionIgnoresOrder` | pathz_authorizer/pathz_authorizer.go:517-528 | two accepted orders of the same rules decide every request alike |
| `PathzExact.BuildAlike` | pathz_authorizer/pathz_authorizer.go:517-528 | for rules with principals, acceptance and the shape of the tree depend on the paths only |
| `PathzExact.ClashIsEmpty` | pathz_authorizer/pathz_authorizer.go:361-378 | of two rules of an accepted policy that ask for different key names at one place, one has an empty name there |
| `PathzExact.LostRule` | pathz_authorizer/pathz_authorizer.go:370-374 | for every such rule with an empty name, a choice of actions with which the flat list denies the rule's own path as a request and the walk finds nothing |
| `PathzExact.DecidedRightIff` | pathz_authorizer/pathz_authorizer.go:207-412 | an accepted policy is decided as the flat list does on every path, for all principals, modes and actions, exactly when its rules are pairwise compatible |
| `PathzAuthorizer.Node.constructor` | pathz_authorizer/pathz_authorizer.go:521 | a new node is the empty tree |
| `PathzAuthorizer.Node.InsertPath` | pathz_authorizer/pathz_authorizer.go:317-412 | the linked tree becomes the inserted value, in place, with every node allocated and no sharing |
| `PathzAuthorizer.Node.InsertBelow` | pathz_authorizer/pathz_authorizer.go:379-411 | the recursion into one child changes that child only; all others keep what they represent |
| `PathzAuthorizer.Node.InsertBelowName` | pathz_authorizer/pathz_authorizer.go:391-411 | the name case: makes the child if needed and goes on in it |
| `PathzAuthorizer.Node.InsertBelowKey` | pathz_authorizer/pathz_authorizer.go:361-389 | the key case, with the key name fixed at first use |
| `PathzAuthorizer.Node.StoreRule` | pathz_authorizer/pathz_authorizer.go:322-357 | the rule is added to the permissions of the node; a rule without a principal is refused |
| `PathzAuthorizer.Node.OwnVerdict` | pathz_authorizer/pathz_authorizer.go:207-233 | the loop over the groups gives the node's verdict whatever order it takes |
| `PathzAuthorizer.Node.Authorize` | pathz_authorizer/pathz_authorizer.go:207-315 | the recursion over the linked tree returns the action of the walk, with the rule that gave it |
| `PathzProcessor.CreateGroups` | pathz_authorizer/pathz_authorizer.go:504-515 | a user is in a group exactly when some definition with that name lists it |
| `PathzProcessor.InGroupIff` | pathz_authorizer/pathz_authorizer.go:219-223 | the group test of the walk holds exactly when some definition of that group lists the user |
| `PathzProcessor.AnswersExplained` | pathz_authorizer/pathz_authorizer.go:138-164 | the rule id and text of a result belong to a rule of the list that matches the request and gives that action |
| `PathzProcessor.AnswersDecide` | pathz_authorizer/pathz_authorizer.go:138-164 | the action of a result is the decision of the accepted policy, whatever its key names |
| `PathzProcessor.VerdictFromRule` | pathz_authorizer/pathz_authorizer.go:207-233 | every permit and every deny of an accepted policy comes from a rule of the list: for this user or a group that some definition lists the user in, for this mode, with the same names as the request and the same key values or wildcards, and with the id of the result |
| `PathzProcessor.OneRuleDecides` | pathz_authorizer/pathz_authorizer.go:207-315 | a policy of one rule decides as the rule says exactly for the users it is for, in its mode, on the paths it covers |
| `PathzProcessor.CreatePolicies` | pathz_authorizer/pathz_authorizer.go:517-528 | a tree comes out exactly when the list is accepted, and it is the tree of the list |
| `PathzProcessor.GnmiAuthzProcessor.UpdatePolicyFromProto` | pathz_authorizer/pathz_authorizer.go:475-492 | an accepted policy replaces the old one; a refused one changes nothing |
| `PathzProcessor.GnmiAuthzProcessor.AuthorizeWithPrefix` | pathz_authorizer/pathz_authorizer.go:433-451 | the action is the decision of the accepted policy for prefix and path together; with pairwise compatible rules it is the one the flat list gives, with a rule that explains it; a user counts as in a group exactly when some definition lists it, and a permit or deny comes from a rule for this user, mode and path; without a policy nothing is permitted; a request without a mode is an error |
| `PathzProcessor.GnmiAuthzProcessor.Authorize` | pathz_authorizer/pathz_authorizer.go:415-430 | the same without a prefix |
| `YgotRecord.Recorder.PushPrefix` | transl_utils/ygot_diff.go:295-298 | one element more on the prefix, over a slot that a pop left or in a larger array; no recorded path changes |
| `YgotRecord.Recorder.PopPrefix` | transl_utils/ygot_diff.go:300-302 | one element less, the slot stays for the next push; no recorded path changes |
| `YgotRecord.Recorder.NewPath` | transl_utils/ygot_diff.go:279-292 | a new array with the prefix and the suffix |
| `YgotRecord.Recorder.RecordUpdate` | transl_utils/ygot_diff.go:248-261 | one update with a path array of its own behind those recorded |
| `YgotRecord.Recorder.RecordDeletePath` | transl_utils/ygot_diff.go:263-270 | one delete with a path array of its own behind those recorded |
| `YgotRecord.Recorder.RecordUpdates` | transl_utils/ygot_diff.go:235-242 | the listed updates below the prefix, each with a path array of its own |
| `YgotRecord.Recorder.Perform` | transl_utils/ygot_diff.go:221-302 | after any sequence of pushes, pops and records every recorded array has the contents it was recorded with and none is the array of the prefix; together they hold what the same operations give on values |
| `YgotRecord.Recorder.Results` | transl_utils/ygot_diff.go:49-67 | the lists of updates and deletes as values |
| `YgotDiff.YgotDiff.ForLeaf` | transl_utils/ygot_diff.go:183-191 | a removed leaf is deleted, a changed one (or any, when all are recorded) updated |
| `YgotDiff.YgotDiff.ForUnion` | transl_utils/ygot_diff.go:143-161 | the same for union leaves |
| `YgotDiff.YgotDiff.ForEnum` | transl_utils/ygot_diff.go:163-181 | the same for enumerations, with an error for a value that has no name |
| `YgotDiff.YgotDiff.ForLeafList` | transl_utils/ygot_diff.go:193-217 | the same for leaf lists |
| `YgotDiff.YgotDiff.RecordUpdates` | transl_utils/ygot_diff.go:221-246 | every leaf of a new subtree is an update below the prefix |
| `YgotDiff.YgotDiff.ForStruct` | transl_utils/ygot_diff.go:69-115 | what is recorded for two structs is a difference of them below the prefix, and the prefix is back on return |
| `YgotDiff.YgotDiff.ForList` | transl_utils/ygot_diff.go:117-141 | the same for all instances of a list, gone through in any order |
| `YgotDiff.Diff` | transl_utils/ygot_diff.go:49-67 | trees of one type with known enumeration values have a difference, and the result is one; its updates are exactly the values of the new and changed fields and its deletes cover the fields that are gone; trees of different types give an error |
| `YgotFields.LeafAtIff` | transl_utils/ygot_diff.go:183-217 | there is a leaf with a value at a path exactly when a field of the struct there carries that value |
| `YgotFields.SameLeavesSameFields` | transl_utils/ygot_diff.go:183-217 | trees with the same leaf at a path have the same set field there, so equal leaves mean equal fields |
| `YgotFields.DiffReports` | transl_utils/ygot_diff.go:49-217 | every set field that is new or changed is an update with its own value, each update is the value of such a field, a field that is gone is covered by a delete and no field that is there is |
| `YgotReplay.ReplayGivesNewTree` | transl_utils/ygot_diff.go:49-141 | applying a difference to the leaves of the old tree gives exactly the leaves of the new tree, and nothing outside the prefix changes |
| `YgotReplay.NoOverlap` | transl_utils/ygot_diff.go:69-141 | no delete is a prefix of an update, so deletes and updates may be applied in either order |
| `YgotReplay.EmptyIff` | transl_utils/ygot_diff.go:183-217 | without recording all, nothing is recorded exactly when the leaves are the same and no container or list instance is gone |
| `YgotReplay.EqualLeavesMayDiffer` | transl_utils/ygot_diff.go:69-115 | two trees with the same leaves whose difference is not empty: a container without leaves is gone |
| `YgotReplay.RecordAllRecordsAll` | transl_utils/ygot_diff.go:183-191 | when all are recorded, every leaf of the new tree is in the updates |
| `SampleStream.YgotCache.MsgBuilder` | sonic_data_client/transl_subscriber.go:333-361 | the response replaces the cached one, its path counts as received, and the message is the difference between the two |
| `SampleStream.YgotCache.DeleteMsgBuilder` | sonic_data_client/transl_subscriber.go:367-388 | exactly the cached paths that were not received are dropped, and exactly their delete paths sent |
| `SampleStream.DeletePathIs` | sonic_data_client/transl_subscriber.go:367-388 | the delete path of a cached path goes on from it as the subscribed pattern does, and ends where the longer of the two ends |
| `SampleStream.SampledKeepsStep` | sonic_data_client/transl_subscriber.go:333-361 | a message about one response keeps the receiver at the leaves of the whole cache |
| `SampleStream.SweptKeepsStep` | sonic_data_client/transl_subscriber.go:367-399 | so does the delete message at the end of a round |
| `SampleStream.RoundExact` | sonic_data_client/transl_subscriber.go:57-63 | after a round the cache holds the last response of each received path and nothing else, and the receiver their leaves |
| `SampleStream.SilentRound` | sonic_data_client/transl_subscriber.go:338-346 | an updates-only first round sends nothing and fills the cache |
| `SampleStream.StreamExact` | sonic_data_client/transl_data_client.go:404-510 | after every round of every stream the receiver holds exactly the leaves of that round, with or without duplicate suppression, and from its snapshot after an updates-only first round |
| `SuperSubscription.StepKeeps` | sonic_data_client/super_subscription.go:113-204 | every step of every client keeps the protocol invariant |
| `SuperSubscription.RunKeeps` | sonic_data_client/super_subscription.go:113-204 | the invariant holds in every state of every run |
| `SuperSubscription.OneSampler` | sonic_data_client/transl_data_client.go:470-483 | of all clients with one request at most one listens to tickers |
| `SuperSubscription.NoLostWakeUp` | sonic_data_client/super_subscription.go:162-183 | a client that waits although it is the primary has its wake-up in its channel, or the leaver that promoted it can send it now |
| `SuperSubscription.SendNeverBlocks` | sonic_data_client/super_subscription.go:174-180 | the wake-up sent under both locks always finds room in the channel |
| `SuperSubscription.PromotedOnce` | sonic_data_client/super_subscription.go:174-180 | no client is promoted twice in a run |
| `SuperSubscription.RegistryExact` | sonic_data_client/super_subscription.go:42-94 | one registered super-subscription per request, each with a primary client among its members unless a client is just being added to it; deleted ones have no members, and each client is in at most one |
| `SuperSubscription.TickersShared` | sonic_data_client/super_subscription.go:113-143 | populated clients with one request listen to the same tickers, a different one for each interval, none of them stopped |
| `SuperSubscription.RefusedIff` | sonic_data_client/super_subscription.go:129-141 | a client is refused exactly when there are tickers and not for the same intervals |
| `SuperSubscription.LockHoldersMove` | sonic_data_client/super_subscription.go:162-204 | whoever holds the lock of a super-subscription can move, and whoever holds the global lock can move or waits for such a holder |
| `SuperSubscription.Progress` | sonic_data_client/transl_data_client.go:455-479 | as long as some client does not wait for something from outside, some client can move |
| `SuperSubscriptions.Registry.FindSuperSubscription` | sonic_data_client/super_subscription.go:67-80 | finds a registered super-subscription with that request exactly when there is one |
| `SuperSubscriptions.Registry.CreateSuperSubscription` | sonic_data_client/super_subscription.go:42-61 | registers a new, empty one |
| `SuperSubscriptions.Registry.AddClient` | sonic_data_client/super_subscription.go:186-204 | the client becomes a member of the one for its request, and its primary if there was none |
| `SuperSubscriptions.Registry.ShareTickers` | sonic_data_client/super_subscription.go:129-141 | existing tickers are taken over exactly when there are as many as intervals and one for each |
| `SuperSubscriptions.Registry.PopulateTickers` | sonic_data_client/super_subscription.go:113-143 | makes one new ticker per interval when there are none, else takes the existing ones or refuses |
| `SuperSubscriptions.Registry.LeaveSuperSubscription` | sonic_data_client/super_subscription.go:162-183 | the last client ends the super-subscription and its tickers, a leaving primary names another member and wakes it |
| `SuperSubscriptions.LeavingMayLeave` | sonic_data_client/super_subscription.go:162-183 | whenever no lock is held, a leaving client finds the wake-up channels of the other members empty, except that of the primary |
| `SuperSubscriptions.JoinIsRun` | sonic_data_client/super_subscription.go:186-204 | an uncontended join is two steps of the protocol |
| `SuperSubscriptions.PopulateIsRun` | sonic_data_client/super_subscription.go:113-143 | an uncontended population is two steps of the protocol |
| `SuperSubscriptions.LeaveIsRun` | sonic_data_client/super_subscription.go:162-183 | an uncontended leave is three or four steps of the protocol |
| `CertzProfile.SessionKept` | gnmi_server/gnsi_certz.go:464-504 | after any uploads, an entity that is not final has the final one of the session start behind it, and the active one is the last upload of its kind |
| `CertzProfile.SessionEnds` | gnmi_server/gnsi_certz.go:595-686 | after any uploads, reverting restores the active entities of the start and finalizing leaves the last upload of each kind; both leave all final, and after finalizing the entities kept for the next revert are the active ones, save for a revocation list that was not uploaded |
| `CertzDisk.FailureMovesNothingIff` | gnmi_server/gnsi_certz.go:925-964 | whichever step of a link replacement fails, the restores leave the links as they were: exactly when there is a certificate link before the call |
| `CertzDisk.NewCertWithOldKey` | gnmi_server/gnsi_certz.go:956-962 | without a certificate link, a new key link that fails leaves the new certificate beside the old key |
| `CertzDisk.FinalizedLeadsIff` | gnmi_server/gnsi_certz.go:652-662 | once the replaced files are removed, the links lead to files exactly when the session did not replace just one of a certificate and a trust bundle that shared a file |
| `CertzDisk.SharedFileDangles` | gnmi_server/gnsi_certz.go:1017-1034 | one file for certificate and trust bundle, a new certificate and Finalize: the link of the trust bundle leads nowhere |
| `CertzDisk.PolicyBackIff` | gnmi_server/gnsi_certz.go:535-550 | however many policies a session saves, restoring brings back the one of its start exactly when no other policy was left in the backup |
| `CertzMessages.ReplacedByKind` | gnmi_server/gnsi_certz.go:646-662 | whatever was uploaded, which files finalizing replaces, and that this is the failing case exactly when one of a certificate and a trust bundle that shared a file was uploaded and not the other |
| `CertzMessages.RowsAgree` | gnmi_server/gnsi_certz.go:688-715 | rows that agreed with the profile before a session agree with it after one whose writes worked |
| `CertzMessages.LastMsgIs` | gnmi_server/gnsi_certz.go:381-430 | the last message of a kind is one of that kind with none of the kind behind it; there is none exactly when no message is of the kind |
| `CertzMessages.NotedMore` | gnmi_server/gnsi_certz.go:506-552 | what is saved keeps what holds during a session: every new entity has the version, certificate and key or policy of the last message of its kind |
| `CertzMessages.NotedFinalized` | gnmi_server/gnsi_certz.go:646-662 | after the replaced files are removed, the links of a new certificate and key and of a new trust bundle lead to what the last messages carry |
| `CertzMessages.StoppedAt` | gnmi_server/gnsi_certz.go:243-284 | a session that stops at the first message that cannot be served stops at Finalize exactly when its profile is known and all requests before it, at least one, are acceptable |
| `CertzServer.GNSICertzServer.AttemptWrite` | gnmi_server/gnsi_certz.go:1007-1015 | a successful write leaves the data; a failed one changes only that file |
| `CertzServer.GNSICertzServer.RmSymlink` | gnmi_server/gnsi_certz.go:863-879 | returns the old target and removes the link, or fails and changes nothing |
| `CertzServer.GNSICertzServer.RestoreSymlink` | gnmi_server/gnsi_certz.go:881-898 | sets the link back exactly when the old target exists and the operations work |
| `CertzServer.GNSICertzServer.AtomicSetSrvCertKeyPair` | gnmi_server/gnsi_certz.go:925-964 | moves both links, or, when the restores work, leaves both as they were unless there was no certificate link and the new key link failed |
| `CertzServer.GNSICertzServer.AtomicSetCACert` | gnmi_server/gnsi_certz.go:968-989 | moves the link, or, when the restore works, leaves it |
| `CertzServer.GNSICertzServer.WriteEntityFreshness` | gnmi_server/gnsi_certz.go:688-715 | with working writes the row holds the creation time in nanoseconds and the version; no other row changes |
| `CertzServer.GNSICertzServer.SaveCert` | gnmi_server/gnsi_certz.go:506-518 | on success the key file holds the key of the message and the certificate file its certificate; only the new files change; if writing works, it succeeds exactly for acceptable messages |
| `CertzServer.GNSICertzServer.SaveTrust` | gnmi_server/gnsi_certz.go:519-530 | on success the bundle file holds the bundle of the message; only the new file changes; if writing works, it succeeds exactly for acceptable messages |
| `CertzServer.GNSICertzServer.UploadCert` | gnmi_server/gnsi_certz.go:464-473 | whether it succeeds or fails, every link leads to an existing file of the active entities or is missing as at the start, and every file of before the session is untouched; on success the new files hold the certificate and the key of the message |
| `CertzServer.GNSICertzServer.UploadTrust` | gnmi_server/gnsi_certz.go:475-482 | the same for the trust bundle, with the data of the message in its file |
| `CertzServer.GNSICertzServer.SavePolicy` | gnmi_server/gnsi_certz.go:535-550 | after a save the policy of the session start is in the backup, and only the first save moves it there; after a failed one it is there or back in place |
| `CertzServer.GNSICertzServer.UploadEntity` | gnmi_server/gnsi_certz.go:388-427 | an accepted entity has a time, a version that is new unless overwriting is asked for, becomes the active one, and its data is in place; the rows of kinds without an upload are untouched; if saving works, exactly the acceptable ones are accepted |
| `CertzServer.GNSICertzServer.DoUpload` | gnmi_server/gnsi_certz.go:381-430 | a successful upload activates all its entities in order, and the data of the last of each kind is in place; a failed one some of the first ones; if saving works, it succeeds exactly when there are entities and each is acceptable after those before it |
| `CertzServer.GNSICertzServer.RevertAll` | gnmi_server/gnsi_certz.go:595-644 | the active entities of the session start, with links and policy file as then; every older file is untouched and of the new ones exactly those of the last uploads are removed; the row of a kind without an upload is untouched, that of an uploaded one right if the writes of the revert worked |
| `CertzServer.GNSICertzServer.FinalizeAll` | gnmi_server/gnsi_certz.go:646-686 | all active entities become final and exactly the replaced files are removed; the links lead to files unless one of two entities with a common file was replaced, and if the removals worked exactly then; the links of new entities lead to the data of the last messages |
| `CertzServer.GNSICertzServer.RevertProfile` | gnmi_server/gnsi_certz.go:595-644 | reverts one profile and touches no other; an unknown one changes nothing |
| `CertzServer.GNSICertzServer.FinalizeProfile` | gnmi_server/gnsi_certz.go:646-686 | the profile is finalized even when saving the metadata fails; links and policy file hold the data of the last message of each new kind, and the policy of the start if there is no new one |
| `CertzServer.GNSICertzServer.ProcessRotateRequest` | gnmi_server/gnsi_certz.go:286-308 | an unknown profile or request is an error; an upload activates its entities, with their data in place; if saving works, exactly the acceptable requests to known profiles succeed |
| `CertzServer.GNSICertzServer.Receive` | gnmi_server/gnsi_certz.go:243-283 | one message: a served request goes on, Finalize behind a request ends the session with everything final, anything else with everything undone; if saving works, exactly the acceptable requests that can be answered go on |
| `CertzServer.GNSICertzServer.Rotate` | gnmi_server/gnsi_certz.go:225-284 | for all messages and all failures: a session that is not finalized leaves the active entities and the files of its start, a finalized one the last upload of each kind; a link leads to its entity, or is missing as before where nothing was uploaded; links, policy file and rows match as far as the operations that set them back worked, the links and the policy file down to the data of the last message of each kind; if saving works, a session is finalized exactly when its profile is known and all requests before its Finalize message, at least one, are acceptable |
| `AuthzServer.GNSIAuthzServer.CopyFile` | gnmi_server/gnsi_util.go:12-49 | the destination becomes the source or stays; success means it became the source |
| `AuthzServer.GNSIAuthzServer.WriteAuthzMetadataToDB` | gnmi_server/gnsi_authz.go:229-243 | the p4rt row, the gnxi row and the memory get the value in this order up to the write that fails; the memory follows the gnxi row |
| `AuthzServer.GNSIAuthzServer.SaveToAuthzFile` | gnmi_server/gnsi_authz.go:175-199 | a failure may come before or after the new policy is in place |
| `AuthzServer.GNSIAuthzServer.ProcessRotateRequest` | gnmi_server/gnsi_authz.go:138-173 | a request succeeds exactly when the upload is valid and new and nothing fails, and then file, memory and rows are all at it; an empty policy or version, a policy that is no JSON, a missing policy file and a version that is not new without the force flag are refused and change nothing, and nothing else is refused unless a write fails; memory and gnxi row always agree, and a failed request leaves exactly the writes before its failure |
| `AuthzServer.GNSIAuthzServer.Revert` | gnmi_server/gnsi_authz.go:93-99 | memory and gnxi row agree whichever write fails, and file, memory and p4rt row are what the writes that worked make them |
| `AuthzServer.GNSIAuthzServer.Rotate` | gnmi_server/gnsi_authz.go:66-136 | memory and gnxi row agree after every session; one that is not finalized leaves file, memory and both rows as at its start unless a write of the revert fails, and otherwise exactly what that leaves; a finalized one leaves all at the last upload |
| `AuthzServer.UndoneIff` | gnmi_server/gnsi_authz.go:262-266 | for each field, when the writes of a revert bring back the memory and when they leave the p4rt row with the value of the memory |
| `AuthzServer.LeftBehindIff` | gnmi_server/gnsi_authz.go:66-136 | after a session that is not finalized the p4rt row differs from memory and gnxi row in a field exactly when the last request wrote it alone and its write back failed, or when it alone was written back from a value that had changed |
| `AuthzServer.NeverLeftBehindIff` | gnmi_server/gnsi_authz.go:66-136 | the p4rt row agrees with memory and gnxi row whichever writes of the revert fail exactly when the messages have left both at the value of the start |
| `AuthzServer.RowLeftBehind` | gnmi_server/gnsi_authz.go:229-243 | an accepted request and a revert after which the p4rt row keeps the version of the policy that is gone |
| `JsonPointer.TwoPassesAreOne` | pkg/bypass/bypass.go:360-364 | the two replacement passes equal one pass from left to right, on every string |
| `JsonPointer.DecodeInvertsEscape` | pkg/bypass/bypass.go:357-364 | decoding inverts the escaping of section 4 of RFC 6901 on every string |
| `JsonPointer.EscapeInvertsDecodeIff` | pkg/bypass/bypass.go:357-364 | escaping inverts decoding exactly on well-escaped strings |
| `JsonClient.FixPathTwice` | sonic_data_client/json_client.go:124-131 | a path that was fixed in place stays as it is when it is fixed again |
| `JsonClient.FixPathKeyIff` | sonic_data_client/json_client.go:124-131 | a key with each "/" written as "~1" becomes the key it was written for exactly when that has no "~1" of its own |
| `JsonClient.FixPathElsewhere` | sonic_data_client/json_client.go:124-131 | no other part of the path changes, and paths shorter than two stay |
| `JsonClient.FixPathAround` | sonic_data_client/json_client.go:124-131 | the parts of a key before and behind a "/" are fixed each on their own |
| `ListIndex.AtoiIff` | sonic_data_client/json_client.go:63-72 | a text is read as a list index exactly when it is a decimal number with an optional sign and any leading zeros, and as that number |
| `JsonConfig.CutUndoesPutIff` | sonic_data_client/json_client.go:352-384 | removing what was put at an absent path restores the configuration exactly when the objects already on the way are non-empty objects |
| `JsonConfig.CutUndoesPutItemIff` | sonic_data_client/json_client.go:385-417 | the same for list items: exactly when the list was not empty, or absent with a full way to it |
| `JsonConfig.CutKeepsPruned` | sonic_data_client/json_client.go:362-383 | removing leaves no empty container |
| `JsonConfig.PutElsewhere` | sonic_data_client/json_client.go:220-328 | a put changes no path apart from its own |
| `JsonConfig.CutElsewhere` | sonic_data_client/json_client.go:338-424 | neither does a removal, with its pruning |
| `JsonConfig.ReplaceItem` | sonic_data_client/json_client.go:330-336 | removing an item and inserting another in its place changes that item only |
| `JsonLists.Lists.Open` | sonic_data_client/json_client.go:311-316 | room for an item is made in the array, or in a larger one if it is full: the item at the position is there twice, or an empty string is at the end; no other list changes |
| `JsonLists.Lists.ShiftRight` | sonic_data_client/json_client.go:314 | the items from a position on move by one place within the array |
| `JsonLists.Lists.Delete` | sonic_data_client/json_client.go:407-408 | the items behind a position move back by one place within the array, and the list is the old one without that item; no other list changes |
| `JsonLists.Lists.Assign` | sonic_data_client/json_client.go:231-285 | a new value brings a new array for each of its list fields, and the old lists below its path are forgotten |
| `JsonLists.Lists.NothingShared` | sonic_data_client/json_client.go:220-424 | no two list fields share an array |
| `JsonLists.MirrorsPut` | sonic_data_client/json_client.go:220-328 | arrays that hold the lists of a configuration, and those of a new value, hold the lists after it is put |
| `JsonLists.MirrorsCut` | sonic_data_client/json_client.go:338-424 | what is left of the arrays holds the lists after a removal with its pruning |
| `JsonClient.JsonClient.InsertItem` | sonic_data_client/json_client.go:307-323 | an item goes in at a valid position; without a value the room for it stays |
| `JsonClient.JsonClient.DeleteItem` | sonic_data_client/json_client.go:407-417 | an item goes out, and with the last one the list and every object that becomes empty |
| `JsonClient.JsonClient.Get` | sonic_data_client/json_client.go:133-218 | the value at the fixed path if it is of the kind that the length of the path asks for, list items from their array |
| `JsonClient.JsonClient.Add` | sonic_data_client/json_client.go:220-328 | succeeds exactly on the accepted values, and the four unrolled cases are one put at a path; no other table changes, not even on error; the arrays keep holding the lists of the configuration |
| `JsonClient.JsonClient.Remove` | sonic_data_client/json_client.go:338-424 | succeeds exactly when there is a value of the right kind, is one pruning removal at a path, and changes nothing on error; the arrays keep holding the lists of the configuration |
| `JsonClient.JsonClient.Replace` | sonic_data_client/json_client.go:330-336 | a successful replacement sets the value, or the list item, and changes nothing else |
| `JsonClient.RemoveUndoesAddIff` | sonic_data_client/json_client.go:220-424 | after a successful add at a free path, the removal restores the configuration exactly when the containers on the way are not empty and of the right kind, and an inserted list item is a string |
| `JsonClient.AddUndoesRemove` | sonic_data_client/json_client.go:220-424 | whatever a removal takes away can be added again at the same path, and that restores the configuration |
| `JsonClient.RemoveKeepsPruned` | sonic_data_client/json_client.go:338-424 | `Remove` keeps a configuration free of empty containers |
| `JsonClient.PrunedWay` | sonic_data_client/json_client.go:18-43 | without empty containers the condition is only that the values on the way are objects |
| `JsonClient.OthersKept` | sonic_data_client/json_client.go:220-424 | `Add` and `Remove` leave every path apart from theirs as it was |
| `DbEntry.SplitJoinIff` | sonic_data_client/mixed_db_client.go:913-915 | splitting undoes joining exactly for non-empty lists of words without a comma |
| `DbEntry.ConvertDbEntry` | sonic_data_client/mixed_db_client.go:1165-1187 | every Redis field comes from a member, and every string and list leaves one, whatever the order |
| `DbEntry.WordsAre` | sonic_data_client/mixed_db_client.go:1165-1187 | the words of a list are its strings in order; other items are left out |
| `DbEntry.MakeJson` | sonic_data_client/mixed_db_client.go:903-922 | every member comes from a field, and every field but the placeholder leaves one |
| `DbEntry.RoundTripIff` | sonic_data_client/mixed_db_client.go:903-922 | an entry comes back as it was exactly when its strings are not named "NULL" or with an "@" at the end and its lists are non-empty lists of strings without a comma |
| `DbEntry.ConvertToRedisFields` | pkg/bypass/bypass.go:369-385 | the fields the bypass writes, whatever the order |
| `DbEntry.BypassAgrees` | pkg/bypass/bypass.go:369-385 | on strings and lists of strings the bypass leaves exactly what the other encoder leaves |
| `DbEntry.BypassRoundTrip` | pkg/bypass/bypass.go:268-272 | through the bypass, with its placeholder for the empty entry, an entry comes back as it was exactly under the same condition |
| `Command.ParseCommand` | pkg/exec/command.go:172-221 | the loop is the state machine of `Run`, with its two errors; `CommandLayout` says what that gives on every line |
| `Command.LineParses` | pkg/exec/command.go:172-221 | safe words, quoted and joined by spaces, come back as they were, whatever spaces, single quotes and escaped double quotes they contain |
| `Command.LineIff` | pkg/exec/command.go:172-221 | quoted words joined by spaces come back exactly when each of them is not empty, does not end in a backslash and has every double quote behind a backslash: no unsafe word is made up for by another |
| `Command.QuotedIff` | pkg/exec/command.go:191-199 | the same for a single word |
| `CommandLayout.ParsedUntrimmed` | pkg/exec/command.go:173-176 | trimming the line first makes no difference |
| `CommandLayout.ParsedIff` | pkg/exec/command.go:172-221 | a line parses to a result exactly when it is written as gaps, bare text and quoted text that say so: gaps end words, bare and quoted text go on with them, and a quote ends at the next one of its kind that is not behind a backslash |
| `CommandLayout.UnclosedIff` | pkg/exec/command.go:212-214 | a line is refused for an open quote exactly when it is written with quoted text that does not end |
| `CommandLayout.WordsParse` | pkg/exec/command.go:172-221 | words of any bare and quoted pieces, with any spaces between them, before and behind, come back as the texts of their pieces |
| `CommandLayout.BareWordsParse` | pkg/exec/command.go:197-210 | words without spaces and quotes come back as they are, whatever spaces are around them |
| `CommandLayout.SpacesAre` | pkg/exec/command.go:197 | the spaces are the characters with the Unicode property White_Space |
| `DbPoll.SubscribeTableData` | sonic_data_client/db_client.go:1034-1079 | the first source that is a present field or a failing table decides, else the merged tables, nothing if they are empty and a failure if they cannot be rendered |
| `DbPoll.DbClient.PollPath` | sonic_data_client/db_client.go:337-371 | at most one message per path, a delete exactly when a present value has gone |
| `DbPoll.DbClient.PollOnce` | sonic_data_client/db_client.go:336-377 | one poll in any order of the paths brings the receiver to the present values |
| `DbPoll.DbClient.PollRun` | sonic_data_client/db_client.go:320-380 | for every history, at each sync marker the receiver holds exactly the values of that poll, and each disappearance is told by one delete |
| `FieldSubscribe.DbClient.ReadVal` | sonic_data_client/db_client.go:1112-1147 | the payload and the remembered values of a tick, as functions of the reading |
| `FieldSubscribe.DbClient.Run` | sonic_data_client/db_client.go:1104-1192 | what a receiver of the queue holds: with distinct keys, the last value of every table path; empty payloads that are left out make no difference |
| `FieldSubscribe.TickShows` | sonic_data_client/db_client.go:1136-1144 | with distinct keys, merging a payload of either kind brings the receiver to the remembered values |
| `FieldSubscribe.RunShowsLast` | sonic_data_client/db_client.go:1104-1192 | with distinct keys, after any readings a receiver of either stream holds the last value of every table path and nothing else |
| `FieldSubscribe.SharedKeyDisagrees` | sonic_data_client/db_client.go:1141-1143 | two table paths with one key of the payload, and a history after which the two streams differ |
| `FieldSubscribe.StreamsAgreeIff` | sonic_data_client/db_client.go:1104-1192 | the changed-only and the full stream agree after every history exactly when no two table paths share a key of the payload |

## Left out

- Redis, gRPC, TLS, D-Bus, cgo and the message queue: the database is a map, the queue a list, and each outside step succeeds or fails.
- The ygot, translib and protobuf libraries: trees are a datatype, and the listing of the leaves of a new subtree leaves out empty leaves that are false.
- Delivery of sampled updates to all sharing clients: `notify` shares the end-of-round delete message only, so the registry protocol is modelled and not the delivery.
- The revocation list directory: the bundle is modelled as an entity, its files are not.
- Certificate parsing, key generation and the generated key used when an upload brings none: an upload is acceptable or not.
- Links shared by several profiles: the link results are about the profile of the session.
- Metadata files of the rotation services: saving them succeeds or fails and nothing is read back.
- The state after a failed `Add` of the JSON store inside its own table: objects made on the way may stay.
- Nested Go maps of the JSON store are values here, so that an object is never shared between two places is taken for granted.
- JSON texts: the result of parsing is a parameter of `Add`.
- Two subscribed paths with the same text in one poll: paths are their texts.
- Invalid UTF-8 in a command line.
- List indexes beyond 64 bits are read as the numbers they are; the range check refuses them, as the source refuses them when reading.
- Nil clients, nodes and requests, which the source answers with an error or ignores.
- Rollback of path policies and of accounts, the processor usage window, connection limits, dial-out, show commands, flags and generated code.
- CertzServer.GNSICertzServer.Rotate: the link results are for sessions that start with the files of the active entities in place, because a failing replacement does not set a link to a missing file back (`RestoreSymlink`); without a certificate link they assume that new key links can be made, because of `NewCertWithOldKey`; the policy results are for sessions that start without a backup, because of `PolicyBackIff`.
- JsonClient.JsonClient.Get: returns the value and not its text, because rendering is the JSON library's.
- SampleStream.StreamExact: assumes that the response paths of a stream do not extend each other and that a response to a subscribed leaf has a value for that leaf only, because the code relies on the same.
- FieldSubscribe.DbClient.Run: a value is a function of the table path within one tick.
