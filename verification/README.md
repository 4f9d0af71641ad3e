# clusterctl, verified

clusterctl administers an HPC cluster: it keeps the host keys and the layered
configuration of a site, reads what dhcpd hands out, resolves groups of nodes,
switches machines through their service processors, and reinstalls them. This
project models the parts of it whose correctness is hardest to see from the code,
and proves what they promise.

The model has one module for each part. Code that updates state in place is a class
or a method over an array, proved against a specification function; the promises are
lemmas about that function. Concurrent code is a system of steps, one for each
critical section or blocking operation, and its promises hold in every state of
every run. Everything outside is an argument: what a host prints, what a processor
answers, whether a hashed pattern is a host's, what the naming rules give, what is
in an included file.

- `Patterns`, `Removal`, `Replacement`, `OneAfterAnother`, `RepeatedHosts`,
  `NamingOthers`, `KnownHosts`, `HostIndex`, `KnownHostsText`, `Rewriting`: the host key file. Many
  hosts are removed or replaced in one pass, and when that is the same as one host
  after another; an index answers as a scan of the file does; writing a file is a
  normal form.
- `ConfigTree`, `ConfigMerge`, `ConfigLookup`, `EditDistance`: the configuration tree
  with the origin of every value, after any history of merges; and the name suggested
  for a misspelt one.
- `PowerRun`, `PowerLoop`, `BmcRuns`, `IpmiAnswers`: a power action, tried over one
  transport after another, that must not reach a processor twice.
- `BootLinks`, `Reinstall`, `ReinstallSafety`: a reinstall, armed, carried out or
  undone, and what it may say of each node.
- `HostSlots`, `GroupTable`, `GroupLookups`, `CredentialTable`, `CredentialReads`,
  `PlanStore`, `PlanProtocol`, `PlanExpiry`: places on hosts, lookups made once for everyone who
  asks, and plans that are confirmed and carried out once.
- `DhcpTokens`, `DhcpGrammar`, `DhcpParser`, `DhcpLocality`, `DhcpWriting`,
  `DhcpNormal`, `DhcpLookup`: the reader of a dhcpd configuration, what it reads back,
  and the look-up in what it read.
- `GroupUnion`, `ShellWords`, `CincFile`, `Machines`: every group of a source as one
  expression, shell words, a file of shell assignments, and which machine a name is.
- `Text`, `Sorting`, `Selection`, `Options`: strings, their byte order, stable sorting,
  and some elements of a sequence in their order.

Four properties one would expect do not hold of the code as they stand. Each has its
exact condition, proved both ways, and lemmas with the inputs that fail:

- Replacing the keys of several hosts at once is documented as replacing them one
  after another. Of hosts each given once it is exactly when no key names a host given
  after its own (`NamingOthers.HostsGivenOnce`, with the input
  `NamingOthers.LaterTurnTakesOff`; for a key filed under a host that is not given,
  `NamingOthers.FiledElsewhereStays`). Of a host given again it is exactly when the keys
  given before name only the host and the notes the last keys take come through them
  unchanged, which for every file is when they are some and have no notes of their own
  (`RepeatedHosts.AtOnceIsOneByOne`, `RepeatedHosts.SameForEveryFile`). Earlier keys
  that are none lose notes, and ones with notes of their own spread them
  (`RepeatedHosts.NoKeysLoseNotes`, `RepeatedHosts.OwnNotesSpread`).
- A file that hosts were removed from, or whose keys were replaced, reads back as what
  was left exactly when every line can begin with the patterns it has left
  (`Rewriting.ReadsBackAsLeft`, `Rewriting.ReadsBackAsReplaced`). One left
  to begin with `#` becomes a comment, one with `@` makes the file unreadable or the
  line a revocation, and one with an empty pattern makes the file unreadable
  (`Rewriting.LineBecomesComment`, `Rewriting.FileIsRefused`,
  `Rewriting.KeyBecomesRevocation`, `Rewriting.EmptyPatternIsRefused`).
- A plan may be carried out after it expired: once it has, exactly when a call is
  already past finding it and can go on (`PlanExpiry.LateOnlyByThosePast`), and in the
  log exactly when the clock goes past its expiry between the call finding it and
  carrying it out (`PlanExpiry.LateWhenClockPassed`). For any plan there are such runs,
  confirmed or not (`PlanExpiry.AppliedAfterExpiry`, `PlanExpiry.ConfirmedAfterExpiry`).
- A name may be resolved to another name, which is resolved to a third: exactly when
  it has a doubled final dot and the site does not know it
  (`Machines.ResolvedForGood`, `Machines.DoubledDotResolvesTwice`).

## Model

| member | source | states |
|---|---|---|
| `Patterns.MatchWildcard` | internal/hostkeys/hostkeys.go:156-184 | the backtracking loop decides whether some split of the name matches the pattern, `*` for any run and `?` for one character |
| `Patterns.GlobStar` | internal/hostkeys/hostkeys.go:156-184 | a leading `*` matches exactly when the rest matches after some prefix of the name |
| `Patterns.GlobLiteral` | internal/hostkeys/hostkeys.go:116-131 | a pattern without wildcards matches itself alone |
| `Patterns.NamesIsLiteralMatch` | internal/hostkeys/hostkeys.go:116-131 | a pattern names a host exactly when it matches it and is neither negated nor a wildcard |
| `Patterns.Matches` | internal/hostkeys/hostkeys.go:97-114 | a line covers a host when some pattern matches and no negated one does |
| `KnownHosts.File.RemoveAll` | internal/hostkeys/hostkeys.go:318-400 | the pass that compacts the entries in place leaves the entries, counts and notes of the specification `OnePass` |
| `Removal.OnePassIsOneByOne` | internal/hostkeys/hostkeys.go:308-324 | for every file and host list, duplicates, hashed names and lines of several hosts included, one pass equals removing the hosts one after another: the same entries, counts and notes for each host |
| `Removal.RemainingIs` | internal/hostkeys/hostkeys.go:301-400 | what is left is every line but the host keys whose patterns are all the hosts', in order: a host key without the patterns that name one, with all else of it, and any other line untouched |
| `Removal.ReportIs` | internal/hostkeys/hostkeys.go:318-324 | of one host, the lines counted are the host keys that name it, and the notes reported those of the ones that go whole |
| `Removal.NoneNamedAfterwards` | internal/hostkeys/hostkeys.go:301-316 | after a removal no host key names a removed host |
| `Removal.RemovalKeepsMarked` | internal/hostkeys/hostkeys.go:301-316 | revocations and certificate authorities stay, in their order |
| `Removal.RepeatedHostChangesNothing` | internal/hostkeys/hostkeys.go:318-324 | a host given again in any case is credited with nothing |
| `KnownHosts.File.Remove` | internal/hostkeys/hostkeys.go:301-308 | removing one host leaves what the specification leaves, line by line, and reports how many host key lines named it |
| `KnownHosts.File.Add` | internal/hostkeys/hostkeys.go:402-416 | a key replaces the first entry of its host and type in its place and keeps its notes, and is appended otherwise |
| `Replacement.AddedIs` | internal/hostkeys/hostkeys.go:402-416 | a key takes the place of the first host key of its type whose only pattern names its host, with its notes when it has none, and goes to the end when there is no such line; all else stays |
| `Replacement.BlockIs` | internal/hostkeys/hostkeys.go:424-473 | of the keys filed under a host one of each type is put in: the last, under the last notes given for the type, where the type came first |
| `KnownHosts.File.ReplaceAll` | internal/hostkeys/hostkeys.go:424-473 | the pass with its tables of last places and added keys leaves the entries of the specification `ReplacedAll` |
| `OneAfterAnother.EitherWay` | internal/hostkeys/hostkeys.go:418-473 | at once and one after another leave the same entries of the file, and then the keys of each host, filed at once, or put in at its turn under the notes found then and as the later turns leave them |
| `NamingOthers.HostsGivenOnce` | internal/hostkeys/hostkeys.go:424-473 | for every file and hosts each given once, whatever their keys name: the two are the same exactly when no key names a host given after its own |
| `NamingOthers.LaterTurnTakesOff` | internal/hostkeys/hostkeys.go:424-473 | a key of one host that names another given after it is left whole at once and loses that name one after another; given before, it does not matter |
| `NamingOthers.FiledElsewhereStays` | internal/hostkeys/hostkeys.go:452-459 | a key filed under a host that is not given takes the place of a line at once that one after another is not its host's alone yet |
| `RepeatedHosts.AtOnceIsOneByOne` | internal/hostkeys/hostkeys.go:424-473 | for every file: replacing all hosts at once leaves what replacing one after another leaves, notes and order included, exactly when of hosts given again the earlier keys go whole and the notes the last keys take are carried on to them |
| `RepeatedHosts.SameForEveryFile` | internal/hostkeys/hostkeys.go:424-473 | the two are the same for every file exactly when, of each host given again, the keys given before name only the host and, if the last keys take notes, are some and have none of their own |
| `RepeatedHosts.NotesTaken` | internal/hostkeys/hostkeys.go:446-472 | notes found above the old keys stand above the first new one exactly when neither it nor a key of its type has its own, and change nothing otherwise |
| `RepeatedHosts.NoKeysLoseNotes` | internal/hostkeys/hostkeys.go:424-438 | of a host given again whose earlier keys are none, the notes are kept at once and lost one after another |
| `RepeatedHosts.OwnNotesSpread` | internal/hostkeys/hostkeys.go:424-438 | of a host given again, a key's own notes reach the first key only one after another |
| `Replacement.ReplacingKeepsMarked` | internal/hostkeys/hostkeys.go:424-473 | replacing host keys, whatever the hosts, changes no revocation and no certificate authority |
| `KnownHosts.File.Find` | internal/hostkeys/hostkeys.go:279-289 | the lines without a marker whose patterns cover the host, each once and in their order |
| `KnownHosts.File.Revoked` | internal/hostkeys/hostkeys.go:291-299 | whether some line marked `@revoked` covers the host and has the key |
| `KnownHosts.FoundKeys` | internal/hostkeys/hostkeys.go:279-289 | an entry is found exactly when it is in the file, has no marker and covers the host |
| `HostIndex.MakeIndex` | internal/hostkeys/hostkeys.go:486-508 | the index lists, for each name spelt out, the lines with it in order, and apart the lines that have to be read for every host |
| `HostIndex.Candidates` | internal/hostkeys/hostkeys.go:510-531 | the merge of the two lists is ascending and holds every line of either once |
| `HostIndex.Find` | internal/hostkeys/hostkeys.go:533-542 | the index finds exactly the lines without a marker that cover the host, each once and in their order, as the scan of the file does |
| `HostIndex.Revoked` | internal/hostkeys/hostkeys.go:544-552 | the index answers exactly whether some line marked `@revoked` covers the host and has the key, as the scan does |
| `HostIndex.CoveringLineIsCandidate` | internal/hostkeys/hostkeys.go:475-508 | a line that covers a host spells it or is read for every host |
| `HostIndex.PlainIs` | internal/hostkeys/hostkeys.go:475-508 | a pattern is spelt out when it is not negated, no hash and has no wildcard |
| `KnownHostsText.Parse` | internal/hostkeys/hostkeys.go:200-242 | the loop over the lines reads what the specification `ParseText` reads, its errors included |
| `KnownHostsText.Render` | internal/hostkeys/hostkeys.go:244-277 | the loop over the sorted entries writes the specification `RenderText` |
| `KnownHostsText.WrittenInOrder` | internal/hostkeys/hostkeys.go:244-277 | a file is written by hosts, of the same hosts by marker, and then by type, with all its entries, those that tie as they stood |
| `KnownHostsText.ParseRendered` | internal/hostkeys/hostkeys.go:200-277 | a written file reads back as its normal form: the entries stably sorted under their notes, the notes of the first as header |
| `KnownHostsText.ReadsBackWhenWellFormed` | internal/hostkeys/hostkeys.go:200-277 | and of all files exactly the well-formed ones do |
| `KnownHostsText.NormalKeepsComments` | internal/hostkeys/hostkeys.go:244-277 | no comment line is lost and their order is kept |
| `KnownHostsText.RenderNormal` | internal/hostkeys/hostkeys.go:244-277 | writing the normal form writes the same file |
| `KnownHostsText.RewritingIsStable` | internal/hostkeys/hostkeys.go:200-277 | for every text that parses, writing, reading and writing again changes nothing |
| `Rewriting.ReadsBackAsLeft` | internal/hostkeys/hostkeys.go:200-277 | for every text that parses and every list of hosts: the file written after the removal reads back as what was left exactly when every host key line can begin with the patterns it has left |
| `Rewriting.ReadsBackAsReplaced` | internal/cli/hostkey.go:356-377 | for every text that parses, every list of hosts and well-formed keys filed under them: the file written after the replacement reads back as it was left exactly under the same condition |
| `Rewriting.ForgottenWhenReadBack` | internal/hostkeys/hostkeys.go:301-316 | and then what is read back names none of the hosts |
| `Rewriting.LineBecomesComment` | internal/hostkeys/hostkeys.go:209-216 | a line left to begin with `#` is read back as a comment |
| `Rewriting.FileIsRefused` | internal/hostkeys/hostkeys.go:220-226 | a line left to begin with `@` and no marker has the whole file refused |
| `Rewriting.KeyBecomesRevocation` | internal/hostkeys/hostkeys.go:220-238 | a line left to begin with a marker is read back as a revocation |
| `Rewriting.EmptyPatternIsRefused` | internal/hostkeys/hostkeys.go:227-229 | a line left with an empty pattern alone has the whole file refused |
| `ConfigTree.LastComparableWins` | internal/config/merge.go:143-172 | what stands of a history of writes is, for each path, the last write comparable with it |
| `ConfigTree.ReplacesIs` | internal/config/merge.go:210-239 | writing reports that something was replaced exactly when a leaf was on the way to the path, or a section at it |
| `ConfigMerge.Tree.SetIn` | internal/config/merge.go:210-239 | writing a value at a path changes that path and says whether a leaf above, or a section there, was replaced |
| `ConfigMerge.Tree.Drop` | internal/config/merge.go:150-163 | exactly the origins at comparable paths are dropped |
| `ConfigMerge.Tree.MergeLeaf` | internal/config/merge.go:157-171 | a leaf is written with its origin, and the table stays that of the history |
| `ConfigMerge.Tree.MergeValue` | internal/config/merge.go:143-172 | a merge is the writes of its leaves in the order of their keys |
| `ConfigMerge.Tree.MergeDocumentExcept` | internal/config/merge.go:93-117 | a document merged is the writes of the subtree taken from it, without the keys left out |
| `ConfigMerge.Tree.Override` | internal/config/merge.go:182-208 | an accepted override is its writes; one that is refused leaves the tree as it was, with its origins |
| `ConfigMerge.WritesAreLeaves` | internal/config/merge.go:143-172 | a merge writes leaves only, each at the path it has in the value, none at the root, with the origin of its own path in the source |
| `ConfigMerge.EveryLeafIsWritten` | internal/config/merge.go:143-172 | and it writes every leaf of the value |
| `ConfigMerge.DocumentWritesAre` | internal/config/merge.go:93-117 | of a document's section nothing is written below a key that is left out; every write is a leaf of it, below the path it is merged into, with the document's origin for the leaf's own dotted path |
| `ConfigMerge.DocumentIsWritten` | internal/config/merge.go:93-117 | and every leaf of the section below any other key is written |
| `ConfigMerge.DocumentOtherwise` | internal/config/merge.go:93-117 | a leaf is merged as it is, and nothing where the document has nothing |
| `ConfigMerge.SourcePathIs` | internal/config/merge.go:268-276 | the dotted path an origin is looked up under is that of the source and of the keys below it, empty ones left out |
| `ConfigMerge.SplitPathIs` | internal/config/merge.go:242-247 | a dotted path is split into its keys again |
| `ConfigMerge.Tree.HoldsLastWrites` | internal/config/merge.go:143-239 | after any history the tree holds v with origin o at p exactly when the last write comparable with p wrote them there, and the recorded origins are exactly the leaves |
| `ConfigMerge.RootLeafIsNoHistory` | internal/config/merge.go:143-172 | why `MergeValue` tells a leaf at the root apart, which the program never merges (internal/config/effective.go:102-106, internal/config/document.go:104-110): the table it leaves is that of no history, whatever the tree |
| `ConfigLookup.LookupKeys` | internal/config/merge.go:44-66 | where only one node has the dotted path the search finds it, and it finds nothing where there is none |
| `ConfigLookup.ValueOfNode` | internal/config/merge.go:40-66 | the value of a path whose node alone has its dotted path is what the tree holds there |
| `ConfigLookup.ValueAt` | internal/config/merge.go:40-46 | the value read for a dotted path is what the tree holds there, however its keys are dotted |
| `EditDistance.Compute` | internal/config/schema.go:222-240 | the two rows of the loop come to the recursive Levenshtein distance of the whole strings |
| `EditDistance.EnoughEdits` | internal/config/schema.go:222-240 | as many single edits as the distance turn one string into the other |
| `EditDistance.NoFewerEdits` | internal/config/schema.go:222-240 | no fewer edits do |
| `EditDistance.ZeroForEqual` | internal/config/schema.go:222-240 | the distance is zero for equal strings only |
| `EditDistance.Symmetric` | internal/config/schema.go:222-240 | the distance is the same both ways |
| `EditDistance.Triangle` | internal/config/schema.go:222-240 | the distance obeys the triangle inequality |
| `EditDistance.Suggest` | internal/config/schema.go:195-212 | a name is suggested exactly when it is the nearest and no more than two edits away, in any case; and the known names when they are few |
| `PowerRun.NodeRunRow` | internal/cli/bmcpower.go:475-562 | each row of a node's run is the answer of its step settled after the row before, and there is a next one exactly when the node may be tried again |
| `PowerRun.ChainFollowsOrder` | internal/cli/bmcpower.go:493-506 | a node is tried over its transports in their order, no further than the order goes |
| `PowerRun.AtMostOneReached` | internal/cli/bmcpower.go:608-625 | whatever the world answers, if the failures before a request is written mean that nothing was delivered: of an action other than status, at most one request of a node, the last, is delivered to its processor |
| `PowerRun.NothingAfterRefusal` | internal/cli/bmcpower.go:608-625 | after another certificate than the one recorded, an interrupt or a usage error, nothing more is sent for the node |
| `PowerRun.EndsForAReason` | internal/cli/bmcpower.go:584-625 | a node's run ends in an answer, at the end of its order, at an interrupt, or at a failure that may not be tried again |
| `PowerRun.FallBackOnlyUnreached` | internal/cli/bmcpower.go:206-221 | under that assumption about the world, an action is tried again only where its request was not delivered |
| `PowerRun.RetriedAfterRedfish` | internal/cli/bmcpower.go:206-221 | after Redfish a node is tried again exactly when it has a next transport, no interrupt came, and the failure is no interrupt, no usage error and no other certificate, and for an action is a name that did not resolve, a connection nothing accepted, or a pin store that failed |
| `PowerRun.RetriedAfterIpmi` | internal/cli/bmcpower.go:608-625 | after IPMI no action is tried again; a state is exactly after a backend that could not be had, a failure told of the node's processor or of its account's run, or no answer for it |
| `PowerRun.RetriedAfterPanic` | internal/cli/bmcpower.go:526-534 | after a panic no action is tried again, and a state is |
| `PowerRun.RedfishRowIsTrue` | internal/cli/bmcpower.go:223-252 | over Redfish a node is said not to have been sent its request exactly when an interrupt came first, and to have no failure exactly when its processor answered |
| `PowerRun.RedfishStateIsTold` | internal/cli/bmcpower.go:223-252 | the state is what the processor answered or what was sent, and of an action cut short by an interrupt that its outcome is unknown |
| `PowerRun.IpmiRowIsTrue` | internal/cli/bmcpower.go:790-915 | over IPMI a node is said to have no failure only by what the backend told of its own processor, and not to have been sent its request exactly when its account's run was not started |
| `PowerRun.IpmiStateIsTold` | internal/cli/bmcpower.go:814-915 | of a node the backend answered for the state is the one it told, and of one it did not, that it is unknown |
| `PowerRun.FailureCarriesEarlier` | internal/cli/bmcpower.go:584-595 | a failure names the failure over the transport before and is otherwise the answer of its step |
| `PowerRun.SameOverBoth` | internal/cli/bmc.go:224-240 | the reset type of an action does over Redfish what the action does over IPMI, and reading the state and an unknown action have none |
| `BmcRuns.BmcRun.Settle` | internal/cli/bmcpower.go:584-595 | a failure carries the failure before it, and the node is tried again exactly when it has a next transport, no interrupt came, and the failure may be followed: for an action over Redfish alone, and before the request was written |
| `BmcRuns.BmcRun.Run` | internal/cli/bmcpower.go:475-562 | every node fares as it would alone, whoever shares its transport, account or processor, has one row in the order given, and the loop ends within the longest order |
| `BmcRuns.NoneReachedTwice` | internal/cli/bmcpower.go:475-562 | of the requests a run made for a node, other than to read its state, at most one was delivered |
| `PowerLoop.Send` | internal/cli/bmcpower.go:507-546 | the nodes of a step over one transport are answered once each, whether it answers, fails or panics |
| `PowerLoop.SendRedfish` | internal/cli/bmcpower.go:627-701 | over Redfish every node has one row, its own answer or why it was not asked |
| `PowerLoop.SendIpmi` | internal/cli/bmcpower.go:703-785 | over IPMI every node has one row, its account's run or why there was none |
| `PowerLoop.AccountRows` | internal/cli/bmcpower.go:813-890 | in the run of an account each node has one row, by its processor's status, whoever shares the processor |
| `IpmiAnswers.Match` | internal/ipmi/ipmi.go:403-427 | of the processors asked, the longest name the line begins with before a colon, and what it says after it |
| `IpmiAnswers.Collect` | internal/ipmi/ipmi.go:360-386 | one status for each processor, in the order asked, by the last line that speaks of it |
| `IpmiAnswers.AnsweredIs` | internal/ipmi/ipmi.go:428-440 | a text that is an answer is the state, and any other is the error, never an empty one |
| `BootLinks.LinkRecords` | internal/cli/boot.go:420-436 | the records are refused exactly when a field holds a NUL, and are written one after the other otherwise |
| `BootLinks.RecordsReadBack` | internal/cli/boot.go:370-418 | however much of the input arrives, a link script acts on the first so many records, each with its own fields, and on all when all arrives |
| `BootLinks.RunLinkScript` | internal/cli/boot.go:467-518 | each link has the outcome of the first line of the report that names it and is unknown without one, and there is an error exactly when one is not done |
| `BootLinks.ReportedIs` | internal/cli/boot.go:470-497 | a link is done or failed by the first line that speaks of it, unknown when there is none, and nothing else of it changes |
| `BootLinks.SaidIs` | internal/cli/boot.go:479-492 | a line speaks of a link exactly when it is `ok` and the link's number, or `fail`, the number and a message, with tabs between them |
| `BootLinks.ReportIsTrue` | internal/cli/boot.go:370-418 | of the script's own lines, in any order and any of them lost among other output, a link is reported as it is, and unknown only when its line is missing |
| `BootLinks.WriteBootLinks` | internal/cli/boot.go:438-448 | the links are written through one script, and untouched when a record is refused |
| `BootLinks.RemoveBootLinks` | internal/cli/boot.go:450-465 | both links of a node are removed through one script, and untouched when a record is refused |
| `BootLinks.RemovesWhatWasWritten` | internal/cli/boot.go:438-466 | a removal names the link that was written for the node, one-shot or persistent, and both records carry the node's place in the list |
| `BootLinks.OneLinkAnAddress` | internal/cli/boot.go:438-448 | two nodes have the same link only if they have the same address |
| `Reinstall.Plan.Run` | internal/cli/provision.go:1352-1430 | a run leaves its nodes as the specification of its steps leaves them, and says of them what that says |
| `Reinstall.Plan.Fail` | internal/cli/provision.go:1470-1533 | of the nodes given, the overrides and links that may be set are undone as far as that is confirmed, each by its own answer |
| `Reinstall.Plan.Settle` | internal/cli/provision.go:1454-1468 | the state of each node follows from what became of its changes |
| `Reinstall.Plan.ArmedAdvice` | internal/cli/provision.go:1535-1559 | the advice names the nodes left armed, and under each command those of them that may have the part it removes, in order, and no other node |
| `Reinstall.NamedIsArmed` | internal/cli/provision.go:1534-1562 | a name is under a command exactly when it is that of a node left armed that may have the part |
| `Reinstall.FailureIs` | internal/cli/provision.go:1516-1532 | a failure says of the nodes that are reinstalling and of those disarmed that they are, in order and of no others, and gives advice exactly when one is armed |
| `ReinstallSafety.NothingLostBeforeArmed` | internal/cli/provision.go:1352-1358 | no key is forgotten and no machine is reset unless the link and the override of every node are set, and truly are |
| `ReinstallSafety.CleanIsClean` | internal/cli/provision.go:1259-1270 | a node said to be unchanged or disarmed carries neither the link nor the override of the run, whatever was answered |
| `ReinstallSafety.ArmedIsReported` | internal/cli/provision.go:1470-1559 | a node that may still be armed and was not reset is said to be, with the command for each part that remains |
| `ReinstallSafety.DisarmedWhereConfirmed` | internal/cli/provision.go:1470-1533 | a failed run leaves a node it did not reset armed exactly when undoing one of its parts is not confirmed |
| `ReinstallSafety.ThroughIsAll` | internal/cli/provision.go:1400-1430 | a run without failure leaves every node reinstalling, or, told not to reset, every node armed |
| `ReinstallSafety.ReinstallingIsReset` | internal/cli/provision.go:1455-1460 | a node is said to be reinstalling exactly when its processor took the reset |
| `ReinstallSafety.StateIs` | internal/cli/provision.go:1455-1514 | a failed run says of a node, by what was answered: reinstalling when its reset was taken, unchanged when it may have neither part, disarmed when it may have had one and every such part is known to be undone, and armed otherwise |
| `ReinstallSafety.DoneWhenAsked` | internal/cli/provision.go:1353-1428 | keys are forgotten, machines reset, and a run goes through exactly when every step before was done for every node, and it was asked for |
| `ReinstallSafety.StageIsFirstFailed` | internal/cli/provision.go:1353-1428 | the step a run is said to have failed at is the first that did not succeed for every node |
| `ReinstallSafety.NothingChangedIsTrue` | internal/cli/provision.go:1510-1533 | a failure that says nothing was changed is right about every node and about the keys |
| `ReinstallSafety.ScriptIsTruthful` | internal/cli/boot.go:467-518 | what the report of the script that writes the links makes of them is true of them |
| `ReinstallSafety.RemovalIsTruthful` | internal/cli/boot.go:450-518 | what the report of the script that removes them makes of them is true of them |
| `ReinstallSafety.ScriptsAreTruthful` | internal/cli/boot.go:438-518 | of the links nothing else is assumed: where both scripts print their own lines, in any order and any of them lost, the answers the safety of a run rests on are right |
| `HostSlots.Names` | internal/fanout/hosts.go:41-47 | the hosts are taken in the order of their names, each once |
| `HostSlots.NeverOverLimit` | internal/fanout/hosts.go:32-69 | in every state of every run at most the limit of places of each host is held, and a caller that was refused or has given back holds none |
| `HostSlots.WaitingIsNotDeadlock` | internal/fanout/hosts.go:32-69 | while a caller waits, some caller can take a place or give one back |
| `HostSlots.NotDoneMoves` | internal/fanout/hosts.go:32-69 | while a caller is not done, some caller can move |
| `HostSlots.RunsAreFinite` | internal/fanout/hosts.go:32-69 | every run ends within the work its callers have |
| `GroupTable.KeptForGood` | internal/groups/groups.go:712-727 | a kept answer never changes, and nothing is kept of a search that failed |
| `GroupTable.Resolver.Enter` | internal/groups/groups.go:727-745 | a caller takes the kept answer, waits for the search under way, or searches |
| `GroupTable.Resolver.Leave` | internal/groups/groups.go:750-760 | the end of a search keeps what is known of the source and forgets a failure |
| `GroupLookups.OneSearchAtATime` | internal/groups/groups.go:704-768 | in every state of every run one search for a key is under way at most, none for a key that has an answer, and no host has more commands than its limit |
| `GroupLookups.KeptAnswerStays` | internal/groups/groups.go:712-720 | an answer that is kept stays, and its key is never searched for again |
| `GroupLookups.KeptBySearch` | internal/groups/groups.go:752-760 | an answer that is new was found out by its own key's search, and is no failure |
| `GroupLookups.NoDeadlock` | internal/groups/groups.go:309-367 | whatever a lookup waits for, some lookup can move: waiting leads from all the groups to one group to a list, to one that takes places on its hosts one after another in the order of their names, and to a command that runs |
| `GroupLookups.RunsAreFinite` | internal/groups/groups.go:727-768 | every run ends within the work its lookups have, so every waiter is answered |
| `CredentialTable.KeptForGood` | internal/credentials/credentials.go:93-100 | a kept outcome never changes, and a read that an interrupt stopped is not kept |
| `CredentialTable.Resolver.Enter` | internal/credentials/credentials.go:109-136 | a caller takes the kept outcome, waits for the read under way, or reads |
| `CredentialTable.Resolver.Leave` | internal/credentials/credentials.go:142-159 | the end of a read keeps a credential, and a failure that is the source's |
| `CredentialReads.OneReadAtATime` | internal/credentials/credentials.go:93-188 | in every state of every run a credential is read by one caller at most, by none once it has an outcome, and one read at most uses the terminal |
| `CredentialReads.KeptOutcomeStays` | internal/credentials/credentials.go:93-100 | an outcome that is kept stays, and its name is never read again |
| `CredentialReads.KeptByReading` | internal/credentials/credentials.go:142-159 | an outcome that is new is what its own reader read, and no interrupt |
| `CredentialReads.NoDeadlock` | internal/credentials/credentials.go:101-188 | some caller can always go on, the terminal and the waits for other readers included |
| `CredentialReads.RunsAreFinite` | internal/credentials/credentials.go:101-137 | every run ends, however often the reader a caller waits for is interrupted |
| `PlanStore.Store.Get` | internal/mcpserver/plan.go:165-176 | a plan is found exactly while it is stored and has not expired, and expired ones are dropped |
| `PlanStore.Store.Answered` | internal/mcpserver/plan.go:187-195 | an answer is good only for the question last put, and any answer forgets the question |
| `PlanStore.Store.Take` | internal/mcpserver/plan.go:197-208 | only one caller takes a plan |
| `PlanStore.Store.Add` | internal/mcpserver/plan.go:157-163 | a plan is stored under its name with its time to live, and expired ones are dropped |
| `PlanStore.Store.Prune` | internal/mcpserver/plan.go:210-217 | exactly the expired plans are dropped |
| `PlanProtocol.AppliedAtMostOnce` | internal/mcpserver/plan.go:197-208 | over all runs of calls, questions, answers and time, a plan is taken by one call only and carried out once at most |
| `PlanProtocol.AppliedAsConfirmed` | internal/mcpserver/plan.go:539-573 | where the administrator confirms, a plan is carried out only by a call whose own answer was a yes to the question then last put for it |
| `PlanProtocol.OneAnswerOneAttempt` | internal/mcpserver/plan.go:143-146 | no question confirms two attempts |
| `PlanProtocol.AppliedAsPlanned` | internal/mcpserver/plan.go:419-479 | what is carried out repeats the plan's hosts and count, after the configuration gave the plan's cluster and commands again, and was found unexpired |
| `PlanExpiry.ExpiresAfterAdded` | internal/mcpserver/plan.go:157-163 | in every state of every run a plan expires its time to live after the one time it was added, whatever happened since |
| `PlanExpiry.LateWhenClockPassed` | internal/mcpserver/plan.go:165-217 | of every plan that is carried out: it was found before it expired, and is carried out past its expiry exactly when the clock went past it after the call found it |
| `PlanExpiry.LateOnlyByThosePast` | internal/mcpserver/plan.go:165-217 | in every state of every run: a plan past its expiry can still be carried out exactly when some call has taken it, or no call has and one that found it in time repeats it and is confirmed, needs no confirmation, or carries the answer to a question that was or can still be put |
| `PlanExpiry.AppliedAfterExpiry` | internal/mcpserver/plan.go:419-508 | whatever the plan, its time to live and the time, there is a run that carries it out then, past its expiry |
| `PlanExpiry.ConfirmedAfterExpiry` | internal/mcpserver/plan.go:539-573 | and one in which the administrator confirms it after it expired |
| `DhcpTokens.Tokenize` | internal/dhcp/dhcp.go:150-226 | the scan gives the tokens of the specification, with their lines, and none when a string is not closed |
| `DhcpTokens.TokensOfBoth` | internal/dhcp/dhcp.go:150-226 | two texts, one below the other, have the tokens of both |
| `DhcpTokens.TokensShift` | internal/dhcp/dhcp.go:150-226 | a text further down has the same tokens, as many lines further down |
| `DhcpParser.Parser.ReadStatement` | internal/dhcp/dhcp.go:342-382 | a statement ends at its semicolon or at the brace that opens its block, record types apart |
| `DhcpParser.Parser.ReadHost` | internal/dhcp/dhcp.go:406-445 | a host declaration is read from its own statements up to its closing brace |
| `DhcpGrammar.DeclarationOnlyAdds` | internal/dhcp/dhcp.go:406-501 | however long a declaration goes on it only adds: the name and comments are those it began with, an address once given stays, no hardware address and no option is lost |
| `DhcpWriting.EachStatement` | internal/dhcp/dhcp.go:447-501 | what each kind of statement says, for all its arguments: hardware addresses in lower case, another kind of hardware as an option, addresses, the file name, the client identifier, and any other option by its name |
| `DhcpGrammar.RefusedWhen` | internal/dhcp/dhcp.go:447-501 | a statement of a declaration is refused exactly when it does not begin with a word, includes a file, or has not the arguments of its kind |
| `DhcpGrammar.NamedWhen` | internal/dhcp/dhcp.go:406-412 | a declaration names its host by one word or string that is not empty |
| `DhcpGrammar.HostRefuses` | internal/dhcp/dhcp.go:413-445 | a declaration that is not closed is refused, and so is one with a block, another declaration or a refused statement in it |
| `DhcpWriting.ListReads` | internal/dhcp/dhcp.go:543-557 | arguments are kept with their commas and a blank after each; their values are all but the commas |
| `DhcpWriting.QuotedReadsBack` | internal/dhcp/dhcp.go:177-202 | a quoted string is read up to the quote that closes it, as it was, whatever it holds |
| `DhcpWriting.DeclarationReadsBack` | internal/dhcp/dhcp.go:270-445 | a declaration written with its comments, hardware addresses, address, file name, client identifier and options is read back as that host |
| `DhcpWriting.ReadsBack` | internal/dhcp/dhcp.go:115-445 | any declarations with a blank line between them are read back as they were written, stably sorted by name |
| `DhcpNormal.ReadCanBeWritten` | internal/dhcp/dhcp.go:115-501 | every host that is read of any configuration can be written so |
| `DhcpNormal.NormalForm` | internal/dhcp/dhcp.go:115-501 | and written so, the hosts of any configuration are read as the same hosts in the same order |
| `DhcpParser.Parser.ReadBlock` | internal/dhcp/dhcp.go:270-340 | a block is read to its brace or the end of the file, with the comments directly above each declaration |
| `DhcpParser.Parser.Include` | internal/dhcp/dhcp.go:503-541 | a file is included by its absolute path once in its chain and no more than the limits allow, and shares the hosts and the count |
| `DhcpParser.Parser.Run` | internal/dhcp/dhcp.go:255-268 | the parser of a file ends on every graph of includes, by the files and the tokens left, and reads what the specification reads |
| `DhcpGrammar.ReadFile` | internal/dhcp/dhcp.go:503-541 | no file is read beyond the limit, and the count of files never goes back |
| `DhcpGrammar.IncludedWhen` | internal/dhcp/dhcp.go:503-541 | a file is included exactly when it is named in quotes by its absolute path, is not in its own chain, is one of no more than 256 files, no deeper than 64, and can be read; and then reading goes on from the hosts and files so far |
| `DhcpGrammar.NestedTooDeep` | internal/dhcp/dhcp.go:270-275 | a block deeper than 64 is refused, and no other for its depth |
| `DhcpGrammar.CommentAfterIsIgnored` | internal/dhcp/dhcp.go:285-296 | a comment after something on its line changes nothing |
| `DhcpGrammar.RecordOrBlock` | internal/dhcp/dhcp.go:356-404 | a brace after `=` holds a record type of words, strings and commas, which is part of its statement; anything else in it is refused, and any other brace opens a block |
| `DhcpGrammar.CommentInside` | internal/dhcp/dhcp.go:342-404 | a comment in a statement or a record type is passed over, and one that does not end is refused |
| `DhcpGrammar.BlockEnds` | internal/dhcp/dhcp.go:270-304 | a block ends after the brace that closes it and a file at its end; a block not closed is refused, and a brace that closes none |
| `DhcpGrammar.OtherStatements` | internal/dhcp/dhcp.go:306-338 | a statement that declares no host opens a block one deeper, includes a file or says nothing, and comments above it are not those of a later one; a declaration without a body is refused |
| `DhcpParser.ParseConfig` | internal/dhcp/dhcp.go:115-128 | the hosts of a configuration are stably sorted by name |
| `DhcpLocality.FileThen` | internal/dhcp/dhcp.go:270-340 | what a text declares is not changed by what follows it |
| `DhcpLocality.BlockFromBelow` | internal/dhcp/dhcp.go:270-340 | what a text declares is not changed by what comes before it, comments further than a line above included |
| `DhcpLocality.ReadOnItsOwn` | internal/dhcp/dhcp.go:115-340 | two texts that parse, a blank line between them, declare the hosts of the first and then of the second, stably sorted by name |
| `DhcpLocality.ParsedIsSorted` | internal/dhcp/dhcp.go:115-128 | the declarations read are in the order the binary search needs |
| `DhcpLookup.Named` | internal/dhcp/dhcp.go:603-633 | the four ranges of sorted names give exactly the ascending indices that match, each once, as reading every name does |
| `DhcpLookup.LowerBound` | internal/dhcp/dhcp.go:620-622 | the binary search finds where the names that do not come before the prefix begin |
| `DhcpLookup.PrefixBetween` | internal/dhcp/dhcp.go:603-606 | names with a prefix lie side by side |
| `DhcpLookup.MatchIsOfKind` | internal/dhcp/dhcp.go:653-666 | a name is a node's exactly when it is the node's own or continues it after one of the three separators; by name or after a dot, and as an interface after the two others |
| `DhcpLookup.KindsAreDisjoint` | internal/dhcp/dhcp.go:603-606 | no name is of two kinds |
| `GroupUnion.Balanced` | internal/groups/groups.go:390-406 | the count decides whether every bracket is closed and none closes before it opens |
| `GroupUnion.JoinGroups` | internal/groups/groups.go:333-367 | there is no expression exactly when a group with an operator or an open bracket cannot be referred to; and otherwise the one expression is the union of every group's own, wherever the groups are known |
| `GroupUnion.OperandMeans` | internal/groups/groups.go:369-388 | an operand has no operator but the union's and no open bracket, and stands for what the group's expression is on its own |
| `GroupUnion.RefReadsBack` | internal/groups/groups.go:369-388 | a reference that is not refused reads back as that group alone |
| `GroupUnion.UnionOfGroups` | internal/groups/groups.go:333-388 | the joined operands, evaluated from left to right, are the union of every group evaluated on its own |
| `GroupUnion.AllOfIs` | internal/groups/groups.go:333-367 | that union holds the nodes of every group, and has no answer when one group has none |
| `GroupUnion.OperatorsReachBack` | internal/groups/groups.go:369-377 | why a group with an operator is not joined as it is: the operator would take nodes of the groups before it |
| `GroupUnion.OperatorsMean` | internal/groups/groups.go:369-377 | what two terms come to by what is between them: a union, a difference, an intersection, the nodes of one alone, and a union again for white space |
| `GroupUnion.BracketsHold` | internal/groups/groups.go:369-388 | what is in brackets belongs to its term, whatever would separate terms elsewhere |
| `GroupUnion.TermIs` | internal/groups/groups.go:369-388 | a term is trimmed, and is a reference to a group of the source before its first colon, or of none, or a range of nodes |
| `GroupUnion.NamedIs` | internal/groups/groups.go:369-388 | a group can be referred to exactly when it has a name other than `*` and nothing in the reference ends it, groups it or would be trimmed off |
| `GroupUnion.UnicodeSpaceIs` | internal/groups/groups.go:369-388 | the white space trimmed is that of Unicode, by its code points |
| `ShellWords.WriteQuoted` | internal/shellquote/shellquote.go:35-55 | a word is left as it is exactly when it is not empty and has only letters, digits and the ten safe signs, and is written in single quotes otherwise, each single quote in it outside them |
| `ShellWords.QuoteReadsBack` | internal/cli/provision.go:738-742 | every string, quoted, is read back as it was |
| `ShellWords.ShellLiteral` | internal/cli/provision.go:738-787 | the walk over the text decodes what the specification decodes and refuses what it refuses |
| `ShellWords.ReadsPieces` | internal/cli/provision.go:738-787 | any quoted runs, escapes and plain characters in a row, and a blank and a comment after them, are read as what they mean together |
| `ShellWords.ReadIsPieces` | internal/cli/provision.go:738-787 | and nothing else is read |
| `ShellWords.OpenQuoteRefused` | internal/cli/provision.go:752-758 | a word cut short within its last quotes is refused |
| `ShellWords.PlainIs` | internal/cli/provision.go:738-787 | a character stands for itself outside quotes exactly when it is no control character, no blank and none a shell gives a meaning there |
| `CincFile.Parse` | internal/cli/provision.go:694-723 | the loop over the lines reads what the specification reads |
| `CincFile.ReadsBack` | internal/cli/provision.go:645-723 | a configuration is read back as it was written exactly when neither value holds the end of a line |
| `CincFile.CheckedReadsBack` | internal/cli/provision.go:655-692 | every configuration that passes the checks is read back as it was written |
| `CincFile.RenderIs` | internal/cli/provision.go:645-653 | what the file holds: the two names, each with its quoted value, the run list only when there is one |
| `CincFile.LaterStands` | internal/cli/provision.go:694-723 | an assignment, exported or not, stands until a later one of its name, and other names are read over |
| `CincFile.NothingSaid` | internal/cli/provision.go:696-699 | a blank line and a comment say nothing |
| `CincFile.NameIs` | internal/cli/provision.go:725-736 | a name is letters, digits and underscores, no digit first |
| `CincFile.NoAssignmentRefused` | internal/cli/provision.go:700-703 | a line that is neither and assigns to no name has the file refused |
| `Machines.OneAliasMore` | internal/app/machine.go:101-114 | one more name of a machine changes what the names before it came to as the table is changed: an inventory name is never taken over, another machine's alias comes to name neither, and no other alias changes |
| `Machines.Index.AliasOf` | internal/app/machine.go:66-99 | the table built in the inventory's order holds an inventory name as its own machine, nothing for an alias none has, and a machine for an alias exactly when that machine alone has it |
| `Machines.HasIs` | internal/app/machine.go:66-114 | a machine has, in any case and with or without a final dot, its address, its processor's address and the names the rules give it, those that are not empty and no machine's own name |
| `Machines.NormIs` | internal/app/machine.go:101-105 | names are compared in lower case and without one final dot |
| `Machines.OwnerIs` | internal/app/machine.go:66-114 | an alias is a machine's exactly when that machine alone has it |
| `Machines.OrderDoesNotMatter` | internal/app/machine.go:66-99 | two inventories of the same machines, in any order, have the same aliases |
| `Machines.OnlyWhenAlone` | internal/app/machine.go:116-164 | a name that is no machine's own is a machine exactly when it could be that one alone, by spelling, host name, processor name or address |
| `Machines.SpellingIs` | internal/app/machine.go:166-183 | another padding of a name is that name, a name the rules have for the node its first part names is that node, and any other name, and any address, is itself |
| `Machines.ResolvedForGood` | internal/app/machine.go:116-183 | the answer to a name resolves to itself exactly when the name has no doubled final dot, or one machine alone has it, or none has and it is another spelling or a name the rules give |
| `Machines.AnswerIsFixed` | internal/app/machine.go:134-183 | every answer but the name as it was written is in the form the inventory writes |
| `Machines.DoubledDotResolvesTwice` | internal/app/machine.go:134-164 | a name with a doubled final dot is resolved twice |
| `Sorting.SortStable` | internal/dhcp/dhcp.go:126 | stable sorting keeps the order of what ties and loses nothing |
| `Sorting.StableIsUnique` | internal/dhcp/dhcp.go:126 | there is one stable way to sort |
| `Sorting.StrLessIs` | internal/dhcp/dhcp.go:126 | names are in byte order: one is before another where they first differ, or where it ends |
| `Text.LowerIs` | internal/hostkeys/hostkeys.go:97-114 | lower case is letter for letter, and nothing else changes |
| `Text.TrimSpaceWithin` | internal/hostkeys/hostkeys.go:205-207 | trimming takes white space off both ends and nothing else |

## Left out

- Talking to hosts and processors: ssh and scp, Redfish, IPMI and DNS traffic, sops and age, file locks and atomic writes. Each is an answer, taken as any answer.
- The clock and the random states of questions: time only goes on, and a state is fresh. Without fresh states an old answer could carry the state of a new question.
- go-nodeset, go-clikit, cobra, the MCP library and the JSON schema validator are not part of this model. The padding of node names, the value of a single term and the schema's verdict are arguments.
- Texts of errors, tables, spans, help and completion. An error is modelled where it decides what happens next.
- Characters: a string is a sequence of characters and not of bytes, lower case and white space are those of ASCII, except where `GroupUnion` reads a term, which trims all of Unicode's.
- Whether a hashed pattern is a host's: the HMAC is an argument of everything that matches.
- The two scripts run on the PXE host: what they print is modelled, what they do to its file system is not.
- Panics: a panic of a transport is modelled as its nodes' failure; a lookup or a read that panics is not modelled.
- Dividing an IPMI fan-out among accounts, and the batches and staggering of a power action.
- Prefetching included files and credentials, the disk cache of group answers, and the configuration cache.
- ConfigMerge.Tree.SetIn: the nested sections are values that are rebuilt along the path, so sections shared by reference with a document are not modelled.
- ConfigMerge.Tree.MergeValue: key paths that differ and have the same dotted path are excluded, because the table of origins is kept by the dotted path and cannot tell them apart.
- PlanProtocol.AppliedAsConfirmed: whether an accepted answer satisfies the gate's question, such as the count typed back, is part of the answer.
- PowerRun.AtMostOneReached: that nothing was delivered after a name that did not resolve, a connection nothing accepted, another certificate or a pin store that failed is assumed, as the program assumes it (internal/cli/bmcpower.go:206-213); what else was delivered is left open.
- RepeatedHosts.AtOnceIsOneByOne: of hosts given again, keys that name another host of the list are excluded, and everywhere keys filed under another host than their own; of hosts each given once `NamingOthers.HostsGivenOnce` has the first exactly.
- RepeatedHosts.SameForEveryFile: for host names that are no patterns, since no line can name a host whose name is one.
- DhcpLocality.ReadOnItsOwn: stated for texts without includes, because the limit on files is shared by both texts.
- Mentions, boot addresses and boot GUIDs of dhcp declarations, which are read off the declarations found.
