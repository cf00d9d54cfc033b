# The convergence engine of vpnctl

`vpnctl` drives a VPN server towards a desired state: the users, the enabled protocols and the
keyring. It observes that server only partly, every step can fail, and some steps change the
server and then report a failure. This project models that engine in Dafny and proves what its
safety arguments claim, over every run and every failure.

## How it is put together

The world is kept as plain values and small classes whose fields change step by step, the way
the program changes them:

* `Containers`, `Compose`: per service a container with an id, running or stopped, the mounts of
  its last start, the environment of its creation and a writable layer. `up -d` creates what is
  missing, starts what is stopped with its id and layer, and may replace anything. A restart
  re-reads the mounts only. The dnstt sshd only ever adds accounts. The host stops, starts and
  removes containers between any two commands.
* `Rendering`, `RenderInputs`, `TreeDiff`, `Generations`: what is printed from keyring and users,
  what that depends on, which services a difference of two trees concerns, and the generations on
  disk with the link that says which one is live.
* `Convergence`: the mark `converge_pending` as a state machine. Its steps are relations between
  machines, and its theorems range over every run of them.
* `Certificates`, `Reconcile`, `Ikev2Container`: certificates that are valid, revoked but reserved,
  or absent, the durable revocation queue, and names used by one person after another. A user
  record carries a `holder`, a certificate the holder it was issued to; the program stores neither.
* `Revocation`: who can log in, read off the containers the way sing-box, the sshd and the ikev2
  image read their files.
* `Bootstrap`: the keyring, a secret being known by the minting it came out of.
* `Pool`, `Firewall`, `Forwarding`, `Readiness`: the client network, the shared ufw rules, the shared
  FORWARD chain and the wait for ports.
* `Cli`, `Commands`: `apply` and the commands as methods on one `Server`. Each may stop at any
  failure and between any two steps. Their contracts say which step of the state machines above
  they are, so the run theorems speak about them; `Commands.RunSession` executes any list of
  commands. The default route and what the ikev2 container says about its pool are fields of
  `Cli.Surroundings`; docker, ufw and the ikev2 tool keep a log of what they were told and whether
  it worked.
* `Locking`: several commands at once, down to inodes, since all writers of a file share one
  temporary name.

Randomness, keys and certificates are numbers: two secrets agree when one minting made them.
What a command, the host or an outside program decides is a nondeterministic choice, so every
result holds for all of them. Where a result begins with "when every step works", the constants
`obliging` of the disk, the files, the keyring, the container runtime, the ikev2 tool, ufw,
iptables and the ports, `routed` for a default route that is always there, `undisturbed` for a
command nothing cuts off, and `calm` for a host that does nothing by itself, say that the choices
go that way; what such an apply comes to is then proved, not read off its own report (`Cli.Apply`,
`Commands.Recover`, `Ikev2Container.ReconcileTwice`).

## What turned out to be false, and when it holds

* An interruption exactly between the swap of the link and the saving of the mark can leave the
  mark clear over stale containers: `Convergence.TornIsSafeIff` says when it cannot, and
  `Convergence.FirstTornIsSafeIff` does so for the first promotion of all. Everywhere else the two
  are one step.
* A reconciliation that is cut short can leave a valid certificate that no record accounts for:
  `Reconcile.InterruptedIsAccountedIff` and `Reconcile.BetweenSavesIsAccountedIff` for the windows
  before and between its two saves, and `Reconcile.EveryInterruptionIsAccountedIff` for what can be
  checked before it is run.
* A forced bootstrap that is cut off can mix two mintings: `Bootstrap.ForcedCutIff` for one cut, and
  `Bootstrap.EveryForcedCutIff` for what can be checked before it is run.
* The firewall reconciliation can lose a rule added by hand, which the module comment of firewall.py
  (lines 3-4) rules out: a tag on a narrow rule makes the removal take a foreign blanket rule of the
  same port along (`Firewall.NarrowTagLosesForeignRule`), and while the status cannot be read a
  foreign rule is taken over (`Firewall.UnreadStatusLosesForeignRule`). `Firewall.EveryRunSparesIff`
  is the exact condition, over all runs, cut short or not. It also need not open what is wanted,
  remove what is not, or come to rest (`Firewall.NarrowTagNeverSettles`); `Firewall.SettledIff` and
  `Firewall.RerunIsIdleIff` are exact. Rules as the program writes them meet all of these while the
  status can be read (`Firewall.BlanketTagsAreSafe`, `Firewall.BlanketTagsStay`).
* An L2TP password that ends in a line break passes the check on whitespace and is a single word,
  yet spoils the env file: `Rendering.Ikev2EnvCanBreak`, with `Rendering.Ikev2EnvReadsBack` as the
  exact condition. The one trailing newline the name pattern accepts does the same to the login
  file: `Rendering.DnsttLoginsCanBreak`, with `Rendering.DnsttLoginsReadBack` as the exact condition.
* A command that goes on although its lock file does not open can undo the save of one that holds
  the lock: `Locking.NothingIsLostIff`.

## Model

| member | source | states |
|---|---|---|
| `Convergence.MarkSoundness` | vpnctl/cli.py:254-297 | at every point of every run of applies (each failing, cut short or finished) and host stops, starts and removals, while the mark is clear every existing container, running or stopped, of every service the live tree feeds holds what a newly created one would read |
| `Convergence.StepKeepsMark` | vpnctl/cli.py:265-297 | each single step keeps that: an idle or early-ended command, a promotion left unconverged, a finished apply with its ports up or not |
| `Convergence.FinishedIsCurrent` | vpnctl/composectl.py:222-246 | a finished apply leaves every container of a fed service current, from a diff when the mark was clear and from no diff when it was set |
| `Convergence.SecondApplyIsIdle` | vpnctl/composectl.py:96-123 | after an apply that cleared the mark, a finished apply of the same tree works from the empty diff and plans no nudge, whatever the two id listings said |
| `Convergence.TornIsSafeIff` | vpnctl/cli.py:268-284 | with the mark clear, an interruption exactly between the swap and the saving of the mark is safe for every sound machine iff the promotion changed no input of a service it feeds |
| `Convergence.FirstTornIsSafeIff` | vpnctl/cli.py:254-284 | the same at the first promotion of all, when nothing was live: safe for every sound machine iff the tree feeds no service |
| `Convergence.RenderedFeedsServices` | vpnctl/composectl.py:137-148 | a rendered tree feeds only services that have to be up |
| `Cli.Apply` | vpnctl/cli.py:202-415 | whatever fails or is cut off: the machine moves by an idle step, or an idle step and then an unconverged promotion or a finished converge of exactly the tree the desired state asks for, which sing-box accepted; the mark stays sound and the live tree safe; certificates change only as a reconciliation may, and every one it reports was asked for; what it makes of firewall and FORWARD chain is as specified, the pair being for the default route and the clients' network; the commands it gives docker are one `up`, the nudges that are due and no other, and the removal of what is off; a finished apply tells the truth about ports, firewall, forwarding and certificates, and each of its steps went as well as the part of the host it asks let it, whatever became of the others; one that stopped, or was not to restart, touched neither containers nor rules; an unchanged tree under a clear mark nudges nothing; and when every step works it does finish, with no failure to report |
| `Commands.Recover` | vpnctl/cli.py:202-415 | from any sound server, however stale, stopped or missing its containers: when every step works and the desired state can be rendered, one apply ends with every port up, every expected service running, and current if the tree feeds it or the mark was set, what is off stopped, the mark clear, the pair in the FORWARD chain named for the clients' network, and, with ikev2 on, each enabled user, and nobody else, holding a certificate of their own |
| `Cli.WriteDesired` | vpnctl/cli.py:227-241 | gets to a candidate only when nothing enabled lacks a secret, and always when the files can be read and written and the desired state renders; it then holds exactly the tree of the stored users, protocols and keyring, under a name the live link does not have |
| `Cli.PromoteCandidate` | vpnctl/cli.py:242-293 | either the candidate, accepted by sing-box, is live and the mark is set, or the link, the live files and state.json are what they were; the previous tree and the inherited mark are those read before the swap |
| `Cli.BringUp` | vpnctl/cli.py:323-346 | expected services end converged on the tree, teardown of disabled ones does not disturb them, and a teardown that worked leaves none of those running; all docker was told is one `up`, one nudge in order for each service of the diff that is by the two listings the container it was, none after the first that failed, and one removal of services that are off |
| `Cli.WaitAndOpen` | vpnctl/cli.py:350-384 | ready iff every wanted port was observed bound since the wait began, and not ready only after four minutes; the firewall is reconciled, and the services that do not run are named, whatever that said |
| `Cli.SettleIkev2` | vpnctl/cli.py:386-391 | reconciles the certificates iff ikev2 is enabled and its container runs, asking for every one it reports, and without failures when container and files do what they are asked; the FORWARD rules follow whatever came of that, for the default route and the clients' network, also when a file was lost; a kill ends it, and an interrupt still passes the forwarding step |
| `Cli.SettleHost` | vpnctl/cli.py:350-391 | the verdict it returns is true of the host, and each part of it is as good as the part of the host behind it lets it be, whatever the others came to; a kill, or a file the reconciliation could not read or write, leaves it unfinished, and nothing else does |
| `Cli.Converge` | vpnctl/cli.py:316-391 | only `up`, a file that cannot be read or written, and a kill end a converge early; even then the FORWARD rules are seen to, a kill apart; when it finishes each step went as well as the part of the host it asks let it |
| `Cli.Forward` | vpnctl/cli.py:418-455 | the FORWARD chain gets the pair or loses it as ikev2 is on or off; whenever it succeeds or changes anything, the interface is that of the default route, and the network the smallest block holding the first IPv4 range of the first pool line of the running container, else its VPN_XAUTH_NET, else 192.168.43.0/24; it succeeds whenever iptables works, there is a route and the container is not needed or runs, and leaves the chain alone when there is no route or a needed container is down; all other rules stay in order |
| `Cli.WriteDown` | vpnctl/cli.py:393-404 | records what was applied, clears the mark only when every port came up, and loses neither the queue nor the enabled set |
| `Cli.AfterPromotion` | vpnctl/cli.py:295-415 | from the promotion on the mark is set, and only a finished converge with every port bound clears it; without restart it stays set |
| `Commands.RunSession` | vpnctl/cli.py:585-801 | over any sequence of apply, user, protocol and bootstrap commands, each failing anywhere, with the host stopping, starting and removing containers, the ikev2 one included, and losing certificates in between: the mark stays sound, the live tree safe, and every valid certificate accounted for unless a reconciliation was itself cut short, and even then if each command found every name that could be issued for marked and asked for no other |
| `Commands.Serve` | vpnctl/cli.py:585-801 | each single command keeps the same; one that asks for no new certificate keeps every certificate accounted for whatever is cut short, if all names were marked |
| `Commands.UserAdd` | vpnctl/cli.py:746-759 | refuses unusable, reserved and taken names; otherwise the database is the old one and the new record, the certificates are what a reconciliation of that database makes of them and stay accounted for under a reused name, and the command finishes when everything works |
| `Commands.UserRm` | vpnctl/cli.py:762-778 | the record is gone, and the revocation of its certificate queued before that, whenever the command got that far; if its apply cleared the mark, no container of an enabled protocol honours that name any more; if its reconciliation reported no failure, every valid certificate is an enabled user's own; when everything works, the name is found and what remains can be served, the command finishes; a name that is not found changes nothing |
| `Commands.UserSetEnabled` | vpnctl/cli.py:781-801 | the same for `user disable`; enabling queues no revocation; either changes no other record, and finishes when everything works |
| `Commands.Locate` | vpnctl/cli.py:764-774 | a removal or disabling goes on only after the revocation of a provisioned certificate is on disk; an enabling queues nothing |
| `Commands.QueueRevocation` | vpnctl/cli.py:769-774 | adds the name of a provisioned record to the queue unless it is there, and keeps everything else in it; keeps the mark, the enabled set and the records |
| `Commands.ApplyFor` | vpnctl/cli.py:775-778 | what any apply after a change of the records means for a name that is no longer enabled |
| `Commands.ClearedLocksOut` | vpnctl/cli.py:401-403 | a clear mark locks every name that is not enabled out of sing-box, the sshd and ikev2, unless it is that of the ikev2 image's own account |
| `Commands.ClearedMeansRevoked` | vpnctl/cli.py:401-403 | a clear mark means the enabled protocols honour the enabled users' credentials and, besides the ikev2 image's own account, no others |
| `Commands.CleanReconcileCertifies` | vpnctl/cli.py:523-566 | after a reconciliation without failures every certificate that opens the door was issued to the enabled user now holding its name |
| `Commands.MarkedKeepsIdentity` | vpnctl/cli.py:495-573 | an apply keeps every certificate accounted for, its reconciliation cut short or not, when every name it might issue for was marked as provisioned beforehand |
| `Commands.ApplyTwice` | vpnctl/composectl.py:99-103 | two applies of one desired state: if the first cleared the mark the second sees the empty diff and nudges nothing, although the reconciliation rewrote the user records in between |
| `Commands.Toggle` | vpnctl/cli.py:694-733 | exactly the named protocol is switched; it is switched on only when its deployment configuration is there and, for dnstt, its private key, and one whose keys cannot be made is taken back; records, queue and mark are untouched |
| `Commands.SetProtocol` | vpnctl/cli.py:694-735 | the enabled set afterwards is the old one with the one name switched, or the old one when the switch was refused; the records differ in provisioning flags only, the keyring at most in a dnstt key that was missing, and the command finishes when everything works |
| `Commands.PrepareSecrets` | vpnctl/cli.py:671-691 | only dnstt needs it, only when its private half is missing, and success means the half is there; a half that is there, and every other secret, is left alone |
| `Commands.RunBootstrap` | vpnctl/cli.py:585-608 | new credentials are promoted without converging, so the mark is left set for the next apply; a rebuilt half changes no tree; a half-present set is refused by name; one that completes leaves vless, hysteria2 and ikev2 lacking no secret |
| `Compose.UpServices` | vpnctl/composectl.py:180-246 | issues one listing, one `up` of every expected service, one listing, and then the nudges in order of name, ending with the first command that fails; a service is nudged iff it is in the diff, expected and by the two listings the same container, or a listing is missing; success means every container is a carried-over or current one and every service of the diff got what its change demands |
| `Compose.PlanIsMinimal` | vpnctl/composectl.py:226-240 | in terms of the two listings alone: planned iff in the diff, expected, and listed before and after under one id, running or stopped, or either listing is missing |
| `Compose.Nudge` | vpnctl/composectl.py:235-240 | a recreation lands the service on the tree; a restart re-reads its mounts only; no other container is touched |
| `Compose.DownDisabled` | vpnctl/composectl.py:249-268 | touches only running services of disabled protocols and leaves stopped ones behind, fails when the listing fails, and success leaves none of them running |
| `Compose.NotRunning` | vpnctl/composectl.py:151-177 | exactly the expected services that do not run, or no answer when the listing failed |
| `TreeDiff.ChangedServices` | vpnctl/composectl.py:96-123 | meets the order-free specification for every iteration order of the paths: no answer iff there is no previous tree or some differing path has no consumer, otherwise exactly the consumers of differing paths, recreated iff some differing path demands it |
| `TreeDiff.DiffUnique` | vpnctl/composectl.py:96-123 | the specification leaves one answer |
| `TreeDiff.AbsentMeansIdentical` | vpnctl/composectl.py:96-123 | a service the diff leaves out has byte-identical inputs in both trees |
| `TreeDiff.TreeIsCovered` | vpnctl/composectl.py:55-69 | every path a tree can hold has a consumer, and that consumer will be up |
| `Containers.TableMatchesDelivery` | compose.yml:61-182 | the hand-written consumer table names the service compose.yml delivers each path to, and asks for recreation exactly for env files and for the service that accumulates |
| `Containers.RestartIsEnough` | vpnctl/composectl.py:35-46 | for a service without env file or state a restart is as good as a new container |
| `Containers.SameInputsSameCurrent` | vpnctl/composectl.py:99-103 | byte-identical inputs are the same thing to be current with |
| `Containers.HostActsAreDrift` | vpnctl/composectl.py:298-305 | every sequence of host acts carries each surviving container over: same id and environment, mounts and accounts as before or after one more start |
| `Generations.RenderStore.WriteCandidate` | vpnctl/render.py:68-100 | a whole new generation under a name nothing had, or a nameless part of one; the live tree is untouched at every write |
| `Generations.RenderStore.Promote` | vpnctl/render.py:103-113 | the link moves or does not; a written and accepted candidate is then the live tree |
| `Generations.RenderStore.Prune` | vpnctl/render.py:116-134 | never harms the live generation; success leaves exactly the names with fewer than `keep` greater ones, and the live one, and says what went |
| `Generations.LaterIsGreater` | vpnctl/render.py:79-123 | of two generations with the same prefix the one whose stamp is later, or longer from the same beginning, has the greater name, so the greatest are the latest |
| `Generations.RenderStore.PruneGenerations` | vpnctl/cli.py:406-415 | the tidying at the end of an apply |
| `Rendering.BuildTree` | vpnctl/render.py:26-46 | the tree of the desired state, or the first reason there is none |
| `Rendering.MergeContents` | vpnctl/render.py:37-45 | everything in the tree came from the tracked files or from one protocol, and nothing any of them printed was overwritten |
| `RenderInputs.TreeHolds` | vpnctl/render.py:26-46 | each file of the tree by its path: which secret is in which, the certificate apart from its key, the logins, the variables of the env files, the tracked files with their text |
| `RenderInputs.RendersIff` | vpnctl/render.py:26-46 | a desired state renders iff no port is claimed twice, each enabled protocol has its secrets and only users its files can carry, dnstt at least one, and no printed file has the name of a tracked one |
| `Rendering.Ikev2ListsAligned` | vpnctl/protocols/ikev2.py:53-91 | the two lists have one entry per enabled user, the i-th ones being the i-th user's name and trimmed password |
| `Rendering.Ikev2EnvReadsBack` | vpnctl/protocols/ikev2.py:85-92 | the env file reads back as the printed variables iff no value spans a line |
| `Rendering.Ikev2EnvCanBreak` | vpnctl/protocols/ikev2.py:68-75 | an accepted password that ends in a line break: the lists align, the file does not read back |
| `Rendering.DnsttLoginsReadBack` | vpnctl/protocols/dnstt.py:115-151 | reading the login file line by line and cutting at the first colon gives exactly the issued logins iff no issued name carries a trailing newline |
| `Rendering.DnsttLoginsCanBreak` | vpnctl/users_store.py:138-144 | every plain name with a line break after it is accepted and printed, and the login file then does not read back |
| `Rendering.VlessLogins` | vpnctl/protocols/vless_reality.py:32-36 | every login printed is an enabled user's |
| `Rendering.Hysteria2Logins` | vpnctl/protocols/hysteria2.py:51-55 | every login printed is an enabled user's |
| `Rendering.EveryEnabledIsPrinted` | vpnctl/protocols/hysteria2.py:51-55 | every enabled user is in the logins of vless and of hysteria2 |
| `RenderInputs.FlagsDoNotChangeTheTree` | vpnctl/cli.py:571-573 | rewriting provisioning flags changes no rendered tree |
| `RenderInputs.RenderReadsItsSecrets` | vpnctl/protocols/__init__.py:116 | a protocol renders the same from keyrings that agree on the secrets it declares |
| `RenderInputs.RebuildingChangesNoTree` | vpnctl/bootstrap.py:160-170 | an unforced bootstrap that minted nothing leaves every tree what it was |
| `RenderInputs.MissingSecrets` | vpnctl/bootstrap.py:173-181 | empty iff nothing enabled lacks a secret; otherwise it has an entry for each protocol that does, listing exactly what is lacking |
| `RenderInputs.NoGapsNoMissingSecret` | vpnctl/cli.py:231-237 | when it is empty no rendering fails for want of a secret |
| `RenderInputs.RenderedLacksNothing` | vpnctl/cli.py:231-240 | what renders lacks no secret, so the check beforehand refuses nothing that would have rendered |
| `RenderInputs.BootstrappedLacksNothing` | vpnctl/bootstrap.py:96-125 | after a completed bootstrap, forced or not, vless, hysteria2 and ikev2 lack no secret |
| `Revocation.RevokedEverywhere` | vpnctl/protocols/dnstt.py:98-115 | containers current with a tree let in, per service, exactly the enabled users with exactly their credentials, and the ikev2 image's own account |
| `Revocation.AccountsAreEnabled` | dnstt-sshd/entrypoint.sh:42-49 | a current sshd has the accounts of the enabled users with a dnstt password, and only those |
| `Revocation.ListsAreEnabled` | vpnctl/protocols/ikev2.py:31-92 | a current ikev2 container honours exactly the enabled users with their passwords, and its own primary account |
| `Revocation.InboundsAreEnabled` | vpnctl/protocols/vless_reality.py:32-36 | a current sing-box honours exactly the enabled users, with the credential of each enabled sing-box protocol |
| `Revocation.LettingInIsFed` | vpnctl/composectl.py:55-69 | every service that lets users in is one the tree feeds, so the mark speaks of it |
| `Reconcile.CertificateIdentity` | vpnctl/cli.py:468-493 | over every run of adding, removing, enabling, disabling, losing certificates and reconciling with any failures: each valid certificate has its name queued or belongs to the current, provisioned record of that name, so a reused name never inherits a key |
| `Reconcile.StepKeepsIdentity` | vpnctl/cli.py:746-801 | each single step keeps that |
| `Reconcile.ReconcileKeepsIdentity` | vpnctl/cli.py:523-573 | a reconciliation keeps that whichever of its operations fail |
| `Reconcile.RemoveKeepsIdentity` | vpnctl/cli.py:767-775 | removing a record keeps it because the intent was queued first |
| `Reconcile.ReconcileIsCorrect` | vpnctl/cli.py:513-573 | a run that reports no failure, as every run does whose operations work, leaves valid certificates equal to the enabled users, each issued to its present holder, an empty queue, and flags equal to membership |
| `Reconcile.SecondReconcileIsIdle` | vpnctl/cli.py:513-573 | a reconciliation after one without failures has nothing to do |
| `Reconcile.QueueExit` | vpnctl/cli.py:490-493 | a name leaves the queue only by its own removal or because the container listed nothing for it, and a certificate valid under it afterwards is a new one |
| `Reconcile.InterruptedIsAccountedIff` | vpnctl/cli.py:544-569 | cut short before either save, certificates are still accounted for iff each one issued went to an already provisioned user or a queued name |
| `Reconcile.BetweenSavesIsAccountedIff` | vpnctl/cli.py:568-573 | cut short between the two saves, iff each one issued went to an already provisioned user or to a queued name whose withdrawal failed |
| `Reconcile.EveryInterruptionIsAccountedIff` | vpnctl/cli.py:495-573 | before the run: every interruption between any two of its operations and saves leaves every certificate accounted for iff all wanted names that are queued or have no valid certificate are marked as provisioned already |
| `Ikev2Container.ReconcileIkev2` | vpnctl/cli.py:458-579 | skipping writes nothing; a complete run moves the ledger as specified, a write that fails leaves the specified intermediate; whatever failed before, every name it reports was asked for, and failed only if the container said no; state.json keeps all but its queue; with nothing to do only the listing is issued; when the container is up and does what it is asked, the run is complete and reports no failure |
| `Ikev2Container.ReconcileTwice` | vpnctl/cli.py:458-579 | when everything asked for works: valid certificates are exactly the enabled users' own, the queue is empty, the flags equal membership, and a second run has an empty report |
| `Ikev2Container.ReconcileAgain` | vpnctl/cli.py:513-566 | after a run without failures another one issues the listing and no other operation |
| `Ikev2Container.Withdraw` | vpnctl/cli.py:523-542 | every listed doomed name is withdrawn or reported, no other name is touched, and nothing is reported when the container does what it can; whatever failed before, each one valid in the listing was asked to be revoked and each reserved one deleted, and a reported one is one the container refused |
| `Ikev2Container.WithdrawOne` | vpnctl/cli.py:525-542 | one name: a valid certificate is revoked and then deleted, a reserved one deleted, and nothing else is asked of the container |
| `Ikev2Container.IssueOne` | vpnctl/cli.py:545-563 | a name the listing shows as reserved is deleted first and added after; a taken name that was not so listed gets nothing; it succeeds whenever the container does what it can and the listing was right |
| `Ikev2Container.Issue` | vpnctl/cli.py:544-566 | every wanted name without a valid certificate gets one of its own or is reported; a taken name gets one only if it was listed as reserved; whatever failed before, each one was asked for, a reserved one deleted first, and a reported one is one the container refused; nothing is reported when the container does what it can |
| `Ikev2Container.Ikev2.RemoveClient` | vpnctl/ikev2ctl.py:303-321 | revokes before it deletes, so no accepted certificate ever drops out of the listing |
| `Ikev2Container.Ikev2.DeleteClient` | vpnctl/ikev2ctl.py:288-300 | on its own it withdraws nothing: a valid certificate goes on being accepted unlisted |
| `Ikev2Container.Ikev2.AddClient` | vpnctl/ikev2ctl.py:284-285 | fails for a taken name, even a revoked one, and then issues nothing |
| `Certificates.ParseClients` | vpnctl/ikev2ctl.py:328-356 | the names of rows with status valid and revoked; short rows, the header and unknown statuses are ignored |
| `Certificates.ListingParses` | vpnctl/ikev2ctl.py:345-356 | from any listing of a certificate set, exactly its valid and its revoked names come back, except the name the header uses |
| `Pool.Cover` | vpnctl/ikev2ctl.py:82-85 | supernets of the first summarised block end in the smallest block holding the range |
| `Pool.SmallestIsUnique` | vpnctl/ikev2ctl.py:51 | there is one smallest block |
| `Pool.CidrEntryIsItself` | vpnctl/ikev2ctl.py:70-74 | an entry written as one network, with whitespace around it or not, is that network's own addresses, and its smallest block that network; none for IPv6 or what does not parse |
| `Pool.EntryReads` | vpnctl/ikev2ctl.py:67-81 | any entry that is not all blank, by position: from the first piece between dashes that is not blank to the last, or, when that is one piece with a slash, as a network; none for IPv6, what does not parse, or out of order |
| `Pool.RangeEntryReads` | vpnctl/ikev2ctl.py:67-81 | an entry `first-last`, with whitespace wherever it is allowed, runs from the one address to the other; it names none when they are out of order or either is no IPv4 address |
| `Pool.AddressEntryReads` | vpnctl/ikev2ctl.py:75-81 | one address alone is a range of one |
| `Pool.BlankEntryReads` | vpnctl/ikev2ctl.py:67-69 | an entry of nothing but blanks and dashes names no range |
| `Pool.CoveringNet` | vpnctl/ikev2ctl.py:50-85 | an answer iff the entry names an IPv4 range, and then the smallest block holding all of it |
| `Pool.PoolNetwork` | vpnctl/ikev2ctl.py:88-145 | the smallest block holding the first IPv4 range, by position, of the first line that sets the pool, whatever VPN_XAUTH_NET says; without one the IPv4 network that is; the image default iff neither source gave one, with the reason that applies |
| `Pool.RangeByPosition` | vpnctl/ikev2ctl.py:114-133 | the loops over lines and entries find the first line with the key and the first entry that is a range |
| `Pool.LinesBreak` | vpnctl/ikev2ctl.py:118 | a line of the configuration ends at the first break character, a carriage return and a newline being one break |
| `Pool.LastLine` | vpnctl/ikev2ctl.py:118 | what follows the last break is a line too |
| `Pool.PoolIsUnique` | vpnctl/ikev2ctl.py:88-145 | what the container tells leaves one network |
| `Bootstrap.KeyringCoherence` | vpnctl/bootstrap.py:88-125 | over every run, from any coherent keyring, of unforced bootstraps cut off between any two writes, completed forced ones, and losses and truncations of files: the secrets of a protocol that are there come from one minting |
| `Bootstrap.BootstrapKeyring` | vpnctl/bootstrap.py:75-170 | unforced it fills whole absent sets and rebuildable gaps only, names every damaged set, reports a minting iff there was one, and writes nothing where nothing is left to write; forced it overwrites in order; it is cut off only by a write that fails |
| `Bootstrap.DoneIsSettled` | vpnctl/bootstrap.py:96-125 | a call that was not cut off leaves nothing for its repetition to write, and neither heals nor hides damage |
| `Bootstrap.ForcedCutIff` | vpnctl/bootstrap.py:123-125 | a forced call cut off leaves a coherent keyring iff no protocol was cut in the middle while an old secret of it was still there |
| `Bootstrap.EveryForcedCutIff` | vpnctl/bootstrap.py:123-125 | before `--force`: however far it gets, the keyring stays coherent iff no protocol holds a secret other than the one written first |
| `Bootstrap.ForcedBootstrapIsSafeIff` | vpnctl/bootstrap.py:96-125 | that condition for the protocols there are |
| `Bootstrap.Heal` | vpnctl/bootstrap.py:50-72 | rebuilds from what was there when the call began, each gap it can and no other |
| `Bootstrap.GentleKeepsCoherent` | vpnctl/bootstrap.py:102-125 | one unforced call, wherever cut, never mixes mintings |
| `Firewall.ReconcileRules` | vpnctl/firewall.py:103-159 | what it makes of the rules, cut short anywhere: with the status read, additions at the end for ports nobody serves and then deletions of tagged ports nobody wants, all of them on success; with the status unreadable, additions only, which may take over rules on wanted ports; the commands it gave are those it reports, in order, none after one that failed; a run that got through reports exactly what it opened, left, deleted and refused; every port of every enabled protocol is then open, if the rules could be settled; nothing to do iff no command; it gets through whenever ufw works |
| `Firewall.WantedAreClaimed` | vpnctl/firewall.py:87-100 | a rule is wanted iff it is the key of some port of some enabled protocol, and the name kept with it is that of such a protocol |
| `Firewall.KeySpells` | vpnctl/protocols/__init__.py:53-54 | the key of a port is its number in decimal, which reads back, a slash and its transport |
| `Firewall.EveryRunSparesIff` | vpnctl/firewall.py:103-159 | every run, cut short anywhere, leaves rules by hand and rules for ssh as they were iff none of them is a blanket rule on a port that may be deleted, or, the status being unreadable, on a port that is wanted |
| `Firewall.ListedRunSparesIff` | vpnctl/firewall.py:118-157 | the same for one run and the ports it got to delete |
| `Firewall.SettledIff` | vpnctl/firewall.py:118-159 | after a run that read the status and got through, every wanted port is open and every tagged rule wanted or protected iff each wanted tagged port was open and each unwanted tagged rule a blanket one on a port to delete |
| `Firewall.RerunIsIdleIff` | vpnctl/firewall.py:118-159 | after such a run a rerun has nothing to do iff no deleted port keeps a tag on a narrow rule |
| `Firewall.ReconcileRulesTwice` | vpnctl/firewall.py:103-159 | two such runs: the second issues no command iff no deleted port kept a tag, and none if the rules could be settled |
| `Firewall.SettledIsIdle` | vpnctl/firewall.py:118-157 | a settled table leaves nothing to do, whoever wrote its rules |
| `Firewall.BlanketTagsAreSafe` | vpnctl/firewall.py:133-136 | on rules as the program writes them, a readable status spares what is protected, and success settles |
| `Firewall.BlanketTagsStay` | vpnctl/firewall.py:118-157 | every run that read the status, cut short anywhere, leaves rules of that kind |
| `Firewall.UnreadStatusLosesForeignRule` | vpnctl/firewall.py:40-47 | a rule by hand that is taken over while the status cannot be read, and deleted when the protocol is turned off |
| `Firewall.NarrowTagNeverSettles` | vpnctl/firewall.py:118-157 | a tag on a narrow rule keeps a wanted port closed, and an unwanted one is deleted over and over |
| `Firewall.NarrowTagLosesForeignRule` | vpnctl/firewall.py:140-157 | the rules that show the limit: a tag on a narrow rule makes the delete take a foreign blanket rule |
| `Firewall.AddMissing` | vpnctl/firewall.py:118-138 | opens each wanted port that is neither tagged nor open by hand, and stops at the first failure |
| `Firewall.RemoveUnwanted` | vpnctl/firewall.py:140-157 | deletes exactly the tagged ports nobody wants, past the ssh ones, and stops at the first failure |
| `Firewall.ReadTagged` | vpnctl/firewall.py:50-56 | each port with the tag of the last tagged rule on it |
| `Firewall.ReadUntagged` | vpnctl/firewall.py:59-65 | the ports that somebody else opened to anywhere |
| `Forwarding.EnsureForwarding` | vpnctl/ikev2ctl.py:190-232 | inserts the missing accepts at the head and moves nothing else, even when it fails half way; it succeeds whenever iptables works |
| `Forwarding.EnsureAddsOnlyThePair` | vpnctl/ikev2ctl.py:214-228 | afterwards both halves are in the chain, each missing one just once and at the head of the old chain |
| `Forwarding.RemoveForwarding` | vpnctl/ikev2ctl.py:235-281 | deletes up to eight copies of each and nothing else, and counts them; it succeeds whenever iptables works |
| `Forwarding.EnsureIsIdempotent` | vpnctl/ikev2ctl.py:214-217 | a second time changes nothing |
| `Forwarding.RemoveTakesOnlyThePair` | vpnctl/ikev2ctl.py:259-274 | min(8, count) copies of each go; the rest keeps its order |
| `Forwarding.RemoveUndoesEnsure` | vpnctl/ikev2ctl.py:235-258 | on a chain without the pair, removing after ensuring restores the chain |
| `Readiness.WaitReady` | vpnctl/composectl.py:329-356 | terminates because sleeping moves the clock; true iff every wanted port was observed bound at some poll of this wait; on failure the deadline has passed, exactly the others are named, and each of them was asked for once per pause of two seconds |
| `Locking.SerialisedThroughout` | vpnctl/cli.py:101-152 | in every interleaving of commands whose lock file opens, wrappers and readers: at most one command is inside its load-modify-save, the file is whole and holds every save, and whatever a reader has open is one whole version |
| `Locking.EventKeepsSerialised` | vpnctl/state.py:144-154 | each event keeps that, a kill in the middle of a write included |
| `Locking.HistoryGrows` | vpnctl/cli.py:124-132 | a save that took effect is never undone by another command's |
| `Locking.NothingIsLostIff` | vpnctl/cli.py:124-132 | over the commands whose lock file does not open: no interleaving loses a save iff there are none |
| `Locking.OneUnlockedLosesAnUpdate` | vpnctl/cli.py:114-122 | one command that goes on without the lock undoes the save of one that holds it |
| `Registry.EnabledProtocols` | vpnctl/state.py:157-159 | the enabled names the registry knows, unknown ones dropped |
| `Registry.EnabledInOrder` | vpnctl/protocols/__init__.py:179-181 | in registry order, each as often as it is named |
| `Registry.ExpectedServices` | vpnctl/composectl.py:137-148 | sing-box and the services of the enabled protocols, in order |
| `Registry.PortsDisjoint` | vpnctl/protocols/__init__.py:184-200 | accepted iff no port is claimed twice |
| `Users.RenderableIsOneWord` | vpnctl/users_store.py:121-145 | an accepted name is one word without a colon; it is one line iff it carries no trailing newline |
| `Users.LowerIgnoresCase` | vpnctl/users_store.py:306-310 | two names fold to the same one iff they differ in the case of letters alone |
| `Strings.RecordsRoundTrip` | vpnctl/protocols/dnstt.py:117-151 | a file of one record per line reads back as its records iff no field spans a line |
| `Strings.LessIff` | vpnctl/render.py:119-123 | one text is before another iff it is a proper beginning of it or has the smaller character where they first differ |

## Left out

- Cli.PromoteCandidate: the swap of the link and the saving of the mark are one step; `Convergence.TornIsSafeIff` says what an interruption between them costs.
- Ikev2Container.ReconcileIkev2: a kill between two container operations is not one of its outcomes; a failed save at either file is, and is reported as aborted, and `Commands.RunSession` then promises accounted certificates only if all names were marked. `Reconcile.EveryInterruptionIsAccountedIff` covers every point a kill can come at. A timeout raised while a command runs in the container is not one of its outcomes either.
- Rendering.Ikev2EnvReadsBack: the reader cuts a line at its first `=`; what compose makes of quotes, `$` and `#` in the value of a hand-edited password is not modelled.
- Revocation.ListsAreEnabled: the same, for the env file it reads.
- Commands.UserAdd: excludes the name `Client`, which the listing parser takes for the header row, and names with a trailing newline, which the name pattern lets through.
- Certificates.ListingParses: says nothing about the name `Client`, for the same reason.
- Reconcile.CertificateIdentity: issuing is assumed to do nothing when it fails; a failed revocation or deletion may have taken effect.
- Commands.PrepareSecrets: the image build is one choice that works or not, and the two halves it writes are not part of the coherence theorem, which is about what `bootstrap` mints.
- Bootstrap.KeyringCoherence: files are lost whole or truncated to nothing; a half-overwritten secret and a file restored from an old backup are not steps.
- Rendering.BuildTree: a configuration fragment for sing-box is kept as the key material and the logins it is a function of; its JSON, ports and masquerade are not modelled.
- Revocation.RevokedEverywhere: with dnstt or ikev2 on, asks that enabled users have plain names, distinct ones for dnstt, and one-line passwords for ikev2; a list that does not read back lets in whoever its fragments spell. The sshd's refusal to start on a name it cannot serve, and the shell's treatment of a password that ends in a colon, are not modelled.
- Commands.ClearedMeansRevoked: the same condition.
- Commands.ClearedLocksOut: the same condition.
- Firewall.ReconcileRules: rules are values with a port, a source and a comment; the text of `ufw status` and the patterns that read it are not modelled.
- Forwarding.EnsureForwarding: `iptables -C` is taken to answer truly; a check that fails for another reason inserts a duplicate.
- Cli.Forward: the default route and what the container answers change between commands and while the containers come up, not in the middle of the steps that follow; a container that cannot be inspected for another reason counts as down.
- Pool.PoolNetwork: Python's parsing of one address and one network is a parameter, with every IPv4 result in range.
- Locking.SerialisedThroughout: a wrapper runs one command at a time beneath its lock; one file stands for both users.json and state.json, which are written alike.
- Users.Find: case is folded for ASCII letters only; the names that can be stored have no others.
- Compose.UpServices: image builds, profiles, port conflicts between services and crash loops inside a container are not modelled; a running container that replaced nothing keeps serving what it holds.
- Losing state.json, or replacing it by hand: the default then invents a clear mark and an empty queue.
- Damaged JSON, schema versions and unknown fields: reading either file works or fails as a whole.
- `VPN_STATE_DIR` without permission to converge, the .env link, the deployment zone check: an apply without restart, or a refusal before anything is written.
- Exports, share links, QR codes, status output, `scripts/share.py`, the apps and the shell scripts.
- IPv6: the program leaves that half of a pool to the image.
