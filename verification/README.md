# Tensor: a verified model

Tensor is an API server and a set of job runners for Ansible and Terraform. This project
models its hardest parts in Dafny 4.11 and proves properties of them. Verify everything with
`dafny verify dfyconfig.toml`.

## What is modelled

**Job execution.** A launch inserts a job, may insert and publish an update job for the
project, and then publishes the job (`JobLaunch`). Consumers take deliveries from two queues,
acknowledge them, poll the update job, run, and write the outcome (`JobHandlers`). `JobProtocol`
puts all parties together as a state machine with 13 kinds of steps: launches step by step,
fetching, taking, every single store access of a consumer, crashes, the cleaner, new
consumers, deletion of jobs and edits of templates. Any write may be lost, any read may fail,
any publish may be lost and a launch may stop anywhere. `JobSafety` proves what holds in every
such run, `JobReports` what documents, projects and payloads show in it, `JobOrder` and
`JobWaits` what holds when nothing crashes or is lost, `JobProgress` that published jobs finish,
and `JobTemplates` that templates report their last job. `HandlerIsConsumer` ties
the handlers' code to the consumers of the state machine.

**Inventories.** Groups with a parent pointer and hosts below them (`InventoryModel`,
`InventoryStore`, `InventoryEffects`, `InventoryHandlers`), the two renderings `Tree` and `Script`
(`InventoryScript`), and the cascading deletes of organizations, projects and inventories with
every state they can stop in (`Cascade`, `CascadeHandlers`).

**Algorithms.** Rejection sampling (`Uniuri`); CFB and base64url (`Cipher`, `Base64`,
`Bytes`) and the secrets of credentials over runs of edits (`Credentials`); pages with a
floating-point page count and 64-bit offsets (`Pagination`, `Pages`); the query builder
(`Lookups`, `LookupMeaning`); the VMware object walk and dict flattening (`ObjectWalk`,
`ObjectAnswers`, `Flatten`, `VmwareInventory`); the EC2 inventory (`CloudInventory`,
`CloudGroups`, `InstanceGroups`); the permission checks (`Permissions`, `PermissionMeaning`,
`PermissionChecks`).

`Common`, `Texts`, `Collections` and `Arithmetic` hold shared vocabulary. A stored collection is the
sequence of its documents; a `Find` is a filter, `RemoveAll` its complement.

## Assumptions

- A queue hands out deliveries in the order of publication. `Ack` removes a delivery for good.
  The cleaner returns only unacknowledged deliveries of consumers that died, to any place.
- One `UpdateId`, `Insert` or `RemoveId` is atomic; a `RemoveAll` may remove some documents and
  then fail. `bson.NewObjectId` answers an identifier that was never used.
- `mgo`'s `Iter.Next` resets its target, so the loop variables of `Tree` are fresh in every
  iteration.
- The AES block function is any function on 16-byte blocks.
- A stored text is compared by its characters in order; a regular expression matches as in PCRE
  without options: a dot is any character but a newline, a dollar also stands before a final
  newline, and a pattern without a leading caret may match anywhere.
- Progress assumes weak fairness: a consumer that can go on does so eventually, which includes
  that a run ends and that a readable store is read, and a free consumer fetches eventually;
  and that each queue has a consumer.

## What the proofs found

- The cascade of `OrganizationController.Delete` closes the project cursor twice and never the
  inventory cursor (`api/organization.go:211`), so an inventory scan that fails goes unnoticed.
  The cascade keeps owner references alive exactly when the inventories it missed hold no host
  and no group (`OrganizationCascade`, `CascadeEndsSafe`); `ShortScanLeavesOrphan` is the
  smallest case. It keeps inventory references alive exactly when no other organization's
  project has a job or a job template that uses one of its inventories.
- Deleting a project leaves terraform jobs and templates without a project (`ProjectCascade`);
  deleting an inventory leaves jobs and job templates without an inventory, exactly when some
  use it (`InventoryCascade`).
- Updating a group checks that the parent exists and nothing else: every group can become its
  own parent, after which following `GetParent` never ends (`UpdateCanLoop`), and names can
  clash when a group moves (`UpdateCanClash`). `UpdateKeepsForest` and `UpdateKeepsNames` say
  exactly when an update is harmless, `RunsKeepForest` and `RunsKeepNames` when a run is.
- Deleting a group leaves grandchildren whose parent is gone, and a delete that stops leaves
  any child that stays behind (`DeleteKeepsClosed`).
- The update job of a waiting ansible job is never queued behind it, and is over or in another
  consumer's hands exactly when no other consumer has prefetched it (`WaitingBehindUpdate`).
  That is always so with one ansible consumer (`FirstReadDecides`) and, for any number of them,
  without prefetching (`PromptNeverBehind`). The runners prefetch one delivery
  (`exec/ansible/ansible.go:90`), and then two consumers suffice for a job to wait until an
  unrelated run ends (`PrefetchedBehindRun`).
- The page of an empty list is not checked at all. The slice panics exactly when the 64-bit
  product of the limit and the pages before has its highest bit set (`SliceIsLegal`), as for a
  request for page 10^18 with the default limit (`EmptyListCanPanic`).
- The organization check asks for the user and for the admin role separately. It lets only
  admins pass exactly when the organization has no admin or everybody in its role list is one
  (`AdminCheckIsRight`); otherwise a plain member writes to its projects
  (`MemberPassesAsAdmin`).
- An admin of a template can be unable to read it: an attached credential alone decides
  (`Permissions.WriteImpliesRead`, `TemplateAdminWithoutRead`).
- An ElastiCache replication group is nested under "redis" instead of its engine group, which
  dangles exactly when that is no group by accident, and its id is listed as a host without
  variables exactly when it is neither its host name nor another host
  (`ReplicationGroupIsExact`).
- The object walk shares what it has seen only below a managed object. From a container it
  expands no object twice exactly when it has no depth or the container's objects reach
  nothing in common (`ContainerIsExact`, `ContainerExpandsTwice`). The plugin passes depth 0
  everywhere (`packaging/ansible/plugins/inventory/vmware.py:203`, `206`, `231`, `235`, `242`), where nothing is expanded at all
  (`ShallowExpandsNothing`); the default depth of the method is 99.
- With the default empty prefix, flattening can be undone exactly when nothing is kept below an
  empty key at the top (`FlatteningIsUndone`).
- Lookup values go into regular expressions unescaped: `name__exact=a.c` also selects "abc".
  Among values with dots and stars the operators mean what they say exactly for those that have
  none (`PatternMeans`, `LookupsMean`).
- Host names, too, can clash by an update: the name is checked before it is trimmed, and only
  when it changes (`RunsKeepHostNames`).
- Asking for one host's variables looks in all inventories and answers an error for a host
  without variables; `HostAgreesWithMeta` says when it agrees with `_meta`.
- A new passphrase for an SSH key is dropped when the key itself is not submitted
  (`Credentials.Counts`).

## Model

| member | source | states |
|---|---|---|
| JobLaunch.Backend.UpdateProject | exec/sync/sync.go:234-270 | the state afterwards is that after the steps insert, publish, as far as the handler gets; it answers the update job exactly when neither the insert nor the credential lookup fails |
| JobLaunch.Backend.Launch | api/template.go:796-828 | the state afterwards is that after the steps insert, update job if needed, publish, as far as the handler gets; every step is enabled in the protocol |
| JobLaunch.LaunchOutcome | api/terraformtemplate.go:709-740 | a launch that gives up leaves the job new and unpublished; one that succeeds puts it last on the queue of its kind, naming its update job, which was published with an earlier number |
| JobHandlers.Job.Start | exec/ansible/logging.go:13-31 | one write sets running and clears failed |
| JobHandlers.Job.SetStatus | exec/ansible/logging.go:33-47 | one write of the status alone |
| JobHandlers.Job.JobFail | exec/ansible/logging.go:49-80 | job, project and template are written failed, in this order |
| JobHandlers.Job.JobError | exec/ansible/logging.go:116-147 | job, project and template are written error with the failed flag, in this order |
| JobHandlers.Job.JobSuccess | exec/terraform/logging.go:149-180 | job, project and template are written successful without the flag, in this order |
| JobHandlers.Job.UpdateProject | exec/ansible/logging.go:182-195 | the project gets the job's status and flag |
| JobHandlers.Job.UpdateJobTemplate | exec/terraform/logging.go:197-211 | the template gets the job's status and flag |
| JobHandlers.Job.AwaitUpdate | exec/ansible/ansible.go:108-135 | the wait loop ends at the first poll that reads failed, error or successful and goes on as the phase machine does with that answer |
| JobHandlers.Job.Run | exec/ansible/ansible.go:94-294 | the writes of a whole run are those of the phase machine from its Marked phase, for every sequence of poll results |
| JobHandlers.Sync | exec/sync/sync.go:27-143 | the writes of an update job are running, the outcome, and the project's outcome |
| JobHandlers.Consume | exec/ansible/ansible.go:48-84 | a delivery is rejected, or acknowledged before the first write; what follows is what the phase machine does from Acked |
| JobHandlers.HandlerIsConsumer | exec/terraform/terraform.go:47-126 | along every run of the protocol, interleaved with everybody else, a live consumer makes exactly the accesses its handler makes |
| JobSafety.InvAlways | exec/ansible/ansible.go:48-138 | every reachable state, crashes and redelivery included, keeps the safety invariant: no job in two places, ranked and flagged documents, linked payloads, dependent runs |
| JobSafety.UniqueStep | queue/cleaner.go:8-16 | no step, redelivery included, puts a job in two places |
| JobSafety.ForwardsStep | exec/ansible/logging.go:13-180 | no step moves a stored status back or changes a terminal document |
| JobSafety.AtMostOnce | exec/ansible/ansible.go:48-84 | in every run no job's run is started twice |
| JobSafety.MonotoneStatus | exec/ansible/logging.go:13-180 | along every run a stored status only moves forward along new, pending, waiting, running, terminal, and a terminal document never changes |
| JobSafety.StartsAfterUpdate | exec/ansible/ansible.go:101-138 | a consumer that is about to start a job whose launch drafted an update job has seen that update job succeed, and it still reads successful |
| JobSafety.RunsAfterUpdate | exec/terraform/terraform.go:89-126 | every job that was started and whose launch drafted an update job names that job in its payload, saw it succeed, and it still reads successful |
| JobSafety.ErrorMeansHeldBack | exec/terraform/terraform.go:107-113 | a job in error was never started and its update job reads failed or error; a job that is running, successful or failed was started |
| JobSafety.FailedFlagAgrees | exec/ansible/logging.go:13-180 | in every reachable state the failed flag is set exactly when the status is failed or error |
| JobOrder.OrderAlways | exec/sync/sync.go:234-270 | without crashes and losses queues stay in publication order, an update job is published before the job that waits for it, and no published job is lost |
| JobWaits.WaitingBehindUpdate | exec/ansible/ansible.go:101-128 | the update job of a waiting job is stored, and for an ansible job it is terminal or in the hands of another ansible consumer exactly when none has it in its inbox untaken |
| JobWaits.FirstReadDecides | exec/ansible/ansible.go:108-136 | with one ansible consumer the first successful poll ends the wait |
| JobWaits.PromptNeverBehind | exec/ansible/ansible.go:86-136 | if every fetched delivery is taken at once, the update job of a waiting ansible job is terminal or in the hands of another consumer, for any number of consumers |
| JobWaits.PrefetchedBehindRun | exec/ansible/ansible.go:86-92 | with two consumers that each fetch at most one delivery ahead, some run without crash or loss has a job poll an update job in the inbox of a consumer that is busy with another job |
| JobProgress.WorkFalls | exec/ansible/ansible.go:48-136 | no reliable step adds work to any of the publications made so far |
| JobProgress.OldestMovable | exec/terraform/terraform.go:82-124 | the oldest delivery with work left can always be moved by somebody, across both queues |
| JobProgress.OldestPollEnds | exec/terraform/terraform.go:89-124 | if the oldest delivery waits, its update job is already terminal |
| JobProgress.Progress | exec/ansible/ansible.go:48-136 | under weak fairness every published job reaches successful, failed or error, or its document is deleted |
| JobTemplates.AgreementAlways | exec/ansible/logging.go:182-211 | every steady run keeps: a consumer about to report holds the last outcome of its template, and every other template is up to date |
| JobTemplates.TemplateShowsLast | exec/terraform/logging.go:182-211 | when the single consumer of a queue is idle every template with finished jobs shows the status and flag of its most recently finished one |
| JobReports.ProjectsAfter | exec/sync/logging.go:178-191 | a step changes at most one stored project, when a consumer leaves Closing and the write lands: that of its job gets the status and the flag of that phase |
| JobReports.ReportsOutcome | exec/sync/logging.go:31-130 | in every run, what a consumer is about to report is successful without the flag if its run succeeded, failed with it if the run failed, and error with it if the job was held back |
| JobReports.ProjectShowsLast | exec/ansible/logging.go:182-195 | in every run, losses and crashes included, a project shows the last outcome reported to it, which is that of a job of this project, and otherwise what it showed at first |
| JobReports.EndedIsReported | exec/ansible/logging.go:49-180 | without crashes and lost writes every run that ended has been reported to its project or is the next thing its consumer writes |
| JobReports.DocumentsShowPhase | exec/ansible/ansible.go:94-138 | if no write is lost, the document of a job in hand reads pending, waiting, running or the outcome, as its consumer has got |
| JobReports.UntouchedUntilTaken | api/template.go:796-828 | in every run the document of a job that no consumer took is as inserted: new without the flag, pending for an update job |
| JobReports.TemplatesAre | exec/terraform/logging.go:197-211 | a step changes at most the template of the job whose consumer leaves Filing, a terraform template exactly for a terraform job |
| JobReports.PayloadsAsRequested | exec/sync/sync.go:234-270 | in every run each payload carries kind, template and project of its launch, an update job the project of the launch that drafted it, and waits for that update job |
| JobReports.SortedAlways | exec/terraform/terraform.go:47-80 | in every run terraform jobs are in the terraform queue and its consumers, all others in the ansible queue |
| InventoryHandlers.Database.CreateGroup | api/group.go:143-217 | the answer is the first check that refuses, in the order of the code, and the store changes only when none does |
| InventoryHandlers.Database.UpdateGroup | api/group.go:222-274 | the first refusing check answers; otherwise name (trimmed), variables, inventory and parent are replaced and nothing else |
| InventoryHandlers.Database.DeleteGroup | api/group.go:279-322 | hosts, then groups, of the group and its direct children are removed, as far as the handler gets |
| InventoryHandlers.Database.CreateHost | api/host.go:143-203 | the first refusing check answers; otherwise the host is added |
| InventoryHandlers.Database.UpdateHost | api/host.go:207-263 | the first refusing check answers; otherwise the stored host is replaced |
| InventoryHandlers.Database.DeleteHost | api/host.go:266-281 | exactly the host is removed |
| InventoryHandlers.Database.Tree | api/inventory.go:639-715 | the nested loops compute the root groups with two levels below them |
| InventoryHandlers.Database.Children | api/inventory.go:648-692 | the inner loops compute the groups under one group, each with those under it |
| InventoryHandlers.UpdateCanLoop | api/group.go:250-262 | for every group the request to make it its own parent is accepted, and then every climb from it leads back to it |
| InventoryHandlers.UpdateCanClash | api/group.go:242-262 | an accepted update can give two groups of an inventory one name |
| InventoryStore.BoundedIsAcyclic | models/ansible/group.go:45-49 | a forest in which following GetParent stops within two steps has no cycle |
| InventoryStore.CreateKeepsBounded | api/group.go:176-199 | the nesting check of Create is what keeps the forest within three levels |
| InventoryStore.RunsKeepForest | api/group.go:143-322 | along any run of the group and host handlers, updates and stopped deletes included, following GetParent stops within two steps and every host names a live group exactly as long as every accepted update has a parent that fits; nothing is its own ancestor then |
| InventoryStore.RunsKeepNames | models/ansible/group.go:55-62 | along any such run group names stay unique in their inventory exactly as long as every accepted update stores a free name |
| InventoryStore.DeleteIsExact | api/group.go:279-318 | a completed delete removes exactly the group, its direct children and their hosts |
| InventoryStore.DeleteKeepsClosed | api/group.go:279-318 | after a completed or stopped delete parent pointers stay live exactly when no removed group has a child that stays; for a completed one, when the group had no grandchildren |
| InventoryStore.UpdateKeepsForest | api/group.go:250-262 | an update keeps the forest within three levels exactly when the new parent is not the group, not below it, and high enough |
| InventoryStore.UpdateKeepsNames | api/group.go:242-258 | an update keeps names unique exactly when no other group has the trimmed name in the new inventory |
| InventoryEffects.CreateGroupIs | api/group.go:143-217 | a new group is accepted exactly when the inventory exists, the permission is there, the name is free in it and the parent may have children; then the document of that id has the fields of the request, and nothing else changes |
| InventoryEffects.GroupRefusalIs | api/group.go:152-199 | each refusal of a new group says what is wrong and that everything checked before it is right |
| InventoryEffects.NestingIsExact | api/group.go:176-199 | in a parent-closed forest the nesting check refuses a parent exactly when the new group would hang too deep or under nothing |
| InventoryEffects.UpdateGroupIs | api/group.go:222-274 | an accepted update gives the group, where it stands, the trimmed name and the variables, inventory and parent of the request; every other document and every refused update stays as it was |
| InventoryEffects.DeleteGroupIs | api/group.go:279-322 | wherever a delete stops, exactly the groups of the family that were removed and exactly their hosts that were removed are gone, every other document as often there as before |
| InventoryEffects.CreateHostIs | api/host.go:143-203 | a new host is accepted exactly when inventory, permission, name and group are in order; then its document has the fields of the request, and nothing else changes |
| InventoryEffects.HostRefusalIs | api/host.go:155-184 | each refusal of a new host says what is wrong and that everything checked before it is right |
| InventoryEffects.UpdateHostIs | api/host.go:207-263 | an accepted update gives the host, where it stands, the trimmed name and the variables, inventory and group of the request; everything else stays |
| InventoryEffects.DeleteHostIs | api/host.go:266-281 | exactly the host of that id goes; every other host is as often there as before, and groups and inventories do not change |
| InventoryEffects.RunsKeepHostNames | models/ansible/host.go:47-56 | along any run host names stay unique in their inventory exactly as long as every accepted update stores a free name |
| InventoryModel.TreeCount | api/inventory.go:639-698 | for any store a group appears in the tree exactly once if it reaches a root group of the inventory within two steps, and otherwise never |
| InventoryStore.TreeConserves | api/inventory.go:639-698 | for a parent-closed forest of depth three the tree holds exactly the groups of the inventory, each once |
| InventoryStore.TreePlaced | api/inventory.go:486-525 | every group stands under its own parent and the top level is the list of RootGroups |
| InventoryScript.ScriptGroups | api/inventory.go:339-394 | the loop over groups fails at text that does not parse and otherwise yields their entries and their hosts |
| InventoryScript.CollectVars | api/inventory.go:396-410 | the loops over hosts fail at text that does not parse and otherwise collect the variables of hosts that have some |
| InventoryScript.Script | api/inventory.go:328-441 | the handler answers the entries of all groups, the ungrouped hosts under all, and the variables under _meta if asked |
| InventoryScript.ScriptAnswers | api/inventory.go:339-434 | there is an answer exactly when the text of every group of the inventory and of every listed host of it parses |
| InventoryScript.ScriptHost | api/inventory.go:306-326 | the first host of that name in any inventory decides: its parsed variables, or an error when there is no such host or its text is empty or malformed |
| InventoryScript.HostPartition | api/inventory.go:328-437 | each host is listed exactly once under its own key, its group's name or all, and never under another |
| InventoryScript.HomeIsListed | api/inventory.go:385-437 | the key a host belongs under occurs in the answer |
| InventoryScript.SharingHostsAreListed | api/inventory.go:340-349 | a host that shares its group's inventory has such a key |
| InventoryScript.MetaIsExact | api/inventory.go:396-434 | _meta is there exactly when asked for, and its hostvars are exactly the listed hosts with variables, each with its own |
| InventoryScript.HostAgreesWithMeta | api/inventory.go:306-326 | for a listed host this agrees with _meta exactly when the first host of its name has the same variables |
| InventoryScript.GroupPartition | api/inventory.go:340-386 | every group has its own entry with its variables and is listed as a child exactly once under its own parent and nowhere else |
| InventoryScript.TreeAgreesWithScript | api/inventory.go:328-441 | below a group the tree holds exactly the groups that the script lists as its children |
| Cascade.SafeIffReferrersFirst | api/organization.go:187-311 | a list of removals keeps every owner and inventory reference alive in every state it passes or stops in exactly when it removes what refers to a document before the document |
| Cascade.OrganizationCascade | api/organization.go:187-311 | in every such state owner references stay alive exactly when the inventories the unchecked scan missed hold no host and no group, and inventory references exactly when only its own projects use its inventories |
| Cascade.CascadeEndsSafe | api/organization.go:204-217 | the same condition decides whether a completed cascade leaves a reference to a document that is gone |
| Cascade.ShortScanLeavesOrphan | api/organization.go:211-217 | an unnoticed failure of the scan leaves a host without inventory |
| Cascade.CompletedCascade | api/organization.go:219-311 | a completed cascade with a complete scan removes exactly what belongs to the organization, from every collection |
| Cascade.ProjectCascade | api/project.go:337-363 | deleting a project keeps references alive in every state exactly when no terraform job or template names it |
| Cascade.CompletedProject | api/project.go:337-363 | a completed delete removes the project, its jobs and its job templates, and nothing else |
| Cascade.InventoryCascade | api/inventory.go:265-292 | deleting an inventory keeps references alive in every state exactly when no job or job template uses it |
| Cascade.CompletedInventory | api/inventory.go:265-292 | a completed delete removes the inventory, its hosts and its groups, and nothing else |
| CascadeHandlers.Database.Remove | api/organization.go:219-226 | one removal, or a part of it when it fails |
| CascadeHandlers.Database.Scan | api/organization.go:191-217 | a scan collects the ids of the documents its cursor delivers |
| CascadeHandlers.Database.DeleteOrganization | api/organization.go:187-311 | the handler stops where a removal fails, in the state the plan says, and answers success exactly when none fails |
| CascadeHandlers.Database.DeleteProject | api/project.go:337-363 | the same for a project |
| CascadeHandlers.Database.DeleteInventory | api/inventory.go:265-292 | the same for an inventory |
| Uniuri.NewLenChars | util/uniuri.go:53-82 | the result is the first characters that the filtered, mapped byte stream stands for; an illegal charset or length, or a stream that ends too early, panics |
| Uniuri.Draw | util/uniuri.go:63-81 | chunk boundaries do not matter; all indices are in range |
| Uniuri.Pick | util/uniuri.go:68-80 | one chunk extends the result by what its bytes stand for and stops when the result is full |
| Uniuri.SpellsCharset | util/uniuri.go:68-76 | the bytes from 0 on stand for the characters of the set, in order |
| Uniuri.StringsForExact | util/uniuri.go:68-76 | the byte strings counted for an output are exactly those without a skipped byte from which it comes |
| Uniuri.Uniform | util/uniuri.go:61-76 | for distinct characters every output of length n comes from ((256 - 256 mod clen) / clen)^n accepted byte strings |
| Base64.DecodeEncode | util/cipher.go:49-56 | base64url decoding undoes encoding, for every byte string |
| Base64.KnownAnswers | util/cipher.go:50-50 | the alphabet and the padding are those of RFC 4648 |
| Cipher.CfbBlocks | util/cipher.go:46-48 | every ciphertext block is the plaintext block XORed with the enciphered previous one, as in section 6.3 of NIST SP 800-38A |
| Cipher.DecryptEncrypt | util/cipher.go:46-74 | CFB decryption undoes encryption, for every block function, vector and text, whole blocks or not |
| Cipher.XorKeyStream | util/cipher.go:71-74 | the in-place stream over the bytes after the vector equals CFB and leaves the vector alone |
| Cipher.Cipher | util/cipher.go:27-51 | empty text or a failing random source yields the empty string, anything else the encoding of vector and ciphertext |
| Cipher.Decipher | util/cipher.go:54-75 | text that does not decode, or decodes to less than a vector, is told apart; otherwise the plaintext |
| Cipher.DecipherCipher | util/cipher.go:27-75 | Decipher undoes Cipher on every text that is not empty |
| Credentials.Credential.HideEncrypted | api/util.go:58-67 | all seven secrets are replaced by the sentinel |
| Credentials.Credential.SealAll | api/credential.go:181-187 | Create enciphers all seven fields, a submitted sentinel included |
| Credentials.Credential.Replace | api/credential.go:274-295 | Update replaces exactly the submitted fields that are not the sentinel, the key's passphrase only together with the key |
| Credentials.Database.Create | api/credential.go:144-211 | the document holds every enciphered field, others are untouched, and the answer shows no secret |
| Credentials.Database.Update | api/credential.go:216-319 | exactly the fields that count change, other documents do not, and the answer shows no secret |
| Credentials.Database.Show | api/util.go:58-67 | a GET shows no secret |
| Credentials.LastSubmittedIsStored | api/credential.go:181-295 | after any run each stored secret deciphers to the last submitted value that counts; an empty one, or one without random bytes, is stored as empty |
| Credentials.NextStored | api/credential.go:274-295 | an update leaves a secret alone if it is refused or shows the sentinel, for the passphrase also if it shows it for the key; otherwise the submitted text can be read back |
| Credentials.EchoesChangeNothing | api/credential.go:274-295 | putting back what an answer showed, anywhere in a run, changes no secret |
| Pagination.LimitParser | util/pagination.go:45-52 | every limit is between 1 and 500, and the one asked for if that is |
| Pagination.PageParser | util/pagination.go:54-60 | a page is negative exactly when the number asked for is 2^63 or more |
| Pages.NewPagination | util/pagination.go:24-32 | whatever was asked, limit and page are within the bounds the page arithmetic needs |
| Pages.EveryPageIsARequest | util/pagination.go:24-60 | every positive 64-bit page and every limit within bounds is what some request text parses to |
| Pages.FirstPageByDefault | util/pagination.go:24-60 | without a page number and without a limit between 1 and 500 a request gets the first ten items |
| Pagination.QuotientIsNearest | util/pagination.go:62-64 | the model of the floating-point quotient is the double nearest to the exact one |
| Pagination.CeilingIsExact | util/pagination.go:62-64 | below 2^53 its ceiling is the ceiling of the exact quotient |
| Pages.TotalPagesIs | util/pagination.go:62-64 | the page count is the item count divided by the limit, rounded up |
| Pages.AcceptedPage | util/pagination.go:34-117 | for an accepted page of a list with items the offset does not overflow and 0 <= Skip < End <= itemCount |
| Pages.SliceIsLegal | util/pagination.go:82-117 | the slice of an accepted page is legal exactly when the list has items, the page is 1 or less, or limit times pages before is below 2^63 modulo 2^64 |
| Pages.EmptyListCanPanic | util/pagination.go:24-97 | the request for page 10^18 of an empty list with the default limit is accepted and its offset is negative |
| Pages.NextAndBack | util/pagination.go:66-80 | the next page exists and its previous page is this one |
| Pages.BackAndNext | util/pagination.go:66-80 | the previous page exists and its next page is this one |
| Pages.WalkVisits | util/pagination.go:66-73 | following next links visits each page from here once, in order, and stops |
| Pages.WalkShowsAll | util/pagination.go:90-117 | following next links from the first page shows the whole list |
| Lookups.Query.Match | util/query.go:43-50 | listed fields that the URL names get its first value, every other entry stays |
| Lookups.Query.SetEach | util/query.go:81-92 | of several values of a field the last one stays |
| Lookups.Query.Pass | util/query.go:81-92 | one pass sets the condition of its operator on the listed fields that use it |
| Lookups.Query.Lookups | util/query.go:53-75 | the seventeen passes do what one look at each field does |
| Lookups.PassesMeetSpec | util/query.go:53-75 | a listed field gets the condition of its highest operator, Gte first, then Ne, Eq, In down to Exact, with its last value; everything else keeps its entry |
| Lookups.Determined | util/query.go:53-75 | that specification has one result |
| Lookups.OneWinner | util/query.go:53-75 | no two operators of one field have the same precedence |
| Lookups.FieldOrder | util/query.go:53-75 | the order and repetition of fields do not matter |
| Lookups.Idempotent | util/query.go:53-75 | a second application changes nothing |
| Lookups.DisjointFields | util/query.go:53-75 | lookups of disjoint fields commute |
| Lookups.LookupsAfterMatch | util/query.go:43-75 | a matched field keeps its equality exactly when no lookup is used on it |
| LookupMeaning.LookupsMean | util/query.go:53-324 | after the lookups a listed field has a condition that selects exactly the stored values which its strongest operator, by its name in the request, promises for its last value; for the eight operators that build regular expressions exactly when the value is literal |
| LookupMeaning.PatternMeans | util/query.go:81-203 | among values whose only special characters are dots and stars, the pattern of an operator selects what the operator promises exactly when there are none |
| LookupMeaning.MatchMeans | util/query.go:43-50 | a matched field selects the documents that have the first value |
| Texts.ListIs | util/query.go:279-297 | splitting at commas gives exactly the texts between two commas or a comma and an end |
| ObjectWalk.GetObjInfo | packaging/ansible/plugins/inventory/vmware.py:146-191 | with a shared, mutable seen, replaced when it is empty, the walk terminates for every depth on every graph and computes the walk on values |
| ObjectWalk.Visit | packaging/ansible/plugins/inventory/vmware.py:152-191 | one value, case by case |
| ObjectWalk.VisitAll | packaging/ansible/plugins/inventory/vmware.py:163-188 | the parts one after the other, dropping empty results |
| ObjectAnswers.ShallowAnswer | packaging/ansible/plugins/inventory/vmware.py:146-191 | at depth 0 the answer has exactly the plain values and names of managed objects of the value, each under its path, in order, and the containers of which nothing is kept |
| ObjectAnswers.AnswerRenders | packaging/ansible/plugins/inventory/vmware.py:146-191 | at any depth and on any cyclic graph the answer says what the value is, part by part: plain values as they are, nothing dropped but what is foreign or has no name |
| ObjectAnswers.ManagedAnswer | packaging/ansible/plugins/inventory/vmware.py:152-172 | an object that was not seen answers, as long as there is depth, a dict of its attributes without an underscore, and any other its name |
| ObjectWalk.RootExpandsOnce | packaging/ansible/plugins/inventory/vmware.py:151-172 | from a managed object, at any depth and on any cyclic graph, each managed object is expanded at most once |
| ObjectWalk.ContainerIsExact | packaging/ansible/plugins/inventory/vmware.py:151-188 | from any value, containers included, no object is expanded twice exactly when the depth is 0 or less or the sets reached from its managed objects, with repetition, are disjoint |
| ObjectWalk.ContainerExpandsTwice | packaging/ansible/plugins/inventory/vmware.py:151-188 | at every other depth and on every graph a list that names an object twice expands it twice |
| ObjectWalk.ShallowExpandsNothing | packaging/ansible/plugins/inventory/vmware.py:156-162 | at depth 0 nothing is expanded, whatever the walk starts from |
| ObjectWalk.ReachedIsClosed | packaging/ansible/plugins/inventory/vmware.py:146-191 | with enough depth the expanded objects include the root and all that they lead to |
| ObjectWalk.ReachedIsLeast | packaging/ansible/plugins/inventory/vmware.py:146-191 | and at any depth no others |
| Flatten.Sound | packaging/ansible/plugins/inventory/vmware.py:127-144 | every entry of the flat dict comes from a kept path |
| Flatten.Complete | packaging/ansible/plugins/inventory/vmware.py:127-144 | every kept path has its entry, with its value, if the parent has a name or nothing is kept below an empty top key |
| Flatten.FlatteningIsUndone | packaging/ansible/plugins/inventory/vmware.py:127-144 | splitting the keys of the flat dict gives exactly the kept paths and values back, exactly when the parent has a name or nothing is kept below an empty top key |
| Flatten.SplitIsExact | packaging/ansible/plugins/inventory/vmware.py:136-136 | a key splits into the parent and its path exactly when the parent has a name, the path is a single key, or its first key is not empty |
| VmwareInventory.VMwareInventory.AddHost | packaging/ansible/plugins/inventory/vmware.py:255-265 | the host is added once, to a list or to a dict |
| VmwareInventory.VMwareInventory.AddChild | packaging/ansible/plugins/inventory/vmware.py:267-279 | a list becomes a dict, the child is added once, and the child group exists |
| VmwareInventory.GroupIsWhatWasAdded | packaging/ansible/plugins/inventory/vmware.py:255-279 | after any run a group's hosts and children are the names added to it, each once, in order of first addition |
| VmwareInventory.ChildrenExist | packaging/ansible/plugins/inventory/vmware.py:267-279 | after any run every listed child is a group |
| CloudInventory.Ec2Inventory.PushTo | packaging/ansible/plugins/inventory/ec2.py:1362-1370 | push appends to the list or to the dict's hosts |
| CloudInventory.Ec2Inventory.PushGroupTo | packaging/ansible/plugins/inventory/ec2.py:1372-1379 | push_group turns a list into a dict that keeps its hosts and adds the child once |
| CloudInventory.Ec2Inventory.Add | packaging/ansible/plugins/inventory/ec2.py:723-825 | an add method writes the index, then the groups, then the host variables, and raises in between exactly when those are gone |
| CloudInventory.FirstsIsExact | packaging/ansible/plugins/inventory/ec2.py:1377-1379 | children are free of duplicates and are what was pushed |
| CloudInventory.KeyAlone | packaging/ansible/plugins/inventory/ec2.py:1362-1379 | hosts and children of a key are its own pushes, whatever happens to other keys and however the calls interleave |
| CloudInventory.OnlyOwnSubsequences | packaging/ansible/plugins/inventory/ec2.py:1362-1379 | two runs with the same two subsequences for a key agree on it |
| CloudInventory.SinceAssigned | packaging/ansible/plugins/inventory/ec2.py:726-729 | the assignment of a group of one host drops what was pushed before it |
| CloudInventory.IndexMatchesHostVars | packaging/ansible/plugins/inventory/ec2.py:679-1162 | after any run of add methods index and hostvars have the same keys, and a run raises exactly when a resource has the id _meta |
| CloudInventory.LastResourceWins | packaging/ansible/plugins/inventory/ec2.py:723-825 | for each name index and hostvars hold the place and the variables of the last resource of that name |
| CloudGroups.InstanceFits | packaging/ansible/plugins/inventory/ec2.py:728-822 | whatever the options, an instance is put in groups under its own host name only, and every child its groups get is a group it writes to |
| InstanceGroups.InstanceIsListed | packaging/ansible/plugins/inventory/ec2.py:728-822 | whatever the inventory and the options, adding an instance lists it in exactly the groups the options promise, by their names, and nests exactly the promised ones; other hosts and children stay, but in a group with the id of the instance |
| InstanceGroups.ReplicationIsListed | packaging/ansible/plugins/inventory/ec2.py:1112-1162 | the same for a replication group |
| CloudGroups.RunsKeepInventory | packaging/ansible/plugins/inventory/ec2.py:679-826 | along a run of add methods every listed child stays a group and every listed host has variables exactly as long as the children and hosts that each method leaves are; methods whose operations fit, as those of instances do, always keep it so |
| CloudGroups.AddedIsExact | packaging/ansible/plugins/inventory/ec2.py:1362-1379 | an add method keeps every child a group, and every listed host known, exactly when the children and hosts that its operations leave are |
| CloudGroups.ReplicationGroupIsExact | packaging/ansible/plugins/inventory/ec2.py:1112-1162 | for every state in order and every configuration, adding a replication group keeps children groups exactly when engines are not nested or "redis" is a group, the id or the region, and hosts known exactly when the id is the host name or has variables |
| CloudGroups.ReplicationGroupDangles | packaging/ansible/plugins/inventory/ec2.py:1112-1162 | so a first replication group with nested engines, whose id is not its host name and nothing is called redis, leaves a child that is no group and a listed host without variables |
| PermissionChecks.ScanRoles | rbac/project.go:32-44 | the loop finds a role of the user's own that counts, or collects the teams whose role counts |
| PermissionChecks.CheckRoles | rbac/project.go:33-61 | together with the team query it decides whether the user holds a role that counts |
| PermissionChecks.ReadOrganization | rbac/organization.go:18-33 | any role of the user's own, or global read |
| PermissionChecks.WriteOrganization | rbac/organization.go:35-49 | the admin role of the user's own, or global write |
| PermissionChecks.ReadTeam | rbac/team.go:18-45 | global read, membership of the organization, or a role |
| PermissionChecks.WriteTeam | rbac/team.go:47-67 | global write, organization admin, or the admin role |
| PermissionChecks.ReadOwned | rbac/credential.go:17-62 | global read, organization admin, or any role |
| PermissionChecks.WriteOwned | rbac/inventory.go:61-100 | global write, organization admin, or a role that may write this kind |
| PermissionChecks.UpdateProject | rbac/project.go:107-142 | superuser, organization admin, or the admin or update role |
| PermissionChecks.ReadTemplate | rbac/jobtemplate.go:19-83 | the first attached credential decides alone; without one inventory, project or roles; the organization check allows nothing |
| PermissionChecks.WriteTemplate | rbac/terraformjobtemplate.go:76-120 | superuser or the admin or execute role; the organization check allows nothing |
| PermissionChecks.Database.Associate | rbac/project.go:155-167 | the role is added to the document once |
| PermissionChecks.Database.Disassociate | rbac/project.go:169-181 | the role is removed from the document |
| Permissions.AdminCheckIsRight | rbac/engine.go:16-33 | every admin of an organization passes the organization check, and only admins do exactly when there is no admin grant or every grantee has one |
| Permissions.MemberPassesAsAdmin | rbac/engine.go:16-33 | a plain member of an organization that has an admin can write to its projects |
| Permissions.WriteImpliesRead | rbac/jobtemplate.go:19-129 | on every kind of document, who may write may read exactly unless it is a template whose first credential that user, without global read, cannot read; on projects update lies between write and read |
| PermissionMeaning.WriteIs | rbac/inventory.go:61-100 | write is allowed exactly to superusers, to members of an organization with an admin where that counts, and to who has the admin role, on inventories also update, on templates also execute, of the user or, except on organizations and teams, of a team of the user |
| PermissionMeaning.UpdateIs | rbac/project.go:107-142 | a project update is allowed exactly to superusers, to members of an organization with an admin, and to who has the admin or update role |
| PermissionMeaning.ReadIs | rbac/jobtemplate.go:19-83 | read is allowed exactly to superusers and auditors, by organization or by any role, and for templates by the first credential or else by inventory, project or role |
| PermissionMeaning.UnlistedDecisions | rbac/engine.go:61-71 | who is no superuser and is in no role list writes and updates nothing, auditor or not, and reads everything or nothing as the auditor flag says |
| PermissionMeaning.AssociateIs | rbac/project.go:155-167 | the document of that id has the role afterwards and every other role as often as before; no other document changes |
| PermissionMeaning.DisassociateIs | rbac/project.go:169-181 | the same with the role gone |
| PermissionMeaning.GrantedAdminWrites | rbac/project.go:64-105 | granting a user the admin role on a document of any kind lets the user write it |
| Permissions.TemplateAdminWithoutRead | rbac/jobtemplate.go:26-36 | a template admin can be unable to read it |
| Permissions.AssociateNeverRevokes | rbac/engine.go:16-71 | no Associate on any resource turns an allowed decision on any document into a denied one, whichever way the team queries are read |
| Permissions.DisassociateUndoes | rbac/project.go:155-181 | Disassociate undoes the Associate of a role that was not there |

## Left out

- Process execution, ssh-agent, kinit, proot, temporary directories: a run is a step that ends in success or failure.
- HTTP, JSON binding, validation, links, metadata, activity log, dashboard: rendering and plumbing.
- MongoDB, Redis, mgo and rmq themselves: sequences, maps and queues under the assumptions above.
- The AES block function; a key of a wrong length, for which Cipher panics, is not modelled.
- JobLaunch.Backend.Launch: the checks of a launch request before the first insert are not modelled; they write nothing.
- JobHandlers.Consume: what a consumer writes after a rejected payload addresses the empty identifier and reaches no document.
- Cipher.Decipher: the part that Go's decoder answers for text that is not base64 is not modelled, nor that it skips line breaks.
- InventoryHandlers.Database.Tree: a query that fails half way, and the pagination of the answer.
- Cascade.OrganizationCascade: references to credentials, job templates and, inside an inventory, to groups are not among the references; those between groups and hosts are in InventoryStore.
- CascadeHandlers.Database.DeleteProject: the removal of the project's directory afterwards.
- CascadeHandlers.Database.Remove: RemoveId of a document that is already gone answers an error in the program.
- LookupMeaning.LookupsMean: values with other special characters of regular expressions, fields that hold lists, and values that are not texts.
- LookupMeaning.MatchMeans: the document that `IsNull` builds nests `$or` below the field; it is given the meaning that the comment at util/query.go:263 states, null or missing, whether or not the database accepts that form.
- Pagination.CeilingIsExact: item counts of 2^53 and more, which no list in memory reaches.
- ObjectWalk.GetObjInfo: exceptions while an attribute is walked, which the program swallows together with the attribute.
- CloudInventory.Ec2Inventory.Add: an add method is its list of group operations; those of instances and replication groups are spelled out, those of RDS instances, clusters and nodes are not.
- CloudGroups.InstanceFits: the choice of the host name and the selection by state and pattern are not modelled, and blanks around tag values are spaces only.
- PermissionChecks.CheckRoles: a store query that fails, which the program treats as finding nothing.
- The other inventory plugins, role removal in user and team deletion, HostController.AllGroups, jobCancel, elapsed times: no or no reliable effect, or simple grouping.
