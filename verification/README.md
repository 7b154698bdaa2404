# vmtop: model and proofs

`vmtop` shows the virtual machines of a host the way `top` shows processes. In
every frame it lists the pid files of the running machines, reads each machine's
counters and those of all its threads, compares them with the previous frame,
adds the vCPU threads up into their machine, optionally samples memory bandwidth,
and draws the part of the result that fits the screen. This project models that
pipeline in Dafny and proves what each stage computes and what holds over whole
program runs. Files, directories, allocation outcomes and key presses are inputs
of the model, failures included.

`dafny verify dfyconfig.toml` checks everything.

## How it is built

Code that changes state in place is modelled in place. The C heap is an explicit
map from addresses to blocks of `struct domain` records (`CHeap`): a freed block is
gone, so an access after a free or a second free has nothing to act on and the
precondition of the operation could not be proved. Every method is proved equal to
a function of the old state, and the laws are proved about those functions.

| file | what it models |
|---|---|
| `Words.dfy`, `Types.dfy`, `Text.dfy`, `Multisets.dfy` | wrapping 64-bit arithmetic; the record and its table of counters with `DELTA_FUN` and `SUM_FUN`; the C string functions the readers use; permutations |
| `Heap.dfy`, `DomainLists.dfy` | the heap, and the growable domain list with its ownership predicate |
| `Proc.dfy`, `VcpuStat.dfy`, `VcpuText.dfy` | the stat and vcpu_stat readers and the table-driven delta and sum loops |
| `Loader.dfy`, `ThreadTable.dfy`, `Leaks.dfy`, `Records.dfy` | from a pid file to a list slot, what the thread table then holds, which files cost a block, and what the records of a reachable state say in terms of the files |
| `Refresh.dfy`, `Engine.dfy`, `Runs.dfy` | the join of two frames, the double-buffered sampler, and runs of any length |
| `Aggregation.dfy`, `Conservation.dfy` | what the join means: totals, and conservation over runs |
| `Permutation.dfy`, `Orders.dfy`, `Listings.dfy` | what the order of lists and of directory entries decides, and when it decides nothing |
| `Examples.dfy`, `BandwidthCases.dfy` | concrete runs and samples for which the program shows something unexpected |
| `Resctrl.dfy`, `Bandwidth.dfy`, `BandwidthLaws.dfy`, `Frames.dfy` | bandwidth readings, nested averages, the host value, and a frame from end to end |
| `Fields.dfy`, `Viewport.dfy`, `Keys.dfy` | columns, the window onto the rows, scrolling keys and the field filter |
| `Usage.dfy` | the percentages derived from the deltas |

The counter tables, column tables and widths are those of the x86_64 branch of the
sources (`#else` of `__aarch64__`).

## Where the code does less than it seems to

Each of these is proved, with its exact condition where one is named, and the code is
modelled as it is.

- A domain rejected after its threads were read loses the thread block. This happens
  exactly for the pid files that get_qemu_id comes to, that pass every other guard of
  set_domain, and whose names have 255 characters or more (`Leaks.ListingLeaks`,
  `Leaks.FrameLeaks`, `Runs.NoLeaks`; a run that loses one: `Examples.LongNameLeaks`).
  No other block is ever lost (`Runs.SampleFrames`).
- What the thread table holds can depend on the order in which the task directory is
  listed: when more tasks can be read than the table has records, or when a task whose
  stat file cannot be read leaves its number behind in a table with room to spare.
  `Orders.OrderDecides` has the exact condition, `Examples.OrderMatters` a run in which
  a thread is shown with 0 or 100 ticks depending on it. Whole runs do not depend on the
  order of any directory if every table read is such a one, no two machines loaded have
  the same id and every record can be allocated (`Listings.RunPermuted`).
- `st_max` of a domain is summed over the vCPUs that were there in the previous frame
  only, while its deltas cover all vCPUs: `Runs.RunStMax` with the exact condition, a
  run in `Examples.StMaxMissesNewVcpu`.
- A thread that becomes a vCPU while it is matched, for instance because it was renamed,
  has its whole counter as first delta (`Runs.DeltaLaw`; a run in which a steal of 5 is
  shown for one frame: `Examples.WholeCounterFirst`).
- A name that contains an opening parenthesis is cut (`Proc.CommRecovery`).
- A column of the vcpu_stat table depends on the file alone exactly if the line has a
  number for it; with a short line, or a token that is no number, it keeps the value of
  an earlier frame's vCPU (`VcpuText.ColumnFromFile`, `VcpuText.PidFromFile`).
- The comment at `src/resctrl.c:183-186` promises the group
  `qemu-${domain_id}-${vmname}-xxx`; the test has no `-` behind the id, so a group
  of domain 12 passes for domain 1. `Resctrl.GroupMatches` and `Resctrl.GroupFound`
  say, for any directory, exactly when the right group is found, or none for a domain
  that has none; `BandwidthCases.WrongGroupShown` is a
  machine that shows the readings of another.
- `get_mon_MB` may add to some nodes and then fail; those additions stay. With at least
  one successful round the value is the average over the successful rounds exactly if
  they are too small to change the truncated quotient (`BandwidthLaws.VmFailedRounds`,
  `BandwidthLaws.HostFailedRounds`; samples for which they are not:
  `BandwidthCases.FailedRoundShown`). Without one, a VM's column is not shown, but the
  host has no such flag: it shows the undivided sum of the additions, which is right
  exactly if it is 0 (`BandwidthCases.UnreadHostShown`: 18 where every round added 6).
- `node_vms` is unsigned and 32 bits wide: a machine that reads -3 makes the host show
  almost 2^32 (`BandwidthCases.NegativeReadingWraps`; exact condition in
  `BandwidthLaws.HostColumnExact`).
- Scrolling forward on an empty list, or paging forward from near the start on a
  screen of fewer than six lines, moves `begin_task` below 1
  (`Keys.BeginTaskStaysPositive`). Paging shows every row exactly on screens of at
  least 7 lines, or if the first page already does (`Keys.PagingCovers`).
- The right-scroll limit counts the two fixed columns, so with both displayed one can
  scroll until no scrolling column is left (`Keys.ScrollRightLimit`).
- A vCPU thread is any thread with `CPU` in its name, with or without a vcpu_stat row,
  because `get_vcpu_stat` never fails on a live table (`ThreadTable.RecordContents`).
- Sums of clamped rows equal the domain's clamped row only in two extreme cases
  (`Usage.DomainRow`).

Comments and documentation that say something else than the code: `doc/FAQ:29` says
that only aarch64 is supported, yet the sources carry complete x86_64 tables; the
comment at `src/vmtop.c:70` says one second where the value is 3; KEY_UP scrolls
towards the end of the list and KEY_DOWN towards the start (`src/vmtop.c:490-508`).

## Model

| member | source | states |
|---|---|---|
| Engine.Sampler.constructor | src/vmtop.c:57-74 | start-up: both lists empty, sharing nothing, nothing lost |
| Engine.Sampler.Rotate | src/domain.c:295-299 | the current list becomes the previous one unchanged, the list before it is freed, the ownership invariant holds again and no further block becomes unreachable |
| Engine.Sampler.LoadDomains | src/domain.c:304 | loading leaves the previous list alone, keeps ownership, and loses exactly as many blocks as there are domains rejected too late |
| Engine.Sampler.RefreshDomains | src/domain.c:291-317 | the in-place frame refines the pure step: for any inputs and failures the lists become the join of what was loaded with the previous list, ownership holds, the host columns are cleared, and the result is the list length or -1 |
| Engine.LiveCount | src/domain.c:43-76 | under the invariant the number of live blocks is one for every record, one for every list that has a block of records, even one emptied by pops, and the lost ones: nothing is counted twice or missing |
| Runs.SampleFrames | src/vmtop.c:554-583 | for runs of any length: state and number of live blocks after the last frame, and no block lost if and only if no frame read had a file that costs one |
| Leaks.Outcome | src/domain.c:201-220 | which of set_domain's guards a file passes decides whether it is loaded, rejected, or rejected with a block allocated, whatever the vcpu_stat table holds |
| Leaks.ListingLeaks | src/domain.c:252-270 | a directory costs exactly as many blocks as it has entries that are come to, pass every guard but the last and have too long a name |
| Leaks.FrameLeaks | src/domain.c:301-304 | a frame loses no block if and only if it reads no such directory entry |
| Examples.LongNameLeaks | src/domain.c:214-220 | a whole one-frame run that loses a block and lists nothing |
| Runs.NoLeaks | src/domain.c:188-270 | a run of any length loses no block if and only if none of the directories it reads has an entry that passes every guard of set_domain but the length of its name |
| Runs.RunAggregated | src/domain.c:291-317 | in every reachable state the domain delta of every row of the table but pid and st_max, whatever the row, is the sum modulo 2^64 over all vCPUs, matched or not; those two have none; and the vCPU count is their number |
| Runs.RunAdmitted | src/domain.c:188-225 | in every reachable state only admitted domains are listed, and none but the monitored one if there is one |
| Records.RunRecords | src/domain.c:188-224 | in every reachable state each listed domain has the number of a pid file of its frame's directory, that file's stem as name and its stat file's counters; and each thread record in use has the number, name and counters of an entry of its task directory, a vCPU those of its vcpu_stat row |
| Records.RunTable | src/vcpu_stat.c:101-121 | after every frame the table has a row for every line of that frame's file and no others, up to 1024, with the numbers that stand there |
| Records.FailedFrame | src/domain.c:295-304 | a frame that cannot open the vcpu_stat file or the directory lists nothing and keeps the previous list |
| Records.CompleteListing | src/domain.c:262-266 | the listing is complete if and only if a record could be allocated for every pid file |
| Records.PassedOver | src/domain.c:253-261 | an entry is passed over if and only if it is no regular file or not a non-empty stem and .pid |
| Records.PidInFile | src/domain.c:198-204 | a pid file gives back the number it was written with, with or without a newline |
| Records.PidPrefix | src/domain.c:198-201 | of a longer file the first 11 characters count |
| Runs.FindStep | src/type.h:43-52 | one frame of a tracked record: its counter is what was read, and its delta follows DELTA_FUN against its previous self, or is 0 without one |
| Runs.DeltaLaw | src/domain.c:275-317 | whole-run law: the stored delta is the last non-negative increase since the record began to compute it, or 0, through any number of resets; from 0 for a thread that turned vCPU while matched |
| Aggregation.AddMatchedDelta | src/type.h:55-60 | one wrapping addition per matched vCPU equals the sum modulo 2^64 over all vCPUs |
| Aggregation.JoinAllAggregated | src/domain.c:275-314 | every frame establishes the aggregation invariant, whatever the previous list was |
| Aggregation.DomainStMax | src/vcpu_stat.c:170-181 | st_max is the sum over matched vCPUs, and over all of them if and only if the new ones contribute 0 |
| Runs.RunStMax | src/vcpu_stat.c:170-181 | the same in every reachable state, against the previous list it holds |
| Examples.StMaxMissesNewVcpu | src/vcpu_stat.c:180 | a two-frame run, files and all, after which a domain shows st_max 0 and its new vCPU 5 |
| Examples.WholeCounterFirst | src/domain.c:283-287 | a two-frame run in which a thread becomes a vCPU and has its whole steal as delta |
| Conservation.SteadyFrame | src/domain.c:275-289 | with stable vCPUs and counters that do not go back, a frame's domain delta is the increase of the counters' sum, modulo 2^64 |
| Conservation.DeltasAddUp | src/domain.c:291-317 | over any such stretch of a run the deltas add up to last minus first, modulo 2^64, and exactly if and only if each frame's increase fits |
| Permutation.PermutedIsEquivalent | src/domain.c:81-89 | lookup by unique id does not depend on list order |
| Permutation.JoinPermuted | src/domain.c:305-314 | permuting old or new domains or threads changes no per-id total and no thread's record |
| Permutation.RunEquivalent | src/domain.c:291-317 | runs that load equivalent lists in every frame stay equivalent |
| Orders.OrderDecides | src/domain.c:159-183 | a thread table holds the same records for every order of its directory if and only if the readable tasks fill it exactly, or leave room and no task is unreadable, or there is but one task |
| Listings.ListingReordered | src/domain.c:243-273 | reordering the pid files and their task directories loads the same domain for every id, if records can be allocated, ids differ and the tables are such |
| Listings.RunPermuted | src/domain.c:291-317 | under these conditions whole runs over reordered directories stay equivalent in every frame: same totals for every id, same records for every pid |
| Examples.OrderMatters | src/domain.c:166-175 | without them they need not: two runs that differ in the order of one task directory show 0 and 100 for the same thread |
| Refresh.RefreshThread | src/domain.c:277-287 | joins one thread in place and adds it to its domain exactly if it is a matched vCPU |
| Refresh.RefreshThreads | src/domain.c:275-289 | the in-place loop equals the pure join of all threads and touches nothing else |
| Refresh.JoinInPlace | src/domain.c:312-313 | record and thread block become those of the pure join |
| Refresh.RefreshDomain | src/domain.c:305-314 | one list entry is joined with the first old domain of its id; no block comes, goes or changes hands |
| Refresh.JoinFromIsJoinAll | src/domain.c:305-314 | joining one by one in place is the join of every domain with the unchanged old list |
| Refresh.JoinDomains | src/domain.c:305-314 | the nested loops refine the pure join of the two lists |
| DomainLists.DomainList.Init | src/domain.c:33-41 | empty list, cleared columns |
| DomainLists.DomainList.Clear | src/domain.c:43-55 | frees exactly the blocks the list owns, each once |
| DomainLists.DomainList.Add | src/domain.c:57-71 | the list's contents survive the move, a cleared record follows, exactly one block is exchanged; failure changes nothing |
| DomainLists.DomainList.Pop | src/domain.c:73-76 | forgets the last record |
| DomainLists.DomainList.Find | src/domain.c:81-89 | the first domain of this id, or the end |
| DomainLists.FindThread | src/domain.c:91-99 | the first thread of this pid, or the end |
| DomainLists.OwnedCount | src/domain.c:43-71 | an owning list reaches one distinct block per record and one for itself |
| DomainLists.Popped | src/domain.c:267-269 | popping keeps the list, and what was allocated for the popped slot is the only thing lost |
| DomainLists.Extended | src/domain.c:213-224 | a completed slot extends the list by its domain and its block |
| Loader.PidFileNames | src/domain.c:230-241 | accepts exactly a non-empty stem followed by .pid |
| Loader.DomainNames | src/domain.c:218-224 | a domain's name is its file's stem, so different files give different names |
| Loader.ReadTaskRecord | src/domain.c:171-181 | one task read in place: what a failure leaves behind, and what a success writes |
| Loader.ReadTaskEntry | src/domain.c:159-183 | every kind of directory entry, in place in the next slot |
| Loader.FillThreads | src/domain.c:157-183 | the loop stays within the allocated records and gives the table of the pure reader |
| Loader.GetChildPid | src/domain.c:134-186 | a fresh block with that table, or a failure that changes nothing |
| Loader.GetIdFromCgroup | src/domain.c:101-132 | the number behind the first machine name in a cpuset line, or -1 |
| Loader.CgroupIdRead | src/domain.c:116-129 | a line as libvirt writes it gives back the id it was written with |
| Loader.CgroupLineSkipped | src/domain.c:117-125 | a line that does not name a machine of a cpuset changes nothing |
| Loader.SetDomain | src/domain.c:188-225 | loaded, rejected, or rejected with a block allocated: what is on the heap in each case |
| Loader.FillRecord | src/domain.c:267-269 | the list grows by the loaded domain or stays, and at most one block is lost |
| Loader.LoadPidFile | src/domain.c:262-269 | the same from the allocation of the record on |
| Loader.LoadPidFiles | src/domain.c:252-270 | any directory: the domains listed, the number of blocks lost, and where a failed allocation stops |
| Loader.GetQemuId | src/domain.c:243-273 | appends exactly the loadable domains in directory order; result and losses |
| ThreadTable.RecordContents | src/domain.c:171-181 | where each field of a read thread comes from, and which threads are vCPUs |
| ThreadTable.TableContents | src/domain.c:152-185 | filled prefix in directory order, at most one partly written record behind it, the rest cleared, vCPU count right |
| ThreadTable.TableDetermines | src/domain.c:159-183 | without repeated numbers in the directory, a pid decides a thread's counters, unused records included |
| ThreadTable.LoadAllFresh | src/domain.c:149-183 | every loaded domain starts with zero deltas and a table as long as its nlwp |
| VcpuStat.VcpuList.GetVcpuList | src/vcpu_stat.c:92-124 | reads the file line by line into the reused table, at most 1024 rows; an unopened file changes nothing |
| VcpuStat.VcpuList.ReadLine | src/vcpu_stat.c:103-120 | the token loop sets the columns the line has and leaves all other rows alone |
| VcpuStat.VcpuList.GetVcpuStat | src/vcpu_stat.c:126-150 | copies every column but the pid from the first row of the pid |
| VcpuStat.RefreshDeltaVcpuStat | src/vcpu_stat.c:155-165 | the delta loop over the table in place, skipping pid and st_max |
| VcpuStat.SumVcpuStat | src/vcpu_stat.c:170-181 | the sum loop over the table in place, st_max last |
| VcpuText.RoundTrip | src/vcpu_stat.c:92-124 | reading a rendered table recovers every row whatever the table held, and no other row changes |
| VcpuText.LongLine | src/vcpu_stat.c:102 | more than 1022 characters without a newline are read as several lines |
| Text.LineLenIs | src/vcpu_stat.c:102 | a line ends behind its first newline, at the limit or at the end of the file |
| Text.ScanNumber | src/vcpu_stat.c:115-116 | a number is scanned behind white space and a sign, up to the first other character, saturating |
| Text.NoNumber | src/domain.c:166-170 | without a digit there is no number |
| Text.ContainsIs | src/domain.c:176 | a word is found if and only if it starts at some index |
| VcpuText.FilledColumn | src/vcpu_stat.c:111-119 | a column is the number the line has for it, and without one what the record held; nothing else is written |
| VcpuText.RowsRead | src/vcpu_stat.c:101-121 | every line goes to the record of its number, as far as there are records, and no other record changes |
| VcpuText.ColumnFromFile | src/vcpu_stat.c:111-119 | a column is the number the line has there, and it depends on the file alone if and only if there is one, over all former tables |
| VcpuText.PidFromFile | src/vcpu_stat.c:111-119 | the same for the pid |
| Proc.GetProcStat | src/proc.c:30-85 | writes the name and counters on success, nothing on failure |
| Proc.CommRecovery | src/proc.c:52-60 | the name read is the part of comm behind its last opening parenthesis, all of it if and only if there is none and it fits |
| Proc.RefreshDeltaStat | src/proc.c:87-94 | utime and stime deltas in place |
| Frames.SampleFrame | src/vmtop.c:559-562 | a whole frame: domains as by the step; VM columns are averages of this frame's samples alone, of the groups found for the listed ids; without negative readings the host value is what its own rounds added, divided by its successes if there are any, plus everything the VM columns show |
| Frames.SampleBandwidth | src/domain.c:350-379 | the same for the bandwidth call on cleared columns, and all zero without a node count |
| Resctrl.GetNumaNum | src/resctrl.c:35-66 | the largest listed node number below 16, or -1, and the node count that follows; when it is left alone |
| Resctrl.SampleNodes | src/resctrl.c:98-107 | sums and counts exactly the valid readings after the warm-up round |
| Resctrl.GetMonMB | src/resctrl.c:79-122 | which nodes get the truncated mean added, on success and on each failure: none beyond the count, none if a file cannot be opened, none from the first node on whose readings all failed; and it succeeds if and only if there is neither |
| Resctrl.AddedNothing | src/resctrl.c:88-113 | the same of the specification, for every node, count and number of rounds |
| Resctrl.AddedSecond | src/resctrl.c:98-113 | with the program's two rounds a node adds exactly its second reading, unless a file cannot be opened or its own or an earlier node's second reading failed |
| Resctrl.NodeOfName | src/resctrl.c:55-59 | a name with two digits is the node of that number, if it is below 16 |
| Resctrl.GetVmCtlPath | src/resctrl.c:146-181 | the first entry that starts with the prefix, or -1 |
| Resctrl.GroupMatches | src/resctrl.c:158-164 | any entry passes for an id if and only if it has the prefix and its digits start with that id's |
| Resctrl.GroupFound | src/resctrl.c:163-180 | in any directory what is found is the domain's first own group, or nothing if it has none, if and only if no entry that comes before has that id's digits and more; otherwise such an entry is found |
| Bandwidth.GetVmCtlBandwidth | src/resctrl.c:187-200 | a VM's columns after one sample of the group found for its id, and whether it counts |
| Bandwidth.GetRootMonBandwidth | src/resctrl.c:128-144 | the host's columns after one sample, and whether it counts |
| Bandwidth.SampleAll | src/domain.c:360-375 | accumulated values and independent success counts of host and VMs after all rounds |
| Bandwidth.AverageVm | src/domain.c:334-339 | one VM and node: average in place, add to the host |
| Bandwidth.CalculateVm | src/domain.c:332-341 | only sampled VMs are averaged and contribute |
| Bandwidth.CalculateNode | src/domain.c:330-346 | one node of all VMs, with the wrapping sum and the correction |
| Bandwidth.CalculateAllBandwidth | src/domain.c:319-348 | all nodes, each exactly once, none affecting another |
| Bandwidth.RefreshDomainsBandwidth | src/domain.c:350-379 | the whole call refines accumulation followed by averaging, or changes no column |
| BandwidthLaws.VmColumn | src/domain.c:350-379 | a VM's column is the average over its successful rounds of everything added, failed rounds included |
| BandwidthLaws.Successes | src/domain.c:363-373 | the success counts of every VM and of the host are the numbers of rounds in which every node opens and is read |
| BandwidthLaws.HostColumnExact | src/domain.c:319-348 | for any samples: the host value is its own part (what its rounds added, divided by its successes if any) plus the averages of all sampled VMs, if and only if its own part makes up for what node_vms is too large by |
| BandwidthLaws.HostColumn | src/domain.c:319-348 | without negative readings it always is |
| BandwidthLaws.HostValueExact | src/domain.c:330-346 | when the correction leaves the plain sum alone, if and only if, for any averages; and a lower bound always |
| BandwidthLaws.VmFailedRounds | src/resctrl.c:108-113 | a VM's column is the average over its successful rounds if and only if the failed rounds' additions are negligible, for readings of any sign; and what it is without a successful round |
| BandwidthLaws.HostFailedRounds | src/domain.c:327-329 | the host's own part is the average over its successful rounds if and only if the failed ones' additions are negligible, or 0 without a successful one, when it is their undivided sum |
| BandwidthLaws.AverageKept | src/domain.c:335 | when adding to a sum keeps its truncated quotient |
| BandwidthCases.FailedRoundShown | src/resctrl.c:108-113 | samples whose failed round makes a column show 3 instead of 0 |
| BandwidthCases.UnreadHostShown | src/domain.c:327-329 | samples without a successful host round that make the host show 18 |
| BandwidthCases.NegativeReadingWraps | src/domain.c:339-346 | samples that read -3 make an idle host show 2^32 - 3 |
| BandwidthCases.WrongGroupShown | src/resctrl.c:163-171 | machine 1 shows what machine 12's group reads |
| BandwidthLaws.NestedTruncation | src/resctrl.c:98-113 | nested integer averages never exceed the exact mean of means and lose less than 2, for any positive sample counts |
| BandwidthLaws.VmAverageBound | src/domain.c:335 | with the counts the program uses the loss is less than 1 |
| BandwidthLaws.HostAverageBound | src/domain.c:327-329 | with all rounds successful the host's own part is the truncated mean of its readings: at most the mean, and above it minus 1 |
| Fields.FitsExactly | src/vmtop.c:345-354 | a prefix of the shown columns fits the width if and only if it is no longer than the drawn one |
| Fields.LongestFitUnique | src/vmtop.c:167-176 | header and rows, both drawing a longest fit, draw the same columns |
| Fields.NineColumns | src/field.c:43-120 | at start-up a screen shows id, name, pid, %CPU, EXTsum, EXTeptv, EXTpau, S and P and no more if and only if it has 76 to 83 columns |
| Viewport.Screen.ShowHeader | src/vmtop.c:157-180 | node flags follow the resctrl switch; the header is the longest fitting prefix of the shown columns |
| Viewport.Screen.PrintHeader | src/vmtop.c:167-176 | the short-circuit counter selects by rank and the cut-off is the longest fit |
| Viewport.Screen.PrintTask | src/vmtop.c:345-354 | the same for a row |
| Viewport.Screen.ShowTask | src/vmtop.c:334-357 | counts every row and draws it if and only if it is in the window |
| Viewport.Screen.ShowDomainsThreads | src/vmtop.c:359-371 | continues the traversal through a domain's threads |
| Viewport.Screen.ShowDomains | src/vmtop.c:373-385 | the rows drawn are the window's slice of the flattened list, in order, all with the same columns, and the final count is the number of rows |
| Viewport.WindowRows | src/vmtop.c:338-342 | that slice is contiguous and holds row t if and only if t is in the window |
| Viewport.PageRows | src/vmtop.c:338-342 | a page starts at the first row and has four rows less than the screen has lines, or what is left of them |
| Viewport.RowOf | src/vmtop.c:364-382 | where every record stands among the rows: a domain before its threads, in list order |
| Viewport.Screen.ShowFrame | src/vmtop.c:567-568 | header and rows together: every line drawn has exactly the header's columns |
| Viewport.Screen.GetTaskNum | src/domain.c:381-390 | the number of rows of the flattened list in thread mode |
| Keys.ShowFilter | src/vmtop.c:430-471 | a column's flag is flipped if and only if space was pressed on it an odd number of times |
| Keys.FieldReached | src/vmtop.c:443-460 | k times down, or up, and space flips exactly field k, counted from the start, or from the end |
| Keys.GetShowFieldNum | src/field.c:124-134 | the number of displayed columns |
| Keys.ParseKeys | src/vmtop.c:473-534 | what each key does to position, mode, flags and columns, fall-through included, and that nothing else changes |
| Keys.TaskNumIsRows | src/vmtop.c:491 | in either mode the scroll limit is the number of rows drawn |
| Keys.ReachableRows | src/vmtop.c:364-370 | in every reachable state a domain has nlwp thread records, as the drawing loop assumes |
| Keys.BeginTaskStaysPositive | src/vmtop.c:486-509 | exactly when a key moves the first row below 1 |
| Keys.ScrollBack | src/vmtop.c:490-509 | exactly when scrolling back undoes scrolling forward |
| Keys.PageBack | src/vmtop.c:486-509 | a page up after a page down leads back if and only if the page was not cut short or started at the first row |
| Keys.LineBack | src/vmtop.c:490-509 | the same for a line |
| Keys.LinesPressed | src/vmtop.c:490-509 | k line keys move k lines, up to the ends of the list |
| Keys.PageIsLines | src/vmtop.c:486-509 | a page key is as many line keys as the screen has lines, less six |
| Keys.FieldBack | src/vmtop.c:510-524 | exactly when left undoes right, and right undoes left |
| Keys.FieldStep | src/vmtop.c:510-524 | the column keys move by one, within their limits |
| Keys.OtherKeys | src/vmtop.c:525-532 | which keys leave rows and columns where they are, and that the thread key starts again |
| Keys.PagingArrives | src/vmtop.c:486-498 | n - 1 page-downs reach the last row on screens of at least 7 lines |
| Keys.PagingCovers | src/vmtop.c:486-498 | page-downs from the first row show every row if and only if there are 7 lines or the first page holds all |
| Keys.NothingShown | src/vmtop.c:338-342 | exactly when any row is drawn |
| Keys.ScrollRightLimit | src/vmtop.c:517-524 | exactly when a scrolling column is left at the right limit |
| Usage.RowsBounds | src/vmtop.c:182-189 | thread rows add up to at most the time used and at most one CPU per vCPU, with equality exactly in the extreme cases |
| Usage.WholeDelay | src/vmtop.c:284-285 | a whole delay spent is 100 percent |
| Usage.DomainRow | src/vmtop.c:282-289 | in every reachable state, if the vCPU deltas add up within 64 bits, a domain's row is at least the sum of its threads' rows, equal if and only if no vCPU exceeds, or every vCPU reaches, the cap |
| Usage.DomainHyp | src/vmtop.c:290-297 | a domain's wrapped hypervisor time is the sum of its vCPUs' modulo 2^64, and the true integer if and only if that is a u64 |

## Left out

- Loader.SetDomain: a pid file that is empty counts as one without a number; the program then parses an unset buffer.
- Proc.GetProcStat: of the fields behind the name only ppid, nlwp, utime and stime are kept, and they are inputs instead of being scanned; a stat text without parentheses is excluded.
- Text.Atoi: numbers beyond the C type are not modelled.
- Loader.CgroupIdRead: ids within the C int, for the same reason.
- Resctrl.GetVmCtlPath: path names are not built, so their truncation at 512 characters is not modelled.
- Resctrl.GetMonMB: sums of readings are unbounded integers; overflow of `long` is not modelled.
- Bandwidth.CalculateAllBandwidth: the same for the accumulated columns; only `node_vms` has its 32 bits.
- Frames.SampleFrame: when bandwidth is sampled, at most 1024 domains, the size of the program's array of success counts; beyond it the program has no defined behaviour.
- Frames.SampleBandwidth: the same.
- Bandwidth.RefreshDomainsBandwidth: the same.
- Usage.DomainRow: percentages are reals instead of doubles, and the delay is positive although the program accepts 0; the %CPU column is not modelled.
- Viewport.Screen.ShowTask: the characters printed in a cell, colours and cursor movements are not modelled, only which record and which columns.
- Runs.SampleFrames: the display loop count, the quit test and option parsing around the frames.
- Addresses are never reused after a free, and a block holds whole records; the static vCPU table, allocated once and never freed, is an array outside the heap.
- The bandwidth columns of a record are separate objects paired with the list entries of the frame, because no other code reads or writes them.
- Record fields without deltas or a role in the join (state, processor, memory sizes and the like), and the aarch64 tables.
- The summary lines, the filter dialog's drawing, time strings, help and version texts, and open file descriptors.
