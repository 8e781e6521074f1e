# Verified models of pmacs

Models, in Dafny, of five parts of the pmacs editor, and proofs of what they promise.
`dafny verify dfyconfig.toml` checks all of it, under the resource limit that file sets.

**Buffer names.** A buffer that visits a file or lists a directory is shown by the shortest
trailing part of its path that no other open path shares, and buffers on one path are told
apart by `<2>`, `<3>`, and so on. The registry keeps an index (how many buffers hold each name,
how many paths have it and the xor of their ids, which path each name shows, which names are
reserved) and at each event renames only the paths the event can move. The main theorem is that
after every event the names are those of the whole session named at once, with the names held
before as the ones to keep, exactly when no buffer named by a path shows another's name; and that
only one kind of insertion can bring such a clash about.

- `NameText`, `BufferNames`, `HolderNaming`, `SessionNames`: names, and naming a session at once.
- `XorSets`, `NameIndex`, `IndexMembers`, `IndexSteps`, `IndexMarks`, `IndexFiling`, `IndexCounts`:
  the index, that each step keeps it exact, and that each step marks what it can move.
- `PathNaming`, `Settling`, `SettlePlan`, `SettleRun`, `SettleLoop`, `SettleEnds`, `SettleClashes`:
  naming the marked paths until none is left, and which names then clash.
- `RegistrySteps`, `SessionAgreement`, `EventFiling`, `RegistryEvents`, `RegistryOrder`,
  `RegistryRuns`, `RegistryActs`, `RegistryInsert`, `InsertClash`, `ClashRun`, `BufferRegistry`:
  the registry's events.

**Autosave.** Recovery copies are staged by the main thread, installed in batches by a background
thread, and retired while a batch may still be landing. The model is a step machine over a disk
map, in which copies land one at a time at any moment and any file operation may fail; the
specification is a machine that writes and removes at once.

- `Recovery`, `RecoveryInvariants`, `RecoveryProtection`, `RecoveryCrash`, `RecoverySync`,
  `RecoveryRuns`, `RecoveryPasses`, `AutosaveCache`.

**The ANSI parser.** A byte-at-a-time machine over control sequences, operating system commands
and UTF-8 text, in a line-oriented and a full-screen profile.

- `Utf8`, `CsiParams`, `CsiGroups`, `AnsiEvents`, `AnsiMachine`, `ByteSteps`, `AnsiChunks`, `AnsiText`,
  `AnsiMirror`, `AnsiLimits`, `AnsiControls`, `AnsiSequences`, `AnsiTables`, `AnsiOverruns`, `AnsiParser`.

**A buffer's history.** Undo and redo with typed merging and command collapse, marks, the change
a remote import makes, and the undo stacks of several sources on one buffer.

- `RopeEdits`, `BufferHistory`, `BufferMarks`, `TextBuffer`, `RemoteDiff`, `UndoStacks`,
  `UndoArbiter`.

**The job table.** Allocation under a superseding key, the tick that drains the reply bus, stream
batches and results.

- `JobTable`, `StreamEnds`, `JobOutcomes`, `AsyncRuntime`.

`Options` is for values that may be missing, and `Sealing` keeps large predicates shut where they are
only handed on.

Objects the source changes in place are classes here (`BufferRegistry`, `AutosaveCache`,
`CsiCollector`, `AnsiParser`, `Buffer`, `SourceStacks`, `Runtime`); each method is proved against a
function of the old state, and the theorems are about those functions, over every run.

## Findings

- `BufferRegistry::insert` does not always leave the names its tests promise. A buffer named by its
  path that is inserted while carrying a name, where that name is a `<N>` another path's buffer holds
  and also the name its own path is to be shown by, is left as it is, and so is the other buffer: two
  buffers then show one name. `BufferRegistry.Insert` states that this is the only way to bring a clash
  about, and exactly when it does; `ClashRun.InsertCanClash` gives a run. Removing or renaming the
  buffer sets the session right (`ClashRun.RemoveHeals`). `RegistryRuns.ClashesExactly` says of every
  event, in accord or not, which buffers clash after it. `insert_for_path` clears the name first and
  brings no clash about.
- An autosave pass retires the old copy of a buffer that moved before it writes the new one. When a
  write before it fails the pass stops, and the moved buffer is left recorded as written with no copy.
  `RecoveryProtection.PassCoversExactly` states exactly when a pass protects, and
  `RecoveryRuns.MovedIsUnprotected` gives a run in which it does not.
- A recovery file that cannot be looked for counts as absent, and a modified buffer of that path
  overwrites it. `RecoveryCrash.PassKeepsExactly` states exactly when a pass leaves it alone: unless its
  look fails, a modified buffer wants its key, and the pass is not stopped by a write that fails before
  or at that key. `RecoveryRuns.UnlookedForIsLost` gives a run in which it is lost.
- The root as a file and the root as a directory have the one name `/`, so they are one path to the
  index. `BufferNames.WholeIsUnshared` says that these are the only two paths spelt alike.
- A frontend that holds the full 10,000 undo groups and is typing loses its oldest group when the
  daemon edits, because its run is closed and needs room. `UndoStacks.OthersLeaveWork` says that
  nothing else another source does takes away what a frontend can undo, and `UndoStacks.WorkCanBeLost`
  gives a run.
- A right-leaning mark can pass a left-leaning one inside an edit. `RopeEdits.OrderKept` states
  exactly when.
- A control sequence whose final byte is the one byte over the limit does not end there: the text after
  it is swallowed up to the next byte that could end a sequence. `AnsiControls.CsiRead` says of whatever
  bytes stand before that byte that this happens exactly when they are well formed, the
  switch of the alternate screen among them (`AnsiSequences.SwitchRead`); `AnsiOverruns.TextAfterIsLost`
  says what is lost. An escape sequence fails the same way (`AnsiControls.EscRead`,
  `AnsiOverruns.TextAfterEscapeIsLost`), and so does an operating system command whose BEL, ESC or
  closing backslash is the byte too many, which loses the text up to the next BEL or ESC (`OscTooLong`,
  `StringTooLong`, `TextAfterOscIsLost` and `TextAfterStringIsLost`; `OscRead` and `StringRead` within
  the limit).
- Settling takes at most three rounds; the source asserts eight.

## Model

| member | source | states |
|---|---|---|
| NameText.SuffixedInjective | src/buffer_names.rs:162-168 | `base<N>` fixes both the base and the number: two such names are equal only if both are. |
| NameText.IsSuffixedExactly | src/buffer_names.rs:162-168 | The digit test accepts a name for a base if and only if it is that base followed by `<N>` for some N of at least two, written in plain decimal. |
| NameText.WithoutSuffixOfSuffixed | src/buffer_names.rs:247-253 | Cutting a suffix undoes adding one. |
| NameText.JoinInjective | src/buffer_names.rs:266-277 | Components without a slash can be read back from their joined spelling. |
| NameText.GroupOfSplit | src/buffer_names.rs:239-245 | The group read off a name is its last component, with the slash of a directory. |
| BufferNames.GroupOfMember | src/buffer_names.rs:71-88 | The group is the same for every name a path can be shown by, so it can be read off any of them. |
| BufferNames.NameOfShown | src/buffer_names.rs:266-277 | Rendering at a depth joins that many trailing components, leads with a slash only at the whole path, and ends with one only for a directory. |
| BufferNames.SharedName | src/buffer_names.rs:51-88 | Two paths that share a name have it at the same depth and share every shorter one; if it is the whole of either, they are the same path or both the root. |
| BufferNames.WholeIsUnshared | src/buffer_names.rs:85-88 | A path has another's whole name if and only if the two are the same path or are the root as a file and as a directory, and just those are spelt alike at every depth. |
| BufferNames.NameDepth | src/buffer_names.rs:102-125 | The depth chosen is the least whose name is neither shared nor reserved, or the whole path when there is none. |
| BufferNames.BaseUnshared | src/buffer_names.rs:102-125 | A path's chosen name is not any name of another open path, whatever is reserved. |
| BufferNames.BasesDiffer | src/buffer_names.rs:102-125 | No two open paths are given one name. |
| BufferNames.GrownIsBase | src/buffer_names.rs:472-495 | Growing every colliding name a component at a time stands still exactly when each path has the name chosen for it alone. |
| BufferNames.GrowingEnds | src/buffer_names.rs:501-520 | Growing in step reaches those names within as many rounds as the longest path has components. |
| HolderNaming.NextFree | src/buffer_names.rs:145-160 | The search for a free `<N>` ends, at the least number from its start whose name is free. |
| HolderNaming.HolderNamesOwn | src/buffer_names.rs:127-160 | The keeper gets the plain name; every other holder gets a `<N>` of it that nobody else has. |
| HolderNaming.HolderNamesDistinct | src/buffer_names.rs:127-160 | The holders of one path get different names. |
| HolderNaming.HolderNamesLowest | src/buffer_names.rs:145-160 | A holder that could not keep its number gets one below which every number is taken. |
| HolderNaming.HolderNamesStable | src/buffer_names.rs:127-160 | Names given by the rule and not taken elsewhere are given again unchanged. |
| HolderNaming.HolderNamesAgree | src/buffer_names.rs:127-160 | The names given depend only on which `<N>` of this base are taken. |
| HolderNaming.HolderNamesExactly | src/buffer_names.rs:113-160 | The names are those the rule gives and no others follow it. If no reserved name is in the way, the first holder of the plain name shows it or, where none holds it, the first holder. Every other holder of a `<N>` that nobody else has, and that no holder before it claims, keeps it. Each of the rest, in order, takes the least `<N>` that is not taken, kept or given before. |
| HolderNaming.NameHolders | src/buffer_names.rs:127-160 | The two loops, keeping what can be kept and then filling the gaps upward, give the rule's names. |
| SessionNames.DeriveNames | src/buffer_names.rs:188-229 | Indexing the paths, counting the names, choosing a base per path and naming its holders gives every request the name the session as a whole decides. |
| SessionNames.DerivedUnique | src/buffer_names.rs:188-229 | A session decides its names: no two answers are right. |
| SessionNames.DerivedDistinct | src/buffer_names.rs:188-229 | No two buffers named by a path have one name. |
| SessionNames.DerivedOwn | src/buffer_names.rs:188-229 | Each name is its path's base or a `<N>` of it, and is no reserved name. |
| SessionNames.DerivedKept | src/buffer_names.rs:113-229 | In a session named at once a buffer shows its path's plain name exactly if it is the one to (the first of the path's buffers to hold it or, where none does, the first), and a buffer that holds a `<N>` of its path, which no reserved or plain name is and no earlier buffer of the path claims, keeps it. |
| SessionNames.DerivedLowest | src/buffer_names.rs:145-229 | Every other buffer takes the least `<N>`: a lower one is reserved, a plain name, kept by a buffer of the path or given to one before it. |
| SessionNames.DerivedAgain | src/buffer_names.rs:188-229 | Naming the session again from the names it was given changes nothing. |
| XorSets.XorUndo | src/buffer_registry.rs:179-274 | Xor is its own inverse, so an id taken out of the accumulator leaves what was there. |
| XorSets.XorOfAdd | src/buffer_registry.rs:190-198 | Folding in a new id gives the accumulator of the larger set, whatever the order. |
| NameIndex.CountsUp | src/buffer_registry.rs:150-157 | Counting up keeps every count equal to the number of buffers with that name. |
| NameIndex.CountsDown | src/buffer_registry.rs:159-166 | Counting down keeps them so, and drops a name nobody holds. |
| NameIndex.SharedIsMany | src/buffer_registry.rs:124-134 | A name is shared by two paths exactly when more than one path id has it. |
| NameIndex.SoleHolder | src/buffer_registry.rs:124-134 | When one path is left with a name, the xor of the ids is that path's id. |
| NameIndex.WithInGroup | src/buffer_registry.rs:124-134 | Every path with a name lies in that name's group, so a group's own count is the session's. |
| NameIndex.ReservedChanged | src/buffer_registry.rs:276-302 | Marks the paths of the two groups a reserved name can touch. |
| NameIndex.ReservedMarked | src/buffer_registry.rs:276-302 | Whenever a name becomes reserved or free, every path it can move is marked: its sole holder, and the path it is a `<N>` of. |
| NameIndex.DerivedChanged | src/buffer_registry.rs:304-317 | Marks the path a derived name is a `<N>` of. |
| NameIndex.DerivedMarked | src/buffer_registry.rs:304-317 | The path whose base the name is a `<N>` of is always among them. |
| NameIndex.DerivedMarkedOnly | src/buffer_registry.rs:304-317 | And nothing else is. |
| NameIndex.ShareNames | src/buffer_registry.rs:190-203 | Joining folds the path's id into each of its names and marks whoever was shown by one of them. |
| NameIndex.UnshareNames | src/buffer_registry.rs:249-267 | Leaving takes it out again and marks the path left alone with a name. |
| IndexMembers.WithHolderSorted | src/buffer_registry.rs:184-186 | A holder is put in so that a path's holders stay in the registry's order. |
| IndexMembers.WithoutAtSorted | src/buffer_registry.rs:234-236 | Taking one out keeps that order and every other holder. |
| IndexSteps.Joined | src/buffer_registry.rs:187-221 | A new path leaves each group with exact counts and xors, one name per path and one path per id. |
| IndexSteps.Left | src/buffer_registry.rs:241-273 | So does the departure of a path's last holder, and an empty group is dropped. |
| IndexSteps.Renamed | src/buffer_registry.rs:625-636 | So does filing a path under another depth. |
| IndexFiling.JoinOk | src/buffer_registry.rs:179-221 | After a join the whole index is exact, whether or not the path was open. |
| IndexFiling.LeaveOk | src/buffer_registry.rs:223-274 | After a leave it is exact, whether or not another buffer holds the path. |
| IndexMarks.JoinMarked | src/buffer_registry.rs:197-203 | When a join makes a name shared, the path shown by it is marked. |
| IndexMarks.LeaveMarked | src/buffer_registry.rs:258-264 | When a leave frees a name for one path alone, that path is marked. |
| IndexFiling.JoinReady | src/buffer_registry.rs:179-221 | After a join every path not marked is still named by the rule. |
| IndexFiling.LeaveReady | src/buffer_registry.rs:223-274 | After a leave every path not marked is still named by the rule. |
| IndexCounts.FileExplicitReady | src/buffer_registry.rs:518-529 | After a name becomes reserved every path not marked is still named by the rule. |
| IndexCounts.UnfileExplicitReady | src/buffer_registry.rs:531-548 | After a name is no longer reserved, likewise. |
| IndexCounts.UnfileDerivedReady | src/buffer_registry.rs:531-548 | After a path-named buffer is unfiled, likewise, and its name troubles no path. |
| RegistrySteps.Join | src/buffer_registry.rs:179-221 | The index's join, step by step, makes the filed index and marks described by the join above. |
| RegistrySteps.Leave | src/buffer_registry.rs:223-274 | The index's leave, step by step, makes the index and marks described by the leave above. |
| RegistrySteps.RenameHolders | src/buffer_registry.rs:637-647 | Renaming a path's holders keeps the counts exact, remembers the name each held when the event began, lists every name that came or went, and touches nothing else. |
| RegistrySteps.NamedFrom | src/buffer_registry.rs:550-572 | Naming a path marks, of the other paths, exactly those one of whose `<N>` names came or went. |
| PathNaming.EntryDepthIs | src/buffer_registry.rs:585-593 | The depth read off the group's counts is the depth the whole session decides. |
| PathNaming.EntryTaken | src/buffer_registry.rs:594-606 | The names counted as taken are those held by buffers other than the path's own. |
| PathNaming.NameEntry | src/buffer_registry.rs:574-648 | Naming a marked path gives its holders the rule's names against the names in use, by the names held when the event began. |
| Settling.FormedAgree | src/buffer_registry.rs:550-572 | Once every path has been named against some names or other, naming one against those in use gives the final names. |
| SettleRun.Step | src/buffer_registry.rs:550-572 | Naming any marked path keeps each path that is not marked one that naming again would not change, one that no change reaches, or one due to be marked by a path still to be named. |
| SettleRun.SparedStep | src/buffer_registry.rs:550-572 | A path that no marked path can move stays so, with the names it had, whichever path is named next. |
| SettleLoop.NameRound | src/buffer_registry.rs:550-572 | One round, visiting the marked paths in any order, carries the naming one stage on. |
| SettleEnds.Settle | src/buffer_registry.rs:550-572 | Settling ends, in at most three rounds (the source asserts eight), in accord or not: every path is named by the rule, a path no change reached keeps the names it had, naming any other again would change nothing, and only names changed. |
| SessionAgreement.SettledAgrees | src/buffer_registry.rs:897-961 | A settled index names the session as naming it all at once does. |
| SessionAgreement.AgreeingDistinct | src/buffer_registry.rs:963-1010 | In such a session no two buffers show one name, unless both have it of their own. |
| SessionAgreement.AgreeingKept | src/buffer_names.rs:113-160 | So a registry that agrees with naming the session at once shows the plain names where they are due, and leaves every buffer the `<N>` it held and may keep. |
| SettleClashes.EndHeld | src/buffer_registry.rs:550-572 | What settling ends in, in every session: a path no change reached has the names it had, and every other the names the whole session decides. |
| SettleClashes.OneEnd | src/buffer_registry.rs:550-572 | So the end does not depend on the order in which the marked paths are taken. |
| SettleClashes.ClashWas | src/buffer_registry.rs:550-572 | Two buffers that show one name in the end both had it when settling began, one of them for a `<N>` of a path no change reached. |
| SettleClashes.ClashExactly | src/buffer_registry.rs:550-572 | They do if and only if one of them had the other's name for a `<N>` of its path, and no change reaches that path. |
| SettleClashes.NoClashFinal | src/buffer_registry.rs:550-572 | With no name clashing every path is named as the whole session decides. |
| RegistryEvents.OneAgreement | src/buffer_registry.rs:897-961 | A session's names, when they are those of the whole session named at once, are decided by the session before the event. |
| RegistryRuns.Conclude | src/buffer_registry.rs:550-572 | The end of every event: the names are those of the whole session named at once exactly if none clash, and two buffers clash only if they did before, by a name excused. |
| RegistryRuns.OneOutcome | src/buffer_registry.rs:550-572 | What an event leaves does not depend on the order in which marked paths are taken, in accord or not. |
| RegistryRuns.ClashesExactly | src/buffer_registry.rs:550-572 | After any event two buffers, one named by a path, show one name if and only if one of them had the other's for a `<N>` of its path and nothing the event changes reaches that path. |
| EventFiling.File | src/buffer_registry.rs:518-529 | Filing a buffer joins its path, or reserves its name. |
| EventFiling.Unfile | src/buffer_registry.rs:531-548 | Unfiling a buffer takes back just that. |
| EventFiling.FiledKeeps | src/buffer_registry.rs:518-529 | Filing keeps the index exact and every path not marked in order, but for the name the buffer brings. |
| EventFiling.UnfiledKeeps | src/buffer_registry.rs:531-548 | Unfiling keeps both, and leaves the name it gave up troubling no path. |
| RegistryActs.RefileAll | src/buffer_registry.rs:490-516 | Refiling the buffers named, skipping those whose path has not changed, leaves every buffer filed under its path, and excuses no clash but those among the buffers other than the first refiled. |
| RegistryOrder.OrderInserted | src/buffer_registry.rs:337-357 | The registry's order agrees with the buffers' places when one is inserted or moved to the end. |
| RegistryOrder.OrderRemoved | src/buffer_registry.rs:404-435 | And when one is removed. |
| RegistryInsert.PutFiled | src/buffer_registry.rs:337-357 | An inserted buffer is involved in a clash only if its path is to be shown by the name it carries and a buffer of another path carries it too; in a session in accord, a new id that does, is. |
| RegistryInsert.OnlyItsOwn | src/buffer_registry.rs:337-357 | Any clash an insertion makes is the inserted buffer's: without it, only names that clashed before do. |
| BufferRegistry.BufferRegistry.constructor | src/buffer_registry.rs:323-335 | An empty registry is valid and in accord: no two buffers, one named by a path, show one name. |
| BufferRegistry.BufferRegistry.Insert | src/buffer_registry.rs:337-357 | The names are those of the whole session named at once, given the names held before, if and only if none clash. Unless the buffer's path is to be shown by a name it carries and a buffer of another path carries too, none clashes that did not among the others; and if it is, then for a new id in a session in accord one does. For every id and session, two buffers clash if and only if one had the other's name for a `<N>` of its path and nothing the insertion marks can reach that path. Only names of path-named buffers change. |
| BufferRegistry.BufferRegistry.InsertForPath | src/buffer_registry.rs:359-367 | The names are those of the whole session named at once if and only if none clash, and none does that did not among the other buffers; so from a session in accord they always are. |
| BufferRegistry.BufferRegistry.Create | src/buffer_registry.rs:369-378 | The same, with the buffer's own name reserved. |
| BufferRegistry.BufferRegistry.Get | src/buffer_registry.rs:380-388 | The buffer behind the id, or the error naming the id. |
| BufferRegistry.OriginNamed | src/buffer.rs:757-764 | Between events, clashes or not, every buffer named by a path shows one of that path's own names or a `<N>` of one: the directory it lists if it lists one, else its file. |
| BufferRegistry.SlashTells | src/buffer_names.rs:266-277 | A name of a directory ends in a slash, or in a slash and a `<N>`; no name of a file ends in a slash. |
| BufferRegistry.BufferRegistry.Remove | src/buffer_registry.rs:404-435 | Refuses a missing buffer and one being edited, changing nothing; otherwise returns it, and the rest are named as the whole session at once if and only if none clash, and none does that did not among the rest: removing a clashing buffer sets the session right. |
| BufferRegistry.BufferRegistry.NameByPath | src/buffer_registry.rs:437-450 | Binds the file, or reports the missing id; the names are those of the whole session named at once if and only if none clash, and none does that did not, among the other buffers if the path is a new one. |
| BufferRegistry.BufferRegistry.NameByDirectory | src/buffer_registry.rs:452-467 | The same for a directory: whether or not any names clash the buffer then shows a name of that directory, even if it has a file too. |
| BufferRegistry.BufferRegistry.SetName | src/buffer_registry.rs:469-488 | The name is kept as given; the paths it displaces are named as the whole session is if and only if none clash, and none does that did not among the other buffers. |
| BufferRegistry.BufferRegistry.SetFilePath | src/buffer_registry.rs:390-402 | A path changed behind the registry's back renames nothing and is remembered as stale. |
| BufferRegistry.BufferRegistry.RefreshNames | src/buffer_registry.rs:490-516 | Given at least the stale buffers, the names are those of the whole session named at once if and only if none clash, and none does that did not as the buffers were filed. |
| ClashRun.InsertCanClash | src/buffer_registry.rs:337-357 | A run of three insertions after which buffers of two different files show one name. |
| ClashRun.RemoveHeals | src/buffer_registry.rs:404-435 | And a fourth step, removing the third buffer, after which the session is in accord again. |
| RecoveryRuns.RunInv | src/autosave.rs:131-183 | In every run, under any failures: each key is staged once and in the batch once, what the batch has met is on disk or failed, every staged copy is its key's owner's, every key in the batch is owned or retiring, and a key both owned and retiring has a newer copy staged. |
| RecoveryRuns.RunRefines | src/autosave.rs:255-305 | In every run in which nothing fails the staged machine is the synchronous one, and whenever nothing is staged or in flight the disk is what immediate writes and removals in program order leave. |
| RecoveryRuns.RunReports | src/autosave.rs:467-545 | And every pass reports the counts written, blocked and conflicted that the synchronous machine would. |
| RecoverySync.LandingDecidesNothing | src/autosave.rs:726-819 | What a pass decides does not depend on how far the installer has got, even when a copy fails to land. |
| RecoverySync.AbsRetire | src/autosave.rs:255-273 | Retiring a key that may still be landing amounts to removing it at once. |
| RecoverySync.AbsTake | src/autosave.rs:275-305 | Taking the installer back, waiting or not, changes nothing the synchronous machine can see. |
| RecoverySync.AbsBegin | src/autosave.rs:556-589 | Nor does handing the staged copies over, whether or not the thread could be spawned. |
| RecoverySync.AbsSettle | src/autosave.rs:647-675 | Nor does settling. |
| RecoverySync.AbsPass | src/autosave.rs:467-545 | A pass, staged or immediate, is the synchronous pass. |
| RecoverySync.AbsAdopt | src/autosave.rs:832-877 | Adopting is the synchronous adoption. |
| RecoverySync.AbsDiscardBuffer | src/autosave.rs:910-962 | Discarding a buffer's copies is the synchronous removal of just the keys it owns. |
| RecoverySync.GatherAhead | src/autosave.rs:726-819 | Looking at the disk with the staged and landing copies in mind finds what the synchronous disk holds, for every key nobody owns. |
| RecoveryPasses.GatherExactly | src/autosave.rs:740-819 | A pass writes, in the buffers' order, exactly the unsaved buffers whose key no other buffer owns or was queued for before, is owned or has no file this session did not write, and is not recorded with their revision; it blocks and finds in conflict as many as do not meet the second and the first; and it retires exactly the keys that buffers written elsewhere leave. |
| RecoveryPasses.PassRecords | src/autosave.rs:514-545 | Whatever fails, a pass records for each buffer it writes its key and revision, and leaves every other live buffer's record as it was. |
| RecoveryPasses.PassForgets | src/autosave.rs:497-513 | And it forgets every buffer that is gone. |
| RecoveryPasses.PassSaves | src/autosave.rs:514-545 | The newest copy at the key of a buffer it writes is the buffer's text, and the key is the buffer's. |
| RecoveryPasses.PassReports | src/autosave.rs:467-545 | It reports how many buffers it wrote, blocked and found in conflict, or the key of the first whose copy could not be written. |
| RecoveryPasses.PassKeepsUp | src/autosave.rs:726-819 | After a pass in which no write failed, every unsaved buffer neither blocked nor in conflict is recorded at its key with the revision it has. |
| RecoveryPasses.SyncPassWrites | src/autosave.rs:514-545 | Once all that is pending is carried out, the key of a buffer written holds its text and is its own. |
| RecoveryPasses.SyncPassElse | src/autosave.rs:491-513 | And every other key has lost its file and its owner if a buffer moved from it or died with it, and is as it was if not. |
| RecoveryPasses.DiscardPathIs | src/autosave.rs:879-894 | Discarding a path's copy leaves no owner, record or staged copy at its key, and no file but one that cannot be removed or goes with the batch; nothing else changes. |
| RecoveryPasses.DiscardBufferIs | src/autosave.rs:910-956 | Discarding a buffer's copies does that to the keys it owns of the one it is recorded at and the one it is at now, forgets its record, and changes nothing else. |
| RecoveryPasses.AdoptIs | src/autosave.rs:832-877 | Adopting settles first, then makes the key the buffer's and records it, taking it from any other buffer; no file changes. |
| RecoveryPasses.SettleTells | src/autosave.rs:647-660 | Settling succeeds exactly when nothing failed and nothing was left to tell, and counts what it installed; else its error tells every failure, under the first. |
| RecoveryPasses.CollectTells | src/autosave.rs:625-633 | So does collecting a finished installer, which says too whether the last pass wrote all it had to. |
| RecoveryPasses.CollectNothing | src/autosave.rs:275-305 | Collecting with no finished installer waits for nothing, changes nothing and tells only what was left to tell. |
| RecoveryPasses.QuietTells | src/autosave.rs:665-675 | Settling where nobody can be told does the same as settling and keeps every failure to be told. |
| RecoveryPasses.InstallMakes | src/autosave.rs:213-236 | Installing here, each staged copy is in its place or is told to have failed, and no other file changes. |
| RecoveryPasses.InstallForgets | src/autosave.rs:238-249 | The records that go are exactly those of the copies that failed, at the revision that failed. |
| RecoveryPasses.BeginMakes | src/autosave.rs:556-589 | An installer begins with exactly the staged copies, when there are some and there is none yet; else nothing happens, or they are installed here. |
| RecoveryPasses.RunSummed | src/autosave.rs:308-315 | In every run at most the first report still to tell sums up others, so none is counted wrongly. |
| RecoveryRuns.RunProtects | src/autosave.rs:238-249 | In every run whose failed writes leave no moved buffer behind, under any install failures and panics, a buffer recorded as written owns its key and the newest copy for it is that very revision. |
| RecoveryProtection.PassCoversExactly | src/autosave.rs:484-545 | A pass keeps every recorded buffer protected if and only if no buffer that moved to another path is left unwritten by a failed write. |
| RecoveryRuns.MovedIsUnprotected | src/autosave.rs:491-528 | A run in which protection is lost: a pass, the buffer moved to another path, and a pass whose write there fails, after which it counts as written where it no longer has a copy and no key of its own. |
| RecoveryProtection.TakenCovers | src/autosave.rs:275-305 | A batch that failed in part, or whose thread panicked, is absorbed so that no record outlives its copy. |
| RecoveryProtection.InstallCovers | src/autosave.rs:213-236 | Installing the staged copies here protects as much, the failed ones forgotten. |
| RecoveryProtection.AdoptCovers | src/autosave.rs:832-877 | Adopting records a buffer whose copy is the newest for its key. |
| RecoveryProtection.DiscardBufferCovers | src/autosave.rs:910-962 | Discarding one buffer's copies leaves every other protected. |
| RecoveryRuns.CrashDataIsKept | src/autosave.rs:491-513 | A recovery file found at the start is on disk, unchanged, after every run in which it is neither adopted nor discarded by path, nor missed by a failed look at the disk. |
| RecoveryCrash.PassKeepsExactly | src/autosave.rs:757-785 | Whether or not a write fails, a pass leaves an unclaimed recovery file alone if and only if these do not all hold: its look fails, a modified buffer wants its key, and no write before or at that key fails. |
| RecoveryCrash.DiscardBufferKeeps | src/autosave.rs:910-962 | Killing or saving a buffer never touches a file it does not own. |
| RecoveryRuns.UnlookedForIsLost | src/autosave.rs:757-785 | A run in which a recovery file that could not be looked for is overwritten. |
| AutosaveCache.Install | src/autosave.rs:213-236 | The batch's loop lands every copy that can land and lists the rest. |
| AutosaveCache.AbsorbFailed | src/autosave.rs:238-249 | Each failure unrecords just the revision that failed, and is remembered for the next report. |
| AutosaveCache.RetireAll | src/autosave.rs:255-273 | Retiring keys one by one is retiring them together. |
| AutosaveCache.GatherAll | src/autosave.rs:726-819 | The pass over the buffers, in their order; it decides for each as `RecoveryPasses.GatherExactly` says. |
| AutosaveCache.WriteCopies | src/autosave.rs:514-545 | Writes stop at the first that fails, what came before kept. |
| AutosaveCache.RunPass | src/autosave.rs:467-545 | Orphans and dead buffers go first, then the writes; the counts or the failed key are reported. |
| AutosaveCache.Take | src/autosave.rs:275-305 | A finished installer's failures are absorbed, its retiring keys removed, and a panic forgets its whole batch. |
| AutosaveCache.AutosaveCache.constructor | src/autosave.rs:131-183 | A new session records nothing about the files it finds. |
| AutosaveCache.AutosaveCache.SweepNow | src/autosave.rs:417-447 | Settles, then runs an immediate pass; keeps the invariant. |
| AutosaveCache.AutosaveCache.StagePass | src/autosave.rs:449-457 | Runs a staging pass; keeps the invariant. |
| AutosaveCache.AutosaveCache.BeginInstalling | src/autosave.rs:556-589 | Hands the staged copies to the installer if it is free, or installs them here when no thread can be had; keeps the invariant. |
| AutosaveCache.AutosaveCache.CollectDone | src/autosave.rs:625-645 | Takes back a finished installer and reports; keeps the invariant. |
| AutosaveCache.AutosaveCache.SettleAll | src/autosave.rs:647-660 | Leaves nothing staged or in flight; keeps the invariant. |
| AutosaveCache.AutosaveCache.AdoptFile | src/autosave.rs:832-877 | Claims the key for the buffer once all is settled; keeps the invariant. |
| AutosaveCache.AutosaveCache.DiscardFile | src/autosave.rs:879-908 | Drops the key whoever owns it; keeps the invariant. |
| AutosaveCache.AutosaveCache.DiscardCopies | src/autosave.rs:910-962 | Drops the buffer's own keys only; keeps the invariant. |
| AutosaveCache.AutosaveCache.InstallerLands | src/autosave.rs:213-236 | One copy lands, or fails to, at any moment; the invariant holds at every such moment. |
| Utf8.ScanOfEncoding | src/ansi.rs:842-888 | A whole character is read back from its encoding, whatever follows (section 3 of RFC 3629). |
| Utf8.ScanIsEncoding | src/ansi.rs:842-888 | What is read as a character is the encoding of it, and no other bytes are. |
| Utf8.IncompleteIsStart | src/ansi.rs:842-888 | Bytes are held back exactly when they are a proper beginning of some character. |
| Utf8.InvalidIsMaximal | src/ansi.rs:842-888 | What is replaced is a maximal ill-formed subpart: it begins a character, or is one byte that begins none, and with one byte more it begins none (section 3.9 of the Unicode Standard). |
| Utf8.DecodeMore | src/ansi.rs:842-888 | Decoding may stop anywhere and go on with what was held back. |
| Utf8.LossyOfEncoded | src/ansi.rs:842-905 | Well-formed text comes through unchanged. |
| AnsiText.SegmentDecodes | src/ansi.rs:754-829 | Over any stretch of bytes that interrupts nothing, byte by byte, the run becomes that of its text decoded whole: printable ASCII and high bytes, and in a line-oriented stream the bell, tab, newline, vertical tab and form feed. |
| AnsiText.SegmentShown | src/ansi.rs:692-705 | What is then shown is the whole stretch decoded with one U+FFFD per maximal ill-formed subpart, or nothing on the alternate screen. |
| AnsiText.GroundByte | src/ansi.rs:754-804 | On the ground ESC begins a sequence and CAN and SUB only commit the run; those text bytes join the run; and every other byte that is no control of the profile is dropped. |
| AnsiText.ControlShown | src/ansi.rs:754-804 | A control commits the run and shows its operation: carriage return and backspace in both profiles, and bell, tab, the three line feeds and the two shifts on a full screen. |
| AnsiText.PendingIsShort | src/ansi.rs:823-888 | After any bytes at most three are held back, so the eight-byte cap is never met. |
| AnsiChunks.ChunksDecideNothing | src/ansi.rs:525-551 | Fed in any chunks the parser ends in the same state and, adjacent texts merged, has emitted the same events, in both profiles. |
| AnsiChunks.BoundaryKept | src/ansi.rs:525-599 | A new parser holds no run between feeds, and every feed and finish leaves it so, which is all the above asks. |
| AnsiChunks.StepCalm | src/ansi.rs:601-686 | Outside the ground state no text run and no partial character is held, after every byte. |
| AnsiChunks.NormalUnique | src/ansi.rs:525-551 | A merged event list is decided by the characters and events it shows. |
| AnsiMirror.FeedFollowed | src/ansi.rs:1081-1097 | A consumer folding the events agrees with the parser on the alternate screen and the style, and entering and leaving alternate with nothing between them. |
| AnsiMirror.SwitchFollowed | src/ansi.rs:1081-1097 | Leaving the alternate screen brings the consumer's style up to date. |
| AnsiMirror.FinishFollowed | src/ansi.rs:576-599 | Finishing returns the consumer to its start and the parser to a new one, and doing it twice changes nothing. |
| AnsiMirror.StreamsFollowed | src/ansi.rs:513-599 | Over any number of streams, each fed in any chunks and finished, the consumer is back where it started after each. |
| AnsiLimits.RetainedWithinLimit | src/ansi.rs:623-658 | In every run each list the parser retains is within the configured limit. |
| CsiParams.CollectPrinted | src/ansi.rs:311-404 | Printing any list of parameter groups and collecting it gives the list back. |
| CsiParams.DigitsSaturate | src/ansi.rs:347-357 | Digits of any length come to their value, or to 2^32-1 when it is more. |
| CsiGroups.SplitIs | src/ansi.rs:334-404 | Cut at a separator, bytes join again to what they were, in pieces that hold none. |
| CsiGroups.CollectedGroups | src/ansi.rs:334-404 | Whatever the parameter bytes, the groups collected are the pieces between semicolons, each its number and one for every colon, an empty one zero; only a last empty group is left out. |
| AnsiSequences.StyleComesBack | src/ansi.rs:1194-1295 | Any style, printed as a control sequence in any of three forms and fed to a parser in the ground state with any style, comes back as that style and no other event, or runs on unseen while the alternate screen hides it. |
| AnsiSequences.SgrRead | src/ansi.rs:989-1079 | A style sequence within the byte limit is collected, dispatched once on just the groups printed, and leaves nothing behind. |
| AnsiSequences.SwitchRead | src/ansi.rs:1081-1097 | A private mode sequence puts the alternate screen as it says if and only if it names it among its modes and is within the limit, and leaves the parser ignoring what follows if and only if it is one byte over. |
| AnsiControls.CsiRead | src/ansi.rs:619-658 | Whatever bytes, none of them final and none of them ESC, CAN or SUB, stand between `ESC [` and a final byte, under any limit of at least one: well formed and within the limit they are dispatched once on what they hold; otherwise the sequence commits the text before it and does nothing else; and its final byte ends it unless the sequence is well formed and exactly one byte over the limit. |
| AnsiControls.GatheredIs | src/ansi.rs:989-1045 | What is held then is the private marker, the parameters collected one by one, and the intermediates. |
| AnsiControls.FormedSplits | src/ansi.rs:989-1045 | Every well-formed sequence is a marker or none, parameter bytes, and intermediate bytes (section 5.4 of ECMA-48). |
| AnsiControls.EscRead | src/ansi.rs:911-983 | An escape sequence within the limit shows the one operation its intermediates and last byte name, on a full screen; over it, nothing; and it ends at that byte unless that is the one byte over. |
| AnsiTables.GroupsRead | src/ansi.rs:1060-1064 | At the final byte the parameters are those groups, and the marker and intermediates those that stood around them. |
| AnsiTables.Dispatched | src/ansi.rs:1060-1186 | What the final byte does by profile: set the style, turn the screen, show an operation, or nothing where the alternate screen hides it. |
| AnsiTables.OperationShown | src/ansi.rs:1103-1177 | For each operation of a full screen, the final byte, the parameters and the marker that show it, and it alone. |
| AnsiTables.OperationNamed | src/ansi.rs:1103-1183 | Any other sequence shows nothing. |
| AnsiTables.ModesShown | src/ansi.rs:1147-1166 | Setting and resetting modes goes by the marker: insert mode without, private modes after a question mark. |
| AnsiTables.ModeSet | src/ansi.rs:1394-1429 | For each private mode, the number that sets it. |
| AnsiTables.ModeNamed | src/ansi.rs:1394-1429 | Any other number sets none. |
| AnsiTables.ModesInOrder | src/ansi.rs:1158-1166 | Private modes are set in the order of the parameters. |
| AnsiTables.InsertInOrder | src/ansi.rs:1147-1157 | So is insert mode. |
| AnsiTables.LineShown | src/ansi.rs:1069-1080 | A line-oriented stream shows an erasure to the end of the line, of the line, and the two ends of a bracketed paste, each for its one sequence, and nothing else. |
| AnsiTables.SwitchesShown | src/ansi.rs:1081-1097 | A sequence that names the alternate screen turns to it or back, once however often it names it; coming back shows the style if it changed meanwhile. |
| AnsiTables.EscapeNamed | src/ansi.rs:911-977 | For each operation shown by an escape sequence, its bytes; a line-oriented stream shows none. |
| AnsiTables.EscapeLeads | src/ansi.rs:911-952 | Where each byte after ESC leads. |
| AnsiTables.StringSilent | src/ansi.rs:673-685 | A string that is not a command shows nothing, whatever it holds, until ESC, CAN or SUB. |
| AnsiTables.DecimalReads | src/ansi.rs:1347-1356 | A command's number is read from its decimal digits, with a plus or without. |
| AnsiTables.CommandShown | src/ansi.rs:1344-1375 | For each event of a command, its number and its text, cut at the first semicolon; any other command shows nothing. |
| AnsiTables.CommandWithout | src/ansi.rs:1349-1352 | One without a semicolon has no text. |
| AnsiOverruns.Swallows | src/ansi.rs:1047-1058 | A parser ignoring a sequence is unmoved and silent over any bytes but a final byte and those that interrupt, and the next final byte brings it to the ground. |
| AnsiOverruns.TextAfterIsLost | src/ansi.rs:619-658 | So the text after any well-formed control sequence one byte too long is lost up to the next final byte, and that byte with it. |
| AnsiOverruns.TextAfterEscapeIsLost | src/ansi.rs:619-658 | And the text after an escape sequence one byte too long, up to the next byte that could end one. |
| AnsiOverruns.OscRead | src/ansi.rs:1301-1318 | An operating system command within the limit and ended by BEL is shown without its control bytes, and leaves nothing behind. |
| AnsiOverruns.StringRead | src/ansi.rs:1320-1332 | So is one ended by ESC and a backslash. |
| AnsiOverruns.OscTooLong | src/ansi.rs:619-658 | One over the limit shows nothing; when the BEL is the byte too many it does not end there, else it does. |
| AnsiOverruns.StringTooLong | src/ansi.rs:619-658 | Nor does it end there with ESC and a backslash if either is the byte too many, else it does. |
| AnsiOverruns.OscSwallows | src/ansi.rs:1334-1342 | A parser ignoring a command is unmoved and silent up to the next BEL, which leads to the ground, or ESC, which begins a new sequence. |
| AnsiOverruns.TextAfterOscIsLost | src/ansi.rs:619-658 | So the text after a command whose BEL is one byte too many is lost up to the next BEL. |
| AnsiOverruns.TextAfterStringIsLost | src/ansi.rs:619-658 | And after one whose ESC or backslash is. |
| AnsiSequences.CodesRead | src/ansi.rs:1194-1295 | A style's parameters give that style whatever the style before and whichever form its colours take. |
| AnsiSequences.ColorRead | src/ansi.rs:1445-1497 | A colour's parameters set that colour alone and take no parameter that is not theirs. |
| AnsiSequences.ResetRead | src/ansi.rs:1194-1206 | A zero forgets every attribute set before it. |
| AnsiTables.FlagsSet | src/ansi.rs:1194-1250 | For each flag of the style and the underline, the codes that set it and those that clear it; no other code touches it. |
| AnsiTables.ColorSet | src/ansi.rs:1251-1289 | For the colour of the text, the codes that set it and how many parameters they take; no other code touches it. |
| AnsiTables.BackgroundSet | src/ansi.rs:1263-1291 | For the colour behind it, likewise. |
| AnsiTables.UnderlineColorSet | src/ansi.rs:1272-1283 | For the colour of the underline, likewise. |
| AnsiTables.ColorNamed | src/ansi.rs:1445-1497 | The forms an extended colour has, in subparameters and in the parameters after it, and no others. |
| AnsiParser.CsiCollector.PushDigit | src/ansi.rs:347-357 | A digit extends the number being read, saturating. |
| AnsiParser.CsiCollector.PushColon | src/ansi.rs:359-372 | A colon closes the main value or a subparameter. |
| AnsiParser.CsiCollector.PushSemicolon | src/ansi.rs:374-387 | A semicolon closes the group. |
| AnsiParser.CsiCollector.Finish | src/ansi.rs:389-404 | The groups read, with the one being read if it says anything. |
| AnsiParser.ApplySgr | src/ansi.rs:1194-1295 | The parameters applied in order, extended colours taking the groups they use. |
| AnsiParser.AnsiParser.constructor | src/ansi.rs:473-511 | A new parser is in the ground state with nothing held. |
| AnsiParser.AnsiParser.TryDecode | src/ansi.rs:842-888 | The loop over valid prefixes and errors decodes what can be decoded and holds back the rest. |
| AnsiParser.AnsiParser.FlushTextRun | src/ansi.rs:692-705 | The run becomes one text event, a held-back character one U+FFFD. |
| AnsiParser.AnsiParser.FeedGround | src/ansi.rs:754-804 | Text extends the run; a control flushes it and is emitted. |
| AnsiParser.AnsiParser.FeedEscape | src/ansi.rs:911-952 | The byte after ESC chooses what it introduces. |
| AnsiParser.AnsiParser.SwitchScreen | src/ansi.rs:1081-1097 | Each mode parameter enters or leaves, once. |
| AnsiParser.AnsiParser.DispatchCsi | src/ansi.rs:1060-1186 | A final byte is dispatched on the collected groups. |
| AnsiParser.AnsiParser.FeedCsi | src/ansi.rs:989-1055 | Parameters, intermediates and the final byte of a control sequence (section 5.4 of ECMA-48). |
| AnsiParser.AnsiParser.FeedOsc | src/ansi.rs:1301-1318 | A string is gathered up to BEL or ESC. |
| AnsiParser.AnsiParser.FeedByte | src/ansi.rs:601-686 | Cancelling, the byte budget, restarting on ESC and replaying the byte after a string's ESC. |
| AnsiParser.AnsiParser.Feed | src/ansi.rs:525-551 | The loop over a feed, its run flushed at the end, partial characters kept. |
| AnsiParser.AnsiParser.Finish | src/ansi.rs:576-599 | The end of a stream: the run flushed, the screen left, the style reset. |
| RopeEdits.DerivedIsLeast | src/buffer.rs:2557-2599 | Of all descriptions of a replacement the one derived starts latest and, starting there, covers and inserts least. |
| RopeEdits.InverseDescribes | src/buffer.rs:2011-2095 | Turned round, a description describes the way back. |
| RopeEdits.WalkPrefix | src/buffer.rs:2563-2579 | The walk in chunks of 4096 bytes finds the longest common prefix, whatever the chunk. |
| RopeEdits.WalkSuffix | src/buffer.rs:2580-2595 | And the longest common suffix that does not meet it. |
| RopeEdits.DeriveReplacementEdit | src/buffer.rs:2557-2599 | Finds that least description. |
| RopeEdits.MarkStays | src/buffer.rs:2361-2391 | A mark before the edit keeps its place, one after keeps its distance from the end and the text after it, and one inside goes to the side it leans to; none leaves the text. |
| RopeEdits.OrderKept | src/buffer.rs:2361-2391 | Two marks keep their order if and only if they are not a right-leaning and a left-leaning mark inside an edit that inserts something. |
| RopeEdits.AdjustMark | src/buffer.rs:2361-2391 | The branches on where a mark lies give that position. |
| BufferHistory.DoKeeps | src/buffer.rs:1663-1709 | Whatever happens, every undo and redo entry's description truly leads from its rope to the next, marks stay within the text, and what is broadcast is what changed. |
| BufferHistory.ViewsFollow | src/buffer.rs:1663-1709 | Over every run, a view applying the broadcast edits to its copy has the buffer's bytes. |
| BufferHistory.UndosRedos | src/buffer.rs:2011-2095 | Undoing k times and redoing k times restores the bytes and both stacks, but for the marks of typed entries, which are cleared. |
| BufferHistory.RedosUndos | src/buffer.rs:2011-2095 | Redoing k times and undoing k times restores the bytes and both stacks. |
| BufferHistory.StepsUndo | src/buffer.rs:1730-1798 | An edit, a typed merge and a collapsed command are each one step of undo, back to the bytes before. |
| BufferHistory.ApplyMakes | src/buffer.rs:1629-1709 | Within bounds an edit makes of the rope what stands before its range, what it asked for, and what stands after, and tells that range; unless it changes nothing, it saves the old rope as one step more, clears the redo stack and drops the oldest of ten thousand. Out of bounds, and only then, it fails and changes nothing. |
| BufferHistory.UndoMakes | src/buffer.rs:2011-2046 | An undo goes to the rope saved last, saves the one there was to redo with the way back to it, moves the marks by that way, and counts a revision; or there is nothing to undo. |
| BufferHistory.RedoMakes | src/buffer.rs:2064-2095 | A redo likewise. |
| BufferHistory.CollapseMakes | src/buffer.rs:1762-1798 | Collapsing leaves one step, from the rope the command began with to the one there is, of two or more; fewer stay. |
| BufferHistory.NoteTypedMakes | src/buffer.rs:1730-1755 | The newest step is marked as typed, and joins the one before it exactly if that is typed too and merging is asked for. |
| BufferMarks.CreateMakes | src/buffer.rs:967-980 | A mark made within the text stands where it was asked for under an id never given, and no other mark changes. |
| BufferMarks.SetMakes | src/buffer.rs:996-1009 | Moving a mark within the text moves that one and no other, which leans as it did, and says whether there was one. |
| BufferMarks.RemoveMakes | src/buffer.rs:1011-1018 | Removing a mark removes that one and no other, and says whether there was one. |
| BufferMarks.RunIssued | src/buffer.rs:967-980 | In every run no two marks have one id, and no id is given again. |
| BufferHistory.MarksKeepOrder | src/buffer.rs:2361-2391 | No edit, undo or redo puts marks of one gravity out of order. |
| BufferHistory.CollapseKeeps | src/buffer.rs:1762-1798 | Collapsing a command leaves the bytes and a chain of true descriptions. |
| BufferHistory.NoteTypedKeeps | src/buffer.rs:1730-1755 | So does merging a typed edit. |
| TextBuffer.Buffer.Apply | src/buffer.rs:1590-1709 | The rope is what the edit asked for, or the error and nothing changed, as `BufferHistory.ApplyMakes` says; what changed is broadcast truly. |
| TextBuffer.Buffer.Undo | src/buffer.rs:2011-2046 | Takes the last step back and broadcasts it. |
| TextBuffer.Buffer.Redo | src/buffer.rs:2064-2095 | Takes the last undone step again and broadcasts it. |
| TextBuffer.Buffer.CollapseTypedCommand | src/buffer.rs:1780-1798 | The steps since the command began become one. |
| TextBuffer.Buffer.NoteTypedEdit | src/buffer.rs:1730-1755 | The last two typed steps become one when they may. |
| TextBuffer.Buffer.AdjustMarksForEdit | src/buffer.rs:2361-2391 | Every mark is moved, and nothing else. |
| TextBuffer.Buffer.CreateMark | src/buffer.rs:967-994 | A new mark within the text, or the error. |
| TextBuffer.Buffer.SetMark | src/buffer.rs:996-1009 | Moves the one mark, within the text. |
| TextBuffer.Buffer.RemoveMark | src/buffer.rs:1011-1018 | Removes the one mark. |
| RemoteDiff.BoundaryIsOffset | src/buffer.rs:1231-1341 | A byte that does not continue a character is exactly a place between two characters. |
| RemoteDiff.SharedBoundary | src/buffer.rs:1231-1341 | Within a common prefix a boundary of the old text is one of the new text too, which is why backing off on the old text alone suffices. |
| RemoteDiff.Diff | src/buffer.rs:1231-1341 | The fallback finds no change exactly when there is none; otherwise its splice brings the old text to the new, cutting both between characters. |
| RemoteDiff.SingleInsert | src/buffer.rs:2443-2467 | Recognises exactly the deltas that are one insertion, and where. |
| RemoteDiff.SingleDelete | src/buffer.rs:2474-2496 | Recognises exactly the deltas that are one deletion, and where. |
| RemoteDiff.RopeByteEnd | src/buffer.rs:2505-2533 | Counting characters over a bounded slice finds the byte where a deletion ends, if the text is that long. |
| RemoteDiff.OneChangeApplied | src/buffer.rs:2443-2496 | A delta of one change applies just that change at the place counted. |
| RemoteDiff.Import | src/buffer.rs:1197-1350 | By either hot path or the fallback, the change reported brings the old text to the imported one between characters, and there is none exactly when the texts are equal. |
| UndoStacks.RunOk | src/buffer.rs:1846-1958 | In every run each source's groups strictly rise in sequence number, no number is used by two sources, none is empty, and every stack is within its cap. |
| UndoStacks.RecordTakes | src/buffer.rs:1930-1958 | Recorded operations go on the end of the run their source is typing, or are its newest group, alone, the oldest of ten thousand making room; either way it has nothing left to redo. The daemon's close every run first. |
| UndoStacks.RecordWorks | src/buffer.rs:1930-1958 | So what the source has to undo grows by exactly those operations, but for a full stack's oldest group. |
| UndoStacks.TypedBegins | src/buffer.rs:1818-1839 | A keystroke goes on with its source's run, or begins one if there is none; on the counts where a new group begins, and at a limit of zero, it closes the run and begins an empty one. |
| UndoStacks.CloseShuts | src/buffer.rs:1846-1874 | Closing a run makes its operations the newest group under a new number, and an empty one vanishes. |
| UndoStacks.CloseAllShuts | src/buffer.rs:1946-1951 | Closing all runs does so to each source met and leaves the others. |
| UndoStacks.DetachLeaves | src/buffer.rs:1897-1908 | A departing source's run is closed, its redo stack is gone and its groups are unowned; with none it leaves nothing. |
| UndoStacks.RunIsOneGroup | src/buffer.rs:1800-1817 | The edits a frontend makes one after another within a run are all in it, in order, so they are one group once it closes. |
| UndoStacks.UndoTakes | src/buffer.rs:2242-2316 | Undoing takes the groups it tried off the stack it drew on, however it comes out; what it produced is its source's newest group to redo; nothing else changes. |
| UndoStacks.RedoTakes | src/buffer.rs:2193-2202 | Redoing likewise, and what it produced is a new group of its source's. |
| UndoStacks.PickIsNewest | src/buffer.rs:2209-2225 | A frontend's undo draws on the newest closed group among its own, the daemon's and the detached stacks, and on no other. |
| UndoStacks.PickAnyOrder | src/buffer.rs:2209-2225 | Whatever the order the sources are met in. |
| UndoStacks.RunUndoneFirst | src/buffer.rs:2161-2177 | A frontend's open typed run is closed and is what its undo takes. |
| UndoStacks.UndoLeavesOthers | src/buffer.rs:2161-2202 | An undo or redo changes nothing of another live frontend's stacks. |
| UndoStacks.OthersLeaveWork | src/buffer.rs:1930-1958 | Nothing another source does changes a live frontend's redo stack, and only the daemon's edits end the run it is typing. What it has to undo stays the same if and only if such an edit does not meet it with a nonempty run and the full 10,000 groups; when it does, the oldest group's operations are lost and no others. |
| UndoStacks.WorkCanBeLost | src/buffer.rs:1866-1874 | A run in which they are: a frontend fills its stack and types, and the daemon edits. |
| UndoStacks.UndoThenRedo | src/buffer.rs:2161-2202 | An undo leaves one redo group more and a redo takes just that one, its result the newest group of all. |
| UndoStacks.UndoDone | src/buffer.rs:2242-2316 | An undo that works takes one group, and those found gone, off the stack it drew on, and no more. |
| UndoArbiter.SourceStacks.PushGroup | src/buffer.rs:1866-1874 | Numbers the group and drops the oldest at the cap. |
| UndoArbiter.SourceStacks.ArbiterClose | src/buffer.rs:1846-1860 | Closes a source's open run, if it holds anything. |
| UndoArbiter.SourceStacks.ArbiterTypedBegin | src/buffer.rs:1818-1839 | Goes on with the open run or opens a new one, by its length. |
| UndoArbiter.SourceStacks.ArbiterRecord | src/buffer.rs:1930-1958 | Records the operations on the source's run or as a group, closing the others' runs and clearing its redo stack. |
| UndoArbiter.SourceStacks.ArbiterDetach | src/buffer.rs:1897-1908 | Closes the run and leaves the groups for others. |
| UndoArbiter.SourceStacks.UndoPick | src/buffer.rs:2209-2225 | The loop over the other sources finds the newest. |
| UndoArbiter.SourceStacks.Compensate | src/buffer.rs:2242-2347 | Skips the groups found gone, takes the first that produces, and files what it produced on the other stack. |
| UndoArbiter.SourceStacks.UndoFor | src/buffer.rs:2161-2177 | Closes, picks and compensates. |
| UndoArbiter.SourceStacks.RedoFor | src/buffer.rs:2193-2202 | Compensates from the source's own redo stack. |
| JobTable.RunOk | src/async_runtime.rs:1007-1054 | In every run each supersede entry is a running job under that key, every running job under a key is its entry or has been told to stop, and the ring is within its cap. |
| JobTable.OneRunsPerKey | src/async_runtime.rs:1007-1054 | So at most one job runs under a key that has not been told to stop. |
| JobTable.TickKeepsSuccessors | src/async_runtime.rs:1513-1635 | Settling a predecessor never removes its successor's entry: after a tick the entries are those whose job still runs. |
| JobTable.SettledOnce | src/async_runtime.rs:1513-1635 | Over every run each job is reported settled at most once, and never runs after. |
| JobTable.FirstEndWins | src/async_runtime.rs:1513-1590 | A running job settles with the first end that arrives for it, whatever comes after. |
| JobOutcomes.FirstEndIs | src/async_runtime.rs:1537-1581 | A job's first end is that of the first reply for it that is no stream item. |
| JobOutcomes.TickSettles | src/async_runtime.rs:1513-1590 | A tick settles exactly the running jobs that some reply ends, in the order in which the first such reply of each came. |
| JobOutcomes.TickedJob | src/async_runtime.rs:1513-1590 | After it every job is as it was but for its end and, for a stream, the items it was sent. |
| JobOutcomes.TickHarvests | src/async_runtime.rs:1604-1608 | The resources it hands over are those of the settled jobs that completed, in the order in which they settled. |
| JobTable.RingIsNewest | src/async_runtime.rs:1604-1629 | Over every run the ring holds the jobs last settled, newest first, up to its cap. |
| JobTable.StreamConserved | src/async_runtime.rs:1522-1543 | Over every run, a stream's batches followed by its buffer are the items that arrived while it was pending, in order. |
| JobTable.StreamEndsOnce | src/async_runtime.rs:1759-1814 | Over every run at most one batch of a stream is closed, it is the last, and the job is gone after it. |
| StreamEnds.EndDecides | src/async_runtime.rs:1513-1590 | In every run a job that is held runs until an end has arrived for it, and then has settled with the first that did. |
| StreamEnds.ClosedOutcome | src/async_runtime.rs:1759-1814 | In every run the closed batch has the outcome of the first end that arrived for the job. |
| StreamEnds.CallsAre | src/async_runtime.rs:1759-1814 | The calls a stream needs are its items divided by its cap, rounded up, and at least one. |
| StreamEnds.StreamClosesOnce | src/async_runtime.rs:1759-1814 | From a settled stream on, with nothing more arriving, it is closed if and only if that many calls have met it; then exactly one batch is closed, the last, with the outcome the job settled with, the batches hold every item that ever arrived, and the job is gone. |
| JobTable.TakenBatch | src/async_runtime.rs:1759-1814 | A call takes at most one batch of a stream, within its cap and from the front; nothing only while it runs with nothing waiting; and the job is dropped exactly when the batch is closed. |
| JobTable.TakeResultOk | src/async_runtime.rs:1848-1868 | Taking a result keeps every entry pointing at a running job. |
| JobOutcomes.ResultIsFirstEnd | src/async_runtime.rs:1848-1868 | In every run the result taken of a job is the first end that arrived for it, and none before that or once it is gone; taking it takes that job and nothing else. |
| JobOutcomes.CancelSets | src/async_runtime.rs:1498-1502 | Cancelling sets that one job's token and changes nothing else. |
| JobOutcomes.AllocateAdds | src/async_runtime.rs:1007-1054 | A dispatch adds one running job under a number never given; the job of its key, if there is one, is told to stop, and every other is as it was. |
| AsyncRuntime.Runtime.Allocate | src/async_runtime.rs:1007-1054 | A fresh id; the job running under the key is told to stop and replaced. |
| AsyncRuntime.Runtime.Cancel | src/async_runtime.rs:1498-1502 | Only flips the token. |
| AsyncRuntime.Runtime.Tick | src/async_runtime.rs:1513-1635 | Drains the bus in arrival order, then settles: entries released if still the job's own, the ring filled and trimmed, the resources listed in order. |
| AsyncRuntime.Runtime.TakeStreamBatches | src/async_runtime.rs:1759-1814 | One batch of each stream with something to say, and the closed ones dropped. |
| AsyncRuntime.Runtime.TakeResult | src/async_runtime.rs:1848-1868 | The outcome of a settled job, once. |

## Left out

- Registry lookups by name or path and generated buffers (`find_by_name`, `find_by_path`, `replace_generated`): one-line searches over what the model holds.
- Reading a path into components: a path is given as its components, each nonempty and without a slash.
- Paths changed through `get_mut` and not yet refreshed: modelled by `SetFilePath` as stale; every other event asks for a refresh first, as the source's documentation does.
- Machine widths of counters: path ids, places, job ids, sequence numbers and byte counts are unbounded; the buffer's revision does wrap at 2^64, and numbers in control sequences do saturate at 2^32-1.
- The xor of path ids is over unbounded numbers, so it does not wrap either.
- Iteration order of hash maps, and which thread wakes first: given as parameters, and the theorems hold for all of them.
- NameText.IsSuffixedExactly: the number is unbounded, where the source reads it as a `usize` and so refuses one past the machine's word, which only a name a caller made up could have.
- Autosave's file format, its hashing of paths to keys (a key stands for the path), staleness of a recovery file, Lua, and the paths listed for the mode line.
- Autosave's clocks and timers: any operation may come at any time.
- The parser's eight-byte cap on held-back bytes: the branch is omitted because `PendingIsShort` shows that it cannot be taken.
- AnsiParser.FlushTextRun: the test that a partial character is pending only in the ground state is a consequence of `StepCalm`, not part of this contract.
- Ropes as trees: a rope is its bytes; slices and chunks are taken of them.
- View callbacks, read-only buffers and the guard against edits within edits: an edit either happens or reports an error, and what would be broadcast is returned.
- Replacing the whole contents, marking clean, and reading files: easy consequences of an edit.
- The CRDT document itself: a remote import is the delta it reports and the text it leaves, and what undoing a recorded group produces is given as a parameter (`Attempt`).
- Composition of recorded operations over later remote changes.
- Worker bodies, their messages, wall-clock ages, the progress indicator, and the parse trees handed over beside a job: replies arrive as a sequence of items, closings and outcomes.
