# A model of kuma's shared state, and what holds of it

kuma edits things it does not own alone: flatpak's override files, the boot
menu, `/etc/fstab`, the kernel command line, a declaration somebody keeps by
hand. It also carries a small relay whose threads share four locks. This
project models that behaviour in Dafny and proves what the code and its
comments promise about it, for every input, every run and every interleaving.

`dafny verify dfyconfig.toml` checks the whole project.

The files follow the repository's own parts:

- `Text`, `Order`: the string operations of the Rust standard library the code
  leans on, and the order of its sorted maps.
- `KeyFiles`, `KeyFileEdits`, `KeyFileObject`: the keyfile parser and printer,
  as functions, as laws about single edits, and as the object that is edited in
  place.
- `KeyFileTexts`: the lines of a file that are nobody's keys, through a merge.
- `Convergence`, `Declaration`, `OwnershipRecord`, `OverrideStore`, `Drifting`,
  `CapturedOverrides`: one merge, what an image bakes, the ownership record,
  passes over a store, the drift report, and what capture proposes.
- `Calendar`, `Timestamp`: the two civil-date conversions and their text form.
- `Fstab`, `KernelArgs`, `BootEntries`, `BootTitles`, `BootPass`, `EntryWrite`,
  `HashMask`, `UserFile`: the text editors that must undo or fix exactly one thing.
- `PackageEdits`, `Inventory`, `Candidates`, `Captures`: the package lists, what a
  machine was observed to have, and capture.
- `Counterexamples`: the inputs behind the findings about permissions.
- `RelayRules`, `Relay`, `RelayLocks`, `RelayDelivery`, `RelaySubscriptions`,
  `RelayPromises`, `RelayProvenance`, `RelayBudgets`: the relay's store and limits, its threads as
  a step system, and what every reachable state keeps.

Code that changes things in place is a class or a loop here too (`KeyFile`,
`ScopeStore`, `BootDirectory`, `DeclarationFile`, `EventStore`, `RateLimiter`,
and the methods over strings); each is proved equal to a function, and the laws
are proved about the functions.

## How the parts are modelled

**Keyfiles.** A file is well formed when it has no carriage return, no two
groups of one name and no key twice in a group. This is what the code needs: a
removal edits the first group of a name while the presence test looks at all of
them, and the merge reads the first line for a key where `live_keys` keeps the
last. "Untouched" means the same group, key and value and the same raw lines, in
order; spaces around a key are not kept by the code.

**The store machine.** A world holds one scope's baked files, store and record,
every key any image has declared and what third parties last wrote. It moves by
switching the image, by a pass, by a pass that fails after some visits and leaves
its record unwritten, and by a third party rewriting a file.

**The calendar.** The specification is the next day on the calendar: month
lengths of section 5.7 and the leap rule of Appendix C of RFC 3339; the text
form is that of section 5.6. Overflow of 64-bit arithmetic is an outcome of the
reader.

**The boot entries.** Entries are Type #1 entries of the Boot Loader
Specification. Any write may fail, before or after the temporary file exists. In
`EntryWrite` names and contents reach the disk separately, the kernel writes
back when it likes, and power may go at any step.

**The account file.** The reader follows sections 2.2.1 and 2.2.2 of the Shell
Command Language of POSIX.1-2017, for one assignment a line.

**The kernel arguments.** `rpm-ostree kargs` deletes the first word equal to the
one given, if there is one, and appends at the end of the line.

**The relay.** Each region between taking a lock and letting it go is one step,
waiting for it is another, and every socket operation is a step that may fail.
The order in which the subscription map is walked, the clock and the sockets are
free. Locks nest where the code nests them: the store inside the limiters, the
outbound map inside the subscriptions. A live frame carries its place in the
order of broadcasts, so that the order can be stated.

## Findings

What the lemmas say the code does not do, each with its exact condition.

- A key that is offered and cannot be declared. `capturable` is documented to
  offer only what the declaration can spell; a bus name that starts with a dash is
  offered and then refused by `validate_name`
  (`CapturedOverrides.ProposedNamesAreSpellable`,
  `CapturedOverrides.LeadingDashIsProposed`).
- A filter that reads more than it names. `reject_reason` lets a filter in when it
  names authors, tags or ids, so that nobody reads traffic they did not name;
  `matches` looks only at the tags. Of what the store may hold, a filter keeps to
  what it names exactly when it names tags or can match nothing
  (`RelayRules.TheDoorScopes`).
- A baked value that is not read back. An environment value that ends in white
  space comes back shorter, and nothing else does
  (`Declaration.BakedDeclarationIsReadBack`, `Declaration.ATrailingSpaceIsLost`).
- A title that never settles. A deployment whose name has white space where the
  field loses it, or a slot of its own where none is added, is retitled again at
  every pass (`BootEntries.RewriteSettles`, `BootEntries.ASpacedNameNeverSettles`).
- A resume argument that stays. A plan deletes one `resume=` and one offset as it
  would be printed; a second one, or an offset spelled otherwise, stays on the line
  (`KernelArgs.PlanReplaces`, `KernelArgs.RemovalRemoves`,
  `KernelArgs.ASecondResumeStays`).
- A captured key that stays on the list. When the other store still holds the key
  for kuma from a declaration since gone, `kuma diff` lists it as a removal after it
  was captured (`CapturedOverrides.CapturedShowsNoDrift`,
  `Counterexamples.ACapturedKeyIsStillListed`).
- A second capture that adds. `capture` asks for permissions with the applications
  declared before it, so those of an application it declares itself are proposed
  only by the next one (`Captures.SecondCaptureFinds`,
  `Counterexamples.ASecondCaptureAdds`).
- A key a failed pass forgets. The record is written last; a key that a failing
  pass wrote, and that the next image no longer declares, is never taken back
  unless the record owned it before (`OverrideStore.AFailedPassForgets`,
  `Counterexamples.AForgottenKeyStays`).
- A rate that needs the clock. The budget is one of any sixty seconds exactly for
  readings of the clock that never step back, and the relay reads the clock before
  it takes the limiters (`RelayRules.SixtySecondsNeedTheClock`,
  `RelayBudgets.NoFloodReachesTheStore`).
- A broadcast that is lost. An accepted event is broadcast only after its answer
  is sent. When the sender's socket fails on the answer, the event is held and, as
  long as it is, never broadcast; otherwise it is
  (`RelayPromises.AcceptedIsBroadcast`,
  `RelayPromises.ALostAnswerLosesTheBroadcast`).
- A day the month does not have. `epoch_from_rfc3339` reads day 31 in every month;
  such a day comes out as another date (`Calendar.OnlyValidDatesComeBack`).
- Line ends that are not kept. `strip_fstab` does not give back CRLF line ends or a
  missing final newline (`Fstab.OffUndoesOn`, `Fstab.StripIsIdempotent`).

## Model

| member | source | states |
|---|---|---|
| KeyFileObject.KeyFile.Parse | src/overrides.rs:105-125 | the groups built line by line are the parsed file, headers opening groups and lines joining the last |
| KeyFileObject.KeyFile.Set | src/overrides.rs:127-144 | the key is set in the first group of that name, replaced in place or added, or in a new group at the end |
| KeyFileObject.KeyFile.Remove | src/overrides.rs:146-150 | the key leaves the first group of that name only |
| KeyFileObject.KeyFile.Render | src/overrides.rs:152-177 | the text has every group that still says something, in order |
| KeyFiles.ReparseRendered | src/overrides.rs:104-177 | what is rendered parses back into exactly the groups that kept something |
| KeyFiles.RewriteIsIdempotent | src/overrides.rs:104-177 | for every text without carriage returns, rendering the parse settles after once |
| KeyFileEdits.FindSet | src/overrides.rs:127-144 | after a set the key holds its value and every other key what it held |
| KeyFileEdits.FindRemove | src/overrides.rs:146-150 | a removed key is no longer read and every other key is read as before |
| KeyFileEdits.PresentIsFound | src/overrides.rs:226-237 | where nothing repeats, the presence test over all groups agrees with reading the first group |
| KeyFileTexts.HeaderMeans | src/overrides.rs:104-119 | a line is a header of a name exactly when it is the name between brackets with nothing but white space around |
| KeyFileTexts.PairMeans | src/overrides.rs:119-124 | a line gives a key a value exactly when it is the key, the first equals sign and the value, no comment and no header, with white space lost only around the key and after the value |
| Convergence.RunConverge | src/overrides.rs:202-245 | the merge by in-place edits is the specified merge: text, what was written, what was taken back, what is owned |
| Convergence.ConvergeDecidesKeys | src/overrides.rs:202-245 | in the re-parsed output declared keys hold their values, released keys are gone, every other key holds what it held |
| Convergence.ConvergeFrame | src/overrides.rs:202-245 | every pair outside the merge's authority and every comment or unknown line is in the new text, same group, same order |
| KeyFileTexts.ConvergeKeepsTexts | src/overrides.rs:152-245 | line for line of the text: comments, and every other line that is neither blank, a header nor a key with a value, stand in the new text character for character and in order |
| KeyFileTexts.ConvergeWritesNoBlankFile | src/overrides.rs:239-245 | the new text is empty exactly when it would hold nothing but white space, and then nothing was declared and no such line was there |
| Convergence.ConvergeIsIdempotent | src/overrides.rs:202-245 | merging again yields the same text, no changes and the same owned list |
| Convergence.ConvergeReports | src/overrides.rs:202-245 | the report is exactly the declared keys the file lacked and the owned leftovers it had, in order |
| Declaration.RenderDeclaration | src/overrides.rs:61-81 | the baked text, written entry by entry, is the specified one |
| Declaration.DeclaredKeysLegal | src/config.rs:662-699 | a valid table asks for no key twice, in four groups, and its entries fit a keyfile exactly when no environment value ends in white space |
| Declaration.BakedDeclarationIsReadBack | src/overrides.rs:280-294 | for every valid table, parsing what was baked gives the declared keys in order, exactly when no environment value ends in white space |
| Declaration.ATrailingSpaceIsLost | src/overrides.rs:111-119 | a valid table that is not read back |
| Declaration.LiveKeysAgree | src/overrides.rs:413-418 | last-wins reading and first-match reading agree on well-formed files |
| OwnershipRecord.SaveState | src/overrides.rs:309-321 | the record written line by line is the specified text |
| OwnershipRecord.LoadState | src/overrides.rs:296-307 | reading line by line collects the ids of each application, skipping lines without two tabs |
| OwnershipRecord.StateRoundTrip | src/overrides.rs:296-321 | reading inverts writing on every record a pass can produce |
| OwnershipRecord.RecordSays | src/overrides.rs:309-321 | the lines of the file are exactly application, tab and id for the ids owned |
| OverrideStore.ScopeStore.VisitAll | src/overrides.rs:334-372 | the loop over applications, up to the first file that cannot be written, leaves the store, the report and the new record as specified, and writes only files that change |
| OverrideStore.ScopeStore.ConvergeStore | src/overrides.rs:329-378 | one pass: the store, what it reports, which files it writes and whether it writes the record; a failure ends it there with the record as it was |
| OverrideStore.PassTouches | src/overrides.rs:344-362 | the files a pass writes or removes, ended early or not, are exactly those that differ afterwards, each once |
| OverrideStore.PassStopsAt | src/overrides.rs:344-372 | a pass ends at the first file that cannot be written and would have changed; it makes all its visits exactly when no such file would have |
| OverrideStore.RunKeepsInv | src/overrides.rs:329-378 | well-formed files, a readable record within what was ever declared, and third parties' keys intact, over every run of switches, passes, failing passes and edits |
| OverrideStore.UndeclaredKeysAreTheirs | src/overrides.rs:202-245 | after any run a key no image ever declared holds what a third party last gave it |
| OverrideStore.PassSettles | src/overrides.rs:329-378 | after a pass declared keys hold their values, owned and undeclared keys are gone, others are as found, and the record is exactly the image's keys |
| OverrideStore.PassRecords | src/overrides.rs:374-376 | the record after a pass reads as exactly the keys the image declares |
| OverrideStore.SecondPassIsQuiet | src/overrides.rs:329-378 | a second pass writes no file and no record and reports nothing |
| OverrideStore.AFailedPassForgets | src/overrides.rs:334-376 | after a failing pass, a switch to an image without the key and a full pass, a key the failing pass wrote is still there exactly when the record before it did not own the key |
| Counterexamples.AForgottenKeyStays | src/overrides.rs:334-376 | a new machine on which such a key stays |
| OverrideStore.BakedIsLegal | src/config.rs:662-699 | what the build bakes from a valid table whose values end well is an image the runs allow |
| Drifting.FindDrift | src/overrides.rs:424-464 | the drift report built by the loops is the specified one over both scopes |
| Drifting.DriftMeans | src/overrides.rs:424-464 | what the report lists, in both directions: declared keys not held as declared, and owned keys not declared and still there |
| Drifting.DriftPredictsThePass | src/overrides.rs:424-464 | with the image built from the declaration, an application's additions are the ids the next pass writes and its removals the ids it takes back, in order |
| Drifting.DriftPredictsTheReport | src/overrides.rs:424-464 | over the whole scope, the listed additions are what the pass reports as set and the removals what it reports as removed, id for id and in order |
| Drifting.PassesEndDrift | src/overrides.rs:424-464 | after a pass over each scope there is no drift |
| CapturedOverrides.FindCapturable | src/overrides.rs:553-600 | proposals and ambiguous applications as the loop collects them |
| CapturedOverrides.ProposalsAreUnclaimed | src/overrides.rs:553-600 | a proposal holds exactly the live, representable keys of its store whose ids the record does not hold and the declaration does not ask for, with their values; the declaration does not speak about the other store, and the application is not ambiguous |
| CapturedOverrides.EveryKeyIsOffered | src/overrides.rs:553-600 | no such key is passed over unless its application is ambiguous |
| CapturedOverrides.AmbiguousMeans | src/overrides.rs:553-600 | an application is ambiguous exactly when it was asked about and each store has such a key |
| CapturedOverrides.RepresentableIsDeclarable | src/overrides.rs:521-537 | a key is representable exactly when some valid table asks for it, but for names that start with a dash |
| CapturedOverrides.ProposedNamesAreSpellable | src/overrides.rs:521-537 | a proposed name validates exactly when it does not start with a dash |
| CapturedOverrides.LeadingDashIsProposed | src/config.rs:917-941 | such a name is representable and refused |
| CapturedOverrides.ItemsRoundTrip | src/overrides.rs:606-614 | a list value survives the array exactly when it is semicolon-terminated without empty items |
| CapturedOverrides.DeclaredComesBack | src/edit.rs:163-202 | writing a captured key down makes the declaration ask for exactly it, for the keepable values and no others, and changes no other key |
| CapturedOverrides.CapturedComesBack | src/edit.rs:163-202 | of a whole proposal each key comes back as its value is spelled, and every other declared key as it was |
| CapturedOverrides.ProposalComesBack | src/edit.rs:163-202 | the written table has the proposal's scope, asks for its keys and keeps the others |
| CapturedOverrides.CapturedShowsNoDrift | src/overrides.rs:424-464 | over both scopes, a captured key is not listed exactly when its value is spelled as it stands or asks for nothing, and the other store does not still hold it for kuma |
| Counterexamples.ACapturedKeyIsStillListed | src/overrides.rs:446-461 | a proposal that is captured and whose key is listed all the same |
| Calendar.CivilIsValid | src/lock.rs:443-458 | era day, year of era, year day and month index stay in range, the date is valid, and the other formula reads the day back |
| Calendar.CivilWalksTheCalendar | src/lock.rs:443-458 | the date of each day is the calendar successor of the day before |
| Calendar.CivilIsDayAfterEpoch | src/lock.rs:443-458 | day n is n calendar steps after 1970-01-01 |
| Calendar.DaysCountSteps | src/inspect.rs:1137-1147 | the parsed day number counts those steps |
| Calendar.EveryDateIsReached | src/inspect.rs:1137-1147 | every valid date from 1970 on is its day number's steps from the epoch |
| Calendar.OnlyValidDatesComeBack | src/inspect.rs:1134-1147 | of the months and days the reader accepts, exactly the calendar's dates come back from their day number |
| Timestamp.FormattingFits | src/lock.rs:443-457 | for every 64-bit count of seconds each intermediate of the formatter has its range and each step on the way to one fits in 64 bits |
| Timestamp.StampReads | src/inspect.rs:1124-1153 | any date and time written as numbers is read as them, whatever follows the minutes |
| Timestamp.OutOfRangeIsRefused | src/inspect.rs:1124-1135 | a stamp of numbers is refused exactly when its month, day, hour or minute is out of range |
| Timestamp.StampRoundTrip | src/inspect.rs:1124-1147 | below 2^63 seconds, reading what was formatted gives the time cut to its minute |
| Timestamp.StampIsShaped | src/lock.rs:443-458 | to the end of the year 9999 the text is the twenty characters of RFC 3339, digit for digit the date so many days after the epoch and the hour, minute and second |
| Fstab.RunStripFstab | src/hibernate.rs:415-437 | the loop with its popped blank lines is the specified strip |
| Fstab.MarkersMean | src/hibernate.rs:404-431 | a line opens or closes a block exactly when it is the marker with nothing but white space around |
| Fstab.OffUndoesOn | src/hibernate.rs:387-437 | off undoes on exactly for texts ending in one newline, without CRLF and without an open marker |
| Fstab.OffTakesAllBlocks | src/hibernate.rs:415-437 | one off takes out any number of blocks |
| Fstab.SwitchingLeavesNoTrace | src/hibernate.rs:387-437 | after any sequence of switches the file is the original and the blocks still pending |
| Fstab.StripIsIdempotent | src/hibernate.rs:415-437 | stripping twice is stripping once exactly when the result holds no CRLF, so always without carriage returns |
| Fstab.StripIsExact | src/hibernate.rs:415-437 | for every text what goes is exactly the lines of the blocks, unclosed ones to the end, and the empty lines that lead up to a marker with something before them; the rest stays in order |
| Fstab.StripLeaves | src/hibernate.rs:415-437 | the same for the whole file as text |
| Fstab.StripKeepsFilled | src/hibernate.rs:415-437 | every line outside blocks that is not empty stays, in order, unclosed blocks included |
| Fstab.StripIsOutside | src/hibernate.rs:415-437 | in particular, with no empty line directly before a marker the result is exactly the lines outside blocks |
| KernelArgs.ResumeFromCmdline | src/hibernate.rs:640-651 | the last resume word and the last offset word decide, the offset even when it is no number |
| KernelArgs.ResumeMeans | src/hibernate.rs:640-651 | the device is what follows `resume=` in the last word that starts so, and none exactly when no word does |
| KernelArgs.OffsetMeans | src/hibernate.rs:640-651 | the offset is the number the last word that starts with `resume_offset=` says |
| KernelArgs.ParseU64Means | src/hibernate.rs:645 | a word reads as a number exactly when it is its decimal, after any zeros and at most one plus sign, up to 64 bits |
| KernelArgs.OthersMean | src/hibernate.rs:461-512 | the other words of a line are, in order, those that start with neither name |
| KernelArgs.PlanArguments | src/hibernate.rs:479-492 | the arguments planned step by step are the specified plan |
| KernelArgs.PlanSays | src/hibernate.rs:479-492 | the verb, one deletion by its value for each of the two there is, and the new pair appended |
| KernelArgs.PlanReplaces | src/hibernate.rs:461-492 | on every line the plan makes the line read exactly the given pair and keeps all other words in order; one pair remains exactly when at most one canonical pair was there |
| KernelArgs.PlanRemoval | src/hibernate.rs:499-512 | the removal planned step by step is the specified plan, empty when there is nothing to delete |
| KernelArgs.RemovalRemoves | src/hibernate.rs:499-512 | nothing about resuming remains exactly when at most one canonical pair was there, and no work is planned exactly when nothing is said |
| KernelArgs.ASecondResumeStays | src/hibernate.rs:479-512 | a line naming two devices keeps one of them through either plan |
| KernelArgs.OffUndoesOn | src/hibernate.rs:461-512 | on and then off leaves the line's other words |
| HashMask.RunMaskHashes | src/inspect.rs:520-543 | the scan terminates and is the place-by-place mask |
| HashMask.ScanIsSwept | src/inspect.rs:520-543 | scanning from dollar sign to dollar sign is one sweep that remembers only whether it is inside a hash |
| HashMask.InHashMeans | src/inspect.rs:527-541 | a character is in a hash exactly when an opening begins at or before it with no white space since: two dollar signs around one or more ASCII letters and digits |
| HashMask.MaskingSettles | src/inspect.rs:520-543 | the output holds no opening, a text is left alone exactly when it holds none, and masking twice is masking once |
| HashMask.MaskTakesOnlyHashes | src/inspect.rs:520-543 | taking the masks out leaves exactly the characters outside hashes, in order |
| BootEntries.WriteOut | src/bootentries.rs:175-186 | the body built line by line is the rewritten entry |
| BootEntries.RewrittenReads | src/bootentries.rs:175-186 | reading the rewritten entry gives the same lines with the title lines replaced |
| BootTitles.RewriteEach | src/bootentries.rs:175-186 | line by line, what says a title becomes the new one and every other line stays, but for a carriage return at its end |
| BootTitles.WantedMeans | src/bootentries.rs:60-146 | in characters: an entry has this title and wants that one exactly when its first title line says the one, its first options line names a deployment, the deployment's own file, or else the local one, names it, and name and slot make the other |
| BootEntries.RewriteKeepsOthers | src/bootentries.rs:175-186 | for every entry the lines that are no title are kept in order but for a carriage return at a line's end, so unchanged exactly when none still ends in one once read |
| BootEntries.TitleSettles | src/bootentries.rs:110-140 | which written titles ask for nothing further |
| BootEntries.RewriteSettles | src/bootentries.rs:131-164 | a rewritten entry is stale no more exactly when the deployment's name is trimmed where it shows and carries no slot of its own |
| BootEntries.ASpacedNameNeverSettles | src/bootentries.rs:131-164 | an entry and a deployment whose title is stale again as soon as it is rewritten |
| BootPass.BootDirectory.Write | src/bootentries.rs:175-203 | a write replaces the entry, or leaves it alone with the temporary file unmade, taken back or left |
| BootPass.BootDirectory.Apply | src/bootentries.rs:213-230 | every stale entry is tried, and the report is all of them or the first that failed |
| BootPass.PassOn | src/bootentries.rs:213-230 | an entry changes exactly when it was stale and its write succeeded |
| BootPass.StaleIs | src/bootentries.rs:148-165 | a pass is about exactly the readable `.conf` files with a title wanted that is not the one they have |
| BootPass.OthersStay | src/bootentries.rs:175-230 | every file that is neither such an entry nor its temporary file stays as it is |
| BootPass.PassLeavesStale | src/bootentries.rs:155-230 | an entry is stale afterwards exactly when it was and its write failed or its title cannot settle |
| BootPass.SecondPassRetries | src/bootentries.rs:155-230 | where titles settle, the second pass is about exactly the failed writes, in order |
| EntryWrite.RunKeeps | src/bootentries.rs:187-203 | what every step of write, sync, rename and write-back keeps |
| EntryWrite.PowerCutLeavesAWholeEntry | src/bootentries.rs:166-203 | at every moment a power cut leaves the whole old text or the whole new one, and the new one for good once finished |
| EntryWrite.PowerCutKeepsTheBoot | src/bootentries.rs:166-203 | either way every line that is no title is the entry's own, but for a carriage return at its end |
| EntryWrite.EveryWriteCanFinish | src/bootentries.rs:187-203 | from every point reached without giving up some run finishes the write |
| EntryWrite.RenameNeedsTheSync | src/bootentries.rs:190-192 | renaming before the sync would let the entry come back as anything |
| UserFile.WriteUserFile | src/install.rs:111-139 | the file appended step by step is the specified list of lines |
| UserFile.EscapedReads | src/install.rs:134-136 | the escape puts any text whatever through the shell's quoting |
| UserFile.BareFieldReads | src/install.rs:112-123 | a field put between quotes as it is comes through exactly when it holds no quote |
| UserFile.TheShellReadsTheAccount | src/install.rs:111-139 | for every key text the shell sets each variable of the file, by name, to what the account says, the key to its trimmed self, and no other variable |
| PackageEdits.DeclarationFile.Declare | src/edit.rs:147-156 | items are declared once each, and stored all or not at all |
| PackageEdits.StorableMeans | src/config.rs:917-941 | what may be stored: in every list a letter or digit, no leading dash, and only the characters of that list |
| PackageEdits.DeclarationFile.Add | src/edit.rs:100-127 | a flatpak name nobody lists refuses the edit; otherwise what was new, what was there, and nothing stored when nothing is new |
| PackageEdits.NewOrKnown | src/edit.rs:100-116 | every name given is told once as new or as often as it was there already, in the file or earlier in the call |
| PackageEdits.DeclarationFile.Remove | src/edit.rs:206-219 | every name is taken from the first list that has it, or nothing is written |
| PackageEdits.DeclaredHolds | src/edit.rs:147-156 | a list keeps its names as a prefix, gains exactly the items, and stays free of repeats |
| PackageEdits.RemoveUndoesAdd | src/edit.rs:100-219 | removing what was added restores the lists exactly when the names were distinct and new to their list and to those asked before it |
| Inventory.LeavesFromReceipts | src/inventory.rs:154-178 | an answer exactly when every formula's receipts can be trusted, and then the formulae nothing installed depends on |
| Inventory.ShortMeans | src/inventory.rs:215-217 | a dependency goes by what follows its last slash, or by its whole name |
| Candidates.FindCandidates | src/inspect.rs:80-120 | the three loops and the sort compute the specified list |
| Candidates.CandidatesAre | src/inspect.rs:80-120 | which items are candidates, and with which marks, in both directions, by what is installed, what is declared and what convergence recorded |
| Candidates.DoomedAreOfferedFirst | src/inspect.rs:80-120 | everything convergence installed and nobody declares is offered, before everything else; by-name-only entries come last; formulae before flatpaks in between, and each list by name |
| Candidates.DeclaringSettles | src/inspect.rs:80-120 | declaring any items removes exactly their candidates and leaves the rest in order with their marks |
| Candidates.CaptureSettles | src/capture.rs:119-156 | for the package lists: after an unnamed capture the candidates are exactly the earlier by-name-only entries, none doomed, and a second capture has no package to add |
| Candidates.NothingIsDoomed | src/inventory.rs:186-197 | after it everything convergence installed is declared |
| Candidates.PickedAre | src/capture.rs:121-139 | a capture by name succeeds exactly when every name is a candidate or a proposal, and picks the first candidate of each name |
| Captures.Capture | src/capture.rs:91-182 | names are checked, packages and permissions chosen, the packages stored, then the permissions: every outcome and both halves of the declaration after it |
| Captures.CaptureEnds | src/capture.rs:91-182 | a misspelled or unknown name, nothing to take or a refused file leave the declaration as it was; refused permissions leave the tables; otherwise every name is in a list or had its permissions proposed |
| Captures.ProposedAre | src/capture.rs:109-117 | the permissions proposed are all there are, or with names those of the applications named |
| Captures.WriteOverrides | src/edit.rs:163-202 | every proposal's table is written, or none |
| Captures.TablesAfter | src/edit.rs:163-202 | every proposal writes its own application's table and no other table changes |
| Captures.SecondCaptureFinds | src/capture.rs:100-156 | after a written unnamed capture a second one finds no package, and no permission exactly when no application the first declared has unclaimed keys in one store alone and no key it wrote asks for nothing |
| Counterexamples.ASecondCaptureAdds | src/capture.rs:100-117 | a first capture that declares an application and a second one that writes its permissions |
| RelayRules.TheDoorScopes | src/relay/mod.rs:162-193 | a filter is let in exactly when it names something or asks for no kind the relay carries; of the events the store may hold, a filter matches only what it names exactly when it names tags or can match none of them |
| RelayRules.EventStore.Insert | src/relay/mod.rs:243-250 | an event is taken exactly when it may be held and no held event has its id, and then stands at the end; otherwise nothing changes and the reason is told |
| RelayRules.AdmissionMeans | src/relay/mod.rs:221-237 | what may be held: signed, of the two kinds, after the epoch and strictly within the window on both sides; and which refusal is told |
| RelayRules.EventStore.Evict | src/relay/mod.rs:254-257 | exactly the expired events go |
| RelayRules.EvictedIs | src/relay/mod.rs:254-257 | what is left are exactly the events received less than the time to live ago |
| RelayRules.StoreStaysProper | src/relay/mod.rs:221-257 | over every run of calls the store holds signed events of carried kinds, each id once |
| RelayRules.QueryAnswers | src/relay/mod.rs:263-276 | a query answers held events of the kinds, tags and times asked for, newest first, a hundred at most and no more than asked for; it leaves out only older ones, and only when it gave as many as it may |
| RelayRules.AnswersDiffer | src/relay/mod.rs:263-276 | no event is answered twice |
| RelayRules.TiesKeepOrder | src/relay/mod.rs:263-276 | events of one moment are answered in the order they were held in |
| RelayRules.RateLimiter.Admit | src/relay/mod.rs:308-318 | the window slides from the front, then the call is admitted or refused |
| RelayRules.NoFloodPasses | src/relay/mod.rs:308-318 | readings that fall at most d seconds behind let no more than the capacity through in any 60 - d seconds |
| RelayRules.SixtySecondsNeedTheClock | src/relay/mod.rs:308-318 | the bound of sixty seconds holds for all readings within d exactly when d is 0 |
| RelayRules.RefusalMeansSpent | src/relay/mod.rs:308-318 | a call is refused only when the capacity was admitted within the last sixty seconds, or there is none; and always then unless the clock has stepped back |
| RelayBudgets.BudgetsFollowTheReadings | src/nip46-relay.rs:226-262 | on every run a key's budget is what the limiter makes of its readings in the order they reach it, over every connection, and the events let on are those it admits |
| RelayBudgets.NoFloodReachesTheStore | src/nip46-relay.rs:226-262 | on every run, with the key's readings within d, no more of its events than the rate reach the store in any 60 - d seconds |
| RelayBudgets.RefusedWhenSpent | src/nip46-relay.rs:251-262 | an event is answered as rate-limited only when the rate's worth of its key's events passed in the sixty seconds before |
| RelayLocks.RunKeeps | src/nip46-relay.rs:130-394 | in every reachable state a lock's owner is the one thread that works inside it |
| RelayLocks.LocksAreOrdered | src/nip46-relay.rs:226-284 | limiters before store, subscriptions before outbound |
| RelayLocks.LocksExclude | src/nip46-relay.rs:143-394 | in every reachable state no two threads are inside one lock |
| RelayLocks.NoLockAcrossTheSocket | src/nip46-relay.rs:174-209 | a thread at its socket holds no lock |
| RelayLocks.NoDeadlock | src/nip46-relay.rs:63-394 | for every waiting thread some thread at most two locks ahead can step, without any client |
| RelayLocks.EveryThreadMayStep | src/nip46-relay.rs:130-394 | nothing but a lock keeps a thread from its next step, whatever the client sends, the socket does or the clock says |
| RelayDelivery.StepStands | src/nip46-relay.rs:130-394 | what every step keeps of queues, wires, registrations and the broadcast under way |
| RelayDelivery.WalkOwes | src/nip46-relay.rs:382-394 | a walk of the subscription map in any order owes each connection exactly its matching subscriptions |
| RelayDelivery.QueuesFollowTheLog | src/nip46-relay.rs:382-394 | a queue was given every broadcast in the one global order, once for each matching subscription it found, and the wire takes that in order without loss while the connection stays |
| RelayDelivery.WiresAreOrderedAndSound | src/nip46-relay.rs:382-394 | the live frames of every wire follow one global order, each for a subscription that broadcast found and whose filter matches |
| RelayPromises.TheStoreDoor | src/nip46-relay.rs:226-250 | an event goes on to its budget exactly when it is signed, of the two kinds and within the window, and is refused at once otherwise |
| RelayPromises.AcceptedIsHeld | src/nip46-relay.rs:262-299 | in every reachable state an event past its budget is answered true and held; one not held before is stored as it came and has its broadcast ahead |
| RelayPromises.AcceptedIsBroadcast | src/nip46-relay.rs:285-290 | in every continuation such an event has been broadcast or its thread carries it there, unless its socket failed |
| RelayPromises.ALostAnswerLosesTheBroadcast | src/nip46-relay.rs:285-290 | when the socket fails on the answer the event stays held and is not broadcast for as long as it is |
| RelayPromises.EveryMatchIsReached | src/nip46-relay.rs:382-394 | a broadcast reaches every matching subscription there is when it begins: once it is over the frame was queued, and is in the queue or on the wire while the connection stays |
| RelayPromises.EveryEventIsAnswered | src/nip46-relay.rs:212-304 | every EVENT is answered or under consideration unless its socket failed |
| RelayPromises.HeldForItsTime | src/relay/mod.rs:254-257 | on every run a held event stays for its time to live |
| RelayPromises.EveryQueryIsAnswered | src/nip46-relay.rs:324-346 | the events the store gives, each in its own frame, and then EOSE come on the wire in that order without a gap, unless the socket failed |
| RelayPromises.EveryQueryIsRemembered | src/nip46-relay.rs:306-354 | a REQ that passes the door is remembered, or on its way there, in every continuation until the connection closes it or breaks off |
| RelayPromises.EveryCloseIsHeard | src/nip46-relay.rs:356-366 | after a CLOSE, until the id is asked for again, nothing stands under it or it is being dropped |
| RelaySubscriptions.AFreshIdCatchesUpFirst | src/nip46-relay.rs:306-354 | for an id asked for once the wire carries replays, EOSE, then only live frames |
| RelaySubscriptions.CloseEnds | src/nip46-relay.rs:356-366 | CLOSE drops every entry of that id and no other |
| RelaySubscriptions.NothingAfterClose | src/nip46-relay.rs:356-394 | once CLOSE is handled, in any continuation in which the connection sends no new REQ for the id, nothing more is queued for it |
| RelaySubscriptions.NothingAfterLeaving | src/nip46-relay.rs:155-159 | a connection that has left is given nothing and sends nothing |
| RelayProvenance.EveryEventIsVouched | src/nip46-relay.rs:212-354 | every EVENT frame on any wire shows a signed event of a carried kind under an id asked for with a filter that passed the door and matches |

## Left out

- Convergence.ConvergeFrame: spaces around keys and the headers of emptied groups are not kept by the code and not claimed.
- KernelArgs.PlanReplaces: `rpm-ostree kargs` itself is not part of this model; deleting one equal word and appending at the end is taken as its meaning.
- UserFile.TheShellReadsTheAccount: expansions, double quotes and more than one command a line are outside the reader; the other fields are taken quote-free, as the names the schema accepts are.
- RelaySubscriptions.AFreshIdCatchesUpFirst: an id asked for a second time adds an entry, so its later replays may stand among live frames; an event stored between replay and registration can be missed or seen twice, and neither is claimed.
- RelayBudgets.NoFloodReachesTheStore: how long a thread may wait between reading the clock and having the limiters is not part of the step system, so d is the run's own.
- Captures.Capture: reading the machine, printing and the dry run are not part of it.
- PackageEdits.DeclarationFile.Declare: comments, layout and the rest of the declaration are not modelled, and of the validation only what it asks of the three lists and the override tables.
- BootPass.BootDirectory.Write: the mode of the file and the failure of the directory sync, which the code ignores, are not modelled.
- OverrideStore.ScopeStore.ConvergeStore: a write that fails leaves its file as it was; one cut off in the middle of a file is not modelled. A file that cannot be read is an empty one, as in the code.
- Relay.Do: a poisoned mutex, WebSocket framing, JSON, and signature verification are not modelled; events arrive parsed and with the fact whether their signature verifies.
- The lockfile comparison (`diff`, `LockDiff`, `repo_name`, `pinned_ref`): each is settled by reading one branch.
- `whole_days_between`, `without_slot`, `key_label` and the other one-line helpers.
- `image_stale`: one equality between two of the functions modelled here.
- Tap-qualified formula names: the declaration's names are compared as they stand, as in the code.
- Everything that spawns a process or asks the machine, the generated scripts and container files, prompts and printing.
- The bunker and its policy, the Nostr client, TLS and the keyring.
