# A verified model of a collection of small Python applications

This project models, in Dafny, the logic at the heart of thirty-one small
Python programs: a task scheduler, a library, a backup manager, address and
contact books, an API test runner, a URL shortener, a network traffic
counter, a recipe search, three image/paint editors with undo and redo, a
music player, number and Morse converters, a Caesar file encryptor, an
email slicer, contact validators, four password generators and two
password-strength scorers, two file organizers, two hangman games, two
rock-paper-scissors games and a dice roller.

Each program file has its own module.  Objects whose methods update their
fields are classes with `modifies` clauses; pure computations are functions;
loops in the source are loops with invariants here, each proved against a
function that states what it computes.  Randomness, the clock, the file
system, subprocesses and user input are parameters: a random source is a
function from the index of a draw to a number, and `randbelow(n)` is that
number modulo `n`.  Shared helpers live in `Wrappers` (`Option`), `Text`
(ASCII character classes, Python's whitespace, `strip`, `split`,
`lower`), `Seqs` (order-preserving filters and counts), `Json` (the values
of a saved record), `Patterns` (the regular expressions used by the
validators), `Paths` (`os.path.join` and `os.path.splitext`), `Charsets`
(the `string` module's character sets) and `Chance` (`choice`, `choices`
and CPython's Fisher–Yates `shuffle` over a draw source).

## Model

| member | source | states |
|---|---|---|
| TaskScheduler.PriorityOf | python_projects/042_project/task_scheduler.py:14-17 | `TaskPriority(v)` exists exactly for 1..3 and gives back the value it was built from |
| TaskScheduler.PriorityRoundTrip | python_projects/042_project/task_scheduler.py:14-17 | every priority is rebuilt from its stored value |
| TaskScheduler.StatusOf | python_projects/042_project/task_scheduler.py:19-24 | a status built from a string stores that string |
| TaskScheduler.StatusRoundTrip | python_projects/042_project/task_scheduler.py:19-24 | every status is rebuilt from its stored value |
| TaskScheduler.FrequencyOf | python_projects/042_project/task_scheduler.py:26-31 | a frequency built from a string stores that string |
| TaskScheduler.FrequencyRoundTrip | python_projects/042_project/task_scheduler.py:26-31 | every frequency is rebuilt from its stored value |
| TaskScheduler.NewTask | python_projects/042_project/task_scheduler.py:34-47 | a new task is PENDING, ONCE, without dependencies or runs, no error, retry count 0 of at most 3, created now |
| TaskScheduler.CalculateNextRun | python_projects/042_project/task_scheduler.py:170-187 | only the next run changes; ONCE sets now + 1 minute only when unset; DAILY/WEEKLY/MONTHLY set now + 1/7/30 days when unset or strictly past; CUSTOM changes nothing; any value written is after now |
| TaskScheduler.CalculateNextRunIdempotent | python_projects/042_project/task_scheduler.py:170-187 | a second computation with the same clock changes nothing |
| TaskScheduler.RankedHasNoCycle | python_projects/042_project/task_scheduler.py:151-166 | on a registry ranked by dependency, the depth-first search finds no cycle from any state it can reach |
| TaskScheduler.AcyclicRegistryNeverCycles | python_projects/042_project/task_scheduler.py:148-168 | on an acyclic registry `would_create_cycle` answers false for any new dependency, since it explores only existing edges |
| TaskScheduler.TwoStepCycleIsAccepted | python_projects/042_project/task_scheduler.py:129-168 | adding a→b and then b→a both pass the check and leave a and b depending on each other |
| TaskScheduler.PartitionByPriority | python_projects/042_project/task_scheduler.py:241-245 | sorting by priority is a permutation |
| TaskScheduler.ByPrioritySorted | python_projects/042_project/task_scheduler.py:241-245 | the sorted tasks run from high to low priority |
| TaskScheduler.ByPriorityStable | python_projects/042_project/task_scheduler.py:241-245 | tasks of one priority keep their registry order (Python's sort is stable) |
| TaskScheduler.DispatchIsSortedEligible | python_projects/042_project/task_scheduler.py:241-249 | skipping tasks at their retry limit after sorting is the same as sorting the tasks not at it |
| TaskScheduler.EligibleMembers | python_projects/042_project/task_scheduler.py:242-249 | a task is started iff its next run is set and not after now and its retry count is below its limit |
| TaskScheduler.DispatchSelection | python_projects/042_project/task_scheduler.py:236-252 | one tick starts exactly the due tasks under their retry limit, in non-increasing priority, equal priorities in registry order, each once |
| TaskScheduler.OnceTaskStaysDue | python_projects/042_project/task_scheduler.py:172-174 | a due ONCE task is selected again by every later tick while under its retry limit, since its next run is never re-armed |
| TaskScheduler.ExecutionOutcome | python_projects/042_project/task_scheduler.py:201-233 | after a run the last run is the start time; exit code 0 completes the task, clears the error and resets retries; any other code or an exception fails it with the stderr or message and one more retry |
| TaskScheduler.OnceIsNeverRearmed | python_projects/042_project/task_scheduler.py:172-174 | running a ONCE task that has a next run leaves that next run unchanged |
| TaskScheduler.FromDict | python_projects/042_project/task_scheduler.py:66-79 | `from_dict` fails on a missing key or an enum value out of range; otherwise every field of the task is the value stored under its key, the dependency list becoming a set |
| TaskScheduler.ToDictFields | python_projects/042_project/task_scheduler.py:49-57 | `to_dict` stores name, command, priority, status and frequency values, schedule and the dependency list |
| TaskScheduler.ToDictLaterFields | python_projects/042_project/task_scheduler.py:58-63 | `to_dict` stores the optional run times, creation time, error message and retry counters |
| TaskScheduler.FromDictToDict | python_projects/042_project/task_scheduler.py:49-79 | reading back a saved task gives the same task, dependency set included |
| TaskScheduler.Scheduler.constructor | python_projects/042_project/task_scheduler.py:82-90 | the scheduler starts with no tasks and nothing running |
| TaskScheduler.Scheduler.AddTask | python_projects/042_project/task_scheduler.py:105-114 | adds a new task and returns true iff the name is unused; otherwise changes nothing |
| TaskScheduler.Scheduler.SetTaskSchedule | python_projects/042_project/task_scheduler.py:116-127 | for a known task sets frequency and schedule and recomputes the next run; an unknown name returns false and changes nothing |
| TaskScheduler.Scheduler.HasCycleSearch | python_projects/042_project/task_scheduler.py:151-166 | the recursive search computes the cycle predicate and restores `visited` when it finds nothing |
| TaskScheduler.Scheduler.AddDependency | python_projects/042_project/task_scheduler.py:129-146 | succeeds iff both tasks exist, differ and no cycle is reported, then adds exactly that one dependency; otherwise changes nothing |
| TaskScheduler.Scheduler.CheckDependencies | python_projects/042_project/task_scheduler.py:194-199 | the dependencies are met iff every registered dependency is COMPLETED (unknown names are skipped) |
| TaskScheduler.Scheduler.ExecuteTask | python_projects/042_project/task_scheduler.py:189-234 | a running task is left alone; an unmet dependency only marks the task BLOCKED; otherwise the task gets its execution outcome and next run |
| TaskScheduler.Scheduler.Run | python_projects/042_project/task_scheduler.py:201-233 | the run after the dependency check stores exactly the execution outcome and leaves `running_tasks` as it was |
| Library.NewBorrowRecord | python_projects/039_project/library_management.py:32-41 | a new loan starts now, is due 14 days later, not returned, never renewed, "Borrowed", no fine |
| Library.NewBook | python_projects/039_project/library_management.py:7-19 | a new book has all its copies on the shelf, no loans and no reviews |
| Library.NewPatron | python_projects/039_project/library_management.py:21-30 | a new patron is Active with no loans, no history and no fines |
| Library.WholeDays | python_projects/039_project/library_management.py:128 | `timedelta.days` of a non-negative duration is the number of whole days in it |
| Library.OverdueFine | python_projects/039_project/library_management.py:126-131 | no fine when returned by the due date; otherwise the whole days late times the daily rate |
| Library.MeanRatingBounds | python_projects/039_project/library_management.py:179-195 | since ratings are accepted only within [1, 5], the average rating stays within [1, 5] |
| Library.PutLoan | python_projects/039_project/library_management.py:94-96 | filing one record on both the book and the patron keeps the two sides of every loan linked |
| Library.DropLoan | python_projects/039_project/library_management.py:134-136 | deleting one loan on both sides keeps the loans linked |
| Library.BookReturned | python_projects/039_project/library_management.py:134-136 | a return puts one copy back on the shelf and removes exactly the patron's loan |
| Library.PatronReturned | python_projects/039_project/library_management.py:122-142 | a return removes the loan from the patron and never lowers their fines |
| Library.Library.constructor | python_projects/039_project/library_management.py:44-50 | the library starts empty, with consistent loans and copy counts |
| Library.Library.AddBook | python_projects/039_project/library_management.py:52-61 | always succeeds; adds the copies to both counters of a known ISBN or files a new book; patrons unchanged |
| Library.Library.RegisterPatron | python_projects/039_project/library_management.py:63-68 | files a new Active patron under the generated id and returns the id |
| Library.Library.BorrowBook | python_projects/039_project/library_management.py:70-108 | succeeds iff book and patron exist, the patron is Active without fines, a copy is on the shelf and fewer than five loans are held; then one copy leaves the shelf and the same record is filed on both sides; otherwise nothing changes |
| Library.Library.ReturnBook | python_projects/039_project/library_management.py:110-146 | succeeds iff the patron holds the book; then the copy returns, the loan is removed on both sides and the overdue fine is charged; otherwise nothing changes |
| Library.Library.RenewBook | python_projects/039_project/library_management.py:148-172 | succeeds iff the loan exists, has been renewed fewer than two times and is not overdue; then the due date moves 14 days on and the renewal count rises by one |
| Library.Library.AddReview | python_projects/039_project/library_management.py:174-199 | succeeds iff book and patron exist and the rating is within [1, 5]; then the review is appended and the rating becomes the mean |
| Library.Library.PayFine | python_projects/039_project/library_management.py:201-220 | succeeds iff the patron exists and the amount does not exceed their fines; then the fines drop by the amount and the payment is logged |
| Library.RecordRoundTrip | python_projects/039_project/library_management.py:273-317 | a loan record reads back from its serialized form |
| Library.ReviewRoundTrip | python_projects/039_project/library_management.py:186-191 | a review reads back from its stored dictionary |
| Library.EntryRoundTrip | python_projects/039_project/library_management.py:99-103 | a history entry reads back from its stored dictionary |
| Library.BookFields | python_projects/039_project/library_management.py:244-258 | `_serialize_book` stores every field of the book under its key |
| Library.BookRoundTrip | python_projects/039_project/library_management.py:244-295 | `_deserialize_book(_serialize_book(b))` gives back `b`, loans and reviews included |
| Library.PatronFields | python_projects/039_project/library_management.py:260-271 | `_serialize_patron` stores every field of the patron under its key |
| Library.PatronRoundTrip | python_projects/039_project/library_management.py:260-305 | `_deserialize_patron(_serialize_patron(p))` gives back `p`, loans and history included |
| BackupManager.NewJob | python_projects/045_project/backup_manager.py:20-30 | a new job has no schedule, compresses, excludes nothing and has never been backed up |
| BackupManager.FromDict | python_projects/045_project/backup_manager.py:45-53 | `from_dict` fails on a missing key; otherwise every field of the job is the value stored under its key; with every key present it succeeds iff each value has its field's type |
| BackupManager.ToDictFields | python_projects/045_project/backup_manager.py:32-43 | `to_dict` stores each field of the job under its own key |
| BackupManager.FromDictToDict | python_projects/045_project/backup_manager.py:32-53 | reading back a saved job gives the same job |
| BackupManager.ShouldBackupFile | python_projects/045_project/backup_manager.py:129-131 | a file is backed up iff no exclusion pattern occurs anywhere in its path |
| BackupManager.WithPattern | python_projects/045_project/backup_manager.py:295-296 | adding a pattern appends it only when absent: the list grows by at most one and holds the old patterns and the new one |
| BackupManager.WithoutPattern | python_projects/045_project/backup_manager.py:307-308 | `list.remove` drops exactly one occurrence of a present pattern and leaves the list alone otherwise |
| BackupManager.WithPatternIdempotent | python_projects/045_project/backup_manager.py:295-296 | adding the same pattern twice is adding it once |
| BackupManager.WithPatternDistinct | python_projects/045_project/backup_manager.py:295-296 | adding keeps the patterns free of duplicates |
| BackupManager.WithoutWithPattern | python_projects/045_project/backup_manager.py:289-311 | removing a pattern just added gives back the old list |
| BackupManager.WithoutPatternGone | python_projects/045_project/backup_manager.py:307-308 | on duplicate-free patterns, removal leaves no occurrence of the pattern |
| BackupManager.MorePatternsExcludeMore | python_projects/045_project/backup_manager.py:129-131 | an extra pattern can only exclude more files |
| BackupManager.IncrementalHashes | python_projects/045_project/backup_manager.py:193-204 | after an incremental scan each file passing the patterns has its current hash recorded and every other key keeps its old value |
| BackupManager.IncrementalKeeps | python_projects/045_project/backup_manager.py:193-204 | a relative path the walk does not reach keeps its recorded hash, or its absence |
| BackupManager.FullScanHashes | python_projects/045_project/backup_manager.py:168-187 | the hashes a full backup records are those an incremental scan records |
| BackupManager.IncrementalIsDifferential | python_projects/045_project/backup_manager.py:189-233 | on distinct relative paths an incremental scan selects the same files as a differential scan against the same hashes |
| BackupManager.NothingChangedAfterFull | python_projects/045_project/backup_manager.py:168-233 | after a full backup, an incremental or differential backup of the unchanged tree copies nothing |
| BackupManager.Manager.constructor | python_projects/045_project/backup_manager.py:56-65 | the manager starts with no jobs |
| BackupManager.Manager.AddJob | python_projects/045_project/backup_manager.py:93-108 | succeeds iff the name is new and the source exists, then files a new job; otherwise nothing changes |
| BackupManager.Manager.RemoveJob | python_projects/045_project/backup_manager.py:110-119 | succeeds iff the job exists; afterwards it is gone and the other jobs are unchanged |
| BackupManager.Manager.RunBackup | python_projects/045_project/backup_manager.py:248-255 | true iff the job is known, which is when the source hands it to the worker |
| BackupManager.Manager.SetSchedule | python_projects/045_project/backup_manager.py:257-276 | a known job gets the schedule text and nothing else changes; an unknown one returns false |
| BackupManager.Manager.SetCompression | python_projects/045_project/backup_manager.py:278-287 | a known job gets the compression flag and nothing else changes; an unknown one returns false |
| BackupManager.Manager.AddExcludePattern | python_projects/045_project/backup_manager.py:289-299 | a known job gets the pattern added once; true even when it was already there; an unknown job returns false |
| BackupManager.Manager.RemoveExcludePattern | python_projects/045_project/backup_manager.py:301-311 | a known job loses the first occurrence of the pattern; true even when it was absent; an unknown job returns false |
| BackupManager.Manager.ScanIncremental | python_projects/045_project/backup_manager.py:191-204 | the loop collects the changed files and records their hashes as the incremental scan says |
| BackupManager.Manager.ScanDifferential | python_projects/045_project/backup_manager.py:221-233 | the loop collects the files whose hash differs from or is missing in the recorded ones, recording nothing |
| BackupManager.Manager.ScanFull | python_projects/045_project/backup_manager.py:182-187 | the loop records the hash of every file passing the patterns |
| BackupManager.Manager.FilterFiles | python_projects/045_project/backup_manager.py:173-178 | a compressed full backup writes the files passing the patterns, in walk order |
| BackupManager.Manager.ExecuteBackup | python_projects/045_project/backup_manager.py:148-166 | dispatches on the backup type: the files written and the hashes recorded are those of a full, incremental or differential backup, nothing for an unknown type, and the job records the finishing time; a backup that raised writes no finishing time and changes no field but the hashes |
| AddressBooks.AddressBook.constructor | python_projects/038_project/address_book_manager.py:8-12 | a new book has the given name, no contacts, and was created and last modified now |
| AddressBooks.AddressBook.AddContact | python_projects/038_project/address_book_manager.py:14-19 | succeeds iff the id is new; then the contact is stored under it, the id is listed last and the book is modified now; otherwise nothing changes |
| AddressBooks.AddressBook.RemoveContact | python_projects/038_project/address_book_manager.py:21-26 | succeeds iff the id is present; the id and its contact are gone, the other ids keep their order, and only a removal touches the modification time |
| AddressBooks.AddressBook.Count | python_projects/038_project/address_book_manager.py:28-29 | the count is the number of contacts, which is the number of listed ids |
| AddressBooks.FilterKeeps | python_projects/038_project/address_book_manager.py:21-26 | removing an id keeps every other id and leaves the list free of duplicates |
| AddressBooks.MergedEntries | python_projects/038_project/address_book_manager.py:62-71 | the merge holds the ids of both books; an id in one book keeps its contact; a shared id takes book 2's contact only when its `last_modified` is strictly later |
| AddressBooks.MergeSelf | python_projects/038_project/address_book_manager.py:62-71 | merging a book with itself gives its own contacts |
| AddressBooks.MergeSymmetric | python_projects/038_project/address_book_manager.py:62-71 | when shared ids hold equal contacts the merge does not depend on the order of the books |
| AddressBooks.MergedOnStep | python_projects/038_project/address_book_manager.py:65-71 | one contact of book 2 is absorbed as one step of the second loop absorbs it |
| AddressBooks.MergedIdsStep | python_projects/038_project/address_book_manager.py:65-67 | the merged id list gains book 2's id exactly when book 1 lacks it |
| AddressBooks.SeenSound | python_projects/038_project/address_book_manager.py:86-103 | each phone or email remembered is non-empty and was seen at a listed contact holding it |
| AddressBooks.DuplicatesStep | python_projects/038_project/address_book_manager.py:89-103 | one more contact extends the remembered values and the reported pairs as one loop step does |
| AddressBooks.PairForIsDuplicate | python_projects/038_project/address_book_manager.py:93-103 | the pair reported for a contact names an earlier contact sharing its phone or email |
| AddressBooks.DuplicatePairGrows | python_projects/038_project/address_book_manager.py:89-103 | a duplicate pair stays one when more contacts follow |
| AddressBooks.DuplicatesShareData | python_projects/038_project/address_book_manager.py:78-105 | every reported pair is two contacts, the first earlier, sharing a non-empty phone or email |
| AddressBooks.NoSharedDataNoDuplicates | python_projects/038_project/address_book_manager.py:78-105 | a book whose contacts share no non-empty phone or email has no duplicates |
| AddressBooks.SeenFirst | python_projects/038_project/address_book_manager.py:94-103 | a non-empty phone or email is remembered with the first contact holding it |
| AddressBooks.DuplicatesPrefixKept | python_projects/038_project/address_book_manager.py:89-105 | pairs reported for the first contacts stay reported for the whole book |
| AddressBooks.DuplicatesComplete | python_projects/038_project/address_book_manager.py:89-105 | every contact sharing a non-empty phone (or email) with an earlier one is reported, paired with the first contact holding that value |
| AddressBooks.CompareIds | python_projects/038_project/address_book_manager.py:116-123 | only-in-first, only-in-second and common are disjoint and make up both id sets |
| AddressBooks.Manager.constructor | python_projects/038_project/address_book_manager.py:32-35 | the manager starts with no books |
| AddressBooks.Manager.CreateAddressBook | python_projects/038_project/address_book_manager.py:37-45 | succeeds iff the name is new; then a fresh empty book is filed under it and no other book changes |
| AddressBooks.Manager.MergeAddressBooks | python_projects/038_project/address_book_manager.py:47-76 | succeeds iff both books exist and the merged name is new; the new book holds the merge of the two, book 1's ids in order then book 2's new ids in order; nothing else changes |
| AddressBooks.Manager.Fill | python_projects/038_project/address_book_manager.py:57-71 | the two loops build the merged contacts and ids |
| AddressBooks.Manager.FillFirst | python_projects/038_project/address_book_manager.py:62-63 | the first loop copies book 1 in its order |
| AddressBooks.Manager.FillSecond | python_projects/038_project/address_book_manager.py:65-71 | the second loop adds book 2's new ids and replaces older shared contacts |
| AddressBooks.Manager.FillStep | python_projects/038_project/address_book_manager.py:65-71 | one iteration of the second loop advances the merge by one id of book 2 |
| AddressBooks.Manager.Absorb | python_projects/038_project/address_book_manager.py:66-71 | a new id is added last; a shared id is replaced only by a strictly newer contact |
| AddressBooks.Manager.FindDuplicates | python_projects/038_project/address_book_manager.py:78-105 | an unknown book gives no pairs; a known one gives the pairs of its contacts in order |
| AddressBooks.Manager.ScanDuplicates | python_projects/038_project/address_book_manager.py:85-105 | the loop reports the duplicate pairs in the order the contacts are listed |
| AddressBooks.Manager.Note | python_projects/038_project/address_book_manager.py:93-103 | a non-empty value seen before yields the pair (first holder, this id); a new one is remembered |
| AddressBooks.Manager.Compare | python_projects/038_project/address_book_manager.py:107-123 | `{}` (None) iff a book is unknown; otherwise the three parts of the two books' ids |
| ContactBook.LayoutDigits | python_projects/037_project/contact_book.py:27 | the `(ddd) ddd-dddd` layout of ten digits holds exactly those digits |
| ContactBook.LayoutShape | python_projects/037_project/contact_book.py:27 | the layout of ten digits has the formatted shape |
| ContactBook.FormatPhone | python_projects/037_project/contact_book.py:23-28 | the digits never change; ten digits give the formatted shape; any other input is kept as given |
| ContactBook.FormatPhoneIdempotent | python_projects/037_project/contact_book.py:23-28 | formatting a formatted number changes nothing |
| ContactBook.MonthToken | python_projects/037_project/contact_book.py:51 | `%m` reads a month 1..12 from one or two characters |
| ContactBook.DayToken | python_projects/037_project/contact_book.py:51 | `%d` reads a day 1..31 from one or two characters |
| ContactBook.ParseDate | python_projects/037_project/contact_book.py:51 | whatever `strptime("%Y-%m-%d")` accepts is a real calendar day |
| ContactBook.MonthTokenOf | python_projects/037_project/contact_book.py:51 | a two-digit month is read whole |
| ContactBook.DayTokenOf | python_projects/037_project/contact_book.py:51 | a two-digit day is read whole |
| ContactBook.YearDigits | python_projects/037_project/contact_book.py:51 | four year digits give back the year |
| ContactBook.ParseFormatDate | python_projects/037_project/contact_book.py:47-54 | every calendar day reads back from its `YYYY-MM-DD` text |
| ContactBook.SpacedDayAccepted | python_projects/037_project/contact_book.py:47-54 | a space may stand for the leading zero of the day |
| ContactBook.NoFebruary29In2001 | python_projects/037_project/contact_book.py:47-54 | the 29th of February is refused outside leap years |
| ContactBook.NewContact | python_projects/037_project/contact_book.py:14-21 | a new contact stores the fields as given, with the phone formatted, and its creation time |
| ContactBook.ValidateEmail | python_projects/037_project/contact_book.py:41-45 | empty is accepted; otherwise the address must match the pattern as a whole |
| ContactBook.ValidateBirthday | python_projects/037_project/contact_book.py:47-54 | empty is accepted; otherwise valid iff it parses as a calendar day |
| ContactBook.GetAge | python_projects/037_project/contact_book.py:56-67 | `None` iff the birthday is empty or unreadable |
| ContactBook.AgeIsCompletedYears | python_projects/037_project/contact_book.py:56-67 | the age is the number of birthdays reached: the age-th anniversary is no later than today and the next is later |
| ContactBook.AppendDistinct | python_projects/037_project/contact_book.py:105-112 | appending a contact whose phone digits are free keeps the phone digits distinct |
| ContactBook.FilterDistinct | python_projects/037_project/contact_book.py:123-125 | removing contacts keeps the phone digits distinct |
| ContactBook.ContactFromRow | python_projects/037_project/contact_book.py:237 | `Contact(**row)` fails iff a column is unknown or name or phone is missing; the phone keeps its digits |
| ContactBook.ImportSkip | python_projects/037_project/contact_book.py:236-241 | a row whose phone is taken counts as skipped |
| ContactBook.ImportAdd | python_projects/037_project/contact_book.py:236-239 | a row whose phone is free adds its contact at the end and counts as imported |
| ContactBook.ImportStop | python_projects/037_project/contact_book.py:236-247 | a row without a phone, or one whose contact cannot be built, ends the import with an error |
| ContactBook.ImportFailedSticks | python_projects/037_project/contact_book.py:229-247 | once a row has ended the import with an error, the later rows change nothing |
| ContactBook.DistinctPairwise | python_projects/037_project/contact_book.py:105-121 | the phone digits are distinct exactly when no two contacts, at any two positions, share them |
| ContactBook.ImportFacts | python_projects/037_project/contact_book.py:229-247 | an import that ends normally counts each row once; old contacts stay in front; one contact per imported row; phone digits stay distinct |
| ContactBook.Book.constructor | python_projects/037_project/contact_book.py:88-94 | the book starts with no contacts and no groups |
| ContactBook.Book.PhoneExists | python_projects/037_project/contact_book.py:116-121 | true iff some contact's phone has the same digits |
| ContactBook.PhoneTakenIff | python_projects/037_project/contact_book.py:116-121 | a phone is taken exactly when some contact's phone has the same digits, at any position of the list |
| ContactBook.Book.AddContact | python_projects/037_project/contact_book.py:105-114 | added iff the phone digits are free; then the new contact is appended; otherwise nothing changes |
| ContactBook.Book.RemoveContact | python_projects/037_project/contact_book.py:123-131 | keeps, in order, exactly the contacts whose lower-cased name differs; reports success iff some name matched, iff the list got shorter |
| ContactBook.Book.SearchContact | python_projects/037_project/contact_book.py:133-142 | the contacts, in order, whose lower-cased name, email or address, or stored phone, contains the lower-cased query |
| ContactBook.Book.ImportFromCsv | python_projects/037_project/contact_book.py:229-247 | the contacts and counters are those of reading the rows in order |
| ContactBook.Book.CreateGroup | python_projects/037_project/contact_book.py:273-280 | refused iff the name is taken; otherwise an empty group is filed under it; contacts never change |
| ContactModel.NewContact | python_projects/036-project/036/models/contact.py:4-10 | the fields are stored as given, the category defaults to `General`, the creation time is the clock reading |
| ContactModel.ToDict | python_projects/036-project/036/models/contact.py:12-20 | the dictionary has exactly the six keys |
| ContactModel.FromDict | python_projects/036-project/036/models/contact.py:22-32 | fails iff name, phone, email or address is missing; otherwise name, phone, email and address are the values under their keys, and category and creation time come from the dictionary or their defaults |
| ContactModel.FromDictToDict | python_projects/036-project/036/models/contact.py:12-32 | reading back a contact's dictionary gives the same contact, whatever the clock says |
| ContactModel.FromDictDefaults | python_projects/036-project/036/models/contact.py:22-32 | a dictionary without category or timestamp gets `General` and the current time |
| ContactValidator.ValidatePhone | python_projects/036-project/036/utils/validators.py:4-7 | true iff the number, up to one final newline, is an optional `+`, an optional `1` and 9 to 15 digits |
| ContactValidator.ValidateEmail | python_projects/036-project/036/utils/validators.py:9-12 | true iff the address, up to one final newline, is local part, `@`, domain, `.` and at least two letters |
| ContactValidator.ValidateName | python_projects/036-project/036/utils/validators.py:14-16 | true iff the name has a character that is not whitespace |
| ContactValidator.PhoneExamples | python_projects/036-project/036/utils/validators.py:4-7 | `+1234567890` and `1234567890` are accepted; `123` and `abc` are refused |
| ContactValidator.EmailAccepted | python_projects/036-project/036/utils/validators.py:9-12 | `test@example.com` is accepted |
| ContactValidator.EmailRejected | python_projects/036-project/036/utils/validators.py:9-12 | `invalid_email` is refused |
| ContactValidator.AcceptedPhoneShape | python_projects/036-project/036/utils/validators.py:4-7 | an accepted number without a final newline has 9 to 17 characters, all digits after an optional `+` |
| Validators.ValidatePhone | python_projects/036-project/utils/validators.py:3-6 | the same phone pattern as the validator class |
| Validators.ValidateEmail | python_projects/036-project/utils/validators.py:8-11 | the same email pattern as the validator class |
| Validators.ValidateName | python_projects/036-project/utils/validators.py:13-15 | true iff the name has a character that is not whitespace |
| Validators.AgreeWithContactValidator | python_projects/036-project/utils/validators.py:1-15 | the three functions agree with the validator class's methods on every input |
| ApiTesting.NewTest | python_projects/049_project/api_testing_framework.py:21-35 | the method is upper-cased; every other field takes its constructor default |
| ApiTesting.UpperIdempotent | python_projects/049_project/api_testing_framework.py:24 | upper-casing an upper-cased method changes nothing |
| ApiTesting.FromDict | python_projects/049_project/api_testing_framework.py:56-69 | a missing name, endpoint or method fails; otherwise name and endpoint are the stored values, the method is the stored one upper-cased, and every other field is the value under its key or the constructor's default (200, 30, 0, empty dictionaries and lists, no body or schema); it succeeds iff each value present has its field's type |
| ApiTesting.ToDictNames | python_projects/049_project/api_testing_framework.py:37-54 | `to_dict` stores name, endpoint and method under their keys |
| ApiTesting.ToDictNumbers | python_projects/049_project/api_testing_framework.py:37-54 | `to_dict` stores status, timeout and retry count under their keys |
| ApiTesting.ToDictValues | python_projects/049_project/api_testing_framework.py:37-54 | `to_dict` stores headers, params, body and schema under their keys |
| ApiTesting.ToDictLists | python_projects/049_project/api_testing_framework.py:37-54 | `to_dict` stores the four lists under their keys |
| ApiTesting.FromDictToDict | python_projects/049_project/api_testing_framework.py:37-69 | reading back a test's dictionary gives the same test when its method is upper-case |
| ApiTesting.FromDictDefaults | python_projects/049_project/api_testing_framework.py:56-69 | a dictionary with only the three required keys gives the constructor's test |
| ApiTesting.NewResult | python_projects/049_project/api_testing_framework.py:72-79 | a new result is skipped, with no message and no response |
| ApiTesting.FirstMissing | python_projects/049_project/api_testing_framework.py:190-195 | no text is missing iff every expected text occurs, lower-cased, in the lower-cased response; otherwise the first one that does not |
| ApiTesting.VerdictFacts | python_projects/049_project/api_testing_framework.py:153-213 | passed iff a response came with the expected status, the schema, if any, accepted it and every expected text occurs; a wrong status fails with its message; error iff the request raised or schema validation crashed |
| ApiTesting.CheckContent | python_projects/049_project/api_testing_framework.py:190-195 | the content loop stops at the first missing text |
| ApiTesting.RunTest | python_projects/049_project/api_testing_framework.py:153-213 | the result of one run is the verdict on its exchange |
| ApiTesting.CountsAddUp | python_projects/049_project/api_testing_framework.py:298-302 | passed, failed, error and skipped counts add up to the number of results |
| ApiTesting.Runner.constructor | python_projects/049_project/api_testing_framework.py:91-99 | the runner starts with no tests and no results |
| ApiTesting.Runner.AddTest | python_projects/049_project/api_testing_framework.py:131-140 | refused iff the name is registered; otherwise the test is filed under its name |
| ApiTesting.Runner.RemoveTest | python_projects/049_project/api_testing_framework.py:142-151 | succeeds iff the name is registered; afterwards it is gone and the order of the others is kept |
| ApiTesting.Runner.RunAllTests | python_projects/049_project/api_testing_framework.py:215-228 | one result per registered test, in order, each the verdict on that test's exchange |
| ApiTesting.DistinctFilter | python_projects/049_project/api_testing_framework.py:142-151 | removing a name keeps the registered names distinct |
| UrlShortener.Alphabet | python_projects/012_project/url_shortener.py:26 | the alphabet has 62 characters |
| UrlShortener.AlphabetIsAlnum | python_projects/012_project/url_shortener.py:26 | every character of the alphabet is a letter or a digit |
| UrlShortener.CodeOf | python_projects/012_project/url_shortener.py:28 | a drawn code has one letter or digit per draw |
| UrlShortener.FindCode | python_projects/012_project/url_shortener.py:35-36 | the first row holding the code, or none iff no row holds it |
| UrlShortener.FindUrl | python_projects/012_project/url_shortener.py:45-46 | the first row holding the URL, or none iff no row holds it |
| UrlShortener.Click | python_projects/012_project/url_shortener.py:65-68 | exactly the rows holding the code gain one click; nothing else changes |
| UrlShortener.ClickKeepsLookups | python_projects/012_project/url_shortener.py:65-71 | a click keeps the codes unique and every lookup by code or URL unchanged |
| UrlShortener.ClickOneRow | python_projects/012_project/url_shortener.py:65-68 | with unique codes, only the code's own row gains a click |
| UrlShortener.VisitAddsOneClick | python_projects/012_project/url_shortener.py:61-96 | after a visit the code's statistics show one more click and the same URL and time |
| UrlShortener.Shortener.constructor | python_projects/012_project/url_shortener.py:7-23 | a new table is empty |
| UrlShortener.Shortener.CodeExists | python_projects/012_project/url_shortener.py:32-38 | true iff some row holds the code |
| UrlShortener.Shortener.GenerateShortCode | python_projects/012_project/url_shortener.py:25-30 | the code returned is one of the drawn codes, has the requested length of letters and digits and is not in the table; none only when every drawn code was taken |
| UrlShortener.Shortener.ShortenUrl | python_projects/012_project/url_shortener.py:40-59 | a known URL gives back its code and changes nothing; a new one gets a fresh six-character code in a new row with no clicks |
| UrlShortener.Shortener.GetOriginalUrl | python_projects/012_project/url_shortener.py:61-76 | counts the click first, then gives the URL of a known code, and none iff the code is unknown |
| UrlShortener.Shortener.GetStats | python_projects/012_project/url_shortener.py:78-96 | the URL, creation time and clicks of the code's row, none iff the code is unknown |
| NetworkTraffic.GetProtocol | python_projects/048_project/network_traffic_analyzer.py:136-150 | each of the seven protocol names, with both directions of its condition: TCP before UDP before ICMP; port 80 on either side before 443; port 53 for DNS |
| NetworkTraffic.Port80Wins | python_projects/048_project/network_traffic_analyzer.py:138-142 | a TCP packet between ports 80 and 443 is HTTP whichever side each port is on |
| NetworkTraffic.Bump | python_projects/048_project/network_traffic_analyzer.py:117 | the counter of the key goes up by one, starting from zero, and no other counter changes |
| NetworkTraffic.TotalBump | python_projects/048_project/network_traffic_analyzer.py:117 | counting a packet under a protocol adds one to the sum of the protocol counters |
| NetworkTraffic.SameAddressTwice | python_projects/048_project/network_traffic_analyzer.py:120-124 | an address on both sides of a packet is counted twice |
| NetworkTraffic.Min | python_projects/048_project/network_traffic_analyzer.py:170 | `min` is an element no larger than any other |
| NetworkTraffic.Max | python_projects/048_project/network_traffic_analyzer.py:171 | `max` is an element no smaller than any other |
| NetworkTraffic.SizeStatsOf | python_projects/048_project/network_traffic_analyzer.py:164-173 | `{}` iff there are no sizes; otherwise min and max are sizes bounding every size |
| NetworkTraffic.SumBounds | python_projects/048_project/network_traffic_analyzer.py:172 | the sum lies between count times the smallest and count times the largest size |
| NetworkTraffic.RealBounds | python_projects/048_project/network_traffic_analyzer.py:172 | a sum within those bounds divided by the count lies between the bounds |
| NetworkTraffic.AverageBetween | python_projects/048_project/network_traffic_analyzer.py:164-173 | the mean lies between the smallest and the largest size |
| NetworkTraffic.Analyzer.constructor | python_projects/048_project/network_traffic_analyzer.py:25-37 | every statistic starts at zero or empty |
| NetworkTraffic.Analyzer.ProcessPacket | python_projects/048_project/network_traffic_analyzer.py:109-134 | one more packet overall and under its protocol; both addresses of an IP packet and both ports of a TCP packet counted; the time and size appended |
| NetworkTraffic.Analyzer.PacketSizeStats | python_projects/048_project/network_traffic_analyzer.py:164-173 | `{}` iff no packet was seen; otherwise min is at most max |
| RecipeSearch.ContainsEmpty | python_projects/027_project/recipe_search.py:7-10 | the empty text occurs in every text, so an empty query matches every recipe |
| RecipeSearch.SearchRecipes | python_projects/027_project/recipe_search.py:5-10 | with no text and no category (or "All") the answer is the newest-first list of every recipe; otherwise it is the stored rows, in stored order, whose lower-cased name or ingredients contain the lower-cased text and whose category matches when one is asked for |
| RecipeSearch.SearchMembers | python_projects/027_project/recipe_database.py:79-97 | whichever branch answers, a recipe is in the result iff it is in the table and matches the text and category |
| RecipeSearch.SearchStoredOrder | python_projects/027_project/recipe_database.py:84-97 | a filtering query returns two matching rows in the order they are stored |
| Seqs.FilterAt | python_projects/027_project/recipe_database.py:96-97 | a kept row sits in the result right after the rows kept before it |
| Seqs.FilterOrder | python_projects/027_project/recipe_database.py:96-97 | two kept rows keep their relative order |
| RecipeSearch.SearchByIngredients | python_projects/027_project/recipe_search.py:12-22 | the loop keeps, in order, the recipes holding every requested ingredient |
| RecipeSearch.SearchByIngredientsMembers | python_projects/027_project/recipe_search.py:17-20 | a recipe is kept iff every ingredient, lower-cased, occurs in its lower-cased ingredients |
| RecipeSearch.NoIngredientsAll | python_projects/027_project/recipe_search.py:19 | asking for no ingredient keeps every recipe |
| RecipeSearch.ScoredStep | python_projects/027_project/recipe_search.py:29-37 | one more recipe adds a suggestion iff it scores above zero |
| RecipeSearch.ScoredMembers | python_projects/027_project/recipe_search.py:29-37 | a suggestion is collected exactly for a recipe scoring above zero, with its score |
| RecipeSearch.Insert | python_projects/027_project/recipe_search.py:40 | insertion adds exactly the new suggestion |
| RecipeSearch.SortDesc | python_projects/027_project/recipe_search.py:40 | the sort is a permutation |
| RecipeSearch.InsertDescending | python_projects/027_project/recipe_search.py:40 | insertion keeps the scores non-increasing |
| RecipeSearch.InsertStable | python_projects/027_project/recipe_search.py:40 | insertion puts the suggestion last among equal scores and leaves the other scores alone |
| RecipeSearch.SortDescending | python_projects/027_project/recipe_search.py:40 | the sorted scores are non-increasing |
| RecipeSearch.SortStable | python_projects/027_project/recipe_search.py:40 | within each score the suggestions keep their order, as Python's stable sort keeps them |
| RecipeSearch.SortMembers | python_projects/027_project/recipe_search.py:40 | the sort keeps exactly the suggestions it was given |
| RecipeSearch.RecipesOf | python_projects/027_project/recipe_search.py:41 | the recipes of the suggestions, one each, in order |
| RecipeSearch.RankedMember | python_projects/027_project/recipe_search.py:29-41 | a recipe is ranked iff it scores above zero |
| RecipeSearch.RankedFacts | python_projects/027_project/recipe_search.py:29-41 | ranking keeps exactly the recipes scoring above zero, in non-increasing score |
| RecipeSearch.GetRecipeSuggestions | python_projects/027_project/recipe_search.py:24-41 | the loop, the sort and the projection give the suggestions |
| RecipeSearch.SuggestionsFacts | python_projects/027_project/recipe_search.py:24-41 | the suggestions are the recipes matching some ingredient, by non-increasing match count, equal counts in list order |
| RecipeSearch.NoIngredientsNoSuggestions | python_projects/027_project/recipe_search.py:31-36 | no requested ingredient gives no suggestion, so the division by zero is never reached |
| RecipeSearch.ScoreOrder | python_projects/027_project/recipe_search.py:36-40 | with a common denominator, ordering by score is ordering by match count |
| ImageEditor.PushOf | python_projects/028_project/image_editor.py:210-213 | the current picture goes on top of the undo stack and the redo stack is emptied |
| ImageEditor.UndoOf | python_projects/028_project/image_editor.py:215-221 | nothing on an empty undo stack; otherwise the current picture goes to redo and the undo top becomes current; the pictures held stay as many |
| ImageEditor.RedoOf | python_projects/028_project/image_editor.py:223-229 | the mirror image of undo |
| ImageEditor.RedoUndo | python_projects/028_project/image_editor.py:215-229 | an undo that did something is taken back by a redo: picture and both stacks as before |
| ImageEditor.UndoRedo | python_projects/028_project/image_editor.py:215-229 | a redo that did something is taken back by an undo |
| ImageEditor.EditOf | python_projects/028_project/image_editor.py:243-319 | every edit does nothing without a picture; otherwise it pushes the picture, clears redo and shows the edited picture |
| ImageEditor.UndoEdit | python_projects/028_project/image_editor.py:210-319 | an undo after an edit gives back the picture and the undo stack from before the edit |
| ImageEditor.ResetOf | python_projects/028_project/image_editor.py:231-237 | nothing without an original; otherwise the picture is pushed and the original becomes current |
| ImageEditor.OpenOf | python_projects/028_project/image_editor.py:137-141 | a loaded picture is both original and current, and both stacks are empty |
| ImageEditor.Editor.constructor | python_projects/028_project/image_editor.py:13-18 | no picture and empty stacks |
| ImageEditor.Editor.OpenImage | python_projects/028_project/image_editor.py:130-146 | a cancelled dialog or a failed load changes nothing; a loaded picture opens as the open step says |
| ImageEditor.Editor.PushUndo | python_projects/028_project/image_editor.py:210-213 | the state becomes the push of the old one |
| ImageEditor.Editor.Undo | python_projects/028_project/image_editor.py:215-221 | the state becomes the undo of the old one |
| ImageEditor.Editor.Redo | python_projects/028_project/image_editor.py:223-229 | the state becomes the redo of the old one |
| ImageEditor.Editor.ResetImage | python_projects/028_project/image_editor.py:231-237 | the state becomes the reset of the old one |
| ImageEditor.Editor.ApplyEdit | python_projects/028_project/image_editor.py:243-319 | the state becomes the edit of the old one |
| ThemedImageEditor.PushOf | python_projects/023_project/themes/image_editor/image_editor.py:44-47 | nothing without a picture; otherwise a copy goes on the undo stack and the redo stack is cleared |
| ThemedImageEditor.LoadOf | python_projects/023_project/themes/image_editor/image_editor.py:23-32 | true iff the picture opened; then it is current and original, the file is remembered and it is pushed; otherwise nothing changes |
| ThemedImageEditor.UndoOf | python_projects/023_project/themes/image_editor/image_editor.py:49-54 | only with more than one picture stacked: the top moves to redo and the picture below it is shown |
| ThemedImageEditor.RedoOf | python_projects/023_project/themes/image_editor/image_editor.py:56-61 | with something to redo, its top moves back to the undo stack and is shown |
| ThemedImageEditor.RedoUndo | python_projects/023_project/themes/image_editor/image_editor.py:49-61 | a redo after a successful undo puts both stacks back and shows the top picture |
| ThemedImageEditor.EditOf | python_projects/023_project/themes/image_editor/image_editor.py:63-127 | false and nothing changed without a picture; otherwise the picture is pushed, then replaced by the result, or kept when the operation raised |
| ThemedImageEditor.UndoAfterTwoEdits | python_projects/023_project/themes/image_editor/image_editor.py:23-127 | after loading and two edits, an undo shows the loaded picture rather than the first edit's result, because the picture shown is pushed before it is edited |
| ThemedImageEditor.Editor.constructor | python_projects/023_project/themes/image_editor/image_editor.py:16-21 | no picture, no file, empty stacks |
| ThemedImageEditor.Editor.PushToUndoStack | python_projects/023_project/themes/image_editor/image_editor.py:44-47 | the state becomes the push of the old one |
| ThemedImageEditor.Editor.LoadImage | python_projects/023_project/themes/image_editor/image_editor.py:23-32 | the state and the answer are those of the load step |
| ThemedImageEditor.Editor.Undo | python_projects/023_project/themes/image_editor/image_editor.py:49-54 | the state and the answer are those of the undo step |
| ThemedImageEditor.Editor.Redo | python_projects/023_project/themes/image_editor/image_editor.py:56-61 | the state and the answer are those of the redo step |
| ThemedImageEditor.Editor.ApplyEdit | python_projects/023_project/themes/image_editor/image_editor.py:63-127 | the state and the answer are those of the edit step |
| PaintApp.SaveGroup | python_projects/015_project/paint_app.py:125-131 | a group is saved stroke by stroke, in order, without ids |
| PaintApp.SaveHistory | python_projects/015_project/paint_app.py:123-132 | the history is saved group by group, in order |
| PaintApp.Redraw | python_projects/015_project/paint_app.py:146-157 | a saved group drawn again gets consecutive new ids |
| PaintApp.SaveRedraw | python_projects/015_project/paint_app.py:106-157 | redrawing changes nothing but the ids |
| PaintApp.Paint.constructor | python_projects/015_project/paint_app.py:11-23 | black, not drawing, empty history and redo stack |
| PaintApp.Paint.ChooseColor | python_projects/015_project/paint_app.py:59-62 | the chosen colour, unless the chooser was cancelled |
| PaintApp.Paint.StartDrawing | python_projects/015_project/paint_app.py:64-68 | drawing starts at the pressed point with an empty group |
| PaintApp.Paint.Draw | python_projects/015_project/paint_app.py:70-86 | while drawing, one stroke from the last point to this one is added and this point becomes the last; otherwise nothing |
| PaintApp.Paint.StopDrawing | python_projects/015_project/paint_app.py:88-92 | a non-empty group drawn goes on the history and clears redo; drawing ends either way |
| PaintApp.Paint.ClearCanvas | python_projects/015_project/paint_app.py:94-97 | history and redo stack are emptied |
| PaintApp.Paint.Undo | python_projects/015_project/paint_app.py:99-104 | the last group moves from the history to the redo stack; nothing when the history is empty |
| PaintApp.Paint.Redo | python_projects/015_project/paint_app.py:106-119 | the last undone group is drawn again under new ids and goes back on the history |
| PaintApp.Paint.SaveDrawing | python_projects/015_project/paint_app.py:121-135 | what is written is the saved form of the history |
| PaintApp.Paint.LoadDrawing | python_projects/015_project/paint_app.py:140-157 | the canvas is cleared and the history saves back to exactly the data loaded |
| PaintApp.SaveLoadRoundTrip | python_projects/015_project/paint_app.py:121-157 | loading what was saved gives the same groups and strokes, ids aside |
| PaintApp.UndoRedoSaves | python_projects/015_project/paint_app.py:99-135 | an undo then a redo leave the history saving to the same data |
| MusicPlayer.Basename | python_projects/023_project/themes/music_player/music_player.py:47 | the base name is the part after the last `/`, the whole path when there is none, and holds no `/` |
| MusicPlayer.TwoDigits | python_projects/023_project/themes/music_player/music_player.py:49 | two decimal digits that read back as the number |
| MusicPlayer.DurationStr | python_projects/023_project/themes/music_player/music_player.py:49 | `%M:%S` is five characters with a colon in the middle |
| MusicPlayer.DurationStrReadsBack | python_projects/023_project/themes/music_player/music_player.py:49 | reading `MM:SS` back gives the length modulo an hour |
| MusicPlayer.TrackInfo | python_projects/023_project/themes/music_player/music_player.py:43-50 | the track info keeps the path and whole seconds, its title has no `/` |
| MusicPlayer.PyIndex | python_projects/023_project/themes/music_player/music_player.py:59 | Python list indexing: in range iff `-len <= i < len`, negative indices counted from the end |
| MusicPlayer.AddTrackOf | python_projects/023_project/themes/music_player/music_player.py:37-41 | one more track at the end when the file exists, nothing otherwise |
| MusicPlayer.PlayOf | python_projects/023_project/themes/music_player/music_player.py:52-63 | nothing on an empty playlist; otherwise the index given becomes current, and the track there is loaded and playing, unpaused, or `IndexError` is raised with the index already set |
| MusicPlayer.PauseOf | python_projects/023_project/themes/music_player/music_player.py:65-71 | only the paused flag changes: set iff it was playing and not paused |
| MusicPlayer.PauseTwice | python_projects/023_project/themes/music_player/music_player.py:65-71 | pausing twice while playing puts the flags back |
| MusicPlayer.StopOf | python_projects/023_project/themes/music_player/music_player.py:73-76 | not playing and not paused, nothing else changed |
| MusicPlayer.NextOf | python_projects/023_project/themes/music_player/music_player.py:78-82 | on a non-empty playlist the next index, wrapping round, is playing its track |
| MusicPlayer.PrevOf | python_projects/023_project/themes/music_player/music_player.py:84-88 | on a non-empty playlist the previous index, wrapping round, is playing its track |
| MusicPlayer.StepBack | python_projects/023_project/themes/music_player/music_player.py:81-87 | one step on and one back round `n` tracks returns to the index |
| MusicPlayer.PrevAfterNext | python_projects/023_project/themes/music_player/music_player.py:78-88 | from a track on the playlist, previous after next plays the same track |
| MusicPlayer.Clamp | python_projects/023_project/themes/music_player/music_player.py:91 | the volume is clamped to 0.0..1.0, kept when inside |
| MusicPlayer.Player.constructor | python_projects/023_project/themes/music_player/music_player.py:11-23 | no track, not playing, index 0, volume 0.5, the saved playlist |
| MusicPlayer.Player.AddTrack | python_projects/023_project/themes/music_player/music_player.py:37-41 | the state becomes that of adding the track |
| MusicPlayer.Player.Play | python_projects/023_project/themes/music_player/music_player.py:52-63 | the state and the error are those of playing |
| MusicPlayer.Player.Pause | python_projects/023_project/themes/music_player/music_player.py:65-71 | the state becomes that of pausing |
| MusicPlayer.Player.Stop | python_projects/023_project/themes/music_player/music_player.py:73-76 | the state becomes that of stopping |
| MusicPlayer.Player.NextTrack | python_projects/023_project/themes/music_player/music_player.py:78-82 | the state becomes that of going on one track |
| MusicPlayer.Player.PrevTrack | python_projects/023_project/themes/music_player/music_player.py:84-88 | the state becomes that of going back one track |
| MusicPlayer.Player.SetVolume | python_projects/023_project/themes/music_player/music_player.py:90-92 | only the volume changes, to the clamped value |
| NumberConverter.Numeral | python_projects/039_project/number_converter.py:8-22 | each digit is written as a decimal digit or an upper-case letter |
| NumberConverter.DigitsOf | python_projects/039_project/number_converter.py:7-9 | the digits of a number are empty iff it is zero and never start with `0` |
| NumberConverter.Abs | python_projects/039_project/number_converter.py:6 | `abs` is the number or its negation |
| NumberConverter.FormatShape | python_projects/039_project/number_converter.py:1-26 | zero is `"0"`; otherwise a `-` exactly for a negative number, then the digits of its absolute value without a leading zero |
| NumberConverter.DecimalToBinary | python_projects/039_project/number_converter.py:1-12 | the loop writes the binary form of the number |
| NumberConverter.DecimalToHex | python_projects/039_project/number_converter.py:14-26 | the loop writes the hexadecimal form of the number |
| NumberConverter.DigitValue | python_projects/039_project/number_converter.py:33-44 | `int` gives a value below 36 exactly to ASCII digits and letters |
| NumberConverter.Unsign | python_projects/039_project/number_converter.py:33-44 | `int` takes off one leading sign and notes whether it was `-` |
| NumberConverter.Unprefix | python_projects/039_project/number_converter.py:33-44 | `int` takes off a `0b` or `0x` prefix, with one underscore after it, and nothing else |
| NumberConverter.BinaryToDecimal | python_projects/039_project/number_converter.py:28-36 | `None` where `int` raises; a leading `-` negates what the rest reads as; `int` skips the ASCII space, `\t` to `\r` and non-ASCII whitespace around the number, but not `\x1c` to `\x1f` |
| NumberConverter.HexToDecimal | python_projects/039_project/number_converter.py:38-46 | the same in base 16 |
| NumberConverter.NumeralValue | python_projects/039_project/number_converter.py:8-44 | every digit written reads back as itself |
| NumberConverter.DigitsValue | python_projects/039_project/number_converter.py:7-9 | the digits of a number read back as the number |
| NumberConverter.IntOfDigits | python_projects/039_project/number_converter.py:7-44 | `int` reads the digits of a positive number back as the number |
| NumberConverter.IntStrip | python_projects/039_project/number_converter.py:34 | the whitespace `int` skips (not the separators `\x1c`-`\x1f`) is gone from both ends, and nothing is added |
| NumberConverter.IntStripKeeps | python_projects/039_project/number_converter.py:34 | stripping keeps every character `int` does not skip |
| NumberConverter.IntOfClean | python_projects/039_project/number_converter.py:34 | text with none of the whitespace `int` skips at either end is read as it stands |
| NumberConverter.PlainDigits | python_projects/039_project/number_converter.py:34 | well-formed digits without a prefix read as their value |
| NumberConverter.RoundTrip | python_projects/039_project/number_converter.py:1-46 | reading back what a conversion wrote gives the number, in both bases, for every integer |
| NumberConverter.PositiveRoundTrip | python_projects/039_project/number_converter.py:1-46 | the round trip for a positive number |
| NumberConverter.NegativeRoundTrip | python_projects/039_project/number_converter.py:1-46 | the round trip for a negative number |
| NumberConverter.ZeroRoundTrip | python_projects/039_project/number_converter.py:1-46 | the round trip for zero |
| NumberConverter.SignedMinus | python_projects/039_project/number_converter.py:32-33 | a leading `-` negates what the rest reads as |
| NumberConverter.SignedPlain | python_projects/039_project/number_converter.py:34 | text without a leading `-` is read as it is |
| NumberConverter.BinaryRoundTrip | python_projects/039_project/number_converter.py:1-36 | `binary_to_decimal(decimal_to_binary(n)) == n` |
| NumberConverter.HexRoundTrip | python_projects/039_project/number_converter.py:14-46 | `hex_to_decimal(decimal_to_hex(n)) == n` |
| NumberConverter.StrayCharRejected | python_projects/039_project/number_converter.py:28-46 | a character that is no digit of the base, sign, underscore, whitespace `int` skips or prefix letter makes the result `None` |
| NumberConverter.SeparatorNotSkipped | python_projects/039_project/number_converter.py:28-46 | a leading `\x1c` or trailing `\x1f` is not skipped by `int`, so binary and hex conversion give `None` |
| NumberConverter.NoBreakSpaceSkipped | python_projects/039_project/number_converter.py:34 | a leading no-break space is skipped and `"1"` after it reads as 1 |
| NumberConverter.DoubleMinus | python_projects/039_project/number_converter.py:32-33 | `int` takes a sign of its own, so `"--1"` reads as 1 rather than failing |
| NumberConverter.NegatedDigits | python_projects/039_project/number_converter.py:34 | `int` reads `-` then well-formed digits as the negated value |
| NumberConverter.LowerHexAccepted | python_projects/039_project/number_converter.py:38-46 | lower-case hexadecimal digits are read as well |
| NumberConverter.TwoIsNotBinary | python_projects/039_project/number_converter.py:28-36 | `"102"` is not binary |
| MorseTranslator.CodeShape | python_projects/046_project/morse_translator.py:1-12 | the table has a code for exactly the upper-case letters, the digits and the space; the space's is a space, every other is one to five dots and dashes |
| MorseTranslator.CodeShapeAM | python_projects/046_project/morse_translator.py:4-7 | the same for the letters A to M |
| MorseTranslator.CodeShapeNZ | python_projects/046_project/morse_translator.py:6-9 | the same for the letters N to Z |
| MorseTranslator.CodeShapeDigit | python_projects/046_project/morse_translator.py:9-11 | the same for the digits |
| MorseTranslator.KeyBounds | python_projects/046_project/morse_translator.py:28 | codes of different lengths have keys in disjoint ranges |
| MorseTranslator.KeySnoc | python_projects/046_project/morse_translator.py:28 | a code's key is three times the key without its last signal, plus that signal |
| MorseTranslator.KeyLast | python_projects/046_project/morse_translator.py:28 | equal keys of equal-length codes have equal last signals and equal keys before them |
| MorseTranslator.KeyInjective | python_projects/046_project/morse_translator.py:28 | different codes have different keys, so inverting the table loses no entry |
| MorseTranslator.EntryA | python_projects/046_project/morse_translator.py:4 | the table maps `A` to its code, and the inverted table maps the code back to `A` |
| MorseTranslator.EntryB | python_projects/046_project/morse_translator.py:4 | the table maps `B` to its code, and the inverted table maps the code back to `B` |
| MorseTranslator.EntryC | python_projects/046_project/morse_translator.py:4 | the table maps `C` to its code, and the inverted table maps the code back to `C` |
| MorseTranslator.EntryD | python_projects/046_project/morse_translator.py:4 | the table maps `D` to its code, and the inverted table maps the code back to `D` |
| MorseTranslator.EntryE | python_projects/046_project/morse_translator.py:4 | the table maps `E` to its code, and the inverted table maps the code back to `E` |
| MorseTranslator.EntryF | python_projects/046_project/morse_translator.py:5 | the table maps `F` to its code, and the inverted table maps the code back to `F` |
| MorseTranslator.EntryG | python_projects/046_project/morse_translator.py:5 | the table maps `G` to its code, and the inverted table maps the code back to `G` |
| MorseTranslator.EntryH | python_projects/046_project/morse_translator.py:5 | the table maps `H` to its code, and the inverted table maps the code back to `H` |
| MorseTranslator.EntryI | python_projects/046_project/morse_translator.py:5 | the table maps `I` to its code, and the inverted table maps the code back to `I` |
| MorseTranslator.EntryJ | python_projects/046_project/morse_translator.py:5 | the table maps `J` to its code, and the inverted table maps the code back to `J` |
| MorseTranslator.EntryK | python_projects/046_project/morse_translator.py:6 | the table maps `K` to its code, and the inverted table maps the code back to `K` |
| MorseTranslator.EntryL | python_projects/046_project/morse_translator.py:6 | the table maps `L` to its code, and the inverted table maps the code back to `L` |
| MorseTranslator.EntryM | python_projects/046_project/morse_translator.py:6 | the table maps `M` to its code, and the inverted table maps the code back to `M` |
| MorseTranslator.EntryN | python_projects/046_project/morse_translator.py:6 | the table maps `N` to its code, and the inverted table maps the code back to `N` |
| MorseTranslator.EntryO | python_projects/046_project/morse_translator.py:6 | the table maps `O` to its code, and the inverted table maps the code back to `O` |
| MorseTranslator.EntryP | python_projects/046_project/morse_translator.py:7 | the table maps `P` to its code, and the inverted table maps the code back to `P` |
| MorseTranslator.EntryQ | python_projects/046_project/morse_translator.py:7 | the table maps `Q` to its code, and the inverted table maps the code back to `Q` |
| MorseTranslator.EntryR | python_projects/046_project/morse_translator.py:7 | the table maps `R` to its code, and the inverted table maps the code back to `R` |
| MorseTranslator.EntryS | python_projects/046_project/morse_translator.py:7 | the table maps `S` to its code, and the inverted table maps the code back to `S` |
| MorseTranslator.EntryT | python_projects/046_project/morse_translator.py:7 | the table maps `T` to its code, and the inverted table maps the code back to `T` |
| MorseTranslator.EntryU | python_projects/046_project/morse_translator.py:8 | the table maps `U` to its code, and the inverted table maps the code back to `U` |
| MorseTranslator.EntryV | python_projects/046_project/morse_translator.py:8 | the table maps `V` to its code, and the inverted table maps the code back to `V` |
| MorseTranslator.EntryW | python_projects/046_project/morse_translator.py:8 | the table maps `W` to its code, and the inverted table maps the code back to `W` |
| MorseTranslator.EntryX | python_projects/046_project/morse_translator.py:8 | the table maps `X` to its code, and the inverted table maps the code back to `X` |
| MorseTranslator.EntryY | python_projects/046_project/morse_translator.py:8 | the table maps `Y` to its code, and the inverted table maps the code back to `Y` |
| MorseTranslator.EntryZ | python_projects/046_project/morse_translator.py:9 | the table maps `Z` to its code, and the inverted table maps the code back to `Z` |
| MorseTranslator.EntryDigit1 | python_projects/046_project/morse_translator.py:9 | the table maps `1` to its code, and the inverted table maps the code back to `1` |
| MorseTranslator.EntryDigit2 | python_projects/046_project/morse_translator.py:9 | the table maps `2` to its code, and the inverted table maps the code back to `2` |
| MorseTranslator.EntryDigit3 | python_projects/046_project/morse_translator.py:9 | the table maps `3` to its code, and the inverted table maps the code back to `3` |
| MorseTranslator.EntryDigit4 | python_projects/046_project/morse_translator.py:9 | the table maps `4` to its code, and the inverted table maps the code back to `4` |
| MorseTranslator.EntryDigit5 | python_projects/046_project/morse_translator.py:10 | the table maps `5` to its code, and the inverted table maps the code back to `5` |
| MorseTranslator.EntryDigit6 | python_projects/046_project/morse_translator.py:10 | the table maps `6` to its code, and the inverted table maps the code back to `6` |
| MorseTranslator.EntryDigit7 | python_projects/046_project/morse_translator.py:10 | the table maps `7` to its code, and the inverted table maps the code back to `7` |
| MorseTranslator.EntryDigit8 | python_projects/046_project/morse_translator.py:10 | the table maps `8` to its code, and the inverted table maps the code back to `8` |
| MorseTranslator.EntryDigit9 | python_projects/046_project/morse_translator.py:10 | the table maps `9` to its code, and the inverted table maps the code back to `9` |
| MorseTranslator.EntryDigit0 | python_projects/046_project/morse_translator.py:11 | the table maps `0` to its code, and the inverted table maps the code back to `0` |
| MorseTranslator.FromKeyCode | python_projects/046_project/morse_translator.py:28 | every character the inverted table gives is one whose code has that key |
| MorseTranslator.FromKeyCode1 | python_projects/046_project/morse_translator.py:28 | the same for keys up to 8 |
| MorseTranslator.FromKeyCode13 | python_projects/046_project/morse_translator.py:28 | the same for keys 13 to 23 |
| MorseTranslator.FromKeyCode25 | python_projects/046_project/morse_translator.py:28 | the same for keys 25 to 49 |
| MorseTranslator.FromKeyCode52 | python_projects/046_project/morse_translator.py:28 | the same for keys 52 to 71 |
| MorseTranslator.FromKeyCode76 | python_projects/046_project/morse_translator.py:28 | the same for keys 76 to 134 |
| MorseTranslator.FromKeyCode161 | python_projects/046_project/morse_translator.py:28 | the same for keys 161 to 242 |
| MorseTranslator.DecodeSound | python_projects/046_project/morse_translator.py:28 | whatever the inverted table answers, the table maps that character to the code read |
| MorseTranslator.DecodeComplete | python_projects/046_project/morse_translator.py:28 | every code in the table reads back as its character |
| MorseTranslator.Piece | python_projects/046_project/morse_translator.py:20-23 | a known character is written as its code, any other as itself |
| MorseTranslator.SpelledSnoc | python_projects/046_project/morse_translator.py:19-23 | one more character adds its piece and a space |
| MorseTranslator.TextToMorse | python_projects/046_project/morse_translator.py:14-24 | the loop writes the pieces of the upper-cased text, each followed by a space, and strips the result |
| MorseTranslator.Read | python_projects/046_project/morse_translator.py:32-35 | a known code is read as its character, any other word as itself |
| MorseTranslator.ReadAllSnoc | python_projects/046_project/morse_translator.py:31-35 | one more word adds what it reads as |
| MorseTranslator.MorseToText | python_projects/046_project/morse_translator.py:26-36 | the loop reads the whitespace-separated words in order |
| MorseTranslator.Visible | python_projects/046_project/morse_translator.py:31 | the characters `split` keeps hold no whitespace |
| MorseTranslator.ReadPiece | python_projects/046_project/morse_translator.py:14-36 | a character other than whitespace, `.` and `-` reads back from its piece as itself |
| MorseTranslator.ReadSpelled | python_projects/046_project/morse_translator.py:14-36 | reading back what was written gives the visible characters, for text without `.` and `-` |
| MorseTranslator.RoundTrip | python_projects/046_project/morse_translator.py:14-36 | translating to Morse and back gives the upper-cased text without whitespace, when it holds no `.` or `-` |
| MorseTranslator.RoundTripPlain | python_projects/046_project/morse_translator.py:14-36 | upper-case letters and digits come back exactly |
| MorseTranslator.RoundTripUpper | python_projects/046_project/morse_translator.py:14-36 | upper-case text without `.` or `-` comes back as itself without whitespace |
| MorseTranslator.SpelledSignals | python_projects/046_project/morse_translator.py:19-23 | letters, digits and spaces are written with signals only |
| MorseTranslator.SignalsOnly | python_projects/046_project/morse_translator.py:14-24 | the Morse of letters, digits and spaces holds only dots, dashes and spaces |
| MorseTranslator.StripSignals | python_projects/046_project/morse_translator.py:24 | stripping keeps only signals |
| MorseTranslator.DotReadsAsE | python_projects/046_project/morse_translator.py:14-36 | a `.` in the text comes back as `E` |
| MorseTranslator.DotSpelled | python_projects/046_project/morse_translator.py:19-23 | `.` is written as itself and a space |
| MorseTranslator.DotStripped | python_projects/046_project/morse_translator.py:24 | stripping `". "` gives `"."` |
| MorseTranslator.DotSplit | python_projects/046_project/morse_translator.py:31 | `"."` splits into one word |
| FileEncryptor.Wrap | python_projects/041_project/file_encryptor.py:9 | Python's `% 26`: a remainder in 0..25 that differs from the number by a multiple of 26 |
| FileEncryptor.ShiftChar | python_projects/041_project/file_encryptor.py:4-12 | an upper-case letter stays upper-case and moves `shift` places round A..Z, a lower-case one round a..z; any other character is kept |
| FileEncryptor.Encrypted | python_projects/041_project/file_encryptor.py:1-13 | the text is encrypted character by character, keeping its length |
| FileEncryptor.EncryptText | python_projects/041_project/file_encryptor.py:1-13 | the loop builds the encrypted text |
| FileEncryptor.DecryptText | python_projects/041_project/file_encryptor.py:15-17 | decryption is encryption with the opposite shift |
| FileEncryptor.WrapBack | python_projects/041_project/file_encryptor.py:9 | moving a position forward and back lands on it |
| FileEncryptor.ShiftBack | python_projects/041_project/file_encryptor.py:4-17 | every character comes back after a shift and the opposite shift |
| FileEncryptor.DecryptEncrypt | python_projects/041_project/file_encryptor.py:1-17 | `decrypt_text(encrypt_text(t, k), k) == t` for every shift |
| FileEncryptor.FullTurns | python_projects/041_project/file_encryptor.py:9 | a whole number of turns round the alphabet changes nothing |
| FileEncryptor.ProcessFile | python_projects/041_project/file_encryptor.py:19-36 | true iff the input was read and the output written; a text that was read is encrypted or decrypted with the default shift and handed to the output file; an unread input hands over nothing |
| FileEncryptor.ProcessRoundTrip | python_projects/041_project/file_encryptor.py:19-36 | decrypting the file that encrypting wrote gives the original text |
| EmailSlicer.SplitOn | python_projects/040_project/email_slicer.py:12 | `split('@')` gives parts without `@` that join back to the text |
| EmailSlicer.SplitOnTwo | python_projects/040_project/email_slicer.py:12 | two parts without `@` joined by `@` split back into the two |
| EmailSlicer.SliceEmail | python_projects/040_project/email_slicer.py:1-21 | a result is the stripped address cut at its only `@`, both parts non-empty and the domain holding a `.` |
| EmailSlicer.SliceEmailComplete | python_projects/040_project/email_slicer.py:1-21 | every address of that shape is sliced at its only `@` |
| EmailSlicer.TwoAtSigns | python_projects/040_project/email_slicer.py:12 | an address with two `@` fails the unpacking and is not sliced |
| EmailSlicer.SliceStripped | python_projects/040_project/email_slicer.py:5 | surrounding whitespace does not change the slicing |
| EmailSlicer.ValidateEmail | python_projects/040_project/email_slicer.py:23-37 | valid iff non-empty, holding `@` and `.`, and none of the refused characters |
| EmailSlicer.SpaceRejected | python_projects/040_project/email_slicer.py:33-35 | a space anywhere makes an address invalid |
| EmailSlicer.TabAccepted | python_projects/040_project/email_slicer.py:1-37 | a tab is not refused: a valid address with a leading tab stays valid and slices the same |
| PasswordManager.Pool | python_projects/040_project/password_manager.py:38-40 | the pool is never empty |
| PasswordManager.PoolMembers | python_projects/040_project/password_manager.py:28-40 | the pool holds exactly the ASCII letters and digits, and the symbols when they are used |
| PasswordManager.Forced | python_projects/040_project/password_manager.py:43-49 | one forced character per required kind: three, or four with symbols |
| PasswordManager.Unshuffled | python_projects/040_project/password_manager.py:43-53 | before the shuffle the password has exactly the requested length |
| PasswordManager.Generate | python_projects/040_project/password_manager.py:33-58 | a length below 8 raises; otherwise the forced characters, pool characters up to the length, then a shuffle |
| PasswordManager.UnshuffledInPool | python_projects/040_project/password_manager.py:43-53 | before the shuffle every character is from the pool |
| PasswordManager.UnshuffledClasses | python_projects/040_project/password_manager.py:43-49 | before the shuffle there is a lower-case letter, an upper-case letter, a digit, and a symbol when asked for |
| PasswordManager.UnshuffledNoSymbol | python_projects/040_project/password_manager.py:38-53 | without symbols none can appear |
| PasswordManager.GeneratedShape | python_projects/040_project/password_manager.py:33-58 | a generated password has the requested length, pool characters only, all three letter and digit kinds, and a symbol iff symbols are used |
| PasswordManager.Missing | python_projects/040_project/password_manager.py:191-193 | the names of the failed checks, no more than the checks |
| PasswordManager.Score | python_projects/040_project/password_manager.py:185-186 | passed and failed checks add up to all the checks |
| PasswordManager.FourChecks | python_projects/040_project/password_manager.py:178-186 | the score and the missing names of the four checks, written out |
| PasswordManager.CheckStrength | python_projects/040_project/password_manager.py:173-193 | fewer than 8 characters is `Weak: Too short` |
| PasswordManager.StrongIff | python_projects/040_project/password_manager.py:173-189 | `Strong` iff at least 8 characters with all four kinds |
| PasswordManager.WeakIff | python_projects/040_project/password_manager.py:173-193 | the verdict starts with `Weak` iff the password is short or passes two checks or fewer |
| PasswordManager.ModerateNamesMissing | python_projects/040_project/password_manager.py:190-191 | with exactly one check failed, the verdict names that check |
| PasswordManager.OnlySymbolsMissing | python_projects/040_project/password_manager.py:190-191 | a long enough password lacking only symbols is missing just those |
| PasswordManager.GeneratedIsStrong | python_projects/040_project/password_manager.py:33-193 | every password generated with symbols rates `Strong` |
| PasswordManager.GeneratedWithoutSymbols | python_projects/040_project/password_manager.py:33-193 | every password generated without symbols rates `Moderate: Missing symbols` |
| PasswordGenerator.Pool | python_projects/025_project/password_generator.py:15-23 | the pool is never empty |
| PasswordGenerator.PoolMembers | python_projects/025_project/password_generator.py:15-23 | the pool holds the lower-case letters and exactly the enabled sets |
| PasswordGenerator.Forced | python_projects/025_project/password_generator.py:29-34 | one forced character per enabled set |
| PasswordGenerator.Unshuffled | python_projects/025_project/password_generator.py:26-38 | before the shuffle the length is the larger of the requested length and the number of enabled sets |
| PasswordGenerator.GeneratePassword | python_projects/025_project/password_generator.py:12-42 | the password is the forced characters, pool characters up to the length, shuffled |
| PasswordGenerator.UnshuffledInPool | python_projects/025_project/password_generator.py:26-38 | before the shuffle every character is from the pool |
| PasswordGenerator.ForcedInPool | python_projects/025_project/password_generator.py:29-34 | every forced character is from the pool |
| PasswordGenerator.ForcedClasses | python_projects/025_project/password_generator.py:29-34 | the forced characters are one of each enabled set and nothing else |
| PasswordGenerator.UnshuffledClasses | python_projects/025_project/password_generator.py:29-38 | before the shuffle each enabled set appears |
| PasswordGenerator.GeneratedShape | python_projects/025_project/password_generator.py:12-42 | the length is the larger of the requested length and the number of enabled sets; every character is from the pool; each enabled set appears |
| PasswordGenerator.GeneratedInPool | python_projects/025_project/password_generator.py:41 | after the shuffle every character is still from the pool |
| PasswordGenerator.SymbolClassIsSymbols | python_projects/025_project/password_generator.py:74 | the strength check's symbol class is exactly the generator's symbol set (`self.symbols`, line 10) |
| PasswordGenerator.SymbolsLowClass | python_projects/025_project/password_generator.py:74 | the first 13 symbols are in the class |
| PasswordGenerator.SymbolsHighClass | python_projects/025_project/password_generator.py:74 | the last 13 symbols are in the class |
| PasswordGenerator.SymbolClassInSymbols | python_projects/025_project/password_generator.py:74 | every character of the class is a symbol |
| PasswordGenerator.LengthPoints | python_projects/025_project/password_generator.py:49-56 | at most two points for the length |
| PasswordGenerator.BaseScore | python_projects/025_project/password_generator.py:49-77 | at most six points before the bonus |
| PasswordGenerator.ScoreRange | python_projects/025_project/password_generator.py:44-89 | the score lies between 0 and 7 |
| PasswordGenerator.TopScore | python_projects/025_project/password_generator.py:44-89 | the score is 7 iff the password has 12 characters and all four kinds |
| PasswordGenerator.ShortScore | python_projects/025_project/password_generator.py:44-89 | below 12 characters the score is at most 5 |
| PasswordGenerator.FeedbackNeverEmpty | python_projects/025_project/password_generator.py:79-88 | some feedback line is always collected, so `Strong password!` is never given |
| PasswordGenerator.AllOptionsScore | python_projects/025_project/password_generator.py:12-89 | a password of at least 12 characters generated with every option scores at least 6 |
| PasswordGenerator.CheckPasswordStrength | python_projects/025_project/password_generator.py:44-89 | the score and the feedback lines joined by newlines |
| FlagPasswordGenerator.Pool | python_projects/040_project/password_generator.py:12-18 | the pool has 52, 10 and 26 characters for the enabled sets |
| FlagPasswordGenerator.PoolMembers | python_projects/040_project/password_generator.py:7-18 | a character is in the pool iff its set is enabled |
| FlagPasswordGenerator.GeneratePassword | python_projects/040_project/password_generator.py:4-27 | `None` iff no set is enabled; otherwise as many characters as a positive length asks for |
| FlagPasswordGenerator.GeneratedFromEnabledSets | python_projects/040_project/password_generator.py:4-27 | every character comes from an enabled set |
| FlagPasswordGenerator.NonPositiveLength | python_projects/040_project/password_generator.py:26 | a length that is not positive gives the empty password |
| MenuPasswordGenerator.Pool | python_projects/004_project/password_generator.py:6-11 | the pool has 52, 10 and 32 characters for the enabled sets |
| MenuPasswordGenerator.PoolMembers | python_projects/004_project/password_generator.py:6-11 | a character is in the pool iff its set is enabled |
| MenuPasswordGenerator.GeneratePassword | python_projects/004_project/password_generator.py:4-18 | the error text, or as many characters as a positive length asks for |
| MenuPasswordGenerator.GeneratedShape | python_projects/004_project/password_generator.py:4-18 | with no set, the error text; otherwise the requested length and every character from a chosen set |
| MenuPasswordGenerator.CalledLengths | python_projects/004_project/password_generator.py:23-41 | every length passed to the generator is between 8 and 50 |
| MenuPasswordGenerator.RunMenu | python_projects/004_project/password_generator.py:20-41 | the loop generates for exactly the accepted lengths, each password of its length or the error text |
| CategoryOrganizer.GetExtension | python_projects/043_project/file_organizer.py:5-7 | the extension of `splitext`, without its dot, lower-cased: it holds no `.` and no `/` |
| CategoryOrganizer.GetExtensionOf | python_projects/043_project/file_organizer.py:5-7 | `stem.ext` has the extension `ext`, lower-cased, when the stem is not all dots |
| CategoryOrganizer.NoExtension | python_projects/043_project/file_organizer.py:5-7 | a name without a dot, or with only leading dots such as `.bashrc`, has no extension |
| CategoryOrganizer.FirstMatch | python_projects/043_project/file_organizer.py:56-60 | the first category listing the extension, or `Others` |
| CategoryOrganizer.FindCategory | python_projects/043_project/file_organizer.py:56-60 | the search loop stops at the first listing category |
| CategoryOrganizer.ListedImages | python_projects/043_project/file_organizer.py:25 | every image extension goes to `Images` |
| CategoryOrganizer.ListedDocuments | python_projects/043_project/file_organizer.py:26 | every document extension goes to `Documents` |
| CategoryOrganizer.ListedAudio | python_projects/043_project/file_organizer.py:27 | every audio extension goes to `Audio` |
| CategoryOrganizer.ListedVideo | python_projects/043_project/file_organizer.py:28 | every video extension goes to `Video` |
| CategoryOrganizer.ListedArchives | python_projects/043_project/file_organizer.py:29 | every archive extension goes to `Archives` |
| CategoryOrganizer.ListedCode | python_projects/043_project/file_organizer.py:30 | every code extension goes to `Code` |
| CategoryOrganizer.CodeNotEarly | python_projects/043_project/file_organizer.py:25-30 | no code extension is listed by images, documents or audio |
| CategoryOrganizer.CodeNotLate | python_projects/043_project/file_organizer.py:28-30 | no code extension is listed by video or archives |
| CategoryOrganizer.CategoryOfListed | python_projects/043_project/file_organizer.py:24-60 | every listed extension goes to the category listing it |
| CategoryOrganizer.CategoryOfUnlisted | python_projects/043_project/file_organizer.py:56-60 | an extension no category lists goes to `Others` |
| CategoryOrganizer.NamesDistinct | python_projects/043_project/file_organizer.py:24-31 | the category names differ from each other and from `Others` |
| CategoryOrganizer.CategoriesDisjoint | python_projects/043_project/file_organizer.py:24-31 | no extension is listed by two categories |
| CategoryOrganizer.CountFiles | python_projects/043_project/file_organizer.py:33-36 | the file count is at most the number of entries |
| CategoryOrganizer.Moves | python_projects/043_project/file_organizer.py:42-70 | no more moves than files |
| CategoryOrganizer.MovesPrefix | python_projects/043_project/file_organizer.py:42-70 | the moves made over the first entries are a prefix of the moves over the whole listing |
| CategoryOrganizer.MoveFiles | python_projects/043_project/file_organizer.py:42-70 | the loop over the entries makes the moves of the specification in listing order and counts each one; an attempted move that raises ends it with exactly the moves before it, and it raises iff that move exists |
| CategoryOrganizer.MovesAreFilesWithExtensions | python_projects/043_project/file_organizer.py:42-70 | every move is of a listed file with an extension, into that extension's category |
| CategoryOrganizer.MoveCategoryIsFolder | python_projects/043_project/file_organizer.py:55-63 | every destination folder is a category or `Others` |
| CategoryOrganizer.CategoryShape | python_projects/043_project/file_organizer.py:55-63 | every folder name has at least four letters and is not an absolute path |
| CategoryOrganizer.DestinationDiffers | python_projects/043_project/file_organizer.py:63-67 | a file's path and its destination never coincide, so every file with an extension is moved |
| CategoryOrganizer.OrganizeFiles | python_projects/043_project/file_organizer.py:16-77 | counts the files; with none, returns early with nothing moved and nothing raised; otherwise moves the files with an extension in listing order and counts the moves, up to the attempted move whose `makedirs` or move raises, which ends the loop |
| FileOrganizer.FileExt | python_projects/008_project/file_organizer.py:32 | the extension with its dot, lower-cased, or nothing |
| FileOrganizer.FileExtOf | python_projects/008_project/file_organizer.py:32 | `stem.ext` has the extension `.ext`, lower-cased, when the stem is not all dots |
| FileOrganizer.FirstFolder | python_projects/008_project/file_organizer.py:35-43 | none iff no folder lists the extension; otherwise the first folder listing it |
| FileOrganizer.ListedImages | python_projects/008_project/file_organizer.py:9 | every image extension goes to `Images` |
| FileOrganizer.ListedDocuments | python_projects/008_project/file_organizer.py:10 | every document extension goes to `Documents` |
| FileOrganizer.ListedAudio | python_projects/008_project/file_organizer.py:11 | every audio extension goes to `Audio` |
| FileOrganizer.ListedVideo | python_projects/008_project/file_organizer.py:12 | every video extension goes to `Video` |
| FileOrganizer.ListedArchives | python_projects/008_project/file_organizer.py:13 | every archive extension goes to `Archives` |
| FileOrganizer.ListedCode | python_projects/008_project/file_organizer.py:14 | every code extension goes to `Code` |
| FileOrganizer.CodeNotEarly | python_projects/008_project/file_organizer.py:9-14 | no code extension is listed by images, documents or audio |
| FileOrganizer.CodeNotLate | python_projects/008_project/file_organizer.py:12-14 | no code extension is listed by video or archives |
| FileOrganizer.FolderForListed | python_projects/008_project/file_organizer.py:8-43 | every listed extension goes to the folder listing it |
| FileOrganizer.NamesDistinct | python_projects/008_project/file_organizer.py:8-15 | the folder names differ |
| FileOrganizer.FoldersDisjoint | python_projects/008_project/file_organizer.py:8-15 | no extension is listed by two folders |
| FileOrganizer.FolderPathsStep | python_projects/008_project/file_organizer.py:18-21 | one more folder of the table adds its path |
| FileOrganizer.CreateFolders | python_projects/008_project/file_organizer.py:17-21 | afterwards every folder of the table exists and nothing else is created |
| FileOrganizer.CreatedEveryFolder | python_projects/008_project/file_organizer.py:17-21 | each of the six folders exists afterwards |
| FileOrganizer.FindFolder | python_projects/008_project/file_organizer.py:35-43 | the inner loop stops at the first folder listing the extension |
| FileOrganizer.OrganizeFiles | python_projects/008_project/file_organizer.py:23-43 | the moves attempted are those of the entries, in listing order |
| FileOrganizer.MoveOfShape | python_projects/008_project/file_organizer.py:28-39 | a move comes from a file whose extension its folder lists and goes into that folder |
| FileOrganizer.Stays | python_projects/008_project/file_organizer.py:28-36 | directories and files with an unlisted extension stay where they are |
| FileOrganizer.MovesFromEntries | python_projects/008_project/file_organizer.py:24-43 | every move is the move of one listed entry |
| FileOrganizer.EntriesMoved | python_projects/008_project/file_organizer.py:24-43 | every file whose extension is listed is moved to its folder |
| Hangman.StartInv | python_projects/045_project/hangman.py:85-90 | the game starts in a state meeting the invariant: the word's letters to find, nothing used, six tries |
| Hangman.StepKeepsInv | python_projects/045_project/hangman.py:93-114 | a pass of the loop keeps the invariant: letters still to find are the word's unused letters, tries are six less the wrong guesses, never negative, and a found word leaves a try |
| Hangman.StepEffect | python_projects/045_project/hangman.py:103-114 | a used, non-letter or longer guess changes nothing; a fresh letter is added to the used ones and is either found, removing one letter, or costs exactly one try |
| Hangman.RunKeepsInv | python_projects/045_project/hangman.py:93-114 | the invariant holds wherever the loop stops |
| Hangman.StageIndex | python_projects/045_project/hangman.py:82 | `stages[tries]` exists iff `-7 <= tries < 7`, negative indices counted from the end |
| Hangman.TriesInRange | python_projects/045_project/hangman.py:93-99 | under the invariant the tries are 0..6 and `display_hangman` shows that stage, never raising |
| Hangman.Mask | python_projects/045_project/hangman.py:98 | each letter of the word when used, the blank otherwise |
| Hangman.MaskComplete | python_projects/045_project/hangman.py:98 | the mask is the word iff every letter was used, and holds a blank otherwise |
| Hangman.WonIffFound | python_projects/045_project/hangman.py:116-121 | at the end the player is congratulated iff every letter was found, iff the mask shows the whole word |
| Hangman.GuessLoop | python_projects/045_project/hangman.py:92-121 | the loop's final state is the run over the player's lines; it meets the invariant; the result is won, lost, or none when the lines ran out first |
| Hangman.PlayGame | python_projects/045_project/hangman.py:84-121 | the word is drawn from the list, then the loop runs; a reported win is one where the word shows in full |
| Hangman.LowerWordNoBlank | python_projects/045_project/hangman.py:5-6 | a blank that is not a lower-case letter never occurs in a word of the list |
| Hangman.GetWord | python_projects/045_project/hangman.py:3-7 | the word is one of the list |
| Hangman.WordsLower | python_projects/045_project/hangman.py:5-6 | every word of the list is lower-case |
| HangmanDash.GetWord | python_projects/005_project/hangman.py:4-6 | the word is one of the list |
| HangmanDash.WordsLower | python_projects/005_project/hangman.py:5 | every word of the list is lower-case |
| HangmanDash.PlayHangman | python_projects/005_project/hangman.py:82-119 | the word is drawn from the list, then the same loop runs with `-` as the blank; a reported win is one where the word shows in full |
| RockPaperScissors.Opposite | python_projects/007_project/rock_paper_scissors.py:13-25 | the other side's view of an outcome: a tie stays a tie, a win becomes the other side's |
| RockPaperScissors.TableShape | python_projects/007_project/rock_paper_scissors.py:17-21 | `winning_combinations` is defined on exactly the three choices, maps each to a choice and none to itself |
| RockPaperScissors.VerdictSwap | python_projects/007_project/rock_paper_scissors.py:13-25 | two distinct choices always have a winner, and swapping them swaps the winner |
| RockPaperScissors.VerdictOnChoices | python_projects/007_project/rock_paper_scissors.py:13-25 | on two valid choices: a tie iff equal, a user win iff the table maps the user's choice to the computer's, a computer win iff it maps the computer's to the user's |
| RockPaperScissors.DetermineWinner | python_projects/007_project/rock_paper_scissors.py:13-25 | `"Tie!"`, `"You win!"` or `"Computer wins!"` as the verdict says; `None` (the `KeyError`) exactly for an unknown user choice against a different one |
| RockPaperScissors.MessagesDistinct | python_projects/007_project/rock_paper_scissors.py:15-25 | the three sentences differ, so the sentence names the outcome |
| RockPaperScissors.ComputerChoice | python_projects/007_project/rock_paper_scissors.py:10-11 | the computer's choice is one of the three |
| RockPaperScissors.GetUserChoice | python_projects/007_project/rock_paper_scissors.py:3-8 | the first line that, lowered, is a choice, every earlier one refused; none when no line is |
| RockPaperScissors.Record | python_projects/007_project/rock_paper_scissors.py:42-47 | a round raises exactly one of the three scores, by one: the user's on a win, the computer's on a loss, the ties' on a tie |
| RockPaperScissors.Tally | python_projects/007_project/rock_paper_scissors.py:30-47 | after n rounds the three scores add up to n |
| RockPaperScissors.TallyUserWins | python_projects/007_project/rock_paper_scissors.py:42-43 | the user's score counts exactly the rounds whose choice beats the computer's |
| RockPaperScissors.PlayGame | python_projects/007_project/rock_paper_scissors.py:27-57 | the loop's scores are the tally of the rounds played |
| RockPaperScissorsPlain.DetermineWinner | python_projects/038_project/rock_paper_scissors.py:15-28 | the same verdict with `"It's a tie!"` for a tie; `None` is the `KeyError` |
| RockPaperScissorsPlain.Sentences | python_projects/038_project/rock_paper_scissors.py:15-28 | on valid choices: the tie sentence iff equal, `"You win!"` iff the table maps the user's choice to the computer's, `"Computer wins!"` otherwise; swapping distinct choices swaps the two |
| DiceSimulator.RandInt | python_projects/041_project/dice_simulator.py:16 | `randint(1, sides)` lies from 1 to `sides` |
| DiceSimulator.Rolls | python_projects/041_project/dice_simulator.py:9-19 | one roll per die, each from 1 to `sides` |
| DiceSimulator.RollDice | python_projects/041_project/dice_simulator.py:4-19 | no dice below one gives `[]`; otherwise the rolls, or the `ValueError` of `randint` when there are no sides |
| DiceSimulator.SumBounds | python_projects/041_project/dice_simulator.py:81 | the total lies between the number of dice and that number times the sides |
| DiceSimulator.Row | python_projects/041_project/dice_simulator.py:24-53 | every inner line of a face is eleven characters wide |
| DiceSimulator.DiceArt | python_projects/041_project/dice_simulator.py:21-56 | a value from 1 to 6 has a five-line framed face; any other value has none |
| DiceSimulator.RowPips | python_projects/041_project/dice_simulator.py:24-53 | the pips of a line are those of its three cells |
| DiceSimulator.LinePips | python_projects/041_project/dice_simulator.py:24-53 | frame and blank lines have no pip, the one-pip lines one, the two-pip line two |
| DiceSimulator.PipsOfFive | python_projects/041_project/dice_simulator.py:24-53 | the pips of a face are those of its five lines |
| DiceSimulator.FaceShowsValue | python_projects/041_project/dice_simulator.py:21-56 | every face shows as many pips as its value |
| DiceSimulator.AcceptedCounts | python_projects/041_project/dice_simulator.py:61-92 | the counts the menu rolls, in order, stop at the first exit; each is from 1 to 5 and there is at most one per command |
| DiceSimulator.CountsStep | python_projects/041_project/dice_simulator.py:68-89 | an exit ends the counts, an accepted count is the next one, a failed `int()`, a count outside 1..5 or another choice adds none |
| DiceSimulator.MenuRolls | python_projects/041_project/dice_simulator.py:71-72 | one roll per accepted count, each drawing after the previous one |
| DiceSimulator.MenuRollsShape | python_projects/041_project/dice_simulator.py:71-72 | each accepted count gives one roll of that many dice, each from 1 to 6 |
| DiceSimulator.RollStep | python_projects/041_project/dice_simulator.py:72 | rolling the next count moves one roll from those to come to those made |
| DiceSimulator.RunMenu | python_projects/041_project/dice_simulator.py:58-92 | the rolls are one per accepted count up to the first exit, roll `j` having exactly `AcceptedCounts[j]` dice from 1 to 6, each roll drawing after the previous one |

## Left out

- Threads and timing: the scheduler's per-task threads, its sleep loop and signal handler; the backup worker thread and its queue (`RunBackup` only reports whether the job is known; the job object the worker later backs up, even one removed or replaced since it was queued, is not modelled); the packet capture and analysis threads; the rolling pause of the dice. A scheduler tick is the pure dispatch selection, and every operation is sequential. The race on `running_tasks` is not modelled.
- Clocks: `datetime.now`, `date.today`, `time.time` and SQLite's `CURRENT_TIMESTAMP` are parameters. Instants are whole seconds, and dates written as text are opaque values in the dictionary forms.
- Randomness: `random` and `secrets` are a source of natural numbers (`Chance.Source`). A draw below `n` is the draw modulo `n`, and `shuffle` is the Fisher-Yates swaps it makes with those draws. No distribution is modelled.
- Subprocesses, HTTP and schemas: the exit code or exception of `subprocess.run`, the status, text and schema verdict of an HTTP response, and the exceptions Pillow raises are inputs. Setup and cleanup scripts run through `exec` are not modelled.
- File system: `os.walk`, `os.listdir`, `Path.exists`, `mkdir`/`makedirs`, copying, zipping, `shutil.move` and SHA-256 hashing appear only through what they return: a directory listing, a file walk with hashes, an existence flag, a list of moves. In the `008` organizer a move that fails is reported and the loop goes on, so every move counts as attempted; in the `043` organizer the first raising `makedirs` or move ends the loop, and which attempted move raises is an input. The folders the 043 organizer creates are not modelled.
- Persistence: JSON, CSV and YAML files, the logs and the SQLite connections. The tables are sequences of rows, and only the record-level dictionary round trips are modelled. Loading saved state at start-up is not modelled: the constructors of `TaskScheduler.Scheduler`, `Library.Library`, `BackupManager.Manager`, `AddressBooks.Manager`, `ContactBook.Book`, `ApiTesting.Runner` and `UrlShortener.Shortener` start as if no saved file or table existed; only `MusicPlayer.Player` takes the saved playlist as an argument.
- Console and GUI: every prompt, print and menu loop is left out, and so are the Tk and PySimpleGUI windows and the canvases. Exceptions are the loops that decide something: the hangman guesses, the rock-paper-scissors rounds, the dice menu and the password generator's menu (`MenuPasswordGenerator.RunMenu`). Their input lines are sequences.
- Floating point: fines and money are whole units, averages are exact `real`s without rounding, and the music volume is a `real`. The review average's float formatting is not modelled.
- Character classes are ASCII: `lower`, `upper`, `isdigit`, `isalpha`, `isalnum` and `\d` do not treat the non-ASCII letters and digits Python's Unicode tables accept.
- Pictures: images are opaque values. The filters and transforms they go through are inputs, as the image libraries are not part of this model.
- Encryption and the encrypted store of `040_project/password_manager.py`.
- Hangman and dice art: the hangman drawings are reduced to the stage index, and the dice faces are built from the three cells of each row instead of as literal text.
- RockPaperScissors.PlayGame: the rounds are given as already validated choices, and the "play again" prompt that ends the loop is the end of that sequence.
- TaskScheduler.FromDict: the source checks no field type and stores whatever a key holds; the model's task fields are typed, so a record whose field has another JSON type is rejected, and a bad ISO date string raising in `fromisoformat` is not modelled because instants are whole seconds.
- BackupManager.FromDict: the source checks no field type and stores whatever each key holds; the model's job fields are typed, so a record whose value has another JSON type (a number as the schedule, say) gives `None` instead of a job holding that value.
- ApiTesting.FromDict: the source stores whatever `data.get` returns; the model's test fields are typed, so a mistyped status, timeout, retry count or list (a float timeout, say) or a non-string name, endpoint or method gives `None`. In the source a non-string method would raise on `.upper()`, which the model agrees with.
- RecipeSearch.SearchRecipes: the `LIKE` wildcards `%` and `_` typed inside the search text are matched literally; the filtering query has no `ORDER BY`, so the model returns the rows in stored (insertion) order, which is what SQLite gives for a plain table scan but is not promised by SQL; the newest-first list of the unfiltered branch is taken as a parameter, its sorting by creation date is not modelled.
- UrlShortener.Shortener.GenerateShortCode: the retry loop runs over a finite sequence of draws, so it can report that every draw was taken, where the source would keep drawing.
- ImageEditor: `image_path` is not modelled; the source sets it even when loading fails.
