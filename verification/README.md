# Sirius 27: a Dafny model of the worker and the tables it owns

The Go worker imports personal data of students and guardians, de-identifies it
in two modes, and runs both as jobs announced on a Redis stream; the Python
backend creates the jobs and serves the learning and consent tables. This
project models that core and proves what it is for: imports that can be repeated
and interrupted, pseudonyms that stay reversible and agree for ever, releases
whose reported k-anonymity is that of the file, jobs that are processed at most
once and never silently lost, group transfers that are all or nothing, and
aggregates over joins that equal direct counts.

`dafny verify dfyconfig.toml` checks everything.

## How it is laid out

| module | what it holds |
|---|---|
| `Text`, `Dates`, `Finite`, `Ordering` | code-point strings and decimal printing, calendar dates and birth bands, sums over finite sets, the order in which PostgreSQL lists ids |
| `KAnonymity`, `Transform` | the k of a column, the masks |
| `Records`, `Vault`, `Jobs`, `Storage` | the tables as values, and the class `Store` whose methods are the worker's statements and batches |
| `Progress` | the progress callback that both pipelines call |
| `Validation`, `Importer` | row validation, the import run and its reports |
| `Columns` | what the cells of a pseudonymized file stand for, column by column |
| `Cells`, `Tokenizer`, `Anonymizer` | which fields are tokenized, the loops that do it, the two modes |
| `Visibility` | what each cell of an anonymized file shows, what the file depends on, and what a reader sees beyond the column its k is about |
| `Cluster` | the whole system as a state machine: backend, stream, any number of workers, crashes, lost replies; every SQL statement or batch is one atomic step |
| `Protocol`, `JobSafety`, `TokenSafety`, `Fulfilment`, `Datasets`, `ReleasedFiles`, `Completion` | what holds in every reachable state and over every run of `Cluster` |
| `Consumer`, `JobService` | one worker's loop and the backend's job creation as imperative code |
| `Learning`, `CourseTree`, `Aggregates`, `Consents`, `Generator` | the Python side: enrollments, the module tree, the counting queries, the consent register, the synthetic datasets |

Code that changes things step by step is modelled by classes and methods with
loops; what those methods do is specified by functions on values (`PutAll`,
`UpsertAll`, `TransferAll`, `Import`, …), and the main theorems are lemmas about
these functions and about runs of `Cluster`.

Conventions: encryption of the personal fields is a lossless pair, so rows hold
plaintext. SHA-256 is a symbolic constructor. Drawn tokens and generated row ids
are parameters that are new when drawn. UUIDs compare by value, so ids are put
into lower case (`Canon`). A failure of the database is a parameter: `Outage`
names the statement of a call that fails, and `Reply` tells a statement that was
done from one that was not and from one that was done while its reply was lost.

## What came out differently from the documentation

- The queue is called at-least-once (README.md:16 of the repository and the
  comment at consumer.go:89). The loop reads only `">"` and never claims pending
  entries, so delivery is at most once. `Completion.CrashOrphans` is a run of five
  steps after which an entry is pending and held by nobody,
  `JobSafety.OrphansAreForever` says that such an entry stays so and that the row
  of its job never changes again, and `Completion.DealtWithUnlessOrphaned` that an
  announced entry can still be acknowledged if and only if it is not in that
  position.
- `done` is not final: `Completion.DoneCanBeUndone` is, for every import, a run
  from the start in which its row goes from done to failed, all its rows being
  stored, because the reply to the finishing write was lost. A done row can change
  in some continuation if and only if a worker is about to report a failure of
  that job now (`JobSafety.DoneIsFinalUnlessFailing`).
- `update_group_members` says it is idempotent. A repetition never changes the
  table, but it may be refused: exactly when a listed student still has another
  enrollment in the course outside the group
  (`Learning.RepeatRefusedOnlyByLeftovers`, with the input in
  `Learning.RepeatCanFail`). Whether a first call goes through can depend on the
  order in which the query returns its rows; `Learning.CommitsForEveryOrder` and
  `Learning.CommitsForSomeOrder` give the two conditions on the tables.
- The count that a failed batched insert returns beside its error can exceed the
  rows that remain stored; `Storage.CountBesideError` says exactly when.
- A birth band contains the year it is made of except for negative years that are
  not multiples of five (`Dates.BandContainsYear`); the import accepts no such year.
- The reported k is that of the quasi-identifier column alone. Read together with
  the masked email and phone columns a file can be less anonymous: five valid
  students of one birth band, with emails that differ in their first letter, make a
  compliant file in which each stands alone (`Visibility.ReportedKCanExceedVisibleK`).
  The reported k is the visible one if and only if the masks split no class into a
  part smaller than it (`Visibility.StudentKIsVisible`, `Visibility.GuardianKIsVisible`).
- `subjects_without_consent` is exact only while no consent names a missing
  subject (`Consents.ShortfallMeaning`), which imports and syncs preserve.

## Model

| member | source | states |
|---|---|---|
| TokenSafety.TokensStayReversible | worker/internal/store/store.go:286-354 | Over every interleaving of all jobs at statement granularity, with crashes and lost replies: a student token ever put into an output, looked up at any later time and decrypted at any time after that, restores to the plaintext it replaced; a guardian token never restores to anything. |
| TokenSafety.OutputsAgree | worker/internal/store/store.go:276-302 | Two outputs of any runs, overlapping, aborted or later, give a field the same token, and two fields never share one. |
| TokenSafety.EveryRunKeepsSecrets | worker/internal/anonymizer/anonymizer.go:120-139 | In every reachable state tokens are distinct, every mapping belongs to a stored non-empty field with the hash of its plaintext, and every token held or released is the one in force. |
| TokenSafety.RunGrows | worker/internal/store/store.go:115-181 | Over any stretch of any run, stored rows keep their contents, mapped fields keep their token, and released files stay. |
| TokenSafety.LinksStayAnchored | worker/internal/store/store.go:171-181 | Every link of every reachable state has both endpoints. |
| TokenSafety.OnlyPseudonymizeWritesTheMap | worker/internal/anonymizer/anonymizer.go:173-206 | No step of an import, of an anonymize job or of anything but a pseudonymize job ever changes the reversible map. |
| TokenSafety.LoadIsReadable | worker/internal/store/store.go:208-274 | Every cell a load gives out for tokenizing is a non-empty field of a stored row. |
| Protocol.EveryRunKeepsProtocol | worker/internal/consumer/consumer.go:46-146 | The invariant of queue, ownership and job rows holds in every reachable state. |
| Protocol.StepKeepsProtocol | worker/internal/consumer/consumer.go:104-219 | Every step of the backend, of delivery, of any worker and of a crash keeps that invariant. |
| Protocol.PerformedFits | worker/internal/store/store.go:57-95 | Each statement of a running job leaves its row processing, with progress that only the remaining statements can raise, or terminal. |
| Protocol.ImportClimbs | worker/internal/importer/importer.go:46-83 | The progress values of an import never go down and stay below completion until the finishing write, which is its last statement. |
| Protocol.AfterLoadClimbs | worker/internal/anonymizer/anonymizer.go:56-92 | The same for both modes of de-identification, however many fields are tokenized. |
| JobSafety.DeliveredIsAPrefix | worker/internal/consumer/consumer.go:54-60 | The delivered entries are exactly a prefix of the stream, handed out once each and in order, and each is either pending or acknowledged, never both. |
| JobSafety.NoJobHasTwoOwners | worker/internal/consumer/consumer.go:76-80 | Two workers never hold one entry, nor entries of one job, and what a worker holds is pending. |
| JobSafety.NothingBeginsTwice | worker/internal/consumer/consumer.go:104-133 | In no run is an entry, or a job, started twice by anyone. |
| JobSafety.NoSilentLoss | backend/app/services/job_service.py:20-36 | In every reachable state a job row is terminal, unannounced, undelivered, pending, or had the write of its failure fail. |
| JobSafety.AckedIsSettled | worker/internal/consumer/consumer.go:133-146 | Every entry names a committed row; an acknowledged one a terminal row unless its failure could not be written; an undelivered one a row still as created. |
| JobSafety.AckedWasAcknowledged | worker/internal/consumer/consumer.go:222-229 | In every run an entry leaves the pending list only by an acknowledgement that got through, of a worker that had dealt with it. |
| JobSafety.RowsMoveForward | worker/internal/store/store.go:57-113 | Over any stretch of any run progress never decreases, a failed row never changes, and a done row changes only to failed after a lost reply. |
| JobSafety.RowsAreCoherent | worker/internal/store/store.go:57-113 | In every reachable state status, progress, error and report of a row belong together: pending is untouched, processing is between 5 and 95, done is at 100 with its report and no error, failed has an error. |
| JobSafety.TerminalIsFinal | worker/internal/store/store.go:75-113 | When no reply to a finishing write is lost, done and failed are both final. |
| JobSafety.DoneIsFinalUnlessFailing | worker/internal/consumer/consumer.go:180-183 | A done row changes in some continuation of the run, however long, if and only if a worker is about to report a failure of that job now. |
| JobSafety.QuietForever | worker/internal/consumer/consumer.go:126-133 | A done row that no worker is about to fail is the same after every continuation. |
| JobSafety.OrphansAreForever | worker/internal/consumer/consumer.go:54-60 | An entry that was delivered, not acknowledged and is held by no worker stays pending for ever, and its job's row never changes again. |
| Fulfilment.DoneImportIsStored | worker/internal/importer/importer.go:49-85 | If an import's row ends up done, every student and guardian of every batch it set out to insert is stored, whatever happened on the way. |
| Fulfilment.EveryRunKeepsGoals | worker/internal/consumer/consumer.go:176-183 | In every reachable state whatever a running job set out to do is achieved or still ahead of it, and all of it is achieved when the row is done; what a pseudonymize job sets out to do is its own file. |
| ReleasedFiles.DoneDeidHasItsFile | worker/internal/consumer/consumer.go:186-219 | From the announcement to the file: when a job announced as a de-identification of one table is done, its own file exists; pseudonymized, it holds exactly the cells that a load of that table gave out in this run, in order and with the tokens in force; anonymized, it holds no token. |
| ReleasedFiles.DonePseudonymizeIsReleased | worker/internal/anonymizer/anonymizer.go:61-151 | The same for a given load: the cells loaded were a load of the table named in the job's announcement, and the file of the job holds exactly these, all of that table's kind. |
| Datasets.EveryRunKeepsDatasets | worker/internal/anonymizer/anonymizer.go:61-92 | In every reachable state the tokens a worker holds, and those of every file, are of the kind that the announcement of its job names; imports and anonymize jobs have none. |
| ReleasedFiles.OneFilePerJob | worker/internal/anonymizer/anonymizer.go:56-56 | No job ever releases two different files. |
| ReleasedFiles.EqualLoadsEqualFiles | worker/internal/store/store.go:279-302 | Two files made from equal loads, by any jobs at any times, are equal cell by cell, tokens included. |
| ReleasedFiles.EveryRunKeepsFiles | worker/internal/anonymizer/anonymizer.go:104-151 | In every reachable state a job has promised at most one file, its own; every file written is the promised one; and for a running job what it has tokenized and what is left to tokenize make up that file. |
| Completion.RunningJobsCanFinish | worker/internal/consumer/consumer.go:161-219 | From every reachable state a running job has a continuation in which it is done and acknowledged. |
| Completion.DealtWithUnlessOrphaned | worker/internal/consumer/consumer.go:54-80 | An announced entry has a continuation in which it is acknowledged if and only if it is not orphaned, that is, delivered, pending and held by no worker. |
| Completion.CrashOrphans | worker/internal/consumer/consumer.go:47-60 | A run from the start that orphans an entry: the job is submitted, announced and delivered, and the worker crashes. |
| Completion.DoneCanBeUndone | worker/internal/consumer/consumer.go:180-183 | For every import there is a run from the start in which all its rows are stored, its row is done, and then failed. |
| Completion.LostReplyUndoesDone | worker/internal/consumer/consumer.go:126-133 | Wherever, in any run, the finishing write is applied and its reply lost, the worker's next write turns the done row into a failed one and changes no data. |
| Completion.ImportDriven | worker/internal/importer/importer.go:37-86 | In any reachable state a worker about to run an import can be driven through it undisturbed, up to its finishing write, and leaves the tables of `Import`. |
| Completion.ImportAlone | worker/internal/importer/importer.go:37-86 | An import nobody disturbs ends done, and its statements together leave the tables of the sequential import, however the rows were split into batches. |
| Completion.ProgressWritesDoNotMatter | worker/internal/consumer/consumer.go:170-174 | Change the fate of any progress writes in any run: tables, map, files, queue, workers and the outcome of every job stay as they were, only the progress shown may differ. |
| Completion.LinksNeverStopARun | worker/internal/importer/importer.go:147-168 | Whatever becomes of each link insert and progress write, the worker goes on behind them, and only the links whose statement was refused are missing. |
| Completion.RunGoesOn | worker/internal/consumer/consumer.go:161-183 | Exactly which outcomes stop a run: a status write or a link insert never, any other statement unless it was heard to succeed. |
| Completion.ApplyingImport | worker/internal/store/store.go:124-167 | The statements of an import plan, applied one after the other, are the function `Import` of the flattened batches. |
| Consumer.Consumer.Start | worker/internal/consumer/consumer.go:36-83 | The loop works through the stream from the group's cursor, each entry once and in order (the list of processed entries is 0, 1, 2, … in every valid state); an entry stays pending exactly when its acknowledgement failed; for every job the last entry naming it leaves the row terminal unless the write of the failure was refused; rows of jobs not named do not change. Jobs may be announced more than once. |
| Consumer.Consumer.ProcessMessage | worker/internal/consumer/consumer.go:104-146 | An undecodable message changes neither a row nor a table nor the map; for any other one only its own row changes; it ends terminal unless the failure write is refused, done only if the finishing write was heard of, and without trouble done exactly when the job can be carried out. |
| Consumer.Consumer.ExecuteJob | worker/internal/consumer/consumer.go:149-219 | The row has gone through exactly the status writes before the stage that failed, each progress write applied or not on its own, and is done if the run went through and the finishing write was applied; an import has its whole effect or part of it; no token assignment is ever lost. |
| Consumer.Consumer.Work | worker/internal/consumer/consumer.go:176-214 | A run succeeds only if the job can be carried out, and does if nothing goes wrong; it passes all four progress marks exactly when it succeeds. |
| Progress.Mark | worker/internal/consumer/consumer.go:170-174 | One call of the callback applies its status write, or not, and never fails the run. |
| Progress.MarkedRow | worker/internal/store/store.go:57-72 | Whatever becomes of the writes, the marks touch only the job's own row and leave it as it was or processing at one of the marks. |
| Progress.MarksClimb | worker/internal/importer/importer.go:46-83 | Progress never goes down over the marks of a run, whichever of the writes are lost. |
| Consumer.Consumer.Receive | worker/internal/consumer/consumer.go:54-80 | One read makes the next entry pending, deals with it, and touches no earlier entry and no other job. |
| Consumer.Consumer.Acknowledge | worker/internal/consumer/consumer.go:222-229 | The entry moves from pending to acknowledged, or stays when the call fails. |
| JobService.Backend.CreateJob | backend/app/services/job_service.py:13-36 | Whichever of commit and publish fails or loses its reply, every announcement names a committed row and no row is announced twice. |
| Storage.Store.ExecStudentBatch | worker/internal/store/store.go:358-371 | A batch commits as a whole or not at all; beside an error it returns the rows counted up to the failing statement. |
| Storage.Store.ExecGuardianBatch | worker/internal/store/store.go:358-371 | The same for a batch of guardians. |
| Storage.Store.InsertStudents | worker/internal/store/store.go:124-140 | For every chunk size the chunked insert is the row-by-row insert, with its count; an error leaves exactly the whole chunks before it. |
| Storage.Store.InsertGuardians | worker/internal/store/store.go:151-167 | The same for guardians. |
| Storage.Store.InsertLink | worker/internal/store/store.go:171-181 | A link is inserted, found, or refused for a missing endpoint; foreign keys keep holding. |
| Storage.Store.LoadStudents | worker/internal/store/store.go:211-241 | Every stored student once, with its plaintext, in id order. |
| Storage.Store.LoadGuardians | worker/internal/store/store.go:244-274 | Every stored guardian once, in id order. |
| Storage.LoadIsDetermined | worker/internal/store/store.go:220-221 | A table has only one such listing. |
| Storage.Store.UpsertPseudonym | worker/internal/store/store.go:286-302 | The first token of a field is kept, the hash refreshed, and the token in force returned. |
| Storage.Store.CountPseudonyms | worker/internal/store/store.go:306-312 | The number of mapped fields. |
| Storage.Store.RestorePseudonym | worker/internal/store/store.go:326-354 | Looks the token up among student fields only; what it finds is the current text of the very column that the matching field names, and it finds nothing exactly when no student field has the token. |
| Storage.Store.UpdateStatus | worker/internal/store/store.go:57-72 | Sets status and progress of the one row, if there is one and the statement is applied; success only when acknowledged and found. |
| Storage.Store.MarkDone | worker/internal/store/store.go:75-95 | The row becomes done with progress 100 and no error. |
| Storage.Store.MarkFailed | worker/internal/store/store.go:98-113 | The row becomes failed with the message, keeping its progress. |
| Storage.CountBesideError | worker/internal/store/store.go:133-137 | The count beside an error is never too small, and right exactly when the rolled-back part of the failing chunk held no new id. |
| Records.PutAllMeaning | worker/internal/store/store.go:115-120 | Ids already stored keep their row, every other id gets the first row that names it, and the count is the number of distinct new ids. |
| Records.FirstRowWins | worker/internal/store/store.go:119-119 | Of several rows with one new id the first one is stored. |
| Records.PutAllConcat | worker/internal/store/store.go:126-138 | Inserting a list in two parts is inserting it at once, counts included. |
| Records.PutAllAfterPrefix | worker/internal/store/store.go:122-140 | Inserting a prefix and then the whole list gives the table of inserting the list, and the counts add up. |
| Records.PutLinksMeaning | worker/internal/store/store.go:171-181 | After a list of link inserts exactly the pairs with two stored endpoints have been added, counted once each. |
| Records.PutLinksAfterSome | worker/internal/importer/importer.go:147-168 | Inserting any selection of the links first changes neither the outcome nor the total count. |
| Records.PartsConverge | worker/internal/importer/importer.go:37-86 | An import of which only part was committed, followed by a whole one, leaves the tables of one clean run, and the two counts add up to the clean run's. |
| Records.ImportConverges | worker/internal/importer/importer.go:37-86 | The same for a stop after any number of statements. |
| Records.ImportTwice | worker/internal/importer/importer.go:31-37 | A second run over the first one's result inserts nothing and changes nothing. |
| Records.ImportKeepsRows | worker/internal/store/store.go:115-181 | Imports never change or remove a stored row or link, and keep the foreign keys. |
| Importer.EntityReport.AddError | worker/internal/importer/report.go:25-32 | The report holds the number of errors, the first hundred of them, and the truncation flag exactly when there are more. |
| Importer.FaultsAreTheFailingRows | worker/internal/importer/importer.go:96-101 | The error list names exactly the failing rows, once each, in increasing order. |
| Importer.Sift | worker/internal/importer/importer.go:95-103 | The valid rows are collected in order, the others logged, and the two numbers add up to the file. |
| Importer.ImportStudents | worker/internal/importer/importer.go:88-112 | Total is inserted plus skipped plus failed, the log is that of the invalid rows, and the table that of inserting the valid ones. |
| Importer.ImportGuardians | worker/internal/importer/importer.go:114-138 | The same for guardians. |
| Importer.ImportLinks | worker/internal/importer/importer.go:140-170 | Every row dealt with was inserted, skipped or failed; the failed ones are the invalid, the unanchored and those the database failed; only a cancelled context ends the loop early. |
| Importer.RecordLink | worker/internal/importer/importer.go:149-168 | One row has exactly one of the three outcomes. |
| Importer.Run | worker/internal/importer/importer.go:37-86 | A run succeeds exactly when there is a readable students file, neither optional file exists unreadable, and no batch and no context failed. An undisturbed run has the effect and the counts of `Import`; every other run leaves the tables of a part of it; the reports balance and log exactly the failing rows; the progress marks passed are those before the stage that failed. |
| Importer.RunStudents | worker/internal/importer/importer.go:49-58 | A missing or unreadable students file ends the run; otherwise the students stage stores the valid rows, or a part of them. |
| Importer.RunGuardians | worker/internal/importer/importer.go:61-69 | A missing guardians file is skipped, an unreadable one ends the run with the students stored. |
| Importer.RunLinks | worker/internal/importer/importer.go:73-81 | The same for the links file, with the entities stored. |
| Importer.RunOptional | worker/internal/importer/importer.go:60-81 | Both optional stages, their reports, and the mark between them. |
| Importer.RetryConverges | worker/internal/importer/importer.go:31-37 | However a run was cut short or disturbed, repeating it undisturbed gives what one clean run gives. |
| Importer.SecondRun | worker/internal/importer/importer.go:37-86 | An immediate second run inserts nothing, leaves the tables, and meets the same verdict on every link. |
| Validation.CheckPhone | worker/internal/importer/validate.go:39-54 | The counting loop accepts exactly an absent phone or one with at least ten digits. |
| Validation.EmailPatternShape | worker/internal/importer/validate.go:14-14 | The pattern matches exactly the texts with one "@", text before it, no blanks, and a dot strictly inside the domain. |
| Validation.ValidEmailMask | worker/internal/anonymizer/transform.go:41-52 | An email that passed validation never masks to the bare stars; its mask is a function of its first character and the text behind its last dot. |
| Validation.MaskHidesTheRest | worker/internal/anonymizer/transform.go:37-52 | Two valid emails have the same mask if and only if they are alike in these two parts. |
| Validation.StudentAccepted | worker/internal/importer/validate.go:68-102 | Exactly which student a record is accepted as: one in order (id, names, email, phone, birth date) whose contents are the trimmed texts of the record, column by column. |
| Validation.GuardianAccepted | worker/internal/importer/validate.go:104-138 | The same for guardians, with the relation in lower case. |
| Validation.StudentRoundTrip | worker/internal/importer/validate.go:68-102 | A student in order, spelled out as a record, is accepted as just that student. |
| Validation.GuardianRoundTrip | worker/internal/importer/validate.go:104-138 | The same for guardians. |
| Validation.StudentFaultIsReal | worker/internal/importer/validate.go:68-102 | A rejected student row is rejected for a column that is at fault. |
| Validation.GuardianFaultIsReal | worker/internal/importer/validate.go:104-138 | The same for guardians. |
| Validation.StoredStudentIsMaskable | worker/internal/importer/validate.go:68-102 | Every student row that validation lets through has a maskable email and phone and a birth date inside its own band. |
| Validation.StoredPhoneIsMaskable | worker/internal/anonymizer/transform.go:57-69 | A stored phone always shows its last two digits in the mask. |
| Validation.StoredBirthIsInBand | worker/internal/importer/validate.go:56-66 | A stored birth date prints as it was given and lies in its own band. |
| Validation.CanonComparesValues | worker/internal/importer/validate.go:13-13 | Two ids name one row if and only if their hex digits have the same values, whatever their case. |
| Transform.MaskPhone | worker/internal/anonymizer/transform.go:57-69 | The mask has a fixed length and depends on the last two digits only. |
| Dates.FormatInjective | worker/internal/anonymizer/anonymizer.go:367-371 | Different dates print differently, for years of any size and sign. |
| Dates.FormatReads | worker/internal/anonymizer/anonymizer.go:367-371 | Read back as numbers, a printed date is year, month and day in this order. |
| Dates.ParseIffFormatted | worker/internal/importer/validate.go:61-64 | A text parses as a date exactly when it is the printed form of a date with a year from 0 to 9999. |
| Dates.LabelDeterminesBand | worker/internal/anonymizer/transform.go:73-76 | Two band labels are equal exactly when the years share their band start. |
| Dates.BandContainsYear | worker/internal/anonymizer/transform.go:73-76 | The band holds the year it is made of if and only if the year is not negative or is a multiple of five. |
| Dates.ImportedDateInItsBand | worker/internal/anonymizer/transform.go:73-76 | Every date the import accepts lies in its own band. |
| KAnonymity.CountKeys | worker/internal/anonymizer/kanon.go:17-20 | The counting loop holds every distinct key with its number of occurrences. |
| KAnonymity.ComputeK | worker/internal/anonymizer/kanon.go:13-28 | For any order of map iteration: no class is smaller than k, the returned key's class has exactly k members, and the class count is that of the distinct keys. |
| KAnonymity.KUnique | worker/internal/anonymizer/kanon.go:7-13 | A column has only one k. |
| KAnonymity.KAnonReport | worker/internal/anonymizer/kanon.go:32-43 | The report holds the k, the size and the class count of the column and names a smallest class; compliant exactly when there are records and every class has at least five. |
| KAnonymity.ClassesPartition | worker/internal/anonymizer/kanon.go:7-12 | Class sizes add up to the records, and k times the number of classes never exceeds them. |
| KAnonymity.EachRecordHides | worker/internal/anonymizer/kanon.go:3-12 | Every record shares its key with at least k - 1 others. |
| KAnonymity.CoarseningNeverLowersK | worker/internal/anonymizer/anonymizer.go:208-212 | Merging classes never lowers k and never adds classes. |
| Cells.RerunIsIdentical | worker/internal/anonymizer/anonymizer.go:104-146 | Whatever was upserted in between, a run over people who are mapped adds no mapping and writes the very same cells. |
| Cells.OutputIsStable | worker/internal/store/store.go:279-283 | Once its fields are mapped a person's output never changes. |
| Cells.EntityCellsMeaning | worker/internal/anonymizer/anonymizer.go:120-123 | A cell is tokenized exactly when it is a present, non-empty value of one of the fields. |
| Vault.TokensAreWriteOnce | worker/internal/store/store.go:294-296 | Any sequence of upserts keeps every token already assigned and maps exactly the fields it names. |
| Vault.MapGrowth | worker/internal/store/store.go:290-297 | The map grows by exactly the number of fields not mapped before. |
| Vault.DistinctKept | worker/internal/anonymizer/transform.go:26-35 | With fresh draws, tokens stay pairwise distinct. |
| Vault.HashIsOf | worker/internal/store/store.go:294-297 | After a run of upserts that agree on a field, its hash is that of the field's text. |
| Vault.RestoreIsInverse | worker/internal/store/store.go:326-354 | With distinct tokens, looking up a student field's token has one answer, the current plaintext of that field. |
| Tokenizer.TokenizeField | worker/internal/anonymizer/anonymizer.go:120-139 | One field: an empty one is passed over; otherwise a token is drawn and offered, and the one in force is output; an error keeps the upserts before it. |
| Tokenizer.TokenizeEntity | worker/internal/anonymizer/anonymizer.go:120-139 | One person's output is what the map then says about each field; an error keeps exactly the upserts before it. |
| Tokenizer.TokenizeAll | worker/internal/anonymizer/anonymizer.go:104-146 | After all people every row written is what the final map says, also for the people handled first. |
| Tokenizer.SortedKeys | worker/internal/anonymizer/anonymizer.go:376-391 | The in-place sort lists exactly the tokenized fields in column order. |
| Tokenizer.InsertionSort | worker/internal/anonymizer/anonymizer.go:386-390 | The array ends up strictly in column order with the same elements. |
| Tokenizer.FieldListDetermined | worker/internal/anonymizer/anonymizer.go:375-377 | The reported list depends on nothing but the set, so map iteration order does not show. |
| Anonymizer.BirthKeys | worker/internal/anonymizer/anonymizer.go:360-373 | One key per student, at its position. |
| Anonymizer.SuppressionIsItsOwnClass | worker/internal/anonymizer/anonymizer.go:357-366 | No date and no band looks like the mark of a missing date. |
| Anonymizer.BandsCoarsenDates | worker/internal/anonymizer/anonymizer.go:360-373 | The exact date decides the band, for every list of students. |
| Anonymizer.GeneralizationNeverLowersK | worker/internal/anonymizer/anonymizer.go:208-212 | k on five-year bands is at least k on exact dates, and there are no more classes. |
| Anonymizer.PseudonymizeStudents | worker/internal/anonymizer/anonymizer.go:94-171 | With fresh tokens and rows loaded from the table, every output row reads, column by column: the id; for each of last name, first name, middle name, email and phone an empty cell exactly when there is no value, and otherwise a token whose lookup gives that value and nothing else; the birth date. The reported fields and counts are right, and the run's own check is positive whenever there is an email. |
| Anonymizer.PseudonymizeGuardians | worker/internal/anonymizer/anonymizer.go:234-293 | The same columns for guardians: each token is that of its own field, beside the hash of the value, is shared with no other field, and restores to nothing; then the relation. No check. |
| Anonymizer.SelfCheck | worker/internal/anonymizer/anonymizer.go:136-158 | A positive check is about the token written for the first student with an email, and that email is what its lookup gives. |
| Anonymizer.StudentRowTells | worker/internal/anonymizer/anonymizer.go:106-146 | The column law for every row of the students' file. |
| Anonymizer.GuardianRowTells | worker/internal/anonymizer/anonymizer.go:246-281 | The column law for every row of the guardians' file. |
| Anonymizer.FieldRestores | worker/internal/anonymizer/anonymizer.go:338-357 | Right after the upserts the cell of any field of a loaded student restores to the value of the field. |
| Anonymizer.FieldStands | worker/internal/store/store.go:286-302 | Right after the upserts the cell of any field of a loaded guardian is the token of that field, with the hash of its value. |
| Anonymizer.VerifyReversible | worker/internal/anonymizer/anonymizer.go:340-357 | Without a token there is nothing to verify; a positive verdict means that the lookup may give the original, a mismatch that it may give something else, and "not found" exactly that no student field has the token. |
| Anonymizer.AnonymizeStudents | worker/internal/anonymizer/anonymizer.go:173-214 | The rows are the masked students (what they show is under `Visibility`); the keys measured are, position by position, the generalized column written, so the reported k, class count and compliance are those of the file, and not below the ungeneralized k. |
| Visibility.StudentRowHides | worker/internal/anonymizer/anonymizer.go:179-196 | Cell by cell: the running number; for the email nothing if there is none, else its first character and what is behind its last dot; for the phone nothing if there is none, else the fixed mask with its last two digits; for the birth five years from a multiple of five that contain it, or a star. |
| Visibility.GuardianRowHides | worker/internal/anonymizer/anonymizer.go:301-318 | The same for guardians, with the relation or a star. |
| Visibility.StudentFilesAgree | worker/internal/anonymizer/anonymizer.go:173-200 | Exactly what the file depends on: two lists of students make the same file if and only if, position by position, the emails begin and end alike, the phones end alike and the births share their band. Ids, names and the rest of these texts can be anything. |
| Visibility.GuardianFilesAgree | worker/internal/anonymizer/anonymizer.go:295-322 | The same for guardians, with the relation in place of the birth. |
| Anonymizer.AnonymizeGuardians | worker/internal/anonymizer/anonymizer.go:295-334 | The same for the relation column of guardians. |
| Anonymizer.ProduceStudents | worker/internal/anonymizer/anonymizer.go:88-91 | A pseudonymized file is the map's word on every stored student in id order; an anonymized one the masks of every student in id order, its reported k that of its band column; only a failed upsert leaves no file. |
| Anonymizer.RunStudents | worker/internal/anonymizer/anonymizer.go:78-92 | Succeeds exactly when the load, every upsert and the writing of the file do, having passed the marks before the stage that failed; tokens and the map as under `Anonymizer.Run`. |
| Anonymizer.ProduceGuardians | worker/internal/anonymizer/anonymizer.go:228-231 | The same as for students, with the relation as quasi-identifier. |
| Anonymizer.RunGuardians | worker/internal/anonymizer/anonymizer.go:218-232 | The same as for students. |
| Anonymizer.Run | worker/internal/anonymizer/anonymizer.go:43-74 | The right refusal for each bad parameter, before any mark; otherwise success exactly when load, upserts and file succeed, with the marks before the stage that failed; the anonymize mode leaves the map untouched; no run ever changes a token; the file is the pseudonymized or the masked listing of the chosen table. |
| Visibility.ReportedKIsAnUpperBound | worker/internal/anonymizer/anonymizer.go:193-212 | The k over all visible columns of a file is never above the reported one. |
| Visibility.StudentKIsVisible | worker/internal/anonymizer/anonymizer.go:173-214 | For every list of students the reported k is the visible one if and only if every student has, counting itself, at least the reported k students with the same band, email mask and phone mask. |
| Visibility.GuardianKIsVisible | worker/internal/anonymizer/anonymizer.go:295-334 | The same for guardians, with the relation. |
| Visibility.OneBandAllDifferent | worker/internal/anonymizer/anonymizer.go:181-212 | Students of one band with pairwise different email masks are one class to the report and all singletons to a reader. |
| Visibility.PupilsStandAlone | worker/internal/anonymizer/transform.go:37-52 | Students of one birth date whose emails differ in their first letter, one for each of any choice of five letters, are such a list. |
| Visibility.ReportedKCanExceedVisibleK | worker/internal/anonymizer/kanon.go:5-5 | Five students that pass validation make a file with a compliant report in which each stands alone. |
| Learning.TransferMeaning | backend/app/services/learning_service.py:293-305 | The statements of a transfer all succeed if and only if every position can be served (an existing student, listed once, if new to the course; no second enrollment in the target, if moved), and then the table is the described one. |
| Learning.EveryoneListedIsIn | backend/app/services/learning_service.py:264-270 | After a commit every listed student is in the target group, with a new enrollment if there was none in the course. |
| Learning.EnrollmentsAreKept | backend/app/services/learning_service.py:266-269 | Existing enrollments keep id, student, status and progress, and change groups within the course only. |
| Learning.NewcomersEnrollOnce | backend/app/services/learning_service.py:296-299 | New enrollments belong to listed, existing students without any in the course, one each. |
| Learning.TransferKeepsConstraints | backend/app/models/learning.py:70-91 | The uniqueness and foreign-key constraints hold after a commit. |
| Learning.SimpleListsCommit | backend/app/services/learning_service.py:261-306 | Distinct existing students with at most one enrollment each in the course can always be transferred. |
| Learning.ListedTwiceFails | backend/app/services/learning_service.py:291-299 | A student new to the course who is listed twice makes the call fail. |
| Learning.CommitsForEveryOrder | backend/app/services/learning_service.py:261-306 | No order of the query's rows makes a call fail if and only if every listed student either is new to the course, exists and is listed once, or has enrollments in the course and, if one is in the group, none outside it. |
| Learning.CommitsForSomeOrder | backend/app/services/learning_service.py:261-306 | Some order lets it commit if and only if every listed student new to the course exists and is listed once. |
| Learning.RepeatChangesNothing | backend/app/services/learning_service.py:269-270 | Repeating a committed call never changes the table. |
| Learning.RepeatRefusedOnlyByLeftovers | backend/app/services/learning_service.py:290-304 | After a committed call its repetition may be refused if and only if a listed student has an enrollment in the course outside the group. |
| Learning.RepeatCanFail | backend/app/services/learning_service.py:290-304 | There is a committed call whose repetition is refused: a student with a second enrollment in the course. |
| Learning.Roster.BuildIndex | backend/app/services/learning_service.py:279-291 | For any row order the dictionary holds, for exactly the listed students with enrollments in the course, one of these. |
| Learning.Roster.Serve | backend/app/services/learning_service.py:293-304 | One iteration inserts, moves or does nothing, and is refused exactly when a constraint forbids it. |
| Learning.Roster.UpdateGroupMembers | backend/app/services/learning_service.py:261-306 | All or nothing: commits exactly when every position can be served, otherwise the table is unchanged; for any row order the condition of `CommitsForEveryOrder` suffices and that of `CommitsForSomeOrder` is necessary. |
| Learning.Roster.CreateEnrollment | backend/app/services/learning_service.py:312-347 | Adds one active enrollment exactly when group and student exist and are not yet combined. |
| CourseTree.BuildTree | backend/app/services/learning_service.py:138-155 | For rows in any order: one item per module in first-seen order, with the title and position of its first row and its own lessons in row order. |
| CourseTree.FirstSeenNames | backend/app/services/learning_service.py:138-145 | Every named module is listed once, the ones without lessons included. |
| CourseTree.FirstSeenInOrder | backend/app/services/learning_service.py:138-145 | An earlier item's opening row comes before a later item's. |
| CourseTree.LessonsAddUp | backend/app/services/learning_service.py:146-155 | No lesson row is lost or repeated. |
| CourseTree.LessonsInOrder | backend/app/services/learning_service.py:146-155 | Within a module an earlier lesson has an earlier row. |
| CourseTree.TreeHasTheModules | backend/app/services/learning_service.py:123-145 | The tree holds every module of the course exactly once. |
| CourseTree.LessonsAreAtHome | backend/app/services/learning_service.py:146-155 | A lesson is under a module exactly when it belongs there. |
| CourseTree.TreeTotalsTheLessonCount | backend/app/services/learning_service.py:107-109 | The lessons of the tree total the separately counted number. |
| Aggregates.MatchedAreOwned | backend/app/services/learning_service.py:420-422 | Along a foreign key the matched rows of a left join are the right-hand rows, once each. |
| Aggregates.EnrollmentsCountOnce | backend/app/services/learning_service.py:415-423 | The join chain counts every enrollment of a direction once. |
| Aggregates.CompletionsCountOnce | backend/app/services/learning_service.py:418-418 | And every completed one. |
| Aggregates.StudentsCountOnce | backend/app/services/learning_service.py:417-417 | And every student with an enrollment in the direction. |
| Aggregates.CoursesCountOnce | backend/app/services/learning_service.py:416-416 | And every course, with or without groups. |
| Aggregates.DirectionsAddUp | backend/app/services/learning_service.py:385-425 | The per-direction enrollments, completions and courses add up to the totals counted directly. |
| Aggregates.DirectionRate | backend/app/services/learning_service.py:425-436 | A direction's rate times its enrollments is its completed enrollments, both taken from the tables directly; it is 1 exactly when all are completed, 0 exactly when none is. |
| Aggregates.WholeRate | backend/app/services/learning_service.py:409-410 | The same for the overall rate. |
| Aggregates.RatesAreFractions | backend/app/services/learning_service.py:410-436 | Every completion rate, of a direction and overall, lies between 0 and 1, before and after it is rounded to three decimals. |
| Aggregates.StudentsAtMostEnrollments | backend/app/services/learning_service.py:417-419 | A direction never has more students than enrollments. |
| Aggregates.AveragesAgree | backend/app/services/learning_service.py:461-469 | The registry's average progress and enrollment count are those of the student's own enrollments, which the parents' view uses. |
| Aggregates.AverageIsBounded | backend/app/services/learning_service.py:461-461 | The rounded average lies within any whole bounds on the progress values. |
| Aggregates.AverageIsNearest | backend/app/services/learning_service.py:461-461 | The shown average is a whole number nearest to the mean, of two the one further from zero. |
| Aggregates.CourseCountsAgree | backend/app/services/learning_service.py:460-460 | The registry's distinct courses are at most the enrollments parents see counted, and as many exactly when no two enrollments are in one course. |
| Consents.ShortfallMeaning | backend/app/services/privacy_service.py:92-103 | The reported number never exceeds the uncovered subjects, and equals it exactly when no consent names a missing subject or nobody is uncovered. |
| Consents.ReportIsExact | backend/app/services/privacy_service.py:106-129 | After any succession of imports and syncs the report is the true number, and the number of rows the next sync creates. |
| Consents.ImportsFollow | worker/internal/store/store.go:115-167 | An import, of which the tables only gain subjects, is one of the steps considered. |
| Consents.SyncCovers | backend/app/services/privacy_service.py:106-129 | A sync creates one row per uncovered subject and leaves none uncovered. |
| Consents.SyncReachesEveryone | backend/app/services/privacy_service.py:106-129 | After a sync every stored student and guardian has a row, and nobody who had one, granted or revoked, got another. |
| Consents.UncoveredMeaning | backend/app/services/privacy_service.py:92-103 | A stored person is uncovered when no row of the register, granted or revoked, names it. |
| Consents.GrantsOnceEach | backend/app/services/privacy_service.py:114-124 | No subject gets two of the new rows. |
| Consents.SecondSyncCreatesNone | backend/app/services/privacy_service.py:107-107 | A second sync right away creates nothing. |
| Consents.OrphansHideSubjects | backend/app/services/privacy_service.py:102-102 | With a consent of a missing subject and someone uncovered, the report is too small. |
| Consents.Register.SyncConsents | backend/app/services/privacy_service.py:106-129 | Appends exactly the missing consents and returns their number. |
| Consents.Register.ConsentKpi | backend/app/services/privacy_service.py:76-103 | The numbers of subjects, of consents, of granted and of revoked ones, and of subjects without consent, the last one exact under the condition of `ShortfallMeaning`. |
| Generator.GenerateLinks | tools/gen_synthetic_data.py:106-137 | For any random choices: no link twice, only listed people, one or two guardians for each student. |
| Generator.PhoneHasDigits | tools/gen_synthetic_data.py:46-49 | The digits of a generated phone number are 7, 9 and the nine drawn ones, and nothing is trimmed from it. |
| Generator.StudentIsValid | tools/gen_synthetic_data.py:52-76 | A generated student passes validation, and the row accepted is what was drawn, trimmed. |
| Generator.GuardianIsValid | tools/gen_synthetic_data.py:79-103 | The same for a generated guardian. |
| Generator.GeneratedFilesImportClean | tools/gen_synthetic_data.py:171-177 | Imported into empty tables a generated dataset has no fault in any file and every row of each is inserted. |
| Generator.GeneratedPeopleAreStored | tools/gen_synthetic_data.py:140-177 | From the draws to the tables: importing a generated dataset into empty tables stores exactly the drawn people, each under its id with the names, middle name, email, phone and birth date or relation that were drawn, and exactly the generated links. |
| Generator.GenerateAndImport | tools/gen_synthetic_data.py:106-137 | The importer's three reports cover every generated row and show all inserted, nothing failed and nothing skipped, and the tables hold what was drawn. |

## Left out

- The frontend, the HTTP routers and role checks, demo seeding and gamification.
- The inside of pgcrypto, SHA-256, JWT and bcrypt, and the randomness of tokens: a drawn token is taken as new. That two draws coincide is not modelled.
- Parsing and writing of CSV and XLSX, the file system and JSON: the model starts at parsed records and ends at row lists. A directory or file that is missing, unreadable or not writable is an input of the run.
- The Redis and PostgreSQL clients, retries, timeouts, startup and shutdown. A pgx batch is taken as one transaction, as PostgreSQL runs a batch without explicit transaction control.
- Lengths of database columns and the database's own checks of values; the regular expressions' `\s` and the trimming are modelled as they differ.
- The text of a job's error message, which the model takes as constant, and the notes of the reports.
- Consumer.Consumer.Start: stops after a given number of reads where the loop runs until its context is cancelled.
- Aggregates.RatesAreFractions: takes rounding over the reals, as a nearest thousandth with ties either way; the binary representation of floats is left out.
- Generator.StudentIsValid: takes names and email addresses of the name generator as valid, because that library is not part of this model.
- Generator.GuardianIsValid: the same.
- The seven-in-ten size of the generated guardian pool: only that it is not empty is used.
- Subject-rights requests, schedules, badges, dashboards and the creation and publishing of courses: a single branch or plain query settles each.
- Alembic migrations: only the constraints they set up are used.
