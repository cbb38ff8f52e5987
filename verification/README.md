# fineFTP: what the server does, and what it guarantees

fineFTP is a passive-mode FTP server. This project models three parts of it and the way they work together.

* **Paths.** `Text`, `Paths`, `NormalForm`, `Meaning` and `Resolution` treat the lexical path cleaner and the two
  mappings built on it (client path to absolute FTP path, FTP path to local path). The cleaner's loop is a method over
  strings, proved to compute a function that splits, edits a component stack and joins. That function is then proved
  against an independent meaning: a path is a map from the directory one stands in to the place one ends up at. Cleaning
  is sound and complete for that meaning, which gives confinement below the local root and the law that changing
  directory and then resolving is resolving the longer path.
* **Sessions.** `FtpSessions` holds the session object with its fields and one method per command handler. Each method
  is proved to turn the old state into the one a specification in `Sessions` gives. `Sessions` also has the transition
  function over events: commands, the ends of transfers, chunks of uploads, users being added, the loss of the control
  connection. `Disks` is the file tree, with inodes so that open files follow a rename. `Calls`, `Authority`,
  `Histories` and `Replies` are theorems over all runs: every change to the tree is a permitted call at or below the
  user's root, what survives which permission masks of those who log in, which history justifies a login, what a rename
  moves, which replies are given. `Stores` and `Deliveries` put the session together with the upload and listing
  protocols below. `Answers` says in plain terms what every command does and answers, and under which conditions.
  `Users`, `Permissions`, `CommandLines` and `ReplyText` are the smaller parts they need.
* **Asynchronous protocols.** `Control` (framing and the reply queue), `Listings` (the data buffer), `Uploads` (reading
  ahead while writing) and `FileCache` (mapped files shared by downloads) are state machines over their handlers, with
  every interleaving that a strand, or the cache's mutex, allows. Each has a class whose methods are the handlers.

Reading order: `Meaning`, `Resolution`, `Answers`, `Calls`, `Authority`, `Histories`, the four protocols, `Stores`, `Deliveries`.

## Results where the code falls short of a simple statement

* Cleaning a Windows path twice is not always cleaning it once. `.\C:` becomes `C:` and then `C:\`.
  `WindowsIdempotentIff` says exactly when it is: the path has a root, or its cleaned form does not begin with a letter
  and a colon, or a separator follows them.
* With an empty local root text the local path is absolute from `/`, and not below the cleaned root `.`. `BelowRootIff`
  shows that this is the only case.
* After QUIT at most one write completes, that of the oldest message not yet sent, and then the socket is closed. So the
  reply to QUIT is the one delivered exactly when no other message was queued or posted when QUIT was handled
  (`OneWriteAfterQuit`, `ClosingReplyIff`); `QuitFindsGreetingQueued` is a run in which it is lost.
* Listings share one data buffer. A listing gets its 226 if and only if the buffer was empty when its first item was
  added and none of its writes failed (`AnsweredIff`). A listing that overlaps another on the same session is lost although
  no write fails (`OverlapLosesListing`), and so is one with a write error (`WriteErrorStalls`). Either way something stays
  in the buffer, and no later listing of the session is ever sent or answered (`StalledIff`, `StalledForEver`).
* The file cache can hold two live mappings of one path, when a get comes between the last release of a mapping and the
  erasure of its entry (`TwoMappingsOfOnePath`). `AlwaysUniqueIff` says exactly when there is at most one: no destructor
  erases the entry of a mapping that is alive. What is handed out is alive and mapped at every interleaving.

The rows below name the theorems. The classes (`FtpSession`, `ControlConnection`, `Sender`, `Receiver`, `ReadableFiles`)
have one method per handler of the source; each of these is proved to take the state where the transition function of its
module takes it, and only those that do more than follow the same cases have a row.

## Model

| member | source | states |
|---|---|---|
| Paths.CleanPath | fineftp-server/src/filesystem.cpp:424-559 | Root detection, split loop, component stack and join compute the function `Clean`, for Unix and Windows paths and either separator, the empty path included |
| Paths.SplitAndReduce | fineftp-server/src/filesystem.cpp:470-530 | The loop stays in bounds, ends because the unread suffix shrinks, and reduces exactly the pieces of the path behind its root |
| Paths.EditStack | fineftp-server/src/filesystem.cpp:492-522 | One component edits the stack as `Push` says: kept, dropped, or popped, with the different treatment of ".." in rooted and relative paths |
| Paths.JoinComponents | fineftp-server/src/filesystem.cpp:547-556 | The components with separators between them, and none before the first or after the last |
| Paths.RootIs | fineftp-server/src/filesystem.cpp:431-465 | Which text the root is: nothing, "/", a drive letter with its colon, or two slashes with the whole host name; a drive wins over a host |
| Text.SplitJoin | fineftp-server/src/filesystem.cpp:480-556 | Splitting undoes joining, so the cleaner reads back the components it wrote |
| Text.SplitConcat | fineftp-server/src/filesystem.cpp:480-530 | A separator written between two texts cuts exactly there |
| Text.CutAtSlashesOnly | fineftp-server/src/filesystem.cpp:480-490 | A Unix path is cut at '/' and nowhere else, a Windows path at '/' and at the backslash |
| Text.JoinSplit | fineftp-server/src/filesystem.cpp:480-490 | The pieces of a Unix path hold no '/', and with '/' between them they are the path again |
| NormalForm.ComponentsNormal | fineftp-server/src/filesystem.cpp:492-522 | No "." or empty component survives; no ".." survives in a rooted path, and in a relative one only in front |
| NormalForm.UnixIdempotent | fineftp-server/src/filesystem.cpp:424-559 | Cleaning any Unix path twice is cleaning it once |
| NormalForm.PlainNameIsClean | fineftp-server/src/filesystem.cpp:458-558 | A name without '/' other than ".", ".." and the empty one is its own cleaned form on Unix, backslashes included |
| NormalForm.OneKindOfSeparator | fineftp-server/src/filesystem.cpp:536-556 | Behind its root a cleaned Windows path holds no separator but the one asked for |
| NormalForm.UnixRootKept | fineftp-server/src/filesystem.cpp:458-465 | A cleaned Unix path is absolute exactly when the path was |
| NormalForm.WindowsRootKept | fineftp-server/src/filesystem.cpp:433-457 | A drive or host root is preserved by cleaning, with either output separator |
| NormalForm.WindowsIdempotentIff | fineftp-server/src/filesystem.cpp:433-559 | Exactly when cleaning a Windows path twice is cleaning it once |
| NormalForm.WindowsIdempotentByComponents | fineftp-server/src/filesystem.cpp:433-559 | The same condition on what the cleaner keeps: the first surviving component of a relative path begins with a letter and a colon, unless these are all of it and another component follows |
| NormalForm.WindowsNotIdempotent | fineftp-server/src/filesystem.cpp:441-541 | A relative Windows path that changes when cleaned a second time |
| Meaning.CleanSound | fineftp-server/src/filesystem.cpp:458-558 | From every directory the raw and the cleaned path lead to the same place, ".." at the root staying there |
| Meaning.CleanComplete | fineftp-server/src/filesystem.cpp:458-558 | Two paths have equal cleaned texts if and only if they lead to the same place from every directory |
| Meaning.WalkReduce | fineftp-server/src/filesystem.cpp:480-530 | Editing the stack component by component preserves where one ends up |
| Meaning.FormUnique | fineftp-server/src/filesystem.cpp:492-522 | Different normal forms differ from some directory |
| Resolution.AbsoluteFtpPathIsClean | fineftp-server/src/ftp_session.cpp:1616-1631 | Whatever the client sends, the resolved path is absolute, a fixed point of the cleaner and made of names only |
| Resolution.ResolvedIsDestination | fineftp-server/src/ftp_session.cpp:1616-1631 | The resolved path names the place where the client's path leads from the working directory |
| Resolution.Confined | fineftp-server/src/ftp_session.cpp:1616-1644 | The components of the local path are those of the cleaned local root followed by those of the resolved path, none of them ".." |
| Resolution.ConfinedPlace | fineftp-server/src/ftp_session.cpp:1633-1644 | Where the local path leads is at or below where the local root leads |
| Resolution.BelowRootIff | fineftp-server/src/ftp_session.cpp:1633-1644 | The local path lies below the cleaned root text exactly when that text is not empty |
| Resolution.ResolutionAction | fineftp-server/src/ftp_session.cpp:1616-1631 | Resolving b after changing into a is resolving a + "/" + b before it, for non-empty a and b not starting with "/" |
| Resolution.ResolutionActionChain | fineftp-server/src/ftp_session.cpp:1722-1751 | The same for any sequence of directory changes |
| Resolution.ParentDropsLast | fineftp-server/src/ftp_session.cpp:352-386 | Resolving ".." against a working directory other than "/" drops exactly its last component |
| Resolution.CheckedDirectoryIsUsed | fineftp-server/src/ftp_session.cpp:1722-1751 | The directory whose status CWD checks is the one later relative paths start from |
| CommandLines.SplitUndoesJoin | fineftp-server/src/ftp_session.cpp:213-226 | Splitting a command line inverts verb + " " + parameter for every verb without a space |
| Answers.UnderstoodIff | fineftp-server/src/ftp_session.cpp:213-284 | A line is understood as a verb if and only if the word before its first space spells the verb's name in letters of any case; the rest is the parameter |
| Sessions.CaseIgnored | fineftp-server/src/ftp_session.cpp:218-219 | Two verbs that differ in letter case only are dispatched alike |
| Sessions.QuitIsDispatched | fineftp-server/src/ftp_session.cpp:237-284 | The lines that reach the QUIT handler are those whose first word is QUIT in letters of any case |
| Sessions.Dispatch | fineftp-server/src/ftp_session.cpp:228-273 | Which commands can make which kind of change, and that a transfer begins exactly with a 125 or 150 reply |
| Sessions.Rnto | fineftp-server/src/ftp_session.cpp:833-904 | A rename happens only right after RNFR, with a checked path, and moves that path to the resolved target |
| Sessions.Retr | fineftp-server/src/ftp_session.cpp:524-558 | A download begins exactly with 150, only for a user who may read and on an open passive port, and sends the local path the client's path resolves to |
| Sessions.Listing | fineftp-server/src/ftp_session.cpp:1075-1209 | A listing begins exactly with 150, only of a directory and for a user who may list |
| Answers.SessionStarts | fineftp-server/src/ftp_session.cpp:49-66 | A session starts in "/" with nobody logged in, no port open and ASCII mode |
| Answers.UserAnswers | fineftp-server/src/ftp_session.cpp:300-316 | 331, or 501 without a name; logged out, name remembered, back in "/", nothing else changed |
| Answers.PassAnswers | fineftp-server/src/ftp_session.cpp:318-340 | 503 unless right after USER with a name; 230 and logged in exactly if the table has the name with this password, or the name is anonymous and that slot is taken; otherwise 530 |
| Answers.QuitAnswers | fineftp-server/src/ftp_session.cpp:393-398 | 221, logged out, shutdown requested, no further reading |
| Answers.CwdAnswers | fineftp-server/src/ftp_session.cpp:1705-1752 | 250 and now in the directory the path leads to, exactly if that is a directory that can be listed and opened; every refusal with its code and no change |
| Answers.CdupAnswers | fineftp-server/src/ftp_session.cpp:352-386 | 200 and one component up, exactly under the same conditions; 550 at the top |
| Answers.PwdAnswers | fineftp-server/src/ftp_session.cpp:1063-1073 | 257 with the working directory in quotes |
| Answers.PasvAnswers | fineftp-server/src/ftp_session.cpp:407-481 | 227 announces the very address and port that is listened on, and the acceptor is open; 421 for each failure, with the acceptor open only if just listening failed |
| Answers.TypeAnswers | fineftp-server/src/ftp_session.cpp:483-511 | A and I are accepted and remembered, anything else gets 504 |
| Answers.OptsAnswers | fineftp-server/src/ftp_session.cpp:1257-1269 | 200 exactly for UTF8 ON in letters of any case |
| Answers.RetrAnswers | fineftp-server/src/ftp_session.cpp:524-558 | 150 and a download of the place the path leads to, exactly if the user may read, the port is open and the cache delivers; the refusals in their order |
| Answers.SizeAnswers | fineftp-server/src/ftp_session.cpp:560-609 | 213 with the length of the file, for users who may read or list |
| Answers.MdtmAnswers | fineftp-server/src/ftp_session.cpp:1271-1301 | 213 exactly for a regular file, for users who may read or list |
| Answers.ListedPath | fineftp-server/src/ftp_session.cpp:1112-1128 | The ls options alone or in front of a path are dropped, any other parameter is the path |
| Answers.ListingAnswers | fineftp-server/src/ftp_session.cpp:1075-1209 | 150 exactly if the user may list and the path leads to a directory that can be opened; otherwise 450, or 530 |
| Answers.StorAnswers | fineftp-server/src/ftp_session.cpp:611-668 | 150 and an empty file open for the upload where the path leads, exactly under the stated conditions; 553 for a directory, or a file that may not be deleted |
| Answers.AppeAnswers | fineftp-server/src/ftp_session.cpp:737-802 | 150 and the file open at its end, or a new one; which permission each needs |
| Answers.StouAnswers | fineftp-server/src/ftp_session.cpp:670-735 | The first of ten drawn names that denotes nothing is opened and told with 125; 451 if all are taken |
| Answers.UniqueNameIs | fineftp-server/src/ftp_session.cpp:696-703 | The name is FILE_ and the drawn number in eight small hexadecimal digits |
| Answers.DeleAnswers | fineftp-server/src/ftp_session.cpp:911-966 | 250 and exactly that file gone, if and only if it is a regular file, may be deleted and the system does not refuse |
| Answers.RmdAnswers | fineftp-server/src/ftp_session.cpp:968-1013 | 250 and exactly that directory gone, if and only if it is empty, may be deleted and the system does not refuse |
| Answers.MkdAnswers | fineftp-server/src/ftp_session.cpp:1015-1061 | 257 and exactly that directory made, if and only if there is room, it may be made and the system does not refuse |
| Answers.RnfrAnswers | fineftp-server/src/ftp_session.cpp:814-831 | 350 and the path remembered exactly if it may be renamed; otherwise forgotten |
| Answers.RenamableIff | fineftp-server/src/ftp_session.cpp:1664-1703 | What may be renamed: what exists, with the flag for its kind |
| Answers.RntoAnswers | fineftp-server/src/ftp_session.cpp:833-904 | 250 and moved, if and only if right after RNFR, still renamable, room at the target, not below itself and not refused; every refusal with its code |
| Answers.StubAnswers | fineftp-server/src/ftp_session.cpp:342-345 | The commands that only answer, each with its code, and nothing changed |
| Answers.UnrecognizedAnswers | fineftp-server/src/ftp_session.cpp:275-284 | 500, and the command is not remembered |
| FtpSessions.FtpSession.ToAbsoluteFtpPath | fineftp-server/src/ftp_session.cpp:1616-1631 | The method computes `AbsoluteFtpPath` of the working directory and the path |
| FtpSessions.FtpSession.ToLocalPath | fineftp-server/src/ftp_session.cpp:1633-1644 | The method computes `LocalPath` for the user who is logged in |
| FtpSessions.FtpSession.ExecuteCWD | fineftp-server/src/ftp_session.cpp:1705-1752 | Moves to the resolved directory only after its status and the permission were checked; the answer tells which |
| FtpSessions.FtpSession.HandleSTOR | fineftp-server/src/ftp_session.cpp:611-668 | Overwrites an existing file only with the permission to delete, never a directory, and opens the file before the 150 |
| FtpSessions.FtpSession.HandleSTOU | fineftp-server/src/ftp_session.cpp:670-735 | At most ten drawn names; only a name that denotes nothing is opened |
| FtpSessions.FtpSession.HandleAPPE | fineftp-server/src/ftp_session.cpp:737-802 | Appends to an existing file, creates a missing one, with the permission each needs |
| FtpSessions.FtpSession.HandleRNTO | fineftp-server/src/ftp_session.cpp:833-904 | Checks the remembered path again, refuses an existing target, renames |
| FtpSessions.FtpSession.HandleFtpCommand | fineftp-server/src/ftp_session.cpp:213-291 | One handler per line; only recognized commands are remembered; reading goes on unless a shutdown was requested |
| Calls.DispatchPermitted | fineftp-server/src/ftp_session.cpp:611-1061 | Whatever a command does to the tree needs the matching permission and lies at or below the user's root |
| Calls.StepMakesPermittedCall | fineftp-server/src/ftp_session.cpp:611-1061 | Every step changes the tree by one permitted call at most, upload writes and closes included |
| Calls.NothingWithoutLogin | fineftp-server/src/ftp_session.cpp:300-1301 | Without a login no command touches the tree, changes directory or begins a transfer |
| Calls.DownloadNeedsPermission | fineftp-server/src/ftp_session.cpp:524-558 | Nothing is sent to a user without the permission to read, and only the file the path resolves to |
| Calls.ReachableDownloadsConfined | fineftp-server/src/ftp_session.cpp:524-558 | In every reachable state what a download reads lies at or below the root of the user logged in |
| Calls.ListingNeedsPermission | fineftp-server/src/ftp_session.cpp:1075-1209 | Nothing is listed for a user without the permission to list, nor anything but a directory |
| Calls.RunSound | fineftp-server/src/ftp_session.cpp:352-386 | In every reachable state the working directory starts with "/" and is a fixed point of the cleaner, and the tree is a tree |
| Calls.ReachableTargetsConfined | fineftp-server/src/ftp_session.cpp:1616-1644 | In every reachable state every path a client can name lies at or below the root of the user logged in |
| Authority.FilesSurvive | fineftp-server/src/ftp_session.cpp:611-1061 | If nobody who logs in during a run may delete or rename, every settled file survives the run at its place with its old content as a prefix, and unchanged if none of them may append; other users in the table may hold any permission |
| Authority.ReadersChangeNothing | fineftp-server/src/ftp_session.cpp:611-1061 | If nobody who logs in holds a changing permission, the run does not change the tree |
| Authority.ReadOnlyServerChangesNothing | fineftp-server/include/fineftp/permissions.h:5-20 | A server all of whose users are read-only never changes the tree, from the first command on |
| Authority.RunsStayInside | fineftp-server/src/ftp_session.cpp:1616-1644 | No run changes an entry outside the local roots of those who log in, nor the content of a file that stands only outside |
| Authority.OtherRootsLeftAlone | fineftp-server/src/ftp_session.cpp:1616-1644 | As long as only users of one root log in, nothing changes below a root elsewhere |
| Authority.ServerStaysInside | fineftp-server/src/ftp_session.cpp:1616-1644 | Whoever logs in, nothing changes outside the roots of all users together |
| Authority.ActorsAreKnown | fineftp-server/src/user_database.cpp:24-86 | Nobody is ever logged in, or can be, but users of the table or added later |
| Histories.LastCommandWasHandled | fineftp-server/src/ftp_session.cpp:275-284 | The remembered command is the latest recognized one |
| Histories.LoginJustified | fineftp-server/src/ftp_session.cpp:275-340 | Whoever is logged in got there by USER with a name and, next among recognized commands, a PASS the table accepted then and still does, with no USER or QUIT since |
| Histories.LoggedInIsFirstAdded | fineftp-server/src/ftp_session.cpp:275-340 | Whoever is logged in was the first user added under the name that USER gave, and PASS gave that user's password; or the first added under an anonymous name |
| Histories.RnfrFound | fineftp-server/src/ftp_session.cpp:814-831 | The remembered path was checked by the latest RNFR, for the same user in the same directory |
| Histories.RenamePaired | fineftp-server/src/ftp_session.cpp:833-904 | Any run that reaches the rename moves exactly what the latest RNFR checked, onto a place where nothing stood, and conserves the file contents |
| Histories.UpDropsLast | fineftp-server/src/ftp_session.cpp:352-386 | A successful CDUP drops exactly the last component, any other changes nothing |
| Histories.UpAtMostDepth | fineftp-server/src/ftp_session.cpp:352-386 | In a run of CDUPs the successes and the depth left add up to the depth at the start |
| Histories.DirectoryChangesCompose | fineftp-server/src/ftp_session.cpp:1705-1752 | After any run of successful CWDs a relative path has the local path that the directories and the path, written as one path, had before |
| Histories.PwdReadsBack | fineftp-server/src/ftp_session.cpp:1063-1073 | After a successful CWD the path read out of the 257 reply is the directory that was checked |
| Histories.MkdReadsBack | fineftp-server/src/ftp_session.cpp:1015-1061 | The path read out of the reply to MKD names the new directory from any working directory, and nothing stood there before |
| Histories.PortClosedByConnection | fineftp-server/src/ftp_session.cpp:1307-1334 | After the first connection, accepted or rejected, no further RETR, STOR, STOU or APPE begins a transfer until another PASV is handled |
| Replies.RunDisciplined | fineftp-server/src/ftp_session.cpp:213-291 | One immediate reply for each handled command, in order; a later reply only after a 125 or 150 to the same command, at most once, and for exactly those transfers that were concluded |
| Replies.SessionDisciplined | fineftp-server/src/ftp_session.cpp:213-291 | The same from the first command of a session on |
| Replies.StepDisciplined | fineftp-server/src/ftp_session.cpp:1307-1610 | Every handler, of commands and of data connections, keeps that discipline |
| Users.UserDatabase.AddUser | fineftp-server/src/user_database.cpp:24-61 | Adds an entry exactly when the name denotes none, all anonymous names sharing one slot |
| Users.UserDatabase.GetUser | fineftp-server/src/user_database.cpp:63-86 | The entry of the name if the password is right; any password for anonymous names |
| Users.EntryAfter | fineftp-server/src/user_database.cpp:24-61 | After any additions a name denotes what it did before, or the first addition to its slot |
| Users.LookupStable | fineftp-server/src/user_database.cpp:63-86 | A login that was possible stays possible with the same user, a refused password stays refused |
| Users.LookupIsFirst | fineftp-server/src/user_database.cpp:24-93 | A name and password give the user first added under that name if and only if the password is that user's; the three anonymous names give the user first added under any of them, whatever the password |
| Permissions.CoversFlag | fineftp-server/src/ftp_session.cpp:1674-1690 | The all-flags check of a rename and the any-flag check of the other commands agree on a single flag |
| Permissions.FlagBits | fineftp-server/include/fineftp/permissions.h:7-20 | The bits of the flags and of the named masks, and what a check for two flags asks for |
| Permissions.MaskAlgebra | fineftp-server/include/fineftp/permissions.h:23-25 | Or-ing and and-ing masks adds and removes exactly the flags named |
| Permissions.ReadOnlyChangesNothing | fineftp-server/include/fineftp/permissions.h:5-25 | The read-only mask grants exactly the flags that change nothing |
| Disks.RenameMoves | fineftp-server/src/ftp_session.cpp:884-891 | A rename moves every entry at or below its source, once, and nothing else |
| Disks.RenameIs | fineftp-server/src/ftp_session.cpp:884-891 | In plain terms: what was at and below the source is at and below the target, nothing is left at the source, everything else is where it was |
| Disks.RenameSucceedsIff | fineftp-server/src/ftp_session.cpp:884-891 | Exactly when the system can rename onto a place where nothing stands |
| Disks.RenameConserves | fineftp-server/src/ftp_session.cpp:884-891 | A rename conserves the multiset of file contents |
| Disks.ApplyValid | fineftp-server/src/ftp_session.cpp:611-1061 | Every call leaves a tree whose parents are directories and whose open files exist |
| Disks.WritesAppend | fineftp-server/src/ftp_session.cpp:1596-1600 | The chunks of an upload are added to its file in order, and to no other |
| Disks.OpenedAtEnd | fineftp-server/src/unix/file_man.h:61-107 | A file opened for writing is empty, one opened for appending is written at its end |
| ReplyText.CreateQuotedFtpPath | fineftp-server/src/ftp_session.cpp:1646-1662 | The loop writes the path in quotes with every quote doubled |
| ReplyText.QuoteRoundTrip | fineftp-server/src/ftp_session.cpp:1646-1662 | A reader that undoes doubled quotes recovers path and suffix if and only if the suffix does not start with a quote |
| ReplyText.QuoteInjective | fineftp-server/src/ftp_session.cpp:1646-1662 | Different paths are quoted differently |
| ReplyText.PassiveRoundTrip | fineftp-server/src/ftp_session.cpp:467-480 | For every IPv4 address and port, reading the six numbers of the 227 reply gives that address and port back |
| ReplyText.ReadCommaList | tests/fineftp_test/src/pasv_security_test.cpp:59-71 | The client's decoder reads any printed list of numbers back |
| Uploads.RunOrdered | fineftp-server/src/ftp_session.cpp:1561-1610 | Under every schedule and segmentation the received bytes are the file plus what is on its way to it, in order |
| Uploads.UploadIntegrity | fineftp-server/src/ftp_session.cpp:1561-1610 | At close the file equals the received bytes, all chunks but the last are 1 MiB, at most one read is outstanding, and one 226 follows the close |
| Uploads.UploadLandsInTree | fineftp-server/src/ftp_session.cpp:655-667 | On the file tree, STOR leaves exactly the received bytes at the stored path, APPE the old content and then those bytes |
| Stores.StoreBegins | fineftp-server/src/ftp_session.cpp:611-802 | An upload begins with the file at the resolved place, empty or with its old content, open at its end; STOU with a new file of the name its reply tells |
| Stores.UploadGrowsByItsChunks | fineftp-server/src/ftp_session.cpp:1561-1610 | In every run during which nobody opens the file once more, its content grows by exactly the upload's chunks in order, wherever it is moved meanwhile |
| Stores.EndedIff | fineftp-server/src/ftp_session.cpp:1602-1610 | The transfer of an upload is concluded exactly by the end of its own data |
| Stores.StoredIsReceived | fineftp-server/src/ftp_session.cpp:1561-1610 | Session, tree and upload together: the stored content is always what was there and what the upload has written; the one later reply has been given exactly when the upload has closed the file; and then the content ends with exactly the bytes received |
| Deliveries.RunTells | fineftp-server/src/ftp_session.cpp:1307-1610 | In every run a transfer has been given exactly the later reply that is due for how its connection and its data ended |
| Deliveries.DownloadAnswered | fineftp-server/src/ftp_session.cpp:1448-1499 | A download has its 226 exactly if it was connected and all of it was sent, one of an empty file as soon as it is connected; 426 if connecting or sending failed, 425 if rejected; nothing else |
| Deliveries.UploadAnswered | fineftp-server/src/ftp_session.cpp:1561-1610 | An upload has its 226 exactly if it was connected and its data ended; 426 if connecting failed, 425 if rejected |
| Deliveries.ConnectionLeaves | fineftp-server/src/ftp_session.cpp:1307-1334 | What each outcome of an accept leaves: port, transfer, reply |
| Deliveries.EndLeaves | fineftp-server/src/ftp_session.cpp:1469-1610 | What the end of the data leaves: file closed, transfer ended, reply by kind and success |
| Deliveries.LossLeaves | fineftp-server/src/ftp_session.cpp:176-199 | Losing the control connection ends the reading and closes the passive port |
| Deliveries.ListingReplied | fineftp-server/src/ftp_session.cpp:1393-1555 | Session and data buffer together: a connected listing has its 226 exactly if it found the buffer empty and none of its writes failed, otherwise no later reply |
| Uploads.NextReadBeforeWrite | fineftp-server/src/ftp_session.cpp:1596-1600 | The read issued before the write cannot overtake it: its handler waits for the strand |
| Uploads.NoEmptyChunk | fineftp-server/src/ftp_session.cpp:1587-1590 | A read that succeeds is never empty, so the upload cannot be forgotten there |
| Uploads.FinishedFile | fineftp-server/src/ftp_session.cpp:1569-1610 | From every reachable point the upload can be ended, and then the file is what the client sent |
| Uploads.UploadProgresses | fineftp-server/src/ftp_session.cpp:1569-1610 | Until the file is closed there is a next step, and it leaves less to do |
| Listings.OwnBytesOnly | fineftp-server/src/ftp_session.cpp:1501-1555 | In every run of any number of listings, overlapping or not: the listings answered are the first ones, each once and in order, each sent whole on its own connection; no connection takes anything but the beginning of its own listing |
| Listings.AnsweredIff | fineftp-server/src/ftp_session.cpp:1501-1555 | Once nothing more happens, a listing has got its 226 if and only if the buffer was empty when its first item was added and none of its writes failed |
| Listings.AloneFindsEmpty | fineftp-server/src/ftp_session.cpp:1506-1512 | A listing posted while nothing is going on finds the buffer empty |
| Listings.BufferInUse | fineftp-server/src/ftp_session.cpp:1501-1555 | At every interleaving at most one write step is pending or in flight, and only with something in the buffer; the buffer is in use without one exactly if its front belongs to a lost listing |
| Listings.StepsRunOut | fineftp-server/src/ftp_session.cpp:1501-1555 | Every step but a new listing leaves less to do, and until it is quiet a step is possible, so the end is reached whatever the schedule |
| Listings.StalledIff | fineftp-server/src/ftp_session.cpp:1546-1553 | A buffer that became quiet is stuck exactly if some listing was not answered |
| Listings.StalledForEver | fineftp-server/src/ftp_session.cpp:1506-1512 | A stuck buffer stays stuck: no listing, posted before or later, is sent or answered |
| Listings.OverlapLosesListing | fineftp-server/src/ftp_session.cpp:1546-1553 | A run without any write error in which the second of two overlapping listings is lost |
| Listings.WriteErrorStalls | fineftp-server/src/ftp_session.cpp:1530-1536 | A run in which a write error leaves the end marker in the buffer |
| Control.RunConserved | fineftp-server/src/ftp_session.cpp:118-167 | In every run, write errors and QUIT included, completed, queued and waiting messages are those posted, in order; at most one write, of the front |
| Control.AfterShutdown | fineftp-server/src/ftp_session.cpp:146-153 | After QUIT no command is handled and at most one more write completes |
| Control.QuitIsLast | fineftp-server/src/ftp_session.cpp:286-290 | The same for every run that handled a QUIT |
| Control.ClosingReplyIff | fineftp-server/src/ftp_session.cpp:393-398 | The reply to QUIT can be delivered exactly when nothing else was queued or waiting |
| Control.OneWriteAfterQuit | fineftp-server/src/ftp_session.cpp:131-167 | In every continuation at most one write completes after QUIT, of the oldest message not yet sent; so it is the closing reply exactly when nothing else was queued or waiting |
| Control.QuitFindsGreetingQueued | fineftp-server/src/ftp_session.cpp:94-102 | A run in which QUIT finds the greeting queued, and its reply is never sent |
| Control.CutEncoded | fineftp-server/src/ftp_session.cpp:169-226 | Cutting at each CR LF undoes writing lines with CR LF (section 5.3 of RFC 959) |
| Control.SegmentationIndependent | fineftp-server/src/ftp_session.cpp:169-211 | For every split of the incoming bytes the handled commands are the whole stream cut at each CR LF, up to QUIT, and the input kept holds no CR LF |
| Control.ReadsUntilQuit | fineftp-server/src/ftp_session.cpp:286-290 | As long as no read fails the connection reads on until QUIT, and the next complete line is handled |
| FileCache.ReadableFiles.Retrieve | fineftp-server/src/unix/file_man.cpp:38-86 | A live cached object is shared; otherwise a new one is mapped and registered, or nothing is delivered and nothing changes |
| FileCache.GetGivesLiveMapping | fineftp-server/src/unix/file_man.cpp:38-86 | What get delivers is alive and mapped and stands for the path asked for, whatever steps came between |
| FileCache.GetDelivers | fineftp-server/src/unix/file_man.cpp:38-86 | A live mapping of the path is shared; otherwise one of the size found is made and registered, unless opening or mapping fails |
| FileCache.HeldWhileTaken | fineftp-server/src/unix/file_man.cpp:24-50 | An object is alive and mapped exactly as long as it was taken more often than given back; the last return, and no earlier one, starts its destructor |
| FileCache.DataNeverNull | fineftp-server/src/ftp_session.cpp:1452-1461 | The branch for missing data is dead, and each mapping is unmapped at most once, exactly once when its destructor is over |
| FileCache.StepRegisteredIff | fineftp-server/src/unix/file_man.cpp:31-36 | Which step makes the table lose a live mapping, exactly |
| FileCache.RegisteredIff | fineftp-server/src/unix/file_man.cpp:38-86 | The table names every live mapping if and only if there is at most one for each path, now and after the next get |
| FileCache.AlwaysUniqueIff | fineftp-server/src/unix/file_man.cpp:24-86 | At every point of a run there is at most one live mapping per path, and would be after one more get, if and only if no destructor erases the entry of a live mapping |
| FileCache.OneMappingPerPath | fineftp-server/src/unix/file_man.cpp:24-86 | That is so if no get comes between a path's last release and its erasure |
| FileCache.TwoMappingsOfOnePath | fineftp-server/src/unix/file_man.cpp:31-36 | A run with two live mappings of one path otherwise |

## Left out

- The asynchronous I/O library, sockets, threads and timers: handlers of one strand run one after another in the order
  posted, a write on a closed socket fails, and everything else about timing is arbitrary.
- The data acceptor is used from two strands in the source. `Accepted` events may come with any outcome at any time, which
  includes what an acceptor closed meanwhile does.
- The Windows back end: file handles, wide strings and the Windows file calls. The cleaner's Windows branch is modelled,
  with its two regular expressions as prefix predicates.
- Symbolic links, hard links, NUL characters in paths and the permissions of the operating system: whether the system
  refuses a call is an arbitrary input. The status of each entry inside a listed directory is not modelled.
- Several sessions at once: a run has one session, and users may be added at any time.
- Stores.UploadGrowsByItsChunks: for an upload that has its file to itself; what stands in a file that several uploads write
  at once is modelled in `Disks` and `Sessions`, but nothing is claimed about its order.
- Sessions.Retr: whether the file cache delivers an object for the path, and of which size, is an arbitrary input; the cache
  is modelled in `FileCache`, where the object delivered stands for the path asked for.
- Addresses other than IPv4 in the reply to PASV: the conversion in the source throws for them.
- Deliveries.ListingReplied: for a listing whose end in the session is that of the data buffer; the transition function of the
  session alone lets a listing end at any time.
- FtpSessions.FtpSession.HandleSTOU: the drawn numbers are arbitrary.
- The time text of MDTM is an arbitrary input.
- Buffering of file streams, and writes that fail on a full disk.
- The wording of replies, except the texts clients parse (quoted paths, sizes, the passive address); the formatting of
  listing lines and of times.
- The option to delay the 226 reply, logging, the server's accept loop and its connection counter.
- The compound assignment forms of the permission operators, which only assign the result of the plain ones.
