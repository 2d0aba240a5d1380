# Modest: callback protocols, account store, search and body extraction

Modest is a mail client whose work is done by chains of asynchronous callbacks over shared helpers, on top of a
configuration store that it addresses by printed keys. This project models the parts of it that hold algorithms
or protocols, and proves what they keep over all runs, all inputs and all histories.

* **Account update** (`AccountUpdate*`, `HeaderSelection`): send and receive on one account. Folder lists are asked
  for by calls that may come back in any order, fail, be cancelled and be retried once; then the selected folders
  are refreshed one after the other; then the newest messages are downloaded in parallel. The state machine
  `AccountUpdate.Step` holds the helper, the operation and everything outstanding in the main loop;
  `AccountUpdateOperation` holds the callbacks as methods that update these fields step by step, each proved to
  take the state machine along its step; `AccountUpdateRuns` and `AccountUpdateTermination` hold the invariant and the
  termination measure, `AccountUpdateTheorems` and `AccountUpdateHistory` the results, the latter told from the events
  and the configuration alone.
* **Fetching and transferring messages** (`MessageFetch`, `MessageTransfer`) and **the operation queue**
  (`OperationQueue`), in the same form: a step function, a class that refines it, and theorems over all runs.
* **Search** (`BodySearch*`, `EqualitySearch`, `MessageSearch`, `AccountSearch*`): the two-chunk window that slides over a body in a
  fixed array, the filters and fields of a header, the recursive search of MIME parts, and the traversal of all
  folders of an account.
* **Account manager** (`AccountKeys`, `KeyCache`, `AccountNames`, `Accounts`, `AccountsOwnership`,
  `AccountSettingsRoundTrip`, `AccountStore`, `AccountListing`, `AccountDisplayNames`, `AccountManager`,
  `ConnectionSmtp`): the printer and parser of keys and their cache,
  the generator of unused names, adding, removing, saving and loading accounts, and the flat list that serves as a
  map from connections to accounts.
* **Body extraction** (`TextExtraction`, `LongLines`): the copy loop with its line count and limits, and what the count
  is for texts with long lines.

To verify: `dafny verify dfyconfig.toml`.

## What the code does other than promised

The model follows the code. Where that falls short of what its comments, names or callers expect, a lemma gives an
input and, where the result has a condition, says exactly when it holds.

* A cancelled account update reports SUCCESS if nothing failed: the last callback overwrites CANCELED
  (`SuccessOverwritesCancel`, `CancelledUpdateSucceeds`). It reports CANCELED if and only if a listing had failed for
  good and the operation was cancelled after that (`CanceledExactly`, `CanceledIsReported`).
* A retried folder listing goes on filling the list of the failed call, so folders that call had already delivered
  are collected twice (`RetryCollectsTwice`); the enumeration is exact if and only if it had delivered none
  (`EnumerationIsExact`).
* The body search is written, and commented, as a substring search, but it calls a comparison for equality: it
  misses a term inside a body (`PartOfABodyIsMissed`). For every body and every term it is right exactly if the term
  does not occur, or is, up to a first NUL, the first chunk, two neighbouring chunks or one of the two ends of the body
  that start at a border between chunks (`FindsExactlyPieces`, `SearchIsRightExactly`); for a NUL-free body and a term
  shorter than a chunk that leaves what is behind the last border (`ShortTermExactly`), and nothing if the stream ends
  in an error (`ErrorHidesShortTerms`).
* With a substring comparison in its place the window finds a term exactly if some occurrence is seen: the last window
  over its start also holds its end, and no NUL in front of it (`FindsExactlySeen`). So every occurrence of up to 4097
  bytes is found in a NUL-free body, and that bound is sharp (`FindsEveryOccurrence`, `LongerTermsAreMissed`); in a body
  with NULs, one is found exactly if no NUL is between the border in front of it and itself (`NulHidesExactly`,
  `TextAfterNulIsMissed`).
* Fetching an empty list is started but never finished (`EmptyFetchNeverEnds`). A transfer ends still IN_PROGRESS and
  without an error exactly if the destination may be written and the list is empty or its first header does not know
  its folder (`MessageTransfer.EndStatusExactly`); like the transfers refused as FAILED, it never calls the user back
  (`MessageTransfer.EndsExactlyOnce`).
* Searching all accounts when there are none never calls back, and a search goes on to a folder that does not exist
  exactly if the listings of all accounts brought none (`NoAccountsNoCallback`, `NoFolderIsSearched`).
* Removing or setting a connection in the connection/account list searches the accounts too; it is right if and only
  if the search finds a connection (`RemoveIsRightExactly`, `SetIsRightExactly`, `AccountTakenForConnection`).
* The key cache answers wrongly exactly when the setting name `<dummy>` and a missing setting name meet
  (`CacheIsRightExactly`, `DummySettingIsWrong`).
* The filter of `account_names` for accounts in the middle of being removed looks up server accounts under the escaped
  name of an account. At that point the list leaves out exactly the accounts whose escaped name is the name of the
  account being removed (`ListDuringRemoval`): it keeps that account if its name needs escaping, and may drop a
  complete one (`ListIsWrongBothWays`, `SuchNamesExist`).
* A new account whose display name is taken is stored under another name but with the taken display name. Over every
  history the display names stay different if and only if no account was added under a name the code had found taken
  (`NamesStayDifferentExactly`, `SameNameTwice`).
* `extract_text` does not always extract the whole text. It does exactly if the text counts fewer than 1024 lines
  (`WholeExactly`). Where no blank line is seen that is fewer than 1024 newlines and wraps at 78 bytes
  (`WholeIffFewWraps`), without long lines fewer than 1024 newlines (`WholeIffFewLines`); the 1024th is dropped, so 1024
  newlines come out as 1023 (`LastNewlineIsLost`). Of the two newlines in front of a blank line only the second counts if
  a line has been wrapped before (`BlankLineCounts`, `WholeWithBlankLine`).

## Model

| member | source | states |
|---|---|---|
| AccountUpdateRuns.EveryStateInv | src/modest-mail-operation.c:1993-2142 | every state of every run is in one of four phases, each tying the counters, lists, observer and outstanding calls together |
| AccountUpdateRuns.StepKeeps | src/modest-mail-operation.c:1615-2142 | every callback, timeout and outside event keeps that invariant |
| AccountUpdateRuns.ConservedByRetry | src/modest-mail-operation.c:2021-2034 | a retry conserves folders: collected, promised and lost ones are those of the account and the leftovers |
| AccountUpdateTheorems.EndsExactlyOnce | src/modest-mail-operation.c:1993-2142 | pending_calls is scheduled plus running listings; the operation ends exactly once, then not busy, unobserved and with nothing outstanding that holds the helper |
| AccountUpdateTheorems.EnumerationIsExact | src/modest-mail-operation.c:2017-2092 | without error the collection is the multiset of all folders of the tree, or of the root's children, in any callback order, if and only if the retried call had delivered nothing |
| AccountUpdateTheorems.RetryCollectsTwice | src/modest-mail-operation.c:2021-2035 | for every account whose folders are not all poked and any folders delivered by the failed call, a run without error that collects these twice |
| AccountUpdateTheorems.RefreshedInOrder | src/modest-mail-operation.c:1723-1795 | folders are refreshed in list order, one at a time; an update that ends without error, cancelled or not, has refreshed all selected folders if and only if there are none or its status was not CANCELED when the last listing came back |
| AccountUpdateTheorems.DownloadAccounts | src/modest-mail-operation.c:1616-1673 | done counts the messages received and stays below total while some are outstanding; the bytes received never exceed the computed size, with equality at the end exactly if no bytes were lost |
| AccountUpdateTheorems.LastMessageEnds | src/modest-mail-operation.c:1647-1672 | a message callback ends the update exactly if it is the last one outstanding |
| AccountUpdateHistory.UserGetsTheNewest | src/modest-mail-operation.c:1813-1922 | over all runs without error the user gets the headers offered of fewer than 1024 bytes for each kilobyte of the limit, of fewer than G_MAXINT bytes without a limit, and no others: newest first, those of one date in the order they came; the messages requested are the first of these, exactly as many as the account's limit allows, none for headers only |
| AccountUpdateHistory.RefreshedExactly | src/modest-mail-operation.c:2106-2123 | in every run that ends without error and was not CANCELED at the last listing: a collected folder is refreshed if and only if it is an inbox or all folders are to be updated, and not only folder counts are; in list order |
| AccountUpdateHistory.PokedExactly | src/modest-mail-operation.c:2100-2124 | without error all collected folders are poked if that is asked for and the status was not CANCELED at the last listing, else none |
| AccountUpdateHistory.ErrorExactly | src/modest-mail-operation.c:2017-2046 | in every run the error is that of the first failure for good, told from the events: a refresh that failed or was cancelled, a cancelled listing, or the second listing that failed; ITEM_NOT_FOUND for an unknown account |
| AccountUpdateHistory.BooksAreKept | src/modest-mail-operation.c:1616-1673 | in every run: the folders of the listings that came back well are collected as they came; all headers the observer was told of are offered, in order; the bytes counted are those of the messages that arrived, and those missing of the others; until messages are asked for the progress is the latest reported |
| AccountUpdateTheorems.FinalStatus | src/modest-mail-operation.c:1930-1940 | an update that nobody cancels ends FAILED if the account is not known or a listing or refresh failed for good and SUCCESS otherwise, having tried to send once |
| AccountUpdateTheorems.SuccessOverwritesCancel | src/modest-mail-operation.c:1930-1940 | in every run, cancelled or not, the last callback reports SUCCESS exactly if nothing has failed, CANCELED exactly if an error and then CANCELED were set before it, and FAILED otherwise |
| AccountUpdateTheorems.CanceledExactly | src/modest-mail-operation.c:2036-2046 | a run ends CANCELED if and only if a listing failed for good and a later event before the end cancelled the operation |
| AccountUpdateTheorems.CanceledIsReported | src/modest-mail-operation.c:2085-2089 | for every account with two folders, all poked, a run that ends CANCELED |
| AccountUpdateTheorems.CancelledUpdateSucceeds | src/modest-mail-operation.c:2092-2140 | for every account whose folders are not all poked, a run that is cancelled, refreshes nothing and reports SUCCESS |
| AccountUpdateTermination.WorkLowersBudget | src/modest-mail-operation.c:1615-2142 | every callback and timeout lowers a measure of folders, refreshes and messages still to come |
| AccountUpdateTermination.RunsAreBounded | src/modest-mail-operation.c:1993-2142 | over a finite folder tree the number of callbacks in a run is bounded, whatever their order and outcome |
| AccountUpdateTermination.OutstandingIffAlive | src/modest-mail-operation.c:1675-1694 | the helper lives exactly as long as some callback is outstanding |
| HeaderSelection.SortIsSorted | src/modest-mail-operation.c:1877-1878 | merge sort with a comparator that never answers 0 sorts by date and loses nothing |
| HeaderSelection.PrependedReverses | src/modest-mail-operation.c:1881-1889 | prepending each element reverses the array |
| HeaderSelection.RequestedAreTheNewest | src/modest-mail-operation.c:1844-1922 | sort, prepend and cut give a true top-k of the headers below a size: the exact number, none older than one passed over |
| HeaderSelection.OneDateInOrder | src/modest-mail-operation.c:1877-1889 | the comparator never answers 0, so the sort reverses headers of one date, and prepending puts them back in the order they came |
| AccountUpdateOperation.ComputeMessageListSize | src/modest-mail-operation.c:3692-3717 | the loop returns the sum of the sizes of the first num_elements headers, of all for 0 or a number too large |
| AccountUpdateOperation.ApplySizeLimit | src/modest-mail-operation.c:1822-1843 | the filtering loop keeps exactly the headers below the size limit, in order |
| AccountUpdateOperation.UpdateAccount.constructor | src/modest-mail-operation.c:2144-2231 | the helper, one pending call for the account's own folders, and the account busy; an account that is not known fails at once with one callback |
| AccountUpdateOperation.UpdateAccount.RecurseFoldersAsyncCb | src/modest-mail-operation.c:2004-2142 | the whole new state after a listing came back, whatever its outcome: error handling, the retry, new pending calls, and the refresh when none is left |
| AccountUpdateOperation.UpdateAccount.RetryListing | src/modest-mail-operation.c:2021-2035 | the failed listing is scheduled again with the list it was filling, a pending call more and a retry less |
| AccountUpdateOperation.UpdateAccount.AddFolders | src/modest-mail-operation.c:2047-2075 | the loop over a list collects every folder and, when all are poked, schedules one listing and one pending call for each |
| AccountUpdateOperation.UpdateAccount.SelectFolders | src/modest-mail-operation.c:2091-2127 | the loop attaches the observer to each folder to refresh, queues all but the first, and pokes |
| AccountUpdateOperation.UpdateAccount.FolderRefreshedCb | src/modest-mail-operation.c:1723-1941 | the whole new state after a refresh: the end by an error, the next refresh, or the selection and request of the newest messages |
| AccountUpdateOperation.UpdateAccount.DetachAndUnqueue | src/modest-mail-operation.c:1754-1770 | the loop takes the observer from every collected folder and every such folder out of the refresh queue |
| AccountUpdateOperation.UpdateAccount.UpdateAccountGetMsgAsyncCb | src/modest-mail-operation.c:1615-1673 | a message more is done, its size is counted if it arrived, and the last one ends the update |
| AccountUpdateOperation.UpdateAccount.RecurseFoldersAsyncTimeoutCb | src/modest-mail-operation.c:1993-2002 | a scheduled listing becomes an outstanding call with the same list |
| AccountUpdateOperation.UpdateAccount.FolderRefreshedTimeoutCb | src/modest-mail-operation.c:1713-1721 | a scheduled refresh becomes an outstanding call |
| AccountUpdateOperation.UpdateAccount.UpdateAccountNotifyUserAndFree | src/modest-mail-operation.c:1675-1694 | not busy, one callback, one operation-finished, helper freed |
| AccountUpdateOperation.UpdateAccount.InternalFolderObserverUpdate | src/modest-mail-operation.c:1495-1517 | new headers are appended to what the observer has |
| AccountUpdateOperation.UpdateAccount.FolderRefreshStatusUpdate | src/modest-mail-operation.c:1943-1974 | done and total are those reported |
| AccountUpdateOperation.UpdateAccount.Cancel | src/modest-mail-operation.c:550-578 | the status is CANCELED and nothing else changes |
| MessageFetch.OneCallUntilTheEnd | src/modest-mail-operation.c:3097-3203 | exactly one call is outstanding, for the header whose turn it is, until the end at the first cancelled call or the last header; one destroy notification and one operation-finished then |
| MessageFetch.CallbacksInOrder | src/modest-mail-operation.c:3109-3150 | the user is called back once for each message that came back, in list order, with its header and outcome |
| MessageFetch.StatusIsTheLatest | src/modest-mail-operation.c:3123-3142 | with cancels at any time, the status is what the latest cancel or failure left, SUCCESS at the end if there was none |
| MessageFetch.FinalStatus | src/modest-mail-operation.c:3123-3142 | CANCELED exactly if a call was cancelled, else FINISHED_WITH_ERRORS exactly if one failed, else SUCCESS with all messages fetched |
| MessageFetch.ErrorExactly | src/modest-mail-operation.c:3127-3136 | in every run the error is the one reported with a message if some message failed and was not cancelled, else there is none; total is the number of headers |
| MessageFetch.LowMemoryFailsAtOnce | src/modest-mail-operation.c:3225-3245 | FAILED at once, one callback with the first header and the error, and nothing after |
| MessageFetch.EmptyFetchNeverEnds | src/modest-mail-operation.c:3278-3314 | whatever happens, a fetch of no headers emits operation-started and never operation-finished |
| MessageFetch.GetMsgs.constructor | src/modest-mail-operation.c:3205-3315 | low memory, empty list, or the first call |
| MessageFetch.GetMsgs.GetMsgAsyncCb | src/modest-mail-operation.c:3097-3203 | the whole new state after a message came back |
| MessageTransfer.TransferredIsPrefix | src/modest-mail-operation.c:3606-3690 | at any point, under any cancel or failure, the destination gained exactly the prefix of the messages that the calls transferred; the source is unchanged if messages are left on the server or not to be deleted, and has lost exactly that prefix otherwise; all of them if the status is SUCCESS |
| MessageTransfer.OneByOneRefinesBulk | src/modest-mail-operation.c:3812-3865 | a successful transfer message by message leaves both folders and the report as a successful transfer in one call |
| MessageTransfer.EndsExactlyOnce | src/modest-mail-operation.c:3575-3690 | exactly one call outstanding until the end; one end, one user callback, none for a refused transfer |
| MessageTransfer.TransfersAreBounded | src/modest-mail-operation.c:3606-3690 | at most one call for each message, or a single one within an account, and one synchronization |
| MessageTransfer.ErrorExactly | src/modest-mail-operation.c:3618-3642 | in every run the error is that of the refusal, or the one reported with a call if some call failed and was not cancelled, else there is none |
| MessageTransfer.DoneExactly | src/modest-mail-operation.c:3618-3642 | done is 1 once the transfer has succeeded, even if it is cancelled then, and 0 otherwise; total is the number of messages |
| MessageTransfer.EndStatusExactly | src/modest-mail-operation.c:3752-3796 | over all runs not cancelled as an operation: ended IN_PROGRESS, without error or user callback, if and only if the destination is writeable and the list is empty or its first header has no folder; FAILED with its error for the two other refusals; else CANCELED, FAILED or SUCCESS by the outcome of the calls |
| MessageTransfer.StatusIsTheLatest | src/modest-mail-operation.c:3618-3642 | over all runs, cancelled at any time: the status is what the latest cancel or failure left; without any, that of the refusal, IN_PROGRESS during the calls and SUCCESS after the last |
| MessageTransfer.CancelStopsTransfer | src/modest-mail-operation.c:3606-3690 | once the operation is cancelled at most the outstanding call moves anything, a single message between accounts; no other call is made and the status is never SUCCESS |
| MessageTransfer.XferMsgs.constructor | src/modest-mail-operation.c:3719-3865 | the three refusals, or the first transfer call: of all messages within an account, else of the first |
| MessageTransfer.XferMsgs.TransferMsgsCb | src/modest-mail-operation.c:3605-3690 | the whole new state after a transfer call came back: failure, end, or the next message |
| MessageTransfer.XferMsgs.TransferMsgsSyncFolderCb | src/modest-mail-operation.c:3575-3603 | operation-finished and the user callback once each, helper freed |
| OperationQueue.QueueIsFifo | src/modest-mail-operation-queue.c:262-393 | the queue is the operations added minus those removed, in the order added, with exactly one reference each |
| OperationQueue.OneCheckPending | src/modest-mail-operation-queue.c:381-392 | never two idle checks; on an empty queue exactly one if an operation was removed since the last emission, else none |
| OperationQueue.EmissionsArePaidFor | src/modest-mail-operation-queue.c:298-327 | queue-empty is emitted exactly when a check runs on an empty queue and only after a removal, never more often than removals emptied the queue |
| OperationQueue.ChecksAreScheduled | src/modest-mail-operation-queue.c:371-392 | over all runs a check is scheduled by each removal that empties the queue and by nothing else |
| OperationQueue.OtherSourcesSurvive | src/modest-mail-operation-queue.c:381-392 | the stale id left in queue_empty_handler never makes a removal destroy another source |
| OperationQueue.MailOperationQueue.Remove | src/modest-mail-operation-queue.c:330-393 | the operation and its reference go; if it was the last, the stored idle source is replaced by a new one |
| OperationQueue.MailOperationQueue.NotifyQueueEmpty | src/modest-mail-operation-queue.c:298-327 | emits only if the queue is still empty |
| OperationQueue.MailOperationQueue.Add | src/modest-mail-operation-queue.c:262-296 | the operation joins at the tail with one reference |
| BodySearchTheorems.FindsExactlySeen | src/modest-search.c:231-307 | with a substring comparison, for every text and every term, with or without a read error: found if and only if some occurrence ends in the last window over its start and has no NUL before it in there; right if and only if there is none or one that is seen |
| BodySearchTheorems.NulHidesExactly | src/modest-search.c:262-266 | for terms of up to 4097 bytes and any text: right if and only if the term does not occur, or occurs with no NUL between the border in front of it and itself |
| BodySearchTheorems.FindsEveryOccurrence | src/modest-search.c:231-307 | so in NUL-free text such a term is found if and only if it occurs in the text covered |
| BodySearchTheorems.LongerTermsAreMissed | src/modest-search.c:246-249 | every longer term occurs in some text without being found |
| BodySearchTheorems.TextAfterNulIsMissed | src/modest-search.c:262-266 | every term right behind a NUL at the start of a body is missed |
| EqualitySearch.PartOfABodyIsMissed | src/modest-search.c:284-289 | the comparison the code calls misses a term inside a body |
| EqualitySearch.FindsExactlyPieces | src/modest-search.c:231-307 | for every text and every term, with or without a read error: found if and only if the term is, up to case and to a first NUL, the first chunk, two neighbouring chunks, or an end of the text from one of the last two borders |
| EqualitySearch.SearchIsRightExactly | src/modest-search.c:231-307 | so found if and only if it occurs, exactly for terms that do not occur and those pieces |
| EqualitySearch.ShortTermExactly | src/modest-search.c:231-307 | for NUL-free texts and terms shorter than a chunk: exactly if the term does not occur or is all there is behind the last border |
| EqualitySearch.ErrorHidesShortTerms | src/modest-search.c:256-260 | no such term is found in a stream that ends in an error |
| EqualitySearch.OneChunkExactly | src/modest-search.c:262-266 | for one chunk, right up to case if and only if the term does not occur or is no shorter than the body |
| EqualitySearch.SameTextExactly | src/modest-search.c:262-266 | equal byte by byte up to the case of ASCII letters |
| EqualitySearch.FoundOccurs | src/modest-search.c:231-307 | whatever the comparison finds does occur, up to case, in the text covered |
| BodySearch.ReadChunk | src/modest-search.c:139-167 | fills the chunk unless the stream ends before; FALSE exactly for an error before it is full |
| BodySearch.CompareNext | src/modest-search.c:284-289 | reads behind the last chunk, terminates, and compares the window over both |
| BodySearch.MoveChunk | src/modest-search.c:300-301 | the second half and its NUL end up in the first |
| BodySearch.SearchMimePart | src/modest-search.c:231-307 | the loop finds exactly what the comparison finds in one of the windows, for any way the stream splits its reads and any comparison, without writing outside the 8193 bytes |
| Streams.Stream.Read | src/modest-search.c:143-167 | the stream assumed: pieces of any size, then the end or an error |
| AccountSearchHits.ReportsWhatQualifies | src/modest-search.c:412-506 | over all ended runs, in the fields of message and search: reported are exactly the messages of the folders searched that are not deleted, not after the end date nor before the start date if set, not below the size if set, and match an enabled subject, sender, recipient or cached body; the last found in front |
| AccountSearchHits.BodyMatchesExactly | src/modest-search.c:343-382 | the body matches exactly if the window finds it in a part reached without passing an attachment that is not a message |
| AccountSearchHits.SearchesWhatIsAskedFor | src/modest-search.c:529-569 | over all runs: of the folders visited those named by id, outboxes for "outbox", or all for no name are searched unless their headers did not come, no others |
| AccountSearchHits.MissesWhatFailed | src/modest-search.c:586-644 | the listings and header lists left out are exactly those that came back failed or cancelled; the folders of the others are collected as they came |
| AccountSearch.EveryState | src/modest-search.c:384-644 | every state of every run is listing, searching, over, or without a folder |
| AccountSearchTheorems.CallsBackOnce | src/modest-search.c:586-644 | pending_calls counts the listings; when no call is left the search has called back exactly once with all hits, if and only if it collected a folder |
| AccountSearchTheorems.EveryFolderIsVisitedOnce | src/modest-search.c:384-644 | folders are visited in the order collected, each once; all folders below the accounts if no listing failed, in any callback order |
| AccountSearchTheorems.HitsAreExact | src/modest-search.c:384-550 | in every ended run, whatever failed: how often a message is reported is how often its folder was searched times how often it holds it, if it is a hit in the sense of ReportsWhatQualifies; a wanted folder was searched each time it was collected unless its headers did not come, then fewer times |
| AccountSearchTheorems.RunsAreBounded | src/modest-search.c:384-644 | at most one callback for each account and two for each folder |
| AccountSearchTheorems.NoAccountsNoCallback | src/modest-search.c:680-716 | without accounts nothing is outstanding and nobody is called back |
| AccountSearchTheorems.NoFolderIsSearched | src/modest-search.c:633-643 | over all runs on at least one account: the search goes on to a folder that does not exist if and only if all listings are over and none brought a folder |
| AccountSearchTheorems.OneFolder | src/modest-search.c:571-584 | the search of one folder calls back once, with its hits or with none |
| MessageSearch.SearchMimePartAndChildParts | src/modest-search.c:343-382 | the recursion finds the term if and only if it is in a part outside of attachments |
| AccountSearchOperation.Searcher.constructor | src/modest-search.c:646-733 | one listing and one pending call for each account |
| AccountSearchOperation.Searcher.SearchHeader | src/modest-search.c:412-505 | one turn of the loop over headers: the chain of filters and fields adds one hit if the message is a hit, none otherwise |
| AccountSearchOperation.Searcher.SearchHeaders | src/modest-search.c:407-508 | the loop puts the folder's hits in front of the others |
| AccountSearchOperation.Searcher.GetHeadersCb | src/modest-search.c:396-527 | the whole new state after a folder: the callback after the last one, else the next folder |
| AccountSearchOperation.Searcher.SearchFirstFolder | src/modest-search.c:529-569 | a folder not asked for is passed over, else its headers are asked for |
| AccountSearchOperation.Searcher.AddFolders | src/modest-search.c:606-626 | the loop over a listing collects every folder and lists those that are stores |
| AccountSearchOperation.Searcher.GetFoldersCb | src/modest-search.c:586-644 | the whole new state after a listing came back |
| AccountKeys.KeynameIsValid | src/modest-account-mgr.c:1412-1419 | a key is refused exactly for an empty account or setting name |
| AccountKeys.ParseUndoesPrint | src/modest-account-mgr.c:1302-1427 | parsing a printed key returns the account, the namespace, and whether there was a setting |
| AccountKeys.KeysAreDistinct | src/modest-account-mgr.c:1384-1427 | different accounts, settings or namespaces never share a key |
| AccountKeys.PlainKey | src/modest-account-mgr.c:1384-1427 | for names of letters and digits the key is the root, "/accounts/" or "/server_accounts/", the account, a slash and the setting |
| AccountKeys.ParsesByDirectory | src/modest-account-mgr.c:1302-1358 | a key is an account's exactly if it is under one of the two directories, and a server account's under the second |
| AccountKeys.EscapingIsFaithful | src/modest-account-mgr.c:1396-1404 | a concrete escaping that meets what the other results ask of it |
| KeyCache.AnswerIsFirst | src/modest-account-mgr.c:1429-1462 | after any history the answer is the key of the first query that used the same slot |
| KeyCache.CacheIsRightExactly | src/modest-account-mgr.c:1429-1462 | the cached key is the uncached one if and only if the slot was not first used for another name |
| KeyCache.CacheIsRight | src/modest-account-mgr.c:1429-1462 | so it always is if no setting is called `<dummy>` |
| KeyCache.DummySettingIsWrong | src/modest-account-mgr.c:1443 | a history with a wrong answer |
| AccountKeys.CheckAlphanum | src/modest-account-mgr.c:1364-1378 | TRUE exactly for ASCII letters and digits |
| AccountKeys.GetAccountKeyname | src/modest-account-mgr.c:1384-1427 | escaping only names that need it gives the key of escaping all names |
| AccountKeys.AccountFromKey | src/modest-account-mgr.c:1301-1358 | prefix, cut at the first slash, unescape |
| KeyCache.AccountKeyCache.GetAccountKeynameCached | src/modest-account-mgr.c:1429-1462 | the answer and the new nested tables |
| AccountNames.IncrementIsRightExactly | src/modest-account-mgr-helpers.c:940-997 | the same stem with the number plus one if and only if the number is below the limit of an int |
| AccountNames.IncrementedText | src/modest-account-mgr-helpers.c:940-997 | what is printed behind the stem for any number: the next one in 32-bit arithmetic, 0 beyond the range of a long |
| AccountNames.IncrementOverflows | src/modest-account-mgr-helpers.c:982-984 | at the limit the minus sign becomes part of a longer stem |
| AccountNames.NamesDiffer | src/modest-account-mgr-helpers.c:999-1014 | no name is tried twice, overflow included |
| AccountNames.NamesKeepStem | src/modest-account-mgr-helpers.c:999-1014 | every name tried starts with the stem of the first |
| AccountsOwnership.ChoiceIsFresh | src/modest-account-mgr.c:308-327 | the three names are unused, and the two server accounts never get the same |
| AccountsOwnership.OwnershipHolds | src/modest-account-mgr.c:281-362 | over all histories: accounts are enabled and own pairwise disjoint, existing server accounts, none is orphaned, and a default is set if and only if there is an account and exists |
| AccountsOwnership.RemoveTakesOwnKeys | src/modest-account-mgr.c:641-726 | a removal deletes exactly the keys of the account and of its server accounts |
| AccountsOwnership.RemoveUndoesAdd | src/modest-account-mgr.c:641-726 | removing an account just added restores the store and the default |
| AccountsOwnership.AddedAccountIsOwned | src/modest-account-mgr.c:281-362 | an addition adds one account, owning exactly its two server accounts, the default exactly if it is the first |
| AccountsOwnership.EveryAccountIsListed | src/modest-account-mgr.c:806-843 | under ownership the filter for missing server accounts drops no account, whatever the escaped name denotes |
| AccountListing.ListDuringRemoval | src/modest-account-mgr.c:684-697 | while an account is being removed, exactly the accounts whose escaped name is its name are left out, so the list is right about an account if and only if being that account and being so called in escaped form agree |
| AccountListing.LostServerAccountGoesUnnoticed | src/modest-account-mgr.c:814-840 | an account whose name needs escaping stays listed with a server account missing |
| AccountListing.CompleteAccountIsDropped | src/modest-account-mgr.c:814-840 | a complete account is left out while the account called like its escaped name is removed |
| AccountListing.ListIsWrongBothWays | src/modest-account-mgr.c:814-840 | a history of two additions after which both happen |
| AccountsOwnership.TakenDisplayNameIsSavedAgain | src/modest-account-mgr.c:296-303 | after adding a taken display name two accounts have it |
| AccountDisplayNames.EveryAccountLoads | src/modest-account-mgr-helpers.c:672-774 | over all histories the settings of every account load |
| AccountDisplayNames.GuardTells | src/modest-account-mgr.c:1148-1186 | the code finds a display name taken if and only if an account has it |
| AccountDisplayNames.AddKeepsDifferentExactly | src/modest-account-mgr.c:294-335 | an addition keeps display names different if and only if it has none or it is not taken |
| AccountDisplayNames.NamesStayDifferentExactly | src/modest-account-mgr.c:294-335 | over all histories display names are different throughout if and only if no account was added under a name the code had found taken |
| AccountDisplayNames.SameNameTwice | src/modest-account-mgr.c:294-335 | adding any settings with a display name twice gives two accounts that show it |
| AccountSettingsRoundTrip.LoadUndoesAdd | src/modest-account-mgr-helpers.c:583-831 | loading an account just added returns the settings it was added with, in their normal form |
| AccountSettingsRoundTrip.RoundTripExactly | src/modest-account-mgr-helpers.c:597-664 | that is the settings themselves if and only if nothing is missing that is saved as an empty text and a server with a URI has nothing else; the normal form is stable |
| AccountSettingsRoundTrip.AddLeavesOthers | src/modest-account-mgr.c:281-362 | an addition leaves what every other account loads unchanged |
| AccountSettingsRoundTrip.RemoveLeavesOthers | src/modest-account-mgr.c:658-726 | a removal leaves it unchanged too, but for which account is the default |
| AccountStore.LoadsExactly | src/modest-account-mgr-helpers.c:672-774 | an account loads if and only if it has a key and the server accounts it names have a protocol and a URI, or a host and a user |
| AccountStore.BareAccountLoads | src/modest-account-mgr-helpers.c:672-774 | what an account loads as of which nothing but the enabled flag is stored |
| AccountStore.DisabledIsHidden | src/modest-account-mgr.c:766-858 | switching an account off takes it, and no other, from the list of enabled accounts |
| AccountStore.DisabledNameIsFree | src/modest-account-mgr.c:1148-1186 | the display name of an account that is switched off counts as free |
| AccountStore.LostDefault | src/modest-account-mgr.c:1619-1646 | a default that is no account's name counts as none |
| AccountStore.NewDefaultIsFirst | src/modest-account-mgr.c:684-726 | over all histories, when the default is removed the new one is an account none is before by title, if one is left; another removal leaves the default |
| AccountStore.NamedAfterDisplayName | src/modest-account-mgr.c:294-327 | a new account is called after its display name, or the default name if it has none or one that is shown, with "ID" behind, and its server accounts after it; exactly so if these names are free |
| AccountNames.UtilIncrementName | src/modest-account-mgr-helpers.c:940-997 | the name without its trailing digits, followed by their number plus one, with the int arithmetic written out |
| AccountNames.GetUnusedAccountName | src/modest-account-mgr-helpers.c:999-1014 | the loop ends within as many steps as there are accounts with the first name tried that is unused |
| AccountManager.AccountMgr.SaveServerSettings | src/modest-account-mgr-helpers.c:583-669 | writes exactly the keys of the server account, by URI or by host |
| AccountManager.AccountMgr.SaveAccountSettings | src/modest-account-mgr-helpers.c:776-831 | writes exactly the keys of the account and its two server accounts |
| AccountManager.AccountMgr.LoadServerSettings | src/modest-account-mgr-helpers.c:466-581 | the settings stored, or nothing without a protocol, or without a URI and a host and user |
| AccountManager.AccountMgr.LoadAccountSettings | src/modest-account-mgr-helpers.c:672-774 | the settings stored for the account and the server accounts it names, or nothing if one of them does not load |
| AccountManager.AccountMgr.AccountNames | src/modest-account-mgr.c:766-858 | lists each account once, unless disabled or, by the lookup under the escaped name, missing a server account |
| AccountManager.AccountMgr.AccountWithDisplayNameExists | src/modest-account-mgr.c:1148-1186 | TRUE exactly if an enabled, loadable account shows the name |
| AccountManager.AccountMgr.GetFirstAccountName | src/modest-account-mgr-helpers.c:835-874 | an enabled account none is before by title, or none if there is none |
| AccountManager.AccountMgr.GetDefaultAccount | src/modest-account-mgr.c:1619-1646 | the default only if it exists |
| AccountManager.AccountMgr.SetDefaultAccount | src/modest-account-mgr.c:1597-1617 | refuses accounts that do not exist |
| AccountManager.AccountMgr.SetFirstAccountAsDefault | src/modest-account-mgr-helpers.c:876-891 | the first account becomes the default; without accounts the default stays |
| AccountManager.AccountMgr.AddAccountFromSettings | src/modest-account-mgr.c:280-359 | chooses three unused names, saves under them, and sets the default if there was none |
| AccountManager.AccountMgr.RemoveAccount | src/modest-account-mgr.c:658-726 | removes the account's own keys and chooses a new default if it was the default; refuses accounts that do not exist |
| ConnectionSmtp.RemoveIsRightExactly | src/modest-account-mgr-helpers.c:189-196 | removing takes exactly that connection from the map if and only if the first node of its text is a connection's, or there is none, or the exceptional repetition that the condition spells out |
| ConnectionSmtp.SetIsRightExactly | src/modest-account-mgr-helpers.c:116-157 | setting sets that connection and leaves the others under exactly the same condition |
| ConnectionSmtp.ListRefinesMap | src/modest-account-mgr-helpers.c:116-285 | with no server account called like a connection, any sequence of sets and removals keeps the list well formed and does to it what it does to a map |
| ConnectionSmtp.AccountTakenForConnection | src/modest-account-mgr-helpers.c:189-196 | a list for which removing a connection gives another one the wrong account |
| ConnectionSmtp.SmtpList.Remove | src/modest-account-mgr-helpers.c:168-214 | the first node of that text and the next one go; FALSE exactly for an empty list |
| ConnectionSmtp.SmtpList.Set | src/modest-account-mgr-helpers.c:116-157 | removal, then the pair at the end |
| ConnectionSmtp.SmtpList.Get | src/modest-account-mgr-helpers.c:239-285 | the loop in steps of two looks the connection up in the map the list stands for |
| TextExtraction.LineBounds | src/modest-formatter.c:121-134 | the line count bounds newlines from above and bytes by the line width, for any byte seen by the lookahead |
| TextExtraction.ExtractedBounds | src/modest-formatter.c:42-44 | fewer than 1024 newlines and 79872 bytes are written, so the length limit never stops the loop |
| TextExtraction.WholeExactly | src/modest-formatter.c:97-152 | the whole text is written if and only if it counts fewer than 1024 lines, whatever the lookahead would see behind the stop |
| LongLines.CountsNewlinesAndWraps | src/modest-formatter.c:121-134 | where no newline is seen behind a newline, the count is the number of newlines plus length / 78 for every piece between them |
| LongLines.BlankLineCounts | src/modest-formatter.c:121-134 | of two newlines the first counts only if no line was wrapped before, the second always, and then the count starts anew |
| LongLines.BlankLinesSplit | src/modest-formatter.c:121-134 | so a text falls into parts at its blank lines, each counted on its own |
| LongLines.WholeIffFewWraps | src/modest-formatter.c:97-152 | such a text is written whole if and only if its newlines and wraps are fewer than 1024 |
| LongLines.CutCounts | src/modest-formatter.c:135-136 | otherwise the copy stops right before the byte that makes them 1024 |
| LongLines.WholeWithBlankLine | src/modest-formatter.c:97-152 | with a blank line behind a wrapped line: whole if and only if newlines and wraps less one are fewer than 1024 |
| TextExtraction.WholeIffFewLines | src/modest-formatter.c:121-136 | without lines of 78 bytes or more: if and only if it has fewer than 1024 newlines, for any lookahead; otherwise the copy ends at the 1024th, which is dropped |
| TextExtraction.LastNewlineIsLost | src/modest-formatter.c:135-136 | 1024 newlines or more come out as 1023 |
| TextExtraction.ScanByte | src/modest-formatter.c:121-134 | one turn of the line count |
| TextExtraction.ScanChunk | src/modest-formatter.c:118-138 | the inner loop stops at the first byte that reaches the line limit |
| TextExtraction.ExtractText | src/modest-formatter.c:97-152 | writes a prefix of the body that stops exactly at the line limit, or all of it if no read fails |

## Left out

- The environment: Tinymail, Camel, GConf, GLib and GTK appear as calls that come back in any order with any outcome the models allow, or as functions given as parameters. Threads, locks, signal marshalling, reference counts of helpers and finalizers are not modelled; re-entering the main loop while a search compares strings is not either.
- Sending paths, removing folders to trash, fetching a message part by part, progress byte reporting, the OGS search, dimming, clipboard, presets, plugins and other user interface code.
- The update of folder counts is modelled as a configuration of the account update; its own entry point is not.
- AccountUpdate.Step: the configuration is read once and for all; a listing that fails delivers a prefix of its folders; a fetched message has the size its header says; progress of a refresh is reported only while that refresh runs; sums of sizes and the size limit in bytes do not wrap around.
- HeaderSelection.Sort: that the library sorts an array by merging is an assumption, on which the order of headers of one date depends.
- AccountUpdateOperation.UpdateAccount.SendMail: that sending was tried is counted, what it does is not modelled.
- MessageFetch.GetMsgs.GetMsgAsyncCb: the operation type, the progress signals and the branch for single parts are not modelled; a user callback is always given.
- MessageTransfer.XferMsgs.TransferMsgsCb: a call that fails has transferred some first part of its messages; progress and folder-updated signals are not modelled.
- OperationQueue.MailOperationQueue.Remove: the error handler run for an unsuccessful operation, the reset of the device after a final synchronization and cancelling everything at shutdown are not modelled; ids of main loop sources do not wrap around.
- AccountKeys.GetAccountKeyname: GConf's escaping is any pair of functions with three properties, all that is used of it, and validity of a key is its slash structure; a concrete pair shows the properties can be met.
- AccountNames.UtilIncrementName: names are ASCII and not empty, a long has 64 bits, and incrementing the largest int, undefined in C, wraps around.
- Accounts.Store: keys are triples of namespace, account and setting, which AccountKeys.KeysAreDistinct justifies; writes succeed; settings other than those saved with an account are not modelled, and protocols stand for their names.
- AccountManager.AccountMgr.GetFirstAccountName: sorting is a library call of whose result only the first element is used; the loop that finds it stands for the sort, and titles are compared by any total preorder.
- ConnectionSmtp.SmtpList.Set: reading and writing the list succeed.
- EqualitySearch.SameText: collation after lower-casing is equality of ASCII letters up to case.
- AccountSearch.Step: what the search of a missing folder does is undefined.
- TextExtraction.ExtractText: writes are complete; the conversion of HTML to text and the search for the part to extract are not modelled.
- Adding accounts by other ways than from settings, enabling and disabling them, and the flags that remember whether there are accounts.
