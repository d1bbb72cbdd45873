# django-powerpages in Dafny

This project models the core of django-powerpages, a Django application that stores website pages in a database table and keeps them in step with a directory of `.page` text files. Each file holds a JSON metadata block, the line `## TEMPLATE SOURCE: ##` and the page's template.

The centre of the model is the synchroniser in `powerpages/sync.py`. It has these parts:

- the URL ⇄ file-path codec;
- the field normalisers;
- the `.page` text codec (a JSON writer and reader for the metadata, with `ensure_ascii` escapes; the processor config is kept as a string);
- the status classifier;
- the two batch operations.
  - The website dump writes pages to files, asks for confirmation, counts a status per item, deletes unused files and offers to stage changes in git.
  - The website load reads files into pages, refuses pages changed in the admin unless forced, and deletes unused pages.

The sync directory and the page table are values (`SyncStore.Store`: files as a map from relative path to text, directories as a set, pages as a map from URL to record). The class `SyncStore.Website` holds them and is updated in place by the operations' methods. Console input is a sequence of answer lines held by `SyncBase.Prompter`.

Beside the synchroniser the project models several smaller cores:

- the URL hierarchy of the `Page` model (parent URL, children, descendants, ordering);
- the two field checks of the admin form;
- the admin's link and status columns and `save_page`;
- the page view's path canonicalisation and redirect, and the edit-mode switch;
- the configuration variables of the class registry;
- the keyed class registry;
- the lazily cached application settings;
- the source-code editor widget's class attribute.

Modules:

- `Outcomes`: Option and Result.
- `Strings`: the Python string operations that are used: split, join, strip, find, startswith, endswith, sorting.
- `SyncPaths`, `SyncFields`, `SyncCodec`, `SyncStatus`, `PageTree`, `SyncBase`, `SyncStore`, `SyncPages`, `SyncDump`, `SyncLoad`: the synchroniser.
- `PageForms`, `Admin`, `Views`, `Widgets`, `RegistryConfig`, `ClassRegistry`, `AppSettings`: the smaller cores.

## Model

| member | source | states |
|---|---|---|
| SyncPaths.UrlToPath | powerpages/sync.py:33-45 | fails (the `pop` of an empty list) exactly when the URL is not `/` and has no non-empty segment; otherwise gives a non-empty relative path |
| SyncPaths.PathOfUrlPieces | powerpages/sync.py:36-45 | the path built from the URL's segments fails exactly for no segments and is relative when the first segment is |
| SyncPaths.LeafFileName | powerpages/sync.py:41-44 | the last segment gets `.page` appended exactly when it has no dot, and is kept as it is otherwise |
| SyncPaths.PageStem | powerpages/sync.py:54-57 | `splitext` removes `.page` unless only dots precede it |
| SyncPaths.PathToUrl | powerpages/sync.py:48-60 | fails exactly when the path has no non-empty component; otherwise gives a URL starting with `/` |
| SyncPaths.UrlOfPathPieces | powerpages/sync.py:50-60 | the URL built from the components fails exactly for no components and starts with `/` |
| SyncPaths.LeafUrlPieces | powerpages/sync.py:52-59 | the index file contributes only the trailing slash |
| SyncPaths.RootRoundTrip | powerpages/sync.py:33-60 | `/` maps to `_index_.page` and back |
| SyncPaths.BranchRoundTrip | powerpages/sync.py:33-60 | a URL with children maps to `segments/_index_.page`, which maps back to the slash-terminated URL of those segments |
| SyncPaths.LeafPath | powerpages/sync.py:41-45 | a leaf page's dot-free last segment becomes `segment.page` |
| SyncPaths.LeafUrl | powerpages/sync.py:48-60 | `dirs/stem.page` maps to `/dirs/stem/` |
| SyncPaths.LeafRoundTrip | powerpages/sync.py:33-60 | `path_to_url(url_to_path(u, False)) == u` for a slash-terminated URL with a dot-free last segment other than `_index_` |
| SyncPaths.DocumentPath | powerpages/sync.py:41-45 | a dotted last segment is stored under its literal name |
| SyncPaths.DocumentRoundTrip | powerpages/sync.py:33-60 | `/dir/name.ext` maps to `dir/name.ext` and back |
| SyncPaths.IndexSegmentCollides | powerpages/sync.py:33-45 | `/_index_/` and `/` share the file `_index_.page` |
| SyncPaths.PageSuffixedDocumentCollides | powerpages/sync.py:33-60 | `/stem.page` is written to `stem.page`, which reads back as `/stem/` |
| SyncPaths.TrimSlashes | powerpages/sync.py:442-444 | `rstrip('/')` keeps a prefix and removes only slashes |
| SyncPaths.Dirname | powerpages/sync.py:443 | the directory name of a non-empty relative path is a shorter relative prefix of it |
| SyncPaths.BaseName | powerpages/sync.py:457-461 | a walked file name holds no slash |
| SyncPaths.Lineage | powerpages/sync.py:440-444 | the path and the directories above it, all prefixes of it, never the sync directory itself |
| SyncFields.NormalizeText | powerpages/sync.py:73-75 | the result is stripped of Python 2.7's Unicode whitespace (U+180E included) and has no carriage return; None gives the empty string; no new characters appear |
| SyncFields.NormalizeLine | powerpages/sync.py:78-80 | like `normalize_text`, and with no newline |
| SyncFields.NormalizeTemplate | powerpages/sync.py:83-88 | empty text stays empty; other text gets exactly one newline appended |
| SyncFields.Normalize | powerpages/sync.py:91-101 | the result is normal; `alias` and `page_processor_config` pass through unchanged |
| SyncFields.NormalTextFixed | powerpages/sync.py:73-75 | normal text is a fixed point of `normalize_text` |
| SyncFields.NormalTemplateFixed | powerpages/sync.py:83-88 | a normal template is a fixed point of `normalize_template` |
| SyncFields.NormalFieldsFixed | powerpages/sync.py:91-101 | normalised fields are a fixed point of `normalize_page_fields` |
| SyncFields.NormalizeIdempotent | powerpages/sync.py:91-101 | `normalize_page_fields` is idempotent |
| SyncFields.TitleKeepsNewline | powerpages/sync.py:97-98 | the title goes through `normalize_text`, so an inner newline survives, unlike under `normalize_line` |
| SyncFields.AliasNoneAndEmptyDiffer | powerpages/sync.py:93-94 | an alias of None and of `''` give different normalised fields |
| SyncCodec.HexValueOfDigit | powerpages/sync.py:160-166 | reading a written hexadecimal digit gives the digit back |
| SyncCodec.ParseHex4Inverse | powerpages/sync.py:160-166 | reading four written hexadecimal digits gives the 16-bit value back |
| SyncCodec.EscapeChar | powerpages/sync.py:160-166 | the JSON escape of a character is printable ASCII and never starts with a quote |
| SyncCodec.EncodeString | powerpages/sync.py:160-166 | an encoded string literal is printable ASCII |
| SyncCodec.DecodeEscapeChar | powerpages/sync.py:235 | decoding the escape of any character gives that character back |
| SyncCodec.DecodeSurrogatePair | powerpages/sync.py:235 | a surrogate-pair escape decodes to the character above U+FFFF it encodes |
| SyncCodec.DecodeEncodeString | powerpages/sync.py:160-166 | a JSON string literal decodes to the string that was encoded, leaving the text after it |
| SyncCodec.DecodeEncodeValue | powerpages/sync.py:160-166 | `null` or a string literal decodes to the value encoded |
| SyncCodec.DecodeEncodeEntries | powerpages/sync.py:160-166 | the metadata entries, written one per line in key order, decode to their values |
| SyncCodec.DecodeEncodeMeta | powerpages/sync.py:160-166 | decoding the metadata gives back every field but the template |
| SyncCodec.MetaGuarded | powerpages/sync.py:160-166 | the metadata block never contains a newline followed by `#`, so it cannot hold the delimiter line |
| SyncCodec.FirstDelimiter | powerpages/sync.py:233-234 | the first delimiter line of `metadata + delimiter + template` is the one after the metadata |
| SyncCodec.Load | powerpages/sync.py:229-236 | text without the delimiter line is refused; a loaded record always has a template |
| SyncCodec.LoadSplit | powerpages/sync.py:229-236 | load splits at the first delimiter only and decodes the part before it |
| SyncCodec.LoadDump | powerpages/sync.py:229-236 | `load(dump(F))` gives F back exactly, whatever the template holds, the delimiter line included |
| SyncCodec.LoadDumpNormal | powerpages/sync.py:91-101 | `normalize(load(dump(F))) == F` for normalised F |
| SyncStatus.Description | powerpages/sync.py:113-120 | the six codes have non-empty descriptions, and any other code is a KeyError |
| SyncStatus.Describe | powerpages/sync.py:122-125 | the description exists exactly when every code is known; the empty status is described by the empty string |
| SyncStatus.DescribeSkipped | powerpages/sync.py:122-125 | a skipped status reads as its base word followed by `(skipped)` |
| SyncStatus.DescribeForced | powerpages/sync.py:122-125 | a forced status reads as its base word followed by `(forced)` |
| SyncStatus.Classify | powerpages/sync.py:179-192 | ADDED exactly when the counterpart is missing, NO_CHANGES exactly when it is equal, MODIFIED exactly when it differs |
| SyncStatus.Mark | powerpages/sync.py:576-579 | a declined item gets `s` appended, a forced one `!`, and any other is left bare |
| SyncStatus.MarkDescribed | powerpages/sync.py:122-125 | every status that the operations produce can be described |
| PageTree.DropTrailingSlash | powerpages/models.py:125-126 | removes at most one trailing slash |
| PageTree.BeforeLastSlash | powerpages/models.py:127 | `rsplit('/', 1)[0]` is everything before the last slash |
| PageTree.ParentUrl | powerpages/models.py:123-129 | the parent URL is `''` or ends with a slash |
| PageTree.RootHasNoParent | powerpages/models.py:123-129 | `/` has parent URL `''` |
| PageTree.ParentOfDirectory | powerpages/models.py:123-129 | `p + seg + '/'` has parent `p`, as `/a/b/` has `/a/` |
| PageTree.ParentOfDocument | powerpages/models.py:123-129 | `p + seg` has parent `p` |
| PageTree.Children | powerpages/models.py:141-144 | exactly the stored URLs that are the URL plus one non-empty slash-free segment and an optional slash |
| PageTree.Descendants | powerpages/models.py:146-149 | exactly the stored URLs with the URL as a strict prefix, never the URL itself |
| PageTree.Parent | powerpages/models.py:131-139 | a page exists exactly when the parent URL is non-empty and stored, and it is the page at exactly that URL |
| PageTree.OrderedByUrl | powerpages/models.py:66 | query results are strictly sorted by URL and hold exactly the matching URLs |
| PageTree.ChildParent | powerpages/models.py:123-144 | every child of a slash-terminated URL has that URL as its parent URL |
| PageTree.ChildIsDescendant | powerpages/models.py:141-149 | every child is a descendant |
| PageTree.NotOwnChild | powerpages/models.py:141-144 | a page is never its own child |
| PageTree.GrandchildNotChild | powerpages/models.py:141-144 | a grandchild under a slash-terminated child is not a child |
| SyncBase.Prompt | powerpages/sync.py:395-401 | lines other than Y, y, N and n are skipped; running out of input is an error exactly when no line is decisive; the input is consumed up to the answer |
| SyncBase.Confirm | powerpages/sync.py:363-404 | always yes without consuming input when not interactive; otherwise the prompt loop |
| SyncBase.AskConfirmation | powerpages/sync.py:395-401 | the line-by-line loop gives the prompt's answer |
| SyncBase.PromptStopsAtFirstDecisive | powerpages/sync.py:395-401 | the answer is the first Y/y/N/n line, and the input after it is left |
| SyncBase.Prompter.Ask | powerpages/sync.py:363-404 | answers as `confirm` does, consumes the lines read, and consumes nothing on an error |
| SyncStore.WalkedFiles | powerpages/sync.py:532-545 | exactly the files below the start directory whose names do not start with a dot; nothing when the start is not a directory |
| SyncStore.FileFields | powerpages/sync.py:238-246 | reading succeeds exactly for an existing file whose text loads, and the result is normalised; a file that does not load is `Bad .page file` |
| SyncStore.WriteFile | powerpages/sync.py:198-204 | the write fails exactly when the path is a directory or a file lies where a directory is needed; otherwise only that file changes and the missing directories appear |
| SyncStore.RemovePath | powerpages/sync.py:475-478 | removing a non-empty directory or a missing file fails; otherwise only that entry goes |
| SyncStore.ClearDirty | powerpages/sync.py:197 | clears the dirty flag of that URL's page and changes nothing else |
| SyncStore.Website.Write | powerpages/sync.py:198-204 | the website afterwards is the write's result, or unchanged on an error |
| SyncStore.Website.Remove | powerpages/sync.py:475-478 | the website afterwards is the removal's result, or unchanged on an error |
| SyncStore.Website.ClearDirtyFlag | powerpages/sync.py:197 | only the dirty flag of that URL's page changes |
| SyncStore.Website.PutPage | powerpages/sync.py:284 | the page is stored under its URL and nothing else changes |
| SyncStore.Website.DeletePage | powerpages/sync.py:614 | the page is removed and nothing else changes |
| SyncPages.DumperPath | powerpages/sync.py:134-136 | the file path of the page as `url_to_path` gives it, with children looked up in the page table; the IndexError otherwise |
| SyncPages.PageFields | powerpages/sync.py:142-154 | the page's fields, normalised; normal fields come back unchanged |
| SyncPages.FileContents | powerpages/sync.py:171-173 | the file text loads, and normalises to the page's fields |
| SyncPages.DumperStatus | powerpages/sync.py:179-192 | ADDED exactly when nothing exists at the path; otherwise the classification of the file's fields, or the read error |
| SyncPages.NotOwnParent | powerpages/sync.py:198-202 | a file path is never one of the directories made above it |
| SyncPages.DumperSave | powerpages/sync.py:194-204 | the dirty flag is cleared first; the file holds the page's contents unless the write fails, and then no file changes |
| SyncPages.SaveDumped | powerpages/sync.py:194-204 | the website afterwards is the dumper save's result |
| SyncPages.DumperPathStable | powerpages/sync.py:134-136 | the path depends only on the URLs in the table |
| SyncPages.DumperStatusAfterSave | powerpages/sync.py:179-204 | right after a successful dumper save the status is NO_CHANGES |
| SyncPages.LoaderUrl | powerpages/sync.py:225-227 | the page URL of a file as `path_to_url` gives it, starting with `/`; the IndexError otherwise |
| SyncPages.LoaderStatus | powerpages/sync.py:258-272 | ADDED exactly when no page has the URL; otherwise the classification of the page against the file, or the read error |
| SyncPages.LoaderSave | powerpages/sync.py:274-284 | succeeds exactly when the file reads; the page is then created or overwritten with the file's fields and a clear dirty flag |
| SyncPages.SaveLoaded | powerpages/sync.py:274-284 | the website afterwards is the loader save's result, or unchanged on an error |
| SyncPages.LoaderStatusAfterSave | powerpages/sync.py:258-284 | right after a successful loader save the status is NO_CHANGES and the page is clean |
| SyncPages.StatusesAgree | powerpages/sync.py:258-272 | both sides agree on NO_CHANGES for a page and its file |
| SyncDump.DumpItems | powerpages/sync.py:417-418 | the root page, then only stored descendants of it |
| SyncDump.DumpDecision | powerpages/sync.py:423-434 | NO_CHANGES is applied without asking; anything else is confirmed |
| SyncDump.DumpRecord | powerpages/sync.py:437-445 | saves unless declined or dry; on success, adds the path's lineage to the valid set and counts the status once |
| SyncDump.DumpApply | powerpages/sync.py:423-445 | asks unless NO_CHANGES; on success the lineage is valid and one dump status is counted |
| SyncDump.DumpPage | powerpages/sync.py:420-445 | one page's dump removes nothing; on success the lineage of its path is valid and one dump status is counted |
| SyncDump.DumpPageFrame | powerpages/sync.py:420-445 | one page's dump changes no page's fields and changes nothing on a dry run |
| SyncDump.DumpPagesFrame | powerpages/sync.py:414-446 | the dump loop keeps every page and its fields, removes no file or directory, and changes nothing on a dry run |
| SyncDump.DumpPagesCount | powerpages/sync.py:414-446 | a loop that ends without error counted every page exactly once, under A, M, `.`, As or Ms |
| SyncDump.DumpPagesValid | powerpages/sync.py:440-444 | a loop that ends without error made valid every directory above every page's file |
| SyncDump.Walked | powerpages/sync.py:455-463 | the walk reports only directories and non-dot files below the start |
| SyncDump.UnlistedMembers | powerpages/sync.py:455-463 | the unlisted entries are exactly those outside the valid set |
| SyncDump.ReversedSortedBottomUp | powerpages/sync.py:455 | a strictly sorted list read backwards never puts a directory before an entry inside it |
| SyncDump.WalkOrder | powerpages/sync.py:455 | the walk visits exactly the walked entries, every directory after everything inside it (`os.walk(start, False)`) |
| SyncDump.UnlistedBottomUp | powerpages/sync.py:455-463 | leaving the valid entries out keeps contents before their directory |
| SyncDump.DeleteList | powerpages/sync.py:455-463 | the delete list is exactly the walked entries that no page made valid, every directory after everything inside it |
| SyncDump.DeleteEntry | powerpages/sync.py:464-479 | a deletion removes at most that entry, touches no page and changes nothing on a dry run; one delete status is counted |
| SyncDump.DeleteEntriesFrame | powerpages/sync.py:464-479 | the deletion loop touches no page and changes nothing on a dry run |
| SyncDump.DeleteEntriesRemovesListed | powerpages/sync.py:464-479 | the deletion loop removes only listed entries |
| SyncDump.DeleteEntriesCount | powerpages/sync.py:464-479 | a deletion loop that ends without error counted every entry once, under D or Ds |
| SyncDump.DeleteStart | powerpages/sync.py:450-453 | the start directory is known exactly when the root URL has a file path |
| SyncDump.AddToVcs | powerpages/sync.py:481-498 | asks only with `--git-add`, outside a dry run, and after an exact A or D count; never stages otherwise |
| SyncDump.Finish | powerpages/sync.py:507-509 | the store after a dump loop without error is the one unused-file deletion leaves |
| SyncDump.DumpRun | powerpages/sync.py:500-504 | a root URL without a page is an error before any change |
| SyncDump.DumpResult | powerpages/sync.py:500-509 | the store a dump leaves: the loop's, then the cleanup's when the loop succeeded |
| SyncDump.DeleteUnusedFilesFrame | powerpages/sync.py:448-479 | cleaning up touches no page and changes nothing on a dry run |
| SyncDump.DumpDryRun | powerpages/sync.py:438-478 | `--dry-run` leaves the page table and the sync directory as they were |
| SyncDump.DumpKeepsPageFields | powerpages/sync.py:411-509 | a dump deletes no page and changes no page's fields |
| SyncDump.DirnameInLineage | powerpages/sync.py:440-444 | the directory holding a file is among its valid ancestors |
| SyncDump.DeleteUnusedFilesRemoves | powerpages/sync.py:448-479 | cleanup removes nothing unless the root has children, and then only non-dot walked entries strictly below the root's directory |
| SyncDump.HasChildrenStable | powerpages/sync.py:450 | whether a page has children depends only on the URLs stored |
| SyncDump.DumpRecordsRootDir | powerpages/sync.py:440-444 | a successful dump loop makes valid the directory holding the root's index file |
| SyncDump.DeleteUnusedFilesKeepsValid | powerpages/sync.py:455-479 | cleanup removes no file and no directory of the valid set |
| SyncDump.DumpKeepsDumpedPaths | powerpages/sync.py:437-463 | after a dump loop without error, every path above each dumped page's file is valid and the cleanup removes none of them |
| SyncDump.DumpDeletesOnlyInSubtree | powerpages/sync.py:448-479 | a dump deletes nothing unless the root has children, and then only entries strictly below the root's directory, never a dot file |
| SyncDump.AddLineage | powerpages/sync.py:440-444 | the while loop adds exactly the path's lineage to the valid set |
| SyncDump.CollectUnlisted | powerpages/sync.py:455-463 | the loop collects exactly the unlisted entries, in order |
| SyncDump.DumpOperation.constructor | powerpages/sync.py:302-315 | an empty root URL means `/`; the summary starts empty |
| SyncDump.DumpOperation.RecordDump | powerpages/sync.py:437-445 | the state afterwards is the recorded dump's |
| SyncDump.DumpOperation.ApplyDump | powerpages/sync.py:423-445 | the state afterwards is the applied dump's |
| SyncDump.DumpOperation.DumpOne | powerpages/sync.py:420-445 | the state afterwards is one page's dump |
| SyncDump.DumpOperation.DumpExistingPages | powerpages/sync.py:414-446 | the loop ends in the dump loop's state and error |
| SyncDump.DumpOperation.DeleteOne | powerpages/sync.py:464-479 | the state afterwards is one deletion's |
| SyncDump.DumpOperation.DeleteUnused | powerpages/sync.py:448-479 | the state afterwards is the cleanup's |
| SyncDump.DumpOperation.AddChangesToVcs | powerpages/sync.py:481-498 | stages exactly when `add_to_vcs` decides to; the stores and the summary stay |
| SyncDump.DumpOperation.Run | powerpages/sync.py:500-509 | the stores, input, summary and staging afterwards are those of the whole dump |
| SyncLoad.PageLoaders | powerpages/sync.py:515-545 | a root other than `/` with an existing leaf file loads that file alone; otherwise the root's index file must exist and every non-dot file below its directory is loaded; a missing root is an error |
| SyncLoad.LoadDecision | powerpages/sync.py:554-575 | NO_CHANGES is applied without asking; a page changed in the admin is refused without asking unless forced; anything else is confirmed |
| SyncLoad.LoadRecord | powerpages/sync.py:581-587 | saves unless declined or dry; on success the URL is valid when a page has it, and the status is counted once; an error changes nothing |
| SyncLoad.RecordSave | powerpages/sync.py:581-582 | a declined or dry change leaves the store as it is; an applied one is the loader's save, which touches no page but the file's URL and no file or directory |
| SyncLoad.LoadApply | powerpages/sync.py:553-587 | a dirty page without force is left alone and counted with `s`; only the file's URL can change; one load status is counted |
| SyncLoad.LoadFile | powerpages/sync.py:552-587 | a file without a URL is the IndexError; otherwise only its URL's page can change, no file changes, and nothing changes on a dry run |
| SyncLoad.UnusedPages | powerpages/sync.py:592-596 | exactly the stored pages under the root URL that no file matched |
| SyncLoad.DeletePageEntry | powerpages/sync.py:598-615 | deletes at most that page; a dirty page without force is kept without asking; nothing changes on a dry run; one delete status is counted |
| SyncLoad.LoadRun | powerpages/sync.py:617-627 | a root with neither a leaf nor an index file is an error before any change |
| SyncLoad.LoadFileKeepsDirty | powerpages/sync.py:567-571 | without force, loading a file keeps the fields of a page changed in the admin |
| SyncLoad.LoadFilesFrame | powerpages/sync.py:548-588 | the load loop changes no file, removes no page, only grows the valid set, and changes nothing on a dry run |
| SyncLoad.LoadFilesOthers | powerpages/sync.py:548-588 | the load loop leaves alone every page that no file maps to |
| SyncLoad.LoadFilesKeepsDirty | powerpages/sync.py:567-571 | without force, a load loop over files with distinct URLs keeps the fields of every page changed in the admin |
| SyncLoad.LoadFilesValid | powerpages/sync.py:583-586 | a loop that ends without error made valid every page that one of its files maps to |
| SyncLoad.LoadFilesCount | powerpages/sync.py:548-588 | a loop that ends without error counted every file once, under A, M, `.`, As, Ms or M! |
| SyncLoad.DeletePagesFrame | powerpages/sync.py:598-615 | the deletion loop changes no file and no kept page, and changes nothing on a dry run |
| SyncLoad.DeletePagesRemovesOnly | powerpages/sync.py:598-615 | the deletion loop removes only listed pages, and without force never one flagged as changed in the admin |
| SyncLoad.DeletePagesCount | powerpages/sync.py:598-615 | a deletion loop that ends without error counted every page once, under D, Ds or D! |
| SyncLoad.LoadKeepsFiles | powerpages/sync.py:512-627 | a load never touches the sync directory |
| SyncLoad.LoadDryRun | powerpages/sync.py:581-614 | `--dry-run` leaves the page table as it was |
| SyncLoad.LoadDeletesOnlyUnderRoot | powerpages/sync.py:590-596 | a load deletes only pages whose URL starts with the root URL and that no loaded file maps to |
| SyncLoad.DeleteUnusedPagesKeeps | powerpages/sync.py:592-607 | without force, cleanup keeps a page that is dirty or matched a file |
| SyncLoad.LoadKeepsDirtyPages | powerpages/sync.py:567-607 | without force, a load keeps every page changed in the admin, with its fields |
| SyncLoad.LoadOperation.constructor | powerpages/sync.py:302-315 | an empty root URL means `/`; the summary starts empty |
| SyncLoad.LoadOperation.RecordLoad | powerpages/sync.py:581-587 | the state afterwards is the recorded load's |
| SyncLoad.LoadOperation.ApplyLoad | powerpages/sync.py:553-587 | the state afterwards is the applied load's |
| SyncLoad.LoadOperation.LoadOne | powerpages/sync.py:552-587 | the state afterwards is one file's load |
| SyncLoad.LoadOperation.LoadExistingFiles | powerpages/sync.py:548-588 | the loop ends in the load loop's state and error |
| SyncLoad.LoadOperation.DeleteOnePage | powerpages/sync.py:598-615 | the state afterwards is one page deletion's |
| SyncLoad.LoadOperation.RemoveUnusedPages | powerpages/sync.py:590-615 | the state afterwards is the cleanup's |
| SyncLoad.LoadOperation.DeleteListed | powerpages/sync.py:597-615 | deleting the queried URLs one after another, stopping at the first error, leaves the state and the error of the cleanup over that list |
| SyncLoad.LoadOperation.Run | powerpages/sync.py:617-627 | the stores, input and summary afterwards are those of the whole load |
| PageForms.Holders | powerpages/forms.py:37-41 | the pages holding the alias, without the edited page when its primary key is set |
| PageForms.CleanAlias | powerpages/forms.py:28-49 | a blank alias becomes None; a free alias is returned unchanged; an alias held by exactly one other page is refused |
| PageForms.OwnAliasAccepted | powerpages/forms.py:36-49 | a page saved again with its own alias is accepted |
| PageForms.AliasOfAnotherPageRefused | powerpages/forms.py:37-48 | an alias held by another page is refused, for an existing and for a new page |
| PageForms.CleanConfig | powerpages/forms.py:51-64 | blank text becomes None; a parsed mapping is returned; a ValueError or a non-mapping is `Invalid YAML config.` |
| PageForms.ConfigPaddingIgnored | powerpages/forms.py:53-55 | surrounding whitespace does not reach the parser |
| Admin.LinkHtml | powerpages/admin.py:29-32 | the href is the raw URL, and the text is the styled URL followed by ` &raquo;` |
| Admin.WebsiteLink | powerpages/admin.py:12-33 | the link column of a page is the anchor over its raw URL with the styled URL as text; no page gives None |
| Admin.BoldLastSegment | powerpages/admin.py:21-27 | the loop over the last and second-to-last segments bolds exactly the first non-empty one of them and leaves every other segment as it was |
| Admin.LastSegmentInBold | powerpages/admin.py:21-28 | a non-empty last segment, and nothing else, is bold |
| Admin.DirectorySegmentInBold | powerpages/admin.py:21-28 | a slash-terminated URL has its second-to-last segment in bold |
| Admin.RootUrlUnstyled | powerpages/admin.py:21-28 | a URL whose last two segments are empty is shown as it is |
| Admin.SlashlessUrlUnstyled | powerpages/admin.py:18-19 | a URL that splits into one part is shown as it is |
| Admin.SyncStatusHtml | powerpages/admin.py:36-65 | the status parts, collected in order, make the status cell |
| Admin.StatusHtmlShape | powerpages/admin.py:41-65 | the `Changed in Admin!` part and `<br>` come first exactly when the page is dirty |
| Admin.SyncStatusOf | powerpages/admin.py:36-65 | no page gives None; otherwise the cell for the dumper's status, or the dumper's error |
| Admin.MissingFileShownRed | powerpages/admin.py:58-60 | a page whose file is missing is shown in red as `File is missing` |
| Admin.SyncedAfterDump | powerpages/admin.py:52-54 | right after a dump of the page the cell is the green `File is synced`, without the dirty marker |
| Admin.AdminSaved | powerpages/admin.py:68-75 | the saved row holds the page under its URL with the dirty flag set; a URL it held before the edit is gone; every other page is unchanged |
| Admin.SavePage | powerpages/admin.py:68-75 | the page table becomes `AdminSaved` of the old table: the edited row is stored with its dirty flag set, nothing else changes |
| Admin.AdminEditSurvivesLoad | powerpages/admin.py:68-75 | a page saved in the admin keeps its content through a load without force |
| Views.Rooted | powerpages/views.py:19-20 | the path starts with `/` and ends with the request path |
| Views.RootedIdempotent | powerpages/views.py:19-20 | prepending the slash twice changes nothing |
| Views.PageViewAnswers | powerpages/views.py:16-31 | a redirect to path + `/` exactly when the slash is missing and the last segment has no dot; a page exactly when its URL is stored; otherwise 404 |
| Views.SlashEndedNeedsNone | powerpages/views.py:23 | a slash-terminated path is never redirected |
| Views.RedirectSettles | powerpages/views.py:23-24 | following the redirect does not redirect again |
| Views.FileNamesServedAsIs | powerpages/views.py:23-29 | a dotted last segment is looked up without a redirect |
| Views.Toggled | powerpages/views.py:37-41 | the key is removed when present and set to True when absent; every other entry stays |
| Views.SwitchTarget | powerpages/views.py:42-45 | the referrer, unless it is missing, empty or the current path, in which case `/` |
| Views.ToggledTwice | powerpages/views.py:37-41 | switching twice restores the session |
| Views.SwitchEditMode | powerpages/views.py:35-45 | the session is toggled in place and the redirect target is chosen |
| Widgets.Classes | powerpages/widgets.py:19-21 | class tokens are non-empty and hold no space |
| Widgets.SourceCodeEditor.constructor | powerpages/widgets.py:16-24 | the `class` attribute is rewritten and every other attribute is kept |
| Widgets.ClassesOfJoin | powerpages/widgets.py:22-24 | splitting the joined tokens gives them back |
| Widgets.UpdatedClassTokens | powerpages/widgets.py:19-23 | empty tokens are dropped; the handler class is put in front when absent, and an existing one keeps its place without being duplicated |
| Widgets.UpdatedClassIdempotent | powerpages/widgets.py:22-24 | applying the update twice gives the same string |
| Widgets.UpdatedClassHasHandler | powerpages/widgets.py:22-23 | the result always holds the handler class |
| RegistryConfig.Merged | powerpages/utils/class_registry/config.py:72-77 | each message comes from the last table that defines it |
| RegistryConfig.BaseKeysKept | powerpages/utils/class_registry/config.py:72-77 | every key of the base table is in the merged table |
| RegistryConfig.MergeMessages | powerpages/utils/class_registry/config.py:73-77 | the update loop over the tables, base class first and the argument last, yields the merged table |
| RegistryConfig.DefaultKeysKept | powerpages/utils/class_registry/config.py:72-77 | every message key of the base class is defined after the merge |
| RegistryConfig.OwnMessagesWin | powerpages/utils/class_registry/config.py:76-77 | the variable's own messages override the class defaults |
| RegistryConfig.DefaultMessagesKept | powerpages/utils/class_registry/config.py:72-77 | a default that nothing overrides keeps its text |
| RegistryConfig.DefaultsUnderSubclasses | powerpages/utils/class_registry/config.py:72-75 | subclass tables without a key leave the base text |
| RegistryConfig.NewVariable | powerpages/utils/class_registry/config.py:57-77 | a converter together with choices is refused; otherwise the arguments are kept and the message tables are merged in class order |
| RegistryConfig.Call | powerpages/utils/class_registry/config.py:81-83 | a value that is not callable is returned as it is |
| RegistryConfig.ReverseLookup | powerpages/utils/class_registry/config.py:88-94 | no result exactly when no choice has the value; otherwise the last choice with it |
| RegistryConfig.Elements | powerpages/utils/class_registry/config.py:120-128 | lists and strings can be iterated; strings give their characters |
| RegistryConfig.SingleValues | powerpages/utils/class_registry/config.py:129-132 | every element converted in order, or the first failing element's message |
| RegistryConfig.BasicValidation | powerpages/utils/class_registry/config.py:157-175 | a missing entry is `required` exactly when the variable is required, and the default otherwise; a present entry is converted |
| RegistryConfig.GetValueAgreesWithValidation | powerpages/utils/class_registry/config.py:134-150 | `get_value` gives what validation accepts and the default wherever validation finds a ValidationError; it raises the TypeError exactly where validation does |
| RegistryConfig.ListEntryWithChoicesRaises | powerpages/utils/class_registry/config.py:134-150 | a list entry of a single-valued variable with choices makes `get_value` raise `unhashable type: 'list'` instead of giving the default |
| RegistryConfig.UnhashableListRaises | powerpages/utils/class_registry/config.py:88-100 | a single value raises the TypeError exactly when the variable has choices and a configured value or the entry is a list |
| RegistryConfig.ChoiceMapsBack | powerpages/utils/class_registry/config.py:88-96 | a configured value maps back to the stored value of its last choice; when some configured value is a list, building the dictionary raises the TypeError |
| RegistryConfig.UnknownChoiceRefused | powerpages/utils/class_registry/config.py:88-100 | a value outside the choices gives `invalid_choice`, unless it or a configured value is a list, which raises the TypeError |
| RegistryConfig.MultipleConvertsEach | powerpages/utils/class_registry/config.py:118-132 | a multiple variable converts each element, in order |
| RegistryConfig.MultipleRefusesNumber | powerpages/utils/class_registry/config.py:120-128 | a multiple variable refuses a number with `unable_to_process` |
| RegistryConfig.ValidatorMessagesEmpty | powerpages/utils/class_registry/config.py:177-196 | the validators report nothing exactly when each passes |
| RegistryConfig.RunValidators | powerpages/utils/class_registry/config.py:177-196 | every validator is run and the messages are collected in order |
| RegistryConfig.ValidateValue | powerpages/utils/class_registry/config.py:152-175 | the TypeError exactly when basic validation raises it; otherwise the basic validation's messages, or else the validators' |
| RegistryConfig.AppendIssues | powerpages/utils/class_registry/config.py:40-41 | one issue per message, appended in order |
| RegistryConfig.CollectIssues | powerpages/utils/class_registry/config.py:35-41 | the loop over the declared names collects, in order, every message of each variable prefixed with its name; it ends with the TypeError exactly when some variable raises it |
| RegistryConfig.CollectOne | powerpages/utils/class_registry/config.py:37-41 | one round of the loop: the variable's TypeError, or the issues so far with its messages appended |
| RegistryConfig.IssuesEmpty | powerpages/utils/class_registry/config.py:31-43 | there are no issues exactly when no variable reports a message |
| RegistryConfig.IssuesComeFromVariables | powerpages/utils/class_registry/config.py:36-41 | every issue names a variable and carries one of its messages |
| RegistryConfig.IssueOfEachMessage | powerpages/utils/class_registry/config.py:36-41 | every message of every variable appears under its name |
| RegistryConfig.ByName | powerpages/utils/class_registry/config.py:18-22 | variables are filed by name, and a later one replaces an earlier one of the same name |
| RegistryConfig.LastNamedIsListed | powerpages/utils/class_registry/config.py:18-22 | the filed variable is one of those given, with that name |
| RegistryConfig.Config.constructor | powerpages/utils/class_registry/config.py:18-22 | the loop files the variables by name |
| RegistryConfig.Config.Get | powerpages/utils/class_registry/config.py:24-29 | an undeclared name is UndefinedVariable; otherwise `get_value`, its TypeError included |
| RegistryConfig.Config.Names | powerpages/utils/class_registry/config.py:36 | every declared name is visited |
| RegistryConfig.Config.Validate | powerpages/utils/class_registry/config.py:31-43 | the TypeError exactly when some declared variable raises it; otherwise the issues of every variable, and the ValidationError exactly when there are any |
| RegistryConfig.NoIssuesIffSilent | powerpages/utils/class_registry/config.py:31-43 | there are no issues exactly when no declared variable reports a message |
| RegistryConfig.ValidateAcceptsClean | powerpages/utils/class_registry/config.py:31-43 | a configuration is accepted (no TypeError, no issue) exactly when every variable validates cleanly |
| RegistryConfig.MissingRequiredReported | powerpages/utils/class_registry/config.py:163-167 | a missing required entry is reported under its name with the `required` message |
| ClassRegistry.KeyFromClass | powerpages/utils/class_registry/registry.py:24-26 | the key ends with `.ClassName`; a module path without a dot has no key |
| ClassRegistry.KeyOfNestedModule | powerpages/utils/class_registry/registry.py:24-26 | a class in `prefix.package.leaf` is filed under `package.ClassName` |
| ClassRegistry.KeyOfTopModule | powerpages/utils/class_registry/registry.py:24-26 | a class in `package.leaf` is filed under `package.ClassName` |
| ClassRegistry.Registered | powerpages/utils/class_registry/registry.py:28-33 | a taken key is AlreadyRegistered; otherwise the class is added under its key and every other entry stays |
| ClassRegistry.Unregistered | powerpages/utils/class_registry/registry.py:35-40 | an unknown key is NotRegistered; otherwise exactly that key goes |
| ClassRegistry.RegisterThenUnregister | powerpages/utils/class_registry/registry.py:28-40 | registering and unregistering a class restores the registry |
| ClassRegistry.RegisterTwiceRefused | powerpages/utils/class_registry/registry.py:28-33 | a second registration under the same key is refused |
| ClassRegistry.SortByLabel | powerpages/utils/class_registry/registry.py:48-50 | the sort is by label and is a permutation |
| ClassRegistry.Entries | powerpages/utils/class_registry/registry.py:44-47 | one (key, label) pair per registered class |
| ClassRegistry.AsChoices | powerpages/utils/class_registry/registry.py:42-60 | one pair per registered key, sorted by label, where the label is `verbose_name` or else the key |
| ClassRegistry.Registry.constructor | powerpages/utils/class_registry/registry.py:21-22 | the registry starts empty |
| ClassRegistry.Registry.Register | powerpages/utils/class_registry/registry.py:28-33 | the registry afterwards is the registration's result, or unchanged on an error |
| ClassRegistry.Registry.Unregister | powerpages/utils/class_registry/registry.py:35-40 | the registry afterwards is the unregistration's result, or unchanged on an error |
| ClassRegistry.Registry.Get | powerpages/utils/class_registry/registry.py:52-56 | the class filed under the key, or NotRegistered exactly when there is none |
| ClassRegistry.Registry.Choices | powerpages/utils/class_registry/registry.py:42-50 | the choices of the current registry |
| ClassRegistry.GetAfterRegister | powerpages/utils/class_registry/registry.py:28-56 | after a registration the key finds the class |
| AppSettings.Resolved | powerpages/settings.py:39-42 | the user's setting overrides the default, which is used otherwise |
| AppSettings.Lookup | powerpages/settings.py:31-44 | a name outside the defaults is AttributeError; otherwise the resolved value |
| AppSettings.DefaultsWithoutUserSettings | powerpages/settings.py:9-17 | with no project settings every setting reads as its default, `CACHE_SECONDS` as 3600 |
| AppSettings.Settings.constructor | powerpages/settings.py:26-29 | missing or empty defaults mean `DEFAULTS`; the cache starts empty |
| AppSettings.Settings.Get | powerpages/settings.py:31-44 | an unknown name is an error; a cached name is answered from the cache; otherwise the user settings are loaded once and the value is resolved and cached |
| AppSettings.Settings.Reload | powerpages/settings.py:50-53 | only a change of `POWER_PAGES` replaces the user settings with the new value (None when the setting is removed, so the next read loads them again) and empties the cache |

## Left out

- Unified diffs (`generate_diff` and `diff.py`) are not modelled: they come from a library and only produce display text.
- Console output, ANSI colours, the progress bar and the summary's formatting are not modelled; the summary is kept as a multiset of status strings.
- The `git add` subprocess is not modelled; only the decision to run it is (`DumpOperation.staged`).
- Not modelled, because they are framework plumbing and rendering:
  - page rendering and page processors, sitemaps and caching;
  - YAML model fields and `PageAdminForm.clean`;
  - the `page_edited` signal;
  - the staff-only decorator of the edit-mode switch;
  - Django's default `cols` and `rows` of the widget.
- PageForms.CleanConfig: the YAML parser is a parameter, so only the checks made after parsing are modelled. Any other exception of the parser is not caught by the form and is kept as an error of its own (`YamlFailure`).
- RegistryConfig.Hashable: among the values modelled only a list cannot be a dictionary key; dictionaries and sets are not modelled as configuration values.
- RegistryConfig messages are kept as a template with its parameters; `%`-formatting is not modelled. An issue keeps the variable's name and the message apart instead of the text `name: message`.
- Iteration order of Python dictionaries is not modelled:
  - `Config.validate` visits the names in sorted order;
  - `as_choices` sorts stably from entries in key order.
- The order of `os.walk` is modelled as sorted order for the load. The dump's delete list is modelled deepest entries first, so that a directory is removed after its contents.
- Admin.WebsiteLink: a page with a NULL URL is not modelled; URLs are strings.
- AppSettings.Settings.Get: a `POWER_PAGES` setting of None is not modelled; an absent one reads as `{}`.
- URLs are not unique in the source's table, but the model's page table is keyed by URL.
- SyncFields.Fields / SyncCodec.EncodeMeta: page_processor_config is an opaque text, not the YAML-backed mapping of `BaseRegistryItemConfigField` (powerpages/utils/class_registry/dbfields.py:54-104). Two gaps follow.
  - A non-empty config is written by the source's `json.dumps` as a nested, indented JSON object; the model writes it as one JSON string.
  - The field's falsy collapse is not modelled: the source stores any falsy config as `""` and reads `""` back as None, so a file whose config is `{}` never reaches NO_CHANGES after a load. The model keeps `Some("")` and None apart.
- PageTree.Children: the source builds the regular expression `^{url}[^/]+/?$` from the page's URL without escaping it (powerpages/models.py:143); the model matches the URL literally. In the source a URL holding `.` matches any character there (a stored `/v1x0/a` is a child of `/v1.0/`), and `+`, `*`, `(` or `?` change the match or raise. These differences reach `SyncPages.DumperPath` (the source can write `/v1.0/` to `v1.0/_index_.page`, the model to `v1.0`), `SyncDump.HasChildren` and the dump's cleanup.
- The metadata reader accepts only the layout that the dumper writes: one entry per line, keys in sorted order. Other valid JSON is refused.
- A `SYNC_DIRECTORY` ending in a slash is not modelled. Paths are relative to the sync directory, so the dump's loop that climbs to that directory always ends.
- SyncLoad.LoadKeepsDirtyPages is weaker than the source's promise: it requires that no two loaded files map to the same URL. Two colliding files (`/a.page` and `/a/`) can clear a dirty flag through an unchanged first file, and the second file then overwrites the page.
- Admin.AdminEditSurvivesLoad has the same distinct-URL requirement, for the same reason.
- Quirks the model keeps as the source has them:
  - directories whose names start with a dot are walked, and their contents deleted, by the dump;
  - a `.` status still saves and clears the dirty flag;
  - the dumper clears the dirty flag before the write, so a failing write leaves it cleared;
  - removing a non-empty directory fails and stops the run.
