# Blob listings, escapes, multipart uploads and SFTP commits

A model of the parts of this repository that are easiest to get wrong, with proofs. `dafny
verify dfyconfig.toml` checks all of it.

**Escaping** (`Escape`, `KeyEscape`). How blob keys become paths: runes that a caller's
rule picks are written as `__0x…__`, and so is the first rune of any text that would read
as such a sequence. The round trip does not always hold; the exact condition is proved for
all texts and rules: there is no *splice*, that is no text such as `__0x2f` right before
an escaped rune, whose underscores complete it.

**Listing** (`Listing`, `Pages`, `Paging`, `Tree`, `Walk`, `WalkCost`, `Lister`, `Strays`,
`Prefixes`, `PrefixWitnesses`, `WrittenTree`, `WrittenKeys`). The walk that the WebDAV and
the SFTP backends share. `Pages` says what a page must hold without any function of the
code. The reference is simple: take all keys in order, send each through the rules of
`emit`, cut a page; it gives that page. The walk starts at a directory taken from the
prefix, sorts each level by key, skips directories, replaces some by a probe, remembers
one folded prefix, and stops when the page is full; it is proved to return the same page.
The tree must be *well named*: directories are named as keys are escaped, no visible name
hides a slash, siblings have different sort keys. Empty directories, sidecars and
temporary files may be anywhere, and directories may look like bookkeeping: what is in one
of these is not listed, unless the listing starts there. Every tree that comes of writing
keys whose slashes are plain separators is well named; which writes are taken is
characterised too. The start directory is found by cleaning a path, which for prefixes
such as `./` or `../` leads elsewhere, even out of the bucket; the prefixes for which the
pages are right in all buckets are characterised exactly. `Lister` is the object of the Go
code with its fields and loops; it computes the functions of `Walk`.

**Multipart uploads** (`PartNames`, `Staging`, `Parts`, `Multipart`, `Uploads`,
`UploadContracts`, `UploadSteps`, `UploadCovers`, `UploadCommits`, `UploadHistory`,
`UploadAlone`, `UploadWitnesses`, `Uploader`, `Compose`, `GcsUploader`). The generic
uploader over a bucket: a manifest, one object per part, Commit, Abort, Open by any
process. Calls take one store operation at a time, in any interleaving; any operation may
fail, and a call may stop for good at any point. Over every such run the store is in step
with a map from (key, ID) to contents per number; Commit, if no other call meddles, is
then the concatenation in ascending number. `Multipart` has each call as a function from a
store to a result and to the states that the store passes through; `UploadContracts` says
of each when it succeeds and what the store is then, in numbers, tags and bytes;
`UploadAlone` ties these to the steps, and the objects of `Uploader` pass through just
these states. On GCS, rounds of at most 32-way compose calls make the same object.

**Resuming reads** (`HttpServer`, `Answers`, `Reads`, `Requests`, `Tracking`,
`RangeReader`, `ReadWitnesses`). A server that may replace the object, bring earlier
contents back, fail, drop connections, honour or ignore ranges, and answer with a part of
the range only, as section 15.3.7 of RFC 9110 allows; a validator names one content. The
reader does not look at where a partial answer begins or ends. Its books say which place
of which content each byte comes from; what has been read is a prefix of one content's
slice, and complete when the end is reported, exactly under conditions on the answers that
the reader does not check. These are stated on places, since bytes may be equal by chance.

**SFTP commits** (`Reserved`, `SftpPaths`, `SftpFiles`, `SftpCommit`, `SftpRuns`,
`SftpQuiet`, `SftpConditional`, `SftpErrors`, `SftpSequential`, `SftpHealthy`,
`SftpBucket`, `SftpWitnesses`). Writes, copies and deletes as processes that take one
remote operation at a time, in any interleaving; each operation succeeds, fails, or
succeeds with its answer lost. What a theorem supposes, it supposes of the answers to the
calls on the key. `SftpBucket` has the methods of the Go code, each proved to be a run of
such a process.

Functions define what is meant; lemmas and methods prove it. `hide` statements only keep
proofs quick.

Where code and documentation disagree the code is followed: `Commit` is documented not to
make anything readable before it succeeds, and does so when a part is missing
(`Multipart.FailedCommitIff`); the manifest is documented to go last, so that a partial
delete leaves an upload that can be found, and goes as well where a listing or a deletion
has failed (`UploadCovers.FailedDeletionOrphans`, `UploadWitnesses.FailedListingOrphans`);
a `Read` may resume a fourth time after it has delivered bytes, because the count starts
anew (`Requests.ExceedsIff`, `ReadWitnesses.FourRequestsInOneRead`).

## Model

| member | source | states |
|---|---|---|
| `Escape.RoundTrip` | internal/escape/escape.go:68-190 | HexUnescape reverses HexEscape on every text without a splice, for every rule of what to escape |
| `Escape.RoundTripIff` | internal/escape/escape.go:68-190 | the exact condition, for every text and every rule: it reads back if and only if it has no splice, that is if no plain text in it begins an escape sequence that the next escaped rune would complete |
| `Escape.EscapeInjective` | internal/escape/escape.go:68-112 | two texts without splices never share an escaped form |
| `Escape.DecodesPieceIffNoSplice` | internal/escape/escape.go:117-163 | at each position the decoder reads exactly the piece that the encoder wrote there, if and only if there is no splice at it |
| `Escape.DecodesUpTo` | internal/escape/escape.go:166-190 | up to the first splice the decoder gives back the text |
| `Escape.FallsBehind` | internal/escape/escape.go:117-190 | at the first splice, if what is decoded begins as the text does, the decoder has given less than the text up to there, by more than the underscores that it has not read yet |
| `Escape.NeverCatchesUp` | internal/escape/escape.go:117-190 | a decoder that is behind in this way stays behind, through plain text, escape sequences and further splices, which can lengthen the text, and so never gives the rest of the text |
| `Escape.ParsedSpan` | internal/escape/escape.go:126-163 | a parsed escape sequence begins with "__0x", ends with an underscore and has no slash in it |
| `Escape.ParseEscapedRune` | internal/escape/escape.go:98-112 | every rune, written as an escape sequence, is read back as that rune, whatever follows |
| `Escape.UnescapeAt` | internal/escape/escape.go:126-163 | the loop of unescape finds an escape sequence at an index, its rune and its last index, exactly if there is one |
| `Escape.HexUnescape` | internal/escape/escape.go:166-190 | the loop with its lazily made copy computes the decoding defined by recursion |
| `Escape.Positions` | internal/escape/escape.go:69-88 | the first loop collects exactly the positions to be escaped, in ascending order |
| `Escape.Write` | internal/escape/escape.go:96-111 | copying a piece into the buffer changes those cells only |
| `Escape.HexEscape` | internal/escape/escape.go:68-112 | the two loops over a buffer of 14 runes a position never overrun it and compute the encoding defined by recursion |
| `Escape.EscapeRuneLength` | internal/escape/escape.go:92-95 | no escape sequence takes more than 14 runes, which is what the buffer allows for |
| `Escape.EscapeRuneIs` | internal/escape/escape.go:98-112 | an escape sequence is "__0x", the rune's number in small hexadecimal digits without leading zeros, and "__" |
| `Escape.ParseEscapeIff` | internal/escape/escape.go:126-163 | and the decoder reads one exactly where "__0x", something that is an optional sign and hexadecimal digits of either case for a number of 32 bits, and "__" stand |
| `Numerals.ParseIntIff` | internal/escape/escape.go:158 | what is read as a number are just the texts that write one within the bounds, with or without a sign, whatever zeros are in front; said by place values |
| `Numerals.PrintIs` | blob/sftpblob/sftpblob.go:864 | what is printed is the number's numeral in small digits without leading zeros |
| `KeyEscape.KeyRoundTrip` | internal/escape/key.go:32-56 | keys without splices survive being escaped and unescaped |
| `KeyEscape.KeyRoundTripIff` | internal/escape/key.go:32-56 | a key survives being escaped and unescaped if and only if it has no splice |
| `KeyEscape.KeyEscapesIff` | internal/escape/key.go:32-51 | which runes of a key are escaped, in full: those below 32, the backslash, the bar and `<>:"?*`, the slash of "../", the second one of "//", a slash at the end, and what begins a text that reads as an escape sequence |
| `KeyEscape.EscapedIsTame` | internal/escape/key.go:32-51 | the escaped form of every key has no "../" and no "//", no slash at its end, and no rune below 32, no backslash, no bar and none of `<>:"?*` |
| `KeyEscape.UnchangedIff` | internal/escape/key.go:32-51 | and a key is its own escaped form if and only if it has none of these itself, and no text that reads as an escape sequence |
| `KeyEscape.EscapeGrows` | internal/escape/key.go:32-51 | going on does not make the escaped form of a text shorter, unless the text ends in a slash |
| `KeyEscape.SpliceWitness` | internal/escape/key.go:32-56 | the condition cannot be dropped: `__0x2f\` does not survive |
| `KeyEscape.ParseStopsAtSlash` | internal/escape/escape.go:126-163 | no escape sequence reaches across a slash |
| `KeyEscape.UnescapeSplit` | internal/escape/key.go:53-56 | unescaping works on each side of a slash by itself, always |
| `KeyEscape.EscapeSplit` | internal/escape/key.go:32-51 | escaping works on each side of a slash by itself whenever the slash is one that the rules leave alone; which these are says `KeyEscape.KeyEscapesIff` |
| `KeyEscape.EscapedSplit` | internal/escape/key.go:32-51 | position by position, a plain slash changes nothing about what is escaped on either side of it |
| `Listing.ResultMonotone` | blob/sftpblob/list.go:224-252 | folding by the first delimiter keeps the order of keys, so equal results lie next to each other |
| `Listing.SameFold` | blob/sftpblob/list.go:229-237 | two keys that share the text up to the first delimiter fold into the same directory, for delimiters of any length |
| `Pages.FoldIs` | blob/sftpblob/list.go:228-237 | for every delimiter that is not empty: a key folds if and only if the delimiter occurs behind the prefix, and then into the shortest beginning of the key that has the prefix and behind that the delimiter at its end |
| `Listing.ResultsBefore` | blob/httpblob/webdav.go:433-460 | a key behind all others contributes a new last result or repeats the last one: remembering one prefix is enough |
| `Listing.ResultsAscend` | blob/sftpblob/list.go:224-252 | the folded listing of ascending keys is strictly ascending |
| `Pages.ResultsAreListed` | blob/sftpblob/list.go:224-252 | the folded listing holds just these: each blob with the prefix whose key does not fold, with its size, each directory into which one folds, and nothing else |
| `Pages.IdealPageIsPage` | blob/sftpblob/list.go:224-287 | the page cut from it is the page to be given, said without any function of the code: results behind the token, strictly ascending, the first pageSize of them, the last key as next token if and only if there are more |
| `Pages.PageUnique` | blob/sftpblob/list.go:224-287 | there is no other page of which this holds |
| `Strings.LessIff` | blob/sftpblob/list.go:146-158 | the order of keys: at the first place where they differ, or one is the beginning of the other |
| `Paging.EmitGood` | blob/httpblob/webdav.go:433-460 | one emit keeps the fields right: the objects are the first pageSize results behind the token, full says whether there are more, and lastPrefix is the last fold |
| `Paging.FullGood` | blob/httpblob/webdav.go:348-350 | once the page is full, keys further on do not change it |
| `Paging.SkipGood` | blob/httpblob/webdav.go:465-477 | keys that cannot qualify may be passed over |
| `Paging.RefusedSubtree` | blob/httpblob/webdav.go:462-477 | descend refuses a directory only if none of the keys in it can be a result behind the token |
| `Paging.CollapsedFold` | blob/httpblob/webdav.go:479-486 | collapses holds only if every key in the directory folds into the same result |
| `Paging.CollapseGood` | blob/httpblob/webdav.go:479-486 | for such a directory a single emit, made if there is any key in it, equals emitting all its keys |
| `Paging.EmitAllGood` | blob/httpblob/webdav.go:429-460 | feeding all keys to emit keeps the invariant |
| `Paging.ReferencePage` | blob/httpblob/webdav.go:429-495 | feeding all keys in order to emit and cutting the page gives the first pageSize folded results behind the token, with the last key as next token exactly if there are more |
| `Paging.AfterToken` | blob/sftpblob/list.go:280-287 | what lies behind the last key of a page is the rest of the listing |
| `Paging.FollowingTokensListsAll` | blob/sftpblob/list.go:224-287 | following the next token from the empty one to the empty one gives the whole folded listing, strictly ascending, without gap or repetition, in max(1, ceil(n / pageSize)) pages |
| `Tree.SortSorted` | blob/sftpblob/list.go:146-158 | sorting the entries of a directory puts their sort keys in strict order |
| `Tree.WalkFindsAll` | blob/sftpblob/list.go:113-186 | for trees whose directories may look like bookkeeping: a blob is in the walk of a directory if and only if it is stored beneath it and no directory on the way, below the first, is taken for bookkeeping; a condition on the key |
| `Tree.ShownBelow` | blob/sftpblob/list.go:136-138 | what one directory shows of its blobs |
| `Tree.KidBeneath` | blob/httpblob/webdav.go:462-464 | the key of everything in a directory begins with the directory's key and a slash |
| `Tree.BlocksInOrder` | blob/httpblob/webdav.go:318-322 | sort keys of siblings in order put everything beneath them in order |
| `Tree.WalkAscends` | blob/httpblob/webdav.go:332-395 | the depth-first walk with sorted levels visits all keys in global lexicographic order, at every depth |
| `Tree.AscendingUnique` | blob/httpblob/webdav.go:332-395 | there is only one ascending enumeration of the same blobs |
| `Walk.ProbeFinds` | blob/sftpblob/list.go:192-218 | hasKey finds a key exactly if there is a blob anywhere beneath the directory |
| `Walk.VisitKidGood` | blob/httpblob/webdav.go:344-393 | one entry of a directory: passed over, probed, entered or emitted, the page stays right |
| `Walk.VisitGood` | blob/httpblob/webdav.go:332-395 | visiting a directory, with all its pruning, amounts to emitting every key beneath it |
| `Walk.ReadDirInTree` | blob/httpblob/webdav.go:289-294 | the directory read at a clean path is part of the tree, with the keys that its path says |
| `Walk.KeyDirectory` | blob/httpblob/webdav.go:289-294 | a key that begins with the start directory's key and a slash is beneath the start directory, whose key survives escaping |
| `Walk.StartHoldsPrefix` | blob/httpblob/webdav.go:285-294 | every key with the prefix is beneath the start directory |
| `Walk.CleanIs` | blob/sftpblob/list.go:51-60 | cleaning a path, name by name: an empty name and "." stay, ".." goes up, out of the bucket too, any other goes down |
| `Walk.StartIsEnough` | blob/httpblob/webdav.go:285-294 | at a clean start directory, starting there instead of at the root changes no result |
| `Walk.PrunedWalkIsReference` | blob/httpblob/webdav.go:273-495 | at a clean start directory, for every well-named tree, prefix, delimiter, token and page size, the pruned walk returns exactly the page made by feeding all keys to be shown in order to emit |
| `Walk.UncleanPrefixHasNoKeys` | blob/sftpblob/list.go:51-60 | for a prefix whose directory part is not clean the right page is the empty one |
| `Strays.BlankVisit` | blob/sftpblob/list.go:113-186 | by whatever path a directory is read: if no key found by that path has the prefix, the page is empty, probes and all |
| `Strays.FilledVisit` | blob/sftpblob/list.go:113-186 | and if one has, a listing of all keys is not empty |
| `Strays.Moved` | blob/sftpblob/list.go:129-139 | the same directory read by two paths: the keys are the same but for what the paths put in front |
| `Strays.InternalSplit` | blob/sftpblob/list.go:300-304 | a path is bookkeeping if what is behind a slash is, or if the infix is in front of it |
| `Prefixes.PageIsRight` | blob/sftpblob/list.go:38-287 | the main result: for every well-named bucket, wherever it lies, every prefix that does not mislead, every delimiter, token and page size, the page of the walk is the page made by feeding all keys to be shown in order to emit |
| `Prefixes.StrayKey` | blob/sftpblob/list.go:306-312 | whenever the walk finds a key with a prefix whose directory part is not clean, the prefix is one that misleads |
| `Prefixes.WalkedPagesListAll` | blob/sftpblob/list.go:38-287 | page by page, each a walk of its own, the client sees the whole folded listing once and in order, in max(1, ceil(n / pageSize)) pages, for every prefix that does not mislead; and this listing has each blob whose key does not fold and each directory that stands for one, and nothing else |
| `PrefixWitnesses.AlwaysRightIff` | blob/sftpblob/list.go:38-64 | the exact condition: the pages for a prefix are right in all well-named buckets, with all tokens, delimiters and page sizes, if and only if its directory part is a clean path, or it does not mislead; a condition on the prefix: keys reported from the directory that is read cannot have it, or would be passed over as bookkeeping, or, inside the bucket, the directories that it means are such as keys cannot have |
| `PrefixWitnesses.InsideWitness` | blob/sftpblob/list.go:306-312 | a bucket in which such a prefix misleads, for every one that stays in the bucket |
| `PrefixWitnesses.MisleadsOutside` | blob/sftpblob/list.go:306-312 | and one for every prefix that leaves it: fullDir does not check the bucket's root, as fullPath does |
| `PrefixWitnesses.DotPrefixWitness` | blob/sftpblob/list.go:306-312 | with the prefix "./" the walk reports keys that the bucket does not have |
| `PrefixWitnesses.ParentPrefixWitness` | blob/sftpblob/list.go:306-312 | with the prefix "../" it lists the directory above the bucket |
| `WalkCost.OneTokenKid` | blob/httpblob/webdav.go:462-477 | at most one entry of a directory lies on the token's path |
| `WalkCost.EnteredQualifies` | blob/httpblob/webdav.go:462-477 | below the prefix, a directory that is entered and is not on the token's path has only keys that count for the page |
| `WalkCost.VisitCost` | blob/httpblob/webdav.go:332-395 | each directory entered is paid for by progress of the page or by the token's path |
| `WalkCost.ProbeCost` | blob/sftpblob/list.go:192-218 | where no directory is empty, hasKey goes straight down: it reads at most as many directories as there are levels |
| `WalkCost.DirCollapses` | blob/sftpblob/list.go:271-278 | with the slash as delimiter each directory that is looked into from the start directory is probed and not entered, and stands for one result |
| `WalkCost.PageCost` | blob/httpblob/webdav.go:267-272 | without empty directories, and with no delimiter or the slash, a page at a clean start directory reads at most 1 + (h - 1)(pageSize + 2) directories, probes included, h being the height of the tree from the start directory on, however many blobs there are |
| `WalkCost.SplicedStartEnters` | blob/sftpblob/list.go:254-270 | a start directory whose key does not survive escaping: no directory in it overlaps the prefix |
| `Lister.Lister.EmitKey` | blob/sftpblob/list.go:224-252 | the method with its early returns updates the fields as the rules say |
| `Lister.Lister.FileOrSubdirs` | blob/sftpblob/list.go:199-212 | the first loop of hasKey: a visible file decides, else the visible directories are kept |
| `Lister.Lister.HasKey` | blob/sftpblob/list.go:192-218 | the recursive probe on the object computes the probe, and reads as many directories |
| `Lister.Lister.VisibleChildren` | blob/sftpblob/list.go:130-150 | the entries that are not bookkeeping, in the server's order |
| `Lister.Lister.VisitDir` | blob/sftpblob/list.go:113-186 | the recursive visit on the object computes the walk, including its stop at a full page |
| `Lister.Lister.VisitEntry` | blob/sftpblob/list.go:160-184 | one turn of its loop |
| `Lister.ListPaged` | blob/sftpblob/list.go:38-63 | the page of the walk from the start directory, with the default page size |
| `Lister.ListBucket` | blob/sftpblob/list.go:38-287 | and so the page that the listing promises, a thousand results by default, for every prefix that does not mislead and any enumeration in order of the blobs to be shown: the page is pinned by what keys fold into what, as in `Pages.IdealPageIsPage` |
| `WrittenTree.WrittenBucket` | blob/httpblob/webdav.go:273-294 | every bucket filled by writing good keys is well named and holds exactly the blobs last written |
| `WrittenTree.StoreBuilt` | blob/sftpblob/sftpblob.go:621-641 | writing one more key that fullPath accepts keeps the tree well built |
| `WrittenTree.StoreBlobs` | blob/sftpblob/sftpblob.go:840-869 | writing puts one blob at its key, in place of the one there, and leaves all others |
| `WrittenTree.BuiltIsWellNamed` | blob/httpblob/webdav.go:273-294 | what comes of writing satisfies the conditions of the listing |
| `WrittenTree.ListedAsWritten` | blob/httpblob/webdav.go:273-495 | who writes good keys and lists sees exactly the pages that are to be cut from the keys written, but for those in directories taken for bookkeeping below the start directory; said as in `Pages.IdealPageIsPage` |
| `WrittenKeys.WrittenIff` | blob/sftpblob/sftpblob.go:621-641 | which keys are good: each segment between slashes is not empty, "." or "..", does not end in ".." but as the last one, and reads back from its escaped form, and the path of the whole key is not reserved |
| `WrittenKeys.PathOfKey` | internal/escape/key.go:32-51 | escaping such a key as a whole or segment by segment gives the same path |
| `WrittenKeys.BucketIff` | blob/sftpblob/sftpblob.go:840-869 | a run of writes of good keys is taken if and only if no key in it lies below another one, whatever their order and however often a key is written |
| `WrittenKeys.StoreIff` | blob/sftpblob/sftpblob.go:840-869 | one write is refused by a blob on its way, or by a directory in its place, and by nothing else |
| `WrittenTree.InternalDirectoryHidesKeys` | blob/sftpblob/list.go:130-138 | "d.attrs/y" can be written, and a listing of the bucket does not show it |
| `WrittenTree.InternalDirectoryListsItself` | blob/sftpblob/list.go:51-60 | but one with the prefix "d.attrs/" does: the start directory itself is not looked at |
| `PartNames.PartNameRoundTrip` | blob/multipart/bucket.go:177-181 | printing a part number with leading zeros and parsing the name undo each other for every int64 |
| `PartNames.PartNamesDiffer` | blob/multipart/bucket.go:177-181 | different numbers have different names |
| `PartNames.PartNameOrder` | blob/multipart/bucket.go:50-53 | up to 10000, names are ordered as numbers are |
| `Staging.UploadsAreApart` | blob/multipart/bucket.go:32-41 | a staging prefix begins no object of another upload |
| `Staging.StagedIsNoDestination` | blob/multipart/bucket.go:96-98 | every staging object has the reserved infix in its name |
| `Staging.DestinationIsNotStaged` | blob/multipart/bucket.go:96-98 | no key without the infix begins with a staging prefix |
| `Staging.PartKeysDiffer` | blob/multipart/bucket.go:169-181 | no two parts, of one upload or of several, share an object |
| `Staging.PartIsNotManifest` | blob/multipart/bucket.go:238-246 | no part name is the manifest's, and the manifest's name is no part number |
| `Staging.ManifestIsNoPart` | blob/multipart/bucket.go:173-181 | whatever strings key and ID are, no manifest key is a part key |
| `Staging.SameManifest` | blob/multipart/bucket.go:173-175 | for one key, a manifest key belongs to one ID only |
| `Staging.OverlappingNames` | blob/multipart/bucket.go:149-153 | key x with ID "gocdkmpu.…" and key x.gocdkmpu have one staging prefix: only the key in the manifest tells them apart |
| `UploadContracts.NamesAre` | blob/multipart/bucket.go:32-53 | the names in full: the manifest is key + ".gocdkmpu." + ID + "/manifest.json", a part has the five digits of its number in its place |
| `Parts.SortPartsSpec` | blob/multipart/multipart.go:282-299 | SortParts gives the same parts in ascending order if there are some and their numbers differ, and else an error that names a number given twice |
| `Parts.SortPartsPermutation` | blob/multipart/multipart.go:282-299 | the order in which parts are given does not matter |
| `Parts.SortPartsLoop` | blob/multipart/multipart.go:286-299 | the code, copying, sorting and then scanning neighbours, computes it |
| `Parts.CheckPartSizes` | blob/multipart/multipart.go:301-318 | the loop reports exactly the first part but the last one that is below the minimum |
| `UploadContracts.PartNumbersAre` | blob/multipart/multipart.go:262-278 | an uploader takes the numbers from 1 to its own limit, or to 10000, and no others |
| `UploadContracts.NewUploadIs` | blob/multipart/bucket.go:89-117 | NewUploader succeeds if and only if the key is neither empty nor contains ".gocdkmpu.", and then writes just the manifest |
| `UploadContracts.OpenIs` | blob/multipart/bucket.go:129-156 | Open succeeds if and only if neither key nor ID is empty and the manifest is there, readable and of that key; which error else |
| `UploadContracts.UploadPartIs` | blob/multipart/bucket.go:198-224 | on an unfinished handle UploadPart succeeds if and only if 1 <= number <= 10000 and the reader does not fail, and then the part holds the reader's bytes; any other number is refused with the bucket untouched, and of a failed reader nothing stays |
| `UploadContracts.AbortIs` | blob/multipart/bucket.go:318-327 | Abort removes what is staged for an unfinished handle and nothing else |
| `UploadContracts.CommitIs` | blob/multipart/bucket.go:257-300 | Commit succeeds if and only if the handle is unfinished, there are parts, no number is given twice, no tag is another upload's and all parts are stored; and then the destination holds their bytes in ascending number, with the upload's options, nothing is staged, and all else is as before |
| `UploadContracts.CommitFailsAs` | blob/multipart/bucket.go:257-300 | and else: which error, the first reason in this order, and the bucket stays as it was, for a tag of another upload too; but if a part is missing the bytes of those before it are published |
| `Multipart.DeleteStagedFinal` | blob/multipart/bucket.go:336-368 | deleting ends with no object of the upload, and all others as they were |
| `Multipart.ManifestGoesLast` | blob/multipart/bucket.go:333-368 | at every moment of the deletion the manifest is there or nothing of the upload is |
| `Multipart.FailedCommitIff` | blob/multipart/multipart.go:248-249 | "nothing is readable at the destination until Commit returns successfully" holds of a failing Commit if and only if it fails a check made before the writer is opened, or what it had copied is there already |
| `Multipart.FailedCommitWitness` | blob/multipart/bucket.go:283-286 | a case of it: with part 1 missing the empty object is published |
| `Uploads.OpenIsExact` | blob/multipart/bucket.go:119-156 | Open succeeds for a key and an ID, whatever strings they are, exactly if they name a live upload, and recovers its options |
| `Uploads.NewUploadInStep` | blob/multipart/bucket.go:89-117 | NewUploader adds one live upload without parts and nothing else |
| `Uploads.UploadPartInStep` | blob/multipart/bucket.go:198-224 | UploadPart replaces one number's content, or removes it when the reader fails, and nothing else |
| `Uploads.RemovePrefixInStep` | blob/multipart/bucket.go:336-368 | deleting what is staged ends one upload and no other |
| `Uploads.PublishInStep` | blob/multipart/bucket.go:273-293 | publishing a destination changes that blob only |
| `Uploads.ListPartsIsExact` | blob/multipart/bucket.go:226-255 | ListParts returns precisely the stored numbers, ascending, with their sizes |
| `Uploads.CommitAssembles` | blob/multipart/bucket.go:257-300 | Commit of the staged parts in any order: the destination is the concatenation in ascending number of the last content per number, nothing staged remains, all else is as it was |
| `Uploads.ReadyToCommit` | blob/multipart/bucket.go:257-287 | what ListParts lists may be committed in any order, and is copied in ascending number |
| `UploadSteps.OpInStep` | blob/multipart/bucket.go:89-368 | every single store operation keeps the store in step with a map of uploads |
| `UploadSteps.StepSound` | blob/multipart/bucket.go:89-368 | every step of every call does, and each call knows what it is doing |
| `UploadSteps.RunSound` | blob/multipart/bucket.go:89-368 | so does every run of single store operations, of any calls on any handles, new or reopened, in any interleaving, with calls that fail or stop anywhere |
| `UploadSteps.OwnIdsAreFresh` | blob/multipart/bucket.go:100-116 | what these runs suppose of upload IDs follows from the calls alone: no two NewUploader calls have the same key and ID, and IDs are 32 hexadecimal digits |
| `UploadCommits.CommitAfterAnyRun` | blob/multipart/bucket.go:257-300 | end to end, after any such run: a Commit of what ListParts lists, in any order, whose own operations go well and whose upload and destination no other call touches meanwhile, assembles the last contents per number and leaves nothing staged |
| `UploadCommits.CommitStays` | blob/multipart/bucket.go:257-368 | what a Commit knows at each of its steps, whatever the other calls do elsewhere |
| `UploadCommits.OnlyPublishWrites` | blob/multipart/bucket.go:198-300 | no step of any call changes a destination, but the closing of a Commit's writer its own |
| `UploadCovers.AlwaysCoveredIff` | blob/multipart/bucket.go:106-116 | at every moment of a run a part that remains has its manifest, if and only if no step deletes a manifest while a part is there, or writes a part where there is no manifest |
| `UploadCovers.OrphansOnlyIf` | blob/multipart/bucket.go:333-368 | a call deletes the manifest and leaves a part only if, since its listing, a part was written or one of its operations failed |
| `UploadCovers.OrderlyIsCovered` | blob/multipart/bucket.go:333-368 | so parts are always covered if listings and deletions go well, and no part is written between the listing and the deletion of the manifest, nor afterwards; calls may otherwise interleave and stop anywhere |
| `UploadCovers.FailedDeletionOrphans` | blob/multipart/bucket.go:358-367 | a deletion that fails is passed over: the manifest goes, the part stays, Open finds nothing |
| `UploadWitnesses.FailedListingOrphans` | blob/multipart/bucket.go:343-357 | and so it is when the listing fails |
| `UploadHistory.PartIsLastPut` | blob/multipart/bucket.go:198-224 | at every moment of every run a part has certain bytes if and only if some step has written them and none since has written or deleted the part |
| `UploadHistory.StoredPartLostIff` | blob/multipart/bucket.go:211-221 | a stored part that is not stored again, and not cleared by Commit or Abort, is lost if and only if an UploadPart of its number that has failed removes it afterwards |
| `UploadWitnesses.RetryIsLost` | blob/multipart/bucket.go:211-221 | a case of it: the retry has returned its part without error, and the first attempt then removes it |
| `UploadAlone.UploadPartAlone` | blob/multipart/bucket.go:198-224 | an UploadPart by itself does in steps what its specification says |
| `UploadAlone.CommitAlone` | blob/multipart/bucket.go:257-300 | so does a Commit |
| `UploadAlone.AbortAlone` | blob/multipart/bucket.go:318-327 | and an Abort |
| `UploadAlone.NewAlone` | blob/multipart/bucket.go:89-117 | a NewUploader |
| `UploadAlone.OpenAlone` | blob/multipart/bucket.go:129-156 | and an Open |
| `UploadAlone.StoreBegins` | blob/multipart/bucket.go:198-224 | in the midst of any run a Store call begins to write its part if and only if its handle is unfinished and 1 <= number <= 10000 |
| `UploadAlone.FailedPut` | blob/multipart/bucket.go:211-221 | a part that cannot be written is removed, and the call returns an error |
| `UploadAlone.FailedCopy` | blob/multipart/bucket.go:282-293 | a part that cannot be read to its end ends the copying; what has been read is published, though the call returns an error |
| `UploadAlone.FailedPublish` | blob/multipart/bucket.go:283-293 | a destination that cannot be closed leaves everything as it was, and the handle unfinished |
| `UploadAlone.FailedManifest` | blob/multipart/bucket.go:106-156 | so does a manifest that cannot be written or read |
| `UploadAlone.FailedCleaning` | blob/multipart/bucket.go:343-368 | a listing that fails half-way is taken for the whole, and a deletion that fails is passed over |
| `Uploader.BucketUploader.constructor` | blob/multipart/bucket.go:62-73 | a handle that is not finished |
| `Uploader.BucketUploader.UploadPart` | blob/multipart/bucket.go:198-224 | the method returns and writes as its specification says, removing what a failed reader left |
| `Uploader.BucketUploader.ListParts` | blob/multipart/bucket.go:226-255 | the loop over staged objects collects the parts |
| `Uploader.BucketUploader.Commit` | blob/multipart/bucket.go:257-300 | the method passes through exactly the states of the specification and sets finished on success only |
| `Uploader.BucketUploader.ForeignTag` | blob/multipart/bucket.go:268-276 | the loop over tags finds the first that belongs to another upload |
| `Uploader.BucketUploader.CopyAll` | blob/multipart/bucket.go:282-287 | the copy loop writes the parts in order up to the first that is missing |
| `Uploader.BucketUploader.Abort` | blob/multipart/bucket.go:318-327 | aborting deletes what is staged once and is safe to repeat |
| `Uploader.BucketUploader.DeleteStaged` | blob/multipart/bucket.go:336-368 | one deletion after the other, the manifest last |
| `Uploader.NewUploader` | blob/multipart/bucket.go:89-117 | the reserved infix is refused, the manifest is written first |
| `Uploader.Open` | blob/multipart/bucket.go:129-156 | an upload is found through its manifest, and refused if the key in it differs |
| `Compose.InterNamesDiffer` | blob/multipart/gcsmp/gcsmp.go:285 | intermediates of different rounds or groups have different names |
| `Compose.RoundKeepsBytes` | blob/multipart/gcsmp/gcsmp.go:276-294 | a round keeps the joined bytes, whatever stale objects bear the names that it writes |
| `Compose.RoundCallsGood` | blob/multipart/gcsmp/gcsmp.go:276-294 | every call of a round takes 2 to 32 sources and writes none of them |
| `Compose.ComposeTreeKeepsBytes` | blob/multipart/gcsmp/gcsmp.go:270-295 | composeTree leaves 1 to 32 objects with the same bytes in the same order, by calls within the limits |
| `Compose.ComposeTreeKeeps` | blob/multipart/gcsmp/gcsmp.go:270-295 | it changes nothing but its intermediates |
| `Compose.CommitsAgree` | blob/multipart/gcsmp/gcsmp.go:228-268 | for any number of parts and any key, Commit on GCS and the generic Commit make the same object, leave no staging object and agree on everything else |
| `Compose.FailedGcsCommitKeepsDestination` | blob/multipart/gcsmp/gcsmp.go:228-268 | a Commit on GCS that fails leaves the destination as it was |
| `Compose.GcsCommitIs` | blob/multipart/gcsmp/gcsmp.go:228-268 | Commit on GCS succeeds if and only if the handle is unfinished, there are parts, no number is given twice and all parts are stored, whatever their tags; and then does what the generic one does. If it fails, a part missing or not, all but intermediates is as before, the staged parts too |
| `Compose.NestedCeiling` | blob/multipart/gcsmp/gcsmp.go:270-295 | rounding up by 32 once per round is rounding up by the power once |
| `Compose.RoundsAreLeast` | blob/multipart/gcsmp/gcsmp.go:270-295 | the number of rounds is the least k with n at most 32^(k+1) |
| `Compose.ComposeTreeRounds` | blob/multipart/gcsmp/gcsmp.go:270-295 | composeTree ends with exactly the objects that remain after that many rounds |
| `GcsUploader.Uploader.ComposeRound` | blob/multipart/gcsmp/gcsmp.go:277-292 | the inner loop over groups computes one round, call by call |
| `GcsUploader.Uploader.ComposeTree` | blob/multipart/gcsmp/gcsmp.go:273-295 | the outer loop terminates and computes composeTree |
| `GcsUploader.Uploader.Commit` | blob/multipart/gcsmp/gcsmp.go:228-268 | the method computes the specification, and all its compose calls are within the limits |
| `HttpServer.ReadBodySpec` | blob/httpblob/httpblob.go:1301-1313 | one read of a body hands out its next bytes, and the end is reported when nothing is left |
| `HttpServer.PartialContent` | blob/httpblob/httpblob.go:1341-1360 | what a client may rely on: the bytes of a 206 are those of the version that If-Range names, within the range asked for, at the place that Content-Range says, and not more (sections 13.1.5, 14.2 and 15.3.7 of RFC 9110) |
| `HttpServer.TagsName` | blob/httpblob/httpblob.go:1224-1232 | what is supposed of validators holds if each is made from the content alone, or not sent |
| `Answers.InOrderIffAligned` | blob/httpblob/httpblob.go:1301-1313 | the bytes handed out are those from the start on, one after the other, if and only if every answer that gave some begins where it was asked to |
| `Answers.CompleteIff` | blob/httpblob/httpblob.go:1301-1328 | at the end all have been handed out if and only if moreover the last answer goes as far as it should |
| `Tracking.FirstHolds` | blob/httpblob/httpblob.go:1238-1266 | the first response gives bytes of the version that answered, at the place that the reader's books say |
| `Tracking.ResumeTracks` | blob/httpblob/httpblob.go:1341-1367 | so does each answer to a resume, whatever contents the object has had in between |
| `Tracking.AtTheEnd` | blob/httpblob/httpblob.go:1301-1328 | when the end is reported, all has been handed out if and only if every answer began where it was asked to, the last one went as far as it was asked to, and the size behind the last request was that of the content being read |
| `Tracking.ReadWhole` | blob/httpblob/httpblob.go:1301-1338 | the step of `RangeReader.ReadAll`: against a server that sends every range in full, a Read after which all answers so far begin and end as asked leaves them so |
| `RangeReader.SliceBody` | blob/httpblob/httpblob.go:1234-1266 | a 206 is taken as it is, of a 200 that has them the first bytes are dropped, anything else is refused, and the size is told where it is known; what it must be says `Reads.ExpectedIs` |
| `RangeReader.NewRangeReader` | blob/httpblob/httpblob.go:1102-1202 | a reader is made, for the content that answered, exactly if the offset is not negative and the answer is usable; for no bytes at all, exactly if headObject does not fail |
| `Reads.OpensIff` | blob/httpblob/httpblob.go:1102-1266 | when a reader is made, of the server's decisions: the offset is not negative, the request gets through, and the answer is a part, with a byte at the offset, or the whole, of which the bytes before the offset can be read |
| `Reads.OpensEmptyIff` | blob/httpblob/httpblob.go:1102-1202 | and when one of no bytes is: HEAD is answered, or the GET of one byte in its stead |
| `Reads.ExpectedIs` | blob/httpblob/httpblob.go:1165-1190 | the size that a reader takes is the right one: for a negative length, if the first answer is a 206 with its total, or with its length and not shortened, or a 200 with its length, exactly the bytes from the offset to the end of the answering content are expected |
| `Reads.ReadGoesOn` | blob/httpblob/httpblob.go:1301-1338 | a Read during which the connection holds gives bytes or the end, never an error, and does not resume |
| `RangeReader.Reader.Read` | blob/httpblob/httpblob.go:1301-1338 | every byte handed out is one of the content being read, though contents may be replaced and come back; the bytes are the prefix of its slice if and only if every answer began where it was asked to; the end means that the slice is complete if and only if moreover the last answer went as far as it should and the size was right; offset + remaining is constant for a positive length, at most 3 * (bytes + 1) requests are ever made, and the loop gives just what the recursive definition of a Read says for the server's decisions |
| `Reads.ResumesIff` | blob/httpblob/httpblob.go:1341-1367 | a resume goes on exactly if the request gets through, the range is honoured and not past the end, and the content has the validator of the one being read |
| `Reads.RequestsOfRead` | blob/httpblob/httpblob.go:1301-1338 | the bound that always holds: one Read makes at most one request for each resume that is left, and one more if it delivers bytes; it can be maxResumes + 1 exactly as `Requests.ExceedsIff` says |
| `Requests.ExceedsIff` | blob/httpblob/httpblob.go:1301-1338 | however a reader has got to where it is: its next Read can make more than maxResumes requests, for some decisions of the server from there on, if and only if it may resume, has not just done so in vain, its buffer and body can give bytes, it expects two at least, or has read some and does not know how many follow, and the content that it reads goes on |
| `Requests.SomeServerExceedsIff` | blob/httpblob/httpblob.go:1301-1338 | the part of this condition that is about the reader's fields alone is exact if the server may be any |
| `ReadWitnesses.FourRequestsInOneRead` | blob/httpblob/httpblob.go:1304-1324 | the first Read of a reader just opened makes four requests: three resumes in vain, a byte that sets the count back, and a fourth resume |
| `ReadWitnesses.LateAnswerSkips` | blob/httpblob/httpblob.go:1243-1248 | an answer that begins later than asked: bytes are skipped, and the end is reported |
| `ReadWitnesses.ShortAnswerEnds` | blob/httpblob/httpblob.go:1243-1248 | one that ends earlier: the end is reported too soon |
| `ReadWitnesses.OtherSizeEnds` | blob/httpblob/httpblob.go:1165-1183 | a size learned from another content: the end is reported too soon, though every answer is as asked |
| `RangeReader.ReadAll` | blob/httpblob/httpblob.go:1301-1338 | opening a reader and reading to the end: against a server that sends every range in full, whatever is replaced, dropped and resumed in between, what has been read is at each moment the beginning of the slice of one content, and when the end is reported the whole of it, on places if and only if the size behind the last request was right, and always if a length was given or the first answer tells the size as in `Reads.ExpectedIs`, with nothing supposed of what the reader expects; the slice is written out in bytes |
| `RangeReader.Reader.ReadChunk` | blob/httpblob/httpblob.go:1302-1310 | the bytes are counted, and the count of resumes starts anew when there are some |
| `RangeReader.Reader.Resume` | blob/httpblob/httpblob.go:1341-1367 | a resume either fails or goes on with the same content, the books kept |
| `ReadWitnesses.SharedValidatorSplices` | blob/httpblob/httpblob.go:1224-1232 | why a validator must name one content: with one shared by two a resumed read can join bytes of both |
| `SftpPaths.RenderInjective` | blob/sftpblob/sftpblob.go:634-639 | with the reserved names refused, blobs, sidecars and temporary files of any keys never share a path |
| `SftpPaths.TempNamesDiffer` | blob/sftpblob/sftpblob.go:860-868 | the name of a temporary file tells its blob and its tag |
| `SftpPaths.PathsAre` | blob/sftpblob/sftpblob.go:860-868 | the names in full: a temporary file has ".gocdktmp." and the time in hexadecimal behind the key, a sidecar ".attrs" |
| `SftpPaths.ReservedAre` | blob/sftpblob/sftpblob.go:634-639 | and which paths are reserved: those that end in ".attrs" or contain ".gocdktmp." |
| `SftpPaths.UncheckedKeysClash` | blob/sftpblob/sftpblob.go:634-636 | without the check a key could be another blob's sidecar |
| `SftpFiles.RenameStepEffect` | blob/sftpblob/sftpblob.go:582-619 | each remote operation of commitRename leaves the source in place until it becomes the destination |
| `SftpFiles.ConditionalStep` | blob/sftpblob/sftpblob.go:582-597 | under IfNotExist a destination that is there stays as it is |
| `SftpFiles.GoodRename` | blob/sftpblob/sftpblob.go:582-619 | if all answers are good, commitRename is refused only under IfNotExist, by a destination that is there, as long as no plain rename is tried for a taken one |
| `SftpRuns.ProcStepOk` | blob/sftpblob/sftpblob.go:840-1206 | every step of every call keeps its temporary files what it thinks they are, commits nothing unchecked, and touches no other call's files |
| `SftpRuns.InvRun` | blob/sftpblob/sftpblob.go:840-1206 | so it is after every run, of any calls in any interleaving and with any failures |
| `SftpCommit.StartIs` | blob/sftpblob/sftpblob.go:860-868 | where these runs may start: any blobs and sidecars, any older temporary files, any calls |
| `SftpRuns.BlobsAreWhole` | blob/sftpblob/sftpblob.go:945-1206 | at any moment a blob is what was there at the start, or the whole of a write to its key with no failed chunk and the MD5 asked for, or the whole of what a copy has read, which again was written in full |
| `SftpQuiet.LeftBehindIff` | blob/sftpblob/sftpblob.go:671-1181 | in every run, a call that has ended, none of whose answers got lost and none of whose removals failed, leaves no temporary blob, and its temporary sidecar if and only if its blob was renamed and the sidecar was not, or it is a copy that failed to close the sidecar it had written |
| `SftpQuiet.NothingElseLeftBehind` | blob/sftpblob/sftpblob.go:671-1181 | so nothing else of temporary files is left at a key, but what was there at the start |
| `SftpRuns.CancelledFails` | blob/sftpblob/sftpblob.go:945-1181 | a write or copy whose context is cancelled before it comes to commit puts nothing into place and never returns without an error, in every run |
| `SftpErrors.FailingAnswer` | blob/sftpblob/sftpblob.go:671-1206 | which errors count: every operation that does not get the answer that it was done, and every chunk not written, makes its call clean up and fail; passed over are only removals of temporary files and of the sidecar in Delete, and the look whether a destination is there |
| `SftpErrors.ErrorsAreReported` | blob/sftpblob/sftpblob.go:671-1206 | no such error is swallowed: in every interleaved run a call that has met one never returns without an error |
| `SftpWitnesses.CopyLeavesSidecar` | blob/sftpblob/sftpblob.go:671-685 | a copy whose sidecar cannot be closed: it fails with its blob not renamed, all answers are heard and no removal fails, and the temporary sidecar stays |
| `SftpWitnesses.OvertakenSidecarStays` | blob/sftpblob/sftpblob.go:599-618 | that may happen with good answers only: of two writers on a server without posix-rename the one that is overtaken before its last rename leaves its sidecar |
| `SftpConditional.OncePresentItStays` | blob/sftpblob/sftpblob.go:575-597 | with only conditional writes on a key, a blob once present never changes, in any interleaving |
| `SftpConditional.AtMostOneSucceeds` | blob/sftpblob/sftpblob.go:575-597 | of any number of them at most one succeeds, and none if the blob was there |
| `SftpConditional.LosersTouchNothing` | blob/sftpblob/sftpblob.go:1047-1093 | a step of a writer that has not won changes neither blob nor sidecar, unless the answer that it won got lost |
| `SftpConditional.WinnerTakesAll` | blob/sftpblob/sftpblob.go:1047-1093 | at rest, if no answer to the calls on the key got lost: either one writer has won, the blob is its bytes, and it returns no error if and only if the sidecar is its own too; or none has, and both are as they were |
| `SftpWitnesses.WinnerWithoutSidecar` | blob/sftpblob/sftpblob.go:1089-1092 | a winner whose sidecar was refused: the blob is there without it |
| `SftpConditional.SomeoneSucceeds` | blob/sftpblob/sftpblob.go:582-597 | if all answers to the calls on the key were good and a writer came to commit, one of them has won and returned no error, unless the blob was there from the start |
| `SftpConditional.ClobberingLetsTwoSucceed` | blob/sftpblob/sftpblob.go:583-597 | where plain renames replace the destination, the look beforehand does not help: two writers can both succeed |
| `SftpSequential.CallThatSucceeds` | blob/sftpblob/sftpblob.go:1047-1206 | a call without error has done its work: all bytes and their MD5, or the bytes and attributes of the source, or no blob; and nothing happened to other keys |
| `SftpSequential.ConsistentKept` | blob/sftpblob/sftpblob.go:599-619 | a call keeps "every blob has a sidecar with the MD5 of its bytes" if it returns no error, with posix-rename as with the fallback, and also if it fails, as long as none of its answers got lost and its blob was not renamed without its sidecar |
| `SftpSequential.SidecarsStayTrue` | blob/sftpblob/sftpblob.go:1047-1206 | after any writes, copies and deletes without error from an empty bucket every blob has a sidecar with the MD5 of its bytes |
| `SftpSequential.SidecarMayStayBehind` | blob/sftpblob/sftpblob.go:1089-1092 | a write whose sidecar cannot be renamed returns an error and leaves the new blob without it |
| `SftpHealthy.SucceedsIff` | blob/sftpblob/sftpblob.go:967-1206 | if all answers are good, a call that has ended has succeeded if and only if it should: the MD5 is the one asked for and a conditional write's key was free, the copied blob was there with a readable sidecar, the deleted blob was there |
| `SftpHealthy.WriteSucceedsIff` | blob/sftpblob/sftpblob.go:967-1093 | written out for a write: no MD5 is asked for or it is that of the bytes, and the key is free or need not be |
| `SftpHealthy.CopySucceedsIff` | blob/sftpblob/sftpblob.go:1095-1181 | for a copy: the blob is there, with a sidecar that can be read if it has one |
| `SftpHealthy.DeleteSucceedsIff` | blob/sftpblob/sftpblob.go:1183-1206 | for a delete: the blob is there |
| `SftpHealthy.GoodCallDoes` | blob/sftpblob/sftpblob.go:967-1206 | with good answers only a call that succeeds leaves exactly the old files with its blob and its sidecar put or taken, and one that fails leaves the files as they were, temporary ones included |
| `SftpBucket.Bucket.CommitRename` | blob/sftpblob/sftpblob.go:582-619 | the method with its latch and fallback is a run of the steps above, good ones if all answers were, with the state of the call afterwards |
| `SftpBucket.Bucket.SetAttrs` | blob/sftpblob/sftpblob.go:671-685 | creating, writing and closing the sidecar are steps of the call; a failure to write removes it again, one to close does not |
| `SftpBucket.Writer.Write` | blob/sftpblob/sftpblob.go:945-965 | a chunk goes into the file and the running hash; a failed or cancelled one cannot be committed |
| `SftpBucket.Writer.Close` | blob/sftpblob/sftpblob.go:967-1093 | Close is a run of one call to its end; success implies no failed chunk, no cancellation and the right MD5; a second Close changes nothing |
| `SftpBucket.NewTypedWriter` | blob/sftpblob/sftpblob.go:840-928 | opening the exclusive temporary file is the first step of a call |
| `SftpBucket.Copy` | blob/sftpblob/sftpblob.go:1095-1181 | Copy is a run of one call to its end |
| `SftpBucket.Delete` | blob/sftpblob/sftpblob.go:1183-1206 | Delete is a run of one call to its end; on success the blob is gone |
| `SftpBucket.CallGives` | blob/sftpblob/sftpblob.go:1047-1206 | so what is proved of calls holds of these objects: what success means, and, with good answers, when a write, a copy and a delete succeed, written out, and what the files are then |
| `SftpBucket.WriteAll` | blob/sftpblob/sftpblob.go:840-1093 | a write from opening to Close without error leaves exactly the data given and keeps all sidecars right; with good answers it has no error if and only if no MD5 is asked for or it is that of the data, and the key is free or need not be, and the files are then the old ones with blob and sidecar put, or else just the old ones |

## Left out

- Escape: invalid UTF-8; strings are sequences of code points, for which byte order and code point order agree. `URLEscape` and the test strings.
- Walk.StartIsEnough: requires a clean start directory, as `Walk.PrunedWalkIsReference` does.
- Walk.PrunedWalkIsReference: requires a clean start directory; for all other prefixes see `Prefixes.PageIsRight` and `PrefixWitnesses.AlwaysRightIff`.
- Prefixes.PageIsRight: for prefixes whose directory part is not clean this is the SFTP backend, which builds keys from the path that it reads; the WebDAV backend takes them from the server's answers, where such prefixes match nothing.
- WalkCost.PageCost: requires a clean start directory; what a page costs that is read by another path is not stated.
- Walk.ListPage: a path that names a blob reads as a missing directory; other errors of readDir, redirects and the entry of the directory itself in a PROPFIND answer are not modelled, and the tree does not change during a listing.
- Lister.ListPaged: times, MD5 values and the `As` functions of listed objects, and the hook before the first request.
- WrittenTree.WrittenBucket: keys with segments "." or ".." and keys with escaped slashes, which such trees cannot hold as the listing needs them.
- UploadSteps.RunSound: an operation is done or not done; one that is done with its answer lost is the call stopping there. A listing is one operation, though the code pages. Random upload IDs do not repeat.
- UploadCommits.CommitAfterAnyRun: what a Commit publishes while other calls write to its upload is what it read of each part in turn, and not stated further.
- Uploader.BucketUploader.Commit: the methods run by themselves on a store whose operations succeed; failures and interleavings are those of `UploadSteps`.
- Uploader.Open: the JSON of manifests is a document value; what does not parse is one error.
- Multipart: `ContentMD5` of the options at Commit, paging of List while objects are deleted, and the object names of provider SDKs. s3mp and azmp are not part of this model.
- GcsUploader.Uploader.Commit: deletions of staged objects succeed.
- RangeReader.Server.Do: retries, redirects, authentication and the statuses other than 200 and 206 are one kind of failure; an empty or multipart 206 is not modelled.
- RangeReader.NewRangeReader: the attributes that a sidecar holds are not fetched; opening fails too if that fails.
- RangeReader.Reader.Read: int64 overflow of offsets.
- SftpFiles.Rename: error codes only as far as the code branches on them; creating directories is part of opening the temporary file.
- SftpCommit: a file that is open is not renamed away under its reader; clocks never show one nanosecond twice, so that temporary names differ. The content of a blob changes by renames only. A sidecar is its MD5 and one text for all other attributes; MD5 is any function.
- SftpSequential.ConsistentKept: a Rename that fails after Remove loses the previous blob in the fallback; the statement allows that, as no blob then lacks its sidecar.
- SftpBucket.Writer.Close: the two writer types are one class that looks at the bucket's option; cancellation is a flag that is set between calls, and at any step in `SftpCommit`.
- The uploads of httpblob (temporary name and MOVE), attributes, signed URLs, `OpenBucketURL`, and everything about the network, XML, SSH and user agents.
