# Verification of the filehash store

This project models the `filehash` library, a key/data store on disk that hashes linearly, and proves
its main promises in Dafny. It has four parts.

1. **The store** (`Store`, with `Levels`, `Pages`, `Lengths`, `StoreInv`, `Alloc`, `BaseLemmas`,
   `DataLemmas`, `DataSteps`, `Rewrite`, `KeyLemmas`, `Split`, `ChainRows`, `Sizing`, `Info`, `Spec`,
   `Cursors`, `Oversize`). A `HashTable` holds the file header, the current data page and a map from page numbers to
   pages. Data pages are byte memory with typed headers in it, so that a header overwritten by data is
   lost; key pages are sequences of entries with the offset arithmetic of the file; free-list pages hold
   page numbers. Ghost fields give each page a role (on the chain of a bucket, data, free list, listed as
   free, or in the hands of an operation), each key its entry and each datum its pages and parts. `Run`
   refines a finite map, and `History` does so over closing and opening the file. `ChainRows` says which
   entry is on which page of which chain, before and after puts and splits.
2. **Relocation** (`Relocate`, `StaleHeads`, `SpoiledLinks`, `Reopen`, `Losses`, `HeadExample`). On close, pages at the end of the file move to bucket pages that
   are not reached yet, and back on open. The result is compared with a renaming of the page graph.
   What the links of free-list heads may do to it is said exactly, page by page (`SpoiledLinks`) and key by
   key (`Losses`).
3. **The page pool** (`PagePool`, `PoolInv`, `PoolRuns`, `MergeSort`). A `Pool` holds the LRU queue, the hash chains, the
   buckets and the file. What a thread does under the lock is one step; `Interleave` runs any sequence
   of steps of any threads, does each to the state it finds, and compares the events with a lock with a
   queue for each page and with an uncached page map.
4. **Kernels** (`Crc32`, `HashFunc`, `Bits`). The CRC-32 is the one in section 8 of RFC 1952.

The source is imperative throughout, so its operations are methods, the objects that they change are
classes, and loops are loops. Each method is proved against a specification function or predicate, and what the
source promises is proved about that.

## What the code needs of its callers

These are preconditions in the model because the code does not handle what they exclude.

- A table starts with at least two buckets: with one, the low mask wraps to all ones
  (`filehash/ffdb_hash.c:614-615`).
- A put that stores has a key of at most bsize-59 bytes. The check of the code
  (`filehash/ffdb_page.h:355`) lets three bytes more pass; `Oversize.NewKeyFound` says exactly when such a
  key is found afterwards, and `ChainRows.SplitFinds` what a split does to it. Larger keys are refused, in
  the code and in the model.
- A put does not replace a value of 4 GB or more by one below 4 GB: the high length bits stay
  (`filehash/ffdb_page.c:1722-1731`); `Lengths.ReplacedPointerDecodes` gives the exact condition.
- The table has room to grow: its level stays below the last entry of the spares array. A run states it
  as a bound of 2^29 buckets.
- Moving pages on close needs a data page on the current level (`filehash/ffdb_page.c:2389`) and free-list heads
  that remember nothing harmful, since taking an empty list page leaves the PREV link of the next one
  (`filehash/ffdb_page.c:967`); `StaleHeads.CloseExact` gives the exact condition, `MayMove`
  decides it, and `Losses.WhatIsLost` says which keys are lost otherwise.
- A thread does not get a page that it holds (`filehash/ffdb_pagepool.c:1242-1251`), and a page created or
  renumbered to is not in memory (`filehash/ffdb_pagepool.c:893-897`).
- A cursor that has reported not found is next moved by FIRST or LAST, since it has no page any more
  (`filehash/ffdb_page.c:2870-2883`).
- Content that differs is put dirty. A page changed and put clean may be lost on eviction.

## Model

| member | source | states |
|---|---|---|
| `Bits.CeilingLog` | filehash/ffdb_hash_func.c:286-295 | the doubling loop returns the ceiling of the base-2 logarithm, for arguments up to 2^31 |
| `Bits.Log2IsCeiling` | filehash/ffdb_hash_func.c:286-295 | that logarithm is the least power of two not below the argument |
| `Levels.HashInRange` | filehash/ffdb_hash.c:1046-1061 | every hash value selects a bucket that exists |
| `Levels.HashIs` | filehash/ffdb_hash.c:1046-1061 | the bucket of a hash value is its remainder modulo two to the level if that bucket exists, and modulo half of that otherwise |
| `Levels.OvflPointIsLog` | filehash/ffdb_hash.c:1068-1129 | the level of the table is the ceiling logarithm of its number of buckets |
| `Levels.SplitBucketRange` | filehash/ffdb_hash.c:1068-1129 | the bucket to split exists, lies below the new one, and is the new one modulo half the table |
| `Levels.GrowMasks` | filehash/ffdb_hash.c:1068-1129 | an expansion keeps low_mask < max_bucket <= high_mask, both masks one less than consecutive powers of two, and the level the ceiling logarithm |
| `Levels.GrowMovesOnlySplit` | filehash/ffdb_hash.c:1046-1129 | an expansion changes the bucket of a hash value only from the split bucket to the new one |
| `Levels.BucketPageInjective` | filehash/ffdb_hash.h:245-249 | two buckets up to high_mask never have the same page |
| `Levels.BucketPageRange` | filehash/ffdb_hash.h:245-249 | every bucket page lies after the header pages and before the pages of the current level |
| `Levels.BucketPageIs` | filehash/ffdb_hash.h:245-249 | bucket 0 has the first page behind the header; the buckets from 2^(l-1) to 2^l - 1 have the pages from spares[l] on, in order |
| `Levels.PoolIsNotBucket` | filehash/ffdb_page.c:1039-1075 | a page number of any overflow range is neither a header page nor a bucket page of any level reached |
| `Levels.SetTopKeeps` | filehash/ffdb_page.c:1039-1075 | handing out the next page number of a level moves no bucket and takes no page from an earlier range |
| `Levels.GrowKeeps` | filehash/ffdb_hash.c:1068-1129 | an expansion that opens a level keeps the page of every bucket and every overflow range |
| `Crc32.InitTable` | filehash/ffdb_hash_func.c:353-367 | filling the table by doubling and exclusive-or gives at each index the eight bit-steps of the CRC-32 division of RFC 1952, section 8 |
| `Crc32.Checksum` | filehash/ffdb_hash_func.c:374-381 | the table-driven loop equals the bit-at-a-time CRC-32 of the buffer, for every start value |
| `Crc32.KnownSums` | filehash/ffdb_hash_func.c:344-381 | the checksums of the empty buffer, of the byte 0xff and of the byte 0x7f, and the table entry 128, which is the polynomial 0xedb88320 |
| `Crc32.StepsByTable` | filehash/ffdb_hash_func.c:374-381 | eight bit-steps are one shift by a byte and one table lookup |
| `Crc32.CrcAppend` | filehash/ffdb_page.c:193-205 | checksumming two pieces in sequence equals checksumming their concatenation |
| `Crc32.ByteStepInjective` | filehash/ffdb_hash_func.c:374-381 | a byte step is injective in the running value and in the byte |
| `Crc32.FoldInjective` | filehash/ffdb_hash_func.c:374-381 | a whole buffer maps different running values to different ones |
| `Crc32.OneByteErrorDetected` | filehash/ffdb_hash_func.c:374-381 | buffers of equal length that differ in one byte have different checksums |
| `Crc32.StoredSumChecks` | filehash/ffdb_page.c:193-205 | storing the checksum in its field does not change the checksum of the page |
| `Crc32.PageErrorDetected` | filehash/ffdb_page.c:193-205 | a page with one wrong byte outside the checksum field has another checksum |
| `HashFunc.HamFunc3` | filehash/ffdb_hash_func.c:130-175 | the loop entered in the middle equals the left fold of 65599*h+byte modulo 2^32 |
| `HashFunc.HamFunc4` | filehash/ffdb_hash_func.c:185-232 | the same for 33*h+byte, computed by shift and add |
| `HashFunc.PassesCover` | filehash/ffdb_hash_func.c:145-146 | the 32-bit number of passes covers the key exactly when its length is at most 2^32-8 |
| `HashFunc.DefCmp` | filehash/ffdb_hash_func.c:301-323 | the sign of the result is the lexicographic order of the keys, and zero means equal keys |
| `HashFunc.BeforeTotal` | filehash/ffdb_hash_func.c:301-323 | that order is total and strict |
| `HashFunc.BeforeTransitive` | filehash/ffdb_hash_func.c:301-323 | that order is transitive |
| `Sizing.NumConfigPages` | filehash/ffdb_hash.c:521-535 | the fewest pages that hold the configurations |
| `Sizing.NumUinfoPages` | filehash/ffdb_hash.c:564-578 | the fewest pages that hold the user information and its length word |
| `Sizing.HeaderPages` | filehash/ffdb_hash.c:560-593 | header, user-information and configuration pages follow one another without gap or overlap, each range just large enough |
| `Sizing.InitHtab` | filehash/ffdb_hash.c:543-624 | a new file is tiled by header, user-information, configuration and bucket pages, buckets in order, their number the least power of two not below the request |
| `Sizing.InitSpares` | filehash/ffdb_hash.c:595-604 | each level of the new table starts where the level below ends |
| `Sizing.FreshStore` | filehash/ffdb_hash.c:543-624 | a new file satisfies the invariant of the whole store |
| `Info.InfoPages.constructor` | filehash/ffdb_hash.c:560-593 | the page ranges of a new file satisfy what reading and writing them need |
| `Info.InfoPages.SetUinfo` | filehash/ffdb_page.c:2662-2711 | the pages joined begin with the data, as far as they reach, and the first records its length |
| `Info.InfoPages.GetUinfo` | filehash/ffdb_page.c:2718-2769 | returns what the joined pages begin with, of the recorded length, or refuses exactly when the buffer is too small |
| `Info.InfoPages.SetThenGet` | filehash/ffdb_page.c:2662-2769 | user information up to uinfolen bytes is read back unchanged; beyond the room of the pages the buffer is left as it was |
| `Info.JoinedSize` | filehash/ffdb_page.c:2662-2769 | n pages hold n page bodies less the length word of the first |
| `Info.InfoPages.SetConfigs` | filehash/ffdb_page.c:2524-2561 | the configuration pages read in order are the list set, whatever they held |
| `Info.InfoPages.GetConfigs` | filehash/ffdb_page.c:2565-2592 | the list is read page after page, so setting then getting returns it |
| `Info.InfoPages.SetConfigInfo` | filehash/ffdb_page.c:2596-2623 | replaces the first entry with the same index and number and nothing else; fails exactly when there is none |
| `Lengths.InsertedLenDecodes` | filehash/ffdb_page.h:80-104 | a length below 2^40 split over the length and the offset or status field decodes to itself and leaves the other bits of the field |
| `Lengths.PlainLenDecodes` | filehash/ffdb_page.h:80-104 | a length below 2^32 needs no high bits |
| `Lengths.ReplacedPointerDecodes` | filehash/ffdb_page.c:1722-1731 | after a replacement the data pointer decodes to the new length if and only if the new length is huge or the old one was not |
| `Lengths.ReplacedDecodes` | filehash/ffdb_page.c:1722-1731 | in every allowed replacement the pointer decodes to the new length and keeps its offset |
| `Lengths.StaleHighBits` | filehash/ffdb_page.c:1722-1731 | a one-byte value put over one of 2^32 bytes decodes to 2^32+1 bytes |
| `BaseLemmas.PagesApart` | filehash/ffdb_page.c:930-1075 | a page in use is no header page, and is the page of a bucket exactly when it is the base page of that bucket |
| `BaseLemmas.TopIsNew` | filehash/ffdb_page.c:1039-1075 | a page number not below the top was never in use |
| `Alloc.PopEntry` | filehash/ffdb_page.c:930-974 | taking the last entry of a free-list page leaves all free lists in order and frees no other page |
| `Alloc.PopMap` | filehash/ffdb_page.c:930-974 | taking an empty free-list page itself moves the head to the next one and keeps the lists |
| `Alloc.PushEntry` | filehash/ffdb_page.c:1191-1318 | entering a page on a free-list page keeps every page listed once |
| `Alloc.PushLastMap` | filehash/ffdb_page.c:1191-1318 | a freed page chained as a further free-list page keeps the lists |
| `BaseLemmas.BaseNewPage` | filehash/ffdb_page.c:1039-1075 | the next page number of the level is new, and in the overflow range of the level from then on |
| `BaseLemmas.BaseStartLevel` | filehash/ffdb_page.c:987-1028 | a level whose overflow range is not started begins right behind its last bucket page |
| `Store.HashTable.ReuseFreeOvflPage` | filehash/ffdb_page.c:930-974 | returns no page if and only if the free list of the level is empty; otherwise the last entry of the first list page, or that list page itself when it has no entry; exactly that page leaves the set of free pages |
| `Store.HashTable.FreeOvflPage` | filehash/ffdb_page.c:1191-1318 | adds exactly the freed page to the free list of its own level: as the last entry of the first list page with room, where a list page has room for less than (bsize-28)/4 - 1 entries, or as a new list page at the end when none has; writes no page but the free lists |
| `Store.HashTable.LevelOf` | filehash/ffdb_page.c:1206-1213 | finds the level whose page range holds the freed page |
| `Store.HashTable.StartLevel` | filehash/ffdb_page.c:987-1075 | reserves the page directly behind the bucket pages of the level as its first data page, once, and starts the counter behind it |
| `Store.HashTable.TakePage` | filehash/ffdb_page.c:987-1075 | returns a free page if and only if the free list of the level is not empty, and otherwise the next page number of the level, which it counts up by one; never a page in use |
| `Store.HashTable.DataPageNumber` | filehash/ffdb_page.c:987-1028 | the page for the next datum: the current one, or a page taken from the free lists or the end |
| `Store.HashTable.OvflPageNumber` | filehash/ffdb_page.c:1039-1075 | the page for an overflow: taken from the free lists or the end, with the data page of the level reserved first |
| `DataLemmas.PlaceSlot` | filehash/ffdb_page.c:557-781 | a datum placed at the free position keeps the chain of headers of the page and everything in front of it |
| `DataLemmas.AllDataGrown` | filehash/ffdb_page.c:557-781 | every datum stored before keeps its bytes, its headers and its back-pointers when pages grow |
| `DataSteps.LaterPartsAdd` | filehash/ffdb_page.c:696-751 | one more continuation page extends the datum by exactly the bytes copied to it |
| `DataSteps.FinishDatum` | filehash/ffdb_page.c:557-781 | writing the first page last completes the datum: length, bytes, links and back-pointer |
| `Store.HashTable.OpenDataPage` | filehash/ffdb_page.c:578-617 | the page that takes the datum is the current data page while that has free space, and a free or new page otherwise; it has room for a header at least |
| `Store.HashTable.AddData` | filehash/ffdb_page.c:557-781 | a value of any length at any offset is stored over as many pages as it needs; the pointer and the header decode to its length, the header points back to the key, and all other data stay. The datum starts at the free space of the current page if there is any and else at byte 32 of a free or new page, lies on one page if it fits, fills every page but its last, and leaves free exactly what is behind it from the next multiple of four if a header fits there |
| `Store.HashTable.AddContinuation` | filehash/ffdb_page.c:675-769 | the parts on the continuation pages and on the first page concatenate to the value, and the last page is the current one with the rest of it free if a header fits there |
| `Store.HashTable.PlaceContinuation` | filehash/ffdb_page.c:696-751 | a continuation page is linked both ways, takes as much as fits and keeps the rest free if a header fits there |
| `Store.HashTable.WriteFirstPart` | filehash/ffdb_page.c:653-769 | the datum is complete once its first part and header are written |
| `Store.HashTable.GetData` | filehash/ffdb_page.c:416-541 | the loop over the pages returns exactly the stored bytes, or reports a buffer that is too small |
| `Store.HashTable.UpdateDataInfo` | filehash/ffdb_page.c:892-923 | sets the back-pointer of one datum and of no other |
| `Rewrite.RewriteOtherPart` | filehash/ffdb_page.c:795-883 | writing into the bytes of one part changes no other part, even on the same page |
| `Rewrite.RewriteOthers` | filehash/ffdb_page.c:795-883 | a rewrite leaves all other data, their headers and all links as they were |
| `Rewrite.RepointDatum` | filehash/ffdb_page.c:892-923 | changing a back-pointer keeps all data |
| `Rewrite.FinishReplace` | filehash/ffdb_page.c:795-883 | a replaced datum reads as the new bytes, with its place and back-pointer unchanged |
| `Store.HashTable.ReplaceData` | filehash/ffdb_page.c:795-883 | a value no longer than the old one replaces it in place; all other data and links stay |
| `Store.HashTable.ReplaceLater` | filehash/ffdb_page.c:834-881 | the later pages take the rest of the new value, in order |
| `KeyLemmas.EmptyPageFits` | filehash/ffdb_page.h:221-235 | a key fits on an empty page if and only if it is at most bsize-59 bytes long |
| `KeyLemmas.PageLaidOut` | filehash/ffdb_page.h:221-235 | on every key page the 28 + 12n bytes of header and index end below the lowest data pointer; each data pointer is four-byte aligned, has 16 bytes and lies below its key, each key ends within the page, and no two pairs overlap |
| `KeyLemmas.PairFitsMeans` | filehash/ffdb_page.h:221-235 | a pair fits if and only if 28 + 12(n+1) bytes and the 19 + ksize bytes of the pair are at most the lowest byte used |
| `KeyLemmas.ChainLaidOut` | filehash/ffdb_page.c:1570-1659 | both hold for every page of every chain of a sound store |
| `KeyLemmas.KeyOnChain` | filehash/ffdb_page.c:1403-1503 | a stored key lies on the chain of the bucket its hash selects |
| `KeyLemmas.KeyInBucket` | filehash/ffdb_page.c:1403-1503 | a stored key lies on the chain of the bucket that the remainder of its hash value gives |
| `KeyLemmas.EntryIsKey` | filehash/ffdb_page.c:1403-1503 | every entry met on a chain is a stored key whose pointer leads to its datum and whose datum leads back to the entry |
| `KeyLemmas.StateInsert` | filehash/ffdb_page.c:1570-1659 | an entry added to a page that has room keeps chains, layout, pointers and back-pointers |
| `KeyLemmas.StateExtend` | filehash/ffdb_page.c:1775-1824 | an overflow page with one entry chained behind a non-empty page keeps them |
| `KeyLemmas.StateReplace` | filehash/ffdb_page.c:1668-1742 | a changed data pointer keeps them |
| `Store.HashTable.FindItem` | filehash/ffdb_page.c:1403-1503 | searches the chain of the bucket that the remainder of the hash value gives; finds a key exactly when it is stored, at its place on a page of that chain, and else stops at the last page of the chain |
| `Store.HashTable.AddItemOnPage` | filehash/ffdb_page.c:1570-1659 | the pair is stored at the end of a page that has room for it, which changes in this way only, and on no other page of any chain; the datum points back to it |
| `Store.HashTable.AddOvflPage` | filehash/ffdb_page.c:1775-1824 | the pair is stored on a new page linked behind the last page of the chain; the entries of all other chain pages stay |
| `Store.HashTable.ReplaceItemOnPage` | filehash/ffdb_page.c:1668-1742 | the map changes at this key only, exactly when the value is not longer than the old one; otherwise no page changes |
| `Split.NewBucketPage` | filehash/ffdb_hash.c:1068-1129 | the page of the new bucket was not in use |
| `Split.BaseGrow` | filehash/ffdb_hash.c:1068-1129 | the allocator stays sound over an expansion, with or without a new level |
| `Split.DetachKeys` | filehash/ffdb_page.c:1988-2048 | with the old chain taken out and two empty base pages, all other keys are still found in the enlarged table |
| `Split.SplitStart` | filehash/ffdb_page.c:1988-2048 | the store is sound at the start of the redistribution, with exactly the pairs of the split bucket pending |
| `Split.PendingStep` | filehash/ffdb_page.c:1988-2048 | re-inserting one pair leaves exactly the rest pending, although freed pages are reused at once |
| `Split.PairsBack` | filehash/ffdb_page.c:1988-2048 | once nothing is pending the pairs are those before the split |
| `Store.HashTable.AddKeyDatapToBucket` | filehash/ffdb_page.c:1887-1979 | the pair goes to the first page of the chain of its bucket that has room, or to a new page at the end; no other entry moves, and its datum points back to it |
| `Store.HashTable.WriteKeyDatapToPage` | filehash/ffdb_page.c:1832-1877 | the pair is added at the end of a page with room, no other entry moves, and its datum points back to it |
| `Store.HashTable.MovePairs` | filehash/ffdb_page.c:1988-2048 | the pairs of one page of the old chain are put back in order, each by first fit in the bucket its hash selects now |
| `Store.HashTable.SplitBucket` | filehash/ffdb_page.c:1988-2048 | a split ends and conserves the key/data-pointer pairs; the entries of every page of every chain afterwards are those of putting the old chain back in order by first fit into two empty buckets |
| `ChainRows.FirstFitAt` | filehash/ffdb_page.c:1887-1979 | first fit is the first page none before which has room, with the pair at its end, or a new page behind all |
| `ChainRows.PutBackBucket` | filehash/ffdb_page.c:1988-2048 | a bucket that a split starts empty ends up with exactly its own pairs, filled in the old order; a bucket that gets none stays as it was |
| `Store.HashTable.ExpandTable` | filehash/ffdb_hash.c:1068-1129 | an expansion adds one bucket, conserves the pairs and redistributes those of the split bucket in order |
| `Store.HashTable.constructor` | filehash/ffdb_hash.c:543-624 | a new store is sound, holds the empty map and records no page as moved |
| `Store.HashTable.InsertItem` | filehash/ffdb_hash.c:1279-1313 | a new key gets its value; if the last page of the chain has room the pair goes there and the table keeps its buckets; if not the pair goes on a new page behind, one bucket is added, and the rows of all buckets are those of the split |
| `Store.HashTable.Put` | filehash/ffdb_hash.c:1197-1337 | a put refines the update of a finite map, with every refusal in the order of the code; the table grows by one bucket if and only if a new key is stored that does not fit on the last page of its chain |
| `Store.HashTable.Get` | filehash/ffdb_hash.c:1140-1190 | a get answers from the map: the value, not found, or a buffer that is too small |
| `Store.HashTable.Run` | filehash/ffdb_hash.c:1139-1337 | every run of puts and gets answers as the map does, through all overflows and splits, and nkeys is the number of keys; each reply is also stated in terms of the replies before it: a put is stored, or refused for its size, flag, store, key that exists or longer value, and a get finds the value, exactly in the cases of the code |
| `Store.HashTable.History` | filehash/ffdb_hash.c:264-1337 | a history of runs and of closing and opening the file, with or without moving pages, answers as one run of the map over all operations, each reply is what the replies before it make it, and nkeys is the number of keys; it is followed up to the first close that would move pages of a store whose free lists remember harmful pages or that has no data page on its level, and that command is named |
| `Spec.RunAppend` | filehash/ffdb_hash.c:1139-1337 | a run after a run is one run of both |
| `Spec.AnswersAppend` | filehash/ffdb_hash.c:1139-1337 | and its replies are those of both |
| `Spec.RepliesMean` | filehash/ffdb_hash.c:1139-1337 | with the value of the last put of the key answered with Stored as what it holds: NOOVERWRITE is answered KeyExists if and only if it holds one, a put without flag is Stored if and only if it holds none or one that is not shorter, a store for reading refuses every put, and a get with a large enough buffer finds exactly that value |
| `Spec.RefusedLeavesNoTrace` | filehash/ffdb_hash.c:1314-1323 | an operation not answered with Stored can be taken out of a run and all other replies stay |
| `Spec.LastPutWins` | filehash/ffdb_hash.c:1197-1337 | after any run on an empty store a key holds the value of the last put stored for it, and only such keys are there |
| `Spec.ValuesShrink` | filehash/ffdb_page.c:795-883 | over any run a key stays and the length of its value never grows |
| `Oversize.AcceptedAndLost` | filehash/ffdb_page.h:355-357 | in any sound store a put into a bucket with an empty base page accepts a key and a search then misses it if and only if the key has bsize-58 to bsize-56 bytes |
| `Oversize.SearchFindsKeys` | filehash/ffdb_page.c:1403-1503 | in a sound store the same search meets a key if and only if it is stored |
| `Oversize.SearchIsRows` | filehash/ffdb_page.c:1403-1503 | on any linked chain the search over pages meets what the rows of entries hold, unless the base page is empty |
| `Oversize.PutIsRows` | filehash/ffdb_page.c:1775-1824 | a put of a new key of any accepted size keeps the chain linked and laid out, and places the pair on the last page, or on a page linked behind it; an empty base page loses what was linked behind |
| `Oversize.PutSearch` | filehash/ffdb_hash.c:1273-1305 | on any linked chain a put of a new key of any accepted size adds to what searches find exactly its own key, if that fits on an empty page or the base page has an entry, and nothing otherwise |
| `Oversize.NewKeyFound` | filehash/ffdb_hash.c:1273-1305 | in any sound store and bucket a new key that a put accepts is found afterwards if and only if it fits on an empty page or the base page of its bucket has an entry |
| `ChainRows.PutsFind` | filehash/ffdb_hash.c:1273-1305 | after any puts of keys of any size into one bucket without a split, a search finds a key if and only if it was put and, by then, some key was put that fits on an empty page |
| `ChainRows.SplitFinds` | filehash/ffdb_page.c:1988-2048 | after a split a search finds the keys that belong in a bucket if one of them fits on an empty page, and none of them otherwise |
| `ChainRows.SplitLoses` | filehash/ffdb_page.c:1988-2048 | a key too large for an empty page that shares its bucket with a small one is found, and is lost when a split separates them |
| `Cursors.Cursor.FindFirst` | filehash/ffdb_page.c:2783-2826 | finds the first stored key in bucket, page and slot order, or none in an empty store |
| `Cursors.Cursor.FindLast` | filehash/ffdb_page.c:2827-2869 | finds a key with none behind it in the order of PREV |
| `Cursors.Cursor.FindNext` | filehash/ffdb_page.c:2870-2941 | goes to the next key with none skipped, across empty buckets and overflow chains, or reports the end exactly when there is none |
| `Cursors.Cursor.FindPrev` | filehash/ffdb_page.c:2942-3008 | the same backwards |
| `Cursors.Cursor.Current` | filehash/ffdb_page.c:3014-3049 | the pair under the cursor is a stored key with its value |
| `Cursors.Cursor.Move` | filehash/ffdb_hash.c:1587-1619 | the first NEXT or PREV of a clean cursor starts at the first or last key |
| `Cursors.Cursor.Walk` | filehash/ffdb_hash.c:1587-1619 | repeated NEXT, and likewise repeated PREV, visits every stored pair exactly once, in the order of buckets, pages and entries, and then reports not found |
| `Cursors.Cursor.Compare` | filehash/ffdb_page.c:2775-3049 | the cursor orders any two different keys one way |
| `Relocate.PageFile.UpdateKeyPagesContent` | filehash/ffdb_page.c:2121-2178 | every key entry that led to the moved data page leads to its new number, and every header of the page that named a moved key page names its new number |
| `Relocate.PageFile.UpdateDataPagesContent` | filehash/ffdb_page.c:2059-2106 | every data header on an unmoved page that named the moved key page names its new number |
| `Relocate.PageFile.MovePage` | filehash/ffdb_page.c:2227-2360 | moves one page to its new number and tells every page that refers to it, as the function for one move says |
| `Relocate.PageFile.MovePages` | filehash/ffdb_page.c:2227-2360 | moves the pages of one kind in ascending order, and reports whether one of them was a data page without successor |
| `Relocate.MoveOneKeeps` | filehash/ffdb_page.c:2227-2360 | the picture of a partly moved graph is kept by each step |
| `Relocate.AllMoved` | filehash/ffdb_page.c:2227-2360 | when all are moved every reference is renamed once: PREV, NEXT, current page, datap.first and key_page, on moved and unmoved pages |
| `Relocate.PageFile.MoveAll` | filehash/ffdb_page.c:2368-2427 | moves data pages, then bucket pages, then free-list pages, and reports whether a data page without successor was among them |
| `Relocate.GraphMoves` | filehash/ffdb_page.c:2368-2427 | on a page graph the three passes rename every page and reference by old-to-new page number, exactly |
| `Relocate.RenKeepsGraph` | filehash/ffdb_page.c:2227-2360 | the renamed pages are again a graph whose links agree both ways |
| `Relocate.CloseMoveOk` | filehash/ffdb_page.c:2368-2427 | the pages moved on close are the last of the file; they go to the unused bucket pages, and either fill all of those or are all that lie behind the bucket pages of the level |
| `Relocate.PageFile.RearrangeOnClose` | filehash/ffdb_page.c:2368-2427 | closing makes the three passes with the move of the header and records the number of pages moved, which is that of the unused bucket pages or that of all pages behind the bucket pages, whichever is less |
| `Reopen.ClosedIsShort` | filehash/ffdb_page.c:2368-2427 | the closed file ends the recorded number of pages earlier; it has every page in front of that, and every page behind that is not deleted is in the unused bucket pages in the same order |
| `Relocate.PageFile.ReduceFilesize` | filehash/ffdb_page.c:2498-2518 | cuts off exactly the pages behind the moved range |
| `Relocate.OpenUndoesClose` | filehash/ffdb_page.c:2436-2494 | the move computed on open from the recorded number is the inverse of the move on close |
| `Relocate.PageFile.RearrangeOnOpen` | filehash/ffdb_page.c:2436-2494 | opening makes the three passes back, cuts the range off and clears the recorded number; if no data page without successor was moved, the highest one in front of the range becomes current, and otherwise the current one stays |
| `Relocate.RenamedBack` | filehash/ffdb_page.c:2436-2494 | renaming there and back gives the original pages, but for deleted pages of the range |
| `Relocate.PageFile.LastDataPage` | filehash/ffdb_page.c:1086-1111 | finds the highest data page without successor |
| `HeadExample.TakenHeadRemembered` | filehash/ffdb_page.c:930-974 | taking the empty first page of a free list leaves a list whose new first page still names the page taken |
| `StaleHeads.CloseExact` | filehash/ffdb_page.c:2227-2360 | with such list heads in an otherwise sound file, the move on close gives every page the right NEXT link if and only if each head that moves names no page of the file, a page that moves too, or a free page whose own next page moves later; and then the result is the renamed file but for these links |
| `SpoiledLinks.MoveSpoils` | filehash/ffdb_page.c:2227-2360 | the moved file is the renamed file but for what list heads remember and for the spoiled pages, whose NEXT link holds the new number of the last head that names them; no page is spoiled if and only if no link is harmful |
| `SpoiledLinks.MoveBent` | filehash/ffdb_page.c:2227-2360 | a wrong NEXT link of a page that a moving list head remembers makes no difference to a move, since it is overwritten in any case |
| `SpoiledLinks.OpenSpoils` | filehash/ffdb_page.c:2436-2494 | opening the moved file is possible and gives back every surviving page as it was, except that each spoiled page leads to the head that spoiled it |
| `SpoiledLinks.OpenUndoes` | filehash/ffdb_page.c:2436-2494 | where no link is harmful, opening gives back the file that was closed, these links included |
| `HeadExample.ExampleResting` | filehash/ffdb_page.c:930-974 | a store with pages of 512 bytes and one key with a value on two pages, in which the head of a free list names the first of them, satisfies the whole invariant |
| `HeadExample.ExampleGoesWrong` | filehash/ffdb_page.c:2227-2360 | moving its pages on close changes the NEXT link of that first page from the second to a free-list page |
| `HeadExample.ExampleLoses` | filehash/ffdb_page.c:2227-2494 | before that the value is read in full; after closing and opening it is lost, although opening finds a last data page |
| `Losses.StoreServes` | filehash/ffdb_page.c:416-1503 | from the pages of a sound store, following NEXT links only, exactly the stored keys are found, each with its value |
| `Losses.WhatIsLost` | filehash/ffdb_page.c:2227-2494 | for every sound store, whatever its free lists remember: after closing with pages moved and opening, a key is read with its value if no page before its entry on its chain and no page of its value but the last is spoiled, and otherwise it is lost |
| `Reopen.StateGraph` | filehash/ffdb_page.c:2368-2494 | a sound store between operations is a page graph |
| `Reopen.SettledDirt` | filehash/ffdb_page.c:2368-2494 | a sound store between operations is a page graph but for what its free-list heads remember |
| `Reopen.SettledLast` | filehash/ffdb_page.c:1086-1111 | a sound store with data has a data page without successor |
| `Reopen.ReadyToOpen` | filehash/ffdb_page.c:2436-2494 | the file cut after the move on close can be moved back, which gives the pages with the spoiled links; a last data page is found on open if and only if one is not spoiled |
| `Store.HashTable.ValidIsResting` | filehash/ffdb_hash.c:1139-1337 | the invariant of the store object is that of its value |
| `Reopen.CloseRangeFree` | filehash/ffdb_page.c:2368-2427 | the bucket pages not reached yet, to which pages move on close, are not in use |
| `Reopen.DropKeeps` | filehash/ffdb_page.c:2368-2494 | losing deleted pages keeps the store sound |
| `Store.HashTable.CloseFile` | filehash/ffdb_hash.c:264-335 | closing writes the moved and cut file, whatever the free lists remember; when it moves pages it moves all it can and the file is shorter by their number |
| `Store.HashTable.OpenFile` | filehash/ffdb_hash.c:940-957 | opening, with or without rearranging for inserts, restores the header and the pages, those spoiled on close with their wrong NEXT link |
| `Store.HashTable.CloseAndReopen` | filehash/ffdb_hash.c:264-335 | closing and opening again in any mode gives a sound store with the same map, header and pages, deleted ones aside |
| `MergeSort.CmpIsOrder` | filehash/ffdb_pagepool.c:150-153 | the 32-bit difference orders two page numbers correctly if and only if their difference fits in 32 signed bits |
| `MergeSort.SlistMergeSort` | filehash/ffdb_pagepool.c:161-253 | the sort relinks the list in place, ends, and leaves a sorted and stable rearrangement, for page numbers below 2^31 |
| `MergeSort.OnePass` | filehash/ffdb_pagepool.c:161-253 | one pass merges neighbouring runs, and one merge or none means the list is sorted |
| `MergeSort.MergeRuns` | filehash/ffdb_pagepool.c:193-237 | the merge of two runs is appended to the output although the links of consumed nodes are overwritten |
| `MergeSort.SkipRun` | filehash/ffdb_pagepool.c:182-191 | steps over one run and counts it |
| `MergeSort.MergeStable` | filehash/ffdb_pagepool.c:193-237 | merging keeps the order of nodes with equal page numbers, those of the first run first |
| `MergeSort.PassDoublesRuns` | filehash/ffdb_pagepool.c:161-253 | a pass over sorted runs of n leaves sorted runs of 2n |
| `MergeSort.PassStable` | filehash/ffdb_pagepool.c:161-253 | a pass keeps the order of nodes with equal page numbers |
| `MergeSort.SameByKeyPermutes` | filehash/ffdb_pagepool.c:161-253 | a list with the same nodes for each page number is a permutation |
| `PagePool.Pool.constructor` | filehash/ffdb_pagepool.c:526-630 | an empty cache shows the file |
| `PagePool.WriteKeeps` | filehash/ffdb_pagepool.c:262-294 | after a write-back memory and file together still hold the content last put dirty for each page |
| `PagePool.RemoveKeeps` | filehash/ffdb_pagepool.c:348-438 | a clean page may leave memory |
| `PagePool.InsertKeeps` | filehash/ffdb_pagepool.c:723-947 | a page that is not in memory may be loaded |
| `PagePool.PutKeeps` | filehash/ffdb_pagepool.c:1207-1267 | a dirty put is the content from then on |
| `PagePool.ChangeKeeps` | filehash/ffdb_pagepool.c:304-335 | the content follows the page to its new number, although the old place on disk is cleared |
| `PoolInv.JoinQueue` | filehash/ffdb_pagepool.c:1085-1103 | a thread that has to wait is the newest of the waiters |
| `PoolInv.ReleaseHands` | filehash/ffdb_pagepool.c:1207-1267 | giving a page back wakes the oldest waiter and nobody else |
| `PoolInv.WakeHands` | filehash/ffdb_pagepool.c:1101-1128 | a woken thread is the oldest waiter, the page has no holder, and it becomes the only one |
| `PoolInv.WithoutKeepsOrder` | filehash/ffdb_pagepool.c:348-438 | taking a bucket out keeps the LRU queue in the order of last use |
| `PoolInv.RecencyUse` | filehash/ffdb_pagepool.c:984-1193 | a bucket used goes to the tail, and the queue is again in the order of last use |
| `PagePool.Pool.Write` | filehash/ffdb_pagepool.c:262-294 | writes the content of one bucket to its place and clears its dirty mark only |
| `PagePool.Pool.Collect` | filehash/ffdb_pagepool.c:1391-1453 | collects dirty pages without holder and waiters, each once: all of them, or the oldest ones up to the limit |
| `PagePool.Pool.FlushList` | filehash/ffdb_pagepool.c:1391-1453 | writes the listed pages in list order, and the file has their content then |
| `PagePool.Pool.SyncI` | filehash/ffdb_pagepool.c:1391-1453 | flushes in ascending page order, at most the given number and the oldest first, and all there are otherwise; the file changes in the pages written only and has their content |
| `PagePool.Pool.ReuseBkt` | filehash/ffdb_pagepool.c:348-438 | evicts the oldest page that has no holder, no waiters and no lock mark, written back if dirty; fails if and only if there is none; a flush on this way writes a fifth of the cache at most |
| `PagePool.Pool.TakeBkt` | filehash/ffdb_pagepool.c:451-480 | the cache grows beyond maxcache+1 only when no page is evictable |
| `PagePool.Pool.LoadNewPage` | filehash/ffdb_pagepool.c:723-835 | a page not in memory is read from the file and held by its reader; it is in new memory, for which there was room or nothing evictable, or in the bucket of the oldest evictable page; it is the most recently used, and every other bucket stays but for flushing |
| `PagePool.Pool.NewPage` | filehash/ffdb_pagepool.c:849-947 | a new page has a cleared head and the number asked for or the next one; only its own old content is forgotten; which bucket it takes, the queue and the other buckets are as for a page read from the file |
| `PagePool.Pool.Find` | filehash/ffdb_pagepool.c:1053-1060 | the hash chain leads to a page exactly when it is in memory |
| `PagePool.Pool.MoveToTail` | filehash/ffdb_pagepool.c:1152-1160 | the page got becomes the most recently used |
| `PagePool.Pool.Get` | filehash/ffdb_pagepool.c:984-1193 | a get that returns shows what was last put dirty, makes the thread the holder and the page the most recently used, and changes no other bucket but for flushing and the one evicted; if the page is held or waited for the thread queues and nothing else changes; creating a page beyond npages discards nothing written |
| `PagePool.Pool.GetWoken` | filehash/ffdb_pagepool.c:1101-1166 | a woken waiter is the oldest, takes the page, makes it the most recently used and sees what was last put dirty; no other bucket changes |
| `PagePool.Pool.Put` | filehash/ffdb_pagepool.c:1207-1267 | the page has no holder, its content counts if it is dirty, the oldest waiter is woken and no other bucket changes |
| `PagePool.Pool.ChangePage` | filehash/ffdb_pagepool.c:1283-1383 | a page without waiters goes to its new number, dirty and most recently used; with waiters it is only given back; no other bucket changes |
| `PagePool.Pool.Sync` | filehash/ffdb_pagepool.c:1465-1475 | afterwards every page without holder and waiters is clean, locked or not, those that were dirty are in the file, pages in use stay as they are, and the file has the content last put for every page not in use |
| `PagePool.Pool.Delete` | filehash/ffdb_pagepool.c:1529-1592 | a page without waiters leaves memory, written back if dirty; with waiters it stays |
| `PagePool.Pool.Perform` | filehash/ffdb_pagepool.c:984-1592 | a step that is not allowed changes nothing; one that is allowed changes buckets, queue, use times and page map exactly as the step asked for does, and shows the thread, page and content concerned |
| `PoolRuns.StepLocks` | filehash/ffdb_pagepool.c:984-1592 | for every page, one step of any thread is a legal step of a lock with a queue of arrival: the page goes to one thread while nobody holds it, to the oldest waiter if there is one, is given up by its holder, and leaves memory or its number only while nobody else holds it or waits |
| `PoolRuns.OthersStay` | filehash/ffdb_pagepool.c:348-438 | a page that another thread holds keeps its holder, number and content in a step; a page with waiters is neither evicted, nor renumbered, nor deleted, and keeps its waiters in order, but that the oldest may leave by taking the step and others may join behind |
| `PoolRuns.OldestMayWake` | filehash/ffdb_pagepool.c:1101-1128 | while nobody holds a page that is waited for, the oldest waiter may take it and no other waiter may |
| `PoolRuns.EvictsOldest` | filehash/ffdb_pagepool.c:348-480 | when a page comes in, at most one other leaves; only if the cache is full, and then it is the oldest without holder, waiters and lock mark; the cache grows beyond its limit only if there is none |
| `PoolRuns.MarksCount` | filehash/ffdb_pagepool.c:1069-1193 | a thread that gets a page holds it with the content shown, and the dirty and locked marks asked for are set |
| `PoolRuns.LockedStays` | filehash/ffdb_pagepool.c:348-438 | a locked page stays in memory, locked, over any step but its deletion |
| `PoolRuns.TraceLocked` | filehash/ffdb_pagepool.c:348-438 | and over any run in which it is not deleted |
| `PagePool.Pool.Interleave` | filehash/ffdb_pagepool.c:984-1592 | in every interleaving each step asked for is done to the state it finds and shows as its event; for each page the events are those of a lock with a queue, which at the end has the holder and waiters of the page; every read shows what the uncached page map holds then |
| `PoolRuns.TraceLocks` | filehash/ffdb_pagepool.c:984-1592 | over any run of steps the events of each page are legal for its lock, and the lock at the end is the holder and the waiters of the page |
| `PoolRuns.TraceView` | filehash/ffdb_pagepool.c:984-1592 | over any run of steps the content last put dirty is that of the uncached page map, and every reader sees it |
| `PoolRuns.MutualExclusion` | filehash/ffdb_pagepool.c:1069-1267 | between two times that threads come to hold a page, the first of them gives it up |
| `PoolRuns.HolderKeeps` | filehash/ffdb_pagepool.c:1069-1267 | until it gives the page up the thread that obtained it is its holder |
| `PoolRuns.ArrivalOrder` | filehash/ffdb_pagepool.c:1085-1128 | those woken for a page, followed by those still waiting, are those who queued for it, in the order in which they came |
| `PoolRuns.LastStoreCounts` | filehash/ffdb_pagepool.c:1207-1383 | the uncached page map holds the content last stored for a page that was not moved away since |
| `PoolRuns.NeverStored` | filehash/ffdb_pagepool.c:1207-1383 | and the original content of a page never stored or moved |

## Left out

- Page numbers are unbounded integers; the store model does not reach the 32-bit limit, where the code exits.
- Reading, writing and truncating the file succeed; stat, open and their error returns are not modelled.
- malloc and free, messages, abort and exit paths, statistics and debug dumps.
- Byte order: file and machine agree, version 6; the swapping of headers and pages and version 5 files are left out.
- The page filters are the identity in the pool model; the page checksum is proved in `Crc32` on its own.
- The store model has no page pins and no dirty marks. In particular a freed page put back clean on a
  free list (`filehash/ffdb_page.c:1191-1318`) counts as written, and a page deleted while clean counts as deleted.
- A read of a value of length zero returns; in the code it leaves the page pinned (`filehash/ffdb_page.c:490-504`).
- The last continuation page takes the remaining bytes only; the code may copy up to 20 bytes past the value
  (`filehash/ffdb_page.c:721-732`).
- Store.HashTable.AddContinuation: sets the links of a page when it is placed and leaves the first page of the
  datum for last, where the code keeps the first page in memory meanwhile; the final state is the same.
- Store.HashTable.FindItem: a base page that was never written counts as empty and is not stored by a search; the code
  initialises it in the cache, clean.
- Keys are compared for equality, as the default comparison does; a comparison of the caller is not modelled.
- Store.HashTable.Put: puts that store a key of bsize-58 to bsize-56 bytes, or a small value over one of 4 GB or more, are
  excluded by its precondition; `Oversize`, `ChainRows` and `Lengths` state exactly what happens to them.
- Oversize.PutSearch: the link to a chain behind an empty base page is gone once a search has met that page; in the code
  it may come back when the page is clean and is read from the file again.
- HashFunc.HamFunc3: does not cover keys longer than 2^32-8 bytes, for which the 32-bit pass count wraps, as `HashFunc.PassesCover` states.
- HashFunc.HamFunc4: does not cover those keys either, for the same reason.
- MergeSort.SlistMergeSort: nodes are indices into an array of links; page numbers are below 2^31, where the
  comparison is an order.
- Pages.GetCreate: a page number below npages that was never written counts as absent and is initialised; in the code it is
  read as zeros, typed deleted with its number set (`filehash/ffdb_page.c:282-284`), and the check for a new page
  (`filehash/ffdb_page.c:1372`) passes it by. A reserved data page first used after later pages were flushed then
  comes back with free offset 0 and is skipped (`filehash/ffdb_page.c:580`).
- PagePool.Pool.Get: the wait on the condition variable is a step of its own, `GetWoken`; spurious wake-ups leave the flag unset and are
  no step.
- The hash chains and the LRU queue are sequences of bucket identities; their link pointers are not modelled.
- PagePool.Pool.Delete: the page is in use by its holder only, since a thread does not get a page twice.
- Relocate.RenamedBack: deleted pages in the moved range are not moved and are lost by the cut, as in the code.
- Store.HashTable.CloseAndReopen: is not for a close that moves pages where that does harm, since the store is not sound
  afterwards; `CloseFile`, `OpenFile` and `Losses` say what such a close does.
- Store.HashTable.CloseFile: a close that moves pages of a store without a data page on its level is left out; the code then computes with a
  last page of 2^32-1 (`filehash/ffdb_page.c:2389`).
- Losses.Fetch: what a search or a read makes of a free-list page that a spoiled link leads to is not modelled; it counts as lost. The code
  takes its bytes for those of a key or data page, and the checksum of the value decides.
- Store.HashTable.OpenFile: where every last data page is spoiled the search for one has no end and the code aborts
  (`filehash/ffdb_page.c:1086-1111`); `Reopen.ReadyToOpen` gives the exact condition.
- Opening for reading only: after a relocation the file is rearranged like any other
  with moved pages.
- The cursor's read of the bucket after the last one in an empty store (`filehash/ffdb_page.c:2799-2813`), whose result is
  discarded, and the data cursor, which does nothing.
- `ffdb_get_config_info`, a search like that of `SetConfigInfo`, and `_ffdb_hash_delete`, an empty stub.
- The other hash functions, whose only property is their definition, and the C++ layer under `src`.
