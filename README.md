# National Gallery of Art painting downloader, modelled in Dafny

The program reads two tables from the National Gallery of Art open-data
repository:

- `objects.csv` describes every object in the collection;
- `published_images.csv` lists the published images of those objects.

It keeps the objects classified as paintings (`findPaintings`). It then joins
each painting to an image URI by object id (`addUris`). Finally a pool of
workers fetches each painting's image into `<imagesDir>/<id>.jpg` and counts
what happened in four counters (`dlStats`):

- `existed`: the file was already on disk;
- `err`: the fetch failed;
- `noURI`: the painting has no URI;
- `downloaded`: a fetch was attempted.

Before fetching, a worker upgrades the URI by replacing the first `200,200`
in it with `1600,1600`.

The model has five modules:

- `Wrappers` — `Option` and `Result`.
- `Decimal` — `strconv.Atoi` (what `must.Atoi` calls) and `fmt.Sprintf("%d")`:
  - an optional sign, one or more digits, and the range of Go's 64-bit `int`;
  - the round trip between the two;
  - the fact that distinct ids are written as distinct file names.
- `Rewrite` — `strings.Index` and `strings.Replace(uri, "200,200", "1600,1600", 1)`, as a left-to-right scan:
  - only the first occurrence is replaced;
  - later occurrences survive;
  - a URI without the token is left alone.
- `Catalog` — the two table readers. Each reader comes in two forms:
  - methods, which build `Painting` objects and write `mainURI` in place, as the source does;
  - functions, against which those methods are proved.

  A Go panic becomes an `Error` result: an empty table (`data[1:]`), a row too short for the column read, or an id that `must.Atoi` rejects.
- `Download` — the worker policy:
  - `Step` handles one painting: no URI first, then an existing file, then exactly one fetch.
  - `Run` puts the paintings through `Step` one after another.
  - Two classes (`DlStats` and `Disk`) carry the imperative worker, which is proved to compute `Run`.

  A run is stated over a `Plan`, the function giving each painting's URL and destination file. The program's plan is `PlanFor(imagesDir)`. The network is an oracle `Net` that decides how each request ends: saved, failed, or failed after leaving a partial file.

## Model

| member | source | states |
|---|---|---|
| Decimal.Atoi | main.go:45 | an id is accepted exactly when the signed digit syntax reads it and its value lies in Go's 64-bit `int` range, and the result is that value |
| Decimal.ScanDigitsValue | main.go:45 | the digit scan succeeds exactly on all-digit strings, with their decimal value |
| Decimal.SignedValueSyntax | main.go:45 | `SignedValue` accepts only text that starts with a sign or a digit, has only digits after it, and holds at least one digit, so a lone sign is refused |
| Decimal.AcceptsSigned | main.go:45 | `SignedValue` accepts every `+` or `-` followed by one or more digits, leading zeros included, with the signed value of the digits |
| Decimal.AcceptsUnsigned | main.go:45 | `SignedValue` accepts every non-empty run of digits, leading zeros included, with its value |
| Decimal.AtoiNonCanonical | main.go:70 | spellings `%d` never writes are still read: `+5` is 5, `007` is 7 and `-0` is 0 |
| Decimal.DigitsNoLeadingZero | main.go:136 | the digits written for a positive number do not start with `0` |
| Decimal.FormatIntShape | main.go:136 | `FormatInt` (`%d`) output is never empty, starts with `-` exactly for negative numbers, is digits otherwise, is `0` for zero, and has no leading zero otherwise |
| Decimal.DigitsRoundTrip | main.go:136 | the digits written for `n` read back as `n` |
| Decimal.SignedValueOfFormat | main.go:136 | reading back what `%d` wrote gives the number, for any integer |
| Decimal.AtoiOfFormat | main.go:45 | `Atoi` inverts `%d` on every 64-bit `int` |
| Decimal.FormatIntInjective | main.go:136 | distinct ids give distinct names |
| Decimal.AtoiRejectsOverflow | main.go:70 | one past the largest `int`, the syntax is right but `Atoi` fails, so `must.Atoi` would panic |
| Rewrite.IndexOf | main.go:142 | the index returned is an occurrence with none before it; there is no index exactly when the pattern never occurs |
| Rewrite.ReplaceFirstAt | main.go:142 | where the first occurrence is at `i`, the result is the text before `i`, then the replacement, then the text after the occurrence |
| Rewrite.ReplaceFirstAbsent | main.go:142 | with no occurrence, the string is unchanged |
| Rewrite.ReplaceFirstUsesIndexOf | main.go:142 | `ReplaceFirst` (`strings.Replace` with n = 1) makes its single replacement exactly at the index `strings.Index` finds, and none if there is none |
| Rewrite.UpgradeWithoutLowRes | main.go:142 | a URI without `200,200` is fetched as it is |
| Rewrite.UpgradeFirst | main.go:142 | `Upgrade` turns the first `200,200` into `1600,1600`; the URI grows by two characters and its prefix is unchanged |
| Rewrite.UpgradeKeepsLaterLowRes | main.go:142 | a later, non-overlapping `200,200` is still there after the upgrade, shifted by two |
| Rewrite.UpgradeAfter | main.go:142 | a URI whose prefix holds no `2` has exactly its `200,200` upgraded |
| Rewrite.UpgradeTwiceExample | main.go:142 | `200,200/200,200` becomes `1600,1600/200,200` |
| Catalog.Painting.constructor | main.go:46-50 | a new painting has the given id, title and artist, and an empty `mainURI` |
| Catalog.PaintingRowsMembers | main.go:43-44 | the selection keeps every row whose column 17 is `Painting`, and no other row |
| Catalog.SelectRowBuilt | main.go:44-51 | `SelectRow` on a row that reads cleanly yields one record built from the row if it is a painting row, and none otherwise |
| Catalog.SelectRowsFailureSticks | main.go:43-45 | once a prefix of the rows fails, rows after it do not change the outcome: the selection fails with the prefix's error |
| Catalog.SelectRowsErrorAt | main.go:43-45 | when row k is the first unreadable row (too short, or a painting whose id is not an integer), the selection fails with exactly that row's error |
| Catalog.SelectRowsSucceeds | main.go:43-45 | `SelectRows` reads the rows after the header without a panic exactly when each of them is readable |
| Catalog.SelectionSucceeds | main.go:43-45 | `Selection` reads the table exactly when it has a header row and every later row is readable |
| Catalog.SelectRowsArePaintingRows | main.go:43-51 | the k-th record comes from the k-th painting row: its id is `Atoi` of column 0, its title is column 4 and its artist is column 14 |
| Catalog.SelectionArePaintingRows | main.go:43-51 | the same, for the table with its header |
| Catalog.SelectionIgnoresHeader | main.go:43 | the header row's contents never affect the selection |
| Catalog.ReadObjectRow | main.go:44-51 | one row gives a fresh painting built from its columns if it is a painting row, none if it is not, and the row's panic if it is unreadable |
| Catalog.FindPaintings | main.go:34-55 | fails exactly when the selection does, with the same error; otherwise returns one distinct fresh painting per selected record, in table order, built from that record with no URI |
| Catalog.IndexById | main.go:58-61 | every painting's id is a key, and each key maps to a painting with that id |
| Catalog.IndexByIdKeys | main.go:58-61 | the keys are exactly the ids of the paintings, and each value is one of the paintings |
| Catalog.IndexByIdLast | main.go:58-61 | a painting with no later painting of the same id is the one kept for its id |
| Catalog.IndexPaintings | main.go:58-61 | the loop builds exactly the id map, in which a later painting with the same id wins |
| Catalog.FirstImageRowErrorNone | main.go:69-70 | the join raises no panic exactly when every image row has column 10 and an integer in it |
| Catalog.FirstImageRowErrorAt | main.go:69-70 | the panic raised is the one from the first unreadable image row |
| Catalog.LastUriAt | main.go:69-74 | `LastUri` gives the URI of the last row naming the id, whatever rows come before it |
| Catalog.LastUriNone | main.go:69-74 | `LastUri` finds no URI for an id exactly when no row names it |
| Catalog.JoinedUriDistinct | main.go:57-76 | `JoinedUri`: a painting with no later painting of the same id (so every painting, when ids are distinct) ends with the URI of the last row naming it, or keeps the one it had |
| Catalog.JoinedUriShadowed | main.go:58-73 | a painting followed by another painting with the same id is never updated |
| Catalog.JoinedUriStep | main.go:69-74 | one more row changes only the painting the map keeps for that row's id |
| Catalog.JoinRow | main.go:70-74 | one image row either raises its panic or moves the join one row further for every painting |
| Catalog.JoinRows | main.go:69-75 | the loop stops with the first row's panic; otherwise every painting holds its joined URI |
| Catalog.AddUris | main.go:57-76 | the error is the table's first panic; otherwise each painting's new `mainURI` is the joined URI, or its old value when no row names it or it is shadowed |
| Download.StepPolicy | main.go:130-148 | `Step` handles one painting in priority order: an empty URI counts as noURI; else an existing file counts as existed; else exactly one request for the upgraded URI into `<dir>/<id>.jpg`, which adds one to downloaded and also one to err on failure; exactly one of noURI, existed and downloaded rises, by one, and no counter goes down |
| Download.DestPathNamesId | main.go:136 | `DestPath` is a file directly in the image directory whose name is the id as `%d` writes it followed by `.jpg`, and the name reads back as the id |
| Download.DestPathInjective | main.go:136 | different ids give different destination files |
| Download.PlanForSeparatesIds | main.go:136-142 | the program's plan sends paintings with different ids to different files |
| Download.RunAppend | main.go:111-117 | `Run` over two batches of paintings, one after the other, is `Run` over the first batch followed by `Run` over the second |
| Download.RunCounters | main.go:119-152 | over a run: every painting is counted once in noURI, existed or downloaded; no counter goes down; err never passes downloaded; downloaded counts the requests sent; no file disappears |
| Download.RunFromZero | main.go:123-152 | counters starting at zero end with noURI + existed + downloaded equal to the number of paintings, and err ≤ downloaded |
| Download.RunNoUri | main.go:131-134 | noURI counts exactly the paintings without a URI |
| Download.RunErrors | main.go:144-147 | err counts exactly the requests of the run whose fetch failed |
| Download.RunMonotone | main.go:126-152 | counters seen part-way through a run never exceed the final counters |
| Download.SumByPermutation | main.go:126-152 | the per-painting contributions add up to the same totals in any order |
| Download.StepIsContribution | main.go:130-148 | a painting whose file exists exactly when it existed before the run adds its fixed contribution |
| Download.NotWrittenEarlier | main.go:136 | with distinct ids, no earlier painting writes a later painting's file |
| Download.RunIsTotal | main.go:126-152 | with distinct ids, the final counters and files are the sum of per-painting contributions that depend only on the disk before the run |
| Download.DistinctIdsPermutation | main.go:111-117 | reordering paintings with distinct ids keeps their ids distinct |
| Download.OrderIndependent | main.go:111-152 | when one order of the paintings has distinct ids, every reordering gives the same final counters and files |
| Download.RunLeavesFiles | main.go:137-148 | after a run, every painting with a URI has its file if the file was there before the run or its fetch leaves one |
| Download.RunAllPresent | main.go:131-139 | when every painting with a URI already has its file, nothing is fetched, no file changes, and each painting counts as noURI or existed |
| Download.Rerun | main.go:130-148 | a second run after a first run in which every fetch left its file counts every painting with a URI as existed and fetches nothing; paintings whose file was there before the first run need no working fetch |
| Download.PartialFileCountsAsExisting | main.go:137-148 | a fetch that fails after creating its file counts as an error, yet the next run counts that painting as existed without fetching |
| Download.ScenarioEmptyDisk | main.go:128-149 | three paintings, one without a URI, on an empty disk with working fetches: one noURI, two downloads, and files for exactly the other two |
| Download.EmptyDiskExample | main.go:111-152 | the same three paintings, built as objects and run by `DownloadAll` with one worker on an empty disk with working fetches, end with one noURI and two downloads |
| Download.ScenarioOneOnDisk | main.go:128-149 | the same paintings with `3.jpg` present: one existed, one noURI, and only painting 2 is fetched |
| Download.DlStats.constructor | main.go:123 | the counters start at zero |
| Download.DlStats.AddNoUri | main.go:133 | adds one to noURI and leaves the other counters |
| Download.DlStats.AddExisted | main.go:138 | adds one to existed and leaves the other counters |
| Download.DlStats.AddErr | main.go:146 | adds one to err and leaves the other counters |
| Download.DlStats.AddDownloaded | main.go:148 | adds one to downloaded and leaves the other counters |
| Download.Disk.DownloadFile | main.go:78-103 | sends one request; returns no error exactly when the response is saved; the path is added exactly when the fetch saved it or left a partial file, and no other file changes |
| Download.Items | main.go:113-114 | the dispatcher hands out each painting's id and URI once, in slice order |
| Download.Work | main.go:131-148 | the worker body for one painting changes the disk and the counters exactly as `Step` says |
| Download.RunWorkers | main.go:126-152 | the workers, taking the paintings one after another, change the disk and the counters exactly as `Run` says |
| Download.DownloadAll | main.go:111-152 | with at least one worker, the final counters, files and requests are those of `Run` from zero counters, so noURI + existed + downloaded equals the number of paintings and err ≤ downloaded. With `threads` ≤ 0 no worker starts: the counters stay zero and the disk is untouched |
| Download.RealMain | main.go:105-155 | a panic in either table ends the program with that error before any download. Otherwise the paintings are distinct objects built from the selected records, in order, each holding its joined URI. With at least one worker, the counters, files and requests are those of `Run` over these paintings from zero counters, so every painting is counted exactly once. With `threads` ≤ 0 the counters are zero and the disk is untouched. In both cases err ≤ downloaded |

## Left out

- The CSV reading and the `os.Open` calls are not modelled. The tables arrive as rows of fields. `encoding/csv` parse errors and its per-record field-count check (both reported through `check.Err`) are not modelled.
- `check.Err` on a failed open or parse is not modelled, for the same reason. Only the panics raised while walking the rows are modelled, as `Error` results.
- Goroutines, the channel, `sync.WaitGroup` and `atomic.AddInt64` are not modelled. The `-threads` flag is the `threads` parameter, but only whether it is positive matters: any positive number of workers is modelled as one, and the workers run in sequence. `Download.OrderIndependent` shows that with distinct ids, any order gives the same counters and files.
- Download.OrderIndependent: proved only for paintings with distinct ids. With two paintings of the same id, whether the second sees the first one's file depends on timing in the concurrent program.
- Download.DestPath: does not apply `path.Join`'s cleaning (for example, of a trailing `/` in the image directory). The path is the directory, a `/`, the id and `.jpg`.
- Download.DlStats: the counters are unbounded naturals, not `int64`. Wrap-around after 2^63 increments is not modelled.
- Download.Disk.DownloadFile: the HTTP request, the status check, file creation and the body copy are not modelled. They become a `Net` oracle that says whether each request is saved, fails, or fails after leaving a partial file. `Net` is a function of the request, so two fetches of the same URI to the same path get the same answer. For two paintings with the same id and URI, where the first fetch fails without leaving a file, the model makes the second fetch fail too, while a real server may answer it differently.
- The `-images_dir` flag is the `imagesDir` parameter and `-threads` is the `threads` parameter. The `-opendata_dir` flag, which only names where the two CSV files are read from, `goutilio.MkdirAll` and every `log.Printf` are not modelled. The disk is a flat set of paths, so the image directory is taken to exist, as `goutilio.MkdirAll` ensures. Logging does not affect the counters or which files are written.
- Go strings are byte strings; here they are character sequences. Every literal the program compares or replaces (`Painting`, `200,200`, digits and signs) is ASCII, so the two readings agree.
- A fetch that fails after creating its file leaves that file on disk. A later run then counts the painting as existed (`Download.PartialFileCountsAsExisting`). This follows the code, which never removes a partial file; it is not the delete-on-failure behaviour one might prefer.
