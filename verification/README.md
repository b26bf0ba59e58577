# UrlFileSizeChecker core, modelled in Dafny

UrlFileSizeChecker takes a list of URLs, sends each a HEAD request and reports
the size of each resource. Its backend, `app.go`, renders each size with a unit
("1.91 MB", "500 B") or with the fixed failure label "获取失败". It puts one
record per URL into a pre-sized slice and publishes a progress percentage after
each probe. It then sorts the records by parsed size, largest first.

This project models the deterministic part of that backend.

- `wrappers.dfy` (module `Wrappers`): `Option` and `Result`.
- `size_codec.dfy` (module `SizeCodec`): `formatFileSize` and `parseSize`. A
  rendered size is a `SizeText`:
  - `Sentinel` is the failure label;
  - `Measured(hundredths, unit)` is a number followed by a unit token. The
    number is held in hundredths, which is what `%.2f` prints. The byte unit's
    integer `n` is `100 * n` hundredths;
  - `Unscannable` is text whose leading number does not scan.
  The unit stays a string, so a token other than GB, MB, KB or B can be
  expressed. `parseSize` maps such a token to 0.
- `probe.dfy` (module `Probe`): the checks `getFileSize` makes once a response
  has arrived. What the HEAD request produced is an input (`Exchange`).
- `checker.dfy` (module `Checker`): `CheckFileSizeConcurrent` run one URL after
  another. It is a method of class `App`, whose `progress` field it updates.
  It fills a freshly allocated array slot by slot, then sorts that array in
  place (`RankBySize`, a selection sort standing for `sort.Slice` with the same
  comparator).

Inputs that stand for the outside world:
- `exchanges[i]` is what the probe of `urls[i]` produced;
- `cancelAt` is the index before whose dispatch the cancelled context is
  observed;
- `exportOk` says whether writing the spreadsheet succeeded.

Two behaviours of the code worth knowing:
- Progress is `(index + 1) * 100 / len(urls)`, computed from the finishing
  task's own index. It is not a count of finished tasks. With more than 100
  URLs the first tasks publish 0, and progress ranges over 0..100.
- On cancellation the function returns at once, without waiting for tasks
  already started.

## Model

| member | source | states |
|---|---|---|
| SizeCodec.Format | app.go:125-136 | GB exactly when size >= 2^30, MB when 2^20 <= size < 2^30, KB when 2^10 <= size < 2^20, bytes otherwise; bytes print the integer itself; a scaled value is a nearest two-decimal value (at least 1.00, at most 1024.00 for MB and KB) |
| SizeCodec.RoundHalfEven | app.go:128-132 | the `%.2f` rounding: the result is within half a unit of the exact quotient, and an exact tie goes to the even neighbour |
| SizeCodec.TruncDiv | app.go:149-155 | the `int64(...)` conversion: the quotient truncated toward zero, bracketed from both sides for either sign |
| SizeCodec.Parse | app.go:139-159 | -1 for the failure label; 0 for an unrecognised unit token or text that does not scan; otherwise the number times the unit's byte size, truncated toward zero |
| SizeCodec.ParseFormatBytes | app.go:125-159 | below 1024 the round trip parse(format(size)) gives back size exactly |
| SizeCodec.ParseFormatWithin | app.go:125-159 | from 1024 up, parse(format(size)) is at most half a hundredth of the unit above size and less than that plus one byte below it |
| SizeCodec.ParseFormatBand | app.go:125-159 | parsed values of each unit lie between that unit's threshold and the next one |
| SizeCodec.ParseFormatPositive | app.go:125-159 | a positive size renders to text that parses to at least 1 |
| SizeCodec.ParseFormatMonotone | app.go:125-159 | rendering then parsing never reverses the order of two sizes, so ranking by parsed size agrees with byte order |
| SizeCodec.FormatExamples | app.go:128-134 | 2000000 bytes renders as 1.91 MB; 1152 bytes (exactly 1.125 KB) as 1.12 KB under half-even rounding; 500 bytes as 500 B |
| Probe.Classify | app.go:100-122 | a size exactly when the status is 200 and ContentLength > 0, and then that length (so at least 1); otherwise the error for no response, a bad status or an unknown size |
| Checker.SlotFor | app.go:66-71 | the slot keeps its URL; it holds the failure label exactly when the probe failed, and otherwise the formatted size the probe returned; failures parse to -1 and successes to at least 1 |
| Checker.Progress | app.go:75 | for 0 <= index < total: between 0 and 100; 100 exactly at the last index; 0 exactly when 100 * (index + 1) < total |
| Checker.IndexOfLargest | app.go:85-89 | returns a position in `a[from..]` whose parsed size is the largest there |
| Checker.Swap | app.go:85-89 | exchanges two slots; the others and the multiset of records are unchanged |
| Checker.RankBySize | app.go:85-89 | the array after the sort is a permutation of the one before and is non-increasing by parsed size |
| Checker.RankedFailuresLast | app.go:85-89 | in the ranked slots of a run every failure record comes after every successful one |
| Checker.App.CheckFileSizeConcurrent | app.go:42-97 | cancelled before index c: a cancellation error, with progress left at the value published for slot c - 1. Otherwise, before the sort, slot i holds `urls[i]` with its formatted size or the failure label, and progress is 100 when the list is not empty (in this sequential schedule). The result is then either the export error or a fresh array of `len(urls)` records: a permutation of the slots, non-increasing by parsed size, failures last |

## Left out

- Goroutines, the `sync.WaitGroup`, the buffered channel that bounds the tasks in flight, and the mutex (app.go:48-50, 60-64, 74-77). The model runs the tasks in index order, so the bound of K tasks in flight has no counterpart. Progress published out of index order has none either. A non-positive `concurrency`, which blocks or panics in Go, is not modelled.
- The HTTP client, `http.NewRequestWithContext`, `client.Do` and the 10-second timeout (app.go:53, 101-110). These are network I/O. Their outcome is the `Exchange` input, and every failure before a response collapses into `NoResponse`.
- Context cancellation and `CancelCheck` (app.go:44-46, 56-58, 183-187). Cancellation is the `cancelAt` input. Tasks that are already running keep running after Go returns; the model does not capture them.
- `runtime.EventsEmit` (app.go:76): the event bridge to the UI. The model keeps only the `progress` field it publishes.
- `writeToExcel` (app.go:162-180): spreadsheet file I/O through excelize. Only its success or failure is modelled, as `exportOk`.
- `NewApp` and `startup` (app.go:25-33): lifecycle glue.
- SizeCodec.Format: decimal text is not produced. The scaled value is modelled as exact half-even rounding of `100 * size / 2^k`. This matches `float64` and `%.2f` only while `float64(size)` is exact, that is for sizes below 2^53.
- SizeCodec.Parse: `Sscanf` and the `float64` product are modelled as exact rational arithmetic truncated toward zero. This matches Go while the float error stays smaller than the distance to the next integer, which holds for sizes up to about 3.6e14 bytes. Texts with more than two decimals, or with characters after the unit, cannot be represented.
- Checker.RankBySize: the particular order `sort.Slice` leaves among equal keys is not modelled. Only what `sort.Slice` promises is stated: a permutation, non-increasing by key.
- Checker.App.CheckFileSizeConcurrent: the final progress is stated for tasks finishing in index order, where it is 100. In Go each task publishes the value for its own index, so the final value is the last finisher's. With a concurrency of 2 or more that can be below 100: with two URLs, slot 1 may publish 100 and slot 0 then publish 50.
