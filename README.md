# Merge-request digest: a Dafny model

This project models the formatting core of the daily merge-request digest in
`main.go`. Once a day the service lists the open merge requests of a GitLab
project. It renders them as one Slack message and posts it. The model covers
the two functions that hold the logic:

- `humanDuration` renders how long a merge request has been open. The text is
  "just now", whole minutes, whole hours, or whole days with the remaining
  hours. The day form ends in a warning glyph that escalates with the day
  count: none, ❓, 😳, then 💀.
- `formatMRsForSlack` builds the message. For an empty list it returns a fixed
  text. Otherwise it sorts the caller's slice in place, oldest first, and
  writes a header and one bullet line `• <url|title> - author *age*` per
  merge request. The author and the age fall back to "unknown".

Modules:

- `Wrappers` (wrappers.dfy): `Option`, used for Go's nullable pointers.
- `Decimal` (decimal.dfy): `NatToString`, which is `fmt.Sprintf("%d")` on a
  non-negative integer. It comes with its inverse `DecimalValue` and the
  digit splitter the age parser uses.
- `AgeText` (age.dfy): `humanDuration`, split into the bucketing `Classify`,
  the glyph `Warning` and the text `Render`. `ParseAge` reads a rendered age
  back and serves as the partner of `Render`. The bucketing is stated
  against an independent interval definition, `InBucket`.
- `Digest` (digest.dfy): the merge-request record and the slice, which is an
  array whose entries are `Option<MergeRequest>`, with `None` for a nil
  pointer. It also holds the comparator, the in-place sort, the
  line-rendering loop and `FormatMRsForSlack` itself. The outcome is
  `Rendered(text)`, or `Panicked` for the nil dereferences Go panics on.

Times are integers of nanoseconds, as Go's `time.Duration`. A `time.Time` is
a count of nanoseconds since Go's zero time, so `IsZero` means the value 0.
The clock is the explicit parameter `now`, so `time.Since(t)` becomes
`now - t`. For the non-negative durations that reach them, `int(d.Minutes())`
and `int(d.Hours())` become integer division.

Three behaviours of the code that one might not expect, which the model
follows:

- Entries without a creation time do not sort as equal to everything: the
  comparator dereferences both creation times (main.go:175-177). With two or
  more entries, every entry reaches the comparator, so a missing creation time
  panics and the model returns `Panicked`. The "unknown" age therefore only
  appears for a single entry or for Go's zero time.
- The order among equal timestamps is not fixed: `slices.SortFunc` is not
  stable. The model promises only "sorted and a permutation".
  `TiesMayReorder` shows that equal timestamps can come out in either order
  and give different texts.
- A nil merge-request pointer is compared as equal by the comparator
  (main.go:171-173). The rendering loop then dereferences it (main.go:185),
  so the call panics. The model returns `Panicked` for it.

## Model

| member | source | states |
|---|---|---|
| `Decimal.NatToString` | main.go:156-158 | the `%d` text of a count is non-empty, all digits, and starts with '0' only for zero itself |
| `Decimal.ValueOfNatToString` | main.go:138-140 | reading the rendered number back gives the number |
| `Decimal.NatToStringInjective` | main.go:156-158 | two counts render alike if and only if they are equal |
| `AgeText.ClassifySound` | main.go:134-143 | the bucket chosen for an elapsed time is well formed (1..59 minutes, 1..23 hours, at least one day with 0..23 remaining hours) and its interval contains the elapsed time, which is what truncating division means |
| `AgeText.ClassifyExact` | main.go:134-143 | for every well-formed bucket, the elapsed time is classified into it if and only if it lies in that bucket's interval; under a minute, negative times included, means "just now" |
| `AgeText.Warning` | main.go:144-153 | the glyph is empty up to 2 days, ❓ at 3 days, 😳 at 4-5 days and 💀 from 6 days |
| `AgeText.WarningMonotone` | main.go:144-153 | more days never give a milder glyph |
| `AgeText.WarningEscalates` | main.go:141-153 | a longer elapsed time never gives a milder glyph |
| `AgeText.RenderRoundTrip` | main.go:134-158 | every bucket's text, including a day form with the trailing space and no glyph, parses back to exactly that bucket |
| `AgeText.RenderInjective` | main.go:134-158 | two buckets render alike if and only if they are the same bucket |
| `AgeText.HumanDurationReadsBack` | main.go:131-160 | the age text parses back as a well-formed bucket whose interval holds `now - t` |
| `AgeText.JustNowIff` | main.go:134-136 | the text is "just now" if and only if less than a minute has elapsed |
| `AgeText.MinutesText` | main.go:137-138 | from one minute to under an hour the text is "{m}m" with m the truncated minutes, 1 ≤ m ≤ 59 |
| `AgeText.HoursText` | main.go:139-140 | from one hour to under a day the text is "{h}h" with h the truncated hours, 1 ≤ h ≤ 23 |
| `AgeText.DaysText` | main.go:141-158 | from one day on, days ≥ 1 and hours in 0..23 make up the truncated hours, and the text is "{d}d {glyph}" with no hour remainder, else "{d}d {h}h {glyph}" |
| `Digest.Compare` | main.go:170-181 | a nil merge request compares equal to anything; otherwise the sign is that of the difference of the creation times |
| `Digest.InsertSorted` | main.go:170-181 | one insertion pass leaves the first i+1 entries oldest first, leaves the entries after i untouched, keeps every creation time present and permutes the slice |
| `Digest.SortByCreation` | main.go:170-181 | the slice ends up oldest first and is a permutation of what it held |
| `Digest.AuthorName` | main.go:194-197 | the author's name, or "unknown" when there is no author |
| `Digest.LiveTimeMeaning` | main.go:184-192 | the age column is "unknown" exactly when the creation time is absent or the zero time; otherwise it parses back as the one well-formed bucket holding the elapsed time |
| `Digest.WriteLines` | main.go:167-206 | the text is the header followed by the bullet lines of the slice, in slice order |
| `Digest.LinesAppend` | main.go:183-206 | the lines of two consecutive runs of entries are the lines of the first run followed by those of the second |
| `Digest.LineAt` | main.go:199-205 | each entry contributes exactly its own line, between the lines of the entries before and after it |
| `Digest.FormatMRsForSlack` | main.go:162-209 | an empty slice gives "✅ No open merge requests"; the call panics exactly on a nil entry, or on a missing creation time among two or more entries; otherwise the slice is sorted oldest first and the text is the header plus one line per entry in that order; the slice is always a permutation of the input |
| `Digest.SortedPermutationUnique` | main.go:170-181 | without equal creation times there is only one oldest-first order of the entries, so the digest is fixed |
| `Digest.TiesMayReorder` | main.go:170-181 | two merge requests with the same creation time and different lines of equal length are sorted in either order, and the two digests differ |
| `Digest.WarningsDescend` | main.go:170-192 | for every entry, the glyph of its creation time's bucket never escalates down the sorted slice (the printed age column can still be "unknown" for Go's zero time, which sorts first) |
| `Digest.UnknownAgeMeansZeroTime` | main.go:175-192 | with two or more entries and no panic, every entry has a creation time, and "unknown" age means exactly Go's zero time |
| `Digest.SingleEntryPanics` | main.go:170-186 | a single entry panics only if it is nil, whatever its creation time |

## Left out

- `main`, `loadConfig`, the daily gocron job at 11:30 UTC+6 and signal handling (main.go:29-84): process lifecycle, environment reads and a third-party scheduler.
- `newGitlabClient` and `listOpenMRs` (main.go:86-109): calls into the GitLab client library. The single 50-item page is only an argument to that call.
- `postToSlackChannel` (main.go:111-129): an HTTP POST of a JSON body.
- The clock: Go calls `time.Since` separately for each line, so each line reads a slightly later instant. The model renders every line against one `now`.
- Float conversion: `d.Hours()` is a float64. For ages over 4096 hours, a duration within a few nanoseconds below an hour boundary can round up to the next hour. The model uses exact integer division.
- int64 limits: `time.Since` saturates at the int64 duration range. The model's integers are unbounded.
- `time.Time` locations and monotonic readings: a time is only an instant here. `Before`, `After` and `IsZero` compare instants.
- Pointer identity: the slice holds pointers, and the sort moves the pointers, not the records. The model's array holds the records as values, which has the same observable effect here.
- Digest.FormatMRsForSlack: decides the panic before touching the slice. Go may panic part-way through the sort, so in both cases the contract promises only that the slice is a permutation.
- Digest.SortByCreation: uses the insertion sort that Go's `pdqsort` applies to short slices, swapping while the comparator says "less". For longer slices Go's order among equal timestamps may differ. The contract states only what Go promises: sorted and a permutation.
- Go strings are UTF-8 bytes, while the model's strings are sequences of Unicode characters. The glyphs and "•" are single characters here.
