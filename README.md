# rabbitspy dashboard core, in Dafny

rabbitspy is a terminal dashboard for a RabbitMQ broker. Every five seconds,
and whenever the terminal is resized, it fetches the queue list from the
management API and redraws a table with one row per queue. It also shows a
banner, and plays a one-second tone when some queue looks like an error queue.
The tone is rate-limited by a one-minute cooldown.

This project models the logic between the decoded queue list and what the
dashboard shows:

- `GoStrings` (gostrings.dfy): Go strings as byte sequences (`Byte` is
  0..255). It has ASCII lower-casing, `HasPrefix`/`HasSuffix`,
  `strings.Repeat(" ", n)`, `fmt`'s `%d` as `Decimal` with its inverse
  `ParseDecimal`, and Go's byte-to-string conversion `string(b)` together
  with a decoder for it.
- `Cells` (cells.dfy): `isErrorQueue`, `colorizeNumber`, `truncateString`,
  `safeGetFirstChar` and `getStateIndicator`.
- `Alerts` (alerts.dfy): the package-level `lastAlertTime` as the class
  `AlertClock`. Its method `PlayAlertSound` keeps the cooldown gate. Lemmas
  about runs of calls show that no two tones fall in one cooldown window.
- `Dashboard` (dashboard.dfy): the nine column widths, set by a loop on the
  table (`Table.SetColumnWidths`). It builds the rows (`BuildRows`, a loop
  that also sets the error-queue flag) and rewrites the header in place
  (`Table.StyleHeader`). `Table.Update` runs the three in order.
  `UpdateTable` is one whole update: a failed fetch, a panic, or a rendered table plus the banner and the alert.

Things the model makes explicit:

- Go's `/` truncates toward zero. So `(width - width/3 - 4)/7` is 0 on narrow
  terminals, where Dafny's `/` would give -1. `TruncDiv` models Go's operator.
- Go's `string(s[0])` converts a byte to the UTF-8 encoding of that code
  point. A first byte of 0x80 or more therefore becomes two bytes.
  `SafeGetFirstChar` is always one rune, but not always one byte.
- `truncateString` slices `s[:maxLength-3]`, which panics when a string is
  longer than a column narrower than 3. The header titles "In", "D/G" and
  "Ack" sit in columns of width `(width - width/3 - 4)/7`. As a result,
  updateTable panics on every terminal narrower than 37 columns, whatever the
  queues are (`RenderableIff`). The model returns `Panic` for this outcome
  instead of excluding it with a precondition.
- The cooldown is measured from the END of the tone. `lastAlertTime` is set
  after the one-second tone finishes, not when the check passes.
- Go's zero `time.Time` comes before every clock reading, so the first alert
  always plays. The model writes this value as `None`.

Two more points about main.go itself:

- main.go opens an AMQP connection and never uses it. There are no
  per-queue consumers, no retry logic and no shared store in the code.
- The banner shows whenever an error queue is present. Only the tone is
  rate-limited by the cooldown.

## Model

| member | source | states |
|---|---|---|
| `Cells.IsErrorQueue` | main.go:130-132 | a name is an error queue when its lower-cased bytes start with "error" or end with "error" |
| `Cells.ErrorQueueBytes` | main.go:130-132 | a name is an error queue exactly when its first five or its last five bytes spell "error" ignoring ASCII case (both directions) |
| `Cells.ErrorQueueIgnoresCase` | main.go:130-132 | two names that lower-case to the same bytes are both error queues or both not |
| `Cells.UpperCasePrefixIsErrorQueue` | main.go:130-132 | "ERROR-queue" is an error queue (upper-case prefix) |
| `Cells.SuffixIsErrorQueue` | main.go:130-132 | "payments-error" is an error queue (suffix) |
| `Cells.NonErrorQueueExamples` | main.go:130-132 | "orders" and "err" are not error queues |
| `Cells.ColourOf` | main.go:96-104 | green exactly for 0, yellow exactly for non-zero counts below 100 (negatives included), red exactly from 100 on |
| `Cells.ColorizeNumber` | main.go:96-104 | a count's cell is its `%d` numeral in termui markup, styled `fg:green` for 0, `fg:yellow` below 100 and `fg:red` otherwise |
| `Cells.ColorizeNumberStyle` | main.go:96-104 | a count's cell is `[<decimal>](fg:<colour>)`, with the colour of the count's band |
| `Cells.ColorizeNumberInjective` | main.go:96-104 | two different counts never give the same cell |
| `Cells.TruncateString` | main.go:106-114 | on every input that does not panic, the result is exactly `maxLength` bytes |
| `Cells.TruncateStringContents` | main.go:106-113 | empty string: `maxLength` spaces; a string that fits: the string followed by spaces; a longer one: its first `maxLength-3` bytes followed by "..." |
| `Cells.TruncateIdempotent` | main.go:106-114 | truncating an already-truncated cell to the same width changes nothing |
| `Cells.TruncatePaddingRoundTrip` | main.go:107-111 | for a string that fits and does not end in a space, removing the trailing spaces of the padded cell gives the string back |
| `Cells.SafeGetFirstChar` | main.go:116-121 | "-" for the empty string; otherwise one or two bytes that decode to the code point of the first byte, and the first byte itself when it is ASCII |
| `Cells.GetStateIndicator` | main.go:123-128 | the result is always ✓ or ✗ |
| `Cells.StateIndicatorCases` | main.go:123-128 | ✓ exactly when the state is "running" ignoring ASCII case, ✗ in every other case |
| `GoStrings.ToLower` | main.go:124 | the lower-cased string has the same length, with each ASCII capital replaced by its small letter |
| `GoStrings.HasPrefix` | main.go:131 | the string is at least as long as the prefix and its first bytes are the prefix |
| `GoStrings.HasSuffix` | main.go:131 | the string is at least as long as the suffix and its last bytes are the suffix |
| `GoStrings.Spaces` | main.go:108 | `strings.Repeat(" ", n)` is exactly `n` bytes, all spaces |
| `GoStrings.Decimal` | main.go:98-102 | the `%d` numeral is at least one byte: a minus sign for negative numbers, then the digits of the magnitude, most significant first |
| `GoStrings.ByteToString` | main.go:118 | `string(b)` is one byte for `b` below 0x80 and otherwise two bytes, led by 0xC2 or 0xC3 |
| `GoStrings.DecimalChars` | main.go:98-102 | the `%d` numeral starts with '-' exactly for negative numbers and is otherwise made of decimal digits |
| `GoStrings.DecimalRoundTrip` | main.go:231-233 | reading the `%d` numeral back gives the number |
| `GoStrings.ByteToStringRoundTrip` | main.go:118 | `string(b)` of a byte decodes back to the code point `b` |
| `Dashboard.TruncDiv` | main.go:208-209 | Go's quotient: the remainder has the sign of the dividend and is smaller than the divisor |
| `Dashboard.QueueNameWidth` | main.go:208 | the name column is a third of the terminal width, rounded toward zero |
| `Dashboard.OtherColumnsWidth` | main.go:209 | the other columns share what is left after the name column and 4, in sevenths, rounded toward zero |
| `Dashboard.ColumnWidths` | main.go:208-213 | nine widths: the name column, two columns of width 2, and six other columns |
| `Dashboard.ColumnWidthsFit` | main.go:208-213 | for a real terminal the nine widths are non-negative and the first is `width/3`; from width 5 on they add up to at most the terminal width |
| `Dashboard.QueueLabel` | main.go:225 | the label of a queue is its vhost, a slash and its name |
| `Dashboard.DataRow` | main.go:224-234 | a queue's row: its truncated label, type initial, state glyph, three coloured counts and three plain `%d` counters, in that order |
| `Dashboard.DataRows` | main.go:220-235 | one row per queue, in input order; defined only when no label makes truncateString panic |
| `Dashboard.HeaderCell` | main.go:240 | a header cell is its title truncated to its column and wrapped in `[...](fg:black,bg:yellow)` |
| `Dashboard.HeaderRow` | main.go:239-241 | the styled header is the nine titles, each made into a header cell with its own column width |
| `Dashboard.BuildRows` | main.go:215-235 | panics exactly when some queue label cannot be truncated; otherwise returns the header and then one row per queue in input order, and a flag that is true exactly when some queue is an error queue |
| `Dashboard.DataRowsAt` | main.go:220-235 | the k-th data row is the row built from the k-th queue |
| `Dashboard.Table.SetColumnWidths` | main.go:208-213 | the widths become `[width/3, 2, 2]` followed by six copies of `(width-width/3-4)/7`, with Go's truncating division; the rows are untouched |
| `Dashboard.Table.StyleHeader` | main.go:239-241 | the header row becomes the truncated and styled titles, cell by cell, exactly when every title fits its column; otherwise it reports the panic; the widths and the other rows are untouched |
| `Dashboard.Table.Update` | main.go:206-241 | sets the widths to `[width/3, 2, 2]` plus six columns of `(width-width/3-4)/7`; panics exactly when the table cannot be laid out; otherwise the rows are the styled and truncated header plus the queue rows, and it returns whether an error queue was seen |
| `Dashboard.RenderedShape` | main.go:210-240 | there are `n+1` rows for `n` queues, and every row, the header included, has one cell per column width (nine) |
| `Dashboard.RenderedQueueRow` | main.go:224-230 | row `k+1` shows queue `k`: its `vhost/name` padded or cut to the name column, its type initial, its state glyph, and its ready, unacked and total counts coloured |
| `Dashboard.RenderedHeader` | main.go:239-241 | header cell `i` is its title truncated to exactly column width `i` and styled black on yellow |
| `Dashboard.RenderableIff` | main.go:113 | the update finishes without a panic exactly when the terminal is at least 37 columns wide |
| `Dashboard.UpdateTable` | main.go:199-252 | a failed fetch changes nothing; a panic leaves the alert clock alone; otherwise the table is laid out, the banner says whether error queues exist, and the alert gate is consulted exactly when they do |
| `Alerts.CooldownElapsed` | main.go:155 | the gate is open when no alert has played yet or at least 60 seconds have passed since the last one |
| `Alerts.Step` | main.go:155-167 | one call records the end of its tone when the gate is open at its start, and otherwise keeps the old time |
| `Alerts.AlertClock.PlayAlertSound` | main.go:154-168 | fires exactly when the cooldown has elapsed since the last alert (or no alert has played yet); if it fires the last-alert time becomes the end of the tone, otherwise it is unchanged |
| `Alerts.LastAfterFiring` | main.go:155-167 | once a call has fired, the recorded time is never earlier than the end of that call |
| `Alerts.FiringsSeparated` | main.go:47-48 | between the end of a tone and the start of the next tone lie at least 60 seconds |
| `Alerts.SuppressedWithinWindow` | main.go:155-157 | a call that starts less than 60 seconds after a tone ended does not play |

## Left out

- HTTP fetching, basic auth and JSON decoding (`loadConfig`, `getQueues`, main.go:57-94) are library I/O. The model takes the decoded queue list as input, or `None` for a fetch error.
- The AMQP connection (`amqp.Dial`, `failOnError`) is left out: it is network I/O and a process exit, and the connection is never used.
- The model has no per-queue consumers, retry state machine or shared store, because main.go contains no code for them.
- termui widget setup, `TerminalDimensions`, `SetRect`, `Clear`, `Render` and `PollEvents` are UI code. `width` is an input, and the banner is reduced to its text.
- The event loop is I/O scheduling and is not modelled. It exits on "q" and "<C-c>", and re-runs the update on "<Resize>" and on every 5-second tick.
- The sine-wave `beepStreamer` and the speaker calls are floating-point audio. The parameter `finished` stands for the clock reading after the tone.
- If the tone never completes, `<-done` blocks forever and the time is never recorded. The model does not capture this.
- `go playAlertSound()` runs on its own goroutine, and `lastAlertTime` is written without synchronisation. The model runs each call to completion. It therefore does not capture two overlapping calls that both pass the check before either one records its time.
- Clock readings are whole seconds. Go compares `time.Duration` values in nanoseconds, so a call 59.5 s after a tone (suppressed in Go) has no reading in the model; sub-second resolution is abstracted away.
- The "Last updated" timestamp (`time.Now().Format`) reads the wall clock and is not modelled.
- `Cells.ErrorQueueBytes`: lower-casing is modelled for ASCII letters only. This is exact for the "error" test, since no non-ASCII rune lowers to 'e', 'r' or 'o'.
- `Cells.StateIndicatorCases`: lower-casing is modelled for ASCII letters only. Go's `strings.ToLower` also maps some non-ASCII runes (for example U+0130 to 'i'), which the model does not capture.
- Go's `int` is 64-bit; the model's counts are unbounded integers. JSON decoding, which would reject out-of-range values, is not modelled.
- `Dashboard.Table.StyleHeader`: after a panic the rows are left unspecified, since the process terminates.
- `Dashboard.Table.Update`: after a panic the table's rows are left unspecified, since the process terminates. The widths, set before any panic, are still stated.
