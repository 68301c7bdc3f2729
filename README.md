# Temperature log server — a Dafny model

The server keeps one process-wide store of temperature readings,
`{ data, lastReset }`. It loads the store from a JSON data file at start-up
and rewrites that file after every change. Clients can post a reading,
reset the store, fetch the whole store, or download it as CSV.

This project models that store and its CSV exporter:

- `readings.dfy` (module `Readings`): a reading is a map from field name to
  value. A value is JSON `null` or is kept abstractly as the text it renders
  to. `Stamp` builds the stored reading from a posted body. `Cell` is how
  `Array.prototype.join` renders a field: absent and `null` both give `""`.
- `text.dfy` (module `Text`): `Join` models `Array.prototype.join`.
  `Split` models `String.prototype.split` with a one-character separator and
  is the inverse of `Join`. The lemmas say when each one undoes the other.
- `csv.dfy` (module `Csv`): the sensor column names (the `for` loop that
  pushes `tempDS1`..`tempDS6`), the header, one line per reading, and the
  whole document. Its lemmas show how the document reads back: its lines,
  its fields, and what a posted reading looks like in it.
- `server.dfy` (module `Server`): the export handler's response as a
  function, and class `Store` with the handlers. Handlers that change the
  store are methods. A ghost field `file` stands for the data file, and
  `Persisted()` says it equals the in-memory store.

The clock (`new Date().toISOString()`) is read through a `now: string`
parameter. The data file found at start-up is the `DataFile` parameter of
the constructor `Boot`.

**A client's timestamp wins.** The reading is built as
`{ timestamp: now, ...req.body }`, so a `timestamp` in the posted body
replaces the server time (server.js:40-43); `Stamp` keeps it.

## Model

| member | source | states |
|---|---|---|
| `Readings.Stamp` | server.js:40-43 | the stored reading keeps every key and value of the body and has a `timestamp`; that timestamp is the body's own when the body has one, and the server time otherwise |
| `Readings.StampedCell` | server.js:40-43 | stamping changes the rendering of no field except `timestamp`, which renders as the posting time unless the body brought one |
| `Csv.DsNames` | server.js:73-75 | the loop `for (i = from; i <= upto; i++)` pushes `upto - from + 1` names, and name k is `tempDS` followed by the digit `from + k` |
| `Csv.SensorNamesAre` | server.js:72-75 | the sensor list is exactly `tempC1, tempF1, tempC2, tempF2, tempDS1, …, tempDS6`, in that order |
| `Csv.ColumnsAre` | server.js:77 | the export has eleven columns, `timestamp` first, then the ten sensors in fixed order |
| `Csv.ColumnNamesPlain` | server.js:72-77 | no column name contains `,` or a newline, and `timestamp` is not a sensor name |
| `Csv.HeaderIs` | server.js:77 | the header has no newline and splits on `,` into exactly the eleven columns |
| `Csv.Fields` | server.js:81-84 | a row has exactly eleven fields; field i is the reading's value for column i, or `""` when it is absent or null |
| `Csv.Rows` | server.js:80-86 | there is one line per reading, and line k is the line of reading k, in store order |
| `Csv.RowFields` | server.js:81-85 | the line of a plain reading has no newline, is not empty, and splits on `,` back into its eleven fields |
| `Csv.RowIgnoresOtherKeys` | server.js:82-84 | adding, changing or removing a key outside the eleven columns leaves a reading's line unchanged |
| `Csv.DocumentLines` | server.js:77-88 | when all readings are plain, the document splits on newlines into `|data| + 1` lines: the header, then line k + 1 from reading k, which splits into that reading's fields |
| `Csv.NoTrailingNewline` | server.js:88 | when all readings are plain, the document is non-empty and its last character is not a newline |
| `Csv.PostedFields` | server.js:81-84 | in the line of a posted reading, the first field is the body's timestamp or else the posting time, and every sensor field is the body's |
| `Text.SplitJoin` | server.js:85-88 | splitting a join on its separator gives back the parts when no part contains the separator |
| `Text.JoinSplit` | server.js:85-88 | joining the pieces of a split with the separator gives back the original string |
| `Text.JoinAvoids` | server.js:85-88 | a character that is in no part and not in the separator is not in the joined string |
| `Readings.Cell` | server.js:81-85 | definition: a field renders as its text, and as `""` when it is absent (`undefined`) or `null`, as `join` renders them; used by `Csv.Fields` |
| `Text.Join` | server.js:85-88 | definition of `Array.prototype.join`: the parts in order with the separator between neighbours, `""` for no parts; its properties are `Text.SplitJoin`, `Text.JoinSplit` and `Text.JoinAvoids` |
| `Csv.SensorNames` | server.js:72-75 | definition: the four fixed names followed by what the `tempDS` loop pushes; fixed literally by `Csv.SensorNamesAre` |
| `Csv.Columns` | server.js:77 | definition: `timestamp` followed by the sensor names; fixed literally by `Csv.ColumnsAre` |
| `Csv.Header` | server.js:77 | definition: the columns joined by `,`; its properties are `Csv.HeaderIs` |
| `Csv.Row` | server.js:81-85 | definition: a reading's fields joined by `,`; its properties are `Csv.RowFields` and `Csv.RowIgnoresOtherKeys` |
| `Csv.Document` | server.js:88 | definition: the header, then each reading's line in store order, joined by `\n`; its properties are `Csv.DocumentLines` and `Csv.NoTrailingNewline` |
| `Server.Store.Current` | server.js:35 | definition: the store as one `{ data, lastReset }` value, the object `GET /api/temperature` sends and the data file holds |
| `Server.Export` | server.js:66-93 | status is 404 exactly when the store is empty, with the message `No data to export` and no CSV; otherwise status is 200 and the CSV document is sent as a `text/csv` attachment named `temperature_data.csv` |
| `Server.ExportReadsBack` | server.js:71-92 | when the store is not empty and all readings are plain, the attachment has `|data| + 1` lines: line 1 splits into the eleven columns, line k + 1 splits into reading k's fields, and there is no trailing newline |
| `Server.Store.Boot` | server.js:17-26 | a missing data file becomes an empty store reset at the given time; a present one is loaded as it is; afterwards the file and memory agree |
| `Server.Store.Get` | server.js:34-36 | answers 200 with the whole store and changes nothing |
| `Server.Store.Post` | server.js:39-51 | appends exactly the stamped reading after all earlier readings and leaves `lastReset` unchanged; the file then equals memory; answers 201 with the stored reading |
| `Server.Store.Reset` | server.js:54-63 | whatever the store held, `data` is then empty and `lastReset` is the given time; the file then equals memory; answers 200 |
| `Server.Store.ExportCsv` | server.js:66-93 | answers with the export of the current readings and changes neither the store nor the file |

## Left out

- Express routing, CORS, JSON and static middleware, `GET /` (the landing page), `app.listen` and the port variable: these are framework plumbing. Each handler returns a `Response` value (a status and a payload) instead.
- File I/O and JSON (de)serialisation: the data file is a ghost `Snapshot`. The model does not cover a data file that fails to parse at start-up, which stops the process. JSON writes non-finite numbers (a posted `1e400` parses as `Infinity`) as `null`, so such a value exports as `Infinity` before a restart and as `""` after it; the model treats the file as an exact copy of memory.
- Server.Store.Post: every write of the data file is assumed to succeed. On a failed write the server keeps the new reading in memory and the framework answers 500. The file is unchanged if it could not be opened; otherwise it may be truncated or partly written, and the next start-up then fails to parse it. The model always answers 201 with the file equal to memory.
- Server.Store.Reset: every write of the data file is assumed to succeed. On a failed write the server keeps the emptied store in memory and the framework answers 500. The file is unchanged if it could not be opened; otherwise it may be truncated or partly written, and the next start-up then fails to parse it. The model always answers 200 with the file equal to memory.
- Server.Store.Boot: a data file that parses but is not shaped as a `{ data, lastReset }` store (for example, one without `data`, which makes a later post throw) is not modelled; `DataFile` only holds well-shaped stores.
- The clock: each timestamp is a `now` parameter, and ISO-8601 formatting is not modelled. Because of this, the model does not show that a new `lastReset` is later than the old one.
- How JavaScript renders numbers and other non-null values as text: each value is kept as its rendered text.
- Concurrent requests racing on the shared store and the file: concurrency is out of scope. Each handler is modelled as one atomic step.
- CSV quoting: the code does not quote or escape fields. So the read-back lemmas (`Csv.DocumentLines`, `Csv.RowFields`, `Server.ExportReadsBack`) assume "plain" readings, whose exported fields contain no `,` or newline. Without that assumption, lines and fields cannot be recovered.
- Aliasing of the store object: reset replaces the global object, and this is modelled as assigning the `Store` fields. The model says nothing about references to the old object.
