/** The temperature service: one process-wide store of readings with the
    time of its last reset, mirrored to a data file after every change, and
    the handlers that read it, append to it, reset it and export it. The
    current time and the data file found at start-up are parameters. */
module Server {
  import opened Readings
  import Csv
  import Text

  /** The whole store, `{ data, lastReset }`, as held in memory and as
      serialised to the data file. */
  datatype Snapshot = Snapshot(data: seq<Reading>, lastReset: string)

  /** The data file as found at start-up. */
  datatype DataFile = Missing | Present(contents: Snapshot)

  /** The body of a handler's response. */
  datatype Payload =
    | Message(text: string)
    | Saved(message: string, reading: Reading)
    | StoreJson(store: Snapshot)
    | Attachment(contentType: string, disposition: string, body: string)

  /** A handler's outcome: an HTTP status and what is sent. */
  datatype Response = Response(status: nat, payload: Payload)

  /** The export handler's answer for the readings `data`: 404 with a
      message when there is nothing to export, otherwise 200 with the CSV
      document as a downloadable attachment. */
  function Export(data: seq<Reading>): (r: Response)
    ensures r.status == 404 <==> |data| == 0
    ensures r.status == 200 <==> |data| > 0
    ensures |data| == 0 ==> r.payload == Message("No data to export")
    ensures |data| > 0 ==> r.payload.Attachment?
    ensures r.payload.Attachment? ==>
              && r.payload.contentType == "text/csv"
              && r.payload.disposition == "attachment; filename=temperature_data.csv"
              && r.payload.body == Csv.Document(data)
  {
    if |data| == 0 then Response(404, Message("No data to export"))
    else Response(200, Attachment("text/csv", "attachment; filename=temperature_data.csv", Csv.Document(data)))
  }

  /** What a successful export sends, read back: when every reading is
      plain, the attachment has one line more than there are readings, the
      header first, line k + 1 splits into the fields of reading k, and the
      text does not end in a newline. */
  lemma ExportReadsBack(data: seq<Reading>)
    requires |data| > 0
    requires forall k :: 0 <= k < |data| ==> Csv.Plain(data[k])
    ensures Export(data).payload.Attachment?
    ensures var lines := Text.Split(Export(data).payload.body, '\n');
            && |lines| == |data| + 1
            && Text.Split(lines[0], ',') == Csv.Columns()
            && (forall k :: 0 <= k < |data| ==> Text.Split(lines[k + 1], ',') == Csv.Fields(data[k]))
    ensures var body := Export(data).payload.body;
            |body| >= 1 && body[|body| - 1] != '\n'
  {
    Csv.DocumentLines(data);
    Csv.NoTrailingNewline(data);
    Csv.HeaderIs();
  }

  /** The store, owned by the server and shared by all handlers. */
  class Store {
    var data: seq<Reading>
    var lastReset: string
    /** What the data file holds, as last written. */
    ghost var file: Snapshot

    /** The store as one value, as `GET /api/temperature` sends it. */
    function Current(): Snapshot
      reads this
    {
      Snapshot(data, lastReset)
    }

    /** The data file holds exactly what is in memory. */
    ghost predicate Persisted()
      reads this
    {
      file == Current()
    }

    /** Start-up: a missing data file is first written as an empty store
        reset at `now`; then the file is loaded. */
    constructor Boot(disk: DataFile, now: string)
      ensures disk.Missing? ==> data == [] && lastReset == now
      ensures disk.Present? ==> Current() == disk.contents
      ensures Persisted()
    {
      var contents := if disk.Missing? then Snapshot([], now) else disk.contents;
      file := contents;
      data := contents.data;
      lastReset := contents.lastReset;
    }

    /** `GET /api/temperature`: the whole store, unfiltered. */
    method Get() returns (r: Response)
      ensures r.status == 200
      ensures r.payload == StoreJson(Snapshot(data, lastReset))
    {
      r := Response(200, StoreJson(Current()));
    }

    /** `POST /api/temperature`: stamp the body, append it as the newest
        reading, rewrite the data file, answer 201 with the stored reading. */
    method Post(body: Reading, now: string) returns (r: Response)
      modifies this
      ensures data == old(data) + [Stamp(body, now)]
      ensures lastReset == old(lastReset)
      ensures Persisted()
      ensures r == Response(201, Saved("Data saved successfully", Stamp(body, now)))
    {
      var reading := Stamp(body, now);
      data := data + [reading];
      file := Current();
      r := Response(201, Saved("Data saved successfully", reading));
    }

    /** `POST /api/reset`: replace the store by an empty one reset at `now`,
        whatever it held, and rewrite the data file. */
    method Reset(now: string) returns (r: Response)
      modifies this
      ensures data == [] && lastReset == now
      ensures Persisted()
      ensures r == Response(200, Message("Data reset successfully"))
    {
      data, lastReset := [], now;
      file := Current();
      r := Response(200, Message("Data reset successfully"));
    }

    /** `GET /api/export`: the export of the current readings; the store
        and the data file are left as they are. */
    method ExportCsv() returns (r: Response)
      ensures r == Export(data)
    {
      r := Export(data);
    }
  }
}
