/** A temperature reading as the server stores it: the posted JSON object,
    keyed by field name, with a `timestamp` field. Values are kept abstract,
    by the text they render to when an array of them is joined. */
module Readings {

  /** A field value: JSON `null`, or any other value by its rendered text
      (a number such as 21.5 renders as "21.5"). */
  datatype Value = Null | Rendered(text: string)

  /** One reading: field name to value. A field that is not a key is absent
      (`undefined` in the server). */
  type Reading = map<string, Value>

  /** The name of the field that carries the time of a reading. */
  const TimestampKey: string := "timestamp"

  /** The reading built from a posted body at time `now`: an object that
      starts with `timestamp: now` and then spreads the body over it, so a
      body field of the same name replaces the server's time. */
  function Stamp(body: Reading, now: string): (r: Reading)
    ensures r.Keys == body.Keys + {TimestampKey}
    ensures forall k :: k in body ==> r[k] == body[k]
    ensures TimestampKey in body ==> r[TimestampKey] == body[TimestampKey]
    ensures TimestampKey !in body ==> r[TimestampKey] == Rendered(now)
  {
    map[TimestampKey := Rendered(now)] + body
  }

  /** How `Array.prototype.join` renders a field: `undefined` (absent) and
      `null` both become the empty string, everything else its text. */
  function Cell(r: Reading, key: string): string
  {
    if key in r && r[key].Rendered? then r[key].text else ""
  }

  /** Stamping changes the rendering of no field except the timestamp, and
      renders the timestamp as `now` unless the body brought its own. */
  lemma StampedCell(body: Reading, now: string, key: string)
    ensures key != TimestampKey ==> Cell(Stamp(body, now), key) == Cell(body, key)
    ensures key == TimestampKey && key !in body ==> Cell(Stamp(body, now), key) == now
    ensures key == TimestampKey && key in body ==> Cell(Stamp(body, now), key) == Cell(body, key)
  {
  }
}
