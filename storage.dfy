/**
 * Price records and the JSON files that hold them ("data.json" for the BRL
 * channel, "xrp_usd_data.json" for the USD channel).
 *
 * A file is modelled by what a reader of it observes: it is missing, it does
 * not decode as JSON, reading it fails in some other way, or it decodes to a
 * list of price records.
 */
module Storage {

  datatype Option<+T> = None | Some(value: T)

  /** One history entry: {"timestamp": <ISO-8601 text>, "price": <number>}. */
  datatype Record = Record(timestamp: string, price: real)

  /** The contents of one history file as a reader sees it. */
  datatype Stored =
    | Missing                      // open() raises FileNotFoundError
    | Malformed                    // json.load raises JSONDecodeError
    | Unreadable                   // the read raises anything else (permissions, bad encoding, ...)
    | Records(items: seq<Record>)  // a JSON array of price records

  /** The outcome of the history reads in the quote service. */
  datatype Loaded = Loaded(history: seq<Record>) | ReadRaised

  /**
   * The read-with-fallback of the quote service: a missing or undecodable
   * file reads as the empty history; any other read error escapes.
   */
  function Load(s: Stored): (r: Loaded)
    ensures r.ReadRaised? <==> s.Unreadable?
    ensures s.Records? ==> r == Loaded(s.items)
    ensures s.Missing? || s.Malformed? ==> r == Loaded([])
  {
    match s
    case Missing => Loaded([])
    case Malformed => Loaded([])
    case Unreadable => ReadRaised
    case Records(items) => Loaded(items)
  }

  /** A full rewrite of the file with `h`; a failed write leaves the file as it was. */
  function Persist(s: Stored, h: seq<Record>, writeOk: bool): (r: Stored)
    ensures writeOk ==> Load(r) == Loaded(h)
    ensures !writeOk ==> r == s
  {
    if writeOk then Records(h) else s
  }

  /** A file on disk, shared by every component that opens the same path. */
  class JsonFile {
    var contents: Stored

    constructor (initial: Stored)
      ensures contents == initial
    {
      contents := initial;
    }
  }
}
