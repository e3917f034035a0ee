/** The target controller: the row projection handed to the pipeline, the
    listing with its per-row `meta` fallback, the PATCH validation ladder and
    the seed export (SQL quoting, INSERT lines, timestamped backup). */
module TargetsController {
  import opened Wrappers
  import opened Files
  import opened Records
  import opened Text

  // ---------------------------------------------------------------------
  // The database, as the controller sees it
  // ---------------------------------------------------------------------

  /** The `target` table.  `online` false means every statement throws. */
  class TargetTable {
    var rows: seq<Row>
    const online: bool

    ghost predicate Valid()
      reads this
    {
      SortedById(rows)
    }

    constructor (initial: seq<Row>, available: bool)
      requires SortedById(initial)
      ensures Valid() && rows == initial && online == available
    {
      rows := initial;
      online := available;
    }

    /** `SELECT * FROM target ORDER BY id ASC`. */
    method SelectAll() returns (r: Option<seq<Row>>)
      ensures r == if online then Some(rows) else None
    {
      r := if online then Some(rows) else None;
    }

    /** `SELECT COUNT(*) AS c FROM target WHERE id = ?`. */
    method CountById(id: real) returns (c: Option<nat>)
      ensures c == if online then Some(CountId(rows, id)) else None
    {
      if !online {
        return None;
      }
      var n := 0;
      var i := 0;
      while i < |rows|
        invariant 0 <= i <= |rows|
        invariant n == CountId(rows[..i], id)
      {
        CountIdSnoc(rows[..i], rows[i], id);
        assert rows[..i + 1] == rows[..i] + [rows[i]];
        if rows[i].id as real == id {
          n := n + 1;
        }
        i := i + 1;
      }
      assert rows[..|rows|] == rows;
      c := Some(n);
    }

    /** `UPDATE target SET lat = ?, lng = ? WHERE id = ?`. */
    method UpdateLocation(id: real, lat: real, lng: real) returns (ok: bool)
      requires Valid()
      modifies this
      ensures Valid()
      ensures ok == online
      ensures rows == if online then UpdateRows(old(rows), id, lat, lng) else old(rows)
    {
      ok := online;
      if online {
        rows := UpdateRows(rows, id, lat, lng);
      }
    }
  }

  /** The number of rows whose id equals `id`. */
  function CountId(rows: seq<Row>, id: real): (c: nat)
    ensures c == 0 <==> forall i :: 0 <= i < |rows| ==> rows[i].id as real != id
  {
    if rows == [] then 0
    else (if rows[0].id as real == id then 1 else 0) + CountId(rows[1..], id)
  }

  lemma {:induction false} CountIdSnoc(rows: seq<Row>, r: Row, id: real)
    ensures CountId(rows + [r], id) == CountId(rows, id) + if r.id as real == id then 1 else 0
    decreases |rows|
  {
    if rows == [] {
      assert rows + [r] == [r];
    } else {
      assert (rows + [r])[1..] == rows[1..] + [r];
      CountIdSnoc(rows[1..], r, id);
    }
  }

  /** The rows after the UPDATE: same rows in the same order, the matching
      ones with the new coordinates. */
  function UpdateRows(rows: seq<Row>, id: real, lat: real, lng: real): (r: seq<Row>)
    ensures |r| == |rows|
    ensures forall i :: 0 <= i < |rows| ==>
      r[i] == if rows[i].id as real == id then rows[i].(lat := lat, lng := lng) else rows[i]
  {
    seq(|rows|, i requires 0 <= i < |rows| =>
      if rows[i].id as real == id then rows[i].(lat := lat, lng := lng) else rows[i])
  }

  // ---------------------------------------------------------------------
  // loadTargets and listTargets
  // ---------------------------------------------------------------------

  /** `loadTargets`: each row projected with three fields of its parsed meta.
      `parse` is `JSON.parse` (None: it throws); `fields` reads the three
      properties (None: the parsed value is null, so reading throws).  Any
      failing row makes the whole call throw (None). */
  function LoadTargets<M>(rows: seq<Row>, parse: string -> Option<M>, fields: M -> Option<MetaFields>)
    : (r: Option<seq<Target>>)
    ensures r.Some? <==> forall i :: 0 <= i < |rows| ==>
      parse(rows[i].meta).Some? && fields(parse(rows[i].meta).value).Some?
    ensures r.Some? ==> |r.value| == |rows| && forall i :: 0 <= i < |rows| ==>
      var m := fields(parse(rows[i].meta).value).value;
      r.value[i] == Target(rows[i].id, rows[i].name, rows[i].lat, rows[i].lng, rows[i].series,
                           m.prefecture, m.url, m.description)
  {
    if rows == [] then Some([])
    else
      var row := rows[0];
      match parse(row.meta)
      case None => None
      case Some(v) =>
        match fields(v)
        case None => None
        case Some(m) =>
          match LoadTargets(rows[1..], parse, fields)
          case None => None
          case Some(rest) =>
            Some([Target(row.id, row.name, row.lat, row.lng, row.series, m.prefecture, m.url, m.description)] + rest)
  }

  /** A row of the listing: every column, `meta` replaced by its parse. */
  datatype Listed<M> = Listed(id: int, name: string, lat: real, lng: real, series: string, meta: Option<M>)

  /** Rows in `ORDER BY id` order load to targets with distinct ids. */
  lemma LoadedIdsDistinct<M>(rows: seq<Row>, parse: string -> Option<M>, fields: M -> Option<MetaFields>)
    requires SortedById(rows) && LoadTargets(rows, parse, fields).Some?
    ensures var ts := LoadTargets(rows, parse, fields).value;
      forall i, j :: 0 <= i < j < |ts| ==> ts[i].id != ts[j].id
  {
  }

  /** `listTargets`' row mapping: one entry per row, in row order; a row whose
      meta does not parse gets meta null and nothing else is affected. */
  function ListTargets<M>(rows: seq<Row>, parse: string -> Option<M>): (r: seq<Listed<M>>)
    ensures |r| == |rows|
    ensures forall i :: 0 <= i < |rows| ==>
      && r[i].id == rows[i].id && r[i].name == rows[i].name
      && r[i].lat == rows[i].lat && r[i].lng == rows[i].lng && r[i].series == rows[i].series
      && r[i].meta == parse(rows[i].meta)
  {
    seq(|rows|, i requires 0 <= i < |rows| =>
      Listed(rows[i].id, rows[i].name, rows[i].lat, rows[i].lng, rows[i].series, parse(rows[i].meta)))
  }

  datatype ListReply<M> = Listing(rows: seq<Listed<M>>) | ListDatabaseError

  /** The `/targets` handler: the listing, or 500 when the query throws. */
  method ListTargetsHandler<M>(db: TargetTable, parse: string -> Option<M>) returns (reply: ListReply<M>)
    ensures db.online ==> reply == Listing(ListTargets(db.rows, parse))
    ensures !db.online ==> reply == ListDatabaseError
  {
    var rows := db.SelectAll();
    if rows.None? {
      return ListDatabaseError;
    }
    reply := Listing(ListTargets(rows.value, parse));
  }

  // ---------------------------------------------------------------------
  // PATCH /target/:id
  // ---------------------------------------------------------------------

  /** A JavaScript number. */
  datatype Number = Finite(value: real) | NaN | PositiveInfinity | NegativeInfinity

  /** A value of the request body: a number or anything else (string, null,
      undefined, boolean, object). */
  datatype BodyValue = NumberValue(n: Number) | OtherValue

  /** `Number.isFinite`, which does not coerce non-numbers. */
  predicate IsFinite(v: BodyValue) {
    v.NumberValue? && v.n.Finite?
  }

  datatype Location = Location(id: real, lat: real, lng: real)

  datatype PatchReply =
    | BadRequest(error: string)
    | NotFound
    | DatabaseError
    | Updated(location: Location)

  function PatchStatus(r: PatchReply): nat {
    match r
    case BadRequest(_) => 400
    case NotFound => 404
    case DatabaseError => 500
    case Updated(_) => 200
  }

  /** The reply, the rows afterwards, and the argument of the
      `onTargetUpdated` call if one was made. */
  datatype PatchOutcome = PatchOutcome(reply: PatchReply, rows: seq<Row>, hookCall: Option<Location>)

  /** The ladder: bad id, then bad coordinates (both before the database),
      then a failing database, then a missing target, then the update. */
  function PatchSpec(rows: seq<Row>, online: bool, hasHook: bool, id: Number, lat: BodyValue, lng: BodyValue): PatchOutcome {
    if !id.Finite? then PatchOutcome(BadRequest("Invalid id"), rows, None)
    else if !IsFinite(lat) || !IsFinite(lng) then PatchOutcome(BadRequest("Invalid lat/lng"), rows, None)
    else if !online then PatchOutcome(DatabaseError, rows, None)
    else if CountId(rows, id.value) == 0 then PatchOutcome(NotFound, rows, None)
    else
      var loc := Location(id.value, lat.n.value, lng.n.value);
      PatchOutcome(Updated(loc), UpdateRows(rows, id.value, loc.lat, loc.lng), if hasHook then Some(loc) else None)
  }

  /** `patchTargetLocation`.  `id` is `Number(req.params.id)`.  The hook's own
      outcome is not an input: a hook that throws is caught and the reply is
      the same, so the hook is run by the caller on `hookCall`. */
  method PatchTargetLocation(db: TargetTable, hasHook: bool, id: Number, lat: BodyValue, lng: BodyValue)
    returns (reply: PatchReply, hookCall: Option<Location>)
    requires db.Valid()
    modifies db
    ensures db.Valid()
    ensures PatchOutcome(reply, db.rows, hookCall) == PatchSpec(old(db.rows), db.online, hasHook, id, lat, lng)
  {
    hookCall := None;
    if !id.Finite? {
      return BadRequest("Invalid id"), hookCall;
    }
    if !IsFinite(lat) || !IsFinite(lng) {
      return BadRequest("Invalid lat/lng"), hookCall;
    }
    var count := db.CountById(id.value);
    if count.None? {
      return DatabaseError, hookCall;
    }
    if count.value == 0 {
      return NotFound, hookCall;
    }
    var ok := db.UpdateLocation(id.value, lat.n.value, lng.n.value);
    var loc := Location(id.value, lat.n.value, lng.n.value);
    if hasHook {
      hookCall := Some(loc);
    }
    reply := Updated(loc);
  }

  /** The validation steps come first and touch nothing: a non-finite id is
      400 "Invalid id" whatever the coordinates and the table; finite id with
      a non-finite coordinate is 400 "Invalid lat/lng" whatever the table. */
  lemma PatchValidatesFirst(rows: seq<Row>, online: bool, hasHook: bool, id: Number, lat: BodyValue, lng: BodyValue,
                            rows2: seq<Row>, online2: bool)
    ensures !id.Finite? ==>
      PatchSpec(rows, online, hasHook, id, lat, lng) == PatchOutcome(BadRequest("Invalid id"), rows, None)
    ensures id.Finite? && !(IsFinite(lat) && IsFinite(lng)) ==>
      PatchSpec(rows, online, hasHook, id, lat, lng) == PatchOutcome(BadRequest("Invalid lat/lng"), rows, None)
    ensures !(id.Finite? && IsFinite(lat) && IsFinite(lng)) ==>
      PatchSpec(rows, online, hasHook, id, lat, lng).reply == PatchSpec(rows2, online2, hasHook, id, lat, lng).reply
  {
  }

  /** The four outcomes: a reply other than the update changes no row and
      calls no hook; the update echoes the request, moves exactly the rows
      with that id and calls the hook (when there is one) with `{id, lat, lng}`. */
  lemma PatchOutcomes(rows: seq<Row>, online: bool, hasHook: bool, id: Number, lat: BodyValue, lng: BodyValue)
    ensures var o := PatchSpec(rows, online, hasHook, id, lat, lng);
      && PatchStatus(o.reply) in {200, 400, 404, 500}
      && (!o.reply.Updated? ==> o.rows == rows && o.hookCall == None)
      && (o.reply == NotFound <==>
            id.Finite? && IsFinite(lat) && IsFinite(lng) && online && forall i :: 0 <= i < |rows| ==> rows[i].id as real != id.value)
      && (o.reply.Updated? ==>
            && id.Finite? && IsFinite(lat) && IsFinite(lng) && online
            && o.reply.location == Location(id.value, lat.n.value, lng.n.value)
            && (exists i :: 0 <= i < |rows| && rows[i].id as real == id.value)
            && o.hookCall == (if hasHook then Some(o.reply.location) else None)
            && |o.rows| == |rows|
            && forall i :: 0 <= i < |rows| ==>
                 o.rows[i] == (if rows[i].id as real == id.value then rows[i].(lat := lat.n.value, lng := lng.n.value) else rows[i]))
  {
  }

  // ---------------------------------------------------------------------
  // Seed export
  // ---------------------------------------------------------------------

  /** `s.replace(/'/g, "''")`. */
  function Esc(s: string): (r: string)
    ensures |r| >= |s|
  {
    if s == [] then []
    else if s[0] == '\'' then "''" + Esc(s[1..])
    else [s[0]] + Esc(s[1..])
  }

  /** The reading of a quoted SQL literal's body: `''` stands for one quote. */
  function Unescape(t: string): string {
    if t == [] then []
    else if |t| >= 2 && t[0] == '\'' && t[1] == '\'' then "'" + Unescape(t[2..])
    else [t[0]] + Unescape(t[1..])
  }

  /** Every quote belongs to a `''` pair: the text cannot end a literal. */
  predicate QuotesPaired(t: string) {
    if t == [] then true
    else if t[0] == '\'' then |t| >= 2 && t[1] == '\'' && QuotesPaired(t[2..])
    else QuotesPaired(t[1..])
  }

  lemma {:induction false} EscRoundTrip(s: string)
    ensures QuotesPaired(Esc(s))
    ensures Unescape(Esc(s)) == s
  {
    if s != [] {
      EscRoundTrip(s[1..]);
      if s[0] == '\'' {
        assert Esc(s)[2..] == Esc(s[1..]);
      } else {
        assert Esc(s)[1..] == Esc(s[1..]);
      }
    }
  }

  /** Conversely, every paired text is the escaping of its reading. */
  lemma {:induction false} PairedIsEscaped(t: string)
    requires QuotesPaired(t)
    ensures Esc(Unescape(t)) == t
  {
    if t != [] {
      if t[0] == '\'' {
        PairedIsEscaped(t[2..]);
        assert t == "''" + t[2..];
      } else {
        PairedIsEscaped(t[1..]);
        assert t == [t[0]] + t[1..];
      }
    }
  }

  /** One INSERT statement; `show` renders a number as JavaScript does. */
  function InsertLine(r: Row, show: real -> string): string {
    "INSERT INTO target (name,lat,lng,series,meta) VALUES ('" + Esc(r.name) + "'," + show(r.lat) + "," +
      show(r.lng) + ",'" + Esc(r.series) + "','" + Esc(r.meta) + "');"
  }

  function InsertLines(rows: seq<Row>, show: real -> string): (ls: seq<string>)
    ensures |ls| == |rows| && forall i :: 0 <= i < |rows| ==> ls[i] == InsertLine(rows[i], show)
  {
    seq(|rows|, i requires 0 <= i < |rows| => InsertLine(rows[i], show))
  }

  /** `lines.join("\n")`. */
  function Join(ls: seq<string>): string {
    if ls == [] then ""
    else if |ls| == 1 then ls[0]
    else ls[0] + "\n" + Join(ls[1..])
  }

  /** Every line followed by its own newline. */
  function Terminated(ls: seq<string>): string {
    if ls == [] then "" else ls[0] + "\n" + Terminated(ls[1..])
  }

  /** `lines.join("\n") + "\n"`: every INSERT line ended by its own newline,
      or a lone newline for an empty table. */
  function SeedText(rows: seq<Row>, show: real -> string): (s: string)
    ensures s == if rows == [] then "\n" else Terminated(InsertLines(rows, show))
  {
    var ls := InsertLines(rows, show);
    if ls == [] then Join(ls) + "\n"
    else JoinThenNewline(ls); Join(ls) + "\n"
  }

  lemma {:induction false} JoinThenNewline(ls: seq<string>)
    requires ls != []
    ensures Join(ls) + "\n" == Terminated(ls)
  {
    if |ls| > 1 {
      JoinThenNewline(ls[1..]);
      assert Terminated(ls) == ls[0] + "\n" + Terminated(ls[1..]);
    } else {
      assert Terminated(ls[1..]) == "";
    }
  }

  function CountChar(s: string, c: char): nat {
    if s == [] then 0 else (if s[0] == c then 1 else 0) + CountChar(s[1..], c)
  }

  lemma {:induction false} CountCharAppend(a: string, b: string, c: char)
    ensures CountChar(a + b, c) == CountChar(a, c) + CountChar(b, c)
    decreases |a|
  {
    if a != [] {
      assert (a + b)[0] == a[0];
      assert (a + b)[1..] == a[1..] + b;
      CountCharAppend(a[1..], b, c);
    } else {
      assert a + b == b;
    }
  }

  lemma {:induction false} TerminatedLineCount(ls: seq<string>)
    requires forall i :: 0 <= i < |ls| ==> CountChar(ls[i], '\n') == 0
    ensures CountChar(Terminated(ls), '\n') == |ls|
  {
    if ls != [] {
      TerminatedLineCount(ls[1..]);
      CountCharAppend(ls[0] + "\n", Terminated(ls[1..]), '\n');
      CountCharAppend(ls[0], "\n", '\n');
    }
  }

  /** The export is one INSERT line per row in row order, each ended by a
      newline (an empty table gives a single newline); when no field text
      holds a newline, the file has exactly one newline per row. */
  lemma SeedTextLines(rows: seq<Row>, show: real -> string)
    ensures rows == [] ==> SeedText(rows, show) == "\n"
    ensures rows != [] ==> SeedText(rows, show) == Terminated(InsertLines(rows, show))
    ensures (forall i :: 0 <= i < |rows| ==> CountChar(InsertLine(rows[i], show), '\n') == 0) ==>
      CountChar(SeedText(rows, show), '\n') == (if rows == [] then 1 else |rows|)
  {
    var ls := InsertLines(rows, show);
    if rows != [] {
      JoinThenNewline(ls);
      if forall i :: 0 <= i < |rows| ==> CountChar(InsertLine(rows[i], show), '\n') == 0 {
        TerminatedLineCount(ls);
      }
    }
  }

  /** The local calendar fields `new Date()` reports (month counted from 0). */
  datatype DateFields = DateFields(year: nat, month0: nat, day: nat, hours: nat, minutes: nat, seconds: nat, millis: nat)

  predicate ValidDate(t: DateFields) {
    t.year <= 9999 && t.month0 < 12 && 1 <= t.day <= 31 && t.hours < 24 && t.minutes < 60 && t.seconds < 60 && t.millis < 1000
  }

  /** `String(n).padStart(width, "0")`. */
  function Field(n: nat, width: nat): string {
    PadStart(NatToString(n), width)
  }

  /** `YYYYMMDD_HHMMSS.mmm`, each field zero padded: never shorter than 19
      characters, and exactly 19 for a date whose year has at most four digits. */
  function BackupSuffix(t: DateFields): (s: string)
    ensures |s| >= 19
    ensures ValidDate(t) ==> |s| == 19
  {
    FieldWidths(t);
    Stamp(Field(t.year, 4), Field(t.month0 + 1, 2), Field(t.day, 2),
          Field(t.hours, 2), Field(t.minutes, 2), Field(t.seconds, 2), Field(t.millis, 3))
  }

  /** The padded fields in order, with `_` between date and time and `.` before the milliseconds. */
  function Stamp(y: string, mo: string, d: string, h: string, mi: string, se: string, ms: string): string {
    y + mo + d + "_" + h + mi + se + "." + ms
  }

  /** Each padded field is at least its width, and exactly its width for a valid date. */
  lemma FieldWidths(t: DateFields)
    ensures |Field(t.year, 4)| >= 4 && |Field(t.month0 + 1, 2)| >= 2 && |Field(t.day, 2)| >= 2
    ensures |Field(t.hours, 2)| >= 2 && |Field(t.minutes, 2)| >= 2 && |Field(t.seconds, 2)| >= 2 && |Field(t.millis, 3)| >= 3
    ensures ValidDate(t) ==>
      && |Field(t.year, 4)| == 4 && |Field(t.month0 + 1, 2)| == 2 && |Field(t.day, 2)| == 2
      && |Field(t.hours, 2)| == 2 && |Field(t.minutes, 2)| == 2 && |Field(t.seconds, 2)| == 2 && |Field(t.millis, 3)| == 3
  {
    if ValidDate(t) {
      Pow10Small();
      FieldReadsBack(t.year, 4);
      FieldReadsBack(t.month0 + 1, 2);
      FieldReadsBack(t.day, 2);
      FieldReadsBack(t.hours, 2);
      FieldReadsBack(t.minutes, 2);
      FieldReadsBack(t.seconds, 2);
      FieldReadsBack(t.millis, 3);
    }
  }

  lemma FieldReadsBack(n: nat, width: nat)
    requires 1 <= width && n < Pow10(width)
    ensures |Field(n, width)| == width && AllDigits(Field(n, width)) && DigitsValue(Field(n, width)) == n
  {
    PaddedDecimal(n, width);
  }

  /** `s` is `YYYYMMDD_HHMMSS.mmm` spelling exactly the given field values:
      8 digits, `_`, 6 digits, `.`, 3 digits. */
  predicate StampReads(s: string, year: nat, month: nat, day: nat, hours: nat, minutes: nat, seconds: nat, millis: nat) {
    && |s| == 19 && s[8] == '_' && s[15] == '.'
    && AllDigits(s[..8]) && AllDigits(s[9..15]) && AllDigits(s[16..])
    && AllDigits(s[0..4]) && AllDigits(s[4..6]) && AllDigits(s[6..8])
    && AllDigits(s[9..11]) && AllDigits(s[11..13]) && AllDigits(s[13..15])
    && DigitsValue(s[0..4]) == year && DigitsValue(s[4..6]) == month && DigitsValue(s[6..8]) == day
    && DigitsValue(s[9..11]) == hours && DigitsValue(s[11..13]) == minutes && DigitsValue(s[13..15]) == seconds
    && DigitsValue(s[16..19]) == millis
  }

  /** For a year of at most four digits the suffix has the fixed shape and
      each field reads back as the date's value (the month one-based). */
  lemma BackupSuffixShape(t: DateFields)
    requires ValidDate(t)
    ensures StampReads(BackupSuffix(t), t.year, t.month0 + 1, t.day, t.hours, t.minutes, t.seconds, t.millis)
  {
    Pow10Small();
    var y, mo, d := Field(t.year, 4), Field(t.month0 + 1, 2), Field(t.day, 2);
    var h, mi, se, ms := Field(t.hours, 2), Field(t.minutes, 2), Field(t.seconds, 2), Field(t.millis, 3);
    assert |y| == 4 && AllDigits(y) && DigitsValue(y) == t.year by {
      FieldReadsBack(t.year, 4);
    }
    assert |mo| == 2 && AllDigits(mo) && DigitsValue(mo) == t.month0 + 1 by {
      FieldReadsBack(t.month0 + 1, 2);
    }
    assert |d| == 2 && AllDigits(d) && DigitsValue(d) == t.day by {
      FieldReadsBack(t.day, 2);
    }
    assert |h| == 2 && AllDigits(h) && DigitsValue(h) == t.hours by {
      FieldReadsBack(t.hours, 2);
    }
    assert |mi| == 2 && AllDigits(mi) && DigitsValue(mi) == t.minutes by {
      FieldReadsBack(t.minutes, 2);
    }
    assert |se| == 2 && AllDigits(se) && DigitsValue(se) == t.seconds by {
      FieldReadsBack(t.seconds, 2);
    }
    assert |ms| == 3 && AllDigits(ms) && DigitsValue(ms) == t.millis by {
      FieldReadsBack(t.millis, 3);
    }
    StampShape(y, mo, d, h, mi, se, ms, t.year, t.month0 + 1, t.day, t.hours, t.minutes, t.seconds, t.millis);
  }

  lemma Pow10Small()
    ensures Pow10(2) == 100 && Pow10(3) == 1000 && Pow10(4) == 10000
  {
  }

  lemma StampShape(y: string, mo: string, d: string, h: string, mi: string, se: string, ms: string,
                   vy: nat, vmo: nat, vd: nat, vh: nat, vmi: nat, vse: nat, vms: nat)
    requires |y| == 4 && |mo| == 2 && |d| == 2 && |h| == 2 && |mi| == 2 && |se| == 2 && |ms| == 3
    requires AllDigits(y) && AllDigits(mo) && AllDigits(d) && AllDigits(h) && AllDigits(mi) && AllDigits(se) && AllDigits(ms)
    requires DigitsValue(y) == vy && DigitsValue(mo) == vmo && DigitsValue(d) == vd
    requires DigitsValue(h) == vh && DigitsValue(mi) == vmi && DigitsValue(se) == vse && DigitsValue(ms) == vms
    ensures StampReads(Stamp(y, mo, d, h, mi, se, ms), vy, vmo, vd, vh, vmi, vse, vms)
  {
    SuffixPieces(y, mo, d, h, mi, se, ms);
  }

  lemma SuffixPieces(y: string, mo: string, d: string, h: string, mi: string, se: string, ms: string)
    requires |y| == 4 && |mo| == 2 && |d| == 2 && |h| == 2 && |mi| == 2 && |se| == 2 && |ms| == 3
    requires AllDigits(y) && AllDigits(mo) && AllDigits(d) && AllDigits(h) && AllDigits(mi) && AllDigits(se) && AllDigits(ms)
    ensures var s := Stamp(y, mo, d, h, mi, se, ms);
      && |s| == 19 && s[8] == '_' && s[15] == '.'
      && AllDigits(s[..8]) && AllDigits(s[9..15]) && AllDigits(s[16..])
      && s[0..4] == y && s[4..6] == mo && s[6..8] == d
      && s[9..11] == h && s[11..13] == mi && s[13..15] == se && s[16..19] == ms
  {
    var date, time := y + mo + d, h + mi + se;
    var s := y + mo + d + "_" + h + mi + se + "." + ms;
    assert s == date + "_" + time + "." + ms;
    assert s[..8] == date && s[9..15] == time && s[16..] == ms;
    assert date[0..4] == y && date[4..6] == mo && date[6..8] == d;
    assert time[0..2] == h && time[2..4] == mi && time[4..6] == se;
  }

  /** `SEED_FILE` (`path.resolve("db/seed.sql")`, taken relative to the working directory). */
  const SEED_FILE: Path := "db/seed.sql"

  /** `${SEED_FILE}.${timestamp}`: the seed path extended by a suffix, hence
      never the seed file itself. */
  function BackupPath(t: DateFields): (p: Path)
    ensures |p| >= |SEED_FILE| + 20 && p[..|SEED_FILE| + 1] == SEED_FILE + "."
    ensures p != SEED_FILE
  {
    SEED_FILE + "." + BackupSuffix(t)
  }

  datatype ExportReply = Exported(count: nat) | ExportFailed

  /** `exportSeed`: back up an existing seed file, then overwrite it with the
      INSERT lines of the rows.  `utf8` is the text encoding of the write. */
  function ExportSpec(d: Disk, rows: Option<seq<Row>>, now: DateFields, show: real -> string, utf8: string -> Bytes)
    : (ExportReply, Disk)
  {
    var backed :=
      if SEED_FILE in d.files then WriteDisk(d, BackupPath(now), d.files[SEED_FILE].data)
      else Some(d);
    match backed
    case None => (ExportFailed, d)
    case Some(d1) =>
      match rows
      case None => (ExportFailed, d1)
      case Some(rs) =>
        match WriteDisk(d1, SEED_FILE, utf8(SeedText(rs, show)))
        case None => (ExportFailed, d1)
        case Some(d2) => (Exported(|rs|), d2)
  }

  method ExportSeed(fs: FileSystem, db: TargetTable, now: DateFields, show: real -> string, utf8: string -> Bytes)
    returns (reply: ExportReply)
    modifies fs
    ensures (reply, fs.State()) == ExportSpec(old(fs.State()), if db.online then Some(db.rows) else None, now, show, utf8)
  {
    var present := fs.Exists(SEED_FILE);
    if present {
      var copied := fs.CopyFile(SEED_FILE, BackupPath(now));
      if !copied {
        return ExportFailed;
      }
    }
    var rows := db.SelectAll();
    if rows.None? {
      return ExportFailed;
    }
    var ok := fs.WriteFile(SEED_FILE, utf8(SeedText(rows.value, show)));
    if !ok {
      return ExportFailed;
    }
    reply := Exported(|rows.value|);
  }

  /** A successful export reports the row count, leaves the previous seed
      bytes in the timestamped backup and the new INSERT text in the seed file. */
  lemma ExportOutcome(d: Disk, rows: Option<seq<Row>>, now: DateFields, show: real -> string, utf8: string -> Bytes)
    ensures var (reply, d') := ExportSpec(d, rows, now, show, utf8);
      && (reply.Exported? <==>
            rows.Some? && SEED_FILE !in d.readOnly && (SEED_FILE in d.files ==> BackupPath(now) !in d.readOnly))
      && (reply.Exported? ==>
            && reply.count == |rows.value|
            && SEED_FILE in d'.files && d'.files[SEED_FILE].data == utf8(SeedText(rows.value, show))
            && (SEED_FILE in d.files ==>
                  BackupPath(now) in d'.files && d'.files[BackupPath(now)].data == d.files[SEED_FILE].data))
  {
  }
}
