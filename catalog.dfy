/**
 * The painting catalogue the downloader builds before fetching anything:
 * `findPaintings` keeps the rows of the objects table classified as
 * paintings, and `addUris` joins the published-images table onto them by
 * object id, writing each image URI into the painting it depicts.
 *
 * The tables arrive already split into rows of fields. Where the source
 * panics (a table without even a header row, a row too short for the column
 * it reads, an id that `must.Atoi` rejects) the model returns an `Error`.
 */
module Catalog {
  import opened Wrappers
  import opened Decimal

  type Row = seq<string>

  // Columns of the objects table.
  const IdColumn: nat := 0
  const TitleColumn: nat := 4
  const ArtistColumn: nat := 14
  const KindColumn: nat := 17

  // Columns of the published-images table.
  const UriColumn: nat := 2
  const ImageIdColumn: nat := 10

  datatype Error =
    | NoHeader               // `data[1:]` on a table with no rows at all
    | ShortRow(width: nat)   // a row without the column being read
    | NotAnInt(text: string) // an id that `must.Atoi` refuses

  /** A painting; the join writes its image URI in place, everything else is fixed. */
  class Painting {
    const id: int
    const artist: string
    const title: string
    var mainURI: string

    constructor (id: int, title: string, artist: string)
      ensures this.id == id && this.title == title && this.artist == artist
      ensures mainURI == ""
    {
      this.id := id;
      this.title := title;
      this.artist := artist;
      mainURI := "";
    }
  }

  /** What a selected row says about its painting. */
  datatype Record = Record(id: int, title: string, artist: string)

  // ---------------------------------------------------------------------------
  // Selection (findPaintings)

  /** A row of the objects table that the selection keeps. */
  predicate IsPaintingRow(row: Row) {
    |row| > KindColumn && row[KindColumn] == "Painting"
  }

  /** What one row after the header contributes: nothing, one record, or a panic. */
  function SelectRow(row: Row): Result<seq<Record>, Error> {
    if |row| <= KindColumn then Failure(ShortRow(|row|))
    else if row[KindColumn] != "Painting" then Success([])
    else match Atoi(row[IdColumn])
      case None => Failure(NotAnInt(row[IdColumn]))
      case Some(id) => Success([Record(id, row[TitleColumn], row[ArtistColumn])])
  }

  /** The rows after the header, in order; the first failing row decides the error. */
  function SelectRows(rows: seq<Row>): Result<seq<Record>, Error> {
    if rows == [] then Success([])
    else match SelectRows(rows[..|rows| - 1])
      case Failure(e) => Failure(e)
      case Success(recs) =>
        match SelectRow(rows[|rows| - 1])
        case Failure(e) => Failure(e)
        case Success(more) => Success(recs + more)
  }

  /** The whole objects table: the first row is the header and is skipped. */
  function Selection(data: seq<Row>): Result<seq<Record>, Error> {
    if data == [] then Failure(NoHeader) else SelectRows(data[1..])
  }

  /** A row the selection reads without panicking. */
  predicate ReadableObject(row: Row) {
    |row| > KindColumn && (row[KindColumn] == "Painting" ==> Atoi(row[IdColumn]).Some?)
  }

  /** The painting rows among `rows`, in order (an independent reference definition). */
  function PaintingRows(rows: seq<Row>): (r: seq<Row>)
    ensures |r| <= |rows|
    ensures forall k :: 0 <= k < |r| ==> IsPaintingRow(r[k])
  {
    if rows == [] then []
    else (if IsPaintingRow(rows[0]) then [rows[0]] else []) + PaintingRows(rows[1..])
  }

  /** `p` was built from record `r`. */
  predicate Describes(p: Painting, r: Record) {
    p.id == r.id && p.title == r.title && p.artist == r.artist
  }

  /** Once a prefix of the rows fails, the whole table fails with the same error. */
  lemma {:induction false} SelectRowsFailureSticks(rows: seq<Row>, k: nat)
    requires k <= |rows|
    requires SelectRows(rows[..k]).Failure?
    ensures SelectRows(rows) == SelectRows(rows[..k])
    decreases |rows|
  {
    if k < |rows| {
      assert rows[..|rows| - 1][..k] == rows[..k];
      SelectRowsFailureSticks(rows[..|rows| - 1], k);
    } else {
      assert rows[..k] == rows;
    }
  }

  /** The selection fails with the error of its first unreadable row. */
  lemma SelectRowsErrorAt(rows: seq<Row>, k: nat)
    requires k < |rows| && !ReadableObject(rows[k])
    requires forall j :: 0 <= j < k ==> ReadableObject(rows[j])
    ensures SelectRow(rows[k]).Failure?
    ensures SelectRows(rows) == SelectRow(rows[k])
  {
    SelectRowsSucceeds(rows[..k]);
    SelectRowsNext(rows, k);
    SelectRowsFailureSticks(rows, k + 1);
  }

  lemma {:induction false} PaintingRowsAppend(a: seq<Row>, b: seq<Row>)
    ensures PaintingRows(a + b) == PaintingRows(a) + PaintingRows(b)
    decreases |a|
  {
    if a != [] {
      assert (a + b)[1..] == a[1..] + b;
      PaintingRowsAppend(a[1..], b);
    } else {
      assert a + b == b;
    }
  }

  /** The selection keeps exactly the painting rows: every one of them, and nothing else. */
  lemma {:induction false} PaintingRowsMembers(rows: seq<Row>, row: Row)
    ensures row in PaintingRows(rows) <==> row in rows && IsPaintingRow(row)
    decreases |rows|
  {
    if rows != [] {
      PaintingRowsMembers(rows[1..], row);
      assert rows == [rows[0]] + rows[1..];
    }
  }

  /** The table parses exactly when every row after the header can be read. */
  lemma {:induction false} SelectRowsSucceeds(rows: seq<Row>)
    ensures SelectRows(rows).Success? <==> forall i :: 0 <= i < |rows| ==> ReadableObject(rows[i])
    decreases |rows|
  {
    if rows != [] {
      var init := rows[..|rows| - 1];
      SelectRowsSucceeds(init);
      assert forall i :: 0 <= i < |init| ==> init[i] == rows[i];
    }
  }

  lemma SelectionSucceeds(data: seq<Row>)
    ensures Selection(data).Success? <==>
      data != [] && forall i :: 1 <= i < |data| ==> ReadableObject(data[i])
  {
    if data != [] {
      SelectRowsSucceeds(data[1..]);
      assert forall i :: 1 <= i < |data| ==> data[1..][i - 1] == data[i];
    }
  }

  /** `rec` is what the selection builds from `row`: the integer in column 0, column 4, column 14. */
  predicate BuiltFrom(rec: Record, row: Row) {
    |row| > ArtistColumn && Atoi(row[IdColumn]) == Some(rec.id)
    && rec.title == row[TitleColumn] && rec.artist == row[ArtistColumn]
  }

  /** Records and rows that match up one to one. */
  predicate AllBuiltFrom(recs: seq<Record>, rows: seq<Row>) {
    |recs| == |rows| && forall k :: 0 <= k < |recs| ==> BuiltFrom(recs[k], rows[k])
  }

  lemma AllBuiltFromAppend(r1: seq<Record>, p1: seq<Row>, r2: seq<Record>, p2: seq<Row>)
    requires AllBuiltFrom(r1, p1) && AllBuiltFrom(r2, p2)
    ensures AllBuiltFrom(r1 + r2, p1 + p2)
  {
    forall k | 0 <= k < |r1 + r2| ensures BuiltFrom((r1 + r2)[k], (p1 + p2)[k]) {
      if k >= |r1| {
        assert (r1 + r2)[k] == r2[k - |r1|] && (p1 + p2)[k] == p2[k - |p1|];
      }
    }
  }

  /** A row that reads cleanly yields the record built from it exactly when it is a painting row. */
  lemma SelectRowBuilt(row: Row)
    requires SelectRow(row).Success?
    ensures AllBuiltFrom(SelectRow(row).value, PaintingRows([row]))
  {
    assert [row][1..] == [];
  }

  /**
   * On success, the k-th record is built from the k-th painting row: its id
   * is the integer in column 0, its title column 4, its artist column 14.
   */
  lemma {:induction false} SelectRowsArePaintingRows(rows: seq<Row>)
    requires SelectRows(rows).Success?
    ensures AllBuiltFrom(SelectRows(rows).value, PaintingRows(rows))
    decreases |rows|
  {
    if rows != [] {
      var init, last := rows[..|rows| - 1], rows[|rows| - 1];
      assert rows == init + [last];
      SelectRowsArePaintingRows(init);
      PaintingRowsAppend(init, [last]);
      SelectRowBuilt(last);
      AllBuiltFromAppend(SelectRows(init).value, PaintingRows(init), SelectRow(last).value, PaintingRows([last]));
    }
  }

  lemma SelectionArePaintingRows(data: seq<Row>)
    requires Selection(data).Success?
    ensures AllBuiltFrom(Selection(data).value, PaintingRows(data[1..]))
  {
    SelectRowsArePaintingRows(data[1..]);
  }

  /** The header row takes no part in the selection, whatever it holds. */
  lemma SelectionIgnoresHeader(h1: Row, h2: Row, rest: seq<Row>)
    ensures Selection([h1] + rest) == Selection([h2] + rest)
  {
    assert ([h1] + rest)[1..] == rest == ([h2] + rest)[1..];
  }

  /** One more row after a prefix that reads cleanly. */
  lemma SelectRowsNext(rows: seq<Row>, i: nat)
    requires i < |rows| && SelectRows(rows[..i]).Success?
    ensures SelectRows(rows[..i + 1]) ==
      match SelectRow(rows[i])
      case Failure(e) => Failure(e)
      case Success(more) => Success(SelectRows(rows[..i]).value + more)
  {
    assert rows[..i + 1][..i] == rows[..i];
  }

  /** `ps` are the paintings built from `recs`, in order, none with a URI yet. */
  predicate BuiltAll(ps: seq<Painting>, recs: seq<Record>)
    reads ps
  {
    |ps| == |recs| && forall k :: 0 <= k < |ps| ==> Describes(ps[k], recs[k]) && ps[k].mainURI == ""
  }

  lemma BuiltAllAppend(a: seq<Painting>, ra: seq<Record>, b: seq<Painting>, rb: seq<Record>)
    requires BuiltAll(a, ra) && BuiltAll(b, rb)
    ensures BuiltAll(a + b, ra + rb)
  {
    forall k | |a| <= k < |a + b| ensures Describes((a + b)[k], (ra + rb)[k]) && (a + b)[k].mainURI == "" {
      assert (a + b)[k] == b[k - |a|] && (ra + rb)[k] == rb[k - |a|];
    }
  }

  /** The body of the loop of `findPaintings`: the paintings one row after the header adds. */
  method ReadObjectRow(line: Row) returns (r: Result<seq<Painting>, Error>)
    ensures r.Failure? <==> SelectRow(line).Failure?
    ensures r.Failure? ==> r.error == SelectRow(line).error
    ensures r.Success? ==> BuiltAll(r.value, SelectRow(line).value)
    ensures r.Success? ==> forall k :: 0 <= k < |r.value| ==> fresh(r.value[k])
    ensures r.Success? ==> |r.value| <= 1
  {
    if |line| <= KindColumn {
      return Failure(ShortRow(|line|));
    }
    if line[KindColumn] != "Painting" {
      return Success([]);
    }
    var id := Atoi(line[IdColumn]);
    if id.None? {
      return Failure(NotAnInt(line[IdColumn]));
    }
    var p := new Painting(id.value, line[TitleColumn], line[ArtistColumn]);
    return Success([p]);
  }

  /** findPaintings: one fresh painting per selected row, in table order, with no URI yet. */
  method FindPaintings(data: seq<Row>) returns (r: Result<seq<Painting>, Error>)
    ensures r.Failure? <==> Selection(data).Failure?
    ensures r.Failure? ==> r.error == Selection(data).error
    ensures r.Success? ==> |r.value| == |Selection(data).value|
    ensures r.Success? ==> forall i :: 0 <= i < |r.value| ==>
      Describes(r.value[i], Selection(data).value[i]) && r.value[i].mainURI == ""
    ensures r.Success? ==> forall i :: 0 <= i < |r.value| ==> fresh(r.value[i])
    ensures r.Success? ==> forall i, j :: 0 <= i < j < |r.value| ==> r.value[i] != r.value[j]
  {
    if data == [] {
      return Failure(NoHeader);
    }
    var rows := data[1..];
    var ps: seq<Painting> := [];
    var i := 0;
    while i < |rows|
      invariant 0 <= i <= |rows|
      invariant SelectRows(rows[..i]).Success?
      invariant BuiltAll(ps, SelectRows(rows[..i]).value)
      invariant forall k :: 0 <= k < |ps| ==> fresh(ps[k])
      invariant forall k, j :: 0 <= k < j < |ps| ==> ps[k] != ps[j]
    {
      SelectRowsNext(rows, i);
      var more := ReadObjectRow(rows[i]);
      if more.Failure? {
        SelectRowsFailureSticks(rows, i + 1);
        return Failure(more.error);
      }
      BuiltAllAppend(ps, SelectRows(rows[..i]).value, more.value, SelectRow(rows[i]).value);
      ps := ps + more.value;
      i := i + 1;
    }
    assert rows[..i] == rows;
    return Success(ps);
  }

  // ---------------------------------------------------------------------------
  // Join (addUris)

  /** The id-to-painting map `addUris` builds: a later painting with the same id wins. */
  function IndexById(ps: seq<Painting>): (m: map<int, Painting>)
    ensures forall id | id in m :: m[id].id == id
    ensures forall i | 0 <= i < |ps| :: ps[i].id in m
  {
    if ps == [] then map[]
    else IndexById(ps[..|ps| - 1])[ps[|ps| - 1].id := ps[|ps| - 1]]
  }

  /** The map holds only paintings of the list, and a key for every id in it. */
  lemma {:induction false} IndexByIdKeys(ps: seq<Painting>, id: int)
    ensures id in IndexById(ps) <==> exists i :: 0 <= i < |ps| && ps[i].id == id
    ensures id in IndexById(ps) ==> IndexById(ps)[id] in ps
    decreases |ps|
  {
    if ps != [] {
      var init := ps[..|ps| - 1];
      IndexByIdKeys(init, id);
      if id in IndexById(init) {
        var i :| 0 <= i < |init| && init[i].id == id;
        assert ps[i] == init[i];
      }
      if exists i :: 0 <= i < |ps| && ps[i].id == id {
        var i :| 0 <= i < |ps| && ps[i].id == id;
        if i < |init| {
          assert init[i] == ps[i];
        }
      }
    }
  }

  /** A row of the published-images table that names `id` in its object column. */
  predicate RowFor(row: Row, id: int) {
    |row| > ImageIdColumn && Atoi(row[ImageIdColumn]) == Some(id)
  }

  /** The URI column of the last row that names `id`, if any row does. */
  function LastUri(rows: seq<Row>, id: int): Option<string> {
    if rows == [] then None
    else if RowFor(rows[|rows| - 1], id) then Some(rows[|rows| - 1][UriColumn])
    else LastUri(rows[..|rows| - 1], id)
  }

  /** The panic one row after the header raises in `addUris`, if any. */
  function ImageRowError(row: Row): Option<Error> {
    if |row| <= ImageIdColumn then Some(ShortRow(|row|))
    else if Atoi(row[ImageIdColumn]).None? then Some(NotAnInt(row[ImageIdColumn]))
    else None
  }

  function FirstImageRowError(rows: seq<Row>): Option<Error> {
    if rows == [] then None
    else if ImageRowError(rows[0]).Some? then ImageRowError(rows[0])
    else FirstImageRowError(rows[1..])
  }

  /** The panic `addUris` raises on the published-images table, if any. */
  function JoinError(data: seq<Row>): Option<Error> {
    if data == [] then Some(NoHeader) else FirstImageRowError(data[1..])
  }

  /**
   * The URI `addUris` leaves on painting `p` of `ps`, which held `before`:
   * if `p` is the painting the id map keeps for its id and some row names
   * that id, the URI of the last such row; otherwise `before`.
   */
  function JoinedUri(ps: seq<Painting>, rows: seq<Row>, p: Painting, before: string): string {
    var m := IndexById(ps);
    if p.id in m && m[p.id] == p then LastUri(rows, p.id).GetOr(before) else before
  }

  /** The join reads the whole table without panicking exactly when every row after the header is readable. */
  lemma {:induction false} FirstImageRowErrorNone(rows: seq<Row>)
    ensures FirstImageRowError(rows).None? <==>
      forall i :: 0 <= i < |rows| ==> ImageRowError(rows[i]).None?
    decreases |rows|
  {
    if rows != [] {
      FirstImageRowErrorNone(rows[1..]);
      assert forall i :: 1 <= i < |rows| ==> rows[1..][i - 1] == rows[i];
    }
  }

  /** The panic is raised by the first unreadable row. */
  lemma {:induction false} FirstImageRowErrorAt(rows: seq<Row>, k: nat)
    requires k < |rows| && ImageRowError(rows[k]).Some?
    requires forall j :: 0 <= j < k ==> ImageRowError(rows[j]).None?
    ensures FirstImageRowError(rows) == ImageRowError(rows[k])
    decreases k
  {
    if k > 0 {
      FirstImageRowErrorAt(rows[1..], k - 1);
    }
  }

  /** Only the last painting of each id is in the map. */
  lemma {:induction false} IndexByIdLast(ps: seq<Painting>, i: nat)
    requires i < |ps|
    requires forall k :: i < k < |ps| ==> ps[k].id != ps[i].id
    ensures IndexById(ps)[ps[i].id] == ps[i]
    decreases |ps|
  {
    if i < |ps| - 1 {
      IndexByIdLast(ps[..|ps| - 1], i);
    }
  }

  /** The URI of the last row that names `id` is found, whatever rows come before it. */
  lemma {:induction false} LastUriAt(rows: seq<Row>, id: int, j: nat)
    requires j < |rows| && RowFor(rows[j], id)
    requires forall k :: j < k < |rows| ==> !RowFor(rows[k], id)
    ensures LastUri(rows, id) == Some(rows[j][UriColumn])
    decreases |rows|
  {
    if j < |rows| - 1 {
      LastUriAt(rows[..|rows| - 1], id, j);
    }
  }

  /** No URI is found exactly when no row names the id. */
  lemma {:induction false} LastUriNone(rows: seq<Row>, id: int)
    ensures LastUri(rows, id).None? <==> forall k :: 0 <= k < |rows| ==> !RowFor(rows[k], id)
    decreases |rows|
  {
    if rows != [] {
      var init := rows[..|rows| - 1];
      LastUriNone(init, id);
      assert forall k :: 0 <= k < |init| ==> init[k] == rows[k];
    }
  }

  /**
   * A painting with no later painting of the same id (every painting, when
   * ids are distinct) gets the URI of the last row naming it, or keeps its own.
   */
  lemma JoinedUriDistinct(ps: seq<Painting>, rows: seq<Row>, i: nat, before: string)
    requires i < |ps|
    requires forall k :: i < k < |ps| ==> ps[k].id != ps[i].id
    ensures JoinedUri(ps, rows, ps[i], before) == LastUri(rows, ps[i].id).GetOr(before)
  {
    IndexByIdLast(ps, i);
  }

  /** A painting followed by a different painting with the same id is left as it was. */
  lemma JoinedUriShadowed(ps: seq<Painting>, rows: seq<Row>, i: nat, before: string)
    requires i < |ps|
    requires forall a, b :: 0 <= a < b < |ps| ==> ps[a] != ps[b]
    requires exists k :: i < k < |ps| && ps[k].id == ps[i].id
    ensures JoinedUri(ps, rows, ps[i], before) == before
  {
    var k :| i < k < |ps| && ps[k].id == ps[i].id;
    var last := LastWithId(ps, ps[i].id, k);
    IndexByIdLast(ps, last);
  }

  /** From any painting with `id`, the last painting with that id is at or after it. */
  lemma LastWithId(ps: seq<Painting>, id: int, k: nat) returns (last: nat)
    requires k < |ps| && ps[k].id == id
    ensures k <= last < |ps| && ps[last].id == id
    ensures forall m :: last < m < |ps| ==> ps[m].id != id
    decreases |ps| - k
  {
    if exists m :: k < m < |ps| && ps[m].id == id {
      var m :| k < m < |ps| && ps[m].id == id;
      last := LastWithId(ps, id, m);
    } else {
      last := k;
    }
  }

  /** What one more row of the published-images table does to a painting's joined URI. */
  lemma JoinedUriStep(ps: seq<Painting>, rows: seq<Row>, line: Row, p: Painting, before: string)
    requires p in ps
    ensures var m := IndexById(ps);
      JoinedUri(ps, rows + [line], p, before) ==
        if RowFor(line, p.id) && m[p.id] == p then line[UriColumn] else JoinedUri(ps, rows, p, before)
  {
    assert (rows + [line])[..|rows|] == rows;
  }

  /** The first loop of `addUris`: the id map over all paintings. */
  method IndexPaintings(paintings: seq<Painting>) returns (pmap: map<int, Painting>)
    ensures pmap == IndexById(paintings)
  {
    pmap := map[];
    var i := 0;
    while i < |paintings|
      invariant 0 <= i <= |paintings|
      invariant pmap == IndexById(paintings[..i])
    {
      assert paintings[..i + 1][..i] == paintings[..i];
      pmap := pmap[paintings[i].id := paintings[i]];
      i := i + 1;
    }
    assert paintings[..i] == paintings;
  }

  /** The URIs the paintings hold, in order. */
  function Uris(ps: seq<Painting>): (r: seq<string>)
    reads ps
    ensures |r| == |ps|
    ensures forall j :: 0 <= j < |ps| ==> r[j] == ps[j].mainURI
  {
    if ps == [] then [] else Uris(ps[..|ps| - 1]) + [ps[|ps| - 1].mainURI]
  }

  /** Every painting holds the URI the join over `rows` gives it, starting from `before`. */
  predicate JoinedOver(ps: seq<Painting>, rows: seq<Row>, before: seq<string>)
    requires |before| == |ps|
    reads ps
  {
    forall j :: 0 <= j < |ps| ==> ps[j].mainURI == JoinedUri(ps, rows, ps[j], before[j])
  }

  /**
   * The body of the second loop of `addUris`: read the row's object id and,
   * when the map holds a painting for it, write the row's URI into it.
   */
  method JoinRow(paintings: seq<Painting>, pmap: map<int, Painting>, rows: seq<Row>, k: nat,
                 ghost before: seq<string>) returns (err: Option<Error>)
    requires pmap == IndexById(paintings) && |before| == |paintings| && k < |rows|
    requires JoinedOver(paintings, rows[..k], before)
    modifies paintings
    ensures err == ImageRowError(rows[k])
    ensures err.None? ==> JoinedOver(paintings, rows[..k + 1], before)
  {
    var line := rows[k];
    ghost var done := rows[..k];
    assert rows[..k + 1] == done + [line];
    if |line| <= ImageIdColumn {
      return Some(ShortRow(|line|));
    }
    var id := Atoi(line[ImageIdColumn]);
    if id.None? {
      return Some(NotAnInt(line[ImageIdColumn]));
    }
    assert RowFor(line, id.value);
    forall j | 0 <= j < |paintings| {
      JoinedUriStep(paintings, done, line, paintings[j], before[j]);
    }
    if id.value in pmap {
      var p := pmap[id.value];
      IndexByIdKeys(paintings, id.value);
      p.mainURI := line[UriColumn];
    }
    return None;
  }

  /** The second loop of `addUris`, over the rows after the header; the first bad row stops it. */
  method JoinRows(paintings: seq<Painting>, pmap: map<int, Painting>, rows: seq<Row>) returns (err: Option<Error>)
    requires pmap == IndexById(paintings)
    modifies paintings
    ensures err == FirstImageRowError(rows)
    ensures err.None? ==> JoinedOver(paintings, rows, old(Uris(paintings)))
  {
    ghost var before := Uris(paintings);
    var k := 0;
    while k < |rows|
      invariant 0 <= k <= |rows|
      invariant forall j :: 0 <= j < k ==> ImageRowError(rows[j]).None?
      invariant JoinedOver(paintings, rows[..k], before)
    {
      err := JoinRow(paintings, pmap, rows, k, before);
      if err.Some? {
        FirstImageRowErrorAt(rows, k);
        return;
      }
      k := k + 1;
    }
    FirstImageRowErrorNone(rows);
    assert rows[..k] == rows;
    return None;
  }

  /**
   * addUris: index the paintings by id, then for each row after the header
   * write its URI into the painting the map holds for the row's id. Rows
   * naming no painting change nothing.
   */
  method AddUris(paintings: seq<Painting>, data: seq<Row>) returns (err: Option<Error>)
    modifies paintings
    ensures err == JoinError(data)
    ensures err.None? ==> forall i :: 0 <= i < |paintings| ==>
      paintings[i].mainURI == JoinedUri(paintings, data[1..], paintings[i], old(paintings[i].mainURI))
  {
    var pmap := IndexPaintings(paintings);
    if data == [] {
      return Some(NoHeader);
    }
    err := JoinRows(paintings, pmap, data[1..]);
  }
}
