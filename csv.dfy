/** What `scrape_series.php` and `data-scraper.php` share: CSV lines as lists of cells, the
    CUID of an episode container, the stream URL of a redirect id, and the CUID column of a
    block of rows. */
module ForjaCsv {
  import opened Php
  import opened Patterns
  import opened ForjaSite

  /** One CSV line, as `fgetcsv` returns it and `fputcsv` writes it. */
  type Row = seq<string>

  const UnknownSeries: string := "UnknownSeries"
  const Session: string := "S01"
  const ItemSuffix: string := "?lang=fr"
  const StreamPrefix: string := "https://forja.uplaytv3117.workers.dev/index.m3u8?id="

  /** `$data[0]`; a blank line reads as one null cell, which is the key "". */
  function FirstCell(row: Row): string {
    if row == [] then "" else row[0]
  }

  /** The CUID of a container's tile image; a missing image reads as "". */
  function ContainerCuid(c: Container): Option<string> {
    TileImageId(c.image.GetOr(""))
  }

  function StreamUrl(id: string): string {
    StreamPrefix + id
  }

  /** The name column of a page: its title meta as it is, or `UnknownSeries`. */
  function PageName(page: SeriesPage): string {
    page.title.GetOr(UnknownSeries)
  }

  /** The CUID column of a block of rows. */
  function RowCuids(rows: seq<Row>): set<string> {
    set k | 0 <= k < |rows| :: FirstCell(rows[k])
  }

  lemma RowCuidsConcat(a: seq<Row>, b: seq<Row>)
    ensures RowCuids(a + b) == RowCuids(a) + RowCuids(b)
  {
    var ab := a + b;
    forall x | x in RowCuids(ab) ensures x in RowCuids(a) + RowCuids(b) {
      var k :| 0 <= k < |ab| && FirstCell(ab[k]) == x;
      if k < |a| { assert ab[k] == a[k]; } else { assert ab[k] == b[k - |a|]; }
    }
    forall x | x in RowCuids(a) ensures x in RowCuids(ab) {
      var k :| 0 <= k < |a| && FirstCell(a[k]) == x;
      assert ab[k] == a[k];
    }
    forall x | x in RowCuids(b) ensures x in RowCuids(ab) {
      var k :| 0 <= k < |b| && FirstCell(b[k]) == x;
      assert ab[|a| + k] == b[k];
    }
  }
}
