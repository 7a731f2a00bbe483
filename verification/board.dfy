/** Turning the rows of the board's listing table into posts: the per-row
    heuristics of `parse_board_posts` (which cell is the title, where the
    link comes from, which cell is the date) and the choice of row list among
    the structural selectors. Rows arrive as sequences of cells whose text has
    already been stripped by the HTML library. */
module Board {
  import opened Wrappers
  import opened Text

  /** One `td`/`th` cell: its stripped text and the `href` attribute of the
      first anchor inside it (None when the cell has no anchor or the anchor
      has no `href`). */
  datatype Cell = Cell(text: string, anchor: Option<string>)

  type Row = seq<Cell>

  /** One board entry. */
  datatype Post = Post(title: string, date: string, link: string)

  /** The row lists the HTML library returns for the page: one per structural
      selector, in the order they are tried (`table tr`, `.board-list tr`,
      `#board-list tr`, `tbody tr`), and the list of every `tr`. */
  datatype Page = Page(candidates: seq<seq<Row>>, everyRow: seq<Row>)

  /** Origin prefixed to relative links. */
  const Origin: string := "http://www.seoulmetro.co.kr"

  /** A real entry needs at least an index, a title and a date column. */
  const MinCells: nat := 3

  /** A title cell's text is strictly longer than this. */
  const TitleLengthAbove: nat := 5

  /** A date cell's text is at least this long. */
  const MinDateLength: nat := 8

  /** The cell text looks like a title: long enough and not a bare number. */
  predicate IsTitleText(t: string)
  {
    |t| > TitleLengthAbove && !IsAsciiDigits(t)
  }

  /** The cell text looks like a date: it has a separator and is long enough. */
  predicate IsDateText(t: string)
  {
    ('-' in t || '.' in t || '/' in t) && |t| >= MinDateLength
  }

  /** `link_tag and link_tag.get('href')`: an anchor with a non-empty href. */
  predicate HasHref(anchor: Option<string>)
  {
    anchor.Some? && |anchor.value| > 0
  }

  /** Cell `i` is the first title-like cell in document order. */
  ghost predicate IsFirstTitle(row: Row, i: int)
  {
    && 0 <= i < |row|
    && IsTitleText(row[i].text)
    && forall j :: 0 <= j < i ==> !IsTitleText(row[j].text)
  }

  /** Cell `i` is the last date-like cell in document order. */
  ghost predicate IsLastDate(row: Row, i: int)
  {
    && 0 <= i < |row|
    && IsDateText(row[i].text)
    && forall j :: i < j < |row| ==> !IsDateText(row[j].text)
  }

  ghost predicate HasTitleCell(row: Row)
  {
    exists i :: 0 <= i < |row| && IsTitleText(row[i].text)
  }

  ghost predicate HasDateCell(row: Row)
  {
    exists i :: 0 <= i < |row| && IsDateText(row[i].text)
  }

  /** Forward scan for the title cell. */
  function FindTitle(row: Row): (r: Option<nat>)
    ensures r.Some? ==> IsFirstTitle(row, r.value)
    ensures r.None? ==> !HasTitleCell(row)
  {
    if |row| == 0 then None
    else if IsTitleText(row[0].text) then Some(0)
    else
      match FindTitle(row[1..])
      case None => None
      case Some(k) => Some(k + 1)
  }

  /** Backward scan for the date cell. */
  function FindDate(row: Row): (r: Option<nat>)
    ensures r.Some? ==> IsLastDate(row, r.value)
    ensures r.None? ==> !HasDateCell(row)
  {
    if |row| == 0 then None
    else if IsDateText(row[|row| - 1].text) then Some(|row| - 1)
    else FindDate(row[..|row| - 1])
  }

  /** The link of a title cell: empty without a usable href, the href itself
      when it already starts with "http", otherwise the href on the site's
      origin. */
  function ResolveLink(anchor: Option<string>): (link: string)
    ensures link == "" <==> !HasHref(anchor)
    ensures link != "" ==> StartsWith(link, "http")
    ensures HasHref(anchor) && StartsWith(anchor.value, "http") ==> link == anchor.value
    ensures HasHref(anchor) && !StartsWith(anchor.value, "http") ==> link == Origin + anchor.value
  {
    if !HasHref(anchor) then ""
    else if StartsWith(anchor.value, "http") then anchor.value
    else Origin + anchor.value
  }

  /** One row to at most one post. Rows with too few cells or without a
      title-like cell yield nothing; otherwise the title and link come from
      the first title-like cell, the date from the last date-like cell, and
      `today` stands in for a missing date. */
  function ParseRow(row: Row, today: string): (r: Option<Post>)
    ensures |row| < MinCells ==> r.None?
    ensures r.Some? <==> |row| >= MinCells && HasTitleCell(row)
    ensures r.Some? ==>
      exists i :: IsFirstTitle(row, i)
        && r.value.title == row[i].text
        && r.value.link == ResolveLink(row[i].anchor)
    ensures r.Some? && HasDateCell(row) ==>
      exists j :: IsLastDate(row, j) && r.value.date == row[j].text
    ensures r.Some? && !HasDateCell(row) ==> r.value.date == today
    ensures r.Some? ==> IsTitleText(r.value.title)
    ensures r.Some? && |today| > 0 ==> |r.value.date| > 0
  {
    if |row| < MinCells then None
    else
      match FindTitle(row)
      case None => None
      case Some(t) =>
        var date := match FindDate(row)
          case Some(d) => row[d].text
          case None => today;
        Some(Post(row[t].text, date, ResolveLink(row[t].anchor)))
  }

  /** Every row in order, keeping the posts of the rows that yield one. */
  function ParseRows(rows: seq<Row>, today: string): (posts: seq<Post>)
    ensures |posts| <= |rows|
  {
    if |rows| == 0 then []
    else
      var head := match ParseRow(rows[0], today)
        case Some(p) => [p]
        case None => [];
      head + ParseRows(rows[1..], today)
  }

  /** Parsing distributes over concatenation of row lists, so the posts come
      out in the order of their rows. */
  lemma {:induction false} ParseRowsAppend(a: seq<Row>, b: seq<Row>, today: string)
    ensures ParseRows(a + b, today) == ParseRows(a, today) + ParseRows(b, today)
    decreases |a|
  {
    if |a| == 0 {
      assert a + b == b;
    } else {
      assert (a + b)[1..] == a[1..] + b;
      ParseRowsAppend(a[1..], b, today);
    }
  }

  /** Every parsed post comes from some row. */
  lemma {:induction false} ParseRowsSound(rows: seq<Row>, today: string)
    ensures forall p :: p in ParseRows(rows, today) ==>
      exists i :: 0 <= i < |rows| && ParseRow(rows[i], today) == Some(p)
    decreases |rows|
  {
    if |rows| > 0 {
      ParseRowsSound(rows[1..], today);
      forall p | p in ParseRows(rows[1..], today)
        ensures exists i :: 0 <= i < |rows| && ParseRow(rows[i], today) == Some(p)
      {
        var i :| 0 <= i < |rows[1..]| && ParseRow(rows[1..][i], today) == Some(p);
        assert ParseRow(rows[i + 1], today) == Some(p);
      }
    }
  }

  /** Every row that yields a post contributes it. */
  lemma ParseRowsComplete(rows: seq<Row>, today: string, i: nat)
    requires i < |rows|
    ensures ParseRow(rows[i], today).Some? ==>
      ParseRow(rows[i], today).value in ParseRows(rows, today)
  {
    var before, here, after := rows[..i], [rows[i]], rows[i + 1..];
    assert rows == before + here + after;
    ParseRowsAppend(before + here, after, today);
    ParseRowsAppend(before, here, today);
    assert here[1..] == [];
  }

  /** Every parsed post has a well-formed title and a link that is empty or
      absolute. */
  lemma {:induction false} ParseRowsWellFormed(rows: seq<Row>, today: string)
    ensures forall p :: p in ParseRows(rows, today) ==>
      IsTitleText(p.title) && (p.link == "" || StartsWith(p.link, "http"))
  {
    ParseRowsSound(rows, today);
    forall p | p in ParseRows(rows, today)
      ensures IsTitleText(p.title) && (p.link == "" || StartsWith(p.link, "http"))
    {
      var i :| 0 <= i < |rows| && ParseRow(rows[i], today) == Some(p);
      var t :| IsFirstTitle(rows[i], t)
        && p.title == rows[i][t].text
        && p.link == ResolveLink(rows[i][t].anchor);
    }
  }

  /** Index `i` is the first candidate row list that is non-empty. */
  ghost predicate IsFirstNonEmpty<T>(lists: seq<seq<T>>, i: int)
  {
    && 0 <= i < |lists|
    && lists[i] != []
    && forall j :: 0 <= j < i ==> lists[j] == []
  }

  /** The row list the parser works on: the first selector that finds any
      row, or every row of the document when none does. */
  function ChooseRows<T>(candidates: seq<seq<T>>, everyRow: seq<T>): (rows: seq<T>)
    ensures (exists i :: IsFirstNonEmpty(candidates, i)) ==>
      exists i :: IsFirstNonEmpty(candidates, i) && rows == candidates[i]
    ensures (forall j :: 0 <= j < |candidates| ==> candidates[j] == []) ==>
      rows == everyRow
  {
    if |candidates| == 0 then everyRow
    else if candidates[0] != [] then candidates[0]
    else
      var rest := ChooseRows(candidates[1..], everyRow);
      assert (exists i :: IsFirstNonEmpty(candidates, i)) ==>
        exists i :: IsFirstNonEmpty(candidates[1..], i)
      by {
        if exists i :: IsFirstNonEmpty(candidates, i) {
          var i :| IsFirstNonEmpty(candidates, i);
          assert IsFirstNonEmpty(candidates[1..], i - 1);
        }
      }
      rest
  }

  /** The posts of a fetched page. */
  function ParseBoard(page: Page, today: string): (posts: seq<Post>)
    ensures |posts| <= |ChooseRows(page.candidates, page.everyRow)|
  {
    ParseRows(ChooseRows(page.candidates, page.everyRow), today)
  }
}
