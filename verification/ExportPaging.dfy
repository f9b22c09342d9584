/** Keyset export: cursor text, the page cut by count and bytes, and a client that follows `next_cursor`
    while rows keep arriving. */
module ExportPaging {
  import opened Wrappers
  import opened Storage

  const PAGE_LIMIT := 100
  const PAGE_CONTENT_BYTE_BUDGET := 8 * 1024 * 1024
  const USIZE_MAX := 0xFFFF_FFFF_FFFF_FFFF
  const I64_MIN := -0x8000_0000_0000_0000
  const I64_MAX := 0x7FFF_FFFF_FFFF_FFFF

  // ----- cursor text -----

  function Digit(d: nat): char
    requires d < 10
  {
    ['0', '1', '2', '3', '4', '5', '6', '7', '8', '9'][d]
  }

  predicate IsDigit(c: char)
  {
    '0' <= c <= '9'
  }

  function PrintNat(n: nat): string
  {
    if n < 10 then [Digit(n)] else PrintNat(n / 10) + [Digit(n % 10)]
  }

  function PrintInt(n: int): string
  {
    if n < 0 then "-" + PrintNat(-n) else PrintNat(n)
  }

  function ParseNat(s: string): (r: Option<nat>)
  {
    if s == "" || !IsDigit(s[|s| - 1]) then None
    else
      var last := s[|s| - 1] as int - '0' as int;
      if |s| == 1 then Some(last)
      else
        match ParseNat(s[..|s| - 1])
        case None => None
        case Some(n) => Some(10 * n + last)
  }

  /** `str::parse::<i64>`: one optional sign, at least one digit, no overflow. */
  function ParseI64(s: string): Option<int>
  {
    if s == "" then None
    else
      var negative := s[0] == '-';
      match ParseNat(if s[0] == '-' || s[0] == '+' then s[1..] else s)
      case None => None
      case Some(n) =>
        var v := if negative then 0 - n else n as int;
        if I64_MIN <= v <= I64_MAX then Some(v) else None
  }

  datatype Cursor = Cursor(at: int, id: string)

  const START := Cursor(0, "")

  /** Position of the first ':', |s| when there is none. */
  function ColonAt(s: string): (i: nat)
    ensures i <= |s| && (i < |s| ==> s[i] == ':') && forall k :: 0 <= k < i ==> s[k] != ':'
  {
    if s == "" || s[0] == ':' then 0 else 1 + ColonAt(s[1..])
  }

  /** An absent or empty cursor is the start; "<at>" alone is the old form. */
  function ParseCursor(s: Option<string>): Option<Cursor>
  {
    if s.None? || s.value == "" then Some(START)
    else
      var i := ColonAt(s.value);
      match ParseI64(s.value[..i])
      case None => None
      case Some(at) => Some(Cursor(at, if i < |s.value| then s.value[i + 1..] else ""))
  }

  function FormatCursor(at: int, id: string): string
  {
    PrintInt(at) + ":" + id
  }

  lemma {:induction false} PrintNatParses(n: nat)
    ensures ParseNat(PrintNat(n)) == Some(n)
    ensures PrintNat(n) != "" && forall i :: 0 <= i < |PrintNat(n)| ==> IsDigit(PrintNat(n)[i])
  {
    if n >= 10 {
      PrintNatParses(n / 10);
      DigitValue(n % 10);
      ParseSnoc(PrintNat(n / 10), Digit(n % 10));
    } else {
      DigitValue(n);
    }
  }

  lemma ParseSnoc(s: string, c: char)
    requires s != "" && IsDigit(c) && ParseNat(s).Some?
    ensures ParseNat(s + [c]) == Some(10 * ParseNat(s).value + (c as int - '0' as int))
  {
    assert (s + [c])[..|s|] == s;
  }

  lemma DigitValue(d: nat)
    requires d < 10
    ensures IsDigit(Digit(d)) && Digit(d) as int - '0' as int == d
  {
  }

  lemma PrintIntParses(at: int)
    requires I64_MIN <= at <= I64_MAX
    ensures PrintInt(at) != "" && ParseI64(PrintInt(at)) == Some(at)
    ensures forall k :: 0 <= k < |PrintInt(at)| ==> PrintInt(at)[k] != ':'
  {
    var digits := PrintNat(if at < 0 then -at else at);
    PrintNatParses(if at < 0 then -at else at);
    if at < 0 {
      assert PrintInt(at)[0] == '-' && PrintInt(at)[1..] == digits;
    } else {
      assert PrintInt(at) == digits && IsDigit(digits[0]);
    }
  }

  // ----- what a cursor text means -----

  predicate AllDigits(s: string)
  {
    forall i :: 0 <= i < |s| ==> IsDigit(s[i])
  }

  function PowerOfTen(n: nat): nat
  {
    if n == 0 then 1 else 10 * PowerOfTen(n - 1)
  }

  /** The number that decimal digits spell, read from the left by place value. */
  function Value(s: string): nat
    requires AllDigits(s)
  {
    if s == "" then 0 else (s[0] as int - '0' as int) * PowerOfTen(|s| - 1) + Value(s[1..])
  }

  lemma {:induction false} ValueSnoc(s: string, c: char)
    requires AllDigits(s) && IsDigit(c)
    ensures AllDigits(s + [c]) && Value(s + [c]) == 10 * Value(s) + (c as int - '0' as int)
  {
    var all := s + [c];
    if s == "" {
      assert all[1..] == "" && PowerOfTen(0) == 1;
    } else {
      assert all[1..] == s[1..] + [c];
      ValueSnoc(s[1..], c);
      TenTimes(s[0] as int - '0' as int, PowerOfTen(|s| - 1));
    }
  }

  lemma TenTimes(d: int, p: int)
    ensures d * (10 * p) == 10 * (d * p)
  {
  }

  lemma {:induction false} ParseNatMeans(s: string)
    ensures ParseNat(s).Some? <==> s != "" && AllDigits(s)
    ensures ParseNat(s).Some? ==> ParseNat(s).value == Value(s)
  {
    if s == "" {
    } else {
      var n := |s| - 1;
      assert s == s[..n] + [s[n]];
      ParseNatMeans(s[..n]);
      if AllDigits(s) { ValueSnoc(s[..n], s[n]); }
    }
  }

  /** Optional sign, at least one digit, and the number fits 64 bits. */
  predicate IsI64Text(s: string, v: int)
  {
    && s != ""
    && var digits := if s[0] == '-' || s[0] == '+' then s[1..] else s;
    && digits != "" && AllDigits(digits)
    && v == (if s[0] == '-' then 0 - Value(digits) else Value(digits))
    && -0x8000_0000_0000_0000 <= v <= 0x7FFF_FFFF_FFFF_FFFF
  }

  /** What stands before the first colon is the time, what stands behind it the id; without a colon (the
      old form) the whole text is the time and the id is empty. Text whose time is not a 64-bit integer
      is refused, and no cursor at all is the start. */
  lemma CursorMeans(s: string)
    requires s != ""
    ensures var i := ColonAt(s);
            && (forall c :: ParseCursor(Some(s)) == Some(c) <==>
                  IsI64Text(s[..i], c.at) && c.id == if i < |s| then s[i + 1..] else "")
            && (ParseCursor(Some(s)) == None <==> forall at :: !IsI64Text(s[..i], at))
    ensures ParseCursor(None) == ParseCursor(Some("")) == Some(Cursor(0, ""))
  {
    var text := s[..ColonAt(s)];
    if text != "" {
      ParseNatMeans(if text[0] == '-' || text[0] == '+' then text[1..] else text);
      I64Means(text);
    }
    if ParseCursor(Some(s)).Some? { assert IsI64Text(text, ParseCursor(Some(s)).value.at); }
  }

  lemma I64Means(text: string)
    requires text != ""
    ensures forall v :: ParseI64(text) == Some(v) <==> IsI64Text(text, v)
  {
    ParseNatMeans(if text[0] == '-' || text[0] == '+' then text[1..] else text);
  }

  /** Every cursor the export hands out is read back as the same pair, whatever the id contains. */
  lemma CursorRoundTrip(at: int, id: string)
    requires I64_MIN <= at <= I64_MAX
    ensures ParseCursor(Some(FormatCursor(at, id))) == Some(Cursor(at, id))
  {
    var text, s := PrintInt(at), FormatCursor(at, id);
    PrintIntParses(at);
    ColonUnique(s, |text|);
    assert s[..|text|] == text && s[|text| + 1..] == id;
  }

  lemma ColonUnique(s: string, i: nat)
    requires i < |s| && s[i] == ':' && forall k :: 0 <= k < i ==> s[k] != ':'
    ensures ColonAt(s) == i
  {
  }

  // ----- the query -----

  predicate After(r: Raw, c: Cursor)
  {
    KeyLess(c.at, c.id, r.createdAt, r.id)
  }

  /** Rows of one owner's table beyond the cursor, in key order. */
  function Beyond(table: seq<Raw>, c: Cursor): (rs: seq<Raw>)
    ensures forall r :: r in rs <==> r in table && After(r, c)
    ensures |rs| <= |table|
  {
    if table == [] then []
    else
      assert forall r :: r in table <==> r == table[0] || r in table[1..];
      if After(table[0], c) then [table[0]] + Beyond(table[1..], c) else Beyond(table[1..], c)
  }

  /** ... `LIMIT 101`. */
  function Fetch(table: seq<Raw>, c: Cursor): seq<Raw>
  {
    var rs := Beyond(table, c);
    if |rs| <= PAGE_LIMIT + 1 then rs else rs[..PAGE_LIMIT + 1]
  }

  lemma {:induction false} BeyondOrdered(table: seq<Raw>, c: Cursor)
    requires Ordered(table)
    ensures Ordered(Beyond(table, c))
  {
    if table == [] {
    } else {
      BeyondOrdered(table[1..], c);
      var rest := Beyond(table[1..], c);
      forall j | 0 <= j < |rest| ensures Before(table[0], rest[j]) {
        assert rest[j] in rest && rest[j] in table[1..];
      }
    }
  }

  // ----- the page cut -----

  function Bytes(rs: seq<Raw>): nat
  {
    if rs == [] then 0 else Bytes(rs[..|rs| - 1]) + |rs[|rs| - 1].content|
  }

  /** The longest prefix of at most 100 rows within 8 MiB; a first row that is too big goes alone. */
  ghost predicate IsPage(rows: seq<Raw>, n: nat)
  {
    && n <= |rows| && n <= PAGE_LIMIT && (rows != [] ==> 0 < n)
    && (n <= 1 || Bytes(rows[..n]) <= PAGE_CONTENT_BYTE_BUDGET)
    && (n < |rows| && n < PAGE_LIMIT ==> PAGE_CONTENT_BYTE_BUDGET < Bytes(rows[..n + 1]))
  }

  function SaturatingAdd(a: nat, b: nat): nat
  {
    if a + b <= USIZE_MAX then a + b else USIZE_MAX
  }

  datatype Export = Export(page: seq<Raw>, next: Option<string>)

  /** The cursor that names the last row of a page. */
  function CursorAfter(page: seq<Raw>): string
    requires page != []
  {
    FormatCursor(page[|page| - 1].createdAt, page[|page| - 1].id)
  }

  /** The page and cursor for the fetched rows. */
  method CutPage(rows: seq<Raw>) returns (r: Export)
    requires |rows| <= PAGE_LIMIT + 1
    ensures exists n: nat :: IsPage(rows, n) && r.page == rows[..n]
    ensures r.next.Some? <==> |r.page| < |rows|
    ensures r.next.Some? ==> r.page != [] && r.next.value == CursorAfter(r.page)
  {
    var fetchedMoreThanLimit := |rows| > PAGE_LIMIT;
    var page, byteBudgetOverflow := FillPage(rows);
    var next := None;
    if byteBudgetOverflow || fetchedMoreThanLimit {
      next := Some(CursorAfter(page));
    }
    r := Export(page, next);
  }

  lemma BytesOfNext(rows: seq<Raw>, k: nat)
    requires k < |rows|
    ensures rows[..k + 1] == rows[..k] + [rows[k]] && Bytes(rows[..k + 1]) == Bytes(rows[..k]) + |rows[k].content|
  {
    assert rows[..k + 1][..k] == rows[..k];
  }

  /** Rows are taken until the hundredth, or until one more would pass the byte budget. */
  method FillPage(rows: seq<Raw>) returns (page: seq<Raw>, byteBudgetOverflow: bool)
    ensures |page| <= |rows| && page == rows[..|page|] && IsPage(rows, |page|)
    ensures byteBudgetOverflow <==> |page| < |rows| && |page| < PAGE_LIMIT
  {
    var contentBytesTotal: nat := 0;
    page, byteBudgetOverflow := [], false;
    var k := 0;
    while k < |rows| && k < PAGE_LIMIT
      invariant k <= |rows| && k <= PAGE_LIMIT && page == rows[..k] && !byteBudgetOverflow
      invariant contentBytesTotal == if Bytes(page) <= USIZE_MAX then Bytes(page) else USIZE_MAX
      invariant k <= 1 || Bytes(page) <= PAGE_CONTENT_BYTE_BUDGET
    {
      var r := rows[k];
      BytesOfNext(rows, k);
      var nextTotal := SaturatingAdd(contentBytesTotal, |r.content|);
      if page != [] && PAGE_CONTENT_BYTE_BUDGET < nextTotal {
        byteBudgetOverflow := true;
        return;
      }
      contentBytesTotal := nextTotal;
      page := page + [r];
      k := k + 1;
    }
  }

  /** What one call answers for a cursor. */
  ghost predicate Serves(table: seq<Raw>, c: Cursor, r: Export)
  {
    var rows := Fetch(table, c);
    && (exists n: nat :: IsPage(rows, n) && r.page == rows[..n])
    && (r.next.Some? <==> |r.page| < |rows|)
    && (r.next.Some? ==> r.page != [] && r.next.value == CursorAfter(r.page))
  }

  /** A page is a head of the rows beyond the cursor, cut only where a hundred rows or 8 MiB are full. */
  lemma PageIsLongest(table: seq<Raw>, c: Cursor, r: Export)
    requires Serves(table, c, r)
    ensures var all, n := Beyond(table, c), |r.page|;
            && n <= |all| && r.page == all[..n] && (r.next.Some? <==> n < |all|)
            && (n < |all| ==> n == 100 || Bytes(all[..n]) + |all[n].content| > 8_388_608)
  {
    var all, rows := Beyond(table, c), Fetch(table, c);
    var n: nat :| IsPage(rows, n) && r.page == rows[..n];
    assert rows[..n] == all[..n];
    if n < |rows| { BytesOfNext(rows, n); }
  }

  /** `export`: None is the "invalid cursor" error. */
  method ExportPage(table: seq<Raw>, cursor: Option<string>) returns (r: Option<Export>)
    ensures r.None? <==> ParseCursor(cursor).None?
    ensures r.Some? ==> Serves(table, ParseCursor(cursor).value, r.value)
    ensures r.Some? ==>
              var rows, n := Beyond(table, ParseCursor(cursor).value), |r.value.page|;
              && n <= |rows| && r.value.page == rows[..n] && (r.value.next.Some? <==> n < |rows|)
              && (n < |rows| ==> n == 100 || Bytes(rows[..n]) + |rows[n].content| > 8_388_608)
    ensures r.Some? ==> |r.value.page| <= PAGE_LIMIT
    ensures r.Some? ==> |r.value.page| <= 1 || Bytes(r.value.page) <= PAGE_CONTENT_BYTE_BUDGET
  {
    var c := ParseCursor(cursor);
    if c.None? {
      return None;
    }
    var page := CutPage(Fetch(table, c.value));
    PageWithinBudget(table, c.value, page);
    PageIsLongest(table, c.value, page);
    r := Some(page);
  }

  /** A page stays within eight mebibytes unless it is a single row, and within a hundred rows. */
  lemma PageWithinBudget(table: seq<Raw>, c: Cursor, r: Export)
    requires Serves(table, c, r)
    ensures |r.page| <= PAGE_LIMIT && (|r.page| <= 1 || Bytes(r.page) <= PAGE_CONTENT_BYTE_BUDGET)
  {
    var n: nat :| IsPage(Fetch(table, c), n) && r.page == Fetch(table, c)[..n];
  }

  // ----- following next_cursor -----

  predicate InRange(table: seq<Raw>)
  {
    forall r :: r in table ==> I64_MIN <= r.createdAt <= I64_MAX
  }

  predicate Included(before: seq<Raw>, after: seq<Raw>)
  {
    forall r :: r in before ==> r in after
  }

  /** The table at each request: always in key order, rows only arrive, times fit in 64 bits. */
  ghost predicate GrowingTable(tables: nat -> seq<Raw>)
  {
    && (forall k: nat :: Ordered(tables(k)) && InRange(tables(k)))
    && (forall j: nat, k: nat :: j <= k ==> Included(tables(j), tables(k)))
  }

  /** The cursor sent with request `k`. */
  function Sent(pages: seq<Export>, k: nat): Option<string>
    requires k <= |pages|
  {
    if k == 0 then None else pages[k - 1].next
  }

  /** The call with cursor text `sent` answers `r`. */
  ghost predicate Answers(table: seq<Raw>, sent: Option<string>, r: Export)
  {
    ParseCursor(sent).Some? && Serves(table, ParseCursor(sent).value, r)
  }

  /** The client asks with the cursor of the page before and stops only when there is none. */
  ghost predicate Follows(tables: nat -> seq<Raw>, pages: seq<Export>)
  {
    pages == [] ||
    var n := |pages| - 1;
    && Follows(tables, pages[..n])
    && (n > 0 ==> pages[n - 1].next.Some?)
    && Answers(tables(n), Sent(pages, n), pages[n])
  }

  function Rows(pages: seq<Export>): seq<Raw>
  {
    if pages == [] then [] else Rows(pages[..|pages| - 1]) + pages[|pages| - 1].page
  }

  /** A page is the head of what lies beyond the cursor, and all of it when there is no next cursor. */
  lemma PageIsHead(table: seq<Raw>, c: Cursor, r: Export) returns (n: nat)
    requires Serves(table, c, r)
    ensures n <= |Beyond(table, c)| && r.page == Beyond(table, c)[..n]
    ensures r.next.None? ==> n == |Beyond(table, c)|
    ensures r.next.Some? ==> 0 < n
  {
    n :| IsPage(Fetch(table, c), n) && r.page == Fetch(table, c)[..n];
  }

  /** One page hands out exactly the rows up to its own cursor, in order. */
  lemma PageDelivers(table: seq<Raw>, c: Cursor, r: Export)
    requires Ordered(table) && Serves(table, c, r)
    ensures Ordered(r.page) && forall x :: x in r.page ==> x in table && After(x, c)
    ensures forall x :: x in table && After(x, c) ==> x in r.page || r.next.Some?
    ensures r.next.Some? ==>
              var last := r.page[|r.page| - 1];
              forall x :: x in table && After(x, c) && !After(x, Cursor(last.createdAt, last.id)) ==> x in r.page
  {
    var all := Beyond(table, c);
    BeyondOrdered(table, c);
    var n := PageIsHead(table, c, r);
    if r.next.None? { assert r.page == all; }
    if r.next.Some? {
      var last := r.page[n - 1];
      forall x | x in all && !After(x, Cursor(last.createdAt, last.id)) ensures x in r.page {
        HeadTakesUpTo(all, n, x);
      }
    }
  }

  lemma HeadTakesUpTo(all: seq<Raw>, n: nat, x: Raw)
    requires Ordered(all) && 0 < n <= |all| && x in all
    requires !After(x, Cursor(all[n - 1].createdAt, all[n - 1].id))
    ensures x in all[..n]
  {
    forall j | n <= j < |all| ensures all[j] != x { assert Before(all[n - 1], all[j]); }
    var i :| 0 <= i < |all| && all[i] == x;
    assert all[..n][i] == x;
  }

  lemma OrderedConcat(a: seq<Raw>, b: seq<Raw>)
    requires Ordered(a) && Ordered(b)
    requires forall x, y :: x in a && y in b ==> Before(x, y)
    ensures Ordered(a + b)
  {
    forall i, j | 0 <= i < j < |a + b| ensures Before((a + b)[i], (a + b)[j]) {
      if i < |a| <= j { assert (a + b)[i] in a && (a + b)[j] in b; }
    }
  }

  /** The rows so far, against the cursor that comes next. */
  ghost predicate DeliveredTo(first: seq<Raw>, rows: seq<Raw>, c: Cursor)
  {
    && Ordered(rows)
    && (forall x :: x in rows ==> !After(x, c) && After(x, START))
    && (forall x :: x in first && After(x, START) && !After(x, c) ==> x in rows)
  }

  lemma NotAfterThenBefore(x: Raw, c: Cursor, y: Raw)
    requires !After(x, c) && After(y, c)
    ensures Before(x, y)
  {
    TextLessTotal(x.id, c.id);
    if x.createdAt == c.at == y.createdAt && TextLess(x.id, c.id) { TextLessTransitive(x.id, c.id, y.id); }
  }

  /** Nothing that was delivered lies beyond the cursor that names the last row of the page. */
  lemma NothingBehind(rows: seq<Raw>, page: seq<Raw>, c: Cursor)
    requires Ordered(page) && page != []
    requires forall x :: x in rows ==> !After(x, c)
    requires forall x :: x in page ==> After(x, c)
    ensures var last := page[|page| - 1];
            forall x :: x in rows + page ==> !After(x, Cursor(last.createdAt, last.id))
  {
    var last := page[|page| - 1];
    forall x | x in rows + page ensures !After(x, Cursor(last.createdAt, last.id)) {
      if x in rows {
        NotAfterThenBefore(x, c, last);
      } else {
        var i :| 0 <= i < |page| && page[i] == x;
        assert i < |page| - 1 ==> Before(page[i], last);
      }
      KeyLessNot(x.createdAt, x.id, last.createdAt, last.id);
    }
  }

  lemma PageGoesOn(rows: seq<Raw>, page: seq<Raw>, c: Cursor)
    requires Ordered(rows) && Ordered(page) && (c == START || KeyLess(0, "", c.at, c.id))
    requires forall x :: x in rows ==> !After(x, c)
    requires forall x :: x in page ==> After(x, c)
    ensures Ordered(rows + page) && forall y :: y in page ==> After(y, START)
  {
    forall x, y | x in rows && y in page ensures Before(x, y) { NotAfterThenBefore(x, c, y); }
    OrderedConcat(rows, page);
    forall y | y in page ensures After(y, START) {
      if c != START { KeyLessTransitive(0, "", c.at, c.id, y.createdAt, y.id); }
    }
  }

  lemma Delivery(first: seq<Raw>, table: seq<Raw>, rows: seq<Raw>, c: Cursor, r: Export)
    requires Ordered(table) && (forall x :: x in first ==> x in table)
    requires DeliveredTo(first, rows, c) && Serves(table, c, r) && (c == START || KeyLess(0, "", c.at, c.id))
    ensures Ordered(rows + r.page)
    ensures r.next.None? ==> forall x :: x in first && After(x, START) ==> x in rows + r.page
    ensures r.next.Some? ==>
              var last := r.page[|r.page| - 1];
              DeliveredTo(first, rows + r.page, Cursor(last.createdAt, last.id)) && After(last, START)
  {
    PageDelivers(table, c, r);
    PageGoesOn(rows, r.page, c);
    if r.next.Some? {
      NothingBehind(rows, r.page, c);
    }
  }

  lemma KeyLessNot(at: int, id: string, at': int, id': string)
    requires KeyLess(at, id, at', id') || (at == at' && id == id')
    ensures !KeyLess(at', id', at, id)
  {
    TextLessTotal(id, id');
  }

  /** Where the export stands after `pages`. */
  ghost predicate Delivered(first: seq<Raw>, pages: seq<Export>)
    requires pages != []
  {
    var next := pages[|pages| - 1].next;
    && Ordered(Rows(pages))
    && (next.None? ==> forall x :: x in first && After(x, START) ==> x in Rows(pages))
    && (next.Some? ==> ParseCursor(next).Some? && DeliveredTo(first, Rows(pages), ParseCursor(next).value)
                         && KeyLess(0, "", ParseCursor(next).value.at, ParseCursor(next).value.id))
  }

  lemma NextCursor(table: seq<Raw>, c: Cursor, r: Export)
    requires Ordered(table) && Serves(table, c, r) && r.next.Some?
    requires InRange(table)
    ensures var last := r.page[|r.page| - 1];
            last in table && After(last, c) && ParseCursor(r.next) == Some(Cursor(last.createdAt, last.id))
  {
    PageDelivers(table, c, r);
    var last := r.page[|r.page| - 1];
    assert last in r.page;
    CursorRoundTrip(last.createdAt, last.id);
  }

  lemma DeliveredByOneMore(first: seq<Raw>, table: seq<Raw>, pages: seq<Export>, c: Cursor)
    requires pages != [] && Ordered(table) && InRange(table) && Included(first, table)
    requires Serves(table, c, pages[|pages| - 1])
    requires DeliveredTo(first, Rows(pages[..|pages| - 1]), c) && (c == START || KeyLess(0, "", c.at, c.id))
    ensures Delivered(first, pages)
  {
    var r := pages[|pages| - 1];
    Delivery(first, table, Rows(pages[..|pages| - 1]), c, r);
    if r.next.Some? { NextCursor(table, c, r); }
  }

  lemma {:induction false} DeliveryInvariant(tables: nat -> seq<Raw>, pages: seq<Export>)
    requires GrowingTable(tables) && Follows(tables, pages) && pages != []
    ensures Delivered(tables(0), pages)
  {
    var n := |pages| - 1;
    if n == 0 {
    } else {
      DeliveryInvariant(tables, pages[..n]);
    }
    var first, table := tables(0), tables(n);
    assert Included(first, table);
    DeliveredByOneMore(first, table, pages, ParseCursor(Sent(pages, n)).value);
  }

  /** A finished export holds every row that was there at the start (and sorts after the empty cursor)
      exactly once and in (created_at, id) order, although rows arrived meanwhile. */
  lemma {:induction false} ExportIsComplete(tables: nat -> seq<Raw>, pages: seq<Export>)
    requires GrowingTable(tables) && Follows(tables, pages) && pages != [] && pages[|pages| - 1].next.None?
    ensures Ordered(Rows(pages))
    ensures forall i, j :: 0 <= i < j < |Rows(pages)| ==> Rows(pages)[i] != Rows(pages)[j]
    ensures forall x :: x in tables(0) && (0 < x.createdAt || (x.createdAt == 0 && x.id != "")) ==> x in Rows(pages)
  {
    DeliveryInvariant(tables, pages);
    forall i, j | 0 <= i < j < |Rows(pages)| ensures Rows(pages)[i] != Rows(pages)[j] {
      assert Before(Rows(pages)[i], Rows(pages)[j]);
      KeyLessNot(Rows(pages)[i].createdAt, Rows(pages)[i].id, Rows(pages)[j].createdAt, Rows(pages)[j].id);
    }
  }

  // ----- termination -----

  lemma {:induction false} BeyondShrinks(table: seq<Raw>, c: Cursor, c': Cursor)
    requires KeyLess(c.at, c.id, c'.at, c'.id)
    ensures |Beyond(table, c')| <= |Beyond(table, c)|
    ensures (exists x :: x in table && After(x, c) && !After(x, c')) ==> |Beyond(table, c')| < |Beyond(table, c)|
  {
    if table == [] {
    } else {
      BeyondShrinks(table[1..], c, c');
      if After(table[0], c') {
        KeyLessTransitive(c.at, c.id, c'.at, c'.id, table[0].createdAt, table[0].id);
      }
      assert forall r :: r in table <==> r == table[0] || r in table[1..];
    }
  }

  /** Each page but the last leaves fewer rows beyond its cursor. */
  lemma FewerBeyond(table: seq<Raw>, c: Cursor, r: Export)
    requires Ordered(table) && InRange(table) && Serves(table, c, r) && r.next.Some?
    ensures ParseCursor(r.next).Some?
    ensures |Beyond(table, ParseCursor(r.next).value)| < |Beyond(table, c)|
  {
    NextCursor(table, c, r);
    var last := r.page[|r.page| - 1];
    KeyLessNot(last.createdAt, last.id, last.createdAt, last.id);
    BeyondShrinks(table, c, Cursor(last.createdAt, last.id));
  }

  /** Requests so far and rows still beyond the last cursor add up to no more than the table holds. */
  ghost predicate Paid(table: seq<Raw>, pages: seq<Export>)
    requires pages != []
  {
    var next := pages[|pages| - 1].next;
    && |pages| <= |table| + 1
    && (next.Some? ==>
          ParseCursor(next).Some? && |pages| + |Beyond(table, ParseCursor(next).value)| <= |table|)
  }

  lemma PaidByOneMore(table: seq<Raw>, sent: Option<string>, pages: seq<Export>)
    requires Ordered(table) && InRange(table) && pages != []
    requires Answers(table, sent, pages[|pages| - 1])
    requires |pages| + |Beyond(table, ParseCursor(sent).value)| <= |table| + 1
    ensures Paid(table, pages)
  {
    var last := pages[|pages| - 1];
    if last.next.Some? { FewerBeyond(table, ParseCursor(sent).value, last); }
  }

  /** On a table that does not change, an export of n rows takes at most n + 1 requests. */
  lemma {:induction false} ExportTerminates(table: seq<Raw>, tables: nat -> seq<Raw>, pages: seq<Export>)
    requires Ordered(table) && InRange(table) && (forall k: nat :: tables(k) == table)
    requires Follows(tables, pages) && pages != []
    ensures Paid(table, pages) && |pages| <= |table| + 1
  {
    var n := |pages| - 1;
    assert tables(n) == table;
    if n == 0 {
      PaidByOneMore(table, None, pages);
    } else {
      ExportTerminates(table, tables, pages[..n]);
      PaidByOneMore(table, pages[n - 1].next, pages);
    }
  }
}
