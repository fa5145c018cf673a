/**
 * The dashboard's application state: the discovered sessions in the chosen
 * sort order, the indices that pass the filter, the list cursor, the view
 * mode, the filter and command buffers, the configuration overview of the
 * detail view, and the mouse text selection that is copied to the
 * clipboard as an OSC 52 sequence carrying base64 (RFC 4648, section 4).
 */
module App {
  import opened Wrappers
  import opened Text
  import Utf8
  import Sorting
  import Paths
  import Session
  import Config

  type u16 = x: int | 0 <= x < 0x1_0000

  datatype ViewMode = List | Detail | Help | Filter | Harpoon | Terminal | TerminalHarpoon | Command | ConfirmQuit

  datatype SortColumn = LastActive | Project | Cost | Status | Tokens

  function SortNext(c: SortColumn): SortColumn {
    match c
    case LastActive => Project
    case Project => Cost
    case Cost => Status
    case Status => Tokens
    case Tokens => LastActive
  }

  function SortLabel(c: SortColumn): string {
    match c
    case LastActive => "Last Active"
    case Project => "Project"
    case Cost => "Cost"
    case Status => "Status"
    case Tokens => "Tokens"
  }

  /** `k` applications of `SortNext`. */
  function SortNextN(c: SortColumn, k: nat): SortColumn
    decreases k
  {
    if k == 0 then c else SortNext(SortNextN(c, k - 1))
  }

  /** Cycling the sort column visits all five columns, each once, and comes
      back to the start after five steps. */
  lemma SortCycle(c: SortColumn)
    ensures SortNextN(c, 5) == c
    ensures forall k :: 0 < k < 5 ==> SortNextN(c, k) != c
    ensures {SortNextN(c, 0), SortNextN(c, 1), SortNextN(c, 2), SortNextN(c, 3), SortNextN(c, 4)}
         == {LastActive, Project, Cost, Status, Tokens}
  {
    forall k | 0 < k < 5 ensures SortNextN(c, k) != c {
      if k == 1 {
      } else if k == 2 {
      } else if k == 3 {
      } else {
        assert SortNextN(c, 4) != c;
      }
    }
  }

  /** The column labels tell the columns apart. */
  lemma SortLabelInjective(a: SortColumn, b: SortColumn)
    ensures SortLabel(a) == SortLabel(b) <==> a == b
  {
  }

  /** The order of the Status sort: sessions at work first, dead ones last. */
  function StatusRank(s: Session.SessionStatus): (r: nat)
    ensures r <= 3
  {
    match s
    case Thinking => 0
    case Active => 1
    case Idle => 2
    case Dead => 3
  }

  lemma StatusRankOrder()
    ensures StatusRank(Session.Thinking) < StatusRank(Session.Active)
      < StatusRank(Session.Idle) < StatusRank(Session.Dead)
    ensures forall a, b :: StatusRank(a) == StatusRank(b) ==> a == b
  {
  }

  /** "`a` may stay before `b`" for each sort column: the most recently
      active, the costliest and the largest first; projects by name; status
      by rank. */
  function SortLe(col: SortColumn): (le: (Session.Session, Session.Session) -> bool)
    ensures Sorting.IsTotalPreorder(le)
  {
    match col
    case LastActive => (a: Session.Session, b: Session.Session) => b.lastActivity <= a.lastActivity
    case Project =>
      var le := (a: Session.Session, b: Session.Session) => LexLe(a.projectName, b.projectName);
      assert Sorting.IsTotalPreorder(le) by {
        forall a: Session.Session, b: Session.Session ensures le(a, b) || le(b, a) {
          LexLeTotal(a.projectName, b.projectName);
        }
        forall a: Session.Session, b: Session.Session, c: Session.Session | le(a, b) && le(b, c)
          ensures le(a, c)
        {
          LexLeTrans(a.projectName, b.projectName, c.projectName);
        }
      }
      le
    case Cost => (a: Session.Session, b: Session.Session) => Session.CostUnits(b) <= Session.CostUnits(a)
    case Status => (a: Session.Session, b: Session.Session) => StatusRank(a.status) <= StatusRank(b.status)
    case Tokens => (a: Session.Session, b: Session.Session) => Session.TotalTokens(b) <= Session.TotalTokens(a)
  }

  /** The sessions in the order of a column (see `ApplySortOrdered`), by a
      stable sort (see `ApplySortStable`). */
  function ApplySort(sessions: seq<Session.Session>, col: SortColumn): (r: seq<Session.Session>)
    ensures multiset(r) == multiset(sessions)
  {
    Sorting.Sort(sessions, SortLe(col))
  }

  /** The sorted sessions are in the order of the column. */
  lemma ApplySortOrdered(sessions: seq<Session.Session>, col: SortColumn)
    ensures Sorting.SortedBy(ApplySort(sessions, col), SortLe(col))
  {
    Sorting.SortSorted(sessions, SortLe(col));
  }

  /** The sort is stable: the sessions that tie with `x` on the column come
      out in the order they came in. */
  lemma ApplySortStable(sessions: seq<Session.Session>, col: SortColumn, x: Session.Session)
    ensures Sorting.Equivalents(ApplySort(sessions, col), x, SortLe(col)) == Sorting.Equivalents(sessions, x, SortLe(col))
  {
    Sorting.SortStable(sessions, x, SortLe(col));
  }

  /** A session passes the lower-cased query if any of its project name,
      working directory, branch, model or status label contains it, ignoring
      case; every session passes the empty query. */
  predicate Matches(s: Session.Session, query: string) {
    || query == ""
    || Contains(Lower(s.projectName), query)
    || Contains(Lower(s.cwd), query)
    || Contains(Lower(s.gitBranch.UnwrapOr("")), query)
    || Contains(Lower(s.model.UnwrapOr("")), query)
    || Contains(Lower(Session.StatusLabel(s.status)), query)
  }

  /** The indices below `n` of the sessions that pass the query, in order. */
  function FilterIndices(sessions: seq<Session.Session>, query: string, n: nat): (r: seq<nat>)
    requires n <= |sessions|
    ensures |r| <= n && forall i :: 0 <= i < |r| ==> r[i] < n
    decreases n
  {
    if n == 0 then []
    else FilterIndices(sessions, query, n - 1) + (if Matches(sessions[n - 1], query) then [n - 1] else [])
  }

  /** Every kept index is below `n`, and the kept indices increase. */
  lemma {:induction false} FilterIndicesOrdered(sessions: seq<Session.Session>, query: string, n: nat)
    requires n <= |sessions|
    ensures forall i :: 0 <= i < |FilterIndices(sessions, query, n)| ==> FilterIndices(sessions, query, n)[i] < n
    ensures forall i, j :: 0 <= i < j < |FilterIndices(sessions, query, n)| ==>
      FilterIndices(sessions, query, n)[i] < FilterIndices(sessions, query, n)[j]
    decreases n
  {
    if n > 0 {
      FilterIndicesOrdered(sessions, query, n - 1);
      var a := FilterIndices(sessions, query, n - 1);
      var t: seq<nat> := if Matches(sessions[n - 1], query) then [n - 1] else [];
      assert FilterIndices(sessions, query, n) == a + t;
      assert forall i :: 0 <= i < |a| ==> (a + t)[i] == a[i];
      assert forall i :: |a| <= i < |a| + |t| ==> (a + t)[i] == n - 1;
    }
  }

  /** An index below `n` is kept exactly when its session passes the query. */
  lemma {:induction false} FilterIndicesExact(sessions: seq<Session.Session>, query: string, n: nat)
    requires n <= |sessions|
    ensures forall k :: 0 <= k < n ==> (k in FilterIndices(sessions, query, n) <==> Matches(sessions[k], query))
    decreases n
  {
    if n > 0 {
      FilterIndicesExact(sessions, query, n - 1);
      var a := FilterIndices(sessions, query, n - 1);
      var m := Matches(sessions[n - 1], query);
      assert FilterIndices(sessions, query, n) == a + (if m then [n - 1] else []);
      SnocIndex(a, n - 1, m);
      forall k | 0 <= k < n
        ensures k in FilterIndices(sessions, query, n) <==> Matches(sessions[k], query)
      {
        if k == n - 1 {
          assert k in FilterIndices(sessions, query, n) <==> m;
        } else {
          assert k in FilterIndices(sessions, query, n) <==> k in a;
        }
      }
    }
  }

  /** Each index is smaller than the next. */
  predicate Increasing(s: seq<nat>) {
    forall i, j :: 0 <= i < j < |s| ==> s[i] < s[j]
  }

  /** Appending index `n` (or nothing) to indices below `n` keeps the
      membership of every smaller index and adds `n` exactly when asked. */
  lemma SnocIndex(a: seq<nat>, n: nat, add: bool)
    requires forall i :: 0 <= i < |a| ==> a[i] < n
    ensures forall k :: 0 <= k < n ==> (k in a + (if add then [n] else []) <==> k in a)
    ensures n in a + (if add then [n] else []) <==> add
  {
    var t: seq<nat> := if add then [n] else [];
    assert forall k :: k in a + t <==> k in a || k in t;
    assert n !in a;
  }

  /** The result of `apply_filter`: in range, increasing, and exactly the
      indices of the sessions that pass the lower-cased query. */
  function Filtered(sessions: seq<Session.Session>, filterQuery: string): (r: seq<nat>)
    ensures forall i :: 0 <= i < |r| ==> r[i] < |sessions|
    ensures forall i, j :: 0 <= i < j < |r| ==> r[i] < r[j]
    ensures forall k :: 0 <= k < |sessions| ==> (k in r <==> Matches(sessions[k], Lower(filterQuery)))
  {
    FilterIndicesOrdered(sessions, Lower(filterQuery), |sessions|);
    FilterIndicesExact(sessions, Lower(filterQuery), |sessions|);
    FilterIndices(sessions, Lower(filterQuery), |sessions|)
  }

  function AllIndices(n: nat): (r: seq<nat>)
    ensures |r| == n && forall i :: 0 <= i < n ==> r[i] == i
  {
    seq(n, i => i)
  }

  /** The empty query keeps every session, in order. */
  lemma {:induction false} EmptyQueryKeepsAll(sessions: seq<Session.Session>, n: nat)
    requires n <= |sessions|
    ensures FilterIndices(sessions, "", n) == AllIndices(n)
    decreases n
  {
    if n > 0 {
      EmptyQueryKeepsAll(sessions, n - 1);
    }
  }

  /** Without a filter every session is listed, in order. */
  lemma NoFilterListsAll(sessions: seq<Session.Session>)
    ensures Filtered(sessions, "") == AllIndices(|sessions|)
  {
    assert Lower("") == "";
    EmptyQueryKeepsAll(sessions, |sessions|);
  }

  // ----- The text selection -----

  datatype Point = Point(col: u16, row: u16)

  datatype Selection = Selection(
    start: Point,
    end: Point,
    active: bool,
    hasContent: bool,
    contentX: u16,
    contentY: u16,
    contentW: u16,
    contentH: u16)

  const NoSelection := Selection(Point(0, 0), Point(0, 0), false, false, 0, 0, 0, 0)

  /** Screen order: by row, then by column. */
  predicate PointLe(a: Point, b: Point) {
    a.row < b.row || (a.row == b.row && a.col <= b.col)
  }

  /** The selection's two ends, the earlier one first. */
  function NormalizeSelection(sel: Selection): (r: (Point, Point))
    ensures PointLe(r.0, r.1)
    ensures r == (sel.start, sel.end) || r == (sel.end, sel.start)
  {
    if PointLe(sel.start, sel.end) then (sel.start, sel.end) else (sel.end, sel.start)
  }

  /** Dragging from either end selects the same range. */
  lemma NormalizeSwap(sel: Selection)
    ensures NormalizeSelection(sel.(start := sel.end, end := sel.start)) == NormalizeSelection(sel)
  {
  }

  /** Normalizing an already normalized selection changes nothing. */
  lemma NormalizeIdempotent(sel: Selection)
    ensures var (a, b) := NormalizeSelection(sel);
      NormalizeSelection(sel.(start := a, end := b)) == (a, b)
  {
  }

  /** A cleared selection keeps only the content area. */
  function Cleared(sel: Selection): (r: Selection)
    ensures !r.active && !r.hasContent && r.start == r.end == Point(0, 0)
    ensures (r.contentX, r.contentY, r.contentW, r.contentH) == (sel.contentX, sel.contentY, sel.contentW, sel.contentH)
  {
    NoSelection.(contentX := sel.contentX, contentY := sel.contentY, contentW := sel.contentW, contentH := sel.contentH)
  }

  // ----- Base64 (RFC 4648, section 4) -----

  /** `n` consecutive characters from `first` on. */
  function CharRange(first: char, n: nat): (r: string)
    requires first as int + n <= 0xD800
    ensures |r| == n && forall i :: 0 <= i < n ==> r[i] as int == first as int + i
  {
    seq(n, i requires 0 <= i < n => (first as int + i) as char)
  }

  /** The base64 alphabet, in value order: A-Z, a-z, 0-9, '+', '/'. */
  const Chars: string := CharRange('A', 26) + CharRange('a', 26) + CharRange('0', 10) + "+/"

  predicate IsBase64Char(c: char) {
    'A' <= c <= 'Z' || 'a' <= c <= 'z' || '0' <= c <= '9' || c == '+' || c == '/'
  }

  /** The value of an alphabet character. */
  function SextetValue(c: char): (r: Option<nat>)
    ensures r.Some? <==> IsBase64Char(c)
    ensures r.Some? ==> r.value < 64
  {
    if 'A' <= c <= 'Z' then Some(c as int - 'A' as int)
    else if 'a' <= c <= 'z' then Some(c as int - 'a' as int + 26)
    else if '0' <= c <= '9' then Some(c as int - '0' as int + 52)
    else if c == '+' then Some(62)
    else if c == '/' then Some(63)
    else None
  }

  /** The alphabet is a table of 64 distinct characters: each decodes to its position. */
  lemma CharsTable(v: nat)
    requires v < 64
    ensures |Chars| == 64 && IsBase64Char(Chars[v]) && SextetValue(Chars[v]) == Some(v)
  {
  }

  /** The four six-bit groups of three bytes, most significant first: the
      top six bits of the first byte; its low two bits and the top four of
      the second; the second's low four bits and the top two of the third;
      the third's low six. */
  function Sextets(b0: byte, b1: byte, b2: byte): (s: (nat, nat, nat, nat))
    ensures s.0 < 64 && s.1 < 64 && s.2 < 64 && s.3 < 64
  {
    (b0 / 4, (b0 % 4) * 16 + b1 / 16, (b1 % 16) * 4 + b2 / 64, b2 % 64)
  }

  /** The source's arithmetic on the 24-bit number `b0 b1 b2` (shifts by 18,
      12 and 6 and a mask of six bits) picks out these groups. */
  lemma TripleSextets(b0: byte, b1: byte, b2: byte, triple: nat)
    requires triple == b0 * 65536 + b1 * 256 + b2
    ensures ((triple / 262144) % 64, (triple / 4096) % 64, (triple / 64) % 64, triple % 64) == Sextets(b0, b1, b2)
  {
    var t := triple;
    DivModOf(t, 262144, b0 / 4, (b0 % 4) * 65536 + b1 * 256 + b2);
    DivModOf(b0 / 4, 64, 0, b0 / 4);
    DivModOf(t, 4096, b0 * 16 + b1 / 16, (b1 % 16) * 256 + b2);
    DivModOf(b0 * 16 + b1 / 16, 64, b0 / 4, (b0 % 4) * 16 + b1 / 16);
    DivModOf(t, 64, b0 * 1024 + b1 * 4 + b2 / 64, b2 % 64);
    DivModOf(b0 * 1024 + b1 * 4 + b2 / 64, 64, b0 * 16 + b1 / 16, (b1 % 16) * 4 + b2 / 64);
  }

  lemma DivModOf(x: int, d: int, q: int, r: int)
    requires 0 < d && 0 <= r < d && x == q * d + r
    ensures x / d == q && x % d == r
  {
    var q', r' := x / d, x % d;
    assert (q - q') * d == r' - r;
    if q > q' {
      MulAtLeast(q - q', d);
    } else if q < q' {
      MulAtLeast(q' - q, d);
    }
  }

  lemma MulAtLeast(k: int, d: int)
    requires k >= 1 && d > 0
    ensures k * d >= d
  {
  }

  /** The character of a six-bit value: the source's `CHARS[v]`. */
  function Digit64(v: nat): (c: char)
    requires v < 64
    ensures IsBase64Char(c) && SextetValue(c) == Some(v)
  {
    CharsTable(v);
    Chars[v]
  }

  /** The four characters for `n` bytes (one to three) `b0`, `b1`, `b2`,
      the missing ones zero: '=' stands for each missing byte. */
  function EncodeGroup(b0: byte, b1: byte, b2: byte, n: nat): (r: string)
    requires 1 <= n <= 3
    ensures |r| == 4
  {
    var s := Sextets(b0, b1, b2);
    [Digit64(s.0), Digit64(s.1), if n > 1 then Digit64(s.2) else '=', if n > 2 then Digit64(s.3) else '=']
  }

  /** One chunk of one to three bytes as four characters. */
  function EncodeChunk(chunk: seq<byte>): (r: string)
    requires 1 <= |chunk| <= 3
    ensures |r| == 4
  {
    EncodeGroup(chunk[0], if |chunk| > 1 then chunk[1] else 0, if |chunk| > 2 then chunk[2] else 0, |chunk|)
  }

  /** Base64 of `data`: consecutive chunks of three bytes, the last possibly shorter. */
  function Base64(data: seq<byte>): (r: string)
    ensures |r| % 4 == 0 && (|r| == 0 <==> |data| == 0)
    decreases |data|
  {
    if |data| == 0 then ""
    else if |data| <= 3 then EncodeChunk(data)
    else EncodeChunk(data[..3]) + Base64(data[3..])
  }

  /** Four characters for every started chunk of three bytes. */
  lemma {:induction false} Base64Length(data: seq<byte>)
    ensures |Base64(data)| == 4 * ((|data| + 2) / 3)
    decreases |data|
  {
    var n := |data|;
    if n > 3 {
      Base64Length(data[3..]);
      assert (n + 2) / 3 == (n - 1) / 3 + 1;
    } else if n > 0 {
      assert (n + 2) / 3 == 1;
    }
  }

  /** The number of '=' that pad the base64 of `n` bytes. */
  function PadCount(n: nat): (p: nat)
    ensures p < 3
  {
    (3 - n % 3) % 3
  }

  /** Padding fills exactly the last `pad` characters of `r`; every other
      character is from the alphabet. */
  predicate PaddedShape(r: string, pad: nat) {
    forall i :: 0 <= i < |r| ==> (r[i] == '=' <==> i >= |r| - pad) && (r[i] == '=' || IsBase64Char(r[i]))
  }

  /** Every character is from the alphabet except the padding, which is
      exactly the last `PadCount` characters: "==" after one leftover byte,
      "=" after two, none otherwise. */
  lemma {:induction false} Base64Shape(data: seq<byte>)
    ensures PaddedShape(Base64(data), PadCount(|data|))
    decreases |data|
  {
    var n := |data|;
    if n > 3 {
      var head := EncodeChunk(data[..3]);
      var tail := Base64(data[3..]);
      var r := Base64(data);
      var p := PadCount(n);
      Base64Shape(data[3..]);
      GroupShape(data[..3]);
      assert r == head + tail;
      DivModOf(n - 3, 3, n / 3 - 1, n % 3);
      assert PadCount(|data[3..]|) == p;
      ShapeCons(head, tail, p);
    } else if n > 0 {
      GroupShape(data);
    }
  }

  /** A chunk without padding followed by a shaped text is shaped. */
  lemma ShapeCons(head: string, tail: string, p: nat)
    requires PaddedShape(head, 0) && PaddedShape(tail, p) && p <= |tail|
    ensures PaddedShape(head + tail, p)
  {
    var r := head + tail;
    forall i | 0 <= i < |r|
      ensures (r[i] == '=' <==> i >= |r| - p) && (r[i] == '=' || IsBase64Char(r[i]))
    {
      if i >= |head| {
        assert r[i] == tail[i - |head|];
      } else {
        assert r[i] == head[i];
      }
    }
  }

  lemma GroupShape(chunk: seq<byte>)
    requires 1 <= |chunk| <= 3
    ensures PaddedShape(EncodeChunk(chunk), PadCount(|chunk|))
    ensures |chunk| == 3 ==> PaddedShape(EncodeChunk(chunk), 0)
  {
    var h := EncodeChunk(chunk);
    var p := PadCount(|chunk|);
    assert IsBase64Char(h[0]) && IsBase64Char(h[1]);
    assert |chunk| > 1 <==> IsBase64Char(h[2]);
    assert |chunk| > 2 <==> IsBase64Char(h[3]);
    assert p == 3 - |chunk|;
  }

  /** The three bytes spread over four six-bit values `a`, `b`, `c`, `d`. */
  function Byte0(a: nat, b: nat): (r: byte) requires a < 64 && b < 64 { a * 4 + b / 16 }
  function Byte1(b: nat, c: nat): (r: byte) requires b < 64 && c < 64 { (b % 16) * 16 + c / 4 }
  function Byte2(c: nat, d: nat): (r: byte) requires c < 64 && d < 64 { (c % 4) * 64 + d }

  /** The bytes read back from the six-bit groups are the bytes encoded. */
  lemma BytesOfSextets(b0: byte, b1: byte, b2: byte)
    ensures var s := Sextets(b0, b1, b2);
      Byte0(s.0, s.1) == b0 && Byte1(s.1, s.2) == b1 && Byte2(s.2, s.3) == b2
  {
    var s := Sextets(b0, b1, b2);
    DivModOf(s.1, 16, b0 % 4, b1 / 16);
    DivModOf(s.2, 4, b1 % 16, b2 / 64);
  }

  /** A group of four characters back to its one to three bytes; padding is
      accepted only in the last group. */
  function DecodeGroup(g: string, last: bool): (r: Option<seq<byte>>)
    requires |g| == 4
    ensures r.Some? ==> 1 <= |r.value| <= 3
  {
    var a, b, c, d := SextetValue(g[0]), SextetValue(g[1]), SextetValue(g[2]), SextetValue(g[3]);
    if a.None? || b.None? then None
    else if g[2] == '=' then
      if g[3] == '=' && last then Some([Byte0(a.value, b.value)]) else None
    else if c.None? then None
    else if g[3] == '=' then
      if last then Some([Byte0(a.value, b.value), Byte1(b.value, c.value)]) else None
    else if d.None? then None
    else Some([Byte0(a.value, b.value), Byte1(b.value, c.value), Byte2(c.value, d.value)])
  }

  /** Base64 text back to bytes; None for text that is not a whole number of
      well-formed groups. */
  function Base64Decode(s: string): Option<seq<byte>>
    decreases |s|
  {
    if |s| == 0 then Some([])
    else if |s| < 4 then None
    else match DecodeGroup(s[..4], |s| == 4)
      case None => None
      case Some(bs) =>
        match Base64Decode(s[4..])
        case None => None
        case Some(rest) => Some(bs + rest)
  }

  lemma DecodeEncodeGroup(b0: byte, b1: byte, b2: byte, n: nat, last: bool)
    requires 1 <= n <= 3 && (n < 3 ==> last)
    requires n < 2 ==> b1 == 0
    requires n < 3 ==> b2 == 0
    ensures DecodeGroup(EncodeGroup(b0, b1, b2, n), last) == Some([b0, b1, b2][..n])
  {
    BytesOfSextets(b0, b1, b2);
    var g := EncodeGroup(b0, b1, b2, n);
    if n == 3 {
      assert [b0, b1, b2][..n] == [b0, b1, b2];
    } else if n == 2 {
      assert [b0, b1, b2][..n] == [b0, b1];
    } else {
      assert [b0, b1, b2][..n] == [b0];
    }
  }

  /** Decoding the base64 of any bytes gives the bytes back. */
  lemma {:induction false} Base64RoundTrip(data: seq<byte>)
    ensures Base64Decode(Base64(data)) == Some(data)
    decreases |data|
  {
    if |data| > 0 {
      var k := if |data| < 3 then |data| else 3;
      var chunk := data[..k];
      var b1: byte := if k > 1 then chunk[1] else 0;
      var b2: byte := if k > 2 then chunk[2] else 0;
      DecodeEncodeGroup(chunk[0], b1, b2, k, |data| <= 3);
      assert [chunk[0], b1, b2][..k] == chunk;
      if |data| > 3 {
        var r := Base64(data);
        var tail := Base64(data[3..]);
        assert r == EncodeChunk(chunk) + tail;
        assert r[..4] == EncodeChunk(chunk) && r[4..] == tail;
        Base64Length(data[3..]);
        Base64RoundTrip(data[3..]);
        assert chunk + data[3..] == data;
      } else {
        var r := Base64(data);
        assert chunk == data && r == EncodeChunk(chunk);
        assert r[..4] == r && r[4..] == "";
        assert chunk + [] == chunk;
      }
    }
  }

  /** The character of each value, as Table 1 of RFC 4648 lists it. */
  lemma Digit64Table(v: nat)
    requires v < 64
    ensures Digit64(v) as int == if v < 26 then 'A' as int + v
      else if v < 52 then 'a' as int + (v - 26)
      else if v < 62 then '0' as int + (v - 52)
      else if v == 62 then '+' as int else '/' as int
  {
  }

  /** Examples from section 10 of RFC 4648: one, two and three bytes. */
  lemma Base64OneByteVector(data: seq<byte>)
    requires data == [102]
    ensures Base64(data) == "Zg=="
  {
    Digit64Table(25);
    Digit64Table(32);
  }

  lemma Base64TwoByteVector(data: seq<byte>)
    requires data == [102, 111]
    ensures Base64(data) == "Zm8="
  {
    Digit64Table(25);
    Digit64Table(38);
    Digit64Table(60);
  }

  lemma Base64ThreeByteVector(data: seq<byte>)
    requires data == [102, 111, 111]
    ensures Base64(data) == "Zm9v"
  {
    Digit64Table(25);
    Digit64Table(38);
    Digit64Table(61);
    Digit64Table(47);
  }

  lemma Base64BarVector(data: seq<byte>)
    requires data == [98, 97, 114]
    ensures Base64(data) == "YmFy"
  {
    Digit64Table(24);
    Digit64Table(38);
    Digit64Table(5);
    Digit64Table(50);
  }

  /** The six-byte example "foobar" of section 10 of RFC 4648. */
  lemma Base64FoobarVector(data: seq<byte>)
    requires data == [102, 111, 111, 98, 97, 114]
    ensures Base64(data) == "Zm9vYmFy"
  {
    var foo, bar := data[..3], data[3..];
    assert foo == [102, 111, 111] && bar == [98, 97, 114];
    Base64ThreeByteVector(foo);
    Base64BarVector(bar);
    assert Base64(data) == Base64(foo) + Base64(bar);
  }

  /** base64_encode: chunk by chunk, one character at a time. */
  method Base64Encode(data: seq<byte>) returns (r: string)
    ensures r == Base64(data)
  {
    r := "";
    var i := 0;
    while i < |data|
      invariant i <= |data|
      invariant r + Base64(data[i..]) == Base64(data)
    {
      var k := if |data| - i < 3 then |data| - i else 3;
      var b1: byte := if k > 1 then data[i + 1] else 0;
      var b2: byte := if k > 2 then data[i + 2] else 0;
      var group := EncodeTriple(data[i], b1, b2, k);
      ChunkStep(data, i, k);
      Config.AppendAssoc(r, group, Base64(data[i + k..]));
      r := r + group;
      i := i + k;
    }
  }

  /** The four characters of one chunk, from the 24-bit number its bytes
      make. */
  method EncodeTriple(b0: byte, b1: byte, b2: byte, k: nat) returns (group: string)
    requires 1 <= k <= 3
    ensures group == EncodeGroup(b0, b1, b2, k)
  {
    var triple: nat := b0 * 65536 + b1 * 256 + b2;
    TripleSextets(b0, b1, b2, triple);
    var c0 := Digit64((triple / 262144) % 64);
    var c1 := Digit64((triple / 4096) % 64);
    var c2 := if k > 1 then Digit64((triple / 64) % 64) else '=';
    var c3 := if k > 2 then Digit64(triple % 64) else '=';
    group := [c0, c1, c2, c3];
  }

  /** The base64 from position `i` on is the group of the chunk there and
      the base64 of what follows it. */
  lemma ChunkStep(data: seq<byte>, i: nat, k: nat)
    requires i < |data| && k == (if |data| - i < 3 then |data| - i else 3)
    ensures Base64(data[i..]) == EncodeGroup(data[i], if k > 1 then data[i + 1] else 0,
      if k > 2 then data[i + 2] else 0, k) + Base64(data[i + k..])
  {
    var rest := data[i..];
    if |rest| > 3 {
      assert rest[3..] == data[i + 3..];
    } else {
      assert data[i + k..] == [];
    }
  }

  /** The OSC 52 sequence that puts `text` on the clipboard: ESC "]52;c;",
      the base64 of its UTF-8 bytes, BEL. */
  function Osc52(text: string): (r: string)
    ensures |r| >= 8 && r[..7] == "\U{1b}]52;c;" && r[|r| - 1] == '\U{7}'
    ensures var payload := Base64Decode(r[7..|r| - 1]);
      payload.Some? && Utf8.Decode(payload.value) == Some(text)
  {
    var b := Base64(Utf8.Encode(text));
    Base64RoundTrip(Utf8.Encode(text));
    Utf8.DecodeEncode(text);
    var r := "\U{1b}]52;c;" + b + "\U{7}";
    assert r[7..|r| - 1] == b;
    r
  }

  // ----- Properties of the filter -----

  /** The number of sessions that pass the query. */
  function MatchCount(sessions: seq<Session.Session>, query: string): nat
    decreases |sessions|
  {
    if |sessions| == 0 then 0
    else MatchCount(sessions[..|sessions| - 1], query) + (if Matches(sessions[|sessions| - 1], query) then 1 else 0)
  }

  /** The filter lists one index per passing session. */
  lemma {:induction false} FilterIndicesCount(sessions: seq<Session.Session>, query: string, n: nat)
    requires n <= |sessions|
    ensures |FilterIndices(sessions, query, n)| == MatchCount(sessions[..n], query)
    decreases n
  {
    if n > 0 {
      FilterIndicesCount(sessions, query, n - 1);
      assert sessions[..n][..n - 1] == sessions[..n - 1];
    }
  }

  lemma {:induction false} MatchCountConcat(a: seq<Session.Session>, b: seq<Session.Session>, query: string)
    ensures MatchCount(a + b, query) == MatchCount(a, query) + MatchCount(b, query)
    decreases |b|
  {
    if |b| > 0 {
      var b' := b[..|b| - 1];
      MatchCountConcat(a, b', query);
      assert (a + b)[..|a + b| - 1] == a + b';
      assert (a + b)[|a + b| - 1] == b[|b| - 1];
    } else {
      assert a + b == a;
    }
  }

  /** Reordering the sessions does not change how many pass the query. */
  lemma {:induction false} MatchCountPermutation(a: seq<Session.Session>, b: seq<Session.Session>, query: string)
    requires multiset(a) == multiset(b)
    ensures MatchCount(a, query) == MatchCount(b, query)
    decreases |a|
  {
    if |a| > 0 {
      var x := a[|a| - 1];
      var a' := a[..|a| - 1];
      assert a == a' + [x];
      assert x in multiset(b);
      var j :| 0 <= j < |b| && b[j] == x;
      var pre, post := b[..j], b[j + 1..];
      RemoveOne(a, b, j);
      MatchCountPermutation(a', pre + post, query);
      SplitCount(pre, x, post, query);
      MatchCountConcat(a', [x], query);
    }
  }

  /** Taking the last element off `a`, and an equal one off `b`, keeps two permutations permutations. */
  lemma RemoveOne<T>(a: seq<T>, b: seq<T>, j: nat)
    requires multiset(a) == multiset(b) && |a| > 0 && j < |b| && b[j] == a[|a| - 1]
    ensures a == a[..|a| - 1] + [a[|a| - 1]]
    ensures b == b[..j] + [b[j]] + b[j + 1..]
    ensures multiset(a[..|a| - 1]) == multiset(b[..j] + b[j + 1..])
  {
    var x, a', pre, post := a[|a| - 1], a[..|a| - 1], b[..j], b[j + 1..];
    assert a == a' + [x];
    assert b == pre + [x] + post;
    assert multiset(pre + post) == multiset(pre) + multiset(post);
    assert multiset(a') == multiset(a) - multiset{x};
  }

  lemma SplitCount(pre: seq<Session.Session>, x: Session.Session, post: seq<Session.Session>, query: string)
    ensures MatchCount(pre + [x] + post, query) == MatchCount(pre + post, query) + MatchCount([x], query)
  {
    MatchCountConcat(pre + [x], post, query);
    MatchCountConcat(pre, [x], query);
    MatchCountConcat(pre, post, query);
  }

  /** Sorting does not change how many sessions are listed. */
  lemma SortKeepsFilteredCount(sessions: seq<Session.Session>, col: SortColumn, filterQuery: string)
    ensures |Filtered(ApplySort(sessions, col), filterQuery)| == |Filtered(sessions, filterQuery)|
  {
    var sorted := ApplySort(sessions, col);
    var q := Lower(filterQuery);
    FilterIndicesCount(sorted, q, |sorted|);
    FilterIndicesCount(sessions, q, |sessions|);
    assert sorted[..|sorted|] == sorted;
    assert sessions[..|sessions|] == sessions;
    MatchCountPermutation(sorted, sessions, q);
  }

  /** A session that passes a longer query passes every prefix of it. */
  lemma MatchesLonger(s: Session.Session, query: string, c: char)
    requires Matches(s, query + [c])
    ensures Matches(s, query)
  {
    var q := query + [c];
    assert q != "";
    if Contains(Lower(s.projectName), q) {
      ContainsPrefixOf(Lower(s.projectName), query, [c]);
    } else if Contains(Lower(s.cwd), q) {
      ContainsPrefixOf(Lower(s.cwd), query, [c]);
    } else if Contains(Lower(s.gitBranch.UnwrapOr("")), q) {
      ContainsPrefixOf(Lower(s.gitBranch.UnwrapOr("")), query, [c]);
    } else if Contains(Lower(s.model.UnwrapOr("")), q) {
      ContainsPrefixOf(Lower(s.model.UnwrapOr("")), query, [c]);
    } else {
      ContainsPrefixOf(Lower(Session.StatusLabel(s.status)), query, [c]);
    }
  }

  /** Typing one more filter character can only drop sessions from the list. */
  lemma FilterNarrows(sessions: seq<Session.Session>, filterQuery: string, c: char)
    ensures forall k :: k in Filtered(sessions, filterQuery + [c]) ==> k in Filtered(sessions, filterQuery)
  {
    LowerAppend(filterQuery, c);
    forall k | k in Filtered(sessions, filterQuery + [c])
      ensures k in Filtered(sessions, filterQuery)
    {
      var i :| 0 <= i < |Filtered(sessions, filterQuery + [c])| && Filtered(sessions, filterQuery + [c])[i] == k;
      MatchesLonger(sessions[k], Lower(filterQuery), LowerChar(c));
    }
  }

  /** The sessions at the given indices, skipping indices past the end. */
  function Pick(sessions: seq<Session.Session>, indices: seq<nat>): (r: seq<Session.Session>)
    ensures |r| <= |indices|
    ensures (forall i :: 0 <= i < |indices| ==> indices[i] < |sessions|) ==>
      |r| == |indices| && forall i :: 0 <= i < |r| ==> r[i] == sessions[indices[i]]
    decreases |indices|
  {
    if |indices| == 0 then []
    else (if indices[0] < |sessions| then [sessions[indices[0]]] else []) + Pick(sessions, indices[1..])
  }

  /** A session is reported as working in an attached terminal. */
  predicate BusyAttached(s: Session.Session, attached: set<string>) {
    s.id in attached && (s.status.Active? || s.status.Thinking?)
  }

  /** The indices below `n` of the sessions working in an attached terminal,
      in increasing order. */
  function BusyIndices(sessions: seq<Session.Session>, attached: set<string>, n: nat): (r: seq<nat>)
    requires n <= |sessions|
    ensures |r| <= n
    ensures forall i :: 0 <= i < |r| ==> r[i] < n
    decreases n
  {
    if n == 0 then []
    else
      var a := BusyIndices(sessions, attached, n - 1);
      var t: seq<nat> := if BusyAttached(sessions[n - 1], attached) then [n - 1] else [];
      assert forall i :: 0 <= i < |a| ==> (a + t)[i] == a[i];
      a + t
  }

  /** The busy indices increase and are exactly those of the sessions
      working in an attached terminal. */
  lemma BusyIndicesExact(sessions: seq<Session.Session>, attached: set<string>, n: nat)
    requires n <= |sessions|
    ensures var r := BusyIndices(sessions, attached, n);
      && (forall i, j :: 0 <= i < j < |r| ==> r[i] < r[j])
      && (forall k :: 0 <= k < n ==> (k in r <==> BusyAttached(sessions[k], attached)))
      && ((forall k :: 0 <= k < n ==> !BusyAttached(sessions[k], attached)) ==> r == [])
  {
    BusyIndicesIncrease(sessions, attached, n);
    BusyIndicesMembers(sessions, attached, n);
    var r := BusyIndices(sessions, attached, n);
    if r != [] {
      assert r[0] in r;
    }
  }

  lemma {:induction false} BusyIndicesIncrease(sessions: seq<Session.Session>, attached: set<string>, n: nat)
    requires n <= |sessions|
    ensures Increasing(BusyIndices(sessions, attached, n))
    decreases n
  {
    if n > 0 {
      BusyIndicesIncrease(sessions, attached, n - 1);
      var a := BusyIndices(sessions, attached, n - 1);
      var t: seq<nat> := if BusyAttached(sessions[n - 1], attached) then [n - 1] else [];
      var r := BusyIndices(sessions, attached, n);
      assert r == a + t;
      forall i, j | 0 <= i < j < |r|
        ensures r[i] < r[j]
      {
        if j < |a| {
          assert a[i] < a[j];
          assert r[i] == a[i] && r[j] == a[j];
        } else {
          assert i < |a| && a[i] < n - 1;
          assert r[i] == a[i] && r[j] == n - 1;
        }
      }
    }
  }

  lemma {:induction false} BusyIndicesMembers(sessions: seq<Session.Session>, attached: set<string>, n: nat)
    requires n <= |sessions|
    ensures var r := BusyIndices(sessions, attached, n);
      forall k :: 0 <= k < n ==> (k in r <==> BusyAttached(sessions[k], attached))
    decreases n
  {
    if n > 0 {
      BusyIndicesMembers(sessions, attached, n - 1);
      var a := BusyIndices(sessions, attached, n - 1);
      var busy := BusyAttached(sessions[n - 1], attached);
      var r := BusyIndices(sessions, attached, n);
      assert r == a + (if busy then [n - 1] else []);
      SnocIndex(a, n - 1, busy);
      forall k | 0 <= k < n
        ensures k in r <==> BusyAttached(sessions[k], attached)
      {
        if k < n - 1 {
          assert k in r <==> k in a;
        }
      }
    }
  }

  /** The project names of the first `n` sessions that are working in an
      attached terminal, one per busy index. */
  function BusyNames(sessions: seq<Session.Session>, attached: set<string>, n: nat): (r: seq<string>)
    requires n <= |sessions|
    ensures var idx := BusyIndices(sessions, attached, n);
      |r| == |idx| && forall j :: 0 <= j < |r| ==> r[j] == sessions[idx[j]].projectName
    decreases n
  {
    if n == 0 then []
    else
      var a := BusyNames(sessions, attached, n - 1);
      var busy := BusyAttached(sessions[n - 1], attached);
      var t := if busy then [sessions[n - 1].projectName] else [];
      assert BusyIndices(sessions, attached, n) == BusyIndices(sessions, attached, n - 1) + (if busy then [n - 1] else []);
      SnocNames(sessions, BusyIndices(sessions, attached, n - 1), a, n - 1, busy);
      a + t
  }

  /** Names read off indices stay in step when one more index, or none, is
      appended to the indices and its name to the names. */
  lemma SnocNames(sessions: seq<Session.Session>, idx: seq<nat>, a: seq<string>, k: nat, add: bool)
    requires k < |sessions| && forall i :: 0 <= i < |idx| ==> idx[i] < |sessions|
    requires |a| == |idx| && forall j :: 0 <= j < |a| ==> a[j] == sessions[idx[j]].projectName
    ensures var idx' := idx + (if add then [k] else []);
      var a' := a + (if add then [sessions[k].projectName] else []);
      |a'| == |idx'| && forall j :: 0 <= j < |a'| ==> a'[j] == sessions[idx'[j]].projectName
  {
    var idx' := idx + (if add then [k] else []);
    var a' := a + (if add then [sessions[k].projectName] else []);
    forall j | 0 <= j < |a'|
      ensures a'[j] == sessions[idx'[j]].projectName
    {
      if j < |a| {
        assert a'[j] == a[j] && idx'[j] == idx[j];
      }
    }
  }

  /** The project names of the sessions that are working in an attached
      terminal, in list order: the `j`-th name is that of the `j`-th busy
      attached session. */
  function BusyAttachedNames(sessions: seq<Session.Session>, attached: set<string>): (r: seq<string>)
    ensures var idx := BusyIndices(sessions, attached, |sessions|);
      |r| == |idx| && forall j :: 0 <= j < |r| ==> r[j] == sessions[idx[j]].projectName
    ensures |r| <= |sessions|
    ensures forall s :: s in sessions && BusyAttached(s, attached) ==> s.projectName in r
    ensures attached == {} ==> r == []
  {
    var r := BusyNames(sessions, attached, |sessions|);
    var idx := BusyIndices(sessions, attached, |sessions|);
    BusyIndicesExact(sessions, attached, |sessions|);
    assert forall s :: s in sessions && BusyAttached(s, attached) ==> s.projectName in r by {
      forall s | s in sessions && BusyAttached(s, attached) ensures s.projectName in r {
        var k :| 0 <= k < |sessions| && sessions[k] == s;
        assert k in idx;
        var j :| 0 <= j < |idx| && idx[j] == k;
        assert r[j] == s.projectName;
      }
    }
    r
  }

  /** A name is listed exactly when it is the project of a session working
      in an attached terminal. */
  lemma BusyAttachedNamesExact(sessions: seq<Session.Session>, attached: set<string>)
    ensures forall name :: name in BusyAttachedNames(sessions, attached) <==>
      exists s :: s in sessions && BusyAttached(s, attached) && s.projectName == name
  {
    var r := BusyAttachedNames(sessions, attached);
    var idx := BusyIndices(sessions, attached, |sessions|);
    BusyIndicesExact(sessions, attached, |sessions|);
    forall name | name in r
      ensures exists s :: s in sessions && BusyAttached(s, attached) && s.projectName == name
    {
      var j :| 0 <= j < |r| && r[j] == name;
      assert idx[j] in idx;
      var s := sessions[idx[j]];
      assert s in sessions && BusyAttached(s, attached) && s.projectName == name;
    }
  }

  /** The sessions that have a live process, in order. */
  function WithPid(sessions: seq<Session.Session>): (r: seq<Session.Session>)
    ensures |r| <= |sessions|
    ensures forall s :: s in r <==> s in sessions && s.pid.Some?
    decreases |sessions|
  {
    if |sessions| == 0 then []
    else (if sessions[0].pid.Some? then [sessions[0]] else []) + WithPid(sessions[1..])
  }

  // ----- The selected text -----

  /** What one cell of the screen shows: its contents, or a space when it is
      empty or off the screen. The screen is a grid of cell contents, the
      empty string standing for an empty cell. */
  function CellText(screen: seq<seq<string>>, row: nat, col: nat): (r: string)
    ensures r != ""
  {
    if row < |screen| && col < |screen[row]| && screen[row][col] != "" then screen[row][col] else " "
  }

  /** The cells of one screen row from `from` up to, not including, `upto`. */
  function RowText(screen: seq<seq<string>>, row: nat, from: nat, upto: nat): (r: string)
    decreases upto
  {
    if upto <= from then "" else RowText(screen, row, from, upto - 1) + CellText(screen, row, upto - 1)
  }

  /** Where the terminal's content is drawn, as plain numbers. */
  datatype Area = Area(x: int, y: int, w: int, h: int)

  function AreaOf(sel: Selection): Area {
    Area(sel.contentX, sel.contentY, sel.contentW, sel.contentH)
  }

  /** The screen row of an absolute row, when it lies in the content area. */
  function ScreenRow(area: Area, absRow: int): (r: Option<nat>)
    ensures r.Some? <==> area.y <= absRow < area.y + area.h
    ensures r.Some? ==> r.value + area.y == absRow
  {
    if area.y <= absRow < area.y + area.h then Some(absRow - area.y) else None
  }

  /** The screen column of an absolute column, clamped at the left edge. */
  function ScreenCol(area: Area, absCol: int): nat {
    if absCol >= area.x then absCol - area.x else 0
  }

  /** The text of one selected row: from the start column on the first row
      (from the left edge otherwise) to the end column on the last row (to
      the right edge otherwise), without trailing whitespace. */
  function LineOf(area: Area, screen: seq<seq<string>>, start: Point, end: Point, absRow: int): (r: seq<string>)
    ensures |r| == if ScreenRow(area, absRow).Some? then 1 else 0
    ensures forall i :: 0 <= i < |r| ==> Trimmed(r[i])
  {
    match ScreenRow(area, absRow)
    case None => []
    case Some(row) =>
      var colStart := if absRow == start.row then ScreenCol(area, start.col) else 0;
      var colEnd := if absRow == end.row then ScreenCol(area, end.col)
        else if area.w > 0 then area.w - 1 else 0;
      [TrimEndSpace(RowText(screen, row, colStart, colEnd + 1))]
  }

  /** A line that does not end in whitespace. */
  predicate Trimmed(line: string) {
    |line| > 0 ==> !IsWhitespace(line[|line| - 1])
  }

  /** The lines of the selected rows from `start.row` up to, not including, `upto`. */
  function SelectionLines(area: Area, screen: seq<seq<string>>, start: Point, end: Point, upto: int): seq<string>
    decreases upto - start.row
  {
    if upto <= start.row then []
    else SelectionLines(area, screen, start, end, upto - 1) + LineOf(area, screen, start, end, upto - 1)
  }

  /** One line for each selected row inside the content area. */
  lemma {:induction false} SelectionLinesCount(area: Area, screen: seq<seq<string>>, start: Point, end: Point, upto: int)
    ensures |SelectionLines(area, screen, start, end, upto)| == Overlap(start.row, upto, area.y, area.y + area.h)
    decreases upto - start.row
  {
    if upto > start.row {
      OverlapStep(start.row, upto, area.y, area.y + area.h);
      SelectionLinesCount(area, screen, start, end, upto - 1);
      var row := ScreenRow(area, upto - 1);
      assert |LineOf(area, screen, start, end, upto - 1)| == if area.y <= upto - 1 < area.y + area.h then 1 else 0;
    }
  }

  /** No selected line ends in whitespace. */
  lemma {:induction false} SelectionLinesTrimmed(area: Area, screen: seq<seq<string>>, start: Point, end: Point, upto: int)
    ensures forall i :: 0 <= i < |SelectionLines(area, screen, start, end, upto)| ==>
      Trimmed(SelectionLines(area, screen, start, end, upto)[i])
    decreases upto - start.row
  {
    if upto > start.row {
      SelectionLinesTrimmed(area, screen, start, end, upto - 1);
      var a := SelectionLines(area, screen, start, end, upto - 1);
      var b := LineOf(area, screen, start, end, upto - 1);
      assert SelectionLines(area, screen, start, end, upto) == a + b;
      forall i | 0 <= i < |a| + |b|
        ensures Trimmed((a + b)[i])
      {
        if i < |a| {
          assert (a + b)[i] == a[i];
          assert Trimmed(a[i]);
        } else {
          assert (a + b)[i] == b[i - |a|];
          assert Trimmed(b[i - |a|]);
        }
      }
    }
  }

  /** The selected text: the selected rows inside the content area, one line
      each, joined by newlines; nothing when no terminal is shown. */
  function SelectionText(sel: Selection, screen: Option<seq<seq<string>>>): string {
    match screen
    case None => ""
    case Some(grid) =>
      var (start, end) := NormalizeSelection(sel);
      Join(SelectionLines(AreaOf(sel), grid, start, end, end.row + 1), "\n")
  }

  /** One more row of the selection adds that row's line. */
  lemma SelectionLinesStep(area: Area, screen: seq<seq<string>>, start: Point, end: Point, row: int)
    requires start.row <= row
    ensures SelectionLines(area, screen, start, end, row + 1)
      == SelectionLines(area, screen, start, end, row) + LineOf(area, screen, start, end, row)
  {
  }

  /** How many of the rows `a` to `b - 1` lie in the rows `c` to `d - 1`. */
  function Overlap(a: int, b: int, c: int, d: int): nat {
    var lo := if a < c then c else a;
    var hi := if b < d then b else d;
    if hi > lo then hi - lo else 0
  }

  lemma OverlapStep(a: int, b: int, c: int, d: int)
    requires a < b
    ensures Overlap(a, b, c, d) == Overlap(a, b - 1, c, d) + (if c <= b - 1 < d then 1 else 0)
  {
  }

  /** A selection whose rows all lie outside the content area selects no text. */
  lemma OutsideContentSelectsNothing(sel: Selection, screen: seq<seq<string>>)
    requires var (start, end) := NormalizeSelection(sel);
      end.row < sel.contentY || start.row >= sel.contentY + sel.contentH
    ensures SelectionText(sel, Some(screen)) == ""
  {
    var (start, end) := NormalizeSelection(sel);
    SelectionLinesCount(AreaOf(sel), screen, start, end, end.row + 1);
    assert SelectionLines(AreaOf(sel), screen, start, end, end.row + 1) == [];
  }

  /** What the detail view shows for a file: its text, or the read error. */
  function PreviewContent(read: Result<string, string>): (r: string)
    ensures read.Ok? ==> r == read.value
    ensures read.Err? ==> r == "(error reading file: " + read.error + ")"
  {
    match read
    case Ok(text) => text
    case Err(e) => "(error reading file: " + e + ")"
  }

  // ----- The application state -----

  /** The number of sessions the tab picker can address by digit. */
  const PickerSize: nat := 9

  function Min(a: nat, b: nat): nat { if a < b then a else b }

  /** The dashboard's state. The terminal registry it also owns is modelled
      in TerminalManager; it enters here as the set of attached session ids
      and the screen of the shown terminal. */
  /** Scan a session's configuration and build its overview. */
  method ScanDetail(home: Option<string>, cwd: string, dirs: Config.Dirs, files: Config.Files)
    returns (cfg: Config.SessionConfig, items: seq<Config.ConfigItem>)
    ensures cfg == Config.ScanSessionConfig(home, cwd, dirs, files)
    ensures items == Config.ConfigItems(cfg, home, cwd, files)
  {
    cfg := Config.ScanSessionConfig(home, cwd, dirs, files);
    items := Config.BuildConfigItems(cfg, home, cwd, files);
  }

  class App {
    var sessions: seq<Session.Session>
    var filtered: seq<nat>
    var selected: nat
    var viewMode: ViewMode
    var sortColumn: SortColumn
    var filterQuery: string
    var commandInput: string
    var shouldQuit: bool
    var detailConfig: Option<Config.SessionConfig>
    var detailItems: seq<Config.ConfigItem>
    var detailCursor: nat
    var detailPreview: Option<(string, string)>
    var detailPreviewScroll: nat
    var selection: Selection

    /** `filtered` lists exactly the sessions that pass the filter, in order. */
    ghost predicate Valid()
      reads this
    {
      filtered == Filtered(sessions, filterQuery)
    }

    /** The cursor is on a listed session whenever the list is non-empty. */
    ghost predicate CursorInRange()
      reads this
    {
      |filtered| > 0 ==> selected < |filtered|
    }

    /** A fresh dashboard on the list view, sorted by last activity, with no
        filter and the discovered sessions loaded (`None` when discovery
        failed). */
    constructor (discovered: Option<seq<Session.Session>>)
      ensures Valid() && CursorInRange()
      ensures sessions == ApplySort(discovered.UnwrapOr([]), LastActive)
      ensures filtered == AllIndices(|sessions|)
      ensures selected == 0 && viewMode == List && sortColumn == LastActive
      ensures filterQuery == "" && commandInput == "" && !shouldQuit
      ensures detailConfig == None && detailItems == [] && detailCursor == 0 && detailPreview == None && detailPreviewScroll == 0
      ensures selection == NoSelection
    {
      var loaded := ApplySort(discovered.UnwrapOr([]), LastActive);
      NoFilterListsAll(loaded);
      sessions := loaded;
      filtered := Filtered(loaded, "");
      selected := 0;
      viewMode := List;
      sortColumn := LastActive;
      filterQuery := "";
      commandInput := "";
      shouldQuit := false;
      detailConfig := None;
      detailItems := [];
      detailCursor := 0;
      detailPreview := None;
      detailPreviewScroll := 0;
      selection := NoSelection;
    }

    /** Reload the sessions (none when discovery failed), sort them by the
        current column, re-run the filter and pull the cursor back onto the
        last listed session when it fell off the end. */
    method Refresh(discovered: Option<seq<Session.Session>>)
      modifies this`sessions, this`filtered, this`selected
      ensures Valid() && CursorInRange()
      ensures sessions == ApplySort(discovered.UnwrapOr([]), sortColumn)
      ensures selected == if old(selected) >= |filtered| && |filtered| > 0 then |filtered| - 1 else old(selected)
    {
      var loaded := ApplySort(discovered.UnwrapOr([]), sortColumn);
      var listed := Filtered(loaded, filterQuery);
      sessions, filtered := loaded, listed;
      if selected >= |listed| && |listed| > 0 {
        selected := |listed| - 1;
      }
    }

    /** The listed sessions, in order. */
    function FilteredSessions(): (r: seq<Session.Session>)
      reads this
      ensures Valid() ==> |r| == |filtered|
      ensures Valid() ==> forall i :: 0 <= i < |r| ==> filtered[i] < |sessions| && r[i] == sessions[filtered[i]] && Matches(r[i], Lower(filterQuery))
      ensures Valid() ==> forall k :: 0 <= k < |sessions| && Matches(sessions[k], Lower(filterQuery)) ==> sessions[k] in r
    {
        Pick(sessions, filtered)
    }

    /** The session under the cursor, if the cursor is on a listed one. */
    function SelectedSession(): (r: Option<Session.Session>)
      reads this
      ensures r.Some? <==> selected < |filtered| && filtered[selected] < |sessions|
      ensures Valid() ==> (r.Some? <==> selected < |filtered|)
      ensures r.Some? ==> r.value == sessions[filtered[selected]]
    {
        if selected < |filtered| && filtered[selected] < |sessions| then Some(sessions[filtered[selected]]) else None
    }

    /** Switch view. Opening a tab picker pulls the cursor onto one of the
        first nine listed sessions; opening the detail view on a session
        scans that session's configuration (the home directory, directory
        listings and files are given) and loads its overview with the cursor
        on the first item and no preview; leaving for any other view drops
        the configuration, the overview and the preview. */
    method SetViewMode(mode: ViewMode, home: Option<string>, dirs: Config.Dirs, files: Config.Files)
      modifies this`viewMode, this`selected, this`detailConfig, this`detailItems, this`detailCursor,
               this`detailPreview, this`detailPreviewScroll
      ensures viewMode == mode
      ensures var max := Min(|filtered|, PickerSize);
        selected == if (mode == Harpoon || mode == TerminalHarpoon) && old(selected) >= max && max > 0 then max - 1 else old(selected)
      ensures old(CursorInRange()) ==> CursorInRange()
      ensures (mode == Harpoon || mode == TerminalHarpoon) && |filtered| > 0 ==> selected < PickerSize
      ensures mode == Detail && old(SelectedSession()).Some? ==>
        var cwd := old(SelectedSession()).value.cwd;
        var cfg := Config.ScanSessionConfig(home, cwd, dirs, files);
        && detailConfig == Some(cfg)
        && detailItems == Config.ConfigItems(cfg, home, cwd, files)
        && detailCursor == 0 && detailPreview == None && detailPreviewScroll == 0
      ensures mode == Detail && old(SelectedSession()).None? ==>
        detailConfig == old(detailConfig) && detailItems == old(detailItems) && detailCursor == old(detailCursor)
        && detailPreview == old(detailPreview) && detailPreviewScroll == old(detailPreviewScroll)
      ensures mode != Detail ==>
        detailConfig == None && detailItems == [] && detailPreview == None
        && detailCursor == old(detailCursor) && detailPreviewScroll == old(detailPreviewScroll)
    {
      ClampToPicker(mode);
      var session := SelectedSession();
      SyncDetail(mode, session, home, dirs, files);
      viewMode := mode;
    }

    /** Opening a tab picker (`mode`) pulls the cursor onto one of the first
        nine listed sessions; any other mode leaves it where it is. */
    method ClampToPicker(mode: ViewMode)
      modifies this`selected
      ensures var max := Min(|filtered|, PickerSize);
        selected == if (mode == Harpoon || mode == TerminalHarpoon) && old(selected) >= max && max > 0 then max - 1 else old(selected)
      ensures old(CursorInRange()) ==> CursorInRange()
      ensures (mode == Harpoon || mode == TerminalHarpoon) && |filtered| > 0 ==> selected < PickerSize
    {
      if mode == Harpoon || mode == TerminalHarpoon {
        var max := Min(|filtered|, PickerSize);
        if selected >= max && max > 0 {
          selected := max - 1;
        }
      }
    }

    /** Bring the detail state in line with the new `mode`: the detail view
        on `session` scans its configuration and loads its overview, the
        detail view with no session keeps what it had, and any other view
        drops the configuration, the overview and the preview. */
    method SyncDetail(mode: ViewMode, session: Option<Session.Session>, home: Option<string>, dirs: Config.Dirs, files: Config.Files)
      modifies this`detailConfig, this`detailItems, this`detailCursor, this`detailPreview, this`detailPreviewScroll
      ensures mode == Detail && session.Some? ==>
        var cwd := session.value.cwd;
        var cfg := Config.ScanSessionConfig(home, cwd, dirs, files);
        && detailConfig == Some(cfg)
        && detailItems == Config.ConfigItems(cfg, home, cwd, files)
        && detailCursor == 0 && detailPreview == None && detailPreviewScroll == 0
      ensures mode == Detail && session.None? ==>
        detailConfig == old(detailConfig) && detailItems == old(detailItems) && detailCursor == old(detailCursor)
        && detailPreview == old(detailPreview) && detailPreviewScroll == old(detailPreviewScroll)
      ensures mode != Detail ==>
        detailConfig == None && detailItems == [] && detailPreview == None
        && detailCursor == old(detailCursor) && detailPreviewScroll == old(detailPreviewScroll)
    {
      if mode == Detail {
        if session.Some? {
          OpenDetail(home, session.value.cwd, dirs, files);
        }
      } else {
        detailConfig := None;
        detailItems := [];
        detailPreview := None;
      }
    }

    /** Open the detail view on the session working in `cwd`: scan its
        configuration and show the overview built from it, with the cursor on
        the first item and no preview. */
    method OpenDetail(home: Option<string>, cwd: string, dirs: Config.Dirs, files: Config.Files)
      modifies this`detailConfig, this`detailItems, this`detailCursor, this`detailPreview, this`detailPreviewScroll
      ensures var cfg := Config.ScanSessionConfig(home, cwd, dirs, files);
        && detailConfig == Some(cfg)
        && detailItems == Config.ConfigItems(cfg, home, cwd, files)
      ensures detailCursor == 0 && detailPreview == None && detailPreviewScroll == 0
    {
      var cfg, items := ScanDetail(home, cwd, dirs, files);
      LoadDetail(cfg, items);
    }

    /** Show the configuration `cfg` and its overview `items` in the detail
        view, with the cursor on the first item and no preview. */
    method LoadDetail(cfg: Config.SessionConfig, items: seq<Config.ConfigItem>)
      modifies this`detailConfig, this`detailItems, this`detailCursor, this`detailPreview, this`detailPreviewScroll
      ensures detailConfig == Some(cfg) && detailItems == items
      ensures detailCursor == 0 && detailPreview == None && detailPreviewScroll == 0
    {
      detailConfig := Some(cfg);
      detailItems := items;
      detailCursor := 0;
      detailPreview := None;
      detailPreviewScroll := 0;
    }

    /** Show the file of the overview item under the cursor, given the
        outcome of reading it; items without a file change nothing. */
    method DetailOpenPreview(read: Result<string, string>)
      modifies this`detailPreview, this`detailPreviewScroll
      ensures detailCursor < |detailItems| && detailItems[detailCursor].path.Some? ==>
        var path := detailItems[detailCursor].path.value;
        detailPreview == Some((Paths.FileName(path).UnwrapOr(""), PreviewContent(read))) && detailPreviewScroll == 0
      ensures !(detailCursor < |detailItems| && detailItems[detailCursor].path.Some?) ==>
        detailPreview == old(detailPreview) && detailPreviewScroll == old(detailPreviewScroll)
    {
      if detailCursor < |detailItems| {
        var item := detailItems[detailCursor];
        if item.path.Some? {
          detailPreview := Some((Paths.FileName(item.path.value).UnwrapOr(""), PreviewContent(read)));
          detailPreviewScroll := 0;
        }
      }
    }

    method DetailClosePreview()
      modifies this`detailPreview, this`detailPreviewScroll
      ensures detailPreview == None && detailPreviewScroll == 0
    {
      detailPreview := None;
      detailPreviewScroll := 0;
    }

    /** Sort by the next column; the filter is re-run on the new order, so
        as many sessions stay listed as before. */
    method CycleSort()
      requires Valid()
      modifies this`sortColumn, this`sessions, this`filtered
      ensures Valid()
      ensures sortColumn == SortNext(old(sortColumn))
      ensures sessions == ApplySort(old(sessions), sortColumn)
      ensures multiset(sessions) == multiset(old(sessions))
      ensures |filtered| == |old(filtered)|
      ensures old(CursorInRange()) ==> CursorInRange()
    {
      var col := SortNext(sortColumn);
      var sorted := ApplySort(sessions, col);
      SortKeepsFilteredCount(sessions, col, filterQuery);
      sortColumn, sessions, filtered := col, sorted, Filtered(sorted, filterQuery);
    }

    /** The number of rows the cursor can move over: the first nine in a tab
        picker, all listed sessions otherwise. */
    function Limit(): (r: nat)
      reads this
      ensures r <= |filtered|
      ensures (viewMode == Harpoon || viewMode == TerminalHarpoon) ==> r <= PickerSize
    {
      if viewMode == Harpoon || viewMode == TerminalHarpoon then Min(|filtered|, PickerSize) else |filtered|
    }

    /** Up: in the detail view scroll the preview up (stopping at the top)
        or move the item cursor up; elsewhere move the session cursor up,
        stopping at the first row. */
    method MoveUp()
      modifies this`selected, this`detailCursor, this`detailPreviewScroll
      ensures viewMode == Detail && detailPreview.Some? ==>
        detailPreviewScroll == (if old(detailPreviewScroll) > 0 then old(detailPreviewScroll) - 1 else 0)
        && detailCursor == old(detailCursor) && selected == old(selected)
      ensures viewMode == Detail && detailPreview.None? ==>
        detailCursor == (if old(detailCursor) > 0 then old(detailCursor) - 1 else 0)
        && detailPreviewScroll == old(detailPreviewScroll) && selected == old(selected)
      ensures viewMode != Detail ==>
        selected == (if old(selected) > 0 then old(selected) - 1 else 0)
        && detailCursor == old(detailCursor) && detailPreviewScroll == old(detailPreviewScroll)
      ensures old(CursorInRange()) ==> CursorInRange()
    {
      if viewMode == Detail {
        if detailPreview.Some? {
          detailPreviewScroll := if detailPreviewScroll > 0 then detailPreviewScroll - 1 else 0;
        } else if detailCursor > 0 {
          detailCursor := detailCursor - 1;
        }
        return;
      }
      if selected > 0 {
        selected := selected - 1;
      }
    }

    /** Down: in the detail view scroll the preview down or move the item
        cursor down, stopping at the last item; elsewhere move the session
        cursor down, stopping at the last row it can reach. */
    method MoveDown()
      modifies this`selected, this`detailCursor, this`detailPreviewScroll
      ensures viewMode == Detail && detailPreview.Some? ==>
        detailPreviewScroll == old(detailPreviewScroll) + 1
        && detailCursor == old(detailCursor) && selected == old(selected)
      ensures viewMode == Detail && detailPreview.None? ==>
        detailCursor == (if old(detailCursor) + 1 < |detailItems| then old(detailCursor) + 1 else old(detailCursor))
        && detailPreviewScroll == old(detailPreviewScroll) && selected == old(selected)
      ensures viewMode != Detail ==>
        selected == (if old(selected) + 1 < Limit() then old(selected) + 1 else old(selected))
        && detailCursor == old(detailCursor) && detailPreviewScroll == old(detailPreviewScroll)
      ensures old(selected) < Limit() ==> selected < Limit()
      ensures old(CursorInRange()) ==> CursorInRange()
    {
      if viewMode == Detail {
        if detailPreview.Some? {
          detailPreviewScroll := detailPreviewScroll + 1;
        } else if detailCursor + 1 < |detailItems| {
          detailCursor := detailCursor + 1;
        }
        return;
      }
      if selected + 1 < Limit() {
        selected := selected + 1;
      }
    }

    method MoveToTop()
      modifies this`selected
      ensures selected == 0 && CursorInRange()
    {
      selected := 0;
    }

    method MoveToBottom()
      modifies this`selected
      ensures |filtered| > 0 ==> selected == |filtered| - 1
      ensures |filtered| == 0 ==> selected == old(selected)
      ensures old(CursorInRange()) ==> CursorInRange()
    {
      if |filtered| > 0 {
        selected := |filtered| - 1;
      }
    }

    /** The filter is being typed or is in force. */
    predicate IsFiltering()
      reads this
    {
      viewMode == Filter || filterQuery != ""
    }

    predicate HasActiveFilter()
      reads this
    {
      filterQuery != ""
    }

    /** Type one character into the filter: the list can only shrink, and the
        cursor goes back to the top. */
    method FilterPush(c: char)
      requires Valid()
      modifies this`filterQuery, this`filtered, this`selected
      ensures Valid() && CursorInRange()
      ensures filterQuery == old(filterQuery) + [c] && selected == 0
      ensures forall k :: k in filtered ==> k in old(filtered)
    {
      FilterNarrows(sessions, filterQuery, c);
      filterQuery := filterQuery + [c];
      filtered := Filtered(sessions, filterQuery);
      selected := 0;
    }

    /** Delete the last filter character (nothing when the filter is empty):
        the list can only grow, and the cursor goes back to the top. */
    method FilterPop()
      requires Valid()
      modifies this`filterQuery, this`filtered, this`selected
      ensures Valid() && CursorInRange()
      ensures filterQuery == if old(filterQuery) == "" then "" else old(filterQuery)[..|old(filterQuery)| - 1]
      ensures selected == 0
      ensures forall k :: k in old(filtered) ==> k in filtered
    {
      if filterQuery != "" {
        var shorter := filterQuery[..|filterQuery| - 1];
        assert filterQuery == shorter + [filterQuery[|filterQuery| - 1]];
        FilterNarrows(sessions, shorter, filterQuery[|filterQuery| - 1]);
        filterQuery := shorter;
      }
      filtered := Filtered(sessions, filterQuery);
      selected := 0;
    }

    /** Drop the filter: every session is listed again, in order. The cursor
        is left where it was. */
    method ClearFilter()
      modifies this`filterQuery, this`filtered
      ensures Valid()
      ensures filterQuery == "" && filtered == AllIndices(|sessions|)
    {
      filterQuery := "";
      filtered := Filtered(sessions, filterQuery);
      NoFilterListsAll(sessions);
    }

    method Quit()
      modifies this`shouldQuit
      ensures shouldQuit
    {
      shouldQuit := true;
    }

    /** The project names of the sessions that are working in an attached
        terminal, in list order. */
    function ActiveAttachedSessions(attached: set<string>): (r: seq<string>)
      reads this
      ensures var idx := BusyIndices(sessions, attached, |sessions|);
        |r| == |idx| && forall j :: 0 <= j < |r| ==> r[j] == sessions[idx[j]].projectName
      ensures |r| <= |sessions|
      ensures forall s :: s in sessions && BusyAttached(s, attached) ==> s.projectName in r
      ensures attached == {} ==> r == []
    {
      BusyAttachedNames(sessions, attached)
    }

    /** The sessions with a live process. */
    function LiveSessions(): (r: seq<Session.Session>)
      reads this
      ensures forall s :: s in r <==> s in sessions && s.pid.Some?
    {
      WithPid(sessions)
    }

    method CommandPush(c: char)
      modifies this`commandInput
      ensures commandInput == old(commandInput) + [c]
    {
      commandInput := commandInput + [c];
    }

    method CommandPop()
      modifies this`commandInput
      ensures commandInput == if old(commandInput) == "" then "" else old(commandInput)[..|old(commandInput)| - 1]
    {
      if commandInput != "" {
        commandInput := commandInput[..|commandInput| - 1];
      }
    }

    /** Hand over the typed command and leave the command line empty. */
    method CommandTake() returns (command: string)
      modifies this`commandInput
      ensures command == old(commandInput) && commandInput == ""
    {
      command := commandInput;
      commandInput := "";
    }

    /** Record where the terminal's content is drawn. */
    method UpdateSelectionArea(x: u16, y: u16, w: u16, h: u16)
      modifies this`selection
      ensures selection == old(selection).(contentX := x, contentY := y, contentW := w, contentH := h)
    {
      selection := selection.(contentX := x, contentY := y, contentW := w, contentH := h);
    }

    /** Press: an empty selection anchored at the mouse position. */
    method StartSelection(col: u16, row: u16)
      modifies this`selection
      ensures selection == old(selection).(start := Point(col, row), end := Point(col, row), active := true, hasContent := false)
      ensures NormalizeSelection(selection) == (Point(col, row), Point(col, row))
    {
      selection := selection.(start := Point(col, row), end := Point(col, row), active := true, hasContent := false);
    }

    /** Drag: move the free end while a selection is being made; it has
        content once its ends differ. */
    method ExtendSelection(col: u16, row: u16)
      modifies this`selection
      ensures old(selection.active) ==>
        selection == old(selection).(end := Point(col, row), hasContent := old(selection.start) != Point(col, row))
      ensures !old(selection.active) ==> selection == old(selection)
    {
      if selection.active {
        selection := selection.(end := Point(col, row), hasContent := selection.start != Point(col, row));
      }
    }

    method ClearSelection()
      modifies this`selection
      ensures selection == Cleared(old(selection))
    {
      selection := Cleared(selection);
    }

    predicate HasSelection()
      reads this
    {
      selection.hasContent
    }

    /** Release: a selection without content is cleared; otherwise it stops
        following the mouse and its text, when there is any, is returned
        as the OSC 52 sequence that copies it to the clipboard. `screen` is
        the shown terminal's screen, `None` when no terminal is shown. */
    method FinalizeSelection(screen: Option<seq<seq<string>>>) returns (copied: Option<string>)
      modifies this`selection
      ensures !old(selection.hasContent) ==> selection == Cleared(old(selection)) && copied == None
      ensures old(selection.hasContent) ==> selection == old(selection).(active := false)
      ensures old(selection.hasContent) ==>
        var text := SelectionText(old(selection), screen);
        copied == if text == "" then None else Some(Osc52(text))
    {
      if !selection.hasContent {
        selection := Cleared(selection);
        return None;
      }
      selection := selection.(active := false);
      var text := ExtractSelectionText(screen);
      copied := if text == "" then None else Some(Osc52(text));
    }

    /** The selected text, row by row and cell by cell. */
    method ExtractSelectionText(screen: Option<seq<seq<string>>>) returns (text: string)
      ensures text == SelectionText(selection, screen)
    {
      if screen.None? {
        return "";
      }
      text := SelectedText(selection, screen.value);
    }
  }

  /** The text of the selection `sel` on the screen `grid`: each selected row
      inside the content area, trimmed, joined by newlines. */
  method SelectedText(sel: Selection, grid: seq<seq<string>>) returns (text: string)
    ensures text == SelectionText(sel, Some(grid))
  {
    var ends := NormalizeSelection(sel);
    var lines := SelectedLines(AreaOf(sel), grid, ends.0, ends.1);
    text := Join(lines, "\n");
  }

  /** The lines of the rows from `start` to `end`, row by row. */
  method SelectedLines(area: Area, grid: seq<seq<string>>, start: Point, end: Point)
    returns (lines: seq<string>)
    requires PointLe(start, end)
    ensures lines == SelectionLines(area, grid, start, end, end.row + 1)
  {
    lines := [];
    var absRow: int := start.row;
    while absRow <= end.row
      invariant start.row <= absRow <= end.row + 1
      invariant lines == SelectionLines(area, grid, start, end, absRow)
    {
      var line := SelectedLine(area, grid, start, end, absRow);
      SelectionLinesStep(area, grid, start, end, absRow);
      lines := lines + line;
      absRow := absRow + 1;
    }
  }

  /** The trimmed text of screen row `absRow` when it lies in the content
      area, from the start column on the first row to the end column on the
      last. */
  method SelectedLine(area: Area, grid: seq<seq<string>>, start: Point, end: Point, absRow: int)
    returns (line: seq<string>)
    ensures line == LineOf(area, grid, start, end, absRow)
  {
    var row := ScreenRow(area, absRow);
    line := [];
    if row.Some? {
      var colStart := if absRow == start.row then ScreenCol(area, start.col) else 0;
      var colEnd := if absRow == end.row then ScreenCol(area, end.col)
        else if area.w > 0 then area.w - 1 else 0;
      var rowText := RowCells(grid, row.value, colStart, colEnd);
      line := [TrimEndSpace(rowText)];
    }
  }

  /** The cells of screen row `row` from column `from` to column `to`, both
      included; nothing when `from` is past `to`. */
  method RowCells(grid: seq<seq<string>>, row: nat, from: nat, to: nat) returns (rowText: string)
    ensures rowText == RowText(grid, row, from, to + 1)
  {
    rowText := "";
    var c := from;
    while c <= to
      invariant from <= c && (c <= to + 1 || c == from)
      invariant rowText == RowText(grid, row, from, c)
    {
      rowText := rowText + CellText(grid, row, c);
      c := c + 1;
    }
  }
}
