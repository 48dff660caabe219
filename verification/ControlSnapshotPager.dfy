/** The control server's pager: large replies are kept as immutable snapshots and handed out page by page. Items, the
    rest of a document, and the size of encoded JSON are abstract; ids of new snapshots are given as fresh values. */
module ControlSnapshotPager {
  import opened Samples

  const PAGE_BYTES := 192 * 1024
  const CACHE_BYTES := 8 * 1024 * 1024
  const MAX_SNAPSHOTS := 32
  const MAX_ITEMS := 64
  const MAX_OFFSET := 100000
  const LIFETIME := 30000

  datatype ArrayName = Aircraft | Positions | Tracks | Messages

  /** A report: whether it is a refusal ("ok" is false), its item arrays, and everything else. */
  datatype Document<+I, +M> = Document(refused: bool, arrays: map<ArrayName, seq<I>>, rest: M)

  /** A page repeats the rest of the document only at offset 0. */
  datatype Reply<+I, +M> =
    | Error(status: nat)
    | Whole(document: Document<I, M>)
    | Page(rest: Option<M>, arrays: map<ArrayName, seq<I>>, snapshot: string, offset: nat, next: Option<nat>,
           total: nat)

  datatype Key = Key(route: string, session: string, view: string)

  datatype Snapshot<+I, +M> = Snapshot(key: Key, document: Document<I, M>, created: int, bytes: nat, total: nat)

  /** Sizes of encoded documents and replies. */
  datatype Encoding<!I, !M> = Encoding(documentSize: Document<I, M> -> nat, replySize: Reply<I, M> -> nat)

  // ---- Requests -----------------------------------------------------------------------------

  datatype Json = Absent | Text(text: string) | Number(value: real) | Other

  datatype Request = Request(session: Json, view: Json, snapshot: Json, offset: Json)

  predicate Digits(s: string) {
    forall i :: 0 <= i < |s| ==> '0' <= s[i] <= '9'
  }

  function Decimal(s: string): nat
    requires Digits(s)
  {
    if s == "" then 0 else 10 * Decimal(s[..|s| - 1]) + (s[|s| - 1] - '0') as int
  }

  predicate ValidOffset(offset: Json) {
    match offset
    case Absent => true
    case Text(s) => s != "" && Digits(s) && Decimal(s) <= MAX_OFFSET
    case Number(n) => 0.0 <= n <= MAX_OFFSET as real && n == n.Floor as real
    case Other => false
  }

  predicate ValidRequest(r: Request) {
    && (r.session.Absent? || r.session.Text?) && (r.view.Absent? || r.view.Text?)
    && (r.snapshot.Absent? || (r.snapshot.Text? && 0 < |r.snapshot.text| <= 64))
    && ValidOffset(r.offset)
  }

  /** The decimal digits of a number. */
  function Shown(n: nat): (s: string)
    ensures s != "" && Digits(s)
  {
    (if n < 10 then "" else Shown(n / 10)) + [(n % 10) as char + '0']
  }

  lemma {:induction false} ShownReadsBack(n: nat)
    ensures Decimal(Shown(n)) == n
  {
    var s := Shown(n);
    assert s[..|s| - 1] == if n < 10 then "" else Shown(n / 10);
    if n >= 10 {
      ShownReadsBack(n / 10);
    }
  }

  /** An offset may be sent as a number or as its digits; both are admitted exactly up to 100000, and mean the same. */
  lemma OffsetsMeanTheSame(n: nat)
    ensures ValidOffset(Text(Shown(n))) <==> n <= 100000
    ensures ValidOffset(Number(n as real)) <==> n <= 100000
    ensures n <= 100000 ==> OffsetOf(Text(Shown(n))) == OffsetOf(Number(n as real)) == n
    ensures ValidOffset(Absent) && OffsetOf(Absent) == 0
  {
    ShownReadsBack(n);
  }

  /** Numbers that are negative, not whole or too large are refused, and so are other values and an empty text. */
  lemma OtherOffsetsAreRefused(x: real)
    ensures ValidOffset(Number(x)) ==> 0 <= x.Floor <= 100000 && x == x.Floor as real && OffsetOf(Number(x)) == x.Floor
    ensures !ValidOffset(Text("")) && !ValidOffset(Text("-1")) && !ValidOffset(Other)
  {
    var s := "-1";
    assert s[0] == '-';
  }

  function TextOf(j: Json): string {
    if j.Text? then j.text else ""
  }

  function OffsetOf(j: Json): nat
    requires ValidOffset(j)
  {
    match j
    case Text(s) => Decimal(s)
    case Number(n) => n.Floor
    case _ => 0
  }

  function KeyOf(route: string, r: Request): Key {
    Key(route, TextOf(r.session), TextOf(r.view))
  }

  /** A snapshot belongs to a route, a session and a view. */
  lemma KeysAgreeIff(route: string, r: Request, route': string, r': Request)
    ensures KeyOf(route, r) == KeyOf(route', r') <==>
      route == route' && TextOf(r.session) == TextOf(r'.session) && TextOf(r.view) == TextOf(r'.view)
  {}

  // ---- Pages --------------------------------------------------------------------------------

  function Length<I>(arrays: map<ArrayName, seq<I>>, name: ArrayName): nat {
    if name in arrays then |arrays[name]| else 0
  }

  /** The length of the longest array. */
  function Longest<I>(arrays: map<ArrayName, seq<I>>): nat {
    Max(Max(Length(arrays, Aircraft), Length(arrays, Positions)), Max(Length(arrays, Tracks), Length(arrays, Messages)))
  }

  /** The part of an array from offset on, of at most count items. */
  function Clip<I>(items: seq<I>, offset: nat, count: nat): seq<I> {
    items[Min(offset, |items|)..Min(offset + count, |items|)]
  }

  function Build<I, M>(s: Snapshot<I, M>, id: string, offset: nat, count: nat): Reply<I, M> {
    Page(if offset == 0 then Some(s.document.rest) else None,
         map name | name in s.document.arrays :: Clip(s.document.arrays[name], offset, count),
         id, offset, if offset + count < s.total then Some(offset + count) else None, s.total)
  }

  /** The count, halved until its page fits or there is nothing left to halve. */
  function FitCount<I, M>(e: Encoding<I, M>, s: Snapshot<I, M>, id: string, offset: nat, count: nat): (c: nat)
    ensures c <= count && (count > 0 ==> c > 0)
    ensures e.replySize(Build(s, id, offset, c)) > PAGE_BYTES ==> c <= 1
    decreases count
  {
    if e.replySize(Build(s, id, offset, count)) <= PAGE_BYTES || count <= 1 then count
    else FitCount(e, s, id, offset, count / 2)
  }

  /** The count of items on the page at an offset: at most 64, and not zero while there are items. */
  function PageCount<I, M>(e: Encoding<I, M>, s: Snapshot<I, M>, id: string, offset: nat): (c: nat)
    requires offset <= s.total
    ensures c <= MAX_ITEMS && offset + c <= s.total && (offset < s.total ==> c > 0)
    ensures e.replySize(Build(s, id, offset, c)) > PAGE_BYTES ==> c <= 1
  {
    FitCount(e, s, id, offset, Min(MAX_ITEMS, s.total - offset))
  }

  /** Halving stops at the first page that fits: a count below the full one means that twice as many items, or one more
      than that, were too many. */
  lemma {:induction false} FitTakesFirst<I, M>(e: Encoding<I, M>, s: Snapshot<I, M>, id: string, offset: nat,
                                               count: nat)
    ensures var c := FitCount(e, s, id, offset, count);
      || c == count
      || (2 * c <= count && e.replySize(Build(s, id, offset, 2 * c)) > PAGE_BYTES)
      || (2 * c + 1 <= count && e.replySize(Build(s, id, offset, 2 * c + 1)) > PAGE_BYTES)
    decreases count
  {
    if e.replySize(Build(s, id, offset, count)) > PAGE_BYTES && count > 1 {
      FitTakesFirst(e, s, id, offset, count / 2);
      assert count == 2 * (count / 2) || count == 2 * (count / 2) + 1;
    }
  }

  /** The page at an offset; or an error, because even the smallest page is too large. */
  function PageAt<I, M>(e: Encoding<I, M>, s: Snapshot<I, M>, id: string, offset: nat): (r: Reply<I, M>)
    requires offset <= s.total
    ensures r.Page? ==> r == Build(s, id, offset, PageCount(e, s, id, offset))
    ensures r.Page? && r.next.Some? ==> offset < r.next.value < s.total && r.next.value <= offset + MAX_ITEMS
  {
    var page := Build(s, id, offset, PageCount(e, s, id, offset));
    if e.replySize(page) <= PAGE_BYTES then page else Error(413)
  }

  /** A page names its snapshot, its place and the whole length, has a part of every array, and carries the rest of the
      document exactly if it is the first. */
  lemma PageIsLabelled<I, M>(e: Encoding<I, M>, s: Snapshot<I, M>, id: string, offset: nat)
    requires offset <= s.total && PageAt(e, s, id, offset).Page?
    ensures var p := PageAt(e, s, id, offset);
      && p.snapshot == id && p.offset == offset && p.total == s.total
      && p.arrays.Keys == s.document.arrays.Keys && e.replySize(p) <= 196608
      && p.rest == if offset == 0 then Some(s.document.rest) else None
  {}

  // ---- Reassembly ---------------------------------------------------------------------------

  /** The replies a client gets by following the next offsets from this one, up to the last page or an error. */
  function Walk<I, M>(e: Encoding<I, M>, s: Snapshot<I, M>, id: string, offset: nat): (replies: seq<Reply<I, M>>)
    requires offset <= s.total
    ensures replies != [] && replies[0] == PageAt(e, s, id, offset)
    decreases s.total - offset
  {
    var p := PageAt(e, s, id, offset);
    if p.Page? && p.next.Some? then [p] + Walk(e, s, id, p.next.value) else [p]
  }

  /** One array, put together from pages. */
  function Assembled<I, M>(replies: seq<Reply<I, M>>, name: ArrayName): seq<I> {
    if replies == [] then []
    else
      (if replies[0].Page? && name in replies[0].arrays then replies[0].arrays[name] else [])
      + Assembled(replies[1..], name)
  }

  predicate AllPages<I, M>(replies: seq<Reply<I, M>>) {
    forall i :: 0 <= i < |replies| ==> replies[i].Page?
  }

  /** Each page begins where the one before it points, further on, and the last points nowhere. */
  ghost predicate Linked<I, M>(w: seq<Reply<I, M>>) {
    && AllPages(w) && w != [] && w[|w| - 1].next.None?
    && forall i :: 0 <= i < |w| - 1 ==> w[i].next == Some(w[i + 1].offset) && w[i].offset < w[i + 1].offset
  }

  lemma LinkedWith<I, M>(p: Reply<I, M>, rest: seq<Reply<I, M>>)
    requires Linked(rest) && p.Page? && p.next == Some(rest[0].offset) && p.offset < rest[0].offset
    ensures Linked([p] + rest)
  {
    var w := [p] + rest;
    forall i | 0 <= i < |w| - 1
      ensures w[i].next == Some(w[i + 1].offset) && w[i].offset < w[i + 1].offset
    {
      if i > 0 {
        assert w[i] == rest[i - 1] && w[i + 1] == rest[i];
      }
    }
  }

  /** A walk is its first reply, or that reply and the walk from where it points. */
  lemma WalkUnfolds<I, M>(e: Encoding<I, M>, s: Snapshot<I, M>, id: string, offset: nat)
    requires offset <= s.total
    ensures var w, p := Walk(e, s, id, offset), PageAt(e, s, id, offset);
      if p.Page? && p.next.Some? then
        var rest := Walk(e, s, id, p.next.value);
        w == [p] + rest && w[1..] == rest && w[|w| - 1] == rest[|rest| - 1]
        && (AllPages(w) <==> AllPages(rest))
      else w == [p] && w[1..] == [] && (AllPages(w) <==> p.Page?)
  {
    var w, p := Walk(e, s, id, offset), PageAt(e, s, id, offset);
    if p.Page? && p.next.Some? {
      var rest := Walk(e, s, id, p.next.value);
      assert forall i :: 0 <= i < |rest| ==> rest[i] == w[i + 1];
    }
  }

  /** A walk without errors is linked, from its offset on. */
  lemma {:induction false} WalkIsLinked<I, M>(e: Encoding<I, M>, s: Snapshot<I, M>, id: string, offset: nat)
    requires offset <= s.total && AllPages(Walk(e, s, id, offset))
    ensures Linked(Walk(e, s, id, offset)) && Walk(e, s, id, offset)[0].offset == offset
    decreases s.total - offset
  {
    var p := PageAt(e, s, id, offset);
    WalkUnfolds(e, s, id, offset);
    assert p == Walk(e, s, id, offset)[0];
    if p.next.Some? {
      WalkIsLinked(e, s, id, p.next.value);
      LinkedWith(p, Walk(e, s, id, p.next.value));
    }
  }

  /** The items of an array from an offset on. */
  function From<I>(items: seq<I>, offset: nat): seq<I> {
    items[Min(offset, |items|)..]
  }

  lemma ClipThenRest<I>(items: seq<I>, offset: nat, count: nat, next: nat)
    requires next == offset + count
    ensures Clip(items, offset, count) + From(items, next) == From(items, offset)
  {}

  lemma ClipToEnd<I>(items: seq<I>, offset: nat, count: nat)
    requires |items| <= offset + count
    ensures Clip(items, offset, count) == From(items, offset)
  {}

  /** A page's part of an array, with what there is from its next offset on, is what there is from its own. */
  ghost predicate Prefix<I, M>(p: Reply<I, M>, offset: nat, name: ArrayName, items: seq<I>)
    requires p.Page?
  {
    && name in p.arrays
    && (p.next.Some? ==> p.arrays[name] + From(items, p.next.value) == From(items, offset))
    && (p.next.None? ==> p.arrays[name] == From(items, offset))
  }

  lemma BuiltIsPrefix<I, M>(s: Snapshot<I, M>, id: string, offset: nat, count: nat, name: ArrayName)
    requires s.total == Longest(s.document.arrays) && name in s.document.arrays
    ensures Prefix(Build(s, id, offset, count), offset, name, s.document.arrays[name])
  {
    var items := s.document.arrays[name];
    if offset + count < s.total {
      ClipThenRest(items, offset, count, offset + count);
    } else {
      LongestIsLongest(s.document.arrays, name);
      ClipToEnd(items, offset, count);
    }
  }

  lemma PageIsPrefix<I, M>(e: Encoding<I, M>, s: Snapshot<I, M>, id: string, offset: nat, name: ArrayName)
    requires offset <= s.total && s.total == Longest(s.document.arrays) && name in s.document.arrays
    requires PageAt(e, s, id, offset).Page?
    ensures Prefix(PageAt(e, s, id, offset), offset, name, s.document.arrays[name])
  {
    BuiltIsPrefix(s, id, offset, PageCount(e, s, id, offset), name);
  }

  /** Unless a reply is an error, the pages of a walk put together are each array from the offset on, whatever sizes
      made pages smaller. */
  lemma {:induction false} WalkReassembles<I, M>(e: Encoding<I, M>, s: Snapshot<I, M>, id: string, offset: nat,
                                                 name: ArrayName)
    requires offset <= s.total && s.total == Longest(s.document.arrays) && name in s.document.arrays
    requires AllPages(Walk(e, s, id, offset))
    ensures Assembled(Walk(e, s, id, offset), name) == From(s.document.arrays[name], offset)
    decreases s.total - offset
  {
    var p := PageAt(e, s, id, offset);
    WalkUnfolds(e, s, id, offset);
    assert p == Walk(e, s, id, offset)[0];
    PageIsPrefix(e, s, id, offset, name);
    if p.next.Some? {
      WalkReassembles(e, s, id, p.next.value, name);
    }
  }

  lemma LongestIsLongest<I>(arrays: map<ArrayName, seq<I>>, name: ArrayName)
    ensures Length(arrays, name) <= Longest(arrays)
  {
    match name
    case Aircraft =>
    case Positions =>
    case Tracks =>
    case Messages =>
  }

  /** Some array is that long. */
  lemma LongestIsAttained<I>(arrays: map<ArrayName, seq<I>>)
    ensures Longest(arrays) == 0 || exists name :: name in arrays && |arrays[name]| == Longest(arrays)
  {
    assert Longest(arrays) == Length(arrays, Aircraft) || Longest(arrays) == Length(arrays, Positions)
      || Longest(arrays) == Length(arrays, Tracks) || Longest(arrays) == Length(arrays, Messages);
  }

  /** The request check refuses offsets beyond 100000. All pages of a walk from the start can be asked for exactly when
      the last one can; that is so for every document of up to 100001 items, and for none of more than 100064. */
  lemma WholeWalkIsValidIff<I, M>(e: Encoding<I, M>, s: Snapshot<I, M>, id: string)
    requires AllPages(Walk(e, s, id, 0))
    ensures var w := Walk(e, s, id, 0);
      && ((forall i :: 0 <= i < |w| ==> w[i].offset <= MAX_OFFSET) <==> w[|w| - 1].offset <= MAX_OFFSET)
      && (s.total <= MAX_OFFSET + 1 ==> w[|w| - 1].offset <= MAX_OFFSET)
      && (s.total > MAX_OFFSET + MAX_ITEMS ==> w[|w| - 1].offset > MAX_OFFSET)
  {
    var w := Walk(e, s, id, 0);
    WalkIsLinked(e, s, id, 0);
    LastPageReachesEnd(e, s, id, 0);
    OffsetsRise(w, MAX_OFFSET);
  }

  lemma {:induction false} OffsetsRise<I, M>(w: seq<Reply<I, M>>, limit: nat)
    requires w != [] && AllPages(w) && forall i :: 0 <= i < |w| - 1 ==> w[i].offset < w[i + 1].offset
    ensures w[|w| - 1].offset <= limit ==> forall i :: 0 <= i < |w| ==> w[i].offset <= limit
  {
    if |w| > 1 && w[|w| - 1].offset <= limit {
      var v := w[..|w| - 1];
      OffsetsRise(v, limit);
      assert forall i :: 0 <= i < |v| ==> v[i] == w[i];
    }
  }

  lemma {:induction false} LastPageReachesEnd<I, M>(e: Encoding<I, M>, s: Snapshot<I, M>, id: string, offset: nat)
    requires offset <= s.total && AllPages(Walk(e, s, id, offset))
    ensures var w := Walk(e, s, id, offset); var last := w[|w| - 1].offset;
      offset <= last <= s.total <= last + MAX_ITEMS && (last == offset || last < s.total)
    decreases s.total - offset
  {
    var p := PageAt(e, s, id, offset);
    WalkUnfolds(e, s, id, offset);
    assert p == Walk(e, s, id, offset)[0];
    if p.next.Some? {
      LastPageReachesEnd(e, s, id, p.next.value);
    }
  }

  // ---- What can be fetched ------------------------------------------------------------------

  /** All pages from an offset on can be asked for and fit. */
  predicate Fetchable<I, M>(e: Encoding<I, M>, s: Snapshot<I, M>, id: string, offset: nat)
    requires offset <= s.total
    decreases s.total - offset
  {
    var p := PageAt(e, s, id, offset);
    offset <= MAX_OFFSET && p.Page? && (p.next.Some? ==> Fetchable(e, s, id, p.next.value))
  }

  /** That is so exactly when the walk meets no error and its last offset is one the request check admits. */
  lemma {:induction false} FetchableIff<I, M>(e: Encoding<I, M>, s: Snapshot<I, M>, id: string, offset: nat)
    requires offset <= s.total
    ensures var w := Walk(e, s, id, offset);
      Fetchable(e, s, id, offset) <==> AllPages(w) && w[|w| - 1].offset <= MAX_OFFSET
    decreases s.total - offset
  {
    var w, p := Walk(e, s, id, offset), PageAt(e, s, id, offset);
    WalkUnfolds(e, s, id, offset);
    if p.Page? && p.next.Some? {
      FetchableIff(e, s, id, p.next.value);
    }
    if AllPages(w) {
      LastPageReachesEnd(e, s, id, offset);
    }
  }

  /** No page of one item, or of none, is too large to send. */
  ghost predicate SmallPagesFit<I, M>(e: Encoding<I, M>, s: Snapshot<I, M>, id: string) {
    forall offset: nat, c: nat :: offset <= s.total && c <= 1 ==> e.replySize(Build(s, id, offset, c)) <= PAGE_BYTES
  }

  /** Then there is no error on the way. */
  lemma {:induction false} SmallPagesGiveAll<I, M>(e: Encoding<I, M>, s: Snapshot<I, M>, id: string, offset: nat)
    requires SmallPagesFit(e, s, id) && offset <= s.total
    ensures AllPages(Walk(e, s, id, offset))
    decreases s.total - offset
  {
    var c, p := PageCount(e, s, id, offset), PageAt(e, s, id, offset);
    assert c <= 1 ==> e.replySize(Build(s, id, offset, c)) <= PAGE_BYTES;
    WalkUnfolds(e, s, id, offset);
    if p.next.Some? {
      SmallPagesGiveAll(e, s, id, p.next.value);
    }
  }

  /** A document of at most 100001 items, none too large for a page, can be fetched; one of more than 100064 cannot. */
  lemma FetchableBySize<I, M>(e: Encoding<I, M>, s: Snapshot<I, M>, id: string)
    ensures SmallPagesFit(e, s, id) && s.total <= MAX_OFFSET + 1 ==> Fetchable(e, s, id, 0)
    ensures s.total > MAX_OFFSET + MAX_ITEMS ==> !Fetchable(e, s, id, 0)
  {
    var w := Walk(e, s, id, 0);
    FetchableIff(e, s, id, 0);
    if SmallPagesFit(e, s, id) {
      SmallPagesGiveAll(e, s, id, 0);
    }
    if AllPages(w) {
      WholeWalkIsValidIff(e, s, id);
      assert s.total <= MAX_OFFSET + 1 ==> w[|w| - 1].offset <= MAX_OFFSET;
      assert s.total > MAX_OFFSET + MAX_ITEMS ==> w[|w| - 1].offset > MAX_OFFSET;
    }
  }

  /** The page at an offset with as many items as a page may have. */
  function FullPage<I, M>(s: Snapshot<I, M>, id: string, offset: nat): Reply<I, M>
    requires offset <= s.total
  {
    Build(s, id, offset, Min(MAX_ITEMS, s.total - offset))
  }

  /** No page has to be made smaller. */
  ghost predicate FullPagesFit<I, M>(e: Encoding<I, M>, s: Snapshot<I, M>, id: string) {
    forall offset: nat :: offset <= s.total ==> e.replySize(FullPage(s, id, offset)) <= PAGE_BYTES
  }

  lemma FullPageAt<I, M>(e: Encoding<I, M>, s: Snapshot<I, M>, id: string, offset: nat)
    requires FullPagesFit(e, s, id) && offset <= s.total
    ensures var p := PageAt(e, s, id, offset);
      p.Page? && p.next == if offset + 64 < s.total then Some(offset + 64) else None
  {
    var c := Min(MAX_ITEMS, s.total - offset);
    assert e.replySize(FullPage(s, id, offset)) <= PAGE_BYTES;
    assert FitCount(e, s, id, offset, c) == c;
    hide FitCount, FullPagesFit;
    assert PageCount(e, s, id, offset) == c;
  }

  lemma {:induction false} FullPagesFetchableFrom<I, M>(e: Encoding<I, M>, s: Snapshot<I, M>, id: string, offset: nat)
    requires FullPagesFit(e, s, id) && offset <= s.total && offset % MAX_ITEMS == 0 && offset <= MAX_OFFSET
    ensures Fetchable(e, s, id, offset) <==> s.total <= 100032
    decreases s.total - offset
  {
    hide PageAt, FullPagesFit;
    FullPageAt(e, s, id, offset);
    var next := offset + MAX_ITEMS;
    if next < s.total && next <= MAX_OFFSET {
      FullPagesFetchableFrom(e, s, id, next);
    }
  }

  /** Where every full page fits, a document can be fetched exactly when it has at most 100032 items: the offsets are
      the multiples of 64, and 99968 is the last one that the request check admits. */
  lemma FetchableInFullPagesIff<I, M>(e: Encoding<I, M>, s: Snapshot<I, M>, id: string)
    requires FullPagesFit(e, s, id)
    ensures Fetchable(e, s, id, 0) <==> s.total <= 100032
  {
    FullPagesFetchableFrom(e, s, id, 0);
  }

  /** A document of 100065 aircraft in 300000 bytes: kept in the cache, every page small enough, and still the offset
      of its last page is one the request check refuses. */
  lemma LongDocumentCannotBeFetched()
    ensures var e: Encoding<int, int> := Encoding(_ => 300000, _ => 100);
      var document := Document(false, map[Aircraft := seq(100065, _ => 0)], 0);
      var s := Snapshot(Key("", "", ""), document, 0, e.documentSize(document), Longest(document.arrays));
      var w := Walk(e, s, "id", 0);
      && s.bytes <= CACHE_BYTES && AllPages(w) && !ValidOffset(Number(w[|w| - 1].offset as real))
      && !Fetchable(e, s, "id", 0)
  {
    var e: Encoding<int, int> := Encoding(_ => 300000, _ => 100);
    var document := Document(false, map[Aircraft := seq(100065, _ => 0)], 0);
    var s := Snapshot(Key("", "", ""), document, 0, e.documentSize(document), Longest(document.arrays));
    assert s.total == 100065;
    SmallPagesGiveAll(e, s, "id", 0);
    WholeWalkIsValidIff(e, s, "id");
    FetchableBySize(e, s, "id");
  }

  // ---- The cache ----------------------------------------------------------------------------

  type Snapshots<I, M> = map<string, Snapshot<I, M>>

  ghost function Pick<I, M>(m: Snapshots<I, M>): (id: string)
    requires m != map[]
    ensures id in m
  {
    var id :| id in m; id
  }

  ghost function Sum<I, M>(m: Snapshots<I, M>): nat
    decreases |m|
  {
    if m == map[] then 0 else m[Pick(m)].bytes + Sum(m - {Pick(m)})
  }

  /** The sum does not depend on the order of the snapshots. */
  lemma {:induction false} SumWithout<I, M>(m: Snapshots<I, M>, id: string)
    requires id in m
    ensures Sum(m) == m[id].bytes + Sum(m - {id})
    decreases |m|
  {
    var first := Pick(m);
    if first != id {
      SumWithout(m - {first}, id);
      SumWithout(m - {id}, first);
      assert m - {first} - {id} == m - {id} - {first};
    }
  }

  lemma SumWith<I, M>(m: Snapshots<I, M>, id: string, s: Snapshot<I, M>)
    requires id !in m
    ensures m[id := s] - {id} == m && Sum(m[id := s]) == Sum(m) + s.bytes && |m[id := s]| == |m| + 1
  {
    SumWithout(m[id := s], id);
    assert m[id := s] - {id} == m;
  }

  predicate Expired<I, M>(s: Snapshot<I, M>, now: int) {
    now - s.created >= LIFETIME
  }

  function Live<I, M>(m: Snapshots<I, M>, now: int): Snapshots<I, M> {
    map id | id in m && !Expired(m[id], now) :: m[id]
  }

  /** Expired snapshots removed, except for those in rest that are still to be looked at. */
  ghost predicate Expiring<I, M>(all: Snapshots<I, M>, m: Snapshots<I, M>, rest: set<string>, now: int) {
    && rest <= m.Keys && Within(m, all)
    && forall id :: id in all ==> (id in m <==> id in rest || !Expired(all[id], now))
  }

  lemma ExpiringStep<I, M>(all: Snapshots<I, M>, m: Snapshots<I, M>, rest: set<string>, now: int, id: string)
    requires Expiring(all, m, rest, now) && id in rest
    ensures Expiring(all, if Expired(m[id], now) then m - {id} else m, rest - {id}, now)
  {}

  lemma ExpiringDone<I, M>(all: Snapshots<I, M>, m: Snapshots<I, M>, now: int)
    requires Expiring(all, m, {}, now)
    ensures m == Live(all, now)
  {}

  /** One snapshot map is part of another. */
  ghost predicate Within<I, M>(m: Snapshots<I, M>, n: Snapshots<I, M>) {
    forall id :: id in m ==> id in n && m[id] == n[id]
  }

  /** Room for one more snapshot of a size. */
  ghost predicate Room<I, M>(m: Snapshots<I, M>, size: nat) {
    |m| < MAX_SNAPSHOTS && Sum(m) + size <= CACHE_BYTES
  }

  /** Some of the snapshots dropped to make room: none that is newer than one kept, and no more than necessary. */
  ghost predicate Thinned<I, M>(m: Snapshots<I, M>, kept: Snapshots<I, M>, size: nat) {
    && Within(kept, m)
    && (forall d, k :: d in m && d !in kept && k in kept ==> m[d].created <= kept[k].created)
    && (kept == m || exists d :: d in m && d !in kept && !Room(kept[d := m[d]], size))
  }

  lemma ThinnedFurther<I, M>(m: Snapshots<I, M>, kept: Snapshots<I, M>, size: nat, oldest: string)
    requires Thinned(m, kept, size) && !Room(kept, size)
    requires oldest in kept && forall id :: id in kept ==> kept[oldest].created <= kept[id].created
    ensures Thinned(m, kept - {oldest}, size)
  {
    var kept' := kept - {oldest};
    assert kept'[oldest := m[oldest]] == kept;
  }

  lemma AllKept<I, M>(m: Snapshots<I, M>, size: nat)
    ensures Thinned(m, m, size)
  {}

  /** There is room for a snapshot beside 31 others, and within 8 MiB in all. */
  lemma RoomIff<I, M>(m: Snapshots<I, M>, size: nat)
    ensures Room(m, size) <==> |m| <= 31 && Sum(m) + size <= 8388608
  {}

  lemma EmptyHasRoom<I, M>(m: Snapshots<I, M>, size: nat)
    requires size <= CACHE_BYTES && m == map[]
    ensures Room(m, size)
  {}

  /** The reply to a request for a page of a snapshot. */
  function Continued<I, M>(e: Encoding<I, M>, m: Snapshots<I, M>, key: Key, id: string, offset: nat): Reply<I, M> {
    if id !in m || m[id].key != key then Error(409)
    else if offset > m[id].total then Error(400)
    else PageAt(e, m[id], id, offset)
  }

  /** A snapshot is handed out to the key it was made for, and to no other; what is not there any more is asked for in
      vain, and an offset beyond its end is refused. */
  lemma OnlyItsKeyIsServed<I, M>(e: Encoding<I, M>, m: Snapshots<I, M>, key: Key, id: string, offset: nat)
    ensures var reply := Continued(e, m, key, id, offset);
      && (reply == Error(409) <==> id !in m || m[id].key != key)
      && (reply == Error(400) <==> id in m && m[id].key == key && offset > m[id].total)
      && (reply.Page? ==> id in m && m[id].key == key && reply.snapshot == id && reply.offset == offset)
  {
    if id in m && offset <= m[id].total && PageAt(e, m[id], id, offset).Page? {
      PageIsLabelled(e, m[id], id, offset);
    }
  }

  /** Each snapshot carries its document's size and the length of its longest array. */
  ghost predicate Sound<I, M>(e: Encoding<I, M>, m: Snapshots<I, M>) {
    forall id :: id in m ==>
      m[id].bytes == e.documentSize(m[id].document) && m[id].total == Longest(m[id].document.arrays)
  }

  lemma SoundWithin<I, M>(e: Encoding<I, M>, m: Snapshots<I, M>, kept: Snapshots<I, M>)
    requires Sound(e, m) && Within(kept, m)
    ensures Sound(e, kept)
  {}

  lemma SoundWith<I, M>(e: Encoding<I, M>, m: Snapshots<I, M>, id: string, s: Snapshot<I, M>)
    requires Sound(e, m) && s.bytes == e.documentSize(s.document) && s.total == Longest(s.document.arrays)
    ensures Sound(e, m[id := s])
  {}

  class ControlSnapshotPager<I, M> {
    const encoding: Encoding<I, M>
    var snapshots: Snapshots<I, M>
    var bytes: int

    /** The byte counter is the sum over the snapshots, and both limits hold. */
    ghost predicate Counted()
      reads this
    {
      bytes == Sum(snapshots) <= CACHE_BYTES && |snapshots| <= MAX_SNAPSHOTS
    }

    ghost predicate Valid()
      reads this
    {
      Counted() && Sound(encoding, snapshots)
    }

    constructor (encoding: Encoding<I, M>)
      ensures Valid() && snapshots == map[] && this.encoding == encoding
    {
      this.encoding, snapshots, bytes := encoding, map[], 0;
    }

    method Clear()
      modifies this
      ensures Valid() && snapshots == map[]
    {
      snapshots, bytes := map[], 0;
    }

    method Drop(id: string)
      requires Counted() && id in snapshots
      modifies this
      ensures Counted() && snapshots == old(snapshots) - {id}
    {
      SumWithout(snapshots, id);
      bytes := bytes - snapshots[id].bytes;
      snapshots := snapshots - {id};
    }

    method Expire(now: int)
      requires Valid()
      modifies this
      ensures Valid() && snapshots == Live(old(snapshots), now)
      ensures forall id :: id in snapshots <==> id in old(snapshots) && now - old(snapshots)[id].created < 30000
    {
      var rest := snapshots.Keys;
      ghost var all := snapshots;
      while rest != {}
        invariant Counted() && Expiring(all, snapshots, rest, now)
      {
        var id :| id in rest;
        ExpiringStep(all, snapshots, rest, now, id);
        if now - snapshots[id].created >= LIFETIME {
          Drop(id);
        }
        rest := rest - {id};
      }
      ExpiringDone(all, snapshots, now);
    }

    /** The snapshot that is to go first: one created no later than any other. */
    method Oldest() returns (oldest: string)
      requires snapshots != map[]
      ensures oldest in snapshots && forall id :: id in snapshots ==> snapshots[oldest].created <= snapshots[id].created
    {
      var rest := snapshots.Keys;
      oldest :| oldest in rest;
      rest := rest - {oldest};
      while rest != {}
        invariant rest <= snapshots.Keys && oldest in snapshots
        invariant forall id :: id in snapshots && id !in rest ==> snapshots[oldest].created <= snapshots[id].created
      {
        var id :| id in rest;
        if snapshots[id].created < snapshots[oldest].created {
          oldest := id;
        }
        rest := rest - {id};
      }
    }

    method DropOldest(ghost all: Snapshots<I, M>, ghost size: nat)
      requires Counted() && snapshots != map[] && Thinned(all, snapshots, size) && !Room(snapshots, size)
      modifies this
      ensures Counted() && Thinned(all, snapshots, size) && |snapshots| < |old(snapshots)|
    {
      var id := Oldest();
      ThinnedFurther(all, snapshots, size, id);
      Drop(id);
    }

    method Evict(size: nat)
      requires Valid() && size <= CACHE_BYTES
      modifies this
      ensures Valid() && Thinned(old(snapshots), snapshots, size) && Room(snapshots, size)
    {
      ghost var all := snapshots;
      AllKept(all, size);
      while snapshots != map[] && (|snapshots| >= MAX_SNAPSHOTS || bytes + size > CACHE_BYTES)
        invariant Counted() && Thinned(all, snapshots, size)
        decreases |snapshots|
      {
        DropOldest(all, size);
      }
      SoundWithin(encoding, all, snapshots);
      if snapshots == map[] {
        EmptyHasRoom(snapshots, size);
      }
    }

    /** The paging loop: halves the count until the encoded page fits. */
    method FitPage(s: Snapshot<I, M>, id: string, offset: nat) returns (reply: Reply<I, M>)
      requires offset <= s.total
      ensures reply == PageAt(encoding, s, id, offset)
    {
      var count: nat := Min(MAX_ITEMS, s.total - offset);
      while true
        invariant FitCount(encoding, s, id, offset, count) == PageCount(encoding, s, id, offset)
        decreases count
      {
        reply := Build(s, id, offset, count);
        if encoding.replySize(reply) <= PAGE_BYTES {
          return;
        }
        if count <= 1 {
          return Error(413);
        }
        count := if count / 2 > 1 then count / 2 else 1;
      }
    }

    /** The reply from the cache for an id and an offset. */
    method Continue(key: Key, id: string, offset: nat) returns (reply: Reply<I, M>)
      ensures reply == Continued(encoding, snapshots, key, id, offset)
    {
      if id !in snapshots || snapshots[id].key != key {
        return Error(409);
      }
      if offset > snapshots[id].total {
        return Error(400);
      }
      reply := FitPage(snapshots[id], id, offset);
    }

    /** Keeps a large document under a fresh id. */
    method Insert(key: Key, document: Document<I, M>, now: int, freshId: string)
      requires Valid() && freshId !in snapshots && encoding.documentSize(document) <= CACHE_BYTES
      modifies this
      ensures Valid() && freshId in snapshots
      ensures var size, total := encoding.documentSize(document), Longest(document.arrays);
        snapshots[freshId] == Snapshot(key, document, now, size, total)
      ensures Thinned(old(snapshots), snapshots - {freshId}, encoding.documentSize(document))
    {
      var size := encoding.documentSize(document);
      Evict(size);
      var s := Snapshot(key, document, now, size, Longest(document.arrays));
      SumWith(snapshots, freshId, s);
      SoundWith(encoding, snapshots, freshId, s);
      snapshots := snapshots[freshId := s];
      bytes := bytes + size;
    }

    /** One request. The document is that of a first request; a request for a page of a snapshot has none of its own. */
    method Respond(route: string, r: Request, document: Document<I, M>, now: int, freshId: string)
      returns (reply: Reply<I, M>)
      requires Valid() && (r.snapshot.Absent? ==> freshId !in snapshots)
      modifies this
      ensures Valid()
      ensures !ValidRequest(r) ==> reply == Error(400) && snapshots == old(snapshots)
      ensures ValidRequest(r) && r.snapshot.Text? ==>
        && snapshots == Live(old(snapshots), now)
        && reply == Continued(encoding, snapshots, KeyOf(route, r), r.snapshot.text, OffsetOf(r.offset))
      ensures ValidRequest(r) && r.snapshot.Absent? ==>
        var live, size, total := Live(old(snapshots), now), encoding.documentSize(document), Longest(document.arrays);
        if document.refused || (total <= MAX_ITEMS && size <= PAGE_BYTES) then
          reply == Whole(document) && snapshots == live
        else if size > CACHE_BYTES then reply == Error(413) && snapshots == live
        else
          && freshId in snapshots && snapshots[freshId] == Snapshot(KeyOf(route, r), document, now, size, total)
          && Thinned(live, snapshots - {freshId}, size)
          && reply == PageAt(encoding, snapshots[freshId], freshId, 0)
    {
      if !ValidRequest(r) {
        return Error(400);
      }
      Expire(now);
      var key, id, offset := KeyOf(route, r), TextOf(r.snapshot), OffsetOf(r.offset);
      if id == "" {
        offset := 0;
        if document.refused {
          return Whole(document);
        }
        var size := encoding.documentSize(document);
        if Longest(document.arrays) <= MAX_ITEMS && size <= PAGE_BYTES {
          return Whole(document);
        }
        if size > CACHE_BYTES {
          return Error(413);
        }
        id := freshId;
        Insert(key, document, now, freshId);
      }
      reply := Continue(key, id, offset);
    }
  }

  // ---- A client -----------------------------------------------------------------------------

  /** The items of an array up to an offset. */
  function UpTo<I>(items: seq<I>, offset: nat): seq<I> {
    items[..Min(offset, |items|)]
  }

  /** What a client has put together before the page at an offset: each array up to there. */
  ghost predicate Gathered<I>(got: map<ArrayName, seq<I>>, arrays: map<ArrayName, seq<I>>, offset: nat) {
    got.Keys == arrays.Keys && forall name :: name in arrays ==> got[name] == UpTo(arrays[name], offset)
  }

  function NothingYet<I>(arrays: map<ArrayName, seq<I>>): (got: map<ArrayName, seq<I>>)
    ensures Gathered(got, arrays, 0)
  {
    map name | name in arrays :: []
  }

  function Added<I>(got: map<ArrayName, seq<I>>, page: map<ArrayName, seq<I>>): map<ArrayName, seq<I>> {
    map name | name in got :: got[name] + if name in page then page[name] else []
  }

  lemma UpToGrows<I>(items: seq<I>, offset: nat, count: nat)
    ensures UpTo(items, offset) + Clip(items, offset, count) == UpTo(items, offset + count)
    ensures offset + count >= |items| ==> UpTo(items, offset + count) == items
  {}

  lemma BuiltGathers<I, M>(s: Snapshot<I, M>, id: string, offset: nat, count: nat, got: map<ArrayName, seq<I>>)
    requires Gathered(got, s.document.arrays, offset)
    ensures Gathered(Added(got, Build(s, id, offset, count).arrays), s.document.arrays, offset + count)
  {
    forall name | name in s.document.arrays
      ensures Added(got, Build(s, id, offset, count).arrays)[name] == UpTo(s.document.arrays[name], offset + count)
    {
      UpToGrows(s.document.arrays[name], offset, count);
    }
  }

  lemma AllGathered<I>(got: map<ArrayName, seq<I>>, arrays: map<ArrayName, seq<I>>, offset: nat)
    requires Gathered(got, arrays, offset) && offset >= Longest(arrays)
    ensures got == arrays
  {
    forall name | name in arrays
      ensures got[name] == arrays[name]
    {
      LongestIsLongest(arrays, name);
    }
  }

  lemma BuiltGathersOn<I, M>(s: Snapshot<I, M>, id: string, offset: nat, count: nat, got: map<ArrayName, seq<I>>)
    requires s.total == Longest(s.document.arrays) && Gathered(got, s.document.arrays, offset)
    ensures var p := Build(s, id, offset, count); var got' := Added(got, p.arrays);
      if p.next.Some? then Gathered(got', s.document.arrays, p.next.value) else got' == s.document.arrays
  {
    BuiltGathers(s, id, offset, count, got);
    if offset + count >= s.total {
      AllGathered(Added(got, Build(s, id, offset, count).arrays), s.document.arrays, offset + count);
    }
  }

  lemma PageGathers<I, M>(e: Encoding<I, M>, s: Snapshot<I, M>, id: string, offset: nat, got: map<ArrayName, seq<I>>)
    requires offset <= s.total && s.total == Longest(s.document.arrays) && PageAt(e, s, id, offset).Page?
    requires Gathered(got, s.document.arrays, offset)
    ensures var p := PageAt(e, s, id, offset); var got' := Added(got, p.arrays);
      if p.next.Some? then Gathered(got', s.document.arrays, p.next.value) else got' == s.document.arrays
  {
    BuiltGathersOn(s, id, offset, PageCount(e, s, id, offset), got);
  }

  /** A request of another client. */
  datatype Asked<I, M> = Asked(route: string, request: Request, document: Document<I, M>, now: int, freshId: string)

  method ServeOne<I, M>(p: ControlSnapshotPager<I, M>, a: Asked<I, M>, id: string)
    requires p.Valid() && a.freshId != id && a.freshId !in p.snapshots
    modifies p
    ensures p.Valid()
    ensures id in p.snapshots ==> id in old(p.snapshots) && p.snapshots[id] == old(p.snapshots)[id]
  {
    ghost var before := p.snapshots;
    var _ := p.Respond(a.route, a.request, a.document, a.now, a.freshId);
    if id in p.snapshots {
      OthersStayTheSame(before, p.snapshots, a.now, a.freshId, p.encoding.documentSize(a.document), id);
    }
  }

  lemma OthersStayTheSame<I, M>(m: Snapshots<I, M>, n: Snapshots<I, M>, now: int, freshId: string, size: nat,
                                id: string)
    requires n == m || n == Live(m, now) || Thinned(Live(m, now), n - {freshId}, size)
    requires id in n && id != freshId
    ensures id in m && n[id] == m[id]
  {
    if n != m && n != Live(m, now) {
      assert id in n - {freshId} && (n - {freshId})[id] == n[id];
    }
  }

  /** What other clients ask for, as far as their ids are fresh; a snapshot that is still there afterwards is the one
      that was there before. */
  method ServeOthers<I, M>(p: ControlSnapshotPager<I, M>, asked: seq<Asked<I, M>>, id: string)
    requires p.Valid() && forall a :: a in asked ==> a.freshId != id
    modifies p
    ensures p.Valid()
    ensures id in p.snapshots ==> id in old(p.snapshots) && p.snapshots[id] == old(p.snapshots)[id]
    ensures asked == [] ==> p.snapshots == old(p.snapshots)
  {
    var i := 0;
    while i < |asked|
      invariant 0 <= i <= |asked| && p.Valid()
      invariant id in p.snapshots ==> id in old(p.snapshots) && p.snapshots[id] == old(p.snapshots)[id]
      invariant asked == [] ==> p.snapshots == old(p.snapshots)
    {
      var a := asked[i];
      if a.freshId !in p.snapshots {
        ServeOne(p, a, id);
      }
      i := i + 1;
    }
  }

  /** Asking for the page of a snapshot that may have gone in the meantime. */
  method AskPage<I, M>(p: ControlSnapshotPager<I, M>, route: string, ghost s: Snapshot<I, M>,
                       document: Document<I, M>, now: int, id: string, offset: nat)
    returns (reply: Reply<I, M>)
    requires p.Valid() && 0 < |id| <= 64 && (id in p.snapshots ==> p.snapshots[id] == s)
    requires s.key == Key(route, "", "") && offset <= s.total
    modifies p
    ensures p.Valid() && (id in p.snapshots ==> p.snapshots[id] == s)
    ensures id in old(p.snapshots) && !Expired(s, now) ==> id in p.snapshots
    ensures reply == if offset > MAX_OFFSET then Error(400)
                     else if id in old(p.snapshots) && !Expired(s, now) then PageAt(p.encoding, s, id, offset)
                     else Error(409)
  {
    var r := Request(Absent, Absent, Text(id), Number(offset as real));
    PageRequest(route, id, offset);
    reply := p.Respond(route, r, document, now, "");
  }

  lemma PageRequest(route: string, id: string, offset: nat)
    requires 0 < |id| <= 64
    ensures var r := Request(Absent, Absent, Text(id), Number(offset as real));
      && (ValidRequest(r) <==> offset <= MAX_OFFSET) && KeyOf(route, r) == Key(route, "", "")
      && (ValidRequest(r) ==> OffsetOf(r.offset) == offset)
  {}

  /** Asking for it after what others ask. */
  method AskLater<I, M>(p: ControlSnapshotPager<I, M>, route: string, ghost s: Snapshot<I, M>,
                        document: Document<I, M>, now: int, others: seq<Asked<I, M>>, id: string, offset: nat)
    returns (reply: Reply<I, M>)
    requires p.Valid() && 0 < |id| <= 64 && (id in p.snapshots ==> p.snapshots[id] == s)
    requires s.key == Key(route, "", "") && offset <= s.total && forall a :: a in others ==> a.freshId != id
    modifies p
    ensures p.Valid() && (id in p.snapshots ==> p.snapshots[id] == s)
    ensures reply.Page? ==> reply == PageAt(p.encoding, s, id, offset) && offset <= MAX_OFFSET
    ensures id in old(p.snapshots) && !Expired(s, now) && others == [] ==>
      id in p.snapshots && (offset > MAX_OFFSET || reply == PageAt(p.encoding, s, id, offset))
  {
    ServeOthers(p, others, id);
    reply := AskPage(p, route, s, document, now, id, offset);
  }

  /** Nothing expires while the client asks, and no other client asks. */
  ghost predicate Undisturbed<I, M>(created: int, times: nat -> int, others: nat -> seq<Asked<I, M>>) {
    forall k: nat :: times(k) - created < LIFETIME && others(k) == []
  }

  /** The client's reply is the one its offset calls for, and the rest can be fetched exactly when all can. */
  ghost predicate OnCourse<I, M>(e: Encoding<I, M>, s: Snapshot<I, M>, id: string, offset: nat, reply: Reply<I, M>) {
    && offset <= s.total && (offset > MAX_OFFSET || reply == PageAt(e, s, id, offset))
    && (Fetchable(e, s, id, 0) <==> Fetchable(e, s, id, offset))
  }

  lemma CourseGoesOn<I, M>(e: Encoding<I, M>, s: Snapshot<I, M>, id: string, offset: nat, reply: Reply<I, M>,
                           answer: Reply<I, M>)
    requires OnCourse(e, s, id, offset, reply) && offset <= MAX_OFFSET && reply.Page? && reply.next.Some?
    requires reply.next.value > MAX_OFFSET || answer == PageAt(e, s, id, reply.next.value)
    ensures OnCourse(e, s, id, reply.next.value, answer)
  {}

  lemma CourseBegins<I, M>(e: Encoding<I, M>, s: Snapshot<I, M>, id: string, reply: Reply<I, M>)
    requires reply == PageAt(e, s, id, 0) && reply.Page?
    ensures OnCourse(e, s, id, 0, reply) && Gathered(NothingYet(reply.arrays), s.document.arrays, 0)
  {
    PageIsLabelled(e, s, id, 0);
  }

  lemma StillCalm<I, M>(s: Snapshot<I, M>, times: nat -> int, others: nat -> seq<Asked<I, M>>, k: nat)
    requires Undisturbed(s.created, times, others)
    ensures !Expired(s, times(k)) && others(k) == []
  {}

  lemma CourseEnds<I, M>(e: Encoding<I, M>, s: Snapshot<I, M>, id: string, offset: nat, reply: Reply<I, M>)
    requires OnCourse(e, s, id, offset, reply)
    ensures offset <= MAX_OFFSET && reply.Page? && reply.next.None? ==> Fetchable(e, s, id, 0)
    ensures !reply.Page? ==> !Fetchable(e, s, id, 0)
  {}

  /** Asking for a document: the whole of it, an error because it is too large, or its first page. */
  method AskFirst<I, M>(p: ControlSnapshotPager<I, M>, route: string, document: Document<I, M>, now: int,
                        freshId: string)
    returns (reply: Reply<I, M>)
    requires p.Valid() && freshId !in p.snapshots
    modifies p
    ensures p.Valid()
    ensures var size, total := p.encoding.documentSize(document), Longest(document.arrays);
      var s := Snapshot(Key(route, "", ""), document, now, size, total);
      && (reply.Whole? <==> document.refused || (total <= MAX_ITEMS && size <= PAGE_BYTES))
      && (!reply.Whole? && size <= CACHE_BYTES ==>
           freshId in p.snapshots && p.snapshots[freshId] == s && reply == PageAt(p.encoding, s, freshId, 0))
      && (!reply.Whole? && size > CACHE_BYTES ==> reply == Error(413))
      && (reply.Whole? ==> reply.document == document)
  {
    reply := p.Respond(route, Request(Absent, Absent, Absent, Absent), document, now, freshId);
  }

  /** A client that asks for a document and follows the next offsets of the snapshot that the replies name gets the
      whole document back if it gets all its pages, whenever it asks and whatever others ask in between. While
      nothing expires and nobody else asks, it does get them exactly for a document that is no refusal and either
      fits one reply, or fits the cache and is fetchable. */
  method Fetch<I, M>(p: ControlSnapshotPager<I, M>, route: string, document: Document<I, M>, times: nat -> int,
                     others: nat -> seq<Asked<I, M>>, freshId: string)
    returns (fetched: Option<Document<I, M>>)
    requires p.Valid() && freshId !in p.snapshots && 0 < |freshId| <= 64
    requires forall k, a :: a in others(k) ==> a.freshId != freshId
    modifies p
    ensures p.Valid()
    ensures fetched.Some? ==> fetched.value == document
    ensures var size, total := p.encoding.documentSize(document), Longest(document.arrays);
      var s := Snapshot(Key(route, "", ""), document, times(0), size, total);
      Undisturbed(times(0), times, others) ==>
        (fetched.Some? <==>
          && !document.refused
          && ((total <= 64 && size <= 196608)
              || (size <= 8388608 && Fetchable(p.encoding, s, freshId, 0))))
  {
    var reply := AskFirst(p, route, document, times(0), freshId);
    if reply.Whole? {
      return if reply.document.refused then None else Some(reply.document);
    }
    ghost var e, calm := p.encoding, Undisturbed(times(0), times, others);
    if !reply.Page? {
      if e.documentSize(document) <= CACHE_BYTES {
        CourseEnds(e, p.snapshots[freshId], freshId, 0, reply);
      }
      return None;
    }
    ghost var s, id := p.snapshots[freshId], freshId;
    PageIsLabelled(e, s, id, 0);
    var offset, k, rest, got := 0, 0, reply.rest.value, NothingYet(reply.arrays);
    CourseBegins(e, s, id, reply);
    hide PageAt, Fetchable, Build, Gathered, Live, Thinned, Longest, OnCourse, Sum, Sound, Added, Expired, Undisturbed;
    while reply.Page?
      invariant p.Valid() && (id in p.snapshots ==> p.snapshots[id] == s)
      invariant offset <= s.total && (reply.Page? ==> reply == PageAt(e, s, id, offset) && offset <= MAX_OFFSET)
      invariant Gathered(got, document.arrays, offset)
      invariant calm ==> id in p.snapshots && OnCourse(e, s, id, offset, reply)
      decreases s.total - offset, reply.Page?
    {
      PageGathers(e, s, id, offset, got);
      PageIsLabelled(e, s, id, offset);
      got := Added(got, reply.arrays);
      if reply.next.None? {
        if calm {
          CourseEnds(e, s, id, offset, reply);
        }
        return Some(Document(false, got, rest));
      }
      k := k + 1;
      if calm {
        StillCalm(s, times, others, k);
      }
      var answer := AskLater(p, route, s, document, times(k), others(k), reply.snapshot, reply.next.value);
      if calm {
        CourseGoesOn(e, s, id, offset, reply, answer);
      }
      offset, reply := reply.next.value, answer;
    }
    fetched := None;
    if calm {
      CourseEnds(e, s, id, offset, reply);
    }
  }
}
