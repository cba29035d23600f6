/** Reading the reconciliation report: the file is its sequence of lines,
    each as `readline()` returns it (with its '\n'), and a cursor. A section
    is a header holding a count in parentheses, that many record lines and
    one separator line. */
module Report {
  import opened Values
  import opened Decimal
  import opened FlatJson
  import opened Normalizer

  /** `file.readline()` with the cursor at line c: the line and the new
      cursor, or '' and an unmoved cursor at the end of the file. */
  function NextLine(lines: seq<string>, c: nat): (string, nat)
  {
    if c < |lines| then (lines[c], c + 1) else ("", c)
  }

  /** n calls of `readline()`, their results concatenated. */
  function ReadLines(lines: seq<string>, c: nat, n: nat): (r: (string, nat))
    ensures c <= |lines| ==> c <= r.1 <= |lines|
    ensures r.1 <= c + n
    decreases n
  {
    if n == 0 then ("", c)
    else
      var first := NextLine(lines, c);
      var others := ReadLines(lines, first.1, n - 1);
      (first.0 + others.0, others.1)
  }

  function Concat(ls: seq<string>): string
  {
    if ls == [] then "" else ls[0] + Concat(ls[1..])
  }

  /** Inside the file, n reads return exactly the next n lines. */
  lemma {:induction false} ReadLinesWithin(lines: seq<string>, c: nat, n: nat)
    requires c + n <= |lines|
    ensures ReadLines(lines, c, n) == (Concat(lines[c..c + n]), c + n)
    decreases n
  {
    if n > 0 {
      ReadLinesWithin(lines, c + 1, n - 1);
      assert lines[c..c + n][1..] == lines[c + 1..c + n];
    }
  }

  // ---------------------------------------------------------------------
  // re.search(r'\((.*?)\)', head).group(1)

  /** The first ')' at or after k, unless a newline comes first (the
      pattern's '.' does not match a newline). */
  function CloseFrom(s: string, k: nat): (r: Option<nat>)
    ensures r.Some? ==> k <= r.value < |s| && s[r.value] == ')'
    ensures r.Some? ==> forall j :: k <= j < r.value ==> s[j] != ')' && s[j] != '\n'
    decreases |s| - k
  {
    if k >= |s| || s[k] == '\n' then None
    else if s[k] == ')' then Some(k)
    else CloseFrom(s, k + 1)
  }

  /** The span of group 1 of the leftmost match starting at or after i. */
  function SearchFrom(s: string, i: nat): (r: Option<(nat, nat)>)
    ensures r.Some? ==> i < r.value.0 <= r.value.1 < |s| && s[r.value.0 - 1] == '(' && s[r.value.1] == ')'
    decreases |s| - i
  {
    if i >= |s| then None
    else if s[i] == '(' then
      match CloseFrom(s, i + 1)
      case Some(j) => Some((i + 1, j))
      case None => SearchFrom(s, i + 1)
    else SearchFrom(s, i + 1)
  }

  /** The text of group 1, or None where `re.search` finds no match (and
      `.group` then raises AttributeError). */
  function Group(s: string): (r: Option<string>)
  {
    match SearchFrom(s, 0)
    case None => None
    case Some((a, b)) => Some(s[a..b])
  }

  lemma {:induction false} CloseFromScan(s: string, k: nat, j: nat)
    requires k <= j < |s| && s[j] == ')'
    requires forall m :: k <= m < j ==> s[m] != ')' && s[m] != '\n'
    ensures CloseFrom(s, k) == Some(j)
    decreases j - k
  {
    if k < j {
      CloseFromScan(s, k + 1, j);
    }
  }

  lemma {:induction false} SearchSkips(s: string, i: nat, p: nat)
    requires i <= p <= |s|
    requires forall m :: i <= m < p ==> s[m] != '('
    ensures SearchFrom(s, i) == SearchFrom(s, p)
    decreases p - i
  {
    if i < p {
      SearchSkips(s, i + 1, p);
    }
  }

  /** A header `pre(g)post` whose text before the first '(' holds none, and
      whose group holds no ')' or newline, yields g. */
  lemma {:induction false} GroupOfHeader(pre: string, g: string, post: string)
    requires forall m :: 0 <= m < |pre| ==> pre[m] != '('
    requires forall m :: 0 <= m < |g| ==> g[m] != ')' && g[m] != '\n'
    ensures Group(pre + "(" + g + ")" + post) == Some(g)
  {
    var s := pre + "(" + g + ")" + post;
    var p := |pre|;
    assert s == (pre + "(") + g + (")" + post);
    assert s[p] == '(' && s[p + 1 + |g|] == ')';
    assert s[p + 1..p + 1 + |g|] == g;
    assert forall m :: p + 1 <= m < p + 1 + |g| ==> s[m] == g[m - p - 1];
    SearchSkips(s, 0, p);
    CloseFromScan(s, p + 1, p + 1 + |g|);
  }

  /** A header without '(' has no count: `.group` is called on None. */
  lemma {:induction false} GroupNeedsParenthesis(s: string)
    requires forall m :: 0 <= m < |s| ==> s[m] != '('
    ensures Group(s) == None
  {
    SearchSkips(s, 0, |s|);
  }

  /** A header without ')' has no count either: the lazy group never
      closes. */
  lemma GroupNeedsClose(s: string)
    requires forall m :: 0 <= m < |s| ==> s[m] != ')'
    ensures Group(s) == None
  {
  }

  // ---------------------------------------------------------------------
  // Section body

  /** `s.split('\n')` */
  function SplitLines(s: string): (r: seq<string>)
    ensures |r| >= 1
  {
    if s == [] then [""]
    else
      var rest := SplitLines(s[1..]);
      if s[0] == '\n' then [""] + rest else [[s[0]] + rest[0]] + rest[1..]
  }

  lemma {:induction false} SplitAfter(a: string, b: string)
    requires forall m :: 0 <= m < |a| ==> a[m] != '\n'
    ensures SplitLines(a + "\n" + b) == [a] + SplitLines(b)
  {
    if a == [] {
      assert (a + "\n" + b)[1..] == b;
    } else {
      assert (a + "\n" + b)[1..] == a[1..] + "\n" + b;
      SplitAfter(a[1..], b);
      assert [a[0]] + a[1..] == a;
    }
  }

  /** `xs.remove(x)`: None where it raises ValueError. */
  function RemoveFirst(xs: seq<string>, x: string): (r: Option<seq<string>>)
    ensures r.Some? ==> |r.value| == |xs| - 1
    ensures r.None? <==> x !in xs
  {
    if xs == [] then None
    else if xs[0] == x then Some(xs[1..])
    else
      match RemoveFirst(xs[1..], x)
      case None => None
      case Some(ys) => Some([xs[0]] + ys)
  }

  /** ys is xs without its element at i, the first occurrence of x. */
  ghost predicate RemovedAt(xs: seq<string>, x: string, i: int, ys: seq<string>)
  {
    0 <= i < |xs| && xs[i] == x && x !in xs[..i] && ys == xs[..i] + xs[i + 1..]
  }

  lemma RemovedAtHead(xs: seq<string>, x: string)
    requires xs != [] && xs[0] == x
    ensures RemovedAt(xs, x, 0, xs[1..])
  {
    assert xs[..0] == [] && xs[1..] == xs[..0] + xs[0 + 1..];
  }

  lemma RemovedAtCons(xs: seq<string>, x: string, i: int, ys: seq<string>)
    requires xs != [] && xs[0] != x
    requires RemovedAt(xs[1..], x, i, ys)
    ensures RemovedAt(xs, x, i + 1, [xs[0]] + ys)
  {
    assert xs[..i + 1] == [xs[0]] + xs[1..][..i];
    assert xs[i + 2..] == xs[1..][i + 1..];
  }

  /** `remove` drops the first occurrence of x and keeps the rest in order. */
  lemma {:induction false} RemoveFirstRemoves(xs: seq<string>, x: string)
    ensures RemoveFirst(xs, x).Some? ==> exists i :: RemovedAt(xs, x, i, RemoveFirst(xs, x).value)
  {
    if xs != [] {
      if xs[0] == x {
        RemovedAtHead(xs, x);
      } else {
        RemoveFirstRemoves(xs[1..], x);
        var r := RemoveFirst(xs[1..], x);
        if r.Some? {
          var i :| RemovedAt(xs[1..], x, i, r.value);
          RemovedAtCons(xs, x, i, r.value);
        }
      }
    }
  }

  /** `list(map(serialize, pieces))`: the first failing piece's error. */
  function SerializeAll(pieces: seq<string>): (r: Result<seq<Dict>>)
    ensures r.Ok? ==> |r.value| == |pieces|
    ensures r.Ok? ==> forall k :: 0 <= k < |pieces| ==> Serialized(pieces[k]) == Ok(r.value[k])
  {
    if pieces == [] then Ok([])
    else
      match Serialized(pieces[0])
      case Err(e) => Err(e)
      case Ok(d) =>
        match SerializeAll(pieces[1..])
        case Err(e) => Err(e)
        case Ok(ds) => Ok([d] + ds)
  }

  /** A failure is the error of the first piece that does not serialize. */
  lemma {:induction false} SerializeAllFirstError(pieces: seq<string>)
    ensures var r := SerializeAll(pieces);
      r.Err? ==> exists k :: 0 <= k < |pieces| && Serialized(pieces[k]) == Err(r.error)
                           && forall j :: 0 <= j < k ==> Serialized(pieces[j]).Ok?
  {
    if pieces != [] && Serialized(pieces[0]).Ok? {
      SerializeAllFirstError(pieces[1..]);
      var r := SerializeAll(pieces[1..]);
      if r.Err? {
        var k :| 0 <= k < |pieces[1..]| && Serialized(pieces[1..][k]) == Err(r.error)
                 && forall j :: 0 <= j < k ==> Serialized(pieces[1..][j]).Ok?;
        assert pieces[k + 1] == pieces[1..][k];
        assert forall j :: 1 <= j < k + 1 ==> pieces[j] == pieces[1..][j - 1];
      }
    }
  }

  /** One step of the serialization loop. */
  lemma SerializeStep(records: seq<Dict>, pieces: seq<string>, i: nat)
    requires i < |pieces|
    ensures Serialized(pieces[i]).Err? ==>
      Prepend(records, SerializeAll(pieces[i..])) == Err(Serialized(pieces[i]).error)
    ensures Serialized(pieces[i]).Ok? ==>
      Prepend(records, SerializeAll(pieces[i..])) == Prepend(records + [Serialized(pieces[i]).value], SerializeAll(pieces[i + 1..]))
  {
    assert pieces[i..][1..] == pieces[i + 1..];
    var rest := SerializeAll(pieces[i + 1..]);
    if Serialized(pieces[i]).Ok? && rest.Ok? {
      assert records + ([Serialized(pieces[i]).value] + rest.value) == records + [Serialized(pieces[i]).value] + rest.value;
    }
  }

  function Prepend(ds: seq<Dict>, r: Result<seq<Dict>>): Result<seq<Dict>>
  {
    match r
    case Ok(es) => Ok(ds + es)
    case Err(e) => Err(e)
  }

  /** The iterations of `for x in range(0, n)`. */
  function Iterations(n: int): nat { if n < 0 then 0 else n }

  /** What `get_transactions` returns or raises, and where it leaves the
      cursor. */
  datatype Section = Section(records: Result<seq<Dict>>, cursor: nat)

  /** The records of a section's body text: '' when the text is empty
      (iterating it yields nothing, like an empty list), else its lines with
      the first empty one removed, each serialized. */
  function BodyRecords(text: string): (r: Result<seq<Dict>>)
    ensures |text| == 0 ==> r == Ok([])
  {
    if |text| == 0 then Ok([])
    else
      match RemoveFirst(SplitLines(text), "")
      case None => Err(ValueError(Str("")))
      case Some(pieces) => SerializeAll(pieces)
  }

  /** `get_transactions`: reads the header, the count's lines and, unless
      something raised, the separator line. */
  function ParseSection(lines: seq<string>, c: nat): (s: Section)
    ensures c <= |lines| ==> c <= s.cursor <= |lines|
  {
    var head := NextLine(lines, c);
    match Group(head.0)
    case None => Section(Err(AttributeError), head.1)
    case Some(g) =>
      match ParseInt(g)
      case None => Section(Err(ValueError(Str(g))), head.1)
      case Some(n) =>
        var body := ReadLines(lines, head.1, Iterations(n));
        var records := BodyRecords(body.0);
        Section(records, if records.Ok? then NextLine(lines, body.1).1 else body.1)
  }

  class ReportFile {
    const lines: seq<string>
    var cursor: nat

    constructor (lines: seq<string>)
      ensures this.lines == lines && cursor == 0
    {
      this.lines := lines;
      cursor := 0;
    }

    method ReadLine() returns (line: string)
      modifies this
      ensures (line, cursor) == NextLine(lines, old(cursor))
    {
      line := "";
      if cursor < |lines| {
        line := lines[cursor];
        cursor := cursor + 1;
      }
    }
  }

  /** `get_transactions(file)` */
  method GetTransactions(f: ReportFile) returns (r: Result<seq<Dict>>)
    modifies f
    ensures ParseSection(f.lines, old(f.cursor)) == Section(r, f.cursor)
  {
    var head := f.ReadLine();
    var group := Group(head);
    if group.None? {
      return Err(AttributeError);
    }
    var parsed := ParseInt(group.value);
    if parsed.None? {
      return Err(ValueError(Str(group.value)));
    }
    var transactions := ReadBody(f, parsed.value);
    r := ParseBody(transactions);
    if r.Ok? {
      var separator := f.ReadLine();
    }
  }

  /** `for x in range(n): transactions += file.readline()` */
  method ReadBody(f: ReportFile, n: int) returns (transactions: string)
    modifies f
    ensures ReadLines(f.lines, old(f.cursor), Iterations(n)) == (transactions, f.cursor)
  {
    ghost var start := f.cursor;
    ghost var count := Iterations(n);
    transactions := "";
    var x := 0;
    assert transactions + ReadLines(f.lines, start, count).0 == ReadLines(f.lines, start, count).0;
    while x < n
      invariant 0 <= x <= count
      invariant ReadLines(f.lines, start, count).0 == transactions + ReadLines(f.lines, f.cursor, count - x).0
      invariant ReadLines(f.lines, start, count).1 == ReadLines(f.lines, f.cursor, count - x).1
    {
      ghost var before := f.cursor;
      ghost var rest := ReadLines(f.lines, before, count - x);
      var line := f.ReadLine();
      assert rest == (line + ReadLines(f.lines, f.cursor, count - x - 1).0, ReadLines(f.lines, f.cursor, count - x - 1).1);
      assert transactions + rest.0 == (transactions + line) + ReadLines(f.lines, f.cursor, count - x - 1).0;
      transactions := transactions + line;
      x := x + 1;
    }
    assert ReadLines(f.lines, f.cursor, count - x) == ("", f.cursor);
    assert transactions + "" == transactions;
  }

  /** The body's lines, the first empty one removed, each serialized. */
  method ParseBody(transactions: string) returns (r: Result<seq<Dict>>)
    ensures r == BodyRecords(transactions)
  {
    if |transactions| == 0 {
      return Ok([]);
    }
    var kept := RemoveFirst(SplitLines(transactions), "");
    if kept.None? {
      return Err(ValueError(Str("")));
    }
    r := SerializeLines(kept.value);
  }

  /** `list(map(serialize, pieces))` */
  method SerializeLines(pieces: seq<string>) returns (r: Result<seq<Dict>>)
    ensures r == SerializeAll(pieces)
  {
    var records: seq<Dict> := [];
    var i := 0;
    assert pieces[i..] == pieces;
    assert Prepend(records, SerializeAll(pieces)) == SerializeAll(pieces) by {
      if SerializeAll(pieces).Ok? {
        assert records + SerializeAll(pieces).value == SerializeAll(pieces).value;
      }
    }
    while i < |pieces|
      invariant 0 <= i <= |pieces|
      invariant SerializeAll(pieces) == Prepend(records, SerializeAll(pieces[i..]))
    {
      SerializeStep(records, pieces, i);
      var d := Serialize(pieces[i]);
      if d.Err? {
        return Err(d.error);
      }
      records := records + [d.value];
      i := i + 1;
    }
    assert pieces[i..] == [];
    assert records + [] == records;
    return Ok(records);
  }

  // ---------------------------------------------------------------------
  // Well-formed sections

  /** A record line: one non-empty line, ended by '\n', that serializes. */
  ghost predicate RecordLine(l: string)
  {
    && |l| >= 2
    && l[|l| - 1] == '\n'
    && (forall m :: 0 <= m < |l| - 1 ==> l[m] != '\n')
    && Serialized(l[..|l| - 1]).Ok?
  }

  /** A line without its last character. */
  function Chomp(l: string): string
  {
    if l == [] then l else l[..|l| - 1]
  }

  /** Record lines, one after the other. */
  ghost predicate RecordLines(ls: seq<string>)
  {
    ls == [] || (RecordLine(ls[0]) && RecordLines(ls[1..]))
  }

  /** A section at line c with a count n >= 0 in its header, n record lines
      and a separator line. */
  ghost predicate WellFormedSection(lines: seq<string>, c: nat, n: nat)
  {
    && c + n + 2 <= |lines|
    && Group(lines[c]).Some?
    && ParseInt(Group(lines[c]).value) == Some(n)
    && RecordLines(lines[c + 1..c + 1 + n])
  }

  function Chomped(ls: seq<string>): seq<string>
  {
    seq(|ls|, k requires 0 <= k < |ls| => Chomp(ls[k]))
  }

  /** A record line is its text without a newline, then '\n'. */
  lemma RecordLineChomp(l: string)
    requires RecordLine(l)
    ensures l == Chomp(l) + "\n"
    ensures forall m :: 0 <= m < |Chomp(l)| ==> Chomp(l)[m] != '\n'
  {
  }

  lemma ChompedCons(ls: seq<string>)
    requires ls != []
    ensures Chomped(ls) == [Chomp(ls[0])] + Chomped(ls[1..])
  {
  }

  /** Every record line, without its newline, is non-empty and
      serializes. */
  lemma {:induction false} ChompedPieces(ls: seq<string>)
    requires RecordLines(ls)
    ensures forall k :: 0 <= k < |ls| ==> Chomped(ls)[k] != "" && Serialized(Chomped(ls)[k]).Ok?
  {
    if ls != [] {
      ChompedPieces(ls[1..]);
      ChompedCons(ls);
    }
  }

  lemma {:induction false} SplitRecordLines(ls: seq<string>)
    requires RecordLines(ls)
    ensures SplitLines(Concat(ls)) == Chomped(ls) + [""]
  {
    if ls != [] {
      var l := ls[0];
      RecordLineChomp(l);
      assert Concat(ls) == Chomp(l) + "\n" + Concat(ls[1..]);
      SplitAfter(Chomp(l), Concat(ls[1..]));
      SplitRecordLines(ls[1..]);
      ChompedCons(ls);
    }
  }

  lemma {:induction false} RemoveTrailingEmpty(cs: seq<string>)
    requires forall k :: 0 <= k < |cs| ==> cs[k] != ""
    ensures RemoveFirst(cs + [""], "") == Some(cs)
  {
    if cs != [] {
      assert (cs + [""])[1..] == cs[1..] + [""];
      RemoveTrailingEmpty(cs[1..]);
      assert [cs[0]] + cs[1..] == cs;
    }
  }

  lemma {:induction false} SerializeAllOk(cs: seq<string>)
    requires forall k :: 0 <= k < |cs| ==> Serialized(cs[k]).Ok?
    ensures SerializeAll(cs).Ok?
  {
    if cs != [] {
      SerializeAllOk(cs[1..]);
    }
  }

  /** The body of a section whose n > 0 record lines are well formed: the
      text split at its newlines, the trailing '' removed, and every piece
      serialized. */
  lemma BodyParses(ls: seq<string>)
    requires ls != []
    requires RecordLines(ls)
    ensures |Concat(ls)| > 0
    ensures RemoveFirst(SplitLines(Concat(ls)), "") == Some(Chomped(ls))
    ensures SerializeAll(Chomped(ls)).Ok?
  {
    assert Concat(ls) == ls[0] + Concat(ls[1..]);
    SplitRecordLines(ls);
    ChompedPieces(ls);
    RemoveTrailingEmpty(Chomped(ls));
    SerializeAllOk(Chomped(ls));
  }

  /** A section whose header holds the count n reads the n lines after it
      as its body. */
  lemma SectionBody(lines: seq<string>, c: nat, n: nat)
    requires c + n + 1 <= |lines|
    requires Group(lines[c]).Some? && ParseInt(Group(lines[c]).value) == Some(n)
    ensures var records := BodyRecords(Concat(lines[c + 1..c + 1 + n]));
      ParseSection(lines, c) == Section(records, if records.Ok? then NextLine(lines, c + n + 1).1 else c + n + 1)
  {
    ReadLinesWithin(lines, c + 1, n);
  }

  /** The body of record lines yields one record per line, in order, each
      the serialization of its line. */
  lemma BodyOfRecordLines(ls: seq<string>)
    requires RecordLines(ls)
    ensures var r := BodyRecords(Concat(ls));
      && r.Ok? && |r.value| == |ls|
      && forall k :: 0 <= k < |ls| ==> Serialized(Chomp(ls[k])) == Ok(r.value[k])
  {
    if ls == [] {
      assert Concat(ls) == "";
    } else {
      BodyParses(ls);
      assert BodyRecords(Concat(ls)) == SerializeAll(Chomped(ls));
      assert forall k :: 0 <= k < |ls| ==> Chomped(ls)[k] == Chomp(ls[k]);
    }
  }

  /** A well-formed section yields one record per record line, in file
      order, each the serialization of its line, and leaves the cursor after
      exactly n + 2 lines; with n = 0 the records are empty and only the
      header and the separator are read. */
  lemma WellFormedSectionParses(lines: seq<string>, c: nat, n: nat)
    requires WellFormedSection(lines, c, n)
    ensures ParseSection(lines, c).cursor == c + n + 2
    ensures ParseSection(lines, c).records.Ok?
    ensures |ParseSection(lines, c).records.value| == n
    ensures forall k :: 0 <= k < n ==>
      Serialized(Chomp(lines[c + 1 + k])) == Ok(ParseSection(lines, c).records.value[k])
  {
    var ls := lines[c + 1..c + 1 + n];
    SectionBody(lines, c, n);
    BodyOfRecordLines(ls);
    assert forall k :: 0 <= k < n ==> ls[k] == lines[c + 1 + k];
  }

  /** The header shape of the report, `... (n) ...`, carries the count n. */
  lemma HeaderCount(pre: string, n: nat, post: string)
    requires forall m :: 0 <= m < |pre| ==> pre[m] != '('
    ensures Group(pre + "(" + Show(n) + ")" + post) == Some(Show(n))
    ensures ParseInt(Show(n)) == Some(n)
  {
    var g := Show(n);
    assert forall m :: 0 <= m < |g| ==> g[m] != ')' && g[m] != '\n' by {
      assert AllDigits(g);
    }
    GroupOfHeader(pre, g, post);
    ParseIntShow(n);
  }

  /** A header with count 0 followed by a separator: no records, and the
      cursor moves exactly two lines. */
  lemma EmptySection(lines: seq<string>, c: nat, pre: string, post: string)
    requires c + 2 <= |lines|
    requires forall m :: 0 <= m < |pre| ==> pre[m] != '('
    requires lines[c] == pre + "(0)" + post
    ensures ParseSection(lines, c) == Section(Ok([]), c + 2)
  {
    HeaderCount(pre, 0, post);
    assert pre + "(" + Show(0) + ")" + post == lines[c];
    WellFormedSectionParses(lines, c, 0);
  }

  /** A header without '(' raises before any record line is read. */
  lemma HeaderWithoutCount(lines: seq<string>, c: nat)
    requires c < |lines|
    requires Group(lines[c]).None?
    ensures ParseSection(lines, c) == Section(Err(AttributeError), c + 1)
  {
  }

  /** A header whose parentheses hold no integer raises ValueError, having
      read only the header. */
  lemma HeaderNotANumber(lines: seq<string>, c: nat, pre: string, g: string, post: string)
    requires c < |lines| && lines[c] == pre + "(" + g + ")" + post
    requires forall m :: 0 <= m < |pre| ==> pre[m] != '('
    requires forall m :: 0 <= m < |g| ==> g[m] != ')' && g[m] != '\n'
    requires ParseInt(g).None?
    ensures ParseSection(lines, c) == Section(Err(ValueError(Str(g))), c + 1)
  {
    GroupOfHeader(pre, g, post);
  }
}
