/** The file map of a web app and its canonical encoding (metadata/web_app.go:119-247). */
module WebApp {
  import opened Base
  import Cid
  import Sorting

  /** Go strings are byte strings. */
  type Path = Bytes

  datatype FileReference = FileReference(contentType: Bytes, cid: Cid.CID)

  /** A linked hash map: its keys in order of first insertion, and its table. */
  datatype Files = Files(order: seq<Path>, table: map<Path, FileReference>)

  /** A decoded MessagePack value: text, binary, or anything else. */
  datatype Item = Text(text: Bytes) | Binary(bytes: Bytes) | Other

  /** A row, or a value that does not decode as an array. */
  datatype Row = Fields(items: seq<Item>) | NotARow

  /** What does not begin with an array header; or an array header followed by the values of the stream.
      The length of nil is -1. */
  datatype Document = NotAnArray | Document(length: int, rows: seq<Row>)

  /** OutOfRange stands for Go's run-time panic on an index beyond the decoded row. */
  datatype MapError = BadHeader | BadRow | Corrupted | EndOfInput | OutOfRange | BadCid(error: Cid.CidError)

  const EMPTY := Files([], map[])

  predicate NoDuplicates(s: seq<Path>) {
    forall i, j :: 0 <= i < j < |s| ==> s[i] != s[j]
  }

  ghost predicate Consistent(f: Files) {
    NoDuplicates(f.order) && forall p :: p in f.order <==> p in f.table
  }

  /** The bytewise order of sort.Strings. */
  predicate PathLe(a: Path, b: Path) {
    a == [] || (b != [] && (a[0] < b[0] || (a[0] == b[0] && PathLe(a[1..], b[1..]))))
  }

  function AfterPut(f: Files, p: Path, v: FileReference): Files {
    Files(if p in f.table then f.order else f.order + [p], f.table[p := v])
  }

  function Without(s: seq<Path>, p: Path): seq<Path> {
    if s == [] then [] else if s[0] == p then s[1..] else [s[0]] + Without(s[1..], p)
  }

  function AfterRemove(f: Files, p: Path): Files {
    Files(Without(f.order, p), f.table - {p})
  }

  function SortedFiles(f: Files): Files {
    Files(Sorting.Sort(f.order, PathLe), f.table)
  }

  function RowOf(p: Path, v: FileReference): Row {
    Fields([Text(p), Binary(Cid.Serialized(v.cid)), Text(v.contentType)])
  }

  ghost function Rows(order: seq<Path>, table: map<Path, FileReference>): (rows: seq<Row>)
    requires Listed(order, table)
    ensures |rows| == |order|
  {
    if order == [] then []
    else
      var last := order[|order| - 1];
      Rows(order[..|order| - 1], table) + [RowOf(last, table[last])]
  }

  ghost function Encoded(f: Files): Document
    requires Consistent(f)
  {
    SortKeeps(f);
    Document(|f.order|, Rows(SortedFiles(f).order, f.table))
  }

  /** The three fields of a row, in the order in which they are checked. */
  function ReadRow(row: Row): Result<(Path, FileReference), MapError> {
    if row.NotARow? then Err(BadRow)
    else
      var data := row.items;
      if |data| < 1 then Err(OutOfRange)
      else if !data[0].Text? then Err(Corrupted)
      else if |data| < 2 then Err(OutOfRange)
      else if !data[1].Binary? then Err(Corrupted)
      else if |data| < 3 then Err(OutOfRange)
      else if !data[2].Text? then Err(Corrupted)
      else
        match Cid.Parse(data[1].bytes)
        case Err(e) => Err(BadCid(e))
        case Ok(cid) => Ok((data[0].text, FileReference(data[2].text, cid)))
  }

  function ReadRows(rows: seq<Row>): Result<Files, MapError> {
    if rows == [] then Ok(EMPTY)
    else
      match ReadRows(rows[..|rows| - 1])
      case Err(e) => Err(e)
      case Ok(f) =>
        match ReadRow(rows[|rows| - 1])
        case Err(e) => Err(e)
        case Ok(entry) => Ok(AfterPut(f, entry.0, entry.1))
  }

  function Decoded(d: Document): Result<Files, MapError> {
    if d.NotAnArray? then Err(BadHeader)
    else
      var n := if d.length < 0 then 0 else if d.length > |d.rows| then |d.rows| else d.length;
      match ReadRows(d.rows[..n])
      case Err(e) => Err(e)
      case Ok(f) => if d.length > |d.rows| then Err(EndOfInput) else Ok(SortedFiles(f))
  }

  class WebAppFileMap {
    var order: seq<Path>
    var table: map<Path, FileReference>

    ghost function Contents(): Files
      reads this
    {
      Files(order, table)
    }

    ghost predicate Valid()
      reads this
    {
      Consistent(Contents())
    }

    constructor ()
      ensures Contents() == EMPTY && Valid()
    {
      order, table := [], map[];
    }

    method Put(key: Path, value: FileReference)
      requires Valid()
      modifies this
      ensures Valid() && Contents() == AfterPut(old(Contents()), key, value)
      ensures table == old(table)[key := value]
      ensures order == if key in old(order) then old(order) else old(order) + [key]
    {
      if key !in table {
        order := order + [key];
      }
      table := table[key := value];
      PutKeeps(old(Contents()), key, value);
    }

    method Get(key: Path) returns (value: Option<FileReference>)
      ensures value == if key in table then Some(table[key]) else None
    {
      return if key in table then Some(table[key]) else None;
    }

    method Remove(key: Path)
      requires Valid()
      modifies this
      ensures Valid() && Contents() == AfterRemove(old(Contents()), key)
      ensures table == old(table) - {key}
      ensures key !in old(order) ==> order == old(order)
      ensures forall i :: 0 <= i < |old(order)| && old(order)[i] == key ==>
        order == old(order)[..i] + old(order)[i + 1..]
    {
      forall i | 0 <= i < |order| && order[i] == key
        ensures Without(order, key) == order[..i] + order[i + 1..]
      {
        WithoutCuts(order, key, i);
      }
      RemoveKeeps(Contents(), key);
      if key in table {
        order := Without(order, key);
        table := table - {key};
      } else {
        WithoutAbsent(order, key);
        assert table - {key} == table;
      }
    }

    method Sort()
      requires Valid()
      modifies this
      ensures Valid() && Contents() == SortedFiles(old(Contents()))
      ensures table == old(table) && InOrder(order)
    {
      SortedInOrder(Contents());
      var keys := Sorting.Sort(order, PathLe);
      SortKeeps(Contents());
      var newMap := new WebAppFileMap();
      for i := 0 to |keys|
        invariant fresh(newMap) && newMap.Valid() && unchanged(this)
        invariant newMap.Contents() == Restricted(keys[..i], table)
      {
        var value := Get(keys[i]);
        RestrictMore(keys, i, table);
        newMap.Put(keys[i], value.value);
      }
      RestrictAll(keys, table);
      order, table := newMap.order, newMap.table;
    }

    method EncodeMsgpack() returns (d: Document)
      requires Valid()
      modifies this
      ensures Valid() && Contents() == SortedFiles(old(Contents()))
      ensures d == Encoded(old(Contents()))
      // one row for each entry, in the order of the paths: path, bytes of the CID, content type
      ensures table == old(table) && InOrder(order)
      ensures d.Document? && d.length == |d.rows| && RowsFor(d.rows, order, table)
    {
      SortedInOrder(Contents());
      SortKeeps(Contents());
      Sort();
      var keys := order;
      var rows: seq<Row> := [];
      for i := 0 to |keys|
        invariant Valid() && Contents() == SortedFiles(old(Contents())) && keys == order
        invariant Listed(keys[..i], table) && rows == Rows(keys[..i], table)
      {
        assert keys[i] in keys;
        var value := Get(keys[i]);
        NextRow(keys, i, table);
        rows := rows + [RowOf(keys[i], value.value)];
      }
      assert keys[..|keys|] == keys;
      RowsAre(keys, table);
      return Document(|keys|, rows);
    }

    method DecodeMsgpack(d: Document) returns (error: Option<MapError>)
      modifies this
      ensures error.Some? <==> Decoded(d).Err?
      ensures error.Some? ==> error.value == Decoded(d).error
      ensures error.None? ==> Contents() == Decoded(d).value
      ensures d.NotAnArray? ==> Contents() == old(Contents())
      ensures error.Some? && !d.NotAnArray? ==>
                exists n :: && 0 <= n <= |d.rows| && n < d.length && ReadRows(d.rows[..n]) == Ok(Contents())
                            && (n < |d.rows| ==> ReadRow(d.rows[n]) == Err(error.value))
                            && (n == |d.rows| ==> error.value == EndOfInput)
      ensures old(Valid()) || d.Document? ==> Valid()
    {
      if d.NotAnArray? {
        return Some(BadHeader);
      }
      order, table := [], map[];
      var i := 0;
      while i < d.length
        invariant 0 <= i <= |d.rows| && (i > 0 ==> i <= d.length)
        invariant Valid() && ReadRows(d.rows[..i]) == Ok(Contents())
        decreases d.length - i
      {
        if i == |d.rows| {
          return Some(EndOfInput);
        }
        OneMoreRow(d.rows, i);
        match ReadRow(d.rows[i]) {
          case Err(e) =>
            DecodedErr(d, i, e);
            return Some(e);
          case Ok(entry) =>
            Put(entry.0, entry.1);
        }
        i := i + 1;
      }
      Sort();
      return None;
    }
  }

  // ----- the bytewise order -----

  lemma {:induction false} PathTotal(a: Path, b: Path)
    ensures PathLe(a, b) || PathLe(b, a)
  {
    if a != [] && b != [] {
      PathTotal(a[1..], b[1..]);
    }
  }

  lemma {:induction false} PathTransitive(a: Path, b: Path, c: Path)
    requires PathLe(a, b) && PathLe(b, c)
    ensures PathLe(a, c)
  {
    if a != [] && a[0] == b[0] == c[0] {
      PathTransitive(a[1..], b[1..], c[1..]);
    }
  }

  lemma {:induction false} PathAntisymmetric(a: Path, b: Path)
    requires PathLe(a, b) && PathLe(b, a)
    ensures a == b
  {
    if a != [] {
      PathAntisymmetric(a[1..], b[1..]);
      assert a == [a[0]] + a[1..] && b == [b[0]] + b[1..];
    }
  }

  lemma PathOrder()
    ensures Sorting.TotalPreorder(PathLe) && Sorting.Antisymmetric(PathLe)
  {
    forall a, b
      ensures PathLe(a, b) || PathLe(b, a)
    {
      PathTotal(a, b);
    }
    forall a, b, c | PathLe(a, b) && PathLe(b, c)
      ensures PathLe(a, c)
    {
      PathTransitive(a, b, c);
    }
    forall a, b | PathLe(a, b) && PathLe(b, a)
      ensures a == b
    {
      PathAntisymmetric(a, b);
    }
  }

  /** A path comes before another exactly if it begins it, or has the smaller byte where they first differ. */
  lemma {:induction false} PathLeIff(a: Path, b: Path)
    ensures PathLe(a, b) <==> a <= b || exists i :: SmallerAt(a, b, i)
  {
    if a != [] && b != [] {
      PathLeIff(a[1..], b[1..]);
      if a[0] == b[0] {
        assert a[1..] <= b[1..] <==> a <= b by {
          assert a == [a[0]] + a[1..] && b == [b[0]] + b[1..];
        }
        forall i
          ensures SmallerAt(a[1..], b[1..], i) <==> i >= 0 && SmallerAt(a, b, i + 1)
        {
          SmallerNext(a, b, i);
        }
        if i :| SmallerAt(a, b, i) {
          assert SmallerAt(a[1..], b[1..], i - 1);
        }
      } else {
        assert a[0] < b[0] ==> SmallerAt(a, b, 0);
      }
    }
  }

  predicate SmallerAt(a: Path, b: Path, i: int) {
    0 <= i < |a| && i < |b| && a[..i] == b[..i] && a[i] < b[i]
  }

  lemma SmallerNext(a: Path, b: Path, i: int)
    requires a != [] && b != [] && a[0] == b[0]
    ensures SmallerAt(a[1..], b[1..], i) <==> i >= 0 && SmallerAt(a, b, i + 1)
  {
    if 0 <= i < |a| - 1 && i < |b| - 1 {
      assert a[..i + 1] == [a[0]] + a[1..][..i] && b[..i + 1] == [b[0]] + b[1..][..i];
    }
  }

  /** Different paths, each before the next in the bytewise order. */
  ghost predicate InOrder(order: seq<Path>) {
    forall i, j :: 0 <= i < j < |order| ==> PathLe(order[i], order[j]) && order[i] != order[j]
  }

  // ----- keys without duplicates -----

  lemma {:induction false} CountOf(s: seq<Path>, p: Path)
    requires NoDuplicates(s)
    ensures multiset(s)[p] == if p in s then 1 else 0
  {
    if s != [] {
      var front, last := s[..|s| - 1], s[|s| - 1];
      CountOf(front, p);
      assert s == front + [last];
    }
  }

  lemma CountedOnce(s: seq<Path>)
    requires forall p :: multiset(s)[p] <= 1
    ensures NoDuplicates(s)
  {
    forall i, j | 0 <= i < j < |s|
      ensures s[i] != s[j]
    {
      assert s == s[..j] + s[j..];
      assert s[i] in s[..j] && s[j] in s[j..];
      assert multiset(s)[s[i]] <= 1;
    }
  }

  /** Key lists without duplicates and with the same members are rearrangements of each other. */
  lemma SameKeys(a: seq<Path>, b: seq<Path>)
    requires NoDuplicates(a) && NoDuplicates(b) && forall p :: p in a <==> p in b
    ensures multiset(a) == multiset(b)
  {
    forall p: Path
      ensures multiset(a)[p] == multiset(b)[p]
    {
      CountOf(a, p);
      CountOf(b, p);
    }
  }

  lemma SortKeeps(f: Files)
    requires Consistent(f)
    ensures Consistent(SortedFiles(f)) && |SortedFiles(f).order| == |f.order|
  {
    PathOrder();
    Sorting.SortSorts(f.order, PathLe);
    var s := SortedFiles(f).order;
    assert |multiset(s)| == |multiset(f.order)|;
    forall p: Path
      ensures multiset(s)[p] <= 1 && (p in s <==> p in f.order)
    {
      CountOf(f.order, p);
      assert p in s <==> p in multiset(s);
      assert p in f.order <==> p in multiset(f.order);
    }
    CountedOnce(s);
  }

  lemma SortedInOrder(f: Files)
    requires Consistent(f)
    ensures InOrder(SortedFiles(f).order)
  {
    SortKeeps(f);
    PathOrder();
    Sorting.SortSorts(f.order, PathLe);
  }

  lemma PutKeeps(f: Files, p: Path, v: FileReference)
    requires Consistent(f)
    ensures Consistent(AfterPut(f, p, v))
  {
  }

  lemma {:induction false} WithoutKeeps(s: seq<Path>, p: Path)
    requires NoDuplicates(s)
    ensures NoDuplicates(Without(s, p))
    ensures forall q :: q in Without(s, p) <==> q in s && q != p
  {
    if s != [] {
      WithoutKeeps(s[1..], p);
      assert s == [s[0]] + s[1..];
      if s[0] != p {
        var w := Without(s[1..], p);
        assert s[0] !in s[1..];
        assert s[0] !in w;
      }
    }
  }

  /** The one place of a path is cut out. */
  lemma {:induction false} WithoutCuts(s: seq<Path>, p: Path, i: nat)
    requires NoDuplicates(s) && i < |s| && s[i] == p
    ensures Without(s, p) == s[..i] + s[i + 1..]
  {
    if i > 0 {
      assert s[0] != p;
      assert s[1..][i - 1] == p;
      WithoutCuts(s[1..], p, i - 1);
      CutLater(s, i);
    }
  }

  lemma CutLater(s: seq<Path>, i: nat)
    requires 0 < i < |s|
    ensures [s[0]] + (s[1..][..i - 1] + s[1..][i..]) == s[..i] + s[i + 1..]
  {
    assert s[1..][..i - 1] == s[1..i];
    assert s[1..][i..] == s[i + 1..];
  }

  lemma RemoveKeeps(f: Files, p: Path)
    requires Consistent(f)
    ensures Consistent(AfterRemove(f, p))
  {
    WithoutKeeps(f.order, p);
  }

  lemma {:induction false} WithoutAbsent(s: seq<Path>, p: Path)
    requires p !in s
    ensures Without(s, p) == s
  {
    if s != [] {
      WithoutAbsent(s[1..], p);
      assert s == [s[0]] + s[1..];
    }
  }

  /** The part of a table under the given keys, in their order. */
  ghost function Restricted(keys: seq<Path>, table: map<Path, FileReference>): Files {
    Files(keys, map p | p in keys && p in table :: table[p])
  }

  lemma RestrictMore(keys: seq<Path>, i: nat, table: map<Path, FileReference>)
    requires NoDuplicates(keys) && i < |keys| && forall p :: p in keys ==> p in table
    ensures keys[i] in table
    ensures Restricted(keys[..i + 1], table) == AfterPut(Restricted(keys[..i], table), keys[i], table[keys[i]])
  {
    assert keys[..i + 1] == keys[..i] + [keys[i]];
    assert keys[i] !in keys[..i];
  }

  lemma RestrictAll(keys: seq<Path>, table: map<Path, FileReference>)
    requires forall p :: p in keys <==> p in table
    ensures Restricted(keys[..|keys|], table) == Files(keys, table)
  {
    assert keys[..|keys|] == keys;
  }

  /** A bad row decides the outcome, whatever follows it. */
  lemma {:induction false} ReadErr(rows: seq<Row>, i: nat, n: nat)
    requires i < n <= |rows| && ReadRows(rows[..i + 1]).Err?
    ensures ReadRows(rows[..n]) == ReadRows(rows[..i + 1])
  {
    if i + 1 < n {
      ReadErr(rows, i, n - 1);
      assert rows[..n][..n - 1] == rows[..n - 1];
    }
  }

  lemma OneMoreRow(rows: seq<Row>, i: nat)
    requires i < |rows| && ReadRows(rows[..i]).Ok?
    ensures ReadRows(rows[..i + 1])
         == match ReadRow(rows[i]) case Err(e) => Err(e)
            case Ok(entry) => Ok(AfterPut(ReadRows(rows[..i]).value, entry.0, entry.1))
  {
    assert rows[..i + 1][..i] == rows[..i];
  }

  lemma DecodedErr(d: Document, i: nat, e: MapError)
    requires d.Document? && i < |d.rows| && i < d.length && ReadRows(d.rows[..i + 1]) == Err(e)
    ensures Decoded(d) == Err(e)
  {
    ReadErr(d.rows, i, if d.length > |d.rows| then |d.rows| else d.length);
  }

  // ----- what decodes, and to what -----

  /** A row that is read: text, the bytes of a CID and text, whatever follows them. */
  predicate Readable(row: Row) {
    && row.Fields? && |row.items| >= 3
    && row.items[0].Text? && row.items[1].Binary? && row.items[2].Text? && Cid.Parse(row.items[1].bytes).Ok?
  }

  /** Rows are read exactly if readable, as what their fields say; the error tells which field is wrong. */
  lemma ReadRowIff(row: Row)
    ensures ReadRow(row).Ok? <==> Readable(row)
    ensures Readable(row) ==>
      ReadRow(row) == Ok((row.items[0].text, FileReference(row.items[2].text, Cid.Parse(row.items[1].bytes).value)))
    ensures ReadRow(row) == Err(BadRow) <==> row.NotARow?
    ensures row.Fields? ==>
      var n := TypedFields(row.items);
      && (ReadRow(row) == Err(OutOfRange) <==> n < 3 && n == |row.items|)
      && (ReadRow(row) == Err(Corrupted) <==> n < 3 && n < |row.items|)
      && (forall e :: ReadRow(row) == Err(BadCid(e)) <==> n == 3 && Cid.Parse(row.items[1].bytes) == Err(e))
  {
  }

  /** How many of the first three fields are there and of their type. */
  function TypedFields(items: seq<Item>): (n: nat)
    ensures n <= |items| && n <= 3
  {
    if |items| < 1 || !items[0].Text? then 0
    else if |items| < 2 || !items[1].Binary? then 1
    else if |items| < 3 || !items[2].Text? then 2
    else 3
  }

  /** i is the last row for this path. */
  ghost predicate LastRowFor(rows: seq<Row>, i: nat, p: Path) {
    && i < |rows| && RowFor(rows[i], p) && forall j :: i < j < |rows| ==> !RowFor(rows[j], p)
  }

  predicate RowFor(row: Row, p: Path) {
    Readable(row) && row.items[0].text == p
  }

  /** The path is in the table exactly if there is a row for it, and then with what the last one says. */
  ghost predicate MapsAsLast(rows: seq<Row>, table: map<Path, FileReference>, p: Path) {
    && (p in table <==> exists i: nat :: LastRowFor(rows, i, p))
    && forall i: nat :: LastRowFor(rows, i, p) ==> p in table && Ok((p, table[p])) == ReadRow(rows[i])
  }

  /** Rows are read exactly if each is readable; a path is then mapped to what its last row says. */
  lemma {:induction false} RowsReadIff(rows: seq<Row>, p: Path)
    ensures ReadRows(rows).Ok? <==> forall i :: 0 <= i < |rows| ==> Readable(rows[i])
    ensures ReadRows(rows).Ok? ==> MapsAsLast(rows, ReadRows(rows).value.table, p)
  {
    if rows != [] {
      var front, last := rows[..|rows| - 1], rows[|rows| - 1];
      RowsReadIff(front, p);
      ReadRowIff(last);
      assert rows == front + [last];
      if ReadRows(rows).Ok? {
        MapsNext(front, last, ReadRows(front).value.table, p);
      }
    }
  }

  /** What one more row does to the table. */
  lemma MapsNext(front: seq<Row>, last: Row, table: map<Path, FileReference>, p: Path)
    requires MapsAsLast(front, table, p) && ReadRow(last).Ok?
    ensures MapsAsLast(front + [last], table[ReadRow(last).value.0 := ReadRow(last).value.1], p)
  {
    ReadRowIff(last);
    var rows := front + [last];
    if RowFor(last, p) {
      assert LastRowFor(rows, |front|, p);
    } else {
      forall i: nat
        ensures LastRowFor(rows, i, p) <==> LastRowFor(front, i, p)
      {
        LastRowKept(front, last, i, p);
      }
    }
  }

  lemma LastRowKept(front: seq<Row>, last: Row, i: nat, p: Path)
    requires !RowFor(last, p)
    ensures LastRowFor(front + [last], i, p) <==> LastRowFor(front, i, p)
  {
    assert forall j :: 0 <= j < |front| ==> (front + [last])[j] == front[j];
  }

  /** The first unreadable row decides the error. */
  lemma FirstBadRow(rows: seq<Row>, i: nat)
    requires i < |rows| && !Readable(rows[i]) && forall j :: 0 <= j < i ==> Readable(rows[j])
    ensures ReadRows(rows).Err? && ReadRow(rows[i]).Err? && ReadRows(rows).error == ReadRow(rows[i]).error
  {
    RowsReadIff(rows[..i], []);
    ReadRowIff(rows[i]);
    OneMoreRow(rows, i);
    ReadErr(rows, i, |rows|);
    assert rows[..|rows|] == rows;
  }

  /** A document decodes exactly if it is an array whose header counts no more rows than there are, all
      of them readable. */
  lemma DecodedIff(d: Document)
    ensures Decoded(d).Ok? <==>
      d.Document? && d.length <= |d.rows| && forall i :: 0 <= i < |d.rows| && i < d.length ==> Readable(d.rows[i])
  {
    if d.Document? {
      var n := if d.length < 0 then 0 else if d.length > |d.rows| then |d.rows| else d.length;
      RowsReadIff(d.rows[..n], []);
      assert forall i :: 0 <= i < n ==> d.rows[..n][i] == d.rows[i];
    }
  }

  /** What is decoded is sorted, and has for each path what its last row says. */
  lemma DecodedEntries(d: Document, p: Path)
    requires Decoded(d).Ok?
    ensures var f := Decoded(d).value;
      && InOrder(f.order) && Consistent(f)
      && MapsAsLast(d.rows[..if d.length < 0 then 0 else d.length], f.table, p)
  {
    var rows := d.rows[..if d.length < 0 then 0 else d.length];
    RowsReadIff(rows, p);
    ReadConsistent(rows);
    SortKeeps(ReadRows(rows).value);
    SortedInOrder(ReadRows(rows).value);
  }

  lemma {:induction false} ReadConsistent(rows: seq<Row>)
    requires ReadRows(rows).Ok?
    ensures Consistent(ReadRows(rows).value)
  {
    if rows != [] {
      ReadConsistent(rows[..|rows| - 1]);
    }
  }

  /** Why it does not: no array, a bad row before the end, or rows that are counted but not there. */
  lemma DecodedErrors(d: Document)
    ensures Decoded(d) == Err(BadHeader) <==> d.NotAnArray?
    ensures d.Document? && d.length > |d.rows| && (forall i :: 0 <= i < |d.rows| ==> Readable(d.rows[i])) ==>
      Decoded(d) == Err(EndOfInput)
    ensures d.Document? ==> forall i: nat ::
      (&& i < |d.rows| && i < d.length && !Readable(d.rows[i])
       && (forall j :: 0 <= j < i ==> Readable(d.rows[j]))) ==>
        ReadRow(d.rows[i]).Err? && Decoded(d) == Err(ReadRow(d.rows[i]).error)
  {
    if d.Document? {
      var n := if d.length < 0 then 0 else if d.length > |d.rows| then |d.rows| else d.length;
      RowsReadIff(d.rows[..n], []);
      assert forall e :: ReadRows(d.rows[..n]) == Err(e) ==> Decoded(d) == Err(e);
      NoRowSaysBadHeader(d.rows[..n]);
      forall i: nat
        | i < |d.rows| && i < d.length && !Readable(d.rows[i]) && (forall j :: 0 <= j < i ==> Readable(d.rows[j]))
        ensures ReadRow(d.rows[i]).Err? && Decoded(d) == Err(ReadRow(d.rows[i]).error)
      {
        FirstBadRow(d.rows[..n], i);
      }
    }
  }

  lemma {:induction false} NoRowSaysBadHeader(rows: seq<Row>)
    ensures ReadRows(rows) != Err(BadHeader)
  {
    if rows != [] {
      NoRowSaysBadHeader(rows[..|rows| - 1]);
    }
  }

  // ----- canonical paths -----

  /** What comes back for an entry: its content type, and what the bytes of its CID carry. */
  function Carried(v: FileReference): FileReference {
    v.(cid := Cid.Carried(v.cid))
  }

  predicate WellFormed(f: Files) {
    forall p :: p in f.table ==> Cid.WellFormed(f.table[p].cid)
  }

  /** Entries alone decide the encoding: insertion order does not. */
  lemma EncodingIsCanonical(f: Files, g: Files)
    requires Consistent(f) && Consistent(g) && f.table == g.table
    ensures Encoded(f) == Encoded(g)
  {
    PathOrder();
    SameKeys(f.order, g.order);
    Sorting.SortSorts(f.order, PathLe);
    Sorting.SortSorts(g.order, PathLe);
    Sorting.SortedUnique(SortedFiles(f).order, SortedFiles(g).order, PathLe);
    SortKeeps(f);
    SortKeeps(g);
  }

  ghost predicate Listed(order: seq<Path>, table: map<Path, FileReference>) {
    forall p :: p in order ==> p in table
  }

  /** What the listed keys of a table come back as. */
  ghost function CarriedTable(order: seq<Path>, table: map<Path, FileReference>): map<Path, FileReference>
    requires Listed(order, table)
  {
    map p | p in order :: Carried(table[p])
  }

  lemma OneMoreKey(order: seq<Path>, table: map<Path, FileReference>)
    requires order != [] && NoDuplicates(order) && Listed(order, table)
    ensures order[|order| - 1] !in order[..|order| - 1]
    ensures Listed(order[..|order| - 1], table)
    ensures CarriedTable(order, table)
         == CarriedTable(order[..|order| - 1], table)[order[|order| - 1] := Carried(table[order[|order| - 1]])]
  {
    var front, last := order[..|order| - 1], order[|order| - 1];
    assert order == front + [last];
    assert forall p :: p in order <==> p in front || p == last;
  }

  lemma RowReadsBack(p: Path, v: FileReference)
    requires Cid.WellFormed(v.cid)
    ensures ReadRow(RowOf(p, v)) == Ok((p, Carried(v)))
  {
    Cid.ParseSerialized(v.cid);
  }

  lemma LastRow(order: seq<Path>, table: map<Path, FileReference>)
    requires order != [] && Listed(order, table)
    ensures Listed(order[..|order| - 1], table)
    ensures Rows(order, table)[..|order| - 1] == Rows(order[..|order| - 1], table)
    ensures Rows(order, table)[|order| - 1] == RowOf(order[|order| - 1], table[order[|order| - 1]])
  {
  }

  /** One row for each path: the path, the bytes of its CID and its content type. */
  ghost predicate RowsFor(rows: seq<Row>, order: seq<Path>, table: map<Path, FileReference>) {
    && |rows| == |order|
    && forall i :: 0 <= i < |order| ==>
         && order[i] in table
         && rows[i] == Fields([Text(order[i]), Binary(Cid.Serialized(table[order[i]].cid)),
                               Text(table[order[i]].contentType)])
  }

  lemma {:induction false} RowsAre(order: seq<Path>, table: map<Path, FileReference>)
    requires Listed(order, table)
    ensures RowsFor(Rows(order, table), order, table)
  {
    if order != [] {
      RowsAre(order[..|order| - 1], table);
    }
  }

  lemma NextRow(order: seq<Path>, i: nat, table: map<Path, FileReference>)
    requires i < |order| && order[i] in table && Listed(order[..i], table)
    ensures Listed(order[..i + 1], table)
    ensures Rows(order[..i + 1], table) == Rows(order[..i], table) + [RowOf(order[i], table[order[i]])]
  {
    assert order[..i + 1][..i] == order[..i];
    assert order[..i + 1] == order[..i] + [order[i]];
  }

  /** Rows with distinct paths and well-formed CIDs read back in their order. */
  lemma {:induction false} ReadBack(order: seq<Path>, table: map<Path, FileReference>)
    requires NoDuplicates(order) && Listed(order, table)
    requires forall p :: p in order ==> Cid.WellFormed(table[p].cid)
    ensures ReadRows(Rows(order, table)) == Ok(Files(order, CarriedTable(order, table)))
  {
    if order != [] {
      var front, last := order[..|order| - 1], order[|order| - 1];
      OneMoreKey(order, table);
      LastRow(order, table);
      assert order == front + [last];
      ReadBack(front, table);
      RowReadsBack(last, table[last]);
      PutNew(front, CarriedTable(front, table), last, Carried(table[last]));
    }
  }

  lemma PutNew(order: seq<Path>, table: map<Path, FileReference>, p: Path, v: FileReference)
    requires p !in table
    ensures AfterPut(Files(order, table), p, v) == Files(order + [p], table[p := v])
  {
  }

  lemma SortTwice(order: seq<Path>)
    ensures Sorting.Sort(Sorting.Sort(order, PathLe), PathLe) == Sorting.Sort(order, PathLe)
  {
    PathOrder();
    Sorting.SortSorts(order, PathLe);
    Sorting.SortSorts(Sorting.Sort(order, PathLe), PathLe);
    Sorting.SortedUnique(Sorting.Sort(Sorting.Sort(order, PathLe), PathLe), Sorting.Sort(order, PathLe), PathLe);
  }

  /** The map that an encoding should decode to: sorted by key, with what the CIDs carry. */
  ghost function Canonical(f: Files): Files {
    Files(SortedFiles(f).order, map p | p in f.table :: Carried(f.table[p]))
  }

  /** Decoding an encoding gives the key-sorted map with equal content types and carried CIDs. */
  lemma DecodeEncoded(f: Files)
    requires Consistent(f) && WellFormed(f)
    ensures Decoded(Encoded(f)) == Ok(Canonical(f))
  {
    SortKeeps(f);
    var order := SortedFiles(f).order;
    ReadBack(order, f.table);
    CarriedAll(order, f);
    DecodedRows(Rows(order, f.table));
    SortTwice(f.order);
  }

  lemma CarriedAll(order: seq<Path>, f: Files)
    requires Consistent(Files(order, f.table))
    ensures CarriedTable(order, f.table) == Canonical(f).table
  {
  }

  /** A document whose header counts its rows decodes to the sorted map of its rows. */
  lemma DecodedRows(rows: seq<Row>)
    ensures Decoded(Document(|rows|, rows))
         == match ReadRows(rows) case Err(e) => Err(e) case Ok(f) => Ok(SortedFiles(f))
  {
    assert rows[..|rows|] == rows;
  }

  /** A CID that was read is what its row's bytes parse to. */
  lemma {:induction false} ReadCid(order: seq<Path>, table: map<Path, FileReference>, p: Path)
    requires NoDuplicates(order) && Listed(order, table) && p in order
    requires ReadRows(Rows(order, table)).Ok?
    ensures p in ReadRows(Rows(order, table)).value.table
    ensures Cid.Parse(Cid.Serialized(table[p].cid)) == Ok(ReadRows(Rows(order, table)).value.table[p].cid)
  {
    var front, last := order[..|order| - 1], order[|order| - 1];
    LastRow(order, table);
    ReadLast(Rows(front, table), RowOf(last, table[last]));
    RowCid(last, table[last]);
    if p != last {
      assert order == front + [last];
      ReadCid(front, table, p);
    }
  }

  lemma ReadLast(front: seq<Row>, last: Row)
    requires ReadRows(front + [last]).Ok?
    ensures ReadRows(front).Ok? && ReadRow(last).Ok?
    ensures ReadRows(front + [last]).value.table
         == ReadRows(front).value.table[ReadRow(last).value.0 := ReadRow(last).value.1]
  {
    assert (front + [last])[..|front|] == front;
  }

  lemma RowCid(p: Path, v: FileReference)
    requires ReadRow(RowOf(p, v)).Ok?
    ensures ReadRow(RowOf(p, v)).value.0 == p
    ensures Cid.Parse(Cid.Serialized(v.cid)) == Ok(ReadRow(RowOf(p, v)).value.1.cid)
  {
  }

  /** The round trip succeeds exactly on well-formed CIDs. */
  lemma DecodeEncodedIff(f: Files)
    requires Consistent(f)
    ensures Decoded(Encoded(f)) == Ok(Canonical(f)) <==> WellFormed(f)
  {
    if WellFormed(f) {
      DecodeEncoded(f);
    } else {
      var p :| p in f.table && !Cid.WellFormed(f.table[p].cid);
      SortKeeps(f);
      var order := SortedFiles(f).order;
      DecodedRows(Rows(order, f.table));
      Cid.CarriedIff(f.table[p].cid);
      if ReadRows(Rows(order, f.table)).Ok? {
        ReadCid(order, f.table, p);
        assert Canonical(f).table[p].cid == Cid.Carried(f.table[p].cid);
      }
    }
  }

  lemma {:induction false} RowsOfCarried(order: seq<Path>, table: map<Path, FileReference>,
                                         carried: map<Path, FileReference>)
    requires Listed(order, table) && Listed(order, carried)
    requires forall p :: p in order ==> carried[p] == Carried(table[p])
    ensures Rows(order, carried) == Rows(order, table)
  {
    if order != [] {
      RowsOfCarried(order[..|order| - 1], table, carried);
      assert order[|order| - 1] in order;
    }
  }

  /** What was decoded encodes to the same bytes again, in particular its CIDs are equal under Equals. */
  lemma ReencodeSame(f: Files)
    requires Consistent(f) && WellFormed(f)
    ensures Consistent(Canonical(f)) && Encoded(Canonical(f)) == Encoded(f)
  {
    SortKeeps(f);
    SortKeeps(Canonical(f));
    SortTwice(f.order);
    RowsOfCarried(SortedFiles(f).order, f.table, Canonical(f).table);
  }
}
