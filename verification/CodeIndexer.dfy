/** CodeIndexer: an index of the workspace's files, brought up to date file by file and skipped
    where a stored hash says nothing has changed. */
module CodeIndexer {
  import opened Options

  // A row of one of the three tables. `key` stands for the columns that must be unique within the
  // file, `data` for the others.
  datatype Entry = Entry(key: string, data: string)
  datatype Row = Row(file: string, entry: Entry)

  type Table = seq<Row>

  datatype Parsed = Parsed(symbols: seq<Entry>, edges: seq<Entry>, externals: seq<Entry>)

  // SHA-256 of a file's bytes, and the parser, which is run on a path and the bytes it then finds
  // there, or on nothing if the file cannot be read.
  datatype Oracle = Oracle(hash: string -> string, parse: (string, Option<string>) -> Parsed)

  ghost predicate CollisionFree(o: Oracle) {
    && (forall a, b :: o.hash(a) == o.hash(b) ==> a == b)
    && (forall a :: o.hash(a) != "")
  }

  // ----- tables -----

  predicate HasKey(t: Table, file: string, key: string) {
    exists i :: 0 <= i < |t| && t[i].file == file && t[i].entry.key == key
  }

  // INSERT OR IGNORE
  function Insert(t: Table, file: string, e: Entry): Table {
    if HasKey(t, file, e.key) then t else t + [Row(file, e)]
  }

  function InsertAll(t: Table, file: string, es: seq<Entry>): Table {
    if es == [] then t else Insert(InsertAll(t, file, es[..|es| - 1]), file, es[|es| - 1])
  }

  // DELETE ... WHERE file = ?
  function Without(t: Table, file: string): Table {
    if t == [] then []
    else Without(t[..|t| - 1], file) + if t[|t| - 1].file == file then [] else [t[|t| - 1]]
  }

  function RowsOf(t: Table, file: string): Table {
    if t == [] then []
    else RowsOf(t[..|t| - 1], file) + if t[|t| - 1].file == file then [t[|t| - 1]] else []
  }

  lemma {:induction false} RowsOfAre(t: Table, file: string, r: Row)
    ensures r in RowsOf(t, file) <==> r in t && r.file == file
    ensures r in Without(t, file) <==> r in t && r.file != file
  {
    if t != [] {
      RowsOfAre(t[..|t| - 1], file, r);
      assert t == t[..|t| - 1] + [t[|t| - 1]];
    }
  }

  // The entry stands in the list, and is the first there with its key.
  predicate IsFirst(es: seq<Entry>, e: Entry) {
    exists k :: 0 <= k < |es| && IsFirstAt(es, e, k)
  }

  predicate IsFirstAt(es: seq<Entry>, e: Entry, k: nat)
    requires k < |es|
  {
    es[k] == e && forall j :: 0 <= j < k ==> es[j].key != e.key
  }

  // With every column as it was parsed, the first entry of each new key is stored, and no other.
  lemma {:induction false} InsertedAre(t: Table, file: string, es: seq<Entry>, r: Row)
    ensures r in InsertAll(t, file, es) <==>
      r in t || (r.file == file && !HasKey(t, file, r.entry.key) && IsFirst(es, r.entry))
    ensures forall key :: HasKey(InsertAll(t, file, es), file, key) <==>
      HasKey(t, file, key) || exists k :: 0 <= k < |es| && es[k].key == key
  {
    if es != [] {
      var n := |es| - 1;
      var front, before := es[..n], InsertAll(t, file, es[..n]);
      InsertedAre(t, file, front, r);
      forall key ensures HasKey(InsertAll(t, file, es), file, key) <==>
        HasKey(t, file, key) || exists k :: 0 <= k < |es| && es[k].key == key
      {
        KeyAppended(before, Row(file, es[n]), file, key);
        assert (exists k :: 0 <= k < |es| && es[k].key == key) <==>
          (exists k :: 0 <= k < |front| && front[k].key == key) || es[n].key == key;
      }
      FirstOfMore(es, r.entry);
    }
  }

  lemma FirstOfMore(es: seq<Entry>, e: Entry)
    requires es != []
    ensures
      var front, last := es[..|es| - 1], es[|es| - 1];
      IsFirst(es, e) <==> IsFirst(front, e) || (e == last && forall k :: 0 <= k < |front| ==> front[k].key != e.key)
  {
    var n := |es| - 1;
    var front := es[..n];
    if k :| 0 <= k < |front| && IsFirstAt(front, e, k) {
      assert IsFirstAt(es, e, k);
    }
    if k :| 0 <= k < |es| && IsFirstAt(es, e, k) {
      if k < n {
        assert IsFirstAt(front, e, k);
      }
    }
    if e == es[n] && forall k :: 0 <= k < |front| ==> front[k].key != e.key {
      assert IsFirstAt(es, e, n);
    }
  }

  // What a table holds once the rows of a file have been replaced.
  lemma ReplacedAre(t: Table, file: string, es: seq<Entry>, r: Row)
    ensures r in Replaced(t, file, es) <==> if r.file == file then IsFirst(es, r.entry) else r in t
  {
    InsertedAre(Without(t, file), file, es, r);
    RowsOfAre(t, file, r);
    if HasKey(Without(t, file), file, r.entry.key) {
      var i :| 0 <= i < |Without(t, file)| && Without(t, file)[i].file == file;
      RowsOfAre(t, file, Without(t, file)[i]);
    }
  }

  // No two rows of a file have the same key.
  predicate KeysAreUnique(t: Table) {
    forall i, j :: 0 <= i < j < |t| && t[i].file == t[j].file ==> t[i].entry.key != t[j].entry.key
  }

  lemma {:induction false} WithoutKeepsUnique(t: Table, file: string)
    requires KeysAreUnique(t)
    ensures KeysAreUnique(Without(t, file))
  {
    if t != [] {
      var n := |t| - 1;
      WithoutKeepsUnique(t[..n], file);
      var before := Without(t[..n], file);
      forall i | 0 <= i < |before| && t[n].file == before[i].file ensures t[n].entry.key != before[i].entry.key {
        RowsOfAre(t[..n], file, before[i]);
        assert before[i] in before;
      }
    }
  }

  lemma {:induction false} InsertingKeepsUnique(t: Table, file: string, es: seq<Entry>)
    requires KeysAreUnique(t)
    ensures KeysAreUnique(InsertAll(t, file, es))
  {
    if es != [] {
      InsertingKeepsUnique(t, file, es[..|es| - 1]);
    }
  }

  // So no row is stored twice.
  lemma IndexingKeepsUnique(o: Oracle, ix: Index, file: string, hashed: Option<string>, read: Option<string>)
    requires KeysAreUnique(ix.symbols) && KeysAreUnique(ix.edges) && KeysAreUnique(ix.externals)
    ensures
      var after := Indexed(o, ix, file, hashed, read);
      KeysAreUnique(after.symbols) && KeysAreUnique(after.edges) && KeysAreUnique(after.externals)
  {
    hide KeysAreUnique, InsertAll, Without;
    var p := o.parse(file, read);
    WithoutKeepsUnique(ix.symbols, file);
    WithoutKeepsUnique(ix.edges, file);
    WithoutKeepsUnique(ix.externals, file);
    InsertingKeepsUnique(Without(ix.symbols, file), file, p.symbols);
    InsertingKeepsUnique(Without(ix.edges, file), file, p.edges);
    InsertingKeepsUnique(Without(ix.externals, file), file, p.externals);
  }

  lemma RowsOfAppend(t: Table, r: Row, file: string)
    ensures RowsOf(t + [r], file) == RowsOf(t, file) + if r.file == file then [r] else []
  {
    assert (t + [r])[..|t|] == t;
  }

  lemma {:induction false} KeysOfRows(t: Table, file: string, key: string)
    ensures HasKey(RowsOf(t, file), file, key) == HasKey(t, file, key)
  {
    if t != [] {
      var front, last := t[..|t| - 1], t[|t| - 1];
      KeysOfRows(front, file, key);
      KeyAppended(front, last, file, key);
      assert t == front + [last];
      if last.file == file {
        KeyAppended(RowsOf(front, file), last, file, key);
      } else {
        assert RowsOf(t, file) == RowsOf(front, file);
      }
    }
  }

  lemma KeyAppended(t: Table, r: Row, file: string, key: string)
    ensures HasKey(t + [r], file, key) <==> HasKey(t, file, key) || (r.file == file && r.entry.key == key)
  {
    var more := t + [r];
    if HasKey(t, file, key) {
      var i :| 0 <= i < |t| && t[i].file == file && t[i].entry.key == key;
      assert more[i] == t[i];
    }
    if r.file == file && r.entry.key == key {
      assert more[|t|] == r;
    }
  }

  // What an insertion does to a file depends on the rows of that file alone.
  lemma {:induction false} InsertAllIsLocal(t: Table, file: string, es: seq<Entry>, other: string)
    ensures RowsOf(InsertAll(t, file, es), other) ==
      if other == file then InsertAll(RowsOf(t, file), file, es) else RowsOf(t, other)
  {
    if es != [] {
      var front, e := es[..|es| - 1], es[|es| - 1];
      var before := InsertAll(t, file, front);
      InsertAllIsLocal(t, file, front, other);
      KeysOfRows(before, file, e.key);
      RowsOfAppend(before, Row(file, e), other);
    }
  }

  lemma {:induction false} WithoutIsLocal(t: Table, file: string, other: string)
    ensures RowsOf(Without(t, file), other) == if other == file then [] else RowsOf(t, other)
  {
    if t != [] {
      var front, last := t[..|t| - 1], t[|t| - 1];
      WithoutIsLocal(front, file, other);
      if last.file != file {
        RowsOfAppend(Without(front, file), last, other);
      } else {
        assert Without(t, file) == Without(front, file);
      }
    }
  }

  // ----- the index -----

  datatype Index = Index(symbols: Table, edges: Table, externals: Table, metadata: map<string, string>)

  datatype IndexResult = IndexResult(symbols: nat, edges: nat, externals: nat, skipped: bool)

  function HashOf(o: Oracle, content: Option<string>): Option<string> {
    match content
    case None => None
    case Some(c) => Some(o.hash(c))
  }

  predicate Skips(o: Oracle, ix: Index, file: string, hashed: Option<string>) {
    hashed.Some? && file in ix.metadata && ix.metadata[file] == o.hash(hashed.value)
  }

  function Replaced(t: Table, file: string, es: seq<Entry>): Table {
    InsertAll(Without(t, file), file, es)
  }

  // index_file: `hashed` is what the file holds when its hash is taken, `read` what it holds when
  // the parser gets to it.
  function Indexed(o: Oracle, ix: Index, file: string, hashed: Option<string>, read: Option<string>): Index {
    if Skips(o, ix, file, hashed) then ix
    else
      var p := o.parse(file, read);
      Index(Replaced(ix.symbols, file, p.symbols), Replaced(ix.edges, file, p.edges),
            Replaced(ix.externals, file, p.externals),
            ix.metadata[file := if hashed.Some? then o.hash(hashed.value) else ""])
  }

  function Forgotten(ix: Index, file: string): Index {
    ix.(metadata := ix.metadata - {file})
  }

  function Removed(ix: Index, file: string): Index {
    Index(Without(ix.symbols, file), Without(ix.edges, file), Without(ix.externals, file), ix.metadata - {file})
  }

  // The rows of a file are those a fresh parse of the given content inserts into empty tables.
  ghost predicate HoldsParseOf(o: Oracle, ix: Index, file: string, content: string) {
    var p := o.parse(file, Some(content));
    && RowsOf(ix.symbols, file) == InsertAll([], file, p.symbols)
    && RowsOf(ix.edges, file) == InsertAll([], file, p.edges)
    && RowsOf(ix.externals, file) == InsertAll([], file, p.externals)
  }

  // Whenever a file has the content its stored hash belongs to, its rows are up to date.
  ghost predicate IsSound(o: Oracle, ix: Index) {
    forall file, content :: file in ix.metadata && ix.metadata[file] == o.hash(content) ==>
      HoldsParseOf(o, ix, file, content)
  }

  // The file was not changed, between hashing and parsing, into something that parses differently.
  ghost predicate SafeRead(o: Oracle, ix: Index, file: string, hashed: Option<string>, read: Option<string>) {
    !Skips(o, ix, file, hashed) && hashed.Some? ==> SameRows(file, o.parse(file, read), o.parse(file, hashed))
  }

  ghost predicate SameRows(file: string, p: Parsed, q: Parsed) {
    && InsertAll([], file, p.symbols) == InsertAll([], file, q.symbols)
    && InsertAll([], file, p.edges) == InsertAll([], file, q.edges)
    && InsertAll([], file, p.externals) == InsertAll([], file, q.externals)
  }

  lemma ReplacedRows(t: Table, file: string, es: seq<Entry>, other: string)
    ensures RowsOf(Replaced(t, file, es), other) == if other == file then InsertAll([], file, es) else RowsOf(t, other)
  {
    WithoutIsLocal(t, file, other);
    WithoutIsLocal(t, file, file);
    InsertAllIsLocal(Without(t, file), file, es, other);
  }

  lemma IndexedRows(o: Oracle, ix: Index, file: string, hashed: Option<string>, read: Option<string>, other: string)
    requires !Skips(o, ix, file, hashed)
    ensures
      var after := Indexed(o, ix, file, hashed, read);
      var p := o.parse(file, read);
      && RowsOf(after.symbols, other) ==
         (if other == file then InsertAll([], file, p.symbols) else RowsOf(ix.symbols, other))
      && RowsOf(after.edges, other) == (if other == file then InsertAll([], file, p.edges) else RowsOf(ix.edges, other))
      && RowsOf(after.externals, other) ==
         (if other == file then InsertAll([], file, p.externals) else RowsOf(ix.externals, other))
  {
    var p := o.parse(file, read);
    ReplacedRows(ix.symbols, file, p.symbols, other);
    ReplacedRows(ix.edges, file, p.edges, other);
    ReplacedRows(ix.externals, file, p.externals, other);
  }

  // Indexing a file keeps a sound index sound exactly when no edit of consequence slipped in
  // between taking the hash and parsing.
  lemma IndexingStaysSoundIff(o: Oracle, ix: Index, file: string, hashed: Option<string>, read: Option<string>)
    requires CollisionFree(o) && IsSound(o, ix)
    ensures IsSound(o, Indexed(o, ix, file, hashed, read)) <==> SafeRead(o, ix, file, hashed, read)
  {
    if !Skips(o, ix, file, hashed) {
      var after := Indexed(o, ix, file, hashed, read);
      IndexedRows(o, ix, file, hashed, read, file);
      if IsSound(o, after) && hashed.Some? {
        assert HoldsParseOf(o, after, file, hashed.value);
      }
      if SafeRead(o, ix, file, hashed, read) {
        forall f, c | f in after.metadata && after.metadata[f] == o.hash(c) ensures HoldsParseOf(o, after, f, c) {
          IndexedRows(o, ix, file, hashed, read, f);
          if f != file {
            assert HoldsParseOf(o, ix, f, c);
          }
        }
      }
    }
  }

  lemma ForgettingStaysSound(o: Oracle, ix: Index, file: string)
    requires IsSound(o, ix)
    ensures IsSound(o, Forgotten(ix, file))
  {
    forall f, c | f in Forgotten(ix, file).metadata && Forgotten(ix, file).metadata[f] == o.hash(c)
      ensures HoldsParseOf(o, Forgotten(ix, file), f, c)
    {
      assert HoldsParseOf(o, ix, f, c);
    }
  }

  lemma RemovingStaysSound(o: Oracle, ix: Index, file: string)
    requires IsSound(o, ix)
    ensures IsSound(o, Removed(ix, file))
    ensures RowsOf(Removed(ix, file).symbols, file) == RowsOf(Removed(ix, file).edges, file) == []
    ensures RowsOf(Removed(ix, file).externals, file) == []
  {
    WithoutIsLocal(ix.symbols, file, file);
    WithoutIsLocal(ix.edges, file, file);
    WithoutIsLocal(ix.externals, file, file);
    forall f, c | f in Removed(ix, file).metadata && Removed(ix, file).metadata[f] == o.hash(c)
      ensures HoldsParseOf(o, Removed(ix, file), f, c)
    {
      assert HoldsParseOf(o, ix, f, c);
      WithoutIsLocal(ix.symbols, file, f);
      WithoutIsLocal(ix.edges, file, f);
      WithoutIsLocal(ix.externals, file, f);
    }
  }

  class CodeIndexer {
    const oracle: Oracle
    var symbols: Table
    var edges: Table
    var externals: Table
    var metadata: map<string, string>

    constructor (oracle: Oracle)
      ensures this.oracle == oracle && View() == EMPTY_INDEX
    {
      this.oracle := oracle;
      symbols, edges, externals, metadata := [], [], [], map[];
    }

    function View(): Index
      reads this
    {
      Index(symbols, edges, externals, metadata)
    }

    method IndexFile(file: string, hashed: Option<string>, read: Option<string>) returns (result: IndexResult)
      modifies this
      ensures View() == Indexed(oracle, old(View()), file, hashed, read)
      ensures result == ResultOf(oracle, old(View()), Visit(file, hashed, read))
      // A file whose stored hash is that of its content is skipped.
      ensures result.skipped <==>
        hashed.Some? && file in old(metadata) && old(metadata)[file] == oracle.hash(hashed.value)
      ensures result.skipped ==> View() == old(View()) && result == IndexResult(0, 0, 0, true)
      // Otherwise its rows are replaced, each key's first entry with all its columns, and its hash too.
      ensures !result.skipped ==>
        var p := oracle.parse(file, read);
        && (forall r :: r in symbols <==> if r.file == file then IsFirst(p.symbols, r.entry) else r in old(symbols))
        && (forall r :: r in edges <==> if r.file == file then IsFirst(p.edges, r.entry) else r in old(edges))
        && (forall r :: r in externals <==>
             if r.file == file then IsFirst(p.externals, r.entry) else r in old(externals))
        && metadata == old(metadata)[file := if hashed.Some? then oracle.hash(hashed.value) else ""]
        && result == IndexResult(|p.symbols|, |p.edges|, |p.externals|, false)
    {
      hide InsertAll, Without, IsFirst;
      var hash := HashOf(oracle, hashed);
      if hash.Some? && file in metadata && metadata[file] == hash.value {
        return IndexResult(0, 0, 0, true);
      }
      var p := oracle.parse(file, read);
      symbols := Without(symbols, file);
      edges := Without(edges, file);
      externals := Without(externals, file);
      symbols := InsertAll(symbols, file, p.symbols);
      edges := InsertAll(edges, file, p.edges);
      externals := InsertAll(externals, file, p.externals);
      metadata := metadata[file := match hash case Some(h) => h case None => ""];
      result := IndexResult(|p.symbols|, |p.edges|, |p.externals|, false);
      forall r
        ensures r in symbols <==> if r.file == file then IsFirst(p.symbols, r.entry) else r in old(symbols)
        ensures r in edges <==> if r.file == file then IsFirst(p.edges, r.entry) else r in old(edges)
        ensures r in externals <==> if r.file == file then IsFirst(p.externals, r.entry) else r in old(externals)
      {
        ReplacedAre(old(symbols), file, p.symbols, r);
        ReplacedAre(old(edges), file, p.edges, r);
        ReplacedAre(old(externals), file, p.externals, r);
      }
    }

    method ReindexFile(file: string, hashed: Option<string>, read: Option<string>) returns (result: IndexResult)
      modifies this
      ensures View() == Indexed(oracle, Forgotten(old(View()), file), file, hashed, read)
      ensures result == CountsOf(oracle.parse(file, read))
    {
      metadata := metadata - {file};
      result := IndexFile(file, hashed, read);
    }

    method RemoveFile(file: string)
      modifies this
      ensures View() == Removed(old(View()), file)
    {
      symbols := Without(symbols, file);
      edges := Without(edges, file);
      externals := Without(externals, file);
      metadata := metadata - {file};
    }

    // Indexes the files in turn, each with what it holds when its turn comes.
    method IndexWorkspace(visits: seq<Visit>) returns (totals: Totals)
      modifies this
      ensures View() == IndexedAll(oracle, old(View()), visits)
      ensures totals == TotalsOf(oracle, old(View()), visits)
      ensures totals.files == |visits|
      ensures totals.skipped == |visits| ==> View() == old(View())
    {
      totals := Totals(0, 0, 0, 0, 0);
      for i := 0 to |visits|
        invariant View() == IndexedAll(oracle, old(View()), visits[..i])
        invariant totals == TotalsOf(oracle, old(View()), visits[..i])
        invariant totals.skipped <= i == totals.files
        invariant totals.skipped == i ==> View() == old(View())
      {
        assert visits[..i + 1][..i] == visits[..i];
        var result := IndexFile(visits[i].file, visits[i].hashed, visits[i].read);
        totals := Plus(totals, result);
      }
      assert visits[..|visits|] == visits;
    }
  }

  const EMPTY_INDEX := Index([], [], [], map[])

  function CountsOf(p: Parsed): IndexResult {
    IndexResult(|p.symbols|, |p.edges|, |p.externals|, false)
  }

  function ReadFrom(disk: map<string, string>, file: string): Option<string> {
    if file in disk then Some(disk[file]) else None
  }

  // One file of a workspace pass: what it holds when its hash is taken, and when it is parsed.
  datatype Visit = Visit(file: string, hashed: Option<string>, read: Option<string>)

  datatype Totals = Totals(files: nat, symbols: nat, edges: nat, externals: nat, skipped: nat)

  function Visited(o: Oracle, ix: Index, v: Visit): Index {
    Indexed(o, ix, v.file, v.hashed, v.read)
  }

  function IndexedAll(o: Oracle, ix: Index, visits: seq<Visit>): Index {
    if visits == [] then ix else Visited(o, IndexedAll(o, ix, visits[..|visits| - 1]), visits[|visits| - 1])
  }

  // The totals a workspace pass reports: the files listed, what the files not skipped were parsed
  // into, and how many were skipped.
  function TotalsOf(o: Oracle, ix: Index, visits: seq<Visit>): Totals {
    if visits == [] then Totals(0, 0, 0, 0, 0)
    else
      var before, v := TotalsOf(o, ix, visits[..|visits| - 1]), visits[|visits| - 1];
      Plus(before, ResultOf(o, IndexedAll(o, ix, visits[..|visits| - 1]), v))
  }

  function Plus(t: Totals, r: IndexResult): Totals {
    Totals(t.files + 1, t.symbols + r.symbols, t.edges + r.edges, t.externals + r.externals,
           t.skipped + if r.skipped then 1 else 0)
  }

  // One more file is listed; it is skipped if its stored hash is that of its content, and otherwise
  // adds the sizes of its parse.
  lemma TotalsGrow(o: Oracle, ix: Index, visits: seq<Visit>, v: Visit)
    ensures
      var before, after := TotalsOf(o, ix, visits), TotalsOf(o, ix, visits + [v]);
      var metadata, p := IndexedAll(o, ix, visits).metadata, o.parse(v.file, v.read);
      if v.hashed.Some? && v.file in metadata && metadata[v.file] == o.hash(v.hashed.value) then
        after == before.(files := before.files + 1, skipped := before.skipped + 1)
      else
        after == Totals(before.files + 1, before.symbols + |p.symbols|, before.edges + |p.edges|,
                        before.externals + |p.externals|, before.skipped)
  {
    assert (visits + [v])[..|visits|] == visits;
  }

  // What is reported for one file: nothing if it is skipped, else the sizes of its parse.
  function ResultOf(o: Oracle, ix: Index, v: Visit): IndexResult {
    if Skips(o, ix, v.file, v.hashed) then IndexResult(0, 0, 0, true) else CountsOf(o.parse(v.file, v.read))
  }

  // A pass over a disk that nobody touches meanwhile.
  function VisitsOf(files: seq<string>, disk: map<string, string>): seq<Visit> {
    if files == [] then []
    else
      var file := files[|files| - 1];
      VisitsOf(files[..|files| - 1], disk) + [Visit(file, ReadFrom(disk, file), ReadFrom(disk, file))]
  }

  // The stored hash of a file is that of its present content, and so are its rows.
  ghost predicate IsUpToDate(o: Oracle, ix: Index, file: string, content: string) {
    file in ix.metadata && ix.metadata[file] == o.hash(content) && HoldsParseOf(o, ix, file, content)
  }

  // ----- a pass during which files may change -----

  // No visit reads what parses differently from what it hashed.
  ghost predicate SafeVisits(o: Oracle, ix: Index, visits: seq<Visit>) {
    visits == [] ||
    (var front, v := visits[..|visits| - 1], visits[|visits| - 1];
    SafeVisits(o, ix, front) && SafeRead(o, IndexedAll(o, ix, front), v.file, v.hashed, v.read))
  }

  // The index is sound before the pass and after every visit.
  ghost predicate SoundAtEachVisit(o: Oracle, ix: Index, visits: seq<Visit>) {
    && IsSound(o, IndexedAll(o, ix, visits))
    && (visits == [] || SoundAtEachVisit(o, ix, visits[..|visits| - 1]))
  }

  lemma {:induction false} SoundAtEachVisitIff(o: Oracle, ix: Index, visits: seq<Visit>)
    requires CollisionFree(o) && IsSound(o, ix)
    ensures SoundAtEachVisit(o, ix, visits) <==> SafeVisits(o, ix, visits)
  {
    hide IsSound, Indexed, SafeRead;
    if visits != [] {
      var front, v := visits[..|visits| - 1], visits[|visits| - 1];
      SoundAtEachVisitIff(o, ix, front);
      if SafeVisits(o, ix, front) {
        IndexingStaysSoundIff(o, IndexedAll(o, ix, front), v.file, v.hashed, v.read);
      }
    }
  }

  lemma VisitKeepsUpToDate(o: Oracle, ix: Index, v: Visit, file: string, content: string)
    requires CollisionFree(o) && IsSound(o, ix) && SafeRead(o, ix, v.file, v.hashed, v.read)
    requires if v.file == file then v.hashed == Some(content) else IsUpToDate(o, ix, file, content)
    ensures IsUpToDate(o, Visited(o, ix, v), file, content)
  {
    if !Skips(o, ix, v.file, v.hashed) {
      IndexedRows(o, ix, v.file, v.hashed, v.read, file);
    }
  }

  // The k-th visit is the last one of its file.
  predicate IsLastVisit(visits: seq<Visit>, k: nat) {
    k < |visits| && forall j :: k < j < |visits| ==> visits[j].file != visits[k].file
  }

  // After safe visits every file they could read is up to date with what it held at its last visit,
  // whatever happened to the other files and whatever it held at earlier ones.
  lemma {:induction false} VisitsBringUpToDate(o: Oracle, ix: Index, visits: seq<Visit>, k: nat, content: string)
    requires CollisionFree(o) && IsSound(o, ix) && SafeVisits(o, ix, visits)
    requires IsLastVisit(visits, k) && visits[k].hashed == Some(content)
    ensures IsUpToDate(o, IndexedAll(o, ix, visits), visits[k].file, content)
  {
    hide IsUpToDate, SafeRead, IsSound, Indexed;
    var n := |visits| - 1;
    var before := IndexedAll(o, ix, visits[..n]);
    SoundAtEachVisitIff(o, ix, visits[..n]);
    if k < n {
      VisitsBringUpToDate(o, ix, visits[..n], k, content);
    }
    VisitKeepsUpToDate(o, before, visits[n], visits[k].file, content);
  }

  lemma {:induction false} VisitsOfIs(files: seq<string>, disk: map<string, string>)
    ensures |VisitsOf(files, disk)| == |files|
    ensures forall k :: 0 <= k < |files| ==>
      VisitsOf(files, disk)[k] == Visit(files[k], ReadFrom(disk, files[k]), ReadFrom(disk, files[k]))
  {
    if files != [] {
      VisitsOfIs(files[..|files| - 1], disk);
    }
  }

  lemma {:induction false} UntouchedIsSafe(o: Oracle, ix: Index, files: seq<string>, disk: map<string, string>)
    ensures SafeVisits(o, ix, VisitsOf(files, disk))
  {
    if files != [] {
      var visits := VisitsOf(files, disk);
      UntouchedIsSafe(o, ix, files[..|files| - 1], disk);
      assert visits[..|visits| - 1] == VisitsOf(files[..|files| - 1], disk);
    }
  }

  lemma {:induction false} LastVisitOf(files: seq<string>, disk: map<string, string>, file: string)
    requires file in files
    ensures exists k: nat :: IsLastVisit(VisitsOf(files, disk), k) && k < |files| && files[k] == file
  {
    var n := |files| - 1;
    var visits, fewer := VisitsOf(files, disk), VisitsOf(files[..n], disk);
    VisitsOfIs(files, disk);
    if files[n] == file {
      assert IsLastVisit(visits, n);
    } else {
      assert files == files[..n] + [files[n]];
      VisitsOfIs(files[..n], disk);
      LastVisitOf(files[..n], disk, file);
      var k: nat :| IsLastVisit(fewer, k) && k < n && files[..n][k] == file;
      forall j | k < j < |visits| ensures visits[j].file != visits[k].file {
        if j < n {
          assert fewer[j].file != fewer[k].file;
        }
      }
      assert IsLastVisit(visits, k);
    }
  }

  // After indexing the workspace every readable file it listed is up to date, whatever sound state
  // the index was in before, and its rows are those a full index of an empty database would hold.
  lemma WorkspaceIsUpToDate(o: Oracle, ix: Index, files: seq<string>, disk: map<string, string>, file: string)
    requires CollisionFree(o) && IsSound(o, ix) && file in files && file in disk
    ensures IsUpToDate(o, IndexedAll(o, ix, VisitsOf(files, disk)), file, disk[file])
  {
    hide IsUpToDate, IndexedAll, SafeVisits, IsSound;
    LastVisitOf(files, disk, file);
    var k: nat :| IsLastVisit(VisitsOf(files, disk), k) && k < |files| && files[k] == file;
    VisitsOfIs(files, disk);
    UntouchedIsSafe(o, ix, files, disk);
    VisitsBringUpToDate(o, ix, VisitsOf(files, disk), k, disk[file]);
  }

  lemma WorkspaceStaysSound(o: Oracle, ix: Index, files: seq<string>, disk: map<string, string>)
    requires CollisionFree(o) && IsSound(o, ix)
    ensures IsSound(o, IndexedAll(o, ix, VisitsOf(files, disk)))
  {
    hide IsSound, IndexedAll, SafeVisits;
    UntouchedIsSafe(o, ix, files, disk);
    SoundAtEachVisitIff(o, ix, VisitsOf(files, disk));
  }

  lemma IncrementalAgreesWithFull(o: Oracle, ix: Index, files: seq<string>, disk: map<string, string>, file: string)
    requires CollisionFree(o) && IsSound(o, ix) && file in files && file in disk
    ensures
      var visits := VisitsOf(files, disk);
      var incremental, full := IndexedAll(o, ix, visits), IndexedAll(o, EMPTY_INDEX, visits);
      && RowsOf(incremental.symbols, file) == RowsOf(full.symbols, file)
      && RowsOf(incremental.edges, file) == RowsOf(full.edges, file)
      && RowsOf(incremental.externals, file) == RowsOf(full.externals, file)
  {
    WorkspaceIsUpToDate(o, ix, files, disk, file);
    WorkspaceIsUpToDate(o, EMPTY_INDEX, files, disk, file);
  }

  // ----- runs of edits and indexing -----

  // What happens to the file itself between taking its hash and parsing it.
  datatype Meanwhile = Untouched | Becomes(content: Option<string>)

  datatype Event =
    | Edit(file: string, content: Option<string>)
    | IndexFile(file: string, meanwhile: Meanwhile)
    | ReindexFile(file: string, meanwhile: Meanwhile)
    | RemoveFile(file: string)

  datatype World = World(disk: map<string, string>, index: Index)

  function Written(disk: map<string, string>, file: string, content: Option<string>): map<string, string> {
    match content
    case None => disk - {file}
    case Some(c) => disk[file := c]
  }

  function DiskAfter(disk: map<string, string>, file: string, meanwhile: Meanwhile): map<string, string> {
    match meanwhile
    case Untouched => disk
    case Becomes(content) => Written(disk, file, content)
  }

  function Step(o: Oracle, w: World, e: Event): World {
    match e
    case Edit(file, content) => w.(disk := Written(w.disk, file, content))
    case RemoveFile(file) => w.(index := Removed(w.index, file))
    case IndexFile(file, meanwhile) =>
      var disk := DiskAfter(w.disk, file, meanwhile);
      World(disk, Indexed(o, w.index, file, ReadFrom(w.disk, file), ReadFrom(disk, file)))
    case ReindexFile(file, meanwhile) =>
      var disk := DiskAfter(w.disk, file, meanwhile);
      World(disk, Indexed(o, Forgotten(w.index, file), file, ReadFrom(w.disk, file), ReadFrom(disk, file)))
  }

  function Run(o: Oracle, disk: map<string, string>, es: seq<Event>): World {
    if es == [] then World(disk, EMPTY_INDEX) else Step(o, Run(o, disk, es[..|es| - 1]), es[|es| - 1])
  }

  ghost predicate SafeStep(o: Oracle, w: World, e: Event) {
    match e
    case Edit(_, _) => true
    case RemoveFile(_) => true
    case IndexFile(file, meanwhile) =>
      SafeRead(o, w.index, file, ReadFrom(w.disk, file), ReadFrom(DiskAfter(w.disk, file, meanwhile), file))
    case ReindexFile(file, meanwhile) =>
      SafeRead(o, Forgotten(w.index, file), file, ReadFrom(w.disk, file),
               ReadFrom(DiskAfter(w.disk, file, meanwhile), file))
  }

  lemma StepStaysSoundIff(o: Oracle, w: World, e: Event)
    requires CollisionFree(o) && IsSound(o, w.index)
    ensures IsSound(o, Step(o, w, e).index) <==> SafeStep(o, w, e)
  {
    match e
    case Edit(_, _) =>
    case RemoveFile(file) => RemovingStaysSound(o, w.index, file);
    case IndexFile(file, meanwhile) =>
      IndexingStaysSoundIff(o, w.index, file, ReadFrom(w.disk, file),
                            ReadFrom(DiskAfter(w.disk, file, meanwhile), file));
    case ReindexFile(file, meanwhile) =>
      ForgettingStaysSound(o, w.index, file);
      IndexingStaysSoundIff(o, Forgotten(w.index, file), file, ReadFrom(w.disk, file),
                            ReadFrom(DiskAfter(w.disk, file, meanwhile), file));
  }

  // Sound after every event; every read safe.
  ghost predicate SoundThroughout(o: Oracle, disk: map<string, string>, es: seq<Event>) {
    IsSound(o, Run(o, disk, es).index) && (es == [] || SoundThroughout(o, disk, es[..|es| - 1]))
  }

  ghost predicate SafeThroughout(o: Oracle, disk: map<string, string>, es: seq<Event>) {
    es == [] || (SafeThroughout(o, disk, es[..|es| - 1]) && SafeStep(o, Run(o, disk, es[..|es| - 1]), es[|es| - 1]))
  }

  // Through any run of edits, indexing and removals the index tells the truth about every file
  // whose stored hash is its present one, exactly when no edit of consequence falls between the
  // hashing and the parsing of the file being indexed.
  lemma {:induction false} SoundIffSafe(o: Oracle, disk: map<string, string>, es: seq<Event>)
    requires CollisionFree(o)
    ensures SoundThroughout(o, disk, es) <==> SafeThroughout(o, disk, es)
  {
    if es == [] {
      assert IsSound(o, EMPTY_INDEX);
    } else {
      var before := Run(o, disk, es[..|es| - 1]);
      SoundIffSafe(o, disk, es[..|es| - 1]);
      if IsSound(o, before.index) {
        StepStaysSoundIff(o, before, es[|es| - 1]);
      }
    }
  }

  // index_workspace as a part of such a run, on a disk nobody touches meanwhile.
  function IndexEach(files: seq<string>): seq<Event> {
    if files == [] then [] else IndexEach(files[..|files| - 1]) + [Event.IndexFile(files[|files| - 1], Untouched)]
  }

  lemma RunOneMore(o: Oracle, disk: map<string, string>, es: seq<Event>, e: Event)
    ensures Run(o, disk, es + [e]) == Step(o, Run(o, disk, es), e)
  {
    assert (es + [e])[..|es|] == es;
  }

  lemma {:induction false} WorkspaceIsRun(o: Oracle, disk: map<string, string>, es: seq<Event>, files: seq<string>)
    ensures
      var w := Run(o, disk, es);
      Run(o, disk, es + IndexEach(files)) == World(w.disk, IndexedAll(o, w.index, VisitsOf(files, w.disk)))
  {
    var w := Run(o, disk, es);
    if files == [] {
      assert es + [] == es;
    } else {
      var front, last := files[..|files| - 1], files[|files| - 1];
      WorkspaceIsRun(o, disk, es, front);
      RunOneMore(o, disk, es + IndexEach(front), Event.IndexFile(last, Untouched));
      StepOverFile(o, w, files);
      assert es + IndexEach(files) == es + IndexEach(front) + [Event.IndexFile(last, Untouched)];
    }
  }

  lemma StepOverFile(o: Oracle, w: World, files: seq<string>)
    requires files != []
    ensures
      var front, last := files[..|files| - 1], files[|files| - 1];
      Step(o, World(w.disk, IndexedAll(o, w.index, VisitsOf(front, w.disk))), Event.IndexFile(last, Untouched))
        == World(w.disk, IndexedAll(o, w.index, VisitsOf(files, w.disk)))
  {
    var visits := VisitsOf(files, w.disk);
    assert visits[..|visits| - 1] == VisitsOf(files[..|files| - 1], w.disk);
  }

  // After any run of safe reads, indexing the workspace leaves every readable file it lists with
  // its present hash and its present rows.
  lemma WorkspaceRepairsAnyRun(o: Oracle, disk: map<string, string>, es: seq<Event>, files: seq<string>, file: string)
    requires CollisionFree(o) && SafeThroughout(o, disk, es)
    requires file in files && file in Run(o, disk, es).disk
    ensures IsUpToDate(o, Run(o, disk, es + IndexEach(files)).index, file, Run(o, disk, es).disk[file])
  {
    SoundIffSafe(o, disk, es);
    WorkspaceIsRun(o, disk, es, files);
    WorkspaceIsUpToDate(o, Run(o, disk, es).index, files, Run(o, disk, es).disk, file);
  }

  // A file saved with other content while it was being indexed, and then restored: its stored hash
  // is its present one, its rows belong to the content it had in between, and indexing it again
  // changes nothing.
  lemma RestoredFileStaysStale(o: Oracle, file: string, oldContent: string, newContent: string)
    requires CollisionFree(o)
    requires !SameRows(file, o.parse(file, Some(newContent)), o.parse(file, Some(oldContent)))
    ensures
      var es := [IndexFile(file, Becomes(Some(newContent))), Edit(file, Some(oldContent))];
      var w := Run(o, map[file := oldContent], es);
      && ReadFrom(w.disk, file) == Some(oldContent)
      && file in w.index.metadata && w.index.metadata[file] == o.hash(oldContent)
      && !HoldsParseOf(o, w.index, file, oldContent)
      && Step(o, w, IndexFile(file, Untouched)) == w
  {
    var disk := map[file := oldContent];
    var indexing, restoring := Event.IndexFile(file, Becomes(Some(newContent))), Edit(file, Some(oldContent));
    RunOneMore(o, disk, [], indexing);
    RunOneMore(o, disk, [] + [indexing], restoring);
    assert [] + [indexing] + [restoring] == [indexing, restoring];
    IndexedRows(o, EMPTY_INDEX, file, Some(oldContent), Some(newContent), file);
  }
}
