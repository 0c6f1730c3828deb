/**
 Per-file statistics: the writer from the typed form to the log's JSON, and the reader back.

 The two loops are methods; each is proved equal to a function that says column by column what
 the result is, and the round trips are proved of those functions.
 */
module Stats {
  import opened Wrappers
  import opened Json
  import opened Doubles

  /** The value of a `min_value` or `max_value` oneof. */
  datatype Bound = IntBound(i: I64) | DoubleBound(d: Double) | StringBound(s: string) | BoolBound(b: bool)

  datatype ColumnStats = ColumnStats(minValue: Option<Bound>, maxValue: Option<Bound>, nullCount: I64)

  datatype FileStats = FileStats(numRecords: I64, columns: map<string, ColumnStats>)

  // ----- One bound -----

  function WriteBound(b: Option<Bound>): Option<Value> {
    match b
    case None => None
    case Some(IntBound(i)) => Some(Num(FromI64(i)))
    case Some(DoubleBound(d)) => (match FromF64(d) case Some(n) => Some(Num(n)) case None => None)
    case Some(StringBound(s)) => Some(Str(s))
    case Some(BoolBound(b)) => Some(Bool(b))
  }

  function ReadBound(v: Value): Option<Bound> {
    match v
    case Str(s) => Some(StringBound(s))
    case Bool(b) => Some(BoolBound(b))
    case Num(n) =>
      (match AsI64(v)
       case Some(i) => Some(IntBound(i))
       case None =>
         match n
         case PosInt(u) => Some(DoubleBound(LargeU64AsF64(u)))
         case Float(f) => Some(DoubleBound(f)))
    case _ => None
  }

  // ----- Writing -----

  function MinObject(columns: map<string, ColumnStats>): map<string, Value> {
    map c | c in columns && WriteBound(columns[c].minValue).Some? :: WriteBound(columns[c].minValue).value
  }

  function MaxObject(columns: map<string, ColumnStats>): map<string, Value> {
    map c | c in columns && WriteBound(columns[c].maxValue).Some? :: WriteBound(columns[c].maxValue).value
  }

  function NullObject(columns: map<string, ColumnStats>): map<string, Value> {
    map c | c in columns :: Num(FromI64(columns[c].nullCount))
  }

  function StatsObject(numRecords: I64, mins: map<string, Value>, maxs: map<string, Value>,
                       nulls: map<string, Value>): Value {
    Obj(map["numRecords" := Num(FromI64(numRecords)),
            "minValues" := Obj(mins),
            "maxValues" := Obj(maxs),
            "nullCount" := Obj(nulls)])
  }

  function Write(stats: Option<FileStats>): Option<Text> {
    match stats
    case None => None
    case Some(fs) =>
      Some(Parses(StatsObject(fs.numRecords, MinObject(fs.columns), MaxObject(fs.columns), NullObject(fs.columns))))
  }

  function Restrict(columns: map<string, ColumnStats>, keys: set<string>): map<string, ColumnStats> {
    map c | c in columns && c in keys :: columns[c]
  }

  /** The writer's loop: columns in any order, each inserted into up to three objects. */
  method MapFileStats(stats: Option<FileStats>) returns (text: Option<Text>)
    ensures text == Write(stats) && WritesAs(stats, text)
  {
    if stats.None? {
      return None;
    }
    var columns := stats.value.columns;
    var minValues, maxValues, nullCount := map[], map[], map[];
    var rest := columns.Keys;
    while rest != {}
      invariant rest <= columns.Keys
      invariant var done := Restrict(columns, columns.Keys - rest);
                minValues == MinObject(done) && maxValues == MaxObject(done) && nullCount == NullObject(done)
    {
      var c :| c in rest;
      var min := WriteBound(columns[c].minValue);
      if min.Some? {
        minValues := minValues[c := min.value];
      }
      var max := WriteBound(columns[c].maxValue);
      if max.Some? {
        maxValues := maxValues[c := max.value];
      }
      nullCount := nullCount[c := Num(FromI64(columns[c].nullCount))];
      rest := rest - {c};
    }
    assert Restrict(columns, columns.Keys) == columns;
    text := Some(Parses(StatsObject(stats.value.numRecords, minValues, maxValues, nullCount)));
    WriteMeans(stats);
  }

  // ----- Reading -----

  function Section(v: Value, name: string): map<string, Value> {
    match Get(v, name)
    case Some(Obj(fields)) => fields
    case _ => map[]
  }

  function ReadIn(section: map<string, Value>, c: string): Option<Bound> {
    if c in section then ReadBound(section[c]) else None
  }

  function IntOr0(v: Option<Value>): I64 {
    match v
    case None => 0
    case Some(x) => match AsI64(x) case Some(i) => i case None => 0
  }

  function ReadColumn(mins: map<string, Value>, maxs: map<string, Value>, nulls: map<string, Value>, c: string):
    ColumnStats
  {
    ColumnStats(ReadIn(mins, c), ReadIn(maxs, c), IntOr0(if c in nulls then Some(nulls[c]) else None))
  }

  function ReadColumns(mins: map<string, Value>, maxs: map<string, Value>, nulls: map<string, Value>):
    map<string, ColumnStats>
  {
    map c | c in mins.Keys + maxs.Keys + nulls.Keys :: ReadColumn(mins, maxs, nulls, c)
  }

  function ReadValue(v: Value): FileStats {
    FileStats(IntOr0(Get(v, "numRecords")),
              ReadColumns(Section(v, "minValues"), Section(v, "maxValues"), Section(v, "nullCount")))
  }

  function Read(text: Option<Text>): Option<FileStats> {
    match text
    case Some(Parses(v)) => Some(ReadValue(v))
    case _ => None
  }

  /** The reader's loop: the names of the three sections are collected, then looked up again. */
  method MapStatsJsonToPb(text: Option<Text>) returns (stats: Option<FileStats>)
    ensures stats == Read(text) && ReadsAs(text, stats)
  {
    ReadMeans(text);
    if text.None? || text.value.Malformed? {
      return None;
    }
    var value := text.value.value;
    var numRecords := IntOr0(Get(value, "numRecords"));
    var minValues, maxValues := Section(value, "minValues"), Section(value, "maxValues");
    var nullCounts := Section(value, "nullCount");
    var columns := CollectColumns(minValues, maxValues, nullCounts);
    stats := Some(FileStats(numRecords, columns));
  }

  method CollectColumns(minValues: map<string, Value>, maxValues: map<string, Value>, nullCounts: map<string, Value>)
    returns (columns: map<string, ColumnStats>)
    ensures columns == ReadColumns(minValues, maxValues, nullCounts)
  {
    var names: set<string> := {};
    names := names + minValues.Keys;
    names := names + maxValues.Keys;
    names := names + nullCounts.Keys;
    columns := map[];
    var rest := names;
    while rest != {}
      invariant rest <= names
      invariant columns == map c | c in names - rest :: ReadColumn(minValues, maxValues, nullCounts, c)
    {
      var c :| c in rest;
      var min := if c in minValues then ReadBound(minValues[c]) else None;
      var max := if c in maxValues then ReadBound(maxValues[c]) else None;
      var nulls := if c in nullCounts then IntOr0(Some(nullCounts[c])) else 0;
      columns := columns[c := ColumnStats(min, max, nulls)];
      rest := rest - {c};
    }
  }

  // ----- What the two directions mean, entry by entry -----

  /** What a section has for a column; a section that is missing or not an object has nothing. */
  function EntryOf(v: Value, section: string, c: string): Option<Value> {
    match Get(v, section)
    case Some(s) => Get(s, c)
    case None => None
  }

  /** A string, a boolean or a number is the bound it says, an integer beyond the i64 range the
      nearest double.  Nothing, null, an array or an object is no bound. */
  ghost predicate StandsFor(entry: Option<Value>, b: Option<Bound>) {
    match entry
    case Some(Str(s)) => b == Some(StringBound(s))
    case Some(Bool(x)) => b == Some(BoolBound(x))
    case Some(Num(NegInt(i))) => b == Some(IntBound(i))
    case Some(Num(PosInt(u))) =>
      if u < TWO_63 then b == Some(IntBound(u)) else b.Some? && b.value.DoubleBound? && IsNearest(u, b.value.d)
    case Some(Num(Float(f))) => b == Some(DoubleBound(f))
    case Some(Null) => b.None?
    case Some(Arr(_)) => b.None?
    case Some(Obj(_)) => b.None?
    case None => b.None?
  }

  /** The i64 an entry is, and 0 if it is none. */
  function CountIn(entry: Option<Value>): int {
    match entry
    case Some(Num(NegInt(i))) => i
    case Some(Num(PosInt(u))) => if u < TWO_63 then u else 0
    case _ => 0
  }

  ghost predicate ReadsAs(text: Option<Text>, stats: Option<FileStats>) {
    && (stats.Some? <==> text.Some? && text.value.Parses?)
    && (stats.Some? ==>
          var v, fs := text.value.value, stats.value;
          && fs.numRecords == CountIn(Get(v, "numRecords"))
          && (forall c :: c in fs.columns <==>
                || EntryOf(v, "minValues", c).Some? || EntryOf(v, "maxValues", c).Some?
                || EntryOf(v, "nullCount", c).Some?)
          && (forall c | c in fs.columns ::
                && StandsFor(EntryOf(v, "minValues", c), fs.columns[c].minValue)
                && StandsFor(EntryOf(v, "maxValues", c), fs.columns[c].maxValue)
                && fs.columns[c].nullCount == CountIn(EntryOf(v, "nullCount", c))))
  }

  lemma ReadBoundMeans(section: map<string, Value>, c: string)
    ensures StandsFor(if c in section then Some(section[c]) else None, ReadIn(section, c))
  {
    if c in section && section[c].Num? && section[c].n.PosInt? && section[c].n.u >= TWO_63 {
      LargeIsNearest(section[c].n.u);
    }
  }

  lemma SectionMeans(v: Value, name: string, c: string)
    ensures EntryOf(v, name, c) == if c in Section(v, name) then Some(Section(v, name)[c]) else None
  {
  }

  lemma ReadColumnMeans(v: Value, c: string)
    ensures var mins, maxs, nulls := Section(v, "minValues"), Section(v, "maxValues"), Section(v, "nullCount");
            var column := ReadColumn(mins, maxs, nulls, c);
            && StandsFor(EntryOf(v, "minValues", c), column.minValue)
            && StandsFor(EntryOf(v, "maxValues", c), column.maxValue)
            && column.nullCount == CountIn(EntryOf(v, "nullCount", c))
  {
    SectionMeans(v, "minValues", c);
    SectionMeans(v, "maxValues", c);
    SectionMeans(v, "nullCount", c);
    ReadBoundMeans(Section(v, "minValues"), c);
    ReadBoundMeans(Section(v, "maxValues"), c);
  }

  /** From any text, whoever wrote it. */
  lemma ReadMeans(text: Option<Text>)
    ensures ReadsAs(text, Read(text))
  {
    if text.Some? && text.value.Parses? {
      var v := text.value.value;
      var columns := Read(text).value.columns;
      forall c: string
        ensures c in columns <==>
                EntryOf(v, "minValues", c).Some? || EntryOf(v, "maxValues", c).Some? || EntryOf(v, "nullCount", c).Some?
      {
        SectionMeans(v, "minValues", c);
        SectionMeans(v, "maxValues", c);
        SectionMeans(v, "nullCount", c);
      }
      forall c | c in columns
        ensures StandsFor(EntryOf(v, "minValues", c), columns[c].minValue)
        ensures StandsFor(EntryOf(v, "maxValues", c), columns[c].maxValue)
        ensures columns[c].nullCount == CountIn(EntryOf(v, "nullCount", c))
      {
        ReadColumnMeans(v, c);
      }
    }
  }

  /** `v` is the JSON of a bound that has one. */
  predicate Encodes(v: Value, b: Bound) {
    match b
    case IntBound(i) => v == Num(if i < 0 then NegInt(i) else PosInt(i))
    case DoubleBound(d) => v.Num? && v.n.Float? && v.n.f == d
    case StringBound(s) => v == Str(s)
    case BoolBound(x) => v == Bool(x)
  }

  /** The section has exactly the bounds that JSON can express. */
  ghost predicate SectionOf(v: Value, name: string, bounds: map<string, Option<Bound>>) {
    && Get(v, name).Some? && Get(v, name).value.Obj?
    && forall c ::
         var entry := EntryOf(v, name, c);
         && (entry.Some? <==> c in bounds && bounds[c].Some? && Representable(bounds[c]))
         && (entry.Some? ==> Encodes(entry.value, bounds[c].value))
  }

  ghost predicate WritesAs(stats: Option<FileStats>, text: Option<Text>) {
    && (text.Some? <==> stats.Some?)
    && (text.Some? ==>
          && text.value.Parses?
          && var v, fs := text.value.value, stats.value;
          && v.Obj? && v.fields.Keys == {"numRecords", "minValues", "maxValues", "nullCount"}
          && Encodes(v.fields["numRecords"], IntBound(fs.numRecords))
          && SectionOf(v, "minValues", map c | c in fs.columns :: fs.columns[c].minValue)
          && SectionOf(v, "maxValues", map c | c in fs.columns :: fs.columns[c].maxValue)
          && SectionOf(v, "nullCount", map c | c in fs.columns :: Some(IntBound(fs.columns[c].nullCount))))
  }

  lemma WrittenSection(v: Value, name: string, section: map<string, Value>, bounds: map<string, Option<Bound>>)
    requires Get(v, name) == Some(Obj(section))
    requires forall c :: c in section <==> c in bounds && WriteBound(bounds[c]).Some?
    requires forall c | c in section :: section[c] == WriteBound(bounds[c]).value
    ensures SectionOf(v, name, bounds)
  {
  }

  /** The writer leaves out the bounds that JSON cannot express, and nothing else. */
  lemma WriteMeans(stats: Option<FileStats>)
    ensures WritesAs(stats, Write(stats))
  {
    if stats.Some? {
      var columns := stats.value.columns;
      var v := Write(stats).value.value;
      SectionsOfStatsObject(stats.value.numRecords, MinObject(columns), MaxObject(columns), NullObject(columns));
      assert Get(v, "minValues").value == Obj(MinObject(columns));
      assert Get(v, "maxValues").value == Obj(MaxObject(columns));
      assert Get(v, "nullCount").value == Obj(NullObject(columns));
      WrittenSection(v, "minValues", MinObject(columns), map c | c in columns :: columns[c].minValue);
      WrittenSection(v, "maxValues", MaxObject(columns), map c | c in columns :: columns[c].maxValue);
      WrittenSection(v, "nullCount", NullObject(columns), map c | c in columns :: Some(IntBound(columns[c].nullCount)));
    }
  }

  // ----- Round trips -----

  predicate Representable(b: Option<Bound>) {
    b.Some? && b.value.DoubleBound? ==> IsFinite(b.value.d)
  }

  function EraseBound(b: Option<Bound>): Option<Bound> {
    if Representable(b) then b else None
  }

  /** The statistics with exactly the NaN and infinite bounds removed. */
  function Erase(fs: FileStats): FileStats {
    fs.(columns := map c | c in fs.columns ::
                     ColumnStats(EraseBound(fs.columns[c].minValue), EraseBound(fs.columns[c].maxValue),
                                 fs.columns[c].nullCount))
  }

  predicate AllRepresentable(fs: FileStats) {
    forall c | c in fs.columns :: Representable(fs.columns[c].minValue) && Representable(fs.columns[c].maxValue)
  }

  lemma BoundRoundTrip(b: Option<Bound>)
    ensures WriteBound(b).Some? <==> b.Some? && Representable(b)
    ensures WriteBound(b).Some? ==> ReadBound(WriteBound(b).value) == b
  {
  }

  lemma ReadBoundIsRepresentable(v: Value)
    ensures Representable(ReadBound(v))
  {
  }

  lemma SectionsOfStatsObject(n: I64, mins: map<string, Value>, maxs: map<string, Value>, nulls: map<string, Value>)
    ensures var v := StatsObject(n, mins, maxs, nulls);
            && Get(v, "numRecords") == Some(Num(FromI64(n)))
            && Section(v, "minValues") == mins
            && Section(v, "maxValues") == maxs
            && Section(v, "nullCount") == nulls
  {
    var v := StatsObject(n, mins, maxs, nulls);
    assert v.fields["numRecords"] == Num(FromI64(n));
    assert v.fields["minValues"] == Obj(mins);
    assert v.fields["maxValues"] == Obj(maxs);
    assert v.fields["nullCount"] == Obj(nulls);
  }

  lemma ColumnRoundTrip(columns: map<string, ColumnStats>, c: string)
    requires c in columns
    ensures ReadColumn(MinObject(columns), MaxObject(columns), NullObject(columns), c)
            == ColumnStats(EraseBound(columns[c].minValue), EraseBound(columns[c].maxValue), columns[c].nullCount)
  {
    BoundRoundTrip(columns[c].minValue);
    BoundRoundTrip(columns[c].maxValue);
    assert NullObject(columns)[c] == Num(FromI64(columns[c].nullCount));
  }

  /** Reading what was written loses the non-finite bounds and nothing else: every column is
      there, also one that has only a null count. */
  lemma WriteThenRead(fs: FileStats)
    ensures Read(Write(Some(fs))) == Some(Erase(fs))
  {
    var mins, maxs, nulls := MinObject(fs.columns), MaxObject(fs.columns), NullObject(fs.columns);
    SectionsOfStatsObject(fs.numRecords, mins, maxs, nulls);
    assert mins.Keys + maxs.Keys + nulls.Keys == fs.columns.Keys;
    forall c | c in fs.columns { ColumnRoundTrip(fs.columns, c); }
    assert ReadColumns(mins, maxs, nulls) == Erase(fs).columns;
  }

  /** It is the identity exactly on statistics without NaN or infinite bounds. */
  lemma WriteThenReadIsIdentity(fs: FileStats)
    ensures Read(Write(Some(fs))) == Some(fs) <==> AllRepresentable(fs)
  {
    WriteThenRead(fs);
    if AllRepresentable(fs) {
      assert Erase(fs).columns == fs.columns;
    } else {
      var c :| c in fs.columns && !(Representable(fs.columns[c].minValue) && Representable(fs.columns[c].maxValue));
      assert Erase(fs).columns[c] != fs.columns[c];
    }
  }

  /** What the reader returns, from any writer's text, is unchanged by writing and reading it. */
  lemma ReadIsNormalForm(text: Option<Text>)
    ensures Read(Write(Read(text))) == Read(text)
  {
    var stats := Read(text);
    if stats.Some? {
      var fs := stats.value;
      forall c | c in fs.columns
        ensures Representable(fs.columns[c].minValue) && Representable(fs.columns[c].maxValue)
      {
        var v := text.value.value;
        var mins, maxs := Section(v, "minValues"), Section(v, "maxValues");
        if c in mins {
          ReadBoundIsRepresentable(mins[c]);
        }
        if c in maxs {
          ReadBoundIsRepresentable(maxs[c]);
        }
      }
      WriteThenReadIsIdentity(fs);
    }
  }

  /** Statistics are read exactly when the text parses, and a column is reported exactly when one
      of the three sections is an object that names it. */
  lemma {:induction false} ColumnsRead(text: Option<Text>, c: string)
    ensures Read(text).Some? <==> text.Some? && text.value.Parses?
    ensures Read(text).Some? ==>
              (c in Read(text).value.columns <==>
               exists name | name in {"minValues", "maxValues", "nullCount"} ::
                 Get(text.value.value, name).Some? && Get(text.value.value, name).value.Obj?
                 && c in Get(text.value.value, name).value.fields)
  {
    if text.Some? && text.value.Parses? {
      var v := text.value.value;
      assert forall name :: c in Section(v, name) <==>
             Get(v, name).Some? && Get(v, name).value.Obj? && c in Get(v, name).value.fields;
    }
  }
}
