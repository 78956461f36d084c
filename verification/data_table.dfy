/** The generic table (components/dashboard/DataTable.tsx): one header cell
    per column plus an "Actions" header when an actions renderer is given,
    and one row per data item with one cell per column in column order.
    Rendering is modelled as the grid of cell values; `lookup` is the
    property read `item[key]`. */
module DataTable {
  import opened Wrappers

  /** A column reads a named field or computes its cell from the row. */
  datatype Accessor<!T, V> = Field(key: string) | Derived(f: T -> V)

  datatype Column<!T, V> = Column(header: string, accessor: Accessor<T, V>)

  datatype Table<V> = Table(head: seq<string>, body: seq<seq<V>>)

  /** `typeof accessor === "function" ? accessor(item) : item[accessor]`. */
  function Cell<T, V>(c: Column<T, V>, item: T, lookup: (T, string) -> V): V
  {
    match c.accessor
    case Field(key) => lookup(item, key)
    case Derived(f) => f(item)
  }

  /** The cells of one row. */
  function Row<T, V>(columns: seq<Column<T, V>>, item: T, actions: Option<T -> V>, lookup: (T, string) -> V): (row: seq<V>)
    ensures |row| == |columns| + (if actions.Some? then 1 else 0)
    ensures forall c :: 0 <= c < |columns| ==> row[c] == Cell(columns[c], item, lookup)
    ensures actions.Some? ==> row[|columns|] == actions.value(item)
  {
    var cells := seq(|columns|, c requires 0 <= c < |columns| => Cell(columns[c], item, lookup));
    match actions
    case None => cells
    case Some(render) => cells + [render(item)]
  }

  /** The header row. */
  function Head<T, V>(columns: seq<Column<T, V>>, actions: Option<T -> V>): (head: seq<string>)
    ensures |head| == |columns| + (if actions.Some? then 1 else 0)
    ensures forall c :: 0 <= c < |columns| ==> head[c] == columns[c].header
    ensures actions.Some? ==> head[|columns|] == "Actions"
  {
    var headers := seq(|columns|, c requires 0 <= c < |columns| => columns[c].header);
    if actions.Some? then headers + ["Actions"] else headers
  }

  /** The body, one row per item. */
  function Body<T, V>(columns: seq<Column<T, V>>, data: seq<T>, actions: Option<T -> V>, lookup: (T, string) -> V): (body: seq<seq<V>>)
    ensures |body| == |data|
    ensures forall r :: 0 <= r < |data| ==> body[r] == Row(columns, data[r], actions, lookup)
  {
    seq(|data|, r requires 0 <= r < |data| => Row(columns, data[r], actions, lookup))
  }

  /** The whole table. Every row is as wide as the header. */
  function Render<T, V>(columns: seq<Column<T, V>>, data: seq<T>, actions: Option<T -> V>, lookup: (T, string) -> V): (t: Table<V>)
    ensures |t.head| == |columns| + (if actions.Some? then 1 else 0)
    ensures |t.body| == |data|
    ensures forall r :: 0 <= r < |t.body| ==> |t.body[r]| == |t.head|
    ensures forall c :: 0 <= c < |columns| ==> t.head[c] == columns[c].header
    ensures actions.Some? ==> t.head[|columns|] == "Actions"
    ensures forall r, c :: 0 <= r < |data| && 0 <= c < |columns| ==> t.body[r][c] == Cell(columns[c], data[r], lookup)
    ensures actions.Some? ==> forall r :: 0 <= r < |data| ==> t.body[r][|columns|] == actions.value(data[r])
  {
    Table(Head(columns, actions), Body(columns, data, actions, lookup))
  }

  /** A row depends on its own item only: rendering two lists back to back
      gives the rows of each, back to back. */
  lemma BodyConcat<T, V>(columns: seq<Column<T, V>>, a: seq<T>, b: seq<T>, actions: Option<T -> V>, lookup: (T, string) -> V)
    ensures Body(columns, a + b, actions, lookup) == Body(columns, a, actions, lookup) + Body(columns, b, actions, lookup)
  {
    var whole := Body(columns, a + b, actions, lookup);
    var left := Body(columns, a, actions, lookup);
    var right := Body(columns, b, actions, lookup);
    forall r | 0 <= r < |whole|
      ensures whole[r] == (left + right)[r]
    {
      if r < |a| {
        assert (a + b)[r] == a[r];
      } else {
        assert (a + b)[r] == b[r - |a|];
      }
    }
  }

  /** A row given as a record of named text fields. */
  type Record = map<string, string>

  /** `item[key]`, `undefined` (`None`) for a missing key. */
  function RecordLookup(item: Record, key: string): Option<string>
  {
    if key in item then Some(item[key]) else None
  }

  /** One "Name" column over one record named Alice renders one row whose
      one cell is "Alice", with no "Actions" column. */
  lemma NameScenario()
    ensures var t := Render([Column("Name", Field("name"))], [map["id" := "1", "name" := "Alice"]], None, RecordLookup);
            t.head == ["Name"] && t.body == [[Some("Alice")]]
  {
    var col: Column<Record, Option<string>> := Column("Name", Field("name"));
    var alice: Record := map["id" := "1", "name" := "Alice"];
    var t := Render([col], [alice], None, RecordLookup);
    assert Cell(col, alice, RecordLookup) == Some("Alice");
    assert t.body[0] == [Some("Alice")];
  }
}
